/**
 * `Commit::Operations::Changelogs::Update`: when a merged pull request of a
 * release milestone carries a changelog label and a change-type label,
 * records it at the front of its release's changes in
 * "<scope>/data/releases.yml", keeps the releases newest first, and commits
 * and pushes the file.
 *
 * The event payload and the scope's settings are read through Config, as
 * the source does, so a value of the wrong shape raises where Ruby would.
 */
module ChangelogsUpdate {
  import opened Values
  import opened Configs
  import opened Sorting
  import opened Paths
  import opened Workspace

  const ReleasesFile := "data/releases.yml"
  const CommitMessage := "update releases"

  /** `event.config`: the payload of the event, a hash. */
  function EventConfig(event: map<string, Value>): Config {
    Config(Hash(event))
  }

  /** `scope.config`. */
  function ScopeConfig(settings: map<string, Value>): Config {
    Config(Hash(settings))
  }

  // ---------------------------------------------------------------------
  // Applicability

  /** `merged?`: the raw `pull_request.merged`, taken for its truthiness. */
  function Merged(event: map<string, Value>): (r: Result<bool>)
    ensures var pr := Lookup(event, "pull_request");
      r.Ok? <==> pr.Hash? || pr.Null?
    ensures var pr := Lookup(event, "pull_request");
      r.Ok? ==> (r.value <==> pr.Hash? && Truthy(Lookup(pr.entries, "merged")))
  {
    RawPathFollows(Hash(event), ["pull_request"], "merged");
    assert ["pull_request"] + ["merged"] == ["pull_request", "merged"];
    var merged :- RawPath(EventConfig(event), ["pull_request"], "merged");
    Ok(Truthy(merged))
  }

  /** `default_branch?`: the base ref is the repository's default branch
      (two missing values count as equal, as nil == nil). */
  function DefaultBranch(event: map<string, Value>): (r: Result<bool>)
    ensures r.Ok? <==> Navigable(Hash(event), ["pull_request", "base", "ref"]) &&
                       Navigable(Hash(event), ["pull_request", "base", "repo", "default_branch"])
    ensures r.Ok? ==> (r.value <==>
      Follow(Hash(event), ["pull_request", "base", "ref"]) ==
      Follow(Hash(event), ["pull_request", "base", "repo", "default_branch"]))
  {
    RawPathFollows(Hash(event), ["pull_request", "base"], "ref");
    RawPathFollows(Hash(event), ["pull_request", "base", "repo"], "default_branch");
    assert ["pull_request", "base"] + ["ref"] == ["pull_request", "base", "ref"];
    assert ["pull_request", "base", "repo"] + ["default_branch"] == ["pull_request", "base", "repo", "default_branch"];
    var ref :- RawPath(EventConfig(event), ["pull_request", "base"], "ref");
    var defaultBranch :- RawPath(EventConfig(event), ["pull_request", "base", "repo"], "default_branch");
    Ok(ref == defaultBranch)
  }

  /** `release_name`: the title of the pull request's milestone. */
  function ReleaseName(event: map<string, Value>): (r: Result<Value>)
    ensures r.Ok? <==> Navigable(Hash(event), ["pull_request", "milestone", "title"])
    ensures r.Ok? ==> r.value == Follow(Hash(event), ["pull_request", "milestone", "title"])
  {
    RawPathFollows(Hash(event), ["pull_request", "milestone"], "title");
    assert ["pull_request", "milestone"] + ["title"] == ["pull_request", "milestone", "title"];
    RawPath(EventConfig(event), ["pull_request", "milestone"], "title")
  }

  /** `release?`: a milestone title is set (any non-nil value). */
  function Release(event: map<string, Value>): (r: Result<bool>)
    ensures r.Ok? <==> Navigable(Hash(event), ["pull_request", "milestone", "title"])
    ensures r.Ok? ==> (r.value <==> Follow(Hash(event), ["pull_request", "milestone", "title"]) != Null)
  {
    var name :- ReleaseName(event);
    Ok(name != Null)
  }

  /** What `.map(&:name!)` answers: an array of raw values, or, sent to a
      Config (a hash or a missing key), another Config. */
  datatype Listing = Listed(values: seq<Value>) | Unlisted

  /** The raw `name` of each element of a wrapped array; an element that is
      not a Config (an array or a scalar) has no such method. */
  function BangAll(ws: seq<Wrapped>, name: string): (r: Result<seq<Value>>)
    ensures r.Ok? ==> |r.value| == |ws|
    ensures r.Ok? ==> forall k :: 0 <= k < |ws| ==> ws[k].Node? && Dig(ws[k].config, name) == Ok(r.value[k])
    ensures r.Err? ==> exists k :: 0 <= k < |ws| && (!ws[k].Node? || Dig(ws[k].config, name).Err?)
  {
    if ws == [] then Ok([])
    else if !ws[0].Node? then Err(NoMethodError)
    else
      var first :- Dig(ws[0].config, name);
      var rest :- BangAll(ws[1..], name);
      assert forall k :: 1 <= k < |ws| ==> ws[k] == ws[1..][k - 1];
      Ok([first] + rest)
  }

  /** `w.map(&:name!)`. */
  function MapBang(w: Wrapped, name: string): (r: Result<Listing>)
    ensures w.Node? ==> r == Ok(Unlisted)
    ensures w.Bare? ==> r == Err(NoMethodError)
    ensures w.Items? ==> (r.Ok? <==> BangAll(w.items, name).Ok?)
    ensures w.Items? && r.Ok? ==> r.value == Listed(BangAll(w.items, name).value)
  {
    match w
    case Items(ws) => var values :- BangAll(ws, name); Ok(Listed(values))
    case Node(_) => Ok(Unlisted)
    case Bare(_) => Err(NoMethodError)
  }

  /** `configured_changelog_labels`: `config.commit.changelogs.map(&:label!)`. */
  function ConfiguredLabels(settings: map<string, Value>): Result<Listing> {
    var w :- GetPath(ScopeConfig(settings), ["commit", "changelogs"]);
    MapBang(w, "label")
  }

  /** `event.config.pull_request.labels.map(&:name!)`. */
  function EventLabels(event: map<string, Value>): Result<Listing> {
    var w :- GetPath(EventConfig(event), ["pull_request", "labels"]);
    MapBang(w, "name")
  }

  /** Ruby's `a & b`: the elements of `a` that are in `b`, each once. Only
      membership and distinctness are stated: `any?` needs no more. */
  function Intersect(a: seq<Value>, b: seq<Value>): (r: seq<Value>)
    ensures forall v :: v in r <==> v in a && v in b
    ensures forall i, j :: 0 <= i < j < |r| ==> r[i] != r[j]
    decreases |a|
  {
    if a == [] then []
    else
      var rest := Intersect(a[..|a| - 1], b);
      var x := a[|a| - 1];
      assert a == a[..|a| - 1] + [x];
      if x in b && x !in rest then rest + [x] else rest
  }

  predicate AnyTruthy(s: seq<Value>) {
    exists k :: 0 <= k < |s| && Truthy(s[k])
  }

  /** The intersection holds a truthy value iff a truthy value is in both
      lists. */
  lemma AnyTruthyIntersect(a: seq<Value>, b: seq<Value>)
    ensures AnyTruthy(Intersect(a, b)) <==> exists v :: v in a && v in b && Truthy(v)
  {
    var both := Intersect(a, b);
    if v :| v in a && v in b && Truthy(v) {
      var k :| 0 <= k < |both| && both[k] == v;
    }
  }

  /** `changelog?`: `(configured & labels).any?`. The configured labels are
      evaluated first, then the event's; a Config on the left takes no
      argument for `&`, and a Config on the right is no array. */
  function Changelog(event: map<string, Value>, settings: map<string, Value>): (r: Result<bool>)
    ensures r.Ok? ==> ConfiguredLabels(settings).Ok? && ConfiguredLabels(settings).value.Listed? &&
                      EventLabels(event).Ok? && EventLabels(event).value.Listed?
    ensures r.Ok? ==> (r.value <==> exists v :: v in ConfiguredLabels(settings).value.values &&
                                                v in EventLabels(event).value.values && Truthy(v))
    ensures ConfiguredLabels(settings).Ok? && EventLabels(event).Ok? ==>
      (r.Ok? <==> ConfiguredLabels(settings).value.Listed? && EventLabels(event).value.Listed?)
  {
    var configured :- ConfiguredLabels(settings);
    var labels :- EventLabels(event);
    match configured
    case Unlisted => Err(ArgumentError)
    case Listed(a) =>
      match labels
      case Unlisted => Err(TypeError)
      case Listed(b) =>
        AnyTruthyIntersect(a, b);
        Ok(AnyTruthy(Intersect(a, b)))
  }

  /** `configured_changetypes.find { |t| event_labels.include?(t.label!) }`
      over a wrapped array: the index of the first changetype whose raw
      label is among the event's labels. The label is read before
      `include?` runs, so an element that is no Config fails first. */
  function FindChangetype(ws: seq<Wrapped>, labels: Listing): (r: Result<Option<nat>>)
    ensures r.Ok? && r.value.Some? ==>
      && r.value.value < |ws| && labels.Listed?
      && ws[r.value.value].Node? && Dig(ws[r.value.value].config, "label").Ok?
      && Dig(ws[r.value.value].config, "label").value in labels.values
    ensures r.Ok? ==> forall j :: 0 <= j < |ws| && (r.value.None? || j < r.value.value) ==>
      ws[j].Node? && Dig(ws[j].config, "label").Ok? && labels.Listed? &&
      Dig(ws[j].config, "label").value !in labels.values
  {
    if ws == [] then Ok(None)
    else if !ws[0].Node? then Err(NoMethodError)
    else
      var tag :- Dig(ws[0].config, "label");
      match labels
      case Unlisted => Err(ArgumentError)
      case Listed(b) =>
        if tag in b then Ok(Some(0))
        else
          var found :- FindChangetype(ws[1..], labels);
          assert forall j :: 1 <= j < |ws| ==> ws[j] == ws[1..][j - 1];
          match found
          case None => Ok(None)
          case Some(i) => Ok(Some(i + 1))
  }

  /** `type`: the `name` of the first configured changetype whose `label`
      the pull request carries, or that `label` when the name is nil or
      false; nil when none matches, when the match is an empty entry, or
      when the changetypes are not a list (`find` sent to a Config answers
      another Config with nil settings). */
  function Type(event: map<string, Value>, settings: map<string, Value>): (r: Result<Value>)
    ensures r.Ok? && r.value != Null ==>
      EventLabels(event).Ok? && GetPath(ScopeConfig(settings), ["commit", "changetypes"]).Ok? &&
      var ws := GetPath(ScopeConfig(settings), ["commit", "changetypes"]).value;
      ws.Items? &&
      exists k :: 0 <= k < |ws.items| && ws.items[k].Node? &&
        var c := ws.items[k].config;
        && Dig(c, "label").Ok? && Dig(c, "name").Ok?
        && EventLabels(event).value.Listed? && Dig(c, "label").value in EventLabels(event).value.values
        && (forall j :: 0 <= j < k ==>
              ws.items[j].Node? && Dig(ws.items[j].config, "label").Ok? &&
              Dig(ws.items[j].config, "label").value !in EventLabels(event).value.values)
        && r.value == (if Truthy(Dig(c, "name").value) then Dig(c, "name").value else Dig(c, "label").value)
    ensures EventLabels(event).Err? ==> r == Err(EventLabels(event).error)
    ensures EventLabels(event).Ok? && GetPath(ScopeConfig(settings), ["commit", "changetypes"]).Err? ==>
      r == Err(GetPath(ScopeConfig(settings), ["commit", "changetypes"]).error)
    ensures EventLabels(event).Ok? && GetPath(ScopeConfig(settings), ["commit", "changetypes"]).Ok? ==>
      var ws := GetPath(ScopeConfig(settings), ["commit", "changetypes"]).value;
      && (ws.Node? ==> r == Ok(Null))
      && (ws.Bare? ==> r == Err(NoMethodError))
      && (ws.Items? && FindChangetype(ws.items, EventLabels(event).value) == Ok(None) ==> r == Ok(Null))
      && (ws.Items? && FindChangetype(ws.items, EventLabels(event).value).Ok? &&
          FindChangetype(ws.items, EventLabels(event).value).value.Some? ==>
            var c := ws.items[FindChangetype(ws.items, EventLabels(event).value).value.value].config;
            r == Ok(if c.settings.Hash? then NameOrLabel(c.settings.entries) else Null))
  {
    var labels :- EventLabels(event);
    var w :- GetPath(ScopeConfig(settings), ["commit", "changetypes"]);
    match w
    case Bare(_) => Err(NoMethodError)
    case Node(_) => Ok(Null)
    case Items(ws) =>
      var found :- FindChangetype(ws, labels);
      match found
      case None => Ok(Null)
      case Some(k) =>
        var c := ws[k].config;
        if c.settings == Null then Ok(Null)
        else
          // The label was read, so the settings are a hash and `name!` answers too.
          var name := Dig(c, "name").value;
          if Truthy(name) then Ok(name) else Ok(Dig(c, "label").value)
  }

  /** `changetype.name! || changetype.label!`. */
  function NameOrLabel(m: map<string, Value>): Value {
    if Truthy(Lookup(m, "name")) then Lookup(m, "name") else Lookup(m, "label")
  }

  /** `applicable?`: the five checks, left to right, stopping at the first
      false one. */
  function Applicable(event: map<string, Value>, settings: map<string, Value>): (r: Result<bool>)
    ensures r == Ok(true) <==>
      && Merged(event) == Ok(true)
      && DefaultBranch(event) == Ok(true)
      && Release(event) == Ok(true)
      && Changelog(event, settings) == Ok(true)
      && Type(event, settings).Ok? && Type(event, settings).value != Null
  {
    var merged :- Merged(event);
    if !merged then Ok(false) else
    var defaultBranch :- DefaultBranch(event);
    if !defaultBranch then Ok(false) else
    var release :- Release(event);
    if !release then Ok(false) else
    var changelog :- Changelog(event, settings);
    if !changelog then Ok(false) else
    var changetype :- Type(event, settings);
    Ok(changetype != Null)
  }

  // ---------------------------------------------------------------------
  // The release data

  /** The change recorded for the pull request. */
  function Entry(event: map<string, Value>, changetype: Value): (r: Result<Value>)
    ensures r.Ok? ==> r.value.Hash? && r.value.entries.Keys == {"id", "type", "summary", "link", "author"}
    ensures r.Ok? ==> r.value.entries["type"] == changetype
  {
    var ev := EventConfig(event);
    var id :- RawPath(ev, ["pull_request"], "number");
    var summary :- RawPath(ev, ["pull_request"], "title");
    var link :- RawPath(ev, ["pull_request"], "html_url");
    var username :- RawPath(ev, ["pull_request", "user"], "login");
    var authorLink :- RawPath(ev, ["pull_request", "user"], "html_url");
    Ok(Hash(map[
      "id" := id,
      "type" := changetype,
      "summary" := summary,
      "link" := link,
      "author" := Hash(map["username" := username, "link" := authorLink])]))
  }

  /** The entry is read from the pull request in the payload: it exists
      iff `pull_request` is a hash or nil and so is its `user`, and each
      field is the nested value, nil where a key is missing. */
  lemma EntryReadsThePullRequest(event: map<string, Value>, changetype: Value)
    ensures Entry(event, changetype).Ok? <==>
      && Navigable(Hash(event), ["pull_request", "number"])
      && Navigable(Hash(event), ["pull_request", "user", "login"])
    ensures Entry(event, changetype).Ok? ==> Entry(event, changetype).value == Hash(map[
      "id" := Follow(Hash(event), ["pull_request", "number"]),
      "type" := changetype,
      "summary" := Follow(Hash(event), ["pull_request", "title"]),
      "link" := Follow(Hash(event), ["pull_request", "html_url"]),
      "author" := Hash(map[
        "username" := Follow(Hash(event), ["pull_request", "user", "login"]),
        "link" := Follow(Hash(event), ["pull_request", "user", "html_url"])])])
  {
    PullRequestField(event, "number");
    PullRequestField(event, "title");
    PullRequestField(event, "html_url");
    UserField(event, "login");
    UserField(event, "html_url");
  }

  /** `event.config.pull_request.<key>!` is the nested value, and it can be
      read iff `pull_request` is a hash or nil. */
  lemma PullRequestField(event: map<string, Value>, key: string)
    ensures RawPath(EventConfig(event), ["pull_request"], key).Ok? <==>
      Navigable(Hash(event), ["pull_request", key])
    ensures Navigable(Hash(event), ["pull_request", key]) <==> Navigable(Hash(event), ["pull_request", "number"])
    ensures RawPath(EventConfig(event), ["pull_request"], key).Ok? ==>
      RawPath(EventConfig(event), ["pull_request"], key).value == Follow(Hash(event), ["pull_request", key])
  {
    RawPathFollows(Hash(event), ["pull_request"], key);
    assert ["pull_request"] + [key] == ["pull_request", key];
  }

  /** `event.config.pull_request.user.<key>!` is the nested value, and it
      can be read iff `pull_request` and its `user` are hashes or nil. */
  lemma UserField(event: map<string, Value>, key: string)
    ensures RawPath(EventConfig(event), ["pull_request", "user"], key).Ok? <==>
      Navigable(Hash(event), ["pull_request", "user", key])
    ensures Navigable(Hash(event), ["pull_request", "user", key]) <==>
      Navigable(Hash(event), ["pull_request", "user", "login"])
    ensures RawPath(EventConfig(event), ["pull_request", "user"], key).Ok? ==>
      RawPath(EventConfig(event), ["pull_request", "user"], key).value == Follow(Hash(event), ["pull_request", "user", key])
  {
    RawPathFollows(Hash(event), ["pull_request", "user"], key);
    assert ["pull_request", "user"] + [key] == ["pull_request", "user", key];
  }

  /** `releases_data`: the parsed file, or an empty list when the file is
      empty or holds nil or false. */
  function ReleasesData(content: Value): (r: Value)
    ensures !Truthy(content) ==> r == List([])
    ensures Truthy(content) ==> r == content
  {
    if Truthy(content) then content else List([])
  }

  /** `release["version"]`, for finding and ordering. */
  function VersionOf(release: Value): Value {
    match Index(release, "version")
    case Ok(v) => v
    case Err(_) => Null
  }

  /** `releases_data.find { |release| release["version"] == release_name }`. */
  function FindRelease(xs: seq<Value>, name: Value): (r: Result<Option<nat>>)
    ensures r.Ok? && r.value.Some? ==> r.value.value < |xs| && Index(xs[r.value.value], "version") == Ok(name)
    ensures r.Ok? ==> forall j :: 0 <= j < |xs| && (r.value.None? || j < r.value.value) ==>
      Index(xs[j], "version").Ok? && Index(xs[j], "version").value != name
    ensures r.Err? ==> exists j :: 0 <= j < |xs| && Index(xs[j], "version").Err?
  {
    if xs == [] then Ok(None)
    else
      var version :- Index(xs[0], "version");
      if version == name then Ok(Some(0))
      else
        var found :- FindRelease(xs[1..], name);
        assert forall j :: 1 <= j < |xs| ==> xs[j] == xs[1..][j - 1];
        match found
        case None => Ok(None)
        case Some(i) => Ok(Some(i + 1))
  }

  function NewRelease(name: Value): Value {
    Hash(map["version" := name, "changes" := List([])])
  }

  /** `release["changes"].unshift(entry)`: only an array takes it. */
  function Unshift(release: Value, entry: Value): (r: Result<Value>)
    ensures r.Ok? <==> release.Hash? && Lookup(release.entries, "changes").List?
    ensures r.Ok? ==> r.value == Hash(release.entries["changes" := List([entry] + Lookup(release.entries, "changes").items)])
  {
    var changes :- Index(release, "changes");
    if changes.List? then
      Ok(Hash(release.entries["changes" := List([entry] + changes.items)]))
    else Err(NoMethodError)
  }

  /** Find or create the release, then put the entry at the front of its
      changes. */
  function AddChange(data: Value, name: Value, entry: Value): (r: Result<seq<Value>>)
    ensures r.Ok? ==> data.List? && FindRelease(data.items, name).Ok?
  {
    match data
    case List(xs) =>
      var found :- FindRelease(xs, name);
      (match found
       case Some(i) =>
         var updated :- Unshift(xs[i], entry);
         Ok(xs[i := updated])
       case None =>
         var created :- Unshift(NewRelease(name), entry);
         Ok(xs + [created]))
    case Hash(m) => if m == map[] then Err(NoMethodError) else Err(TypeError)
    case _ => Err(NoMethodError)
  }

  /** A release `{version: name, changes: [entry, ...earlier]}`. */
  predicate RecordsEntry(release: Value, name: Value, entry: Value) {
    && release.Hash?
    && Lookup(release.entries, "version") == name
    && Lookup(release.entries, "changes").List?
    && |Lookup(release.entries, "changes").items| > 0
    && Lookup(release.entries, "changes").items[0] == entry
  }

  /** After the update some release of the milestone's name leads with the
      entry. A release is added exactly when none had that version, at the
      end and with the entry as its only change; otherwise the first release
      of that version gains the entry in front of its earlier changes and
      every other release is left as it was; that release keeps its other
      keys. */
  lemma {:induction false} AddChangeRecordsTheEntry(data: Value, name: Value, entry: Value)
    requires AddChange(data, name, entry).Ok?
    ensures var xs := data.items;
      var r := AddChange(data, name, entry).value;
      && (exists i :: 0 <= i < |r| && RecordsEntry(r[i], name, entry))
      && ((exists j :: 0 <= j < |xs| && Index(xs[j], "version") == Ok(name)) ==>
            |r| == |xs| &&
            exists i :: 0 <= i < |xs| && RecordsEntry(r[i], name, entry) &&
              // the first release of that version ...
              Index(xs[i], "version") == Ok(name) &&
              (forall j :: 0 <= j < i ==> Index(xs[j], "version").Ok? && Index(xs[j], "version").value != name) &&
              // ... keeps its other keys and gains the entry in front of its changes
              xs[i].Hash? &&
              r[i] == Hash(xs[i].entries["changes" := List([entry] + Lookup(xs[i].entries, "changes").items)]) &&
              forall j :: 0 <= j < |xs| && j != i ==> r[j] == xs[j])
      && (!(exists j :: 0 <= j < |xs| && Index(xs[j], "version") == Ok(name)) ==>
            r == xs + [Hash(map["version" := name, "changes" := List([entry])])])
  {
    var xs := data.items;
    var r := AddChange(data, name, entry).value;
    var found := FindRelease(xs, name).value;
    match found
    case Some(i) =>
      assert Index(xs[i], "version") == Ok(name);
      assert xs[i].Hash?;
      assert RecordsEntry(r[i], name, entry);
      assert ([entry] + Lookup(xs[i].entries, "changes").items)[1..] == Lookup(xs[i].entries, "changes").items;
    case None =>
      assert [entry] + [] == [entry];
      assert NewRelease(name).entries["changes" := List([entry])] == map["version" := name, "changes" := List([entry])];
      assert r[|xs|] == Hash(map["version" := name, "changes" := List([entry])]);
      assert RecordsEntry(r[|xs|], name, entry);
  }

  /** Recording a second change for the same milestone adds no release. */
  lemma AddChangeTwiceAddsOneRelease(data: Value, name: Value, first: Value, second: Value)
    requires AddChange(data, name, first).Ok?
    requires AddChange(List(AddChange(data, name, first).value), name, second).Ok?
    ensures |AddChange(List(AddChange(data, name, first).value), name, second).value| ==
            |AddChange(data, name, first).value|
  {
    var r := AddChange(data, name, first).value;
    AddChangeRecordsTheEntry(data, name, first);
    var i :| 0 <= i < |r| && RecordsEntry(r[i], name, first);
    assert Index(r[i], "version") == Ok(name);
    AddChangeRecordsTheEntry(List(r), name, second);
  }

  /** Where a version sits among the classes Ruby's `<=>` compares within:
      strings, integers, anything else. */
  function KindRank(v: Value): nat {
    if v.Str? then 0 else if v.Int? then 1 else 2
  }

  /** The sort block `b["version"] <=> a["version"]` is not positive:
      newest first. Versions of different classes are kept apart so that
      the order is total; Ruby refuses to compare them (see SortReleases). */
  predicate NewerFirst(a: Value, b: Value) {
    var va := VersionOf(a);
    var vb := VersionOf(b);
    if KindRank(va) != KindRank(vb) then KindRank(va) < KindRank(vb)
    else if va.Str? then StrLe(vb.s, va.s)
    else if va.Int? then vb.i <= va.i
    else true
  }

  lemma NewerFirstIsTotalPreorder()
    ensures TotalPreorder(NewerFirst)
  {
    forall a, b ensures NewerFirst(a, b) || NewerFirst(b, a) {
      if VersionOf(a).Str? && VersionOf(b).Str? {
        StrLeTotal(VersionOf(a).s, VersionOf(b).s);
      }
    }
    forall a, b, c | NewerFirst(a, b) && NewerFirst(b, c) ensures NewerFirst(a, c) {
      if VersionOf(a).Str? && VersionOf(b).Str? && VersionOf(c).Str? {
        StrLeTransitive(VersionOf(c).s, VersionOf(b).s, VersionOf(a).s);
      }
    }
  }

  /** Two versions Ruby's `<=>` compares: both strings, both integers, or
      equal. */
  predicate Comparable(a: Value, b: Value) {
    (a.Str? && b.Str?) || (a.Int? && b.Int?) || a == b
  }

  predicate UniformVersions(xs: seq<Value>) {
    forall i, j :: 0 <= i < |xs| && 0 <= j < |xs| ==> Comparable(VersionOf(xs[i]), VersionOf(xs[j]))
  }

  /** `releases_data.sort { |a, b| b["version"] <=> a["version"] }`. With
      fewer than two releases the block never runs. Otherwise every release
      needs a version (the first one without fails), and the versions must
      compare with one another: any sort puts two differently-classed ones
      side by side and compares them. */
  function SortReleases(xs: seq<Value>): (r: Result<seq<Value>>)
    ensures r.Ok? ==> multiset(r.value) == multiset(xs)
    ensures r.Ok? ==> forall i, j ::
      (0 <= i < j < |r.value| && VersionOf(r.value[i]).Str? && VersionOf(r.value[j]).Str?) ==>
      StrLe(VersionOf(r.value[j]).s, VersionOf(r.value[i]).s)
    ensures |xs| >= 2 && UniformVersions(xs) && (forall k :: 0 <= k < |xs| ==> Index(xs[k], "version").Ok?) ==> r.Ok?
  {
    if |xs| < 2 then Ok(xs)
    else
      match FindFirst(xs, (x: Value) => Index(x, "version").Err?)
      case Some(i) => Err(Index(xs[i], "version").error)
      case None =>
        if UniformVersions(xs) then
          NewerFirstIsTotalPreorder();
          var sorted := Sort(xs, NewerFirst);
          assert forall i, j :: 0 <= i < j < |sorted| ==> NewerFirst(sorted[i], sorted[j]);
          Ok(sorted)
        else Err(ArgumentError)
  }

  /** `generate_release_data` as a function of the files: the new files and
      the error raised, if any. The entry is built first; the data file is
      created empty when missing. Once the change is recorded the file is
      opened with "w+", which empties it, and only then are the releases
      sorted: a failing sort leaves the file empty. */
  function ReleaseDataSpec(files: map<string, Value>, path: string, event: map<string, Value>,
                           name: Value, changetype: Value): (r: (map<string, Value>, Option<Error>))
  {
    match Entry(event, changetype)
    case Err(e) => (files, Some(e))
    case Ok(entry) =>
      var ensured := if path in files then files else files[path := Bool(false)];
      match AddChange(ReleasesData(ensured[path]), name, entry)
      case Err(e) => (ensured, Some(e))
      case Ok(releases) =>
        match SortReleases(releases)
        case Err(e) => (ensured[path := Bool(false)], Some(e))
        case Ok(sorted) => (ensured[path := List(sorted)], None)
  }

  /** A release data file that is missing (or empty) ends up holding the one
      new release with the one new change. */
  lemma MissingReleaseDataStartsAfresh(files: map<string, Value>, path: string, event: map<string, Value>,
                                       name: Value, changetype: Value)
    requires path !in files || !Truthy(files[path])
    requires Entry(event, changetype).Ok?
    ensures var r := ReleaseDataSpec(files, path, event, name, changetype);
      r.1 == None &&
      r.0 == files[path := List([Hash(map["version" := name, "changes" := List([Entry(event, changetype).value])])])]
  {
    var entry := Entry(event, changetype).value;
    var ensured := if path in files then files else files[path := Bool(false)];
    assert ReleasesData(ensured[path]) == List([]);
    var release := Hash(map["version" := name, "changes" := List([entry])]);
    FirstChangeOpensRelease(name, entry);
    assert SortReleases([release]) == Ok([release]);
    assert ensured[path := List([release])] == files[path := List([release])];
  }

  /** Releases whose versions do not compare (a string beside an integer)
      make the sort raise after the file was truncated: the release that
      was on file is lost and the file is left empty. */
  lemma MismatchedVersionsEmptyTheFile(files: map<string, Value>, path: string, event: map<string, Value>,
                                       changetype: Value)
    requires Entry(event, changetype).Ok?
    requires path in files
    requires files[path] == List([Hash(map["version" := Str("1.0"), "changes" := List([])])])
    ensures ReleaseDataSpec(files, path, event, Int(2), changetype) ==
      (files[path := Bool(false)], Some(ArgumentError))
  {
    var entry := Entry(event, changetype).value;
    var old1 := Hash(map["version" := Str("1.0"), "changes" := List([])]);
    var release := MismatchedVersionAdded(old1, entry);
    assert ReleasesData(files[path]) == List([old1]);
    assert ReleaseDataSpec(files, path, event, Int(2), changetype) ==
      (match SortReleases([old1, release])
       case Err(e) => (files[path := Bool(false)], Some(e))
       case Ok(sorted) => (files[path := List(sorted)], None));
  }

  /** A change for version 2 beside a release "1.0" opens a second release,
      and the two versions do not compare. */
  lemma MismatchedVersionAdded(old1: Value, entry: Value) returns (release: Value)
    requires old1 == Hash(map["version" := Str("1.0"), "changes" := List([])])
    ensures AddChange(List([old1]), Int(2), entry) == Ok([old1, release])
    ensures SortReleases([old1, release]) == Err(ArgumentError)
  {
    assert FindRelease([old1], Int(2)) == Ok(None);
    release := Hash(NewRelease(Int(2)).entries["changes" := List([entry])]);
    assert [entry] + [] == [entry];
    assert Unshift(NewRelease(Int(2)), entry) == Ok(release);
    assert [old1] + [release] == [old1, release];
    assert !Comparable(VersionOf(old1), VersionOf(release));
  }

  /** Adding a change to no releases opens one release holding it. */
  lemma FirstChangeOpensRelease(name: Value, entry: Value)
    ensures AddChange(List([]), name, entry) ==
      Ok([Hash(map["version" := name, "changes" := List([entry])])])
  {
    assert [entry] + [] == [entry];
    assert NewRelease(name).entries["changes" := List([entry])] == map["version" := name, "changes" := List([entry])];
    var release := Hash(map["version" := name, "changes" := List([entry])]);
    assert FindRelease([], name) == Ok(None);
    assert Unshift(NewRelease(name), entry) == Ok(release);
    assert [] + [release] == [release];
  }

  /** The find-or-append and `unshift` steps of `generate_release_data`,
      on the releases read from the file. */
  method AddToReleases(data: seq<Value>, name: Value, entry: Value) returns (r: Result<seq<Value>>)
    ensures r == AddChange(List(data), name, entry)
  {
    var releases := data;
    var found := FindRelease(releases, name);
    if found.Err? {
      return Err(found.error);
    }
    var i: nat;
    if found.value.Some? {
      i := found.value.value;
    } else {
      releases := releases + [NewRelease(name)];
      i := |releases| - 1;
    }
    var updated := Unshift(releases[i], entry);
    if updated.Err? {
      return Err(updated.error);
    }
    releases := releases[i := updated.value];
    if found.value.None? {
      assert releases == data + [updated.value];
    }
    return Ok(releases);
  }

  /** `generate_release_data`: updates the releases in place and writes them
      back sorted. */
  method GenerateReleaseData(checkout: Checkout, path: string, event: map<string, Value>,
                             name: Value, changetype: Value) returns (err: Option<Error>)
    modifies checkout
    ensures (checkout.files, err) == ReleaseDataSpec(old(checkout.files), path, event, name, changetype)
    ensures checkout.actions == old(checkout.actions)
  {
    var entry := Entry(event, changetype);
    if entry.Err? {
      return Some(entry.error);
    }
    if path !in checkout.files {
      checkout.files := checkout.files[path := Bool(false)];
    }
    var data := ReleasesData(checkout.files[path]);
    if !data.List? {
      return Some(AddChange(data, name, entry.value).error);
    }
    var added := AddToReleases(data.items, name, entry.value);
    if added.Err? {
      return Some(added.error);
    }
    err := WriteReleases(checkout, path, added.value);
  }

  /** Opening the file with "w+" empties it; the releases, newest version
      first, are then written, unless comparing their versions raises. */
  method WriteReleases(checkout: Checkout, path: string, releases: seq<Value>) returns (err: Option<Error>)
    modifies checkout
    ensures (checkout.files, err) == match SortReleases(releases)
      case Err(e) => (old(checkout.files)[path := Bool(false)], Some(e))
      case Ok(sorted) => (old(checkout.files)[path := List(sorted)], None)
    ensures checkout.actions == old(checkout.actions)
  {
    ghost var before := checkout.files;
    checkout.files := checkout.files[path := Bool(false)];
    var sorted := SortReleases(releases);
    if sorted.Err? {
      return Some(sorted.error);
    }
    assert checkout.files[path := List(sorted.value)] == before[path := List(sorted.value)];
    checkout.files := checkout.files[path := List(sorted.value)];
    err := None;
  }

  /** The applicable branch of `call`: pull, generate the release data,
      then commit and push; an error stops the sequence where it happens. */
  function PublishSpec(files: map<string, Value>, path: string, event: map<string, Value>,
                       name: Value, changetype: Value): (r: (map<string, Value>, seq<Action>, Option<Error>))
  {
    var written := ReleaseDataSpec(files, path, event, name, changetype);
    if written.1.Some? then (written.0, [Pull], written.1)
    else (written.0, [Pull, Commit(CommitMessage), Push], None)
  }

  /** `call` as a function of the files: the new files, the effects in
      order, and the error raised, if any. */
  function UpdateSpec(files: map<string, Value>, scopePath: string, event: map<string, Value>,
                      settings: map<string, Value>): (r: (map<string, Value>, seq<Action>, Option<Error>))
  {
    match Applicable(event, settings)
    case Err(e) => (files, [], Some(e))
    case Ok(applicable) =>
      if !applicable then (files, [], None)
      else PublishSpec(files, PathJoin(scopePath, ReleasesFile), event,
                       ReleaseName(event).value, Type(event, settings).value)
  }

  /** An event that is not applicable changes no file and causes no pull,
      commit or push. */
  lemma IgnoredEventsLeaveNoTrace(files: map<string, Value>, scopePath: string, event: map<string, Value>,
                                  settings: map<string, Value>)
    requires Applicable(event, settings) != Ok(true)
    ensures UpdateSpec(files, scopePath, event, settings).0 == files
    ensures UpdateSpec(files, scopePath, event, settings).1 == []
  {
  }

  /** A publication that succeeds pulls, writes the releases with the new
      change at the front of its release, commits with the message "update
      releases" and pushes, in that order. */
  lemma {:induction false} SuccessfulPublicationRecordsTheChange(files: map<string, Value>, path: string,
                                                                 event: map<string, Value>, name: Value, changetype: Value)
    requires PublishSpec(files, path, event, name, changetype).2.None?
    ensures PublishSpec(files, path, event, name, changetype).1 == [Pull, Commit("update releases"), Push]
    ensures var out := PublishSpec(files, path, event, name, changetype).0;
      path in out && out[path].List? &&
      exists i :: 0 <= i < |out[path].items| && RecordsEntry(out[path].items[i], name, Entry(event, changetype).value)
  {
    var entry := Entry(event, changetype).value;
    var ensured := if path in files then files else files[path := Bool(false)];
    var data := ReleasesData(ensured[path]);
    AddChangeRecordsTheEntry(data, name, entry);
    var releases := AddChange(data, name, entry).value;
    var i :| 0 <= i < |releases| && RecordsEntry(releases[i], name, entry);
    var sorted := SortReleases(releases).value;
    assert releases[i] in multiset(sorted);
    var k :| 0 <= k < |sorted| && sorted[k] == releases[i];
  }

  /** Pull, generate, commit and push. */
  method Publish(checkout: Checkout, path: string, event: map<string, Value>,
                 name: Value, changetype: Value) returns (err: Option<Error>)
    modifies checkout
    ensures var r := PublishSpec(old(checkout.files), path, event, name, changetype);
      checkout.files == r.0 && checkout.actions == old(checkout.actions) + r.1 && err == r.2
  {
    checkout.actions := checkout.actions + [Pull];
    err := GenerateReleaseData(checkout, path, event, name, changetype);
    if err.Some? {
      return;
    }
    checkout.actions := checkout.actions + [Commit(CommitMessage), Push];
  }

  /** `call`: the applicability gate, then the publication. */
  method Call(checkout: Checkout, scopePath: string, event: map<string, Value>,
              settings: map<string, Value>) returns (err: Option<Error>)
    modifies checkout
    ensures var r := UpdateSpec(old(checkout.files), scopePath, event, settings);
      checkout.files == r.0 && checkout.actions == old(checkout.actions) + r.1 && err == r.2
  {
    var applicable := Applicable(event, settings);
    if applicable.Err? {
      return Some(applicable.error);
    }
    if !applicable.value {
      return None;
    }
    err := Publish(checkout, PathJoin(scopePath, ReleasesFile), event,
                   ReleaseName(event).value, Type(event, settings).value);
  }
}
