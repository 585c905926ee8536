/**
 * `Commit::Operations::Externals::Include`: folds the settings and the
 * templates of the external groups a scope includes into the scope's own
 * configuration, in place.
 *
 * Groups come from the externals the scope lists, each one's configuration
 * loaded from its checkout and tagged with the repository it came from. A
 * group applies when its name is among the scope's `commit.includes`, and
 * the applicable groups are visited in the order of that list. Settings are
 * merged without ever overriding what is already there; a group template is
 * added only when no template already in the list claims its destination.
 */
module ExternalsInclude {
  import opened Values
  import opened Sorting
  import opened Paths
  import opened Scopes

  const TemplatesDirectory := "templates"

  /** One entry of a group's `templates` list. */
  datatype GroupTemplate = GroupTemplate(source: string, destination: string)

  /** One entry of an external's `commit.groups` list. */
  datatype Group = Group(name: string, config: Option<map<string, Value>>, templates: seq<GroupTemplate>)

  /** An external's configuration as `each_external_config` yields it:
      loaded from the external's checkout and tagged with its `repo`. */
  datatype External = External(repo: string, groups: seq<Group>)

  /** A group together with the repository of the external that offers it. */
  datatype Pairing = Pairing(group: Group, repo: string)

  /** A group template resolved for the scope: where its source lies under
      the scope's checkout of the external, and its destination. */
  datatype Candidate = Candidate(source: string, destination: string)

  /** The `deep_merge!` of the deep_merge gem, which is not part of this
      model. */
  type DeepMerge = (map<string, Value>, map<string, Value>) -> map<string, Value>

  // ---------------------------------------------------------------------
  // Applicable groups and their order

  /** `config.commit.includes.to_a`, as far as `include?` and `index` can
      use it. Anything but a list fails at the first group examined: a
      missing list or a hash comes back as a Config, whose `method_missing`
      takes no argument for `include?`, and a scalar has no such method. */
  function Includes(settings: map<string, Value>): (r: Result<seq<Value>>)
    ensures r.Ok? <==> Lookup(settings, "commit").Hash? &&
                       Lookup(Lookup(settings, "commit").entries, "includes").List?
    ensures r.Ok? ==> r.value == Lookup(Lookup(settings, "commit").entries, "includes").items
  {
    match Lookup(settings, "commit")
    case Hash(cm) =>
      (match Lookup(cm, "includes")
       case List(xs) => Ok(xs)
       case Hash(_) => Err(ArgumentError)
       case Null => Err(ArgumentError)
       case _ => Err(NoMethodError))
    case Null => Err(ArgumentError)
    case _ => Err(NoMethodError)
  }

  /** `applicable_group?`: the group's name is listed in `includes`. */
  predicate ApplicableGroup(includes: seq<Value>, g: Group) {
    Str(g.name) in includes
  }

  /** The applicable groups of one external, in its own order. */
  function ApplicableOf(repo: string, groups: seq<Group>, includes: seq<Value>): (r: seq<Pairing>)
    ensures forall p :: p in r <==> p.repo == repo && p.group in groups && ApplicableGroup(includes, p.group)
  {
    if groups == [] then []
    else if ApplicableGroup(includes, groups[0]) then
      [Pairing(groups[0], repo)] + ApplicableOf(repo, groups[1..], includes)
    else ApplicableOf(repo, groups[1..], includes)
  }

  /** `each_applicable_group` once `includes` is known: external by
      external, group by group, the groups whose name is included. */
  function ApplicableIn(externals: seq<External>, includes: seq<Value>): (r: seq<Pairing>)
    ensures forall p :: p in r <==>
      exists e :: e in externals && p.repo == e.repo && p.group in e.groups && ApplicableGroup(includes, p.group)
  {
    if externals == [] then []
    else
      var r := ApplicableOf(externals[0].repo, externals[0].groups, includes) + ApplicableIn(externals[1..], includes);
      assert forall e :: e in externals[1..] ==> e in externals;
      assert forall e :: e in externals ==> e == externals[0] || e in externals[1..];
      r
  }

  predicate NoGroups(externals: seq<External>) {
    forall k :: 0 <= k < |externals| ==> externals[k].groups == []
  }

  /** The position of `name` in `includes` (`includes.index(name)`). */
  function Rank(includes: seq<Value>, name: string): (r: nat)
    ensures Str(name) in includes ==> r < |includes| && includes[r] == Str(name)
    ensures Str(name) in includes ==> forall j :: 0 <= j < r ==> includes[j] != Str(name)
  {
    match FindFirst(includes, (v: Value) => v == Str(name))
    case Some(i) => i
    case None => |includes|
  }

  /** The comparison block of `each_sorted_applicable_group`. */
  function ByRank(includes: seq<Value>): (Pairing, Pairing) -> bool {
    (a: Pairing, b: Pairing) => Rank(includes, a.group.name) <= Rank(includes, b.group.name)
  }

  lemma ByRankIsTotalPreorder(includes: seq<Value>)
    ensures TotalPreorder(ByRank(includes))
  {
  }

  /** `each_sorted_applicable_group`: the applicable groups of all externals
      sorted by the position of their name in `includes`. */
  function SortedApplicable(settings: map<string, Value>, externals: seq<External>): (r: Result<seq<Pairing>>)
    ensures NoGroups(externals) ==> r == Ok([])
    ensures !NoGroups(externals) ==> (r.Ok? <==> Includes(settings).Ok?)
    ensures r.Ok? && !NoGroups(externals) ==>
      multiset(r.value) == multiset(ApplicableIn(externals, Includes(settings).value))
    ensures r.Ok? && !NoGroups(externals) ==> SortedBy(r.value, ByRank(Includes(settings).value))
  {
    if NoGroups(externals) then Ok([])
    else
      var includes :- Includes(settings);
      ByRankIsTotalPreorder(includes);
      Ok(Sort(ApplicableIn(externals, includes), ByRank(includes)))
  }

  /** A group is visited iff its name is in `includes`, and groups are
      visited in non-decreasing position of their name there. How often
      each is visited is `SortedApplicable`'s permutation clause. */
  lemma {:induction false} VisitedGroupsAreTheIncludedOnes(settings: map<string, Value>, externals: seq<External>)
    requires SortedApplicable(settings, externals).Ok?
    ensures var visited := SortedApplicable(settings, externals).value;
      && (forall p :: p in visited <==>
            exists e :: e in externals && p.repo == e.repo && p.group in e.groups &&
                        Includes(settings).Ok? && ApplicableGroup(Includes(settings).value, p.group))
      && (forall i, j :: 0 <= i < j < |visited| ==>
            Rank(Includes(settings).value, visited[i].group.name) <= Rank(Includes(settings).value, visited[j].group.name))
  {
    var visited := SortedApplicable(settings, externals).value;
    if NoGroups(externals) {
      forall e | e in externals ensures e.groups == [] {
        var k :| 0 <= k < |externals| && externals[k] == e;
      }
    } else {
      var includes := Includes(settings).value;
      var all := ApplicableIn(externals, includes);
      forall p ensures p in visited <==> p in all {
        assert p in visited <==> p in multiset(visited);
        assert p in all <==> p in multiset(all);
      }
    }
  }

  // ---------------------------------------------------------------------
  // Merging a group's settings

  /** `value.each { |v| settings << v unless settings.include?(v) }`: each
      incoming element that is not yet in the (growing) list is appended. */
  function AppendMissing(xs: seq<Value>, ys: seq<Value>): (r: seq<Value>)
    decreases |ys|
    ensures |xs| <= |r| && r[..|xs|] == xs
    ensures forall v :: v in r <==> v in xs || v in ys
    ensures forall i :: |xs| <= i < |r| ==> r[i] !in xs
    ensures forall i, j :: |xs| <= i < j < |r| ==> r[i] != r[j]
  {
    if ys == [] then xs
    else if ys[0] in xs then AppendMissing(xs, ys[1..])
    else
      var r := AppendMissing(xs + [ys[0]], ys[1..]);
      assert r[..|xs|] == (xs + [ys[0]])[..|xs|];
      r
  }

  /** `a` is `b` with some elements left out, the rest in order. */
  predicate IsSubsequence(a: seq<Value>, b: seq<Value>) {
    if a == [] then true
    else if b == [] then false
    else if a[0] == b[0] then IsSubsequence(a[1..], b[1..])
    else IsSubsequence(a, b[1..])
  }

  lemma {:induction false} SubsequenceTail(a: seq<Value>, b: seq<Value>)
    requires a != [] && IsSubsequence(a, b)
    ensures IsSubsequence(a[1..], b)
    decreases |b|, 1
  {
    if a[0] == b[0] {
      SubsequenceDropHead(a[1..], b[1..], b[0]);
    } else {
      SubsequenceTail(a, b[1..]);
      SubsequenceDropHead(a[1..], b[1..], b[0]);
    }
    assert b == [b[0]] + b[1..];
  }

  lemma {:induction false} SubsequenceDropHead(a: seq<Value>, rest: seq<Value>, y: Value)
    requires IsSubsequence(a, rest)
    ensures IsSubsequence(a, [y] + rest)
    decreases |rest| + 1, 0
  {
    assert ([y] + rest)[1..] == rest;
    if a != [] && a[0] == y {
      SubsequenceTail(a, rest);
    }
  }

  /** The appended elements appear in the order the incoming list has them. */
  lemma {:induction false} AppendMissingFollowsIncomingOrder(xs: seq<Value>, ys: seq<Value>)
    ensures IsSubsequence(AppendMissing(xs, ys)[|xs|..], ys)
    decreases |ys|
  {
    if ys == [] {
      assert AppendMissing(xs, ys)[|xs|..] == [];
    } else if ys[0] in xs {
      AppendMissingFollowsIncomingOrder(xs, ys[1..]);
      AppendMissingSkipsHead(xs, ys);
    } else {
      AppendMissingFollowsIncomingOrder(xs + [ys[0]], ys[1..]);
      AppendMissingTakesHead(xs, ys);
    }
  }

  /** A first element already present adds nothing, and the order of the
      rest carries over. */
  lemma AppendMissingSkipsHead(xs: seq<Value>, ys: seq<Value>)
    requires ys != [] && ys[0] in xs
    requires IsSubsequence(AppendMissing(xs, ys[1..])[|xs|..], ys[1..])
    ensures IsSubsequence(AppendMissing(xs, ys)[|xs|..], ys)
  {
    assert AppendMissing(xs, ys) == AppendMissing(xs, ys[1..]);
    SubsequenceDropHead(AppendMissing(xs, ys)[|xs|..], ys[1..], ys[0]);
    SliceAtHead(ys, 0);
  }

  /** A new first element is appended first, and the order of the rest
      carries over. */
  lemma AppendMissingTakesHead(xs: seq<Value>, ys: seq<Value>)
    requires ys != [] && ys[0] !in xs
    requires IsSubsequence(AppendMissing(xs + [ys[0]], ys[1..])[|xs| + 1..], ys[1..])
    ensures IsSubsequence(AppendMissing(xs, ys)[|xs|..], ys)
  {
    var xs' := xs + [ys[0]];
    var r := AppendMissing(xs', ys[1..]);
    assert AppendMissing(xs, ys) == r;
    assert r[|xs|] == ys[0] by {
      assert r[..|xs'|][|xs|] == xs'[|xs|];
    }
    SliceAtHead(r, |xs|);
    SubsequenceCons(ys[0], r[|xs'|..], ys[1..]);
    SliceAtHead(ys, 0);
  }

  lemma SliceAtHead<T>(s: seq<T>, n: nat)
    requires n < |s|
    ensures s[n..] == [s[n]] + s[n + 1..]
  {
  }

  lemma SubsequenceCons(y: Value, a: seq<Value>, b: seq<Value>)
    requires IsSubsequence(a, b)
    ensures IsSubsequence([y] + a, [y] + b)
  {
    assert ([y] + a)[1..] == a && ([y] + b)[1..] == b;
  }

  /** When every incoming element is already present, nothing is added. */
  lemma {:induction false} AppendMissingAllPresent(xs: seq<Value>, ys: seq<Value>)
    requires forall v :: v in ys ==> v in xs
    ensures AppendMissing(xs, ys) == xs
  {
    if ys != [] {
      AppendMissingAllPresent(xs, ys[1..]);
    }
  }

  /** Repeating a list merge adds nothing. */
  lemma AppendMissingIdempotent(xs: seq<Value>, ys: seq<Value>)
    ensures AppendMissing(AppendMissing(xs, ys), ys) == AppendMissing(xs, ys)
  {
    AppendMissingAllPresent(AppendMissing(xs, ys), ys);
  }

  /** The loop of the list branch, on the live list. */
  method MergeList(xs: seq<Value>, ys: seq<Value>) returns (r: seq<Value>)
    ensures r == AppendMissing(xs, ys)
  {
    r := xs;
    var j := 0;
    while j < |ys|
      invariant 0 <= j <= |ys|
      invariant AppendMissing(r, ys[j..]) == AppendMissing(xs, ys)
    {
      assert ys[j..][0] == ys[j] && ys[j..][1..] == ys[j + 1..];
      if ys[j] !in r {
        r := r + [ys[j]];
      }
      j := j + 1;
    }
    assert ys[j..] == [];
  }

  /** The scope's value under a key can take in the incoming one: an
      incoming list needs a list, an incoming hash needs a hash. (The source
      does not check this; a list merged into a string would concatenate.) */
  predicate KindsAgree(existing: Value, incoming: Value) {
    && (incoming.List? ==> existing.List?)
    && (incoming.Hash? ==> existing.Hash?)
  }

  predicate Compatible(target: map<string, Value>, incoming: map<string, Value>) {
    forall k :: k in incoming && k in target ==> KindsAgree(target[k], incoming[k])
  }

  /** The value under a key present on both sides after the merge. */
  function MergeValue(existing: Value, incoming: Value, deepMerge: DeepMerge): Value
    requires KindsAgree(existing, incoming)
  {
    match incoming
    case List(ys) => List(AppendMissing(existing.items, ys))
    case Hash(m) => Hash(deepMerge(existing.entries, m))
    case _ => existing
  }

  /** The settings once the incoming keys in `done` have been merged. */
  function MergeKeys(target: map<string, Value>, incoming: map<string, Value>, done: set<string>,
                     deepMerge: DeepMerge): map<string, Value>
    requires Compatible(target, incoming)
  {
    map k | k in target.Keys + (incoming.Keys * done) ::
      if k in incoming && k in done then
        (if k in target then MergeValue(target[k], incoming[k], deepMerge) else incoming[k])
      else target[k]
  }

  /** One group's `config` merged into the settings: a missing key takes the
      incoming value, a present key merges lists and hashes, and a present
      key with any other incoming value keeps the scope's value. */
  function MergeSettings(target: map<string, Value>, incoming: map<string, Value>,
                         deepMerge: DeepMerge): (r: map<string, Value>)
    requires Compatible(target, incoming)
    ensures r.Keys == target.Keys + incoming.Keys
    ensures forall k :: k in target && k !in incoming ==> r[k] == target[k]
    ensures forall k :: k in incoming && k !in target ==> r[k] == incoming[k]
    ensures forall k :: k in incoming && k in target && !incoming[k].List? && !incoming[k].Hash? ==>
      r[k] == target[k]
    ensures forall k :: k in incoming && k in target && incoming[k].List? ==>
      r[k] == List(AppendMissing(target[k].items, incoming[k].items))
    ensures forall k :: k in incoming && k in target && incoming[k].Hash? ==>
      r[k] == Hash(deepMerge(target[k].entries, incoming[k].entries))
  {
    MergeKeys(target, incoming, incoming.Keys, deepMerge)
  }

  /** Merging one more key into the settings. */
  lemma MergeKeysStep(target: map<string, Value>, incoming: map<string, Value>, done: set<string>,
                      key: string, deepMerge: DeepMerge)
    requires Compatible(target, incoming)
    requires key in incoming && key !in done
    ensures MergeKeys(target, incoming, done + {key}, deepMerge) ==
      MergeKeys(target, incoming, done, deepMerge)[key :=
        if key in target then MergeValue(target[key], incoming[key], deepMerge) else incoming[key]]
  {
  }

  /** The merge of one group into the live settings, key by key. */
  method MergeInto(scope: Scope, incoming: map<string, Value>, deepMerge: DeepMerge)
    requires Compatible(scope.settings, incoming)
    modifies scope
    ensures scope.settings == MergeSettings(old(scope.settings), incoming, deepMerge)
  {
    ghost var target := scope.settings;
    var pending := incoming.Keys;
    while pending != {}
      invariant pending <= incoming.Keys
      invariant scope.settings == MergeKeys(target, incoming, incoming.Keys - pending, deepMerge)
      decreases pending
    {
      var key :| key in pending;
      ghost var done := incoming.Keys - pending;
      MergeKeysStep(target, incoming, done, key, deepMerge);
      var value := incoming[key];
      if key in scope.settings {
        var existing := scope.settings[key];
        if value.List? {
          var merged := MergeList(existing.items, value.items);
          scope.settings := scope.settings[key := List(merged)];
        } else if value.Hash? {
          scope.settings := scope.settings[key := Hash(deepMerge(existing.entries, value.entries))];
        } else {
          assert scope.settings == scope.settings[key := existing];
        }
      } else {
        scope.settings := scope.settings[key := value];
      }
      pending := pending - {key};
      assert incoming.Keys - pending == done + {key};
    }
  }

  /** The `config` of the visited groups that have one, in visiting order. */
  function GroupConfigs(pairs: seq<Pairing>): (r: seq<map<string, Value>>)
    ensures |r| <= |pairs|
    ensures forall m :: m in r <==> exists k :: 0 <= k < |pairs| && pairs[k].group.config == Some(m)
  {
    if pairs == [] then []
    else
      var rest := GroupConfigs(pairs[1..]);
      assert forall k :: 1 <= k < |pairs| ==> pairs[k] == pairs[1..][k - 1];
      assert forall k :: 0 <= k < |pairs[1..]| ==> pairs[1..][k] == pairs[k + 1];
      if pairs[0].group.config.Some? then [pairs[0].group.config.value] + rest
      else rest
  }

  /** One more visited group contributes its config, if it has one, after
      those of the groups before it. */
  lemma {:induction false} GroupConfigsAppend(pairs: seq<Pairing>, p: Pairing)
    ensures GroupConfigs(pairs + [p]) ==
      GroupConfigs(pairs) + (if p.group.config.Some? then [p.group.config.value] else [])
    decreases |pairs|
  {
    if pairs == [] {
      assert [p][1..] == [];
    } else {
      assert (pairs + [p])[1..] == pairs[1..] + [p];
      GroupConfigsAppend(pairs[1..], p);
    }
  }

  /** Every group's merge meets settings it can take in. */
  predicate MergeableAll(target: map<string, Value>, configs: seq<map<string, Value>>, deepMerge: DeepMerge)
    decreases |configs|
  {
    configs == [] ||
    (Compatible(target, configs[0]) &&
     MergeableAll(MergeSettings(target, configs[0], deepMerge), configs[1..], deepMerge))
  }

  /** The settings after every group's merge, in order. No key is ever
      removed. */
  function MergeAll(target: map<string, Value>, configs: seq<map<string, Value>>,
                    deepMerge: DeepMerge): (r: map<string, Value>)
    requires MergeableAll(target, configs, deepMerge)
    ensures target.Keys <= r.Keys
    decreases |configs|
  {
    if configs == [] then target
    else MergeAll(MergeSettings(target, configs[0], deepMerge), configs[1..], deepMerge)
  }

  /** `GroupConfigs` of a suffix, one pairing at a time. */
  lemma GroupConfigsAt(pairs: seq<Pairing>, i: nat)
    requires i < |pairs|
    ensures GroupConfigs(pairs[i..]) ==
      if pairs[i].group.config.Some? then [pairs[i].group.config.value] + GroupConfigs(pairs[i + 1..])
      else GroupConfigs(pairs[i + 1..])
  {
    assert pairs[i..][0] == pairs[i] && pairs[i..][1..] == pairs[i + 1..];
  }

  /** Merging a first group, then the rest. */
  lemma MergeAllStep(target: map<string, Value>, first: map<string, Value>, rest: seq<map<string, Value>>,
                     deepMerge: DeepMerge)
    requires MergeableAll(target, [first] + rest, deepMerge)
    ensures Compatible(target, first)
    ensures MergeableAll(MergeSettings(target, first, deepMerge), rest, deepMerge)
    ensures MergeAll(target, [first] + rest, deepMerge) == MergeAll(MergeSettings(target, first, deepMerge), rest, deepMerge)
  {
    assert ([first] + rest)[0] == first && ([first] + rest)[1..] == rest;
  }

  /** A value the scope already holds that is neither a list nor a hash is
      never replaced, whatever the groups bring: own settings win. */
  lemma {:induction false} ScopeScalarsSurvive(target: map<string, Value>, configs: seq<map<string, Value>>,
                                               deepMerge: DeepMerge, k: string)
    requires MergeableAll(target, configs, deepMerge)
    requires k in target && !target[k].List? && !target[k].Hash?
    ensures MergeAll(target, configs, deepMerge)[k] == target[k]
    decreases |configs|
  {
    if configs != [] {
      var next := MergeSettings(target, configs[0], deepMerge);
      assert next[k] == target[k];
      ScopeScalarsSurvive(next, configs[1..], deepMerge, k);
    }
  }

  /** `deep_merge!` adds nothing when repeated, and nothing when a hash is
      merged into itself. */
  ghost predicate DeepMergeIdempotent(deepMerge: DeepMerge) {
    && (forall a, b :: deepMerge(deepMerge(a, b), b) == deepMerge(a, b))
    && (forall b :: deepMerge(b, b) == b)
  }

  /** Merging the same group twice is the same as merging it once, given a
      `deep_merge!` that is idempotent: lists gain no duplicates, scalars
      stay, missing keys are already filled. */
  lemma MergeSettingsIdempotent(target: map<string, Value>, incoming: map<string, Value>, deepMerge: DeepMerge)
    requires Compatible(target, incoming)
    requires DeepMergeIdempotent(deepMerge)
    ensures Compatible(MergeSettings(target, incoming, deepMerge), incoming)
    ensures MergeSettings(MergeSettings(target, incoming, deepMerge), incoming, deepMerge) ==
            MergeSettings(target, incoming, deepMerge)
  {
    var once := MergeSettings(target, incoming, deepMerge);
    var twice := MergeSettings(once, incoming, deepMerge);
    forall k | k in once ensures twice[k] == once[k] {
      if k in incoming && incoming[k].List? {
        if k in target {
          AppendMissingIdempotent(target[k].items, incoming[k].items);
        } else {
          AppendMissingAllPresent(incoming[k].items, incoming[k].items);
        }
      }
    }
  }

  // ---------------------------------------------------------------------
  // Composing the template list

  /** The candidates of the visited groups: every template of every group,
      with its source placed under "<scope>/templates/<repo>/". */
  function CandidatesOf(scopePath: string, pairs: seq<Pairing>): (r: seq<Candidate>)
    ensures forall c :: c in r ==>
      (exists k, t :: 0 <= k < |pairs| && t in pairs[k].group.templates && c == CandidateOf(scopePath, pairs[k].repo, t))
    ensures forall k, t :: 0 <= k < |pairs| && t in pairs[k].group.templates ==>
      CandidateOf(scopePath, pairs[k].repo, t) in r
  {
    if pairs == [] then []
    else
      var first := TemplatesOf(scopePath, pairs[0].repo, pairs[0].group.templates);
      var rest := CandidatesOf(scopePath, pairs[1..]);
      var r := first + rest;
      forall c | c in r
        ensures exists k, t :: 0 <= k < |pairs| && t in pairs[k].group.templates && c == CandidateOf(scopePath, pairs[k].repo, t)
      {
        if c in rest {
          var k, t :| 0 <= k < |pairs[1..]| && t in pairs[1..][k].group.templates &&
            c == CandidateOf(scopePath, pairs[1..][k].repo, t);
          assert pairs[1..][k] == pairs[k + 1];
        }
      }
      forall k, t | 0 <= k < |pairs| && t in pairs[k].group.templates
        ensures CandidateOf(scopePath, pairs[k].repo, t) in r
      {
        if k == 0 {
          var i :| 0 <= i < |pairs[0].group.templates| && pairs[0].group.templates[i] == t;
          assert first[i] == CandidateOf(scopePath, pairs[k].repo, t);
        } else {
          assert pairs[1..][k - 1] == pairs[k];
        }
      }
      r
  }

  /** One more visited group adds its templates' candidates, in its order,
      after those of the groups before it. */
  lemma {:induction false} CandidatesOfAppend(scopePath: string, pairs: seq<Pairing>, p: Pairing)
    ensures CandidatesOf(scopePath, pairs + [p]) ==
      CandidatesOf(scopePath, pairs) + TemplatesOf(scopePath, p.repo, p.group.templates)
    decreases |pairs|
  {
    var last := TemplatesOf(scopePath, p.repo, p.group.templates);
    if pairs == [] {
      assert [p][1..] == [];
      assert last + [] == last;
    } else {
      assert (pairs + [p])[0] == pairs[0];
      assert (pairs + [p])[1..] == pairs[1..] + [p];
      CandidatesOfAppend(scopePath, pairs[1..], p);
      var first := TemplatesOf(scopePath, pairs[0].repo, pairs[0].group.templates);
      assert first + (CandidatesOf(scopePath, pairs[1..]) + last) ==
             (first + CandidatesOf(scopePath, pairs[1..])) + last;
    }
  }

  /** One candidate per template of a group, in the group's order. */
  function TemplatesOf(scopePath: string, repo: string, templates: seq<GroupTemplate>): (r: seq<Candidate>)
    ensures |r| == |templates|
    ensures forall k :: 0 <= k < |r| ==> r[k] == CandidateOf(scopePath, repo, templates[k])
    ensures forall c :: c in r ==> exists t :: t in templates && c == CandidateOf(scopePath, repo, t)
  {
    if templates == [] then []
    else [CandidateOf(scopePath, repo, templates[0])] + TemplatesOf(scopePath, repo, templates[1..])
  }

  /** The source `scope.path.join("templates", repo, template.source)`, and
      the destination copied verbatim. */
  function CandidateOf(scopePath: string, repo: string, t: GroupTemplate): (c: Candidate)
    ensures c.destination == t.destination
  {
    Candidate(PathJoin(PathJoin(PathJoin(scopePath, TemplatesDirectory), repo), t.source), t.destination)
  }

  /** The hash appended to the template list for a candidate. */
  function EntryOf(c: Candidate): Value {
    Hash(map["source" := Str(c.source), "destination" := Str(c.destination)])
  }

  /** `configured_template.destination` as `File.expand_path` takes it:
      only a string will do. A nil or hash destination comes back as a
      Config and an array or number is no path (TypeError); an entry that is
      not a hash has no `destination` method. */
  function DestinationOf(e: Value): (r: Result<string>)
    ensures e.Hash? && "destination" in e.entries && e.entries["destination"].Str? ==>
      r == Ok(e.entries["destination"].s)
    ensures r.Ok? ==> e.Hash? && Lookup(e.entries, "destination") == Str(r.value)
  {
    match e
    case Hash(m) => (match Lookup(m, "destination") case Str(d) => Ok(d) case _ => Err(TypeError))
    case Null => Err(TypeError)
    case _ => Err(NoMethodError)
  }

  lemma DestinationOfEntry(c: Candidate)
    ensures DestinationOf(EntryOf(c)) == Ok(c.destination)
  {
  }

  /** Entry `e` names a destination and it is not `dest` once expanded. */
  predicate ClaimsOther(e: Value, dest: string, expand: string -> string) {
    DestinationOf(e).Ok? && expand(DestinationOf(e).value) != expand(dest)
  }

  /** Entry `e` claims `dest`: its destination expands to the same path. */
  predicate Claims(e: Value, dest: string, expand: string -> string) {
    DestinationOf(e).Ok? && expand(DestinationOf(e).value) == expand(dest)
  }

  /** `config.commit.templates.to_a.any? { ... }` over the live list: the
      scan stops at the first claim, and fails at the first entry before
      it whose destination cannot be expanded. */
  function Claimed(list: seq<Value>, dest: string, expand: string -> string): (r: Result<bool>)
    ensures r == Ok(true) ==> exists j :: 0 <= j < |list| && Claims(list[j], dest, expand)
    ensures r == Ok(false) ==> forall j :: 0 <= j < |list| ==> ClaimsOther(list[j], dest, expand)
    ensures r.Err? ==> exists j :: 0 <= j < |list| && DestinationOf(list[j]).Err?
  {
    if list == [] then Ok(false)
    else
      match DestinationOf(list[0])
      case Err(e) => Err(e)
      case Ok(d) =>
        if expand(d) == expand(dest) then Ok(true)
        else
          var r := Claimed(list[1..], dest, expand);
          assert forall j :: 1 <= j < |list| ==> list[j] == list[1..][j - 1];
          r
  }

  /** `include_templates`' loop: each candidate in turn is appended unless
      an entry already in the list, the scope's own or one appended before,
      claims its destination. Returns the list and the error that stopped
      the loop, if any. */
  function Compose(list: seq<Value>, cands: seq<Candidate>, expand: string -> string): (r: (seq<Value>, Option<Error>))
    ensures |list| <= |r.0| && r.0[..|list|] == list
    ensures forall i :: |list| <= i < |r.0| ==> exists c :: c in cands && r.0[i] == EntryOf(c)
    ensures forall i :: |list| <= i < |r.0| ==> DestinationOf(r.0[i]).Ok?
    ensures forall i, j :: |list| <= i < |r.0| && 0 <= j < i ==>
      ClaimsOther(r.0[j], DestinationOf(r.0[i]).value, expand)
    decreases |cands|
  {
    if cands == [] then (list, None)
    else
      match Claimed(list, cands[0].destination, expand)
      case Err(e) => (list, Some(e))
      case Ok(true) => Compose(list, cands[1..], expand)
      case Ok(false) =>
        var list' := list + [EntryOf(cands[0])];
        var r := Compose(list', cands[1..], expand);
        assert r.0[..|list'|] == list';
        assert r.0[..|list|] == list;
        DestinationOfEntry(cands[0]);
        assert r.0[|list|] == EntryOf(cands[0]);
        r
  }

  /** Some entry of `out` claims `dest`. */
  predicate Served(out: seq<Value>, dest: string, expand: string -> string) {
    exists j :: 0 <= j < |out| && Claims(out[j], dest, expand)
  }

  lemma ServedInLongerList(list: seq<Value>, out: seq<Value>, dest: string, expand: string -> string)
    requires |list| <= |out| && out[..|list|] == list
    requires Served(list, dest, expand)
    ensures Served(out, dest, expand)
  {
    var j :| 0 <= j < |list| && Claims(list[j], dest, expand);
    assert out[j] == list[j];
  }

  /** When the loop runs to the end, every candidate's destination is
      served by some entry of the final list: the first to claim it. */
  lemma {:induction false} ComposeServesEveryDestination(list: seq<Value>, cands: seq<Candidate>,
                                                         expand: string -> string)
    requires Compose(list, cands, expand).1.None?
    ensures forall k :: 0 <= k < |cands| ==> Served(Compose(list, cands, expand).0, cands[k].destination, expand)
    decreases |cands|
  {
    if cands != [] {
      var out := Compose(list, cands, expand).0;
      var rest := cands[1..];
      var next := ComposeStep(list, cands[0], expand);
      assert Compose(list, cands, expand) == Compose(next, rest, expand);
      ComposeServesEveryDestination(next, rest, expand);
      ServedInLongerList(next, out, cands[0].destination, expand);
      forall k | 1 <= k < |cands| ensures Served(out, cands[k].destination, expand) {
        assert cands[k] == rest[k - 1];
      }
    }
  }

  /** The list after one candidate, when the scan does not fail: the
      candidate is served, by an earlier entry or by its own. */
  function ComposeStep(list: seq<Value>, c: Candidate, expand: string -> string): (next: seq<Value>)
    requires Claimed(list, c.destination, expand).Ok?
    ensures |list| <= |next| && next[..|list|] == list
    ensures Served(next, c.destination, expand)
    ensures next == Compose(list, [c], expand).0
  {
    if Claimed(list, c.destination, expand).value then list
    else
      var next := list + [EntryOf(c)];
      DestinationOfEntry(c);
      assert Claims(next[|list|], c.destination, expand);
      next
  }

  /** Every entry of the list names a destination `File.expand_path` takes. */
  predicate Readable(list: seq<Value>) {
    forall j :: 0 <= j < |list| ==> DestinationOf(list[j]).Ok?
  }

  /** Candidate `k` is the first to claim its destination: no entry of the
      list and no earlier candidate expands to the same path. */
  predicate FirstClaim(list: seq<Value>, cands: seq<Candidate>, k: nat, expand: string -> string)
    requires k < |cands|
  {
    && (forall j {:trigger ClaimsOther(list[j], cands[k].destination, expand)} ::
          0 <= j < |list| ==> ClaimsOther(list[j], cands[k].destination, expand))
    && (forall j :: 0 <= j < k ==> Target(cands, j, expand) != Target(cands, k, expand))
  }

  /** Where candidate `k`'s destination expands to. */
  function Target(cands: seq<Candidate>, k: nat, expand: string -> string): string
    requires k < |cands|
  {
    expand(cands[k].destination)
  }

  /** The entries of the first claims among the first `n` candidates, in
      candidate order. */
  function Winners(list: seq<Value>, cands: seq<Candidate>, n: nat, expand: string -> string): (r: seq<Value>)
    requires n <= |cands|
    decreases n
  {
    if n == 0 then []
    else Winners(list, cands, n - 1, expand) +
         (if FirstClaim(list, cands, n - 1, expand) then [EntryOf(cands[n - 1])] else [])
  }

  /** Each entry of `Winners` is the entry of a candidate before `n`. */
  lemma {:induction false} WinnerOrigin(list: seq<Value>, cands: seq<Candidate>, n: nat, x: nat,
                                        expand: string -> string) returns (j: nat)
    requires n <= |cands|
    requires x < |Winners(list, cands, n, expand)|
    ensures j < n
    ensures Winners(list, cands, n, expand)[x] == EntryOf(cands[j])
    decreases n
  {
    var prev := Winners(list, cands, n - 1, expand);
    if x < |prev| {
      j := WinnerOrigin(list, cands, n - 1, x, expand);
    } else {
      j := n - 1;
    }
  }

  /** The entry of every first claim before `n` is among `Winners`. */
  lemma {:induction false} WinnerPresent(list: seq<Value>, cands: seq<Candidate>, n: nat, j: nat,
                                         expand: string -> string) returns (x: nat)
    requires j < n <= |cands|
    requires FirstClaim(list, cands, j, expand)
    ensures x < |Winners(list, cands, n, expand)| && Winners(list, cands, n, expand)[x] == EntryOf(cands[j])
    decreases n
  {
    var prev := Winners(list, cands, n - 1, expand);
    WinnersStep(list, cands, n, expand);
    if j < n - 1 {
      x := WinnerPresent(list, cands, n - 1, j, expand);
      assert Winners(list, cands, n, expand)[x] == prev[x];
    } else {
      x := |prev|;
    }
  }

  /** `Winners` grows by the entry of candidate `n - 1` exactly when that
      candidate is a first claim. */
  lemma WinnersStep(list: seq<Value>, cands: seq<Candidate>, n: nat, expand: string -> string)
    requires 0 < n <= |cands|
    ensures FirstClaim(list, cands, n - 1, expand) ==>
      Winners(list, cands, n, expand) == Winners(list, cands, n - 1, expand) + [EntryOf(cands[n - 1])]
    ensures !FirstClaim(list, cands, n - 1, expand) ==>
      Winners(list, cands, n, expand) == Winners(list, cands, n - 1, expand)
  {
  }

  /** The list grown by the first claims still names a destination in every
      entry. */
  lemma GrownReadable(list: seq<Value>, cands: seq<Candidate>, n: nat, expand: string -> string)
    requires Readable(list)
    requires n <= |cands|
    ensures Readable(list + Winners(list, cands, n, expand))
  {
    var w := Winners(list, cands, n, expand);
    var grown := list + w;
    forall x | 0 <= x < |grown| ensures DestinationOf(grown[x]).Ok? {
      if x >= |list| {
        var j := WinnerOrigin(list, cands, n, x - |list|, expand);
        assert grown[x] == EntryOf(cands[j]);
        DestinationOfEntry(cands[j]);
      }
    }
  }

  /** A candidate that shares its expanded destination with an earlier one
      is served by the list grown by the first claims before it: by a
      listed entry, or by the first candidate of that destination. */
  lemma {:induction false} EarlierDestinationServed(list: seq<Value>, cands: seq<Candidate>, i: nat, j: nat,
                                                   expand: string -> string)
    requires Readable(list)
    requires j < i < |cands|
    requires Target(cands, j, expand) == Target(cands, i, expand)
    ensures Served(list + Winners(list, cands, i, expand), cands[i].destination, expand)
    decreases j
  {
    var w := Winners(list, cands, i, expand);
    var grown := list + w;
    if FirstClaim(list, cands, j, expand) {
      var e := EntryOf(cands[j]);
      var x := WinnerPresent(list, cands, i, j, expand);
      assert grown[|list| + x] == e;
      DestinationOfEntry(cands[j]);
      assert Claims(grown[|list| + x], cands[i].destination, expand);
    } else if y :| 0 <= y < |list| && !ClaimsOther(list[y], cands[j].destination, expand) {
      assert grown[y] == list[y];
      assert Claims(grown[y], cands[i].destination, expand);
    } else {
      var j' :| 0 <= j' < j && Target(cands, j', expand) == Target(cands, j, expand);
      EarlierDestinationServed(list, cands, i, j', expand);
    }
  }

  /** An entry of the grown list that claims candidate `i`'s destination
      shows that `i` is not a first claim. */
  lemma ServedMeansNotFirst(list: seq<Value>, cands: seq<Candidate>, i: nat, expand: string -> string)
    requires i < |cands|
    requires Served(list + Winners(list, cands, i, expand), cands[i].destination, expand)
    ensures !FirstClaim(list, cands, i, expand)
  {
    var w := Winners(list, cands, i, expand);
    var grown := list + w;
    var x :| 0 <= x < |grown| && Claims(grown[x], cands[i].destination, expand);
    if x < |list| {
      assert grown[x] == list[x];
      assert !ClaimsOther(list[x], cands[i].destination, expand);
      assert !(forall y :: 0 <= y < |list| ==> ClaimsOther(list[y], cands[i].destination, expand));
    } else {
      var j := WinnerOrigin(list, cands, i, x - |list|, expand);
      assert grown[x] == w[x - |list|];
      assert w[x - |list|] == EntryOf(cands[j]);
      ClaimByEntry(grown[x], cands[j], cands[i].destination, expand);
      assert Target(cands, j, expand) == Target(cands, i, expand);
    }
  }

  /** The entry of a candidate claims only destinations that expand like
      the candidate's. */
  lemma ClaimByEntry(e: Value, c: Candidate, dest: string, expand: string -> string)
    requires e == EntryOf(c) && Claims(e, dest, expand)
    ensures expand(c.destination) == expand(dest)
  {
    DestinationOfEntry(c);
  }

  /** A candidate no entry of the grown list claims is a first claim. */
  lemma UnservedMeansFirst(list: seq<Value>, cands: seq<Candidate>, i: nat, expand: string -> string)
    requires Readable(list)
    requires i < |cands|
    requires forall x :: 0 <= x < |list + Winners(list, cands, i, expand)| ==>
      ClaimsOther((list + Winners(list, cands, i, expand))[x], cands[i].destination, expand)
    ensures FirstClaim(list, cands, i, expand)
  {
    var grown := list + Winners(list, cands, i, expand);
    var d := cands[i].destination;
    forall y | 0 <= y < |list| ensures ClaimsOther(list[y], d, expand) {
      assert grown[y] == list[y];
    }
    forall j | 0 <= j < i ensures Target(cands, j, expand) != Target(cands, i, expand) {
      if Target(cands, j, expand) == Target(cands, i, expand) {
        EarlierDestinationServed(list, cands, i, j, expand);
      }
    }
  }

  /** Over the list grown by the first claims before it, the scan for
      candidate `i` succeeds, and finds a claim iff `i` is not a first
      claim. */
  lemma ClaimedIffNotFirst(list: seq<Value>, cands: seq<Candidate>, i: nat, expand: string -> string)
    requires Readable(list)
    requires i < |cands|
    ensures Claimed(list + Winners(list, cands, i, expand), cands[i].destination, expand) ==
      Ok(!FirstClaim(list, cands, i, expand))
  {
    var grown := list + Winners(list, cands, i, expand);
    GrownReadable(list, cands, i, expand);
    var found := Claimed(grown, cands[i].destination, expand);
    assert found.Ok?;
    if found.value {
      ServedMeansNotFirst(list, cands, i, expand);
      assert !FirstClaim(list, cands, i, expand);
    } else {
      UnservedMeansFirst(list, cands, i, expand);
      assert FirstClaim(list, cands, i, expand);
    }
  }

  /** One turn of the loop over the list grown by the first claims before
      candidate `i` leaves the list grown by those up to `i`. */
  lemma ComposeTakesOneCandidate(list: seq<Value>, cands: seq<Candidate>, i: nat, expand: string -> string)
    requires Readable(list)
    requires i < |cands|
    ensures Compose(list + Winners(list, cands, i, expand), cands[i..], expand) ==
      Compose(list + Winners(list, cands, i + 1, expand), cands[i + 1..], expand)
  {
    var grown := list + Winners(list, cands, i, expand);
    var next := list + Winners(list, cands, i + 1, expand);
    ClaimedIffNotFirst(list, cands, i, expand);
    assert cands[i..][0] == cands[i] && cands[i..][1..] == cands[i + 1..];
    if FirstClaim(list, cands, i, expand) {
      assert grown + [EntryOf(cands[i])] == next;
    } else {
      assert grown == next;
    }
  }

  /** From the `i`-th candidate on, the loop finishes the list of first
      claims. */
  lemma {:induction false} ComposeFrom(list: seq<Value>, cands: seq<Candidate>, i: nat, expand: string -> string)
    requires Readable(list)
    requires i <= |cands|
    ensures Compose(list + Winners(list, cands, i, expand), cands[i..], expand) ==
      (list + Winners(list, cands, |cands|, expand), None)
    decreases |cands| - i
  {
    if i < |cands| {
      ComposeTakesOneCandidate(list, cands, i, expand);
      ComposeFrom(list, cands, i + 1, expand);
    } else {
      assert cands[i..] == [];
    }
  }

  /** When every listed entry names a destination, the loop never fails,
      and it appends exactly the entries of the candidates that are first
      to claim their destination, in candidate order: a listed entry beats
      every candidate, and an earlier candidate beats a later one. */
  lemma ComposeAppendsFirstClaims(list: seq<Value>, cands: seq<Candidate>, expand: string -> string)
    requires Readable(list)
    ensures Compose(list, cands, expand) == (list + Winners(list, cands, |cands|, expand), None)
  {
    ComposeFrom(list, cands, 0, expand);
    assert list + Winners(list, cands, 0, expand) == list;
    assert cands[0..] == cands;
  }

  /** `config.commit.settings["templates"] = list`. */
  function SetTemplates(settings: map<string, Value>, list: seq<Value>): (r: map<string, Value>)
    requires Lookup(settings, "commit").Hash?
    ensures r.Keys == settings.Keys + {"commit"}
    ensures forall k :: k in settings && k != "commit" ==> r[k] == settings[k]
    ensures r["commit"].Hash? && Lookup(r["commit"].entries, "templates") == List(list)
    ensures r["commit"].entries.Keys == settings["commit"].entries.Keys + {"templates"}
    ensures forall k :: k in settings["commit"].entries && k != "templates" ==>
      r["commit"].entries[k] == settings["commit"].entries[k]
  {
    settings["commit" := Hash(settings["commit"].entries["templates" := List(list)])]
  }

  /** Attaching a list where one was attached before replaces it. */
  lemma SetTemplatesTwice(settings: map<string, Value>, first: seq<Value>, second: seq<Value>)
    requires Lookup(settings, "commit").Hash?
    ensures SetTemplates(SetTemplates(settings, first), second) == SetTemplates(settings, second)
  {
    var cm := settings["commit"].entries;
    assert cm["templates" := List(first)]["templates" := List(second)] == cm["templates" := List(second)];
  }

  /** Attaching a template list leaves `includes`, and so the groups
      visited, as they were. */
  lemma SetTemplatesKeepsGroups(settings: map<string, Value>, list: seq<Value>, externals: seq<External>)
    requires Lookup(settings, "commit").Hash?
    ensures Includes(SetTemplates(settings, list)) == Includes(settings)
    ensures SortedApplicable(SetTemplates(settings, list), externals) == SortedApplicable(settings, externals)
  {
    var r := SetTemplates(settings, list);
    assert Lookup(r["commit"].entries, "includes") == Lookup(settings["commit"].entries, "includes");
  }

  /** `include_templates`: the new settings and the error raised, if any.
      The list is created first when the scope has none; a group lookup
      failure then stops before any candidate; a hash in place of the list
      turns every candidate away (its `to_a.any?` yields a truthy Config),
      and a scalar fails at the first candidate. */
  function IncludeTemplatesSpec(settings: map<string, Value>, scopePath: string, externals: seq<External>,
                                expand: string -> string): (r: (map<string, Value>, Option<Error>))
  {
    match Lookup(settings, "commit")
    case Hash(cm) =>
      var existing := Lookup(cm, "templates");
      var attached := if existing == Null then SetTemplates(settings, []) else settings;
      var live := if existing == Null then List([]) else existing;
      (match SortedApplicable(attached, externals)
       case Err(e) => (attached, Some(e))
       case Ok(pairs) =>
         var cands := CandidatesOf(scopePath, pairs);
         (match live
          case List(xs) =>
            var composed := Compose(xs, cands, expand);
            (SetTemplates(attached, composed.0), composed.1)
          case Hash(_) => (attached, None)
          case _ => (attached, if cands == [] then None else Some(NoMethodError))))
    case _ => (settings, Some(NoMethodError))
  }

  /** A scope without a template list gets one, and the templates already
      listed stay first, in their order; only other settings are untouched. */
  lemma IncludeTemplatesKeepsListedTemplates(settings: map<string, Value>, scopePath: string,
                                             externals: seq<External>, expand: string -> string)
    requires Lookup(settings, "commit").Hash?
    requires var t := Lookup(Lookup(settings, "commit").entries, "templates"); t.Null? || t.List?
    ensures var r := IncludeTemplatesSpec(settings, scopePath, externals, expand).0;
      && (forall k :: k in settings && k != "commit" ==> k in r && r[k] == settings[k])
      && "commit" in r && r["commit"].Hash?
      && Lookup(r["commit"].entries, "templates").List?
      && (forall k :: k in settings["commit"].entries && k != "templates" ==>
            k in r["commit"].entries && r["commit"].entries[k] == settings["commit"].entries[k])
      && var before := Lookup(Lookup(settings, "commit").entries, "templates");
         var after := Lookup(r["commit"].entries, "templates").items;
         before.List? ==> |before.items| <= |after| && after[..|before.items|] == before.items
  {
  }

  /** The templates already listed: none when the scope has no list yet. */
  function ListedTemplates(settings: map<string, Value>): (r: seq<Value>)
    requires Lookup(settings, "commit").Hash?
    ensures Lookup(Lookup(settings, "commit").entries, "templates").List? ==>
      r == Lookup(Lookup(settings, "commit").entries, "templates").items
    ensures Lookup(Lookup(settings, "commit").entries, "templates").Null? ==> r == []
  {
    var t := Lookup(Lookup(settings, "commit").entries, "templates");
    if t.List? then t.items else []
  }

  /** With a list of templates in place or none yet, the included list is
      the composition of the listed templates with the group candidates. */
  lemma IncludeTemplatesOnList(settings: map<string, Value>, scopePath: string,
                               externals: seq<External>, expand: string -> string)
    requires Lookup(settings, "commit").Hash?
    requires var t := Lookup(Lookup(settings, "commit").entries, "templates"); t.Null? || t.List?
    requires SortedApplicable(settings, externals).Ok?
    ensures var r := IncludeTemplatesSpec(settings, scopePath, externals, expand);
      var cands := CandidatesOf(scopePath, SortedApplicable(settings, externals).value);
      r == (SetTemplates(settings, Compose(ListedTemplates(settings), cands, expand).0),
            Compose(ListedTemplates(settings), cands, expand).1)
  {
    if Lookup(settings["commit"].entries, "templates").Null? {
      IncludeTemplatesOnNewList(settings, scopePath, externals, expand);
    } else {
      IncludeTemplatesOnExistingList(settings, scopePath, externals, expand);
    }
  }

  /** A scope with a list: the candidates are composed onto it. */
  lemma IncludeTemplatesOnExistingList(settings: map<string, Value>, scopePath: string,
                                       externals: seq<External>, expand: string -> string)
    requires Lookup(settings, "commit").Hash?
    requires Lookup(settings["commit"].entries, "templates").List?
    requires SortedApplicable(settings, externals).Ok?
    ensures var r := IncludeTemplatesSpec(settings, scopePath, externals, expand);
      var xs := Lookup(settings["commit"].entries, "templates").items;
      var cands := CandidatesOf(scopePath, SortedApplicable(settings, externals).value);
      r == (SetTemplates(settings, Compose(xs, cands, expand).0), Compose(xs, cands, expand).1)
  {
  }

  /** A scope without a list: the list attached first is the empty one, and
      the candidates are composed onto it. */
  lemma IncludeTemplatesOnNewList(settings: map<string, Value>, scopePath: string,
                                  externals: seq<External>, expand: string -> string)
    requires Lookup(settings, "commit").Hash?
    requires Lookup(settings["commit"].entries, "templates").Null?
    requires SortedApplicable(settings, externals).Ok?
    ensures var r := IncludeTemplatesSpec(settings, scopePath, externals, expand);
      var cands := CandidatesOf(scopePath, SortedApplicable(settings, externals).value);
      r == (SetTemplates(settings, Compose([], cands, expand).0), Compose([], cands, expand).1)
  {
    var attached := SetTemplates(settings, []);
    SetTemplatesKeepsGroups(settings, [], externals);
    var cands := CandidatesOf(scopePath, SortedApplicable(settings, externals).value);
    var composed := Compose([], cands, expand);
    SetTemplatesTwice(settings, [], composed.0);
    assert IncludeTemplatesSpec(settings, scopePath, externals, expand) ==
      (SetTemplates(attached, composed.0), composed.1);
  }

  /** Own templates and earlier groups win: an entry added for a group
      template claims a destination no entry before it claims. */
  lemma IncludedTemplatesClaimFreshDestinations(settings: map<string, Value>, scopePath: string,
                                                externals: seq<External>, expand: string -> string)
    requires Lookup(settings, "commit").Hash?
    requires var t := Lookup(Lookup(settings, "commit").entries, "templates"); t.Null? || t.List?
    ensures var r := IncludeTemplatesSpec(settings, scopePath, externals, expand).0;
      var before := ListedTemplates(settings);
      var after := Lookup(r["commit"].entries, "templates").items;
      forall i, j :: |before| <= i < |after| && 0 <= j < i ==>
        DestinationOf(after[i]).Ok? && ClaimsOther(after[j], DestinationOf(after[i]).value, expand)
  {
    var before := ListedTemplates(settings);
    IncludeTemplatesKeepsListedTemplates(settings, scopePath, externals, expand);
    if SortedApplicable(settings, externals).Ok? {
      IncludeTemplatesOnList(settings, scopePath, externals, expand);
      var composed := Compose(before, CandidatesOf(scopePath, SortedApplicable(settings, externals).value), expand);
      var r := IncludeTemplatesSpec(settings, scopePath, externals, expand).0;
      assert Lookup(r["commit"].entries, "templates").items == composed.0;
    } else if Lookup(Lookup(settings, "commit").entries, "templates").Null? {
      assert IncludeTemplatesSpec(settings, scopePath, externals, expand).0 == SetTemplates(settings, []);
    } else {
      assert IncludeTemplatesSpec(settings, scopePath, externals, expand).0 == settings;
    }
  }

  /** When the listed templates all name a destination, including the
      templates of the groups raises nothing and appends exactly the first
      claims among the candidates: the group templates in sorted group
      order, each kept only if no listed template and no earlier candidate
      expands to its destination. */
  lemma IncludeTemplatesAppendsFirstClaims(settings: map<string, Value>, scopePath: string,
                                           externals: seq<External>, expand: string -> string)
    requires Lookup(settings, "commit").Hash?
    requires var t := Lookup(Lookup(settings, "commit").entries, "templates"); t.Null? || t.List?
    requires Readable(ListedTemplates(settings))
    requires SortedApplicable(settings, externals).Ok?
    ensures var r := IncludeTemplatesSpec(settings, scopePath, externals, expand);
      var before := ListedTemplates(settings);
      var cands := CandidatesOf(scopePath, SortedApplicable(settings, externals).value);
      && r.1 == None
      && Lookup(r.0["commit"].entries, "templates") == List(before + Winners(before, cands, |cands|, expand))
  {
    var before := ListedTemplates(settings);
    var cands := CandidatesOf(scopePath, SortedApplicable(settings, externals).value);
    IncludeTemplatesOnList(settings, scopePath, externals, expand);
    ComposeAppendsFirstClaims(before, cands, expand);
  }

  // ---------------------------------------------------------------------
  // The operation

  /** `include_config` as a function of the settings: the new settings and
      the error raised, if any (a failing group lookup stops before any
      merge, since the sort collects all groups first). */
  function IncludeConfigSpec(settings: map<string, Value>, externals: seq<External>,
                             deepMerge: DeepMerge): (r: (map<string, Value>, Option<Error>))
    requires IncludeConfigDefined(settings, externals, deepMerge)
  {
    match SortedApplicable(settings, externals)
    case Err(e) => (settings, Some(e))
    case Ok(pairs) => (MergeAll(settings, GroupConfigs(pairs), deepMerge), None)
  }

  predicate IncludeConfigDefined(settings: map<string, Value>, externals: seq<External>, deepMerge: DeepMerge) {
    SortedApplicable(settings, externals).Ok? ==>
      MergeableAll(settings, GroupConfigs(SortedApplicable(settings, externals).value), deepMerge)
  }

  /** `include_config`: merges the `config` of every visited group into the
      scope's settings, in visiting order, skipping groups without one. */
  method IncludeConfig(scope: Scope, externals: seq<External>, deepMerge: DeepMerge) returns (err: Option<Error>)
    requires IncludeConfigDefined(scope.settings, externals, deepMerge)
    modifies scope
    ensures (scope.settings, err) == IncludeConfigSpec(old(scope.settings), externals, deepMerge)
  {
    var sorted := SortedApplicable(scope.settings, externals);
    if sorted.Err? {
      return Some(sorted.error);
    }
    MergeGroups(scope, sorted.value, deepMerge);
    err := None;
  }

  /** The `each` loop of `include_config`: the groups' configs merged in
      order into the scope's settings. */
  method MergeGroups(scope: Scope, pairs: seq<Pairing>, deepMerge: DeepMerge)
    requires MergeableAll(scope.settings, GroupConfigs(pairs), deepMerge)
    modifies scope
    ensures scope.settings == MergeAll(old(scope.settings), GroupConfigs(pairs), deepMerge)
  {
    ghost var target := scope.settings;
    var i := 0;
    while i < |pairs|
      invariant 0 <= i <= |pairs|
      invariant MergeableAll(scope.settings, GroupConfigs(pairs[i..]), deepMerge)
      invariant MergeAll(scope.settings, GroupConfigs(pairs[i..]), deepMerge) ==
                MergeAll(target, GroupConfigs(pairs), deepMerge)
    {
      GroupConfigsAt(pairs, i);
      var config := pairs[i].group.config;
      if config.Some? {
        MergeAllStep(scope.settings, config.value, GroupConfigs(pairs[i + 1..]), deepMerge);
        MergeInto(scope, config.value, deepMerge);
      }
      i := i + 1;
    }
    assert pairs[i..] == [];
  }

  /** `include_templates`: appends the visited groups' templates to the
      scope's live template list, each unless its destination is claimed. */
  method IncludeTemplates(scope: Scope, externals: seq<External>, expand: string -> string) returns (err: Option<Error>)
    modifies scope
    ensures (scope.settings, err) == IncludeTemplatesSpec(old(scope.settings), scope.path, externals, expand)
  {
    var commit := Lookup(scope.settings, "commit");
    if !commit.Hash? {
      return Some(NoMethodError);
    }
    var existing := Lookup(commit.entries, "templates");
    if existing == Null {
      scope.settings := SetTemplates(scope.settings, []);
    }
    var live := if existing == Null then List([]) else existing;
    var sorted := SortedApplicable(scope.settings, externals);
    if sorted.Err? {
      return Some(sorted.error);
    }
    var cands := CandidatesOf(scope.path, sorted.value);
    if live.Hash? {
      return None;
    }
    if !live.List? {
      return if cands == [] then None else Some(NoMethodError);
    }
    err := ComposeInto(scope, live.items, cands, expand);
  }

  /** The loop of `include_templates` over the live list, which sits in the
      scope's settings under "commit"/"templates". */
  method ComposeInto(scope: Scope, list0: seq<Value>, cands: seq<Candidate>, expand: string -> string)
    returns (err: Option<Error>)
    requires Lookup(scope.settings, "commit").Hash?
    modifies scope
    ensures scope.settings == SetTemplates(old(scope.settings), Compose(list0, cands, expand).0)
    ensures err == Compose(list0, cands, expand).1
  {
    var attached := scope.settings;
    scope.settings := SetTemplates(attached, list0);
    var list := list0;
    var i := 0;
    while i < |cands|
      invariant 0 <= i <= |cands|
      invariant scope.settings == SetTemplates(attached, list)
      invariant Compose(list, cands[i..], expand) == Compose(list0, cands, expand)
    {
      assert cands[i..][0] == cands[i] && cands[i..][1..] == cands[i + 1..];
      var claimed := Claimed(list, cands[i].destination, expand);
      if claimed.Err? {
        return Some(claimed.error);
      }
      if !claimed.value {
        list := list + [EntryOf(cands[i])];
        scope.settings := SetTemplates(attached, list);
      }
      i := i + 1;
    }
    assert cands[i..] == [];
    err := None;
  }

  /** `call`: the config merge, then the template composition. Each phase
      enumerates the externals anew (`each_external_config` reads
      `config.commit.externals` on every call), so the composition sees the
      externals of the merged settings, including any a group's config
      added. How a settings map names and loads its externals is not part
      of this model; `loadExternals` stands for it. */
  method Call(scope: Scope, loadExternals: map<string, Value> -> seq<External>, deepMerge: DeepMerge,
              expand: string -> string) returns (err: Option<Error>)
    requires IncludeConfigDefined(scope.settings, loadExternals(scope.settings), deepMerge)
    modifies scope
    ensures var (merged, configErr) := IncludeConfigSpec(old(scope.settings), loadExternals(old(scope.settings)), deepMerge);
      if configErr.Some? then scope.settings == merged && err == configErr
      else (scope.settings, err) == IncludeTemplatesSpec(merged, scope.path, loadExternals(merged), expand)
  {
    var externals := loadExternals(scope.settings);
    err := IncludeConfig(scope, externals, deepMerge);
    if err.Some? {
      return;
    }
    externals := loadExternals(scope.settings);
    err := IncludeTemplates(scope, externals, expand);
  }
}
