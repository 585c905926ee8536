/**
 * `Commit::Operations::Templates::Generate`: generates every template of
 * the scope's `commit.templates` list next to the `.commit` directory, and
 * lets templates render other templates from the same directory.
 */
module TemplatesGenerate {
  import opened Values
  import opened Paths
  import opened Configs
  import opened Scopes
  import opened Workspace
  import opened TemplatesUpdate

  /** `template_config.expand(name, context: self)`: evaluating an entry's
      setting in the context of the operation. It is not part of this model
      and is a parameter. */
  type Expand = (Config, string) -> Value

  /** `config.commit.templates.to_a`: the list's elements, wrapped. A
      missing list or a hash leaves a Config, whose `to_a` and `each` are
      answered without running the block; a scalar has no `to_a`. */
  function TemplateEntries(settings: map<string, Value>): (r: Result<seq<Wrapped>>)
    ensures var commit := Lookup(settings, "commit");
      commit.Hash? && Lookup(commit.entries, "templates").List? ==>
        var items := Lookup(commit.entries, "templates").items;
        r.Ok? && |r.value| == |items| && forall k :: 0 <= k < |items| ==> r.value[k] == Wrap(items[k])
    ensures var commit := Lookup(settings, "commit");
      commit.Null? || (commit.Hash? && (Lookup(commit.entries, "templates").Null? || Lookup(commit.entries, "templates").Hash?)) ==>
        r == Ok([])
    ensures !(Lookup(settings, "commit").Null? || Lookup(settings, "commit").Hash?) ==> r == Err(NoMethodError)
  {
    var commit := Get(Config(Hash(settings)), "commit").value;
    if !commit.Node? then Err(NoMethodError)
    else
      var templates := Get(commit.config, "templates").value;
      match templates
      case Items(ws) =>
        assert ws == Wrap(Lookup(Lookup(settings, "commit").entries, "templates")).items;
        Ok(ws)
      case Node(_) => Ok([])
      case Bare(_) => Err(NoMethodError)
  }

  /** `resolve_generated_path` and the join that follows it: a nil
      destination names the output after the entry's unexpanded `source`
      without its extension; any other destination is used as it is, with
      no directory treatment. A value that is not a string cannot be a
      path. */
  function ResolveGeneratedPath(destination: Value, source: Wrapped): (r: Result<string>)
    ensures destination.Null? && source.Bare? && source.value.Str? ==>
      r.Ok? && r.value + Extname(source.value.s) == Basename(source.value.s)
    ensures destination.Str? ==> r == Ok(destination.s)
    ensures r.Ok? <==> destination.Str? || (destination.Null? && source.Bare? && source.value.Str?)
  {
    match destination
    case Null => if source.Bare? && source.value.Str? then Ok(BasenameWithoutExt(source.value.s)) else Err(TypeError)
    case Str(d) => Ok(d)
    case _ => Err(TypeError)
  }

  /** `render(path)`: the template another template renders is looked up in
      the same templates directory. */
  function RenderSource(scopePath: string, path: string): (r: string)
    ensures path != [] && path[0] == '/' ==> r == path
    ensures !(path != [] && path[0] == '/') ==> r == TemplatesPath(scopePath) + "/" + path
  {
    var dir := TemplatesPath(scopePath);
    assert dir[|dir| - 1] == 's';
    PathJoin(dir, path)
  }

  /** A template named by a plain file name is read from the templates
      directory, under that name. */
  lemma PlainSourceIsReadFromTemplatesDirectory(scopePath: string, name: string)
    requires name != [] && '/' !in name
    ensures Dirname(RenderSource(scopePath, name)) == TemplatesPath(scopePath)
    ensures Basename(RenderSource(scopePath, name)) == name
  {
    var dir := TemplatesPath(scopePath);
    assert dir[|dir| - 1] == 's';
    assert StripTrailingSlashes(dir) == dir;
    JoinThenSplit(dir, name);
  }

  /** `@scope.path.join("../", resolved)`: the directory holding `.commit`. */
  function OutputPath(scopePath: string, resolved: string): (r: string)
    ensures resolved != [] && resolved[0] == '/' ==> r == resolved
    ensures !(resolved != [] && resolved[0] == '/') ==> r == PathJoin(scopePath, "../") + resolved
  {
    var dir := PathJoin(scopePath, "../");
    assert dir[|dir| - 1] == '/';
    PathJoin(dir, resolved)
  }

  /** The body of the `call` loop for one entry: the expanded source is read
      from the templates directory (a missing file raises), then the output
      path is resolved and the template generated there. */
  function GenerateStep(scopePath: string, existing: set<string>, expand: Expand, entry: Wrapped): (r: Result<Action>)
    ensures !entry.Node? ==> r == Err(NoMethodError)
    ensures r.Ok? ==>
      && entry.Node? && expand(entry.config, "source").Str?
      && r.value.Generate?
      && r.value.source == RenderSource(scopePath, expand(entry.config, "source").s)
      && r.value.source in existing
    ensures (entry.Node? && expand(entry.config, "source").Str? &&
             RenderSource(scopePath, expand(entry.config, "source").s) !in existing) ==>
        r == Err(NoSuchFile(RenderSource(scopePath, expand(entry.config, "source").s)))
  {
    if !entry.Node? then Err(NoMethodError)
    else
      var source := expand(entry.config, "source");
      if !source.Str? then Err(TypeError)
      else
        var path := RenderSource(scopePath, source.s);
        if path !in existing then Err(NoSuchFile(path))
        else
          var unexpanded :- Get(entry.config, "source");
          var resolved :- ResolveGeneratedPath(expand(entry.config, "destination"), unexpanded);
          Ok(Generate(path, OutputPath(scopePath, resolved)))
  }

  function Step(scopePath: string, existing: set<string>, expand: Expand): Wrapped -> Result<Action> {
    entry => GenerateStep(scopePath, existing, expand, entry)
  }

  /** `call`: the templates generated and the error raised, if any;
      `existing` are the files present in the checkout. */
  function GenerateSpec(scopePath: string, settings: map<string, Value>, existing: set<string>, expand: Expand): (r: (seq<Action>, Option<Error>))
  {
    match TemplateEntries(settings)
    case Err(e) => ([], Some(e))
    case Ok(entries) => Generated(entries, Step(scopePath, existing, expand))
  }

  /** A successful run generates exactly one output per entry of
      `commit.templates`, in list order, each from the template its expanded
      source names. */
  lemma OneOutputPerEntry(scopePath: string, settings: map<string, Value>, existing: set<string>, expand: Expand)
    requires GenerateSpec(scopePath, settings, existing, expand).1.None?
    ensures TemplateEntries(settings).Ok?
    ensures var entries := TemplateEntries(settings).value;
      var actions := GenerateSpec(scopePath, settings, existing, expand).0;
      && |actions| == |entries|
      && forall k :: 0 <= k < |entries| ==>
           && entries[k].Node? && expand(entries[k].config, "source").Str?
           && actions[k].Generate?
           && actions[k].source == RenderSource(scopePath, expand(entries[k].config, "source").s)
  {
    var entries := TemplateEntries(settings).value;
    var run := Generated(entries, Step(scopePath, existing, expand));
    forall k | 0 <= k < |entries|
      ensures entries[k].Node? && expand(entries[k].config, "source").Str?
      ensures run.0[k].Generate? && run.0[k].source == RenderSource(scopePath, expand(entries[k].config, "source").s)
    {
      assert Step(scopePath, existing, expand)(entries[k]) == Ok(run.0[k]);
    }
  }

  /** Where an entry's output lands: next to the `.commit` directory, under
      the entry's destination as it is when one is set, or under the name
      of its unexpanded source without the extension when none is. */
  lemma {:induction false} OutputLandsBesideCommitDirectory(scopePath: string, existing: set<string>, expand: Expand, entry: Wrapped)
    requires GenerateStep(scopePath, existing, expand, entry).Ok?
    ensures var destination := expand(entry.config, "destination");
      var output := GenerateStep(scopePath, existing, expand, entry).value.output;
      && (destination.Str? && (destination.s == [] || destination.s[0] != '/') ==>
            output == PathJoin(scopePath, "../") + destination.s)
      && (destination.Str? && destination.s != [] && destination.s[0] == '/' ==> output == destination.s)
      && (destination.Null? ==>
            && Get(entry.config, "source").Ok?
            && Unwrap(Get(entry.config, "source").value).Str?
            && var name := BasenameWithoutExt(Unwrap(Get(entry.config, "source").value).s);
               output == PathJoin(scopePath, "../") + name || (name != [] && name[0] == '/' && output == name))
  {
    var destination := expand(entry.config, "destination");
    var unexpanded := Get(entry.config, "source").value;
    var resolved := ResolveGeneratedPath(destination, unexpanded).value;
    var dir := PathJoin(scopePath, "../");
    assert dir[|dir| - 1] == '/';
    assert GenerateStep(scopePath, existing, expand, entry).value.output == PathJoin(dir, resolved);
  }

  /** Sources written as absolute paths, as the include operations write
      them, are read from that path and not from under the templates
      directory. */
  lemma AbsoluteSourceIsReadAsIs(scopePath: string, existing: set<string>, expand: Expand, entry: Wrapped)
    requires GenerateStep(scopePath, existing, expand, entry).Ok?
    requires var s := expand(entry.config, "source").s; s != [] && s[0] == '/'
    ensures GenerateStep(scopePath, existing, expand, entry).value.source == expand(entry.config, "source").s
  {
  }

  /** `call`: one generation per entry of `commit.templates`. */
  method Call(scope: Scope, checkout: Checkout, existing: set<string>, expand: Expand) returns (err: Option<Error>)
    modifies checkout
    ensures checkout.files == old(checkout.files)
    ensures checkout.actions == old(checkout.actions) + GenerateSpec(scope.path, scope.settings, existing, expand).0
    ensures err == GenerateSpec(scope.path, scope.settings, existing, expand).1
  {
    var entries := TemplateEntries(scope.settings);
    if entries.Err? {
      return Some(entries.error);
    }
    err := RunSteps(checkout, entries.value, Step(scope.path, existing, expand));
  }
}
