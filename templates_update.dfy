/**
 * `Commit::Operations::Templates::Update`: generates every template listed
 * under the scope's `templates` key, then commits and pushes the result.
 * The entries are indexed like hashes (`template_config["template"]`), so
 * they are read here as the values the YAML file holds.
 */
module TemplatesUpdate {
  import opened Values
  import opened Paths
  import opened Scopes
  import opened Workspace

  const TemplatesDirectory := "templates"
  const CommitMessage := "update templates"

  /** `@scope.path.join(TEMPLATES_DIRECTORY)`. */
  function TemplatesPath(scopePath: string): string {
    PathJoin(scopePath, TemplatesDirectory)
  }

  /** `config["templates"].to_a`. A missing key gives no entries; a hash
      gives its pairs, and the first pair, an array, cannot be indexed by
      "template"; a scalar has no `to_a`. */
  function TemplateConfigs(settings: map<string, Value>): (r: Result<seq<Value>>)
    ensures var v := Lookup(settings, "templates");
      r.Ok? <==> v.Null? || v.List? || v == Hash(map[])
    ensures Lookup(settings, "templates").List? ==> r == Ok(Lookup(settings, "templates").items)
    ensures r.Ok? && !Lookup(settings, "templates").List? ==> r.value == []
  {
    match Lookup(settings, "templates")
    case Null => Ok([])
    case List(xs) => Ok(xs)
    case Hash(m) => if m == map[] then Ok([]) else Err(TypeError)
    case _ => Err(NoMethodError)
  }

  /** `resolve_generated_path`: where a template is written, from the
      entry's `path` and the template's name. */
  function ResolveGeneratedPath(path: Value, template: string): (r: Result<string>)
    ensures path.Null? ==> r.Ok? && r.value + Extname(template) == Basename(template)
    ensures path.Str? && Extname(path.s) == [] ==> r == Ok(FileJoin(path.s, BasenameWithoutExt(template)))
    ensures path.Str? && Extname(path.s) != [] ==> r == Ok(path.s)
    ensures !(path.Null? || path.Str?) ==> r == Err(TypeError)
  {
    match path
    case Null => Ok(BasenameWithoutExt(template))
    case Str(p) => if Extname(p) == [] then Ok(FileJoin(p, BasenameWithoutExt(template))) else Ok(p)
    case _ => Err(TypeError)
  }

  /** The body of the `generate_templates` loop for one entry: the template
      is read from the templates directory (a missing file raises), then its
      output path is resolved, then it is generated. */
  function TemplateStep(scopePath: string, existing: set<string>, entry: Value): (r: Result<Action>)
    ensures !(entry.Hash? || entry.Str?) ==> r.Err?
    ensures r.Ok? ==> Index(entry, "template").Ok? && Index(entry, "template").value.Str?
    ensures r.Ok? ==>
      var source := PathJoin(TemplatesPath(scopePath), Index(entry, "template").value.s);
      && source in existing
      && Index(entry, "path").Ok?
      && ResolveGeneratedPath(Index(entry, "path").value, Index(entry, "template").value.s).Ok?
      && r.value == Generate(source, ResolveGeneratedPath(Index(entry, "path").value, Index(entry, "template").value.s).value)
    ensures entry.Hash? && Lookup(entry.entries, "template").Str? ==>
      var source := PathJoin(TemplatesPath(scopePath), Lookup(entry.entries, "template").s);
      source !in existing ==> r == Err(NoSuchFile(source))
  {
    var template :- Index(entry, "template");
    if !template.Str? then Err(TypeError)
    else
      var source := PathJoin(TemplatesPath(scopePath), template.s);
      if source !in existing then Err(NoSuchFile(source))
      else
        var path := Index(entry, "path").value;
        var output :- ResolveGeneratedPath(path, template.s);
        Ok(Generate(source, output))
  }

  function Step(scopePath: string, existing: set<string>): Value -> Result<Action> {
    entry => TemplateStep(scopePath, existing, entry)
  }

  /** `call`: the actions the run leaves behind and the error it raised, if
      any; `existing` are the files present in the checkout. */
  function UpdateSpec(scopePath: string, settings: map<string, Value>, existing: set<string>): (r: (seq<Action>, Option<Error>))
  {
    match TemplateConfigs(settings)
    case Err(e) => ([], Some(e))
    case Ok(entries) =>
      var run := Generated(entries, Step(scopePath, existing));
      if run.1.Some? then run
      else (run.0 + [Commit(CommitMessage), Push], None)
  }

  /** A path without an extension is a directory: the output lands in it,
      under the template's name without its extension. */
  lemma {:induction false} DirectoryPathKeepsTemplateName(path: string, template: string)
    requires Extname(path) == []
    requires BasenameWithoutExt(template) != [] && '/' !in BasenameWithoutExt(template)
    ensures var r := ResolveGeneratedPath(Str(path), template);
      && r.Ok?
      && |path| <= |r.value| && r.value[..|path|] == path
      && Basename(r.value) == BasenameWithoutExt(template)
  {
    var name := BasenameWithoutExt(template);
    assert ResolveGeneratedPath(Str(path), template) == Ok(FileJoin(path, name));
    BasenameOfFileJoin(path, name);
    FileJoinExtendsDirectory(path, name);
  }

  /** A successful run generates one output per entry, in the order of the
      list, from the entry's own template, and only then commits with the
      message "update templates" and pushes. */
  lemma SuccessfulUpdateCommitsAfterGenerating(scopePath: string, settings: map<string, Value>, existing: set<string>)
    requires UpdateSpec(scopePath, settings, existing).1.None?
    ensures TemplateConfigs(settings).Ok?
    ensures var entries := TemplateConfigs(settings).value;
      var actions := UpdateSpec(scopePath, settings, existing).0;
      && |actions| == |entries| + 2
      && actions[|entries|..] == [Commit(CommitMessage), Push]
      && forall k :: 0 <= k < |entries| ==>
           && Index(entries[k], "template").Ok? && Index(entries[k], "template").value.Str?
           && actions[k] == Generate(PathJoin(TemplatesPath(scopePath), Index(entries[k], "template").value.s),
                                     actions[k].output)
  {
    var entries := TemplateConfigs(settings).value;
    var run := Generated(entries, Step(scopePath, existing));
    forall k | 0 <= k < |entries|
      ensures Index(entries[k], "template").Ok? && Index(entries[k], "template").value.Str?
      ensures run.0[k] == Generate(PathJoin(TemplatesPath(scopePath), Index(entries[k], "template").value.s),
                                   run.0[k].output)
    {
      assert Step(scopePath, existing)(entries[k]) == Ok(run.0[k]);
    }
    assert (run.0 + [Commit(CommitMessage), Push])[|entries|..] == [Commit(CommitMessage), Push];
  }

  /** A run that raises neither commits nor pushes: everything it left
      behind is a generated template. */
  lemma FailedUpdateDoesNotCommit(scopePath: string, settings: map<string, Value>, existing: set<string>)
    requires UpdateSpec(scopePath, settings, existing).1.Some?
    ensures forall a :: a in UpdateSpec(scopePath, settings, existing).0 ==> a.Generate?
  {
    if TemplateConfigs(settings).Ok? {
      var entries := TemplateConfigs(settings).value;
      var run := Generated(entries, Step(scopePath, existing));
      forall a | a in run.0
        ensures a.Generate?
      {
        var k :| 0 <= k < |run.0| && run.0[k] == a;
        assert TemplateStep(scopePath, existing, entries[k]) == Ok(a);
      }
    }
  }

  /** An entry naming a template that does not exist raises `ENOENT` for
      that file once the entries before it are generated, and nothing after
      it runs. */
  lemma {:induction false} MissingTemplateRaises(scopePath: string, settings: map<string, Value>, existing: set<string>, k: nat)
    requires TemplateConfigs(settings).Ok?
    requires var entries := TemplateConfigs(settings).value;
      && k < |entries|
      && (forall j :: 0 <= j < k ==> TemplateStep(scopePath, existing, entries[j]).Ok?)
      && entries[k].Hash? && Lookup(entries[k].entries, "template").Str?
      && PathJoin(TemplatesPath(scopePath), Lookup(entries[k].entries, "template").s) !in existing
    ensures var entries := TemplateConfigs(settings).value;
      var r := UpdateSpec(scopePath, settings, existing);
      && |r.0| == k
      && r.1 == Some(NoSuchFile(PathJoin(TemplatesPath(scopePath), Lookup(entries[k].entries, "template").s)))
  {
    var entries := TemplateConfigs(settings).value;
    GeneratedStopsAtFirstError(entries, Step(scopePath, existing), k);
  }

  /** `call`: `generate_templates`, then `commit_and_push`. */
  method Call(scope: Scope, checkout: Checkout, existing: set<string>) returns (err: Option<Error>)
    modifies checkout
    ensures checkout.files == old(checkout.files)
    ensures checkout.actions == old(checkout.actions) + UpdateSpec(scope.path, scope.settings, existing).0
    ensures err == UpdateSpec(scope.path, scope.settings, existing).1
  {
    var path, settings := scope.path, scope.settings;
    var configs := TemplateConfigs(settings);
    if configs.Err? {
      return Some(configs.error);
    }
    ghost var before := checkout.actions;
    ghost var run := Generated(configs.value, Step(path, existing));
    err := RunSteps(checkout, configs.value, Step(path, existing));
    if err.Some? {
      assert UpdateSpec(path, settings, existing) == run;
      return;
    }
    assert UpdateSpec(path, settings, existing) == (run.0 + [Commit(CommitMessage), Push], None);
    checkout.actions := checkout.actions + [Commit(CommitMessage), Push];
    assert checkout.actions == before + (run.0 + [Commit(CommitMessage), Push]);
    err := None;
  }
}
