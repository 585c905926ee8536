/**
 * `Commit::Operations::Changelogs::Include`: when the scope keeps release
 * data, registers one template per configured changelog on the scope's live
 * template list, so that the template update renders the changelogs too.
 */
module ChangelogsInclude {
  import opened Values
  import opened Configs
  import opened Scopes
  import ExternalsInclude

  /** The template list `config.commit.ensure(:templates, [])` answers.
      `ensure` is not part of this model; it is taken to answer the list
      under "templates" of the `commit` hash, attaching an empty one first
      when there is none. */
  predicate EnsureDefined(settings: map<string, Value>) {
    && Lookup(settings, "commit").Hash?
    && var t := Lookup(Lookup(settings, "commit").entries, "templates"); t.Null? || t.List?
  }

  function EnsuredTemplates(settings: map<string, Value>): (r: seq<Value>)
    requires EnsureDefined(settings)
    ensures Lookup(Lookup(settings, "commit").entries, "templates").List? ==>
      r == Lookup(Lookup(settings, "commit").entries, "templates").items
    ensures Lookup(Lookup(settings, "commit").entries, "templates").Null? ==> r == []
  {
    match Lookup(Lookup(settings, "commit").entries, "templates")
    case List(xs) => xs
    case _ => []
  }

  /** The entry registered for one changelog: its `source!` when that is
      set (neither nil nor false), the bundled changelog template
      otherwise, and its `destination!` as it is, possibly nil. */
  function ChangelogEntry(c: Config, defaultChangelog: string): (r: Result<Value>)
    ensures r.Ok? <==> Dig(c, "source").Ok? && Dig(c, "destination").Ok?
    ensures r.Ok? ==> r.value.Hash? && r.value.entries.Keys == {"source", "destination"}
    ensures r.Ok? && Truthy(Dig(c, "source").value) ==> r.value.entries["source"] == Dig(c, "source").value
    ensures r.Ok? && !Truthy(Dig(c, "source").value) ==> r.value.entries["source"] == Str(defaultChangelog)
    ensures r.Ok? ==> r.value.entries["destination"] == Dig(c, "destination").value
  {
    var source :- Dig(c, "source");
    var destination :- Dig(c, "destination");
    Ok(Hash(map[
      "source" := if Truthy(source) then source else Str(defaultChangelog),
      "destination" := destination]))
  }

  /** The loop of `call`: one entry appended per changelog, in order; an
      element that is not a Config (an array or a scalar inside the list)
      has no `source!` and stops the loop there. */
  function Register(list: seq<Value>, changelogs: seq<Wrapped>, defaultChangelog: string): (r: (seq<Value>, Option<Error>))
    ensures |list| <= |r.0| <= |list| + |changelogs| && r.0[..|list|] == list
    ensures r.1.None? ==> |r.0| == |list| + |changelogs|
    ensures r.1.None? ==> forall k :: 0 <= k < |changelogs| ==>
      changelogs[k].Node? && ChangelogEntry(changelogs[k].config, defaultChangelog) == Ok(r.0[|list| + k])
    decreases |changelogs|
  {
    if changelogs == [] then (list, None)
    else if !changelogs[0].Node? then (list, Some(NoMethodError))
    else
      match ChangelogEntry(changelogs[0].config, defaultChangelog)
      case Err(e) => (list, Some(e))
      case Ok(entry) =>
        var list' := list + [entry];
        var r := Register(list', changelogs[1..], defaultChangelog);
        assert r.0[..|list'|] == list';
        assert r.0[..|list|] == list;
        assert forall k :: 1 <= k < |changelogs| ==> changelogs[k] == changelogs[1..][k - 1];
        r
  }

  /** `call` as a function of the settings: the new settings and the error
      raised, if any. `config.commit.changelogs.to_a.each` runs only over an
      array: for a hash or a missing key, `to_a` and `each` are answered by
      Configs and the block never runs; a scalar has no `to_a`. */
  function IncludeSpec(settings: map<string, Value>, releasesExist: bool, defaultChangelog: string): (r: (map<string, Value>, Option<Error>))
    requires releasesExist ==> EnsureDefined(settings)
  {
    if !releasesExist then (settings, None)
    else
      var list := EnsuredTemplates(settings);
      var attached := ExternalsInclude.SetTemplates(settings, list);
      match Wrap(Lookup(Lookup(settings, "commit").entries, "changelogs"))
      case Items(ws) =>
        var registered := Register(list, ws, defaultChangelog);
        (ExternalsInclude.SetTemplates(attached, registered.0), registered.1)
      case Node(_) => (attached, None)
      case Bare(_) => (attached, Some(NoMethodError))
  }

  /** Without release data nothing is registered, whatever the settings
      hold: `call` returns before it reads the configuration. */
  lemma WithoutReleasesNothingChanges(settings: map<string, Value>, defaultChangelog: string)
    ensures IncludeSpec(settings, false, defaultChangelog) == (settings, None)
  {
  }

  /** With release data and a list of changelogs, the templates already
      listed stay first, in order, and exactly one entry follows per
      changelog, in configuration order. */
  lemma {:induction false} OneEntryPerChangelog(settings: map<string, Value>, defaultChangelog: string)
    requires EnsureDefined(settings)
    requires Lookup(Lookup(settings, "commit").entries, "changelogs").List?
    requires IncludeSpec(settings, true, defaultChangelog).1.None?
    ensures var before := EnsuredTemplates(settings);
      var changelogs := Lookup(Lookup(settings, "commit").entries, "changelogs").items;
      var out := IncludeSpec(settings, true, defaultChangelog).0;
      && "commit" in out && out["commit"].Hash?
      && Lookup(out["commit"].entries, "templates").List?
      && var after := Lookup(out["commit"].entries, "templates").items;
         && |after| == |before| + |changelogs|
         && after[..|before|] == before
         && forall k :: 0 <= k < |changelogs| ==>
              Wrap(changelogs[k]).Node? &&
              ChangelogEntry(Wrap(changelogs[k]).config, defaultChangelog) == Ok(after[|before| + k])
  {
    var before := EnsuredTemplates(settings);
    var changelogs := Lookup(Lookup(settings, "commit").entries, "changelogs").items;
    var w := Wrap(Lookup(Lookup(settings, "commit").entries, "changelogs"));
    assert w.items == seq(|changelogs|, i requires 0 <= i < |changelogs| => Wrap(changelogs[i]));
    var attached := ExternalsInclude.SetTemplates(settings, before);
    var registered := Register(before, w.items, defaultChangelog);
    var out := IncludeSpec(settings, true, defaultChangelog).0;
    assert out == ExternalsInclude.SetTemplates(attached, registered.0);
    assert Lookup(out["commit"].entries, "templates").items == registered.0;
    forall k | 0 <= k < |changelogs|
      ensures Wrap(changelogs[k]).Node?
      ensures ChangelogEntry(Wrap(changelogs[k]).config, defaultChangelog) == Ok(registered.0[|before| + k])
    {
      assert w.items[k] == Wrap(changelogs[k]);
    }
  }

  /** `call`: registers the changelog templates on the live list. */
  method Call(scope: Scope, releasesExist: bool, defaultChangelog: string) returns (err: Option<Error>)
    requires releasesExist ==> EnsureDefined(scope.settings)
    modifies scope
    ensures (scope.settings, err) == IncludeSpec(old(scope.settings), releasesExist, defaultChangelog)
  {
    if !releasesExist {
      return None;
    }
    var original := scope.settings;
    var list := EnsuredTemplates(scope.settings);
    scope.settings := ExternalsInclude.SetTemplates(scope.settings, list);
    var changelogs := Wrap(Lookup(Lookup(scope.settings, "commit").entries, "changelogs"));
    if changelogs.Node? {
      return None;
    }
    if changelogs.Bare? {
      return Some(NoMethodError);
    }
    var ws := changelogs.items;
    ghost var list0 := list;
    var i := 0;
    while i < |ws|
      invariant 0 <= i <= |ws|
      invariant scope.settings == ExternalsInclude.SetTemplates(original, list)
      invariant Register(list, ws[i..], defaultChangelog) == Register(list0, ws, defaultChangelog)
    {
      assert ws[i..][0] == ws[i] && ws[i..][1..] == ws[i + 1..];
      if !ws[i].Node? {
        ExternalsInclude.SetTemplatesTwice(original, list0, list);
        return Some(NoMethodError);
      }
      var entry := ChangelogEntry(ws[i].config, defaultChangelog);
      if entry.Err? {
        ExternalsInclude.SetTemplatesTwice(original, list0, list);
        return Some(entry.error);
      }
      list := list + [entry.value];
      scope.settings := ExternalsInclude.SetTemplates(original, list);
      i := i + 1;
    }
    assert ws[i..] == [];
    ExternalsInclude.SetTemplatesTwice(original, list0, list);
    err := None;
  }
}
