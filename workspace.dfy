/**
 * The checkout an operation works in: the YAML data files it reads and
 * writes, and the side effects it leaves behind in order (git commands run
 * by the `Git::*` operations, templates generated through `Template`).
 */
module Workspace {
  import opened Values

  /** An effect on the outside world. `Generate` stands for reading the
      template at `source`, evaluating it and writing the result at
      `output`. */
  datatype Action =
    | Pull
    | Commit(message: string)
    | Push
    | Generate(source: string, output: string)

  /** The files of the checkout, as parsed YAML by path (an empty file
      parses to false), and the effects of the run so far. */
  class Checkout {
    var files: map<string, Value>
    var actions: seq<Action>

    constructor (files: map<string, Value>)
      ensures this.files == files && actions == []
    {
      this.files := files;
      actions := [];
    }
  }

  /** Running `step` over `items` in order until one raises: the effects of
      the steps that succeeded, then the error that stopped the run, if any.
      It is the shape of every `each` loop whose body generates a template. */
  function Generated<T>(items: seq<T>, step: T -> Result<Action>): (r: (seq<Action>, Option<Error>))
    ensures |r.0| <= |items|
    ensures forall k :: 0 <= k < |r.0| ==> step(items[k]) == Ok(r.0[k])
    ensures r.1.None? ==> |r.0| == |items|
    ensures r.1.Some? ==> |r.0| < |items| && step(items[|r.0|]) == Err(r.1.value)
  {
    if items == [] then ([], None)
    else
      match step(items[0])
      case Err(e) => ([], Some(e))
      case Ok(a) =>
        var rest := Generated(items[1..], step);
        assert forall k :: 1 <= k < |items| ==> items[k] == items[1..][k - 1];
        ([a] + rest.0, rest.1)
  }

  /** A run stops at the first step that raises, with the effects of all the
      steps before it. */
  lemma {:induction false} GeneratedStopsAtFirstError<T>(items: seq<T>, step: T -> Result<Action>, k: nat)
    requires k < |items| && step(items[k]).Err?
    requires forall j :: 0 <= j < k ==> step(items[j]).Ok?
    ensures |Generated(items, step).0| == k
    ensures Generated(items, step).1 == Some(step(items[k]).error)
  {
    if k > 0 {
      assert forall j :: 0 <= j < k - 1 ==> items[1..][j] == items[j + 1];
      GeneratedStopsAtFirstError(items[1..], step, k - 1);
    }
  }

  /** A run none of whose steps raises ends without an error. */
  lemma {:induction false} GeneratedWithoutError<T>(items: seq<T>, step: T -> Result<Action>)
    requires forall k :: 0 <= k < |items| ==> step(items[k]).Ok?
    ensures Generated(items, step).1.None?
  {
    if items != [] {
      assert forall k :: 0 <= k < |items| - 1 ==> items[1..][k] == items[k + 1];
      GeneratedWithoutError(items[1..], step);
    }
  }

  /** The `each` loop itself: runs `step` over `items`, recording each
      effect on the checkout as it happens, and stops at the first error. */
  method RunSteps<T>(checkout: Checkout, items: seq<T>, step: T -> Result<Action>) returns (err: Option<Error>)
    modifies checkout
    ensures checkout.files == old(checkout.files)
    ensures checkout.actions == old(checkout.actions) + Generated(items, step).0
    ensures err == Generated(items, step).1
  {
    var done: seq<Action> := [];
    var i := 0;
    while i < |items|
      invariant 0 <= i <= |items| && |done| == i
      invariant checkout.files == old(checkout.files)
      invariant checkout.actions == old(checkout.actions) + done
      invariant forall k :: 0 <= k < i ==> step(items[k]) == Ok(done[k])
    {
      var effect := step(items[i]);
      if effect.Err? {
        GeneratedStopsAtFirstError(items, step, i);
        assert done == Generated(items, step).0;
        return Some(effect.error);
      }
      done := done + [effect.value];
      checkout.actions := checkout.actions + [effect.value];
      i := i + 1;
    }
    GeneratedWithoutError(items, step);
    assert done == Generated(items, step).0;
    err := None;
  }
}
