/** The fail-closed fold shared by `keys` and `unarmor`: walk a sequence of
    step outcomes left to right, append the values of the successful ones,
    and stop with the error of the first step that failed (no partial
    result). */
module FailClosed {
  import opened Results

  predicate AllOk<T>(rs: seq<Result<T>>) {
    forall i :: 0 <= i < |rs| ==> rs[i].Ok?
  }

  /** The values of a sequence of outcomes that all succeeded. */
  function Values<T>(rs: seq<Result<T>>): (vs: seq<T>)
    requires AllOk(rs)
    ensures |vs| == |rs|
    ensures forall i :: 0 <= i < |rs| ==> vs[i] == rs[i].value
  {
    seq(|rs|, i requires 0 <= i < |rs| => rs[i].value)
  }

  /** The concatenation of `ss`, in order. */
  function Flatten<T>(ss: seq<seq<T>>): seq<T> {
    if ss == [] then [] else Flatten(ss[..|ss| - 1]) + ss[|ss| - 1]
  }

  /** The fold, defined by its last step: once a step has failed, the fold
      keeps that step's error. */
  function Collect<T>(rs: seq<Result<seq<T>>>): Result<seq<T>> {
    if rs == [] then Ok([])
    else
      match Collect(rs[..|rs| - 1])
      case Err(e) => Err(e)
      case Ok(done) =>
        match rs[|rs| - 1]
        case Err(e) => Err(e)
        case Ok(v) => Ok(done + v)
  }

  /** The fold succeeds exactly when every step succeeds. */
  lemma {:induction false} CollectOkIff<T>(rs: seq<Result<seq<T>>>)
    ensures Collect(rs).Ok? <==> AllOk(rs)
  {
    if rs != [] {
      var prefix := rs[..|rs| - 1];
      CollectOkIff(prefix);
      assert AllOk(rs) <==> AllOk(prefix) && rs[|rs| - 1].Ok? by {
        assert forall i :: 0 <= i < |prefix| ==> prefix[i] == rs[i];
      }
    }
  }

  /** When every step succeeds, the fold is the in-order concatenation of
      their values. */
  lemma {:induction false} CollectConcatenates<T>(rs: seq<Result<seq<T>>>)
    requires AllOk(rs)
    ensures Collect(rs) == Ok(Flatten(Values(rs)))
  {
    if rs != [] {
      var prefix := rs[..|rs| - 1];
      assert AllOk(prefix) by {
        assert forall i :: 0 <= i < |prefix| ==> prefix[i] == rs[i];
      }
      CollectConcatenates(prefix);
      assert Values(rs)[..|rs| - 1] == Values(prefix);
    }
  }

  /** The first failing step decides the outcome: its error, and nothing else. */
  lemma {:induction false} CollectFirstError<T>(rs: seq<Result<seq<T>>>, k: nat)
    requires k < |rs| && rs[k].Err?
    requires forall j :: 0 <= j < k ==> rs[j].Ok?
    ensures Collect(rs) == Err(rs[k].error)
  {
    var prefix := rs[..|rs| - 1];
    if k == |rs| - 1 {
      assert AllOk(prefix) by {
        assert forall i :: 0 <= i < |prefix| ==> prefix[i] == rs[i];
      }
      CollectOkIff(prefix);
    } else {
      assert prefix[k] == rs[k];
      CollectFirstError(prefix, k);
    }
  }

  /** Concatenating one-element sequences keeps one element per sequence. */
  lemma {:induction false} FlattenSingletons<T>(ss: seq<seq<T>>)
    requires forall i :: 0 <= i < |ss| ==> |ss[i]| == 1
    ensures |Flatten(ss)| == |ss|
    ensures forall i :: 0 <= i < |ss| ==> Flatten(ss)[i] == ss[i][0]
  {
    if ss != [] {
      var prefix := ss[..|ss| - 1];
      FlattenSingletons(prefix);
    }
  }

  /** The fold over a sequence extended by one successful step. */
  lemma CollectSnoc<T>(rs: seq<Result<seq<T>>>, i: nat, done: seq<T>)
    requires i < |rs| && Collect(rs[..i]) == Ok(done) && rs[i].Ok?
    ensures Collect(rs[..i + 1]) == Ok(done + rs[i].value)
  {
    assert rs[..i + 1][..i] == rs[..i];
  }

  /** A step that fails after successful ones ends the whole fold with its error. */
  lemma CollectStopsAt<T>(rs: seq<Result<seq<T>>>, i: nat, done: seq<T>)
    requires i < |rs| && Collect(rs[..i]) == Ok(done) && rs[i].Err?
    ensures Collect(rs) == Err(rs[i].error)
  {
    CollectOkIff(rs[..i]);
    assert forall j :: 0 <= j < i ==> rs[..i][j] == rs[j];
    CollectFirstError(rs, i);
  }
}
