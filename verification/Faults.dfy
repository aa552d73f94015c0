/** Operations that may fail. Whether they do is in store for them, in order; with nothing left in store they do not. */
module Faults {
  /** The operations took `n` of the faults that were in store, and all went well exactly if none of them was one. */
  ghost predicate Took(before: seq<bool>, after: seq<bool>, n: nat, ok: bool) {
    n <= |before| && after == before[n..] && (ok <==> forall k :: 0 <= k < n ==> !before[k])
  }

  /** `ok` says whether the operations between `before` and `after` all went well. */
  ghost predicate Suffers(before: seq<bool>, after: seq<bool>, ok: bool) { exists n: nat :: Took(before, after, n, ok) }

  lemma {:induction false} SuffersOn(a: seq<bool>, b: seq<bool>, c: seq<bool>, ok: bool)
    requires Suffers(a, b, true) && Suffers(b, c, ok)
    ensures Suffers(a, c, ok)
  {
    var n: nat :| Took(a, b, n, true);
    var m: nat :| Took(b, c, m, ok);
    assert a[n..][m..] == a[n + m..];
    assert forall k :: 0 <= k < m ==> b[k] == a[n + k];
    if !ok {
      var k :| 0 <= k < m && b[k];
      assert a[n + k];
    }
    forall k | ok && 0 <= k < n + m ensures !a[k] { if k >= n { assert b[k - n] == a[k]; } }
    assert Took(a, c, n + m, ok);
  }

  /** Without faults nothing fails, and after a failure there was one. */
  lemma {:induction false} FailureNeedsFault(before: seq<bool>, after: seq<bool>, ok: bool)
    requires Suffers(before, after, ok)
    ensures !ok ==> true in before && |after| < |before|
  {
    var n: nat :| Took(before, after, n, ok);
  }

  /** Nothing was done, or nothing that could fail. */
  lemma {:induction false} SuffersNothing(faults: seq<bool>)
    ensures Suffers(faults, faults, true)
  {
    assert Took(faults, faults, 0, true);
  }
}
