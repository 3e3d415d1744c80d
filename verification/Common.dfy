/** What several modules share: optional values, the bounds of an int32, the numbers below a bound, and facts that
    stay. */
module Common {
  datatype Option<+T> = None | Some(value: T)

  const MIN_INT32 := -0x8000_0000
  const MAX_INT32 := 0x7fff_ffff

  function UpTo(n: nat): (s: set<nat>)
    ensures |s| == n && forall i: nat :: i in s <==> i < n
  {
    if n == 0 then {} else UpTo(n - 1) + {n - 1}
  }

  /** A fact that comes with an event and stays: it holds at i exactly if the event happened before. */
  lemma {:induction false} ComesAndStays(fact: seq<bool>, event: seq<bool>, i: nat)
    requires |fact| == |event| + 1 && !fact[0] && i < |fact|
    requires forall k :: 0 <= k < |event| ==> fact[k + 1] == (fact[k] || event[k])
    ensures fact[i] <==> exists k :: 0 <= k < i && event[k]
  {
    if i > 0 {
      ComesAndStays(fact, event, i - 1);
      assert fact[i] == (fact[i - 1] || event[i - 1]);
    }
  }
}
