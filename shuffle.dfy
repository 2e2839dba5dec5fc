/**
 * `shuffleArray` (client/src/lib/utils.ts): Fisher–Yates on a copy. The
 * random pick of step `i` is a parameter `choices[i]`, any value in
 * [0, i], in place of `Math.floor(Math.random() * (i + 1))`.
 */
module Utils {

  /** `s` with positions `i` and `j` exchanged. */
  function Swap<T>(s: seq<T>, i: nat, j: nat): (r: seq<T>)
    requires i < |s| && j < |s|
    ensures |r| == |s|
    ensures r[i] == s[j] && r[j] == s[i]
    ensures forall k :: 0 <= k < |s| && k != i && k != j ==> r[k] == s[k]
  {
    s[i := s[j]][j := s[i]]
  }

  lemma SwapPermutes<T>(s: seq<T>, i: nat, j: nat)
    requires i < |s| && j < |s|
    ensures multiset(Swap(s, i, j)) == multiset(s)
  {
    if i != j {
      var t := s[i := s[j]];
      assert multiset(t) == multiset(s) - multiset{s[i]} + multiset{s[j]};
      assert multiset(t[j := s[i]]) == multiset(t) - multiset{t[j]} + multiset{s[i]};
    }
  }

  /** The picks are legal: the pick of step `i` lies in [0, i]. */
  predicate ValidChoices(choices: seq<nat>, n: nat) {
    |choices| == n && forall i :: 0 <= i < n ==> choices[i] <= i
  }

  /** The steps `i`, `i - 1`, …, 1 of the loop still to run on `s`. */
  function ShuffleSteps<T>(s: seq<T>, choices: seq<nat>, i: nat): (r: seq<T>)
    requires ValidChoices(choices, |s|) && i < |s|
    ensures |r| == |s|
    decreases i
  {
    if i == 0 then s else ShuffleSteps(Swap(s, i, choices[i]), choices, i - 1)
  }

  /** The shuffle of `s` under the picks `choices`. */
  function Shuffled<T>(s: seq<T>, choices: seq<nat>): (r: seq<T>)
    requires ValidChoices(choices, |s|)
    ensures |r| == |s|
  {
    if |s| == 0 then s else ShuffleSteps(s, choices, |s| - 1)
  }

  lemma {:induction false} ShuffleStepsPermutes<T>(s: seq<T>, choices: seq<nat>, i: nat)
    requires ValidChoices(choices, |s|) && i < |s|
    ensures multiset(ShuffleSteps(s, choices, i)) == multiset(s)
    decreases i
  {
    if i > 0 {
      SwapPermutes(s, i, choices[i]);
      ShuffleStepsPermutes(Swap(s, i, choices[i]), choices, i - 1);
    }
  }

  /** Whatever the picks, the shuffle is a permutation of its input. */
  lemma ShuffledPermutes<T>(s: seq<T>, choices: seq<nat>)
    requires ValidChoices(choices, |s|)
    ensures multiset(Shuffled(s, choices)) == multiset(s)
  {
    if |s| > 0 {
      ShuffleStepsPermutes(s, choices, |s| - 1);
    }
  }

  /** Arrays of length 0 or 1 come back unchanged: the loop does not run. */
  lemma ShuffledShort<T>(s: seq<T>, choices: seq<nat>)
    requires ValidChoices(choices, |s|) && |s| <= 1
    ensures Shuffled(s, choices) == s
  {
  }

  /** With every pick `j = i` each swap is a no-op, so the shuffle can leave any input in its order. */
  lemma {:induction false} ShuffleStepsIdentity<T>(s: seq<T>, choices: seq<nat>, i: nat)
    requires ValidChoices(choices, |s|) && i < |s|
    requires forall k :: 0 <= k < |s| ==> choices[k] == k
    ensures ShuffleSteps(s, choices, i) == s
    decreases i
  {
    if i > 0 {
      assert Swap(s, i, i) == s;
      ShuffleStepsIdentity(s, choices, i - 1);
    }
  }

  /**
   * A shuffled copy of `a`; `a` itself is not changed. The result is
   * `Shuffled(a[..], choices)` and therefore a permutation of `a`.
   */
  method ShuffleArray<T>(a: array<T>, choices: seq<nat>) returns (b: array<T>)
    requires ValidChoices(choices, a.Length)
    ensures fresh(b)
    ensures a[..] == old(a[..])
    ensures b[..] == Shuffled(a[..], choices)
    ensures multiset(b[..]) == multiset(a[..])
  {
    b := new T[a.Length](k requires 0 <= k < a.Length reads a => a[k]);
    assert b[..] == a[..];
    var i := a.Length - 1;
    while i > 0
      invariant -1 <= i < a.Length
      invariant b.Length == a.Length
      invariant i >= 0 ==> ShuffleSteps(b[..], choices, i) == Shuffled(a[..], choices)
      invariant i < 0 ==> b[..] == a[..] == []
      decreases i
    {
      var j := choices[i];
      ghost var before := b[..];
      b[i], b[j] := b[j], b[i];
      assert b[..] == Swap(before, i, j);
      i := i - 1;
    }
    ShuffledPermutes(a[..], choices);
  }
}
