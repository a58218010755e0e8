/** The in-place shuffle that both parties run from a common seed. Position i is swapped with a position
    strictly below it, so the result is a permutation without fixed points. */
module Shuffle {

  /** The generator's choices: the index drawn for position i lies in [0, i). */
  ghost predicate Draws(picks: nat -> nat) {
    forall i :: i > 0 ==> picks(i) < i
  }

  function Swap<T>(s: seq<T>, i: nat, j: nat): seq<T>
    requires i < |s| && j < |s|
  {
    s[i := s[j]][j := s[i]]
  }

  /** Positions i, i-1, ..., 1 in turn. */
  ghost function Shuffled<T>(picks: nat -> nat, s: seq<T>, i: nat): (t: seq<T>)
    requires Draws(picks) && (i < |s| || i == 0)
    ensures |t| == |s|
    decreases i
  {
    if i == 0 then s else Shuffled(picks, Swap(s, picks(i), i), i - 1)
  }

  ghost function Last(n: nat): nat {
    if n == 0 then 0 else n - 1
  }

  method GeneratePermutation<T>(picks: nat -> nat, v: array<T>)
    requires Draws(picks)
    modifies v
    ensures v[..] == Shuffled(picks, old(v[..]), Last(v.Length))
  {
    if v.Length == 0 {
      assert v[..] == [];
      return;
    }
    var i: nat := v.Length - 1;
    while i > 0
      invariant i < v.Length
      invariant Shuffled(picks, v[..], i) == Shuffled(picks, old(v[..]), Last(v.Length))
    {
      var idx := picks(i);
      assert Swap(v[..], idx, i) == v[..][idx := v[i]][i := v[idx]];
      v[idx], v[i] := v[i], v[idx];
      i := i - 1;
    }
  }

  function Indices(n: nat): seq<nat> {
    seq(n, i => i)
  }

  function Map<S, T>(f: S -> T, s: seq<S>): (t: seq<T>)
    ensures |t| == |s|
  {
    seq(|s|, i requires 0 <= i < |s| => f(s[i]))
  }

  /** Shuffling does not look at the elements: it commutes with every map, so copies of the same list that
      carry different information stay aligned. */
  lemma {:induction false} ShuffleCommutes<S, T>(picks: nat -> nat, f: S -> T, s: seq<S>, i: nat)
    requires Draws(picks) && (i < |s| || i == 0)
    ensures Shuffled(picks, Map(f, s), i) == Map(f, Shuffled(picks, s, i))
    decreases i
  {
    if i > 0 {
      ShuffleCommutes(picks, f, Swap(s, picks(i), i), i - 1);
      assert Map(f, Swap(s, picks(i), i)) == Swap(Map(f, s), picks(i), i);
    }
  }

  /** Where each position of the result comes from. */
  ghost function Origin(picks: nat -> nat, n: nat): (p: seq<nat>)
    requires Draws(picks)
    ensures |p| == n
  {
    Shuffled(picks, Indices(n), Last(n))
  }

  lemma {:induction false} ShuffledElements<T>(picks: nat -> nat, s: seq<T>, i: nat)
    requires Draws(picks) && (i < |s| || i == 0)
    ensures multiset(Shuffled(picks, s, i)) == multiset(s)
    decreases i
  {
    if i > 0 {
      ShuffledElements(picks, Swap(s, picks(i), i), i - 1);
    }
  }

  lemma IndicesInRange(picks: nat -> nat, n: nat, k: nat)
    requires Draws(picks) && k < n
    ensures Origin(picks, n)[k] < n
  {
    ShuffledElements(picks, Indices(n), Last(n));
    assert Origin(picks, n)[k] in multiset(Origin(picks, n));
    assert Origin(picks, n)[k] in Indices(n);
  }

  lemma OneIndexEach(n: nat, x: nat)
    ensures multiset(Indices(n))[x] <= 1
  {
    if n > 0 {
      OneIndexEach(n - 1, x);
      assert Indices(n) == Indices(n - 1) + [n - 1];
      assert x == n - 1 ==> x !in Indices(n - 1);
    }
  }

  lemma TwiceInMultiset(s: seq<nat>, i: nat, j: nat)
    requires i < j < |s| && s[i] == s[j]
    ensures multiset(s)[s[i]] >= 2
  {
    assert s == s[..i] + [s[i]] + s[i + 1..j] + [s[j]] + s[j + 1..];
  }

  /** Different positions come from different places. */
  lemma OriginInjective(picks: nat -> nat, n: nat, i: nat, j: nat)
    requires Draws(picks) && i < j < n
    ensures Origin(picks, n)[i] != Origin(picks, n)[j]
  {
    var p := Origin(picks, n);
    if p[i] == p[j] {
      TwiceInMultiset(p, i, j);
      ShuffledElements(picks, Indices(n), Last(n));
      OneIndexEach(n, p[i]);
    }
  }

  /** The result is the input, reindexed by a permutation that depends on the choices and the length only. */
  lemma ShuffleReindexes<T>(picks: nat -> nat, s: seq<T>, k: nat)
    requires Draws(picks) && k < |s|
    ensures Origin(picks, |s|)[k] < |s| && Shuffled(picks, s, Last(|s|))[k] == s[Origin(picks, |s|)[k]]
  {
    var n := |s|;
    IndicesInRange(picks, n, k);
    var f := (i: nat) => if i < |s| then s[i] else s[0];
    assert Map(f, Indices(n)) == s;
    ShuffleCommutes(picks, f, Indices(n), Last(n));
  }

  /** Lists that agree position by position still agree after a shuffle with the same choices. */
  lemma ShuffleAligned<S, T>(picks: nat -> nat, s: seq<S>, t: seq<T>, agree: (S, T) -> bool)
    requires Draws(picks) && |s| == |t|
    requires forall i :: 0 <= i < |s| ==> agree(s[i], t[i])
    ensures forall i :: 0 <= i < |s| ==> agree(Shuffled(picks, s, Last(|s|))[i], Shuffled(picks, t, Last(|t|))[i])
  {
    hide Shuffled, Origin;
    forall i | 0 <= i < |s| ensures agree(Shuffled(picks, s, Last(|s|))[i], Shuffled(picks, t, Last(|t|))[i]) {
      ShuffleReindexes(picks, s, i);
      ShuffleReindexes(picks, t, i);
    }
  }

  /** Nothing still to be moved sits at a foreign position. */
  ghost predicate Settled(s: seq<nat>, i: nat) {
    forall p :: 0 <= p <= i && p < |s| && s[p] <= i ==> s[p] == p
  }

  lemma {:induction false} ShuffleMovesFrom(picks: nat -> nat, s: seq<nat>, i: nat, k: nat)
    requires Draws(picks) && 0 < i < |s| && Settled(s, i) && k <= i
    ensures Shuffled(picks, s, i)[k] != k
    decreases i
  {
    var t := Swap(s, picks(i), i);
    if i == 1 {
      assert Shuffled(picks, s, 1) == t;
    } else if k == i {
      TailUntouched(picks, t, i - 1, i);
    } else {
      ShuffleMovesFrom(picks, t, i - 1, k);
    }
  }

  lemma {:induction false} TailUntouched<T>(picks: nat -> nat, s: seq<T>, i: nat, k: nat)
    requires Draws(picks) && i < k < |s|
    ensures Shuffled(picks, s, i)[k] == s[k]
    decreases i
  {
    if i > 0 {
      TailUntouched(picks, Swap(s, picks(i), i), i - 1, k);
    }
  }

  /** Every element ends up somewhere else: the index is drawn from [0, i), not [0, i]. */
  lemma ShuffleMovesAll(picks: nat -> nat, n: nat, k: nat)
    requires Draws(picks) && n > 1 && k < n
    ensures Origin(picks, n)[k] != k
  {
    ShuffleMovesFrom(picks, Indices(n), n - 1, k);
  }
}
