/** The shuffled draw pile: the Fisher-Yates copy and drawing without replacement. */
module Deck {
  import opened Types

  // --- the shuffle, as a function of its random choices ---

  function Swap<T>(s: seq<T>, i: nat, j: nat): (r: seq<T>)
    requires i < |s| && j < |s|
  {
    s[i := s[j]][j := s[i]]
  }

  /** What `randIntn(i + 1)` returns: a supplied choice in 0..i.  A missing or
      out-of-range choice stands for a failing random source, where the code uses 0. */
  function Choice(rand: seq<nat>, i: nat): (j: nat)
    ensures j <= i
  {
    if i < |rand| && rand[i] <= i then rand[i] else 0
  }

  /** The swaps of the loop from index i down to 1. */
  function ShuffleFrom<T>(s: seq<T>, rand: seq<nat>, i: nat): (r: seq<T>)
    requires i == 0 || i < |s|
    ensures |r| == |s|
    decreases i
  {
    if i == 0 then s else ShuffleFrom(Swap(s, i, Choice(rand, i)), rand, i - 1)
  }

  function Shuffle<T>(s: seq<T>, rand: seq<nat>): (r: seq<T>)
    ensures |r| == |s|
  {
    if s == [] then [] else ShuffleFrom(s, rand, |s| - 1)
  }

  method ShuffledCopy<T(0)>(qs: seq<T>, rand: seq<nat>) returns (r: seq<T>)
    ensures r == Shuffle(qs, rand)
  {
    var out := new T[|qs|](i requires 0 <= i < |qs| => qs[i]);
    assert out[..] == qs;
    if |qs| == 0 {
      return [];
    }
    var i := |qs| - 1;
    while i > 0
      invariant 0 <= i < |qs| == out.Length
      invariant ShuffleFrom(out[..], rand, i) == Shuffle(qs, rand)
    {
      ghost var before := out[..];
      var j := Choice(rand, i);
      out[i], out[j] := out[j], out[i];
      assert out[..] == Swap(before, i, j);
      i := i - 1;
    }
    r := out[..];
  }

  // --- it is a permutation, and every permutation comes from exactly one choice vector ---

  lemma SwapPermutes<T>(s: seq<T>, i: nat, j: nat)
    requires i < |s| && j < |s|
    ensures multiset(Swap(s, i, j)) == multiset(s)
  {
  }

  lemma {:induction false} ShuffleFromPermutes<T>(s: seq<T>, rand: seq<nat>, i: nat)
    requires i == 0 || i < |s|
    ensures multiset(ShuffleFrom(s, rand, i)) == multiset(s)
    ensures forall k :: i < k < |s| ==> ShuffleFrom(s, rand, i)[k] == s[k]
    decreases i
  {
    if i > 0 {
      SwapPermutes(s, i, Choice(rand, i));
      ShuffleFromPermutes(Swap(s, i, Choice(rand, i)), rand, i - 1);
    }
  }

  lemma ShufflePermutes<T>(s: seq<T>, rand: seq<nat>)
    ensures multiset(Shuffle(s, rand)) == multiset(s)
  {
    if s != [] {
      ShuffleFromPermutes(s, rand, |s| - 1);
    }
  }

  /** The choice vectors the loop can consume for n entries: entry i in 0..i. */
  ghost predicate ValidChoices(js: seq<nat>, n: nat) {
    |js| == n && forall i :: 0 <= i < n ==> js[i] <= i
  }

  ghost predicate Distinct<T>(s: seq<T>) {
    forall i, j :: 0 <= i < j < |s| ==> s[i] != s[j]
  }

  lemma SwapKeepsDistinct<T>(s: seq<T>, i: nat, j: nat)
    requires i < |s| && j < |s| && Distinct(s)
    ensures Distinct(Swap(s, i, j))
  {
  }

  /** Two choice vectors that agree on the outcome agree on every choice. */
  lemma SwapTop<T>(s: seq<T>, i: nat, j: nat)
    requires j <= i < |s|
    ensures Swap(s, i, j)[i] == s[j]
  {
  }

  lemma {:induction false} ShuffleFromInjective<T>(s: seq<T>, a: seq<nat>, b: seq<nat>, i: nat)
    requires i == 0 || i < |s|
    requires Distinct(s)
    requires ShuffleFrom(s, a, i) == ShuffleFrom(s, b, i)
    ensures forall k :: 1 <= k <= i ==> Choice(a, k) == Choice(b, k)
    decreases i
  {
    hide Choice, Swap;
    if i > 0 {
      var ja, jb := Choice(a, i), Choice(b, i);
      ShuffleFromPermutes(Swap(s, i, ja), a, i - 1);
      ShuffleFromPermutes(Swap(s, i, jb), b, i - 1);
      SwapTop(s, i, ja);
      SwapTop(s, i, jb);
      assert ja == jb;
      SwapKeepsDistinct(s, i, ja);
      ShuffleFromInjective(Swap(s, i, ja), a, b, i - 1);
    }
  }

  /** The prefixes of two permutations that agree above i are permutations of each other. */
  lemma PrefixPermutes<T>(s: seq<T>, p: seq<T>, i: nat)
    requires i <= |s| == |p|
    requires multiset(s) == multiset(p)
    requires s[i..] == p[i..]
    ensures multiset(s[..i]) == multiset(p[..i])
  {
    assert s == s[..i] + s[i..] && p == p[..i] + p[i..];
    assert multiset(s[..i]) == multiset(s) - multiset(s[i..]);
    assert multiset(p[..i]) == multiset(p) - multiset(p[i..]);
  }

  /** One swap that puts p's entry in place at index i. */
  lemma SwapTowards<T>(s: seq<T>, p: seq<T>, i: nat) returns (j: nat)
    requires i < |s| == |p|
    requires multiset(s) == multiset(p)
    requires s[i + 1..] == p[i + 1..]
    ensures j <= i && Swap(s, i, j)[i..] == p[i..]
  {
    PrefixPermutes(s, p, i + 1);
    assert p[..i + 1][i] in multiset(p[..i + 1]);
    assert p[i] in s[..i + 1];
    j :| 0 <= j <= i && s[j] == p[i];
    var t := Swap(s, i, j);
    forall k | i <= k < |s| ensures t[k] == p[k] {
      if k > i {
        assert s[k] == s[i + 1..][k - i - 1] && p[k] == p[i + 1..][k - i - 1];
      }
    }
  }

  lemma {:induction false} ShuffleFromAgrees<T>(s: seq<T>, a: seq<nat>, b: seq<nat>, i: nat)
    requires i == 0 || i < |s|
    requires forall k :: 1 <= k <= i ==> Choice(a, k) == Choice(b, k)
    ensures ShuffleFrom(s, a, i) == ShuffleFrom(s, b, i)
    decreases i
  {
    if i > 0 {
      ShuffleFromAgrees(Swap(s, i, Choice(a, i)), a, b, i - 1);
    }
  }

  /** Choices that lead the swaps from index i down to the permutation p. */
  lemma {:induction false} ChoicesFor<T>(s: seq<T>, p: seq<T>, i: nat) returns (js: seq<nat>)
    requires i < |s| == |p|
    requires multiset(s) == multiset(p)
    requires s[i + 1..] == p[i + 1..]
    ensures ValidChoices(js, i + 1)
    ensures ShuffleFrom(s, js, i) == p
    decreases i
  {
    var j := SwapTowards(s, p, i);
    var t := Swap(s, i, j);
    SwapPermutes(s, i, j);
    if i == 0 {
      assert s == t == t[0..] && p == p[0..];
      js := [0];
    } else {
      var rest := ChoicesFor(t, p, i - 1);
      js := rest + [j];
      ShuffleFromAgrees(t, rest, js, i - 1);
    }
  }

  /** The shuffle is unbiased: over n distinct positions, every permutation is the
      outcome of exactly one choice vector. */
  lemma ShuffleIsBijective<T>(s: seq<T>, p: seq<T>)
    requires Distinct(s) && multiset(p) == multiset(s)
    ensures exists js :: ValidChoices(js, |s|) && Shuffle(s, js) == p
    ensures forall a, b | ValidChoices(a, |s|) && ValidChoices(b, |s|) && Shuffle(s, a) == p && Shuffle(s, b) == p ::
      a == b
  {
    assert |s| == |multiset(s)| && |p| == |multiset(p)|;
    if s == [] {
      assert ValidChoices([], 0) && Shuffle(s, []) == p;
    } else {
      var js := ChoicesFor(s, p, |s| - 1);
      assert ValidChoices(js, |s|) && Shuffle(s, js) == p;
      forall a, b | ValidChoices(a, |s|) && ValidChoices(b, |s|) && Shuffle(s, a) == p && Shuffle(s, b) == p
        ensures a == b
      {
        ShuffleFromInjective(s, a, b, |s| - 1);
        forall k | 0 <= k < |s| ensures a[k] == b[k] {
          assert k >= 1 ==> Choice(a, k) == Choice(b, k);
        }
      }
    }
  }

  /** s is qs read through the positions in `at`. */
  ghost predicate ReadThrough<T>(qs: seq<T>, at: seq<nat>, s: seq<T>) {
    |at| == |s| && forall k :: 0 <= k < |s| ==> at[k] < |qs| && s[k] == qs[at[k]]
  }

  /** A bank with repeated entries is shuffled by position: the outcome is the bank
      read through the shuffled list of positions. */
  lemma {:induction false} ShuffleMovesPositions<T>(qs: seq<T>, at: seq<nat>, s: seq<T>, rand: seq<nat>, i: nat)
    requires i == 0 || i < |s|
    requires ReadThrough(qs, at, s)
    ensures ReadThrough(qs, ShuffleFrom(at, rand, i), ShuffleFrom(s, rand, i))
    decreases i
  {
    if i > 0 {
      ShuffleMovesPositions(qs, Swap(at, i, Choice(rand, i)), Swap(s, i, Choice(rand, i)), rand, i - 1);
    }
  }

  // --- drawing ---

  datatype Draw<T> = Draw(card: Option<T>, deck: seq<T>)

  /** `PullQuestion`: take the last card, refilling an exhausted pile first; an
      empty bank yields no card. */
  function DrawCard<T>(bank: seq<T>, deck: seq<T>, rand: seq<nat>): Draw<T> {
    var pile := if deck == [] then Shuffle(bank, rand) else deck;
    if pile == [] then Draw(None, [])
    else Draw(Some(pile[|pile| - 1]), pile[..|pile| - 1])
  }

  ghost predicate IsShuffleOf<T>(p: seq<T>, bank: seq<T>) {
    multiset(p) == multiset(bank)
  }

  /** A pile is always what is left of one shuffle. */
  ghost predicate DeckOf<T(!new)>(bank: seq<T>, deck: seq<T>) {
    deck == [] || exists p :: IsShuffleOf(p, bank) && deck <= p && deck != p
  }

  lemma DrawKeepsDeck<T(!new)>(bank: seq<T>, deck: seq<T>, rand: seq<nat>)
    requires DeckOf(bank, deck)
    ensures DeckOf(bank, DrawCard(bank, deck, rand).deck)
  {
    var d := DrawCard(bank, deck, rand);
    if d.deck != [] {
      if deck == [] {
        ShufflePermutes(bank, rand);
        var p := Shuffle(bank, rand);
        assert IsShuffleOf(p, bank) && d.deck <= p && d.deck != p;
      } else {
        var p :| IsShuffleOf(p, bank) && deck <= p && deck != p;
        assert d.deck <= p && d.deck != p;
      }
    }
  }

  // --- draws without replacement until exhausted ---

  ghost function Reverse<T>(s: seq<T>): (r: seq<T>)
    ensures |r| == |s|
  {
    if s == [] then [] else [s[|s| - 1]] + Reverse(s[..|s| - 1])
  }

  lemma {:induction false} ReverseSameCards<T>(s: seq<T>)
    ensures multiset(Reverse(s)) == multiset(s)
  {
    if s != [] {
      ReverseSameCards(s[..|s| - 1]);
      assert s == s[..|s| - 1] + [s[|s| - 1]];
    }
  }

  /** A sequence dealt in whole rounds: each successive block of |bank| cards is a
      permutation of the bank. */
  ghost predicate Rounds<T>(bank: seq<T>, s: seq<T>)
    decreases |s|
  {
    s == [] || (0 < |bank| <= |s| && multiset(s[..|bank|]) == multiset(bank) && Rounds(bank, s[|bank|..]))
  }

  lemma {:induction false} RoundsAppend<T>(bank: seq<T>, s: seq<T>, p: seq<T>)
    requires Rounds(bank, s)
    requires bank != [] && multiset(p) == multiset(bank)
    ensures Rounds(bank, s + p)
    decreases |s|
  {
    var n := |bank|;
    assert |p| == |multiset(p)| == |multiset(bank)| == n;
    if s == [] {
      assert s + p == p && p[..n] == p && p[n..] == [];
    } else {
      RoundsAppend(bank, s[n..], p);
      assert (s + p)[..n] == s[..n];
      assert (s + p)[n..] == s[n..] + p;
    }
  }

  /** The history of a pile: the cards drawn so far followed by those still to come
      make whole rounds, and fewer than a round is left. */
  ghost predicate Dealt<T>(bank: seq<T>, drawn: seq<T>, deck: seq<T>) {
    Rounds(bank, drawn + Reverse(deck)) && (|deck| < |bank| || deck == [])
  }

  lemma DrawKeepsDealt<T>(bank: seq<T>, drawn: seq<T>, deck: seq<T>, rand: seq<nat>)
    requires bank != [] && Dealt(bank, drawn, deck)
    ensures DrawCard(bank, deck, rand).card.Some?
    ensures Dealt(bank, drawn + [DrawCard(bank, deck, rand).card.value], DrawCard(bank, deck, rand).deck)
  {
    var d := DrawCard(bank, deck, rand);
    var pile := if deck == [] then Shuffle(bank, rand) else deck;
    assert drawn + Reverse(pile) == drawn + [pile[|pile| - 1]] + Reverse(d.deck);
    if deck == [] {
      ShufflePermutes(bank, rand);
      ReverseSameCards(pile);
      assert drawn + Reverse(deck) == drawn;
      RoundsAppend(bank, drawn, Reverse(pile));
    }
  }

  lemma {:induction false} RoundBlock<T>(bank: seq<T>, s: seq<T>, j: nat)
    requires Rounds(bank, s)
    requires (j + 1) * |bank| <= |s| && bank != []
    ensures 0 <= j * |bank| <= (j + 1) * |bank|
    ensures multiset(s[j * |bank|..(j + 1) * |bank|]) == multiset(bank)
    decreases j
  {
    var n := |bank|;
    assert (j + 1) * n == j * n + n;
    if j > 0 {
      assert (j - 1 + 1) * n == j * n == (j - 1) * n + n;
      RoundBlock(bank, s[n..], j - 1);
      assert s[n..][(j - 1) * n..j * n] == s[j * n..(j + 1) * n];
    } else {
      assert 0 * n == 0 && s[0..n] == s[..n];
    }
  }

  lemma SplitCounts<T>(s: seq<T>, n: nat, m: nat, q: T)
    requires n + m <= |s|
    ensures multiset(s[..n + m])[q] == multiset(s[..n])[q] + multiset(s[n..][..m])[q]
  {
    assert s[..n + m] == s[..n] + s[n..][..m];
  }

  lemma OneLess(k: nat, n: nat)
    requires k > 0
    ensures k * n == n + (k - 1) * n && (k - 1) * n >= 0
  {
  }

  lemma {:induction false} RoundCounts<T>(bank: seq<T>, s: seq<T>, k: nat, q: T)
    requires Rounds(bank, s)
    requires bank != [] && k * |bank| <= |s|
    ensures multiset(s[..k * |bank|])[q] == k * multiset(bank)[q]
    decreases k
  {
    if k == 0 {
      assert 0 * |bank| == 0 && s[..0] == [];
    } else {
      OneLess(k, |bank|);
      OneLess(k, multiset(bank)[q]);
      SplitCounts(s, |bank|, (k - 1) * |bank|, q);
      RoundCounts(bank, s[|bank|..], k - 1, q);
    }
  }

  /** Any k rounds' worth of draws from an empty pile give every entry exactly k times. */
  lemma WholeRoundsDrawEvenly<T>(bank: seq<T>, drawn: seq<T>, deck: seq<T>, k: nat, q: T)
    requires Dealt(bank, drawn, deck)
    requires bank != [] && k * |bank| <= |drawn|
    ensures multiset(drawn[..k * |bank|])[q] == k * multiset(bank)[q]
  {
    RoundCounts(bank, drawn + Reverse(deck), k, q);
    assert (drawn + Reverse(deck))[..k * |bank|] == drawn[..k * |bank|];
  }

  /** The first multiple of n at or after i. */
  lemma NextRound(i: nat, n: nat) returns (j: nat)
    requires n > 0
    ensures i <= j * n <= i + n - 1 && (j + 1) * n == j * n + n
  {
    j := 0;
    while j * n < i
      invariant j * n <= i + n - 1
      decreases i - j * n
    {
      assert (j + 1) * n == j * n + n;
      j := j + 1;
    }
    assert (j + 1) * n == j * n + n;
  }

  /** Any 2N-1 consecutive draws contain every entry of a bank of N. */
  lemma WindowHoldsEveryEntry<T>(bank: seq<T>, drawn: seq<T>, deck: seq<T>, i: nat, q: T)
    requires Dealt(bank, drawn, deck)
    requires q in bank && i + 2 * |bank| - 1 <= |drawn|
    ensures q in drawn[i..i + 2 * |bank| - 1]
  {
    var n := |bank|;
    var j := NextRound(i, n);
    var s := drawn + Reverse(deck);
    RoundBlock(bank, s, j);
    assert q in multiset(bank);
    assert q in s[j * n..(j + 1) * n];
    var t :| j * n <= t < (j + 1) * n && s[t] == q;
    assert drawn[i..i + 2 * n - 1][t - i] == q;
  }
}
