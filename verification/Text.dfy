/** Text as the room package treats it: white space, case folding, player names
    and the decimal suffixes that keep names apart. */
module Text {

  /** One representative per letter of a case-folding class, as `strings.EqualFold`
      compares runes.  The only facts the model needs about the platform's table
      are that digits and the blank stand for themselves. */
  type Fold = f: char -> char | forall c :: Plain(c) ==> f(c) == c witness (c: char) => c

  predicate Plain(c: char) {
    c == ' ' || '0' <= c <= '9'
  }

  function FoldAll(fold: Fold, s: string): (r: string)
    ensures |r| == |s| && forall i :: 0 <= i < |s| ==> r[i] == fold(s[i])
  {
    seq(|s|, i requires 0 <= i < |s| => fold(s[i]))
  }

  predicate EqualFold(fold: Fold, a: string, b: string) {
    FoldAll(fold, a) == FoldAll(fold, b)
  }

  /** White space on which Go and JavaScript agree. */
  predicate CommonSpace(c: char) {
    '\t' <= c <= '\r' || c == ' ' || c == '\U{A0}' || c == '\U{1680}' || '\U{2000}' <= c <= '\U{200A}'
    || c == '\U{2028}' || c == '\U{2029}' || c == '\U{202F}' || c == '\U{205F}' || c == '\U{3000}'
  }

  /** The runes `strings.TrimSpace` removes. */
  predicate GoSpace(c: char) {
    CommonSpace(c) || c == '\U{85}'
  }

  /** The characters JavaScript's `trim` removes. */
  predicate JsSpace(c: char) {
    CommonSpace(c) || c == '\U{FEFF}'
  }

  function TrimLeft(space: char -> bool, s: string): string {
    if s != [] && space(s[0]) then TrimLeft(space, s[1..]) else s
  }

  function TrimRight(space: char -> bool, s: string): string {
    if s != [] && space(s[|s| - 1]) then TrimRight(space, s[..|s| - 1]) else s
  }

  function Trim(space: char -> bool, s: string): string {
    TrimRight(space, TrimLeft(space, s))
  }

  const MAX_NAME_RUNES := 18

  function CleanName(name: string): string {
    var n := Trim(GoSpace, name);
    Trim(GoSpace, if |n| > MAX_NAME_RUNES then n[..MAX_NAME_RUNES] else n)
  }

  function JoinName(name: string): string {
    var n := CleanName(if name == "" then "Player" else name);
    if n == "" then "Player" else n
  }

  function Decimal(n: nat): string {
    if n < 10 then ["0123456789"[n]] else Decimal(n / 10) + ["0123456789"[n % 10]]
  }

  ghost function DigitValue(c: char): nat {
    if '0' <= c <= '9' then (c - '0') as nat else 0
  }

  /** Reads a decimal numeral back; the inverse of Decimal. */
  ghost function DecimalValue(s: string): nat {
    if s == [] then 0
    else 10 * DecimalValue(s[..|s| - 1]) + DigitValue(s[|s| - 1])
  }

  lemma {:induction false} DecimalRoundTrip(n: nat)
    ensures DecimalValue(Decimal(n)) == n
    ensures forall c :: c in Decimal(n) ==> Plain(c)
  {
    if n < 10 {
      assert Decimal(n)[..0] == [];
    } else {
      DecimalRoundTrip(n / 10);
      assert Decimal(n)[..|Decimal(n)| - 1] == Decimal(n / 10);
    }
  }

  // --- names made unique by a numeric suffix ---

  /** The k-th spelling `dedupeName` tries: the name itself, then "name 2", "name 3", ... */
  function Candidate(name: string, k: nat): string {
    if k == 0 then name else name + " " + Decimal(k + 1)
  }

  predicate Taken(fold: Fold, name: string, names: seq<string>) {
    exists i :: 0 <= i < |names| && EqualFold(fold, names[i], name)
  }

  /** Every attempt before the k-th is taken. */
  ghost predicate AllTaken(fold: Fold, name: string, names: seq<string>, k: nat) {
    forall j :: 0 <= j < k ==> Taken(fold, Candidate(name, j), names)
  }

  /** Equal folded spellings with equal prefixes have equal numerals behind them. */
  lemma SuffixesAgree(fold: Fold, prefix: string, d: string, e: string)
    requires forall c :: c in d + e ==> Plain(c)
    requires EqualFold(fold, prefix + d, prefix + e)
    ensures d == e
  {
    var a, b := FoldAll(fold, prefix + d), FoldAll(fold, prefix + e);
    assert |a| == |b|;
    forall i | 0 <= i < |d| ensures d[i] == e[i] {
      var p := |prefix| + i;
      assert (prefix + d)[p] == d[i] && (prefix + e)[p] == e[i];
      assert a[p] == fold(d[i]) && b[p] == fold(e[i]);
      assert d[i] in d + e && e[i] in d + e;
    }
  }

  lemma EqualFoldLengths(fold: Fold, a: string, b: string)
    requires EqualFold(fold, a, b)
    ensures |a| == |b|
  {
    assert |FoldAll(fold, a)| == |FoldAll(fold, b)|;
  }

  lemma NumeralsDiffer(fold: Fold, prefix: string, m: nat, n: nat)
    requires m != n
    ensures !EqualFold(fold, prefix + Decimal(m), prefix + Decimal(n))
  {
    DecimalRoundTrip(m);
    DecimalRoundTrip(n);
    if EqualFold(fold, prefix + Decimal(m), prefix + Decimal(n)) {
      SuffixesAgree(fold, prefix, Decimal(m), Decimal(n));
    }
  }

  /** Distinct attempts stay distinct after folding, because digits fold to themselves. */
  lemma CandidatesDiffer(fold: Fold, name: string, j: nat, k: nat)
    requires j < k
    ensures !EqualFold(fold, Candidate(name, j), Candidate(name, k))
  {
    if EqualFold(fold, Candidate(name, j), Candidate(name, k)) {
      EqualFoldLengths(fold, Candidate(name, j), Candidate(name, k));
      var prefix := name + " ";
      assert Candidate(name, k) == prefix + Decimal(k + 1);
      if j != 0 {
        NumeralsDiffer(fold, prefix, j + 1, k + 1);
      }
    }
  }

  ghost function FoldedCandidates(fold: Fold, name: string, k: nat): set<string> {
    if k == 0 then {} else FoldedCandidates(fold, name, k - 1) + {FoldAll(fold, Candidate(name, k - 1))}
  }

  lemma {:induction false} FoldedCandidatesCount(fold: Fold, name: string, k: nat)
    ensures |FoldedCandidates(fold, name, k)| == k
    ensures forall s :: s in FoldedCandidates(fold, name, k) <==>
      exists j :: 0 <= j < k && s == FoldAll(fold, Candidate(name, j))
  {
    if k > 0 {
      FoldedCandidatesCount(fold, name, k - 1);
      forall j | 0 <= j < k - 1 ensures FoldAll(fold, Candidate(name, j)) != FoldAll(fold, Candidate(name, k - 1)) {
        CandidatesDiffer(fold, name, j, k - 1);
      }
    }
  }

  ghost function FoldedNames(fold: Fold, names: seq<string>): (r: set<string>)
    ensures |r| <= |names|
    ensures forall i :: 0 <= i < |names| ==> FoldAll(fold, names[i]) in r
  {
    if names == [] then {} else
      var n := |names| - 1;
      var rest := FoldedNames(fold, names[..n]);
      assert forall i :: 0 <= i < n ==> names[..n][i] == names[i];
      rest + {FoldAll(fold, names[n])}
  }

  lemma SubsetCardinality<T>(a: set<T>, b: set<T>)
    requires a <= b
    ensures |a| <= |b|
  {
    if a != {} {
      var x :| x in a;
      SubsetCardinality(a - {x}, b - {x});
    }
  }

  /** The pigeonhole behind termination: k taken attempts need k different names. */
  lemma TakenCandidatesBound(fold: Fold, name: string, names: seq<string>, k: nat)
    requires AllTaken(fold, name, names, k)
    ensures k <= |names|
  {
    FoldedCandidatesCount(fold, name, k);
    forall s | s in FoldedCandidates(fold, name, k) ensures s in FoldedNames(fold, names) {
      var j :| 0 <= j < k && s == FoldAll(fold, Candidate(name, j));
      assert Taken(fold, Candidate(name, j), names);
    }
    SubsetCardinality(FoldedCandidates(fold, name, k), FoldedNames(fold, names));
  }

  /** The first attempt from k on that no name equals; at most |names| attempts fail. */
  function FirstFree(fold: Fold, name: string, names: seq<string>, k: nat): (r: nat)
    requires AllTaken(fold, name, names, k)
    ensures k <= r <= |names|
    ensures !Taken(fold, Candidate(name, r), names)
    ensures AllTaken(fold, name, names, r)
    decreases |names| + 1 - k
  {
    TakenCandidatesBound(fold, name, names, k);
    if Taken(fold, Candidate(name, k), names) then
      TakenCandidatesBound(fold, name, names, k + 1);
      FirstFree(fold, name, names, k + 1)
    else k
  }

  function DedupeName(fold: Fold, name: string, names: seq<string>): (r: string)
    ensures !Taken(fold, r, names)
    ensures r == name || exists k :: 1 <= k <= |names| && r == Candidate(name, k)
  {
    Candidate(name, FirstFree(fold, name, names, 0))
  }

  method NameTaken(fold: Fold, name: string, names: seq<string>) returns (taken: bool)
    ensures taken == Taken(fold, name, names)
  {
    for i := 0 to |names|
      invariant forall j :: 0 <= j < i ==> !EqualFold(fold, names[j], name)
    {
      if EqualFold(fold, names[i], name) {
        return true;
      }
    }
    return false;
  }

  lemma {:induction false} FirstFreeIs(fold: Fold, name: string, names: seq<string>, k: nat, r: nat)
    requires k <= r
    requires AllTaken(fold, name, names, r)
    requires !Taken(fold, Candidate(name, r), names)
    ensures FirstFree(fold, name, names, k) == r
    decreases r - k
  {
    if k < r {
      FirstFreeIs(fold, name, names, k + 1, r);
    }
  }

  /** The loop of `dedupeName`: it stops after at most |names| + 1 attempts. */
  method Dedupe(fold: Fold, name: string, names: seq<string>) returns (final: string)
    ensures final == DedupeName(fold, name, names)
  {
    final := name;
    var n := 2;
    var taken := NameTaken(fold, final, names);
    while taken
      invariant 2 <= n <= |names| + 2
      invariant final == Candidate(name, n - 2)
      invariant taken == Taken(fold, final, names)
      invariant AllTaken(fold, name, names, n - 2)
      decreases |names| + 2 - n
    {
      TakenCandidatesBound(fold, name, names, n - 1);
      final := name + " " + Decimal(n);
      n := n + 1;
      taken := NameTaken(fold, final, names);
    }
    FirstFreeIs(fold, name, names, 0, n - 2);
  }

  lemma {:induction false} TrimLeftIsSuffix(space: char -> bool, s: string)
    ensures |TrimLeft(space, s)| <= |s| && s[|s| - |TrimLeft(space, s)|..] == TrimLeft(space, s)
    ensures forall k :: 0 <= k < |s| - |TrimLeft(space, s)| ==> space(s[k])
    ensures TrimLeft(space, s) != "" ==> !space(TrimLeft(space, s)[0])
  {
    if s != [] && space(s[0]) {
      var rest := s[1..];
      var t := TrimLeft(space, rest);
      TrimLeftIsSuffix(space, rest);
      assert s[|s| - |t|..] == rest[|rest| - |t|..];
      forall k | 0 <= k < |s| - |t| ensures space(s[k]) {
        assert k > 0 ==> s[k] == rest[k - 1];
      }
    }
  }

  lemma {:induction false} TrimRightIsPrefix(space: char -> bool, s: string)
    ensures |TrimRight(space, s)| <= |s| && s[..|TrimRight(space, s)|] == TrimRight(space, s)
    ensures forall k :: |TrimRight(space, s)| <= k < |s| ==> space(s[k])
    ensures TrimRight(space, s) != "" ==> !space(TrimRight(space, s)[|TrimRight(space, s)| - 1])
  {
    if s != [] && space(s[|s| - 1]) {
      TrimRightIsPrefix(space, s[..|s| - 1]);
    }
  }

  /** What trimming takes away at either end is white space, and what is left has none there. */
  lemma TrimTakesTheEnds(space: char -> bool, s: string) returns (from: nat)
    ensures var t := Trim(space, s);
      && from + |t| <= |s| && t == s[from..from + |t|]
      && (forall k :: 0 <= k < from ==> space(s[k])) && (forall k :: from + |t| <= k < |s| ==> space(s[k]))
      && (t != "" ==> !space(t[0]) && !space(t[|t| - 1]))
  {
    var l := TrimLeft(space, s);
    TrimLeftIsSuffix(space, s);
    TrimRightIsPrefix(space, l);
    from := |s| - |l|;
    forall k | from + |Trim(space, s)| <= k < |s| ensures space(s[k]) {
      assert s[k] == l[k - from];
    }
  }

  lemma TrimmedStays(space: char -> bool, s: string)
    requires s != "" ==> !space(s[0]) && !space(s[|s| - 1])
    ensures Trim(space, s) == s
  {
    hide TrimLeft, TrimRight;
    var from := TrimTakesTheEnds(space, s);
    if s != "" {
      assert !space(s[0]) && !space(s[|s| - 1]);
      if from > 0 {
        assert false;
      } else if |Trim(space, s)| < |s| {
        assert false;
      }
    }
  }

  /** A clean name has at most 18 characters and no white space at its ends, and a name that
      is so already stays as it is. */
  lemma CleanNamesAreClean(name: string)
    ensures var r := CleanName(name);
      |r| <= 18 && (r != "" ==> !GoSpace(r[0]) && !GoSpace(r[|r| - 1]))
    ensures 0 < |name| <= 18 && !GoSpace(name[0]) && !GoSpace(name[|name| - 1]) ==> CleanName(name) == name
    ensures JoinName(name) == if CleanName(name) == "" then "Player" else CleanName(name)
  {
    hide TrimLeft, TrimRight;
    var n := Trim(GoSpace, name);
    var cut := if |n| > 18 then n[..18] else n;
    var start := TrimTakesTheEnds(GoSpace, cut);
    if 0 < |name| <= 18 && !GoSpace(name[0]) && !GoSpace(name[|name| - 1]) {
      TrimmedStays(GoSpace, name);
    }
    TrimmedStays(GoSpace, "Player");
    TrimmedStays(GoSpace, "");
  }
}
