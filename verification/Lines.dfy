/** The "Question | Answer" line parser that exists on both sides, with the white space
    test as a parameter, and the dispatch to it. */
module Lines {
  import opened Types
  import opened Text

  type Space = c: char -> bool | c('\n') && c(' ') && !c('|') witness (c: char) => c == '\n' || c == ' '

  function Split(text: string): (r: seq<string>)
    ensures |r| >= 1
  {
    if text == [] then [[]]
    else
      var r := Split(text[1..]);
      if text[0] == '\n' then [[]] + r else [[text[0]] + r[0]] + r[1..]
  }

  /** Where the first bar is, or -1. */
  function BarAt(line: string): (i: int)
    ensures -1 <= i < |line|
    ensures i >= 0 ==> line[i] == '|'
    ensures forall k :: 0 <= k < (if i >= 0 then i else |line|) ==> line[k] != '|'
  {
    if line == [] then -1
    else if line[0] == '|' then 0
    else
      var i := BarAt(line[1..]);
      if i == -1 then -1 else i + 1
  }

  /** The question a line stands for, if any. */
  function ParseLine(space: Space, line: string): seq<Question> {
    var l := Trim(space, line);
    if l == "" then []
    else
      var i := BarAt(l);
      if i == -1 then []
      else
        var q, a := Trim(space, l[..i]), Trim(space, l[i + 1..]);
        if q != "" && a != "" then [Question(q, a)] else []
  }

  function Collect(space: Space, lines: seq<string>): seq<Question> {
    if lines == [] then [] else ParseLine(space, lines[0]) + Collect(space, lines[1..])
  }

  function ParseLines(space: Space, text: string): seq<Question> {
    Collect(space, Split(text))
  }

  lemma {:induction false} CollectAppend(space: Space, a: seq<string>, b: seq<string>)
    ensures Collect(space, a + b) == Collect(space, a) + Collect(space, b)
  {
    hide ParseLine;
    if a == [] {
      assert a + b == b;
    } else {
      CollectAppend(space, a[1..], b);
      assert (a + b)[0] == a[0] && (a + b)[1..] == a[1..] + b;
      var first := ParseLine(space, a[0]);
      assert first + (Collect(space, a[1..]) + Collect(space, b)) == first + Collect(space, a[1..]) + Collect(space, b);
    }
  }

  lemma NothingCollected(space: Space)
    ensures Collect(space, []) == []
  {
  }

  lemma CollectNext(space: Space, lines: seq<string>, i: nat)
    requires i < |lines|
    ensures Collect(space, lines[..i + 1]) == Collect(space, lines[..i]) + ParseLine(space, lines[i])
  {
    hide ParseLine;
    assert lines[..i + 1] == lines[..i] + [lines[i]];
    CollectAppend(space, lines[..i], [lines[i]]);
  }

  method ParseLinesLoop(space: Space, text: string) returns (out: seq<Question>)
    ensures out == ParseLines(space, text)
  {
    hide Trim, Collect, BarAt, Split;
    var lines := Split(text);
    out := [];
    NothingCollected(space);
    for i := 0 to |lines|
      invariant out == Collect(space, lines[..i])
    {
      CollectNext(space, lines, i);
      var line := Trim(space, lines[i]);
      if line != "" {
        var idx := BarAt(line);
        if idx != -1 {
          var q, a := Trim(space, line[..idx]), Trim(space, line[idx + 1..]);
          if q != "" && a != "" {
            out := out + [Question(q, a)];
          }
        }
      }
    }
    assert lines[..|lines|] == lines;
  }

  // --- the two dispatches; JSON decoding is a parameter ---

  /** What JSON decoding makes of a text: None if it is no array or holds no question. */
  type Decoder = string -> Option<seq<Question>>

  predicate LooksLikeJson(space: Space, text: string) {
    var t := Trim(space, text);
    t != "" && t[0] == '['
  }

  /** `ParseText` on the server: the line parser gets the text as it came. */
  function ParseText(space: Space, json: Decoder, text: string): seq<Question> {
    if LooksLikeJson(space, text) && json(Trim(space, text)).Some? then json(Trim(space, text)).value
    else ParseLines(space, text)
  }

  /** `parseCustomQuestions` on the client: the whole text is trimmed first. */
  function ParseCustomQuestions(space: Space, json: Decoder, text: string): seq<Question> {
    var t := Trim(space, text);
    if t == "" then []
    else if t[0] == '[' && json(t).Some? then json(t).value
    else ParseLines(space, t)
  }

  /** Both sides try JSON exactly on a text that begins with a bracket, white space aside, and
      fall back to the lines if it yields nothing. */
  lemma BracketsMeanJson(space: Space, json: Decoder, text: string)
    requires Trim(space, text) != ""
    ensures Trim(space, text)[0] == '[' && json(Trim(space, text)).Some? ==>
      ParseText(space, json, text) == ParseCustomQuestions(space, json, text) == json(Trim(space, text)).value
    ensures Trim(space, text)[0] != '[' || json(Trim(space, text)).None? ==>
      ParseText(space, json, text) == ParseLines(space, text)
      && ParseCustomQuestions(space, json, text) == ParseLines(space, Trim(space, text))
  {
  }

  // --- trimming ---

  lemma TrimDropsFront(space: Space, c: char, s: string)
    requires space(c)
    ensures Trim(space, [c] + s) == Trim(space, s)
  {
    assert ([c] + s)[1..] == s;
  }

  lemma {:induction false} TrimLeftAppend(space: Space, s: string, c: char)
    ensures TrimLeft(space, s + [c]) == if TrimLeft(space, s) == "" && space(c) then "" else TrimLeft(space, s) + [c]
  {
    if s == [] {
      assert s + [c] == [c] && [c][1..] == "";
    } else {
      assert (s + [c])[1..] == s[1..] + [c];
      TrimLeftAppend(space, s[1..], c);
    }
  }

  lemma TrimDropsBack(space: Space, s: string, c: char)
    requires space(c)
    ensures Trim(space, s + [c]) == Trim(space, s)
  {
    TrimLeftAppend(space, s, c);
    var l := TrimLeft(space, s);
    if l != "" {
      assert (l + [c])[..|l + [c]| - 1] == l;
    }
  }

  lemma {:induction false} TrimLeftTwice(space: Space, s: string)
    ensures TrimLeft(space, TrimLeft(space, s)) == TrimLeft(space, s)
  {
    if s != [] && space(s[0]) {
      TrimLeftTwice(space, s[1..]);
    }
  }

  lemma TrimOfTrimLeft(space: Space, s: string)
    ensures Trim(space, TrimLeft(space, s)) == Trim(space, s)
  {
    TrimLeftTwice(space, s);
  }

  lemma {:induction false} TrimOfTrimRight(space: Space, s: string)
    ensures Trim(space, TrimRight(space, s)) == Trim(space, s)
  {
    if s != [] && space(s[|s| - 1]) {
      var n := |s| - 1;
      TrimOfTrimRight(space, s[..n]);
      TrimDropsBack(space, s[..n], s[n]);
      assert s == s[..n] + [s[n]];
    }
  }

  lemma TrimTwice(space: Space, s: string)
    ensures Trim(space, Trim(space, s)) == Trim(space, s)
  {
    TrimOfTrimRight(space, TrimLeft(space, s));
    TrimOfTrimLeft(space, s);
  }

  /** Trimming does not reach past a character that is not white space. */
  lemma {:induction false} TrimLeftStops(space: Space, x: string, y: string)
    requires y != [] && !space(y[0])
    ensures TrimLeft(space, x + y) == TrimLeft(space, x) + y
  {
    if x == [] {
      assert x + y == y;
    } else {
      assert (x + y)[1..] == x[1..] + y;
      TrimLeftStops(space, x[1..], y);
    }
  }

  lemma {:induction false} TrimRightStops(space: Space, x: string, y: string)
    requires x != [] && !space(x[|x| - 1])
    ensures TrimRight(space, x + y) == x + TrimRight(space, y)
  {
    if y == [] {
      assert x + y == x && x + [] == x;
    } else {
      assert (x + y)[..|x + y| - 1] == x + y[..|y| - 1];
      if space(y[|y| - 1]) {
        TrimRightStops(space, x, y[..|y| - 1]);
      }
    }
  }

  lemma TrimAroundBar(space: Space, x: string, y: string)
    ensures Trim(space, x + "|" + y) == TrimLeft(space, x) + "|" + TrimRight(space, y)
  {
    assert x + "|" + y == x + ("|" + y);
    TrimLeftStops(space, x, "|" + y);
    var l := TrimLeft(space, x) + "|";
    assert TrimLeft(space, x) + ("|" + y) == l + y;
    TrimRightStops(space, l, y);
  }

  lemma {:induction false} TrimKeepsChars(space: Space, s: string, c: char)
    requires c !in s
    ensures c !in TrimLeft(space, s) && c !in TrimRight(space, s)
  {
    if s != [] {
      TrimKeepsChars(space, s[1..], c);
      TrimKeepsChars(space, s[..|s| - 1], c);
    }
  }

  // --- the client's trimming of the whole text changes nothing ---

  lemma ParseLineDropsFront(space: Space, c: char, line: string)
    requires space(c)
    ensures ParseLine(space, [c] + line) == ParseLine(space, line)
  {
    TrimDropsFront(space, c, line);
  }

  lemma ParseLinesDropsFront(space: Space, c: char, text: string)
    requires space(c)
    ensures ParseLines(space, [c] + text) == ParseLines(space, text)
  {
    var r := Split(text);
    assert ([c] + text)[1..] == text;
    if c == '\n' {
      assert Split([c] + text) == [[]] + r && ([[]] + r)[1..] == r;
    } else {
      ParseLineDropsFront(space, c, r[0]);
      assert ([[c] + r[0]] + r[1..])[1..] == r[1..];
    }
  }

  lemma {:induction false} SplitAppendBreak(text: string)
    ensures Split(text + ['\n']) == Split(text) + [[]]
  {
    if text == [] {
      assert text + ['\n'] == ['\n'] && ['\n'][1..] == [];
    } else {
      assert (text + ['\n'])[1..] == text[1..] + ['\n'];
      SplitAppendBreak(text[1..]);
    }
  }

  /** A character at the end of the text goes to the end of its last line. */
  function AtEnd(lines: seq<string>, c: char): (r: seq<string>)
    requires lines != []
  {
    lines[..|lines| - 1] + [lines[|lines| - 1] + [c]]
  }

  lemma AtEndOfFirst(c: char, r: seq<string>, d: char)
    requires r != []
    ensures AtEnd([[c] + r[0]] + r[1..], d) == [[c] + AtEnd(r, d)[0]] + AtEnd(r, d)[1..]
  {
    if |r| == 1 {
      assert [c] + (r[0] + [d]) == [c] + r[0] + [d];
    }
  }

  lemma {:induction false} SplitAppendChar(text: string, c: char)
    requires c != '\n'
    ensures Split(text + [c]) == AtEnd(Split(text), c)
  {
    if text == [] {
      assert text + [c] == [c] && [c][1..] == [] && [c] + [] == [] + [c];
    } else {
      assert (text + [c])[1..] == text[1..] + [c];
      SplitAppendChar(text[1..], c);
      AtEndOfFirst(text[0], Split(text[1..]), c);
    }
  }

  lemma ParseLinesDropsBack(space: Space, text: string, c: char)
    requires space(c)
    ensures ParseLines(space, text + [c]) == ParseLines(space, text)
  {
    var r := Split(text);
    var n := |r| - 1;
    assert r == r[..n] + [r[n]];
    CollectAppend(space, r[..n], [r[n]]);
    if c == '\n' {
      SplitAppendBreak(text);
      CollectAppend(space, r, [[]]);
      assert Collect(space, [[]]) == [];
    } else {
      SplitAppendChar(text, c);
      CollectAppend(space, r[..n], [r[n] + [c]]);
      TrimDropsBack(space, r[n], c);
    }
  }

  lemma {:induction false} ParseLinesOfTrimLeft(space: Space, text: string)
    ensures ParseLines(space, TrimLeft(space, text)) == ParseLines(space, text)
  {
    hide ParseLines;
    if text != [] && space(text[0]) {
      ParseLinesOfTrimLeft(space, text[1..]);
      ParseLinesDropsFront(space, text[0], text[1..]);
      assert text == [text[0]] + text[1..];
    }
  }

  lemma {:induction false} ParseLinesOfTrimRight(space: Space, text: string)
    ensures ParseLines(space, TrimRight(space, text)) == ParseLines(space, text)
  {
    hide ParseLines;
    if text != [] && space(text[|text| - 1]) {
      var n := |text| - 1;
      ParseLinesOfTrimRight(space, text[..n]);
      ParseLinesDropsBack(space, text[..n], text[n]);
      assert text == text[..n] + [text[n]];
    }
  }

  /** With one white-space test, the server and the client read the same questions from
      every text that does not look like JSON, whatever their decoders do. */
  lemma ServerAndClientAgree(space: Space, goJson: Decoder, jsJson: Decoder, text: string)
    requires !LooksLikeJson(space, text)
    ensures ParseText(space, goJson, text) == ParseCustomQuestions(space, jsJson, text)
  {
    ParseLinesOfTrimRight(space, TrimLeft(space, text));
    ParseLinesOfTrimLeft(space, text);
    assert ParseLines(space, "") == [];
  }

  // --- printing ---

  function PrintLine(p: Question): string {
    p.q + " | " + p.a
  }

  function PrintLines(ps: seq<Question>): string {
    if ps == [] then ""
    else if |ps| == 1 then PrintLine(ps[0])
    else PrintLine(ps[0]) + "\n" + PrintLines(ps[1..])
  }

  /** No line break in either part and no bar in the question. */
  predicate OneLine(p: Question) {
    '\n' !in p.q && '\n' !in p.a && '|' !in p.q
  }

  /** What a pair reads back as: both parts trimmed, and nothing if one is blank. */
  function Kept(space: Space, p: Question): seq<Question> {
    var q, a := Trim(space, p.q), Trim(space, p.a);
    if q != "" && a != "" then [Question(q, a)] else []
  }

  function AllKept(space: Space, ps: seq<Question>): seq<Question> {
    if ps == [] then [] else Kept(space, ps[0]) + AllKept(space, ps[1..])
  }

  lemma BarIsUnique(x: string, y: string)
    requires '|' !in x
    ensures BarAt(x + "|" + y) == |x|
  {
    var s := x + "|" + y;
    assert s[|x|] == '|';
    var i := BarAt(s);
    assert forall k :: 0 <= k < |x| ==> s[k] == x[k];
  }

  /** A line with a bar reads as its two parts. */
  lemma LineOfParts(space: Space, x: string, y: string)
    requires '|' !in x
    ensures ParseLine(space, x + "|" + y) == Kept(space, Question(x, y))
  {
    hide TrimLeft, TrimRight;
    TrimAroundBar(space, x, y);
    var l, r := TrimLeft(space, x), TrimRight(space, y);
    TrimKeepsChars(space, x, '|');
    BarIsUnique(l, r);
    var t := l + "|" + r;
    assert t[..|l|] == l && t[|l| + 1..] == r;
    TrimOfTrimLeft(space, x);
    TrimOfTrimRight(space, y);
  }

  lemma PrintedLineReadsBack(space: Space, p: Question)
    requires OneLine(p)
    ensures ParseLine(space, PrintLine(p)) == Kept(space, p)
  {
    hide TrimLeft, TrimRight;
    var x, y := p.q + " ", " " + p.a;
    assert PrintLine(p) == x + "|" + y;
    LineOfParts(space, x, y);
    TrimDropsBack(space, p.q, ' ');
    TrimDropsFront(space, ' ', p.a);
  }

  lemma {:induction false} SplitOneLine(line: string)
    requires '\n' !in line
    ensures Split(line) == [line]
  {
    if line != [] {
      SplitOneLine(line[1..]);
      assert [line[0]] + line[1..] == line;
    }
  }

  lemma {:induction false} SplitLine(line: string, rest: string)
    requires '\n' !in line
    ensures Split(line + "\n" + rest) == [line] + Split(rest)
  {
    var s := line + "\n" + rest;
    if line == [] {
      assert s == "\n" + rest && s[1..] == rest;
    } else {
      SplitLine(line[1..], rest);
      assert s[1..] == line[1..] + "\n" + rest;
      assert [line[0]] + line[1..] == line;
    }
  }

  /** Parsing inverts printing, up to trimming and blank pairs. */
  lemma {:induction false} ParsingInvertsPrinting(space: Space, ps: seq<Question>)
    requires forall i :: 0 <= i < |ps| ==> OneLine(ps[i])
    ensures ParseLines(space, PrintLines(ps)) == AllKept(space, ps)
  {
    if ps == [] {
      assert Split("") == [[]];
    } else {
      var line := PrintLine(ps[0]);
      assert '\n' !in line;
      PrintedLineReadsBack(space, ps[0]);
      if |ps| == 1 {
        SplitOneLine(line);
        assert Collect(space, [line]) == ParseLine(space, line);
      } else {
        SplitLine(line, PrintLines(ps[1..]));
        ParsingInvertsPrinting(space, ps[1..]);
        var r := Split(PrintLines(ps[1..]));
        assert ([line] + r)[1..] == r;
      }
    }
  }

  // --- the normal form ---

  /** A parsed question: trimmed, not blank, on one line. */
  predicate Clean(space: Space, p: Question) {
    OneLine(p) && p.q != "" && p.a != "" && Trim(space, p.q) == p.q && Trim(space, p.a) == p.a
  }

  lemma ParsedLineIsClean(space: Space, line: string)
    requires '\n' !in line
    ensures forall p :: p in ParseLine(space, line) ==> Clean(space, p)
  {
    hide TrimLeft, TrimRight;
    var l := Trim(space, line);
    TrimKeepsChars(space, line, '\n');
    TrimKeepsChars(space, TrimLeft(space, line), '\n');
    var i := BarAt(l);
    if l != "" && i != -1 {
      var x, y := l[..i], l[i + 1..];
      TrimKeepsChars(space, x, '\n');
      TrimKeepsChars(space, TrimLeft(space, x), '\n');
      TrimKeepsChars(space, x, '|');
      TrimKeepsChars(space, TrimLeft(space, x), '|');
      TrimKeepsChars(space, y, '\n');
      TrimKeepsChars(space, TrimLeft(space, y), '\n');
      TrimTwice(space, x);
      TrimTwice(space, y);
    }
  }

  lemma {:induction false} LinesHaveNoBreaks(text: string)
    ensures forall i :: 0 <= i < |Split(text)| ==> '\n' !in Split(text)[i]
  {
    if text != [] {
      LinesHaveNoBreaks(text[1..]);
    }
  }

  lemma {:induction false} CollectedAreClean(space: Space, lines: seq<string>)
    requires forall i :: 0 <= i < |lines| ==> '\n' !in lines[i]
    ensures forall k :: 0 <= k < |Collect(space, lines)| ==> Clean(space, Collect(space, lines)[k])
  {
    if lines != [] {
      ParsedLineIsClean(space, lines[0]);
      CollectedAreClean(space, lines[1..]);
      var first := ParseLine(space, lines[0]);
      assert forall k :: 0 <= k < |first| ==> first[k] in first;
    }
  }

  lemma {:induction false} CleanAreKept(space: Space, ps: seq<Question>)
    requires forall i :: 0 <= i < |ps| ==> Clean(space, ps[i])
    ensures AllKept(space, ps) == ps
  {
    if ps != [] {
      CleanAreKept(space, ps[1..]);
    }
  }

  /** Printing what was parsed and parsing again changes nothing. */
  lemma ParsingIsNormalizing(space: Space, text: string)
    ensures ParseLines(space, PrintLines(ParseLines(space, text))) == ParseLines(space, text)
  {
    LinesHaveNoBreaks(text);
    CollectedAreClean(space, Split(text));
    ParsingInvertsPrinting(space, ParseLines(space, text));
    CleanAreKept(space, ParseLines(space, text));
  }

  // --- the real white-space tests ---

  /** Go and JavaScript differ on exactly two characters. */
  lemma SpacesDifferOnTwo(c: char)
    ensures GoSpace(c) == JsSpace(c) <==> c != '\U{85}' && c != '\U{FEFF}'
  {
  }

  lemma {:induction false} TrimAgrees(a: Space, b: Space, s: string)
    requires forall c :: c in s ==> a(c) == b(c)
    ensures TrimLeft(a, s) == TrimLeft(b, s) && TrimRight(a, s) == TrimRight(b, s)
    decreases |s|
  {
    if s != [] {
      TrimAgrees(a, b, s[1..]);
      TrimAgrees(a, b, s[..|s| - 1]);
    }
  }

  lemma {:induction false} TrimLeftSubset(a: Space, s: string)
    ensures forall c :: c in TrimLeft(a, s) ==> c in s
    ensures forall c :: c in TrimRight(a, s) ==> c in s
    decreases |s|
  {
    if s != [] {
      TrimLeftSubset(a, s[1..]);
      TrimLeftSubset(a, s[..|s| - 1]);
    }
  }

  lemma FullTrimAgrees(a: Space, b: Space, s: string)
    requires forall c :: c in s ==> a(c) == b(c)
    ensures Trim(a, s) == Trim(b, s) && forall c :: c in Trim(a, s) ==> c in s
  {
    TrimAgrees(a, b, s);
    TrimLeftSubset(a, s);
    TrimLeftSubset(a, TrimLeft(a, s));
    TrimAgrees(a, b, TrimLeft(a, s));
  }

  lemma ParseLineAgrees(a: Space, b: Space, line: string)
    requires forall c :: c in line ==> a(c) == b(c)
    ensures ParseLine(a, line) == ParseLine(b, line)
  {
    FullTrimAgrees(a, b, line);
    var l := Trim(a, line);
    var i := BarAt(l);
    if l != "" && i != -1 {
      FullTrimAgrees(a, b, l[..i]);
      FullTrimAgrees(a, b, l[i + 1..]);
    }
  }

  lemma {:induction false} SplitSubset(text: string)
    ensures forall i, c :: 0 <= i < |Split(text)| && c in Split(text)[i] ==> c in text
  {
    if text != [] {
      SplitSubset(text[1..]);
      var r := Split(text[1..]);
      forall i, c | 0 <= i < |Split(text)| && c in Split(text)[i] ensures c in text {
        if text[0] == '\n' {
          assert i > 0 && Split(text)[i] == r[i - 1];
          assert c in text[1..];
        } else if i > 0 {
          assert Split(text)[i] == r[i];
          assert c in text[1..];
        } else {
          assert Split(text)[0] == [text[0]] + r[0];
          assert c == text[0] || c in text[1..];
        }
      }
    }
  }

  lemma {:induction false} CollectAgrees(a: Space, b: Space, lines: seq<string>)
    requires forall i, c :: 0 <= i < |lines| && c in lines[i] ==> a(c) == b(c)
    ensures Collect(a, lines) == Collect(b, lines)
  {
    if lines != [] {
      ParseLineAgrees(a, b, lines[0]);
      CollectAgrees(a, b, lines[1..]);
    }
  }

  /** Both sides read the same questions from this text. */
  predicate SameReading(goJson: Decoder, jsJson: Decoder, text: string) {
    ParseText(GoSpace, goJson, text) == ParseCustomQuestions(JsSpace, jsJson, text)
  }

  /** With each side's own white-space test, they read the same questions from every text
      without a next-line character and without a byte-order mark. */
  lemma GoAndJsAgree(goJson: Decoder, jsJson: Decoder, text: string)
    requires '\U{85}' !in text && '\U{FEFF}' !in text && !LooksLikeJson(GoSpace, text)
    ensures SameReading(goJson, jsJson, text)
  {
    FullTrimAgrees(GoSpace, JsSpace, text);
    SplitSubset(text);
    CollectAgrees(GoSpace, JsSpace, Split(text));
    ServerAndClientAgree(JsSpace, goJson, jsJson, text);
  }

  lemma TrimWithBar(space: Space, c: char)
    requires c != '|' && !space('a')
    ensures Trim(space, [c] + "|a") == if space(c) then "|a" else [c] + "|a"
    ensures Trim(space, "a") == "a" && (!space(c) ==> Trim(space, [c]) == [c])
  {
    var t := [c] + "|a";
    assert t[1..] == "|a" && t[2] == 'a';
    assert TrimLeft(space, "|a") == "|a";
    assert TrimLeft(space, t) == if space(c) then "|a" else t;
    assert TrimRight(space, "|a") == "|a" && TrimRight(space, t) == t;
  }

  /** The line with this character for a question and "a" for an answer. */
  lemma OneCharQuestion(space: Space, c: char)
    requires c != '|' && c != '\n' && !space('a')
    ensures ParseLines(space, [c] + "|a") == if space(c) then [] else [Question([c], "a")]
  {
    var t := [c] + "|a";
    TrimWithBar(space, c);
    SplitOneLine(t);
    BarIsUnique([c], "a");
    BarIsUnique("", "a");
    assert [c] + "|" + "a" == t && "" + "|" + "a" == "|a";
    assert t[..1] == [c] && t[2..] == "a" && "|a"[..0] == "" && "|a"[1..] == "a";
    assert ParseLine(space, t) == if space(c) then [] else [Question([c], "a")];
    assert Collect(space, [t]) == ParseLine(space, t) + Collect(space, [t][1..]);
  }

  /** Either of the two characters is enough to make the sides differ: a byte-order mark is
      white space only to the client, a next-line character only to the server. */
  lemma EitherSeparates(goJson: Decoder, jsJson: Decoder, c: char)
    requires c == '\U{85}' || c == '\U{FEFF}'
    ensures !LooksLikeJson(GoSpace, [c] + "|a") && !SameReading(goJson, jsJson, [c] + "|a")
  {
    hide TrimLeft, TrimRight, ParseLines;
    TrimWithBar(GoSpace, c);
    TrimWithBar(JsSpace, c);
    OneCharQuestion(GoSpace, c);
    OneCharQuestion(JsSpace, c);
    ServerAndClientAgree(JsSpace, goJson, jsJson, [c] + "|a");
  }

  /** Nothing weaker will do: an alphabet with a bar and a letter is safe for both sides
      exactly when it has neither of the two characters. */
  lemma AgreementNeedsBoth(goJson: Decoder, jsJson: Decoder, alphabet: set<char>)
    requires '|' in alphabet && 'a' in alphabet
    ensures (forall text: string | (forall c :: c in text ==> c in alphabet) && !LooksLikeJson(GoSpace, text) ::
               SameReading(goJson, jsJson, text))
      <==> '\U{85}' !in alphabet && '\U{FEFF}' !in alphabet
  {
    hide LooksLikeJson, SameReading;
    if '\U{85}' !in alphabet && '\U{FEFF}' !in alphabet {
      forall text: string | (forall c :: c in text ==> c in alphabet) && !LooksLikeJson(GoSpace, text)
        ensures SameReading(goJson, jsJson, text)
      {
        GoAndJsAgree(goJson, jsJson, text);
      }
    } else {
      var c := if '\U{85}' in alphabet then '\U{85}' else '\U{FEFF}';
      EitherSeparates(goJson, jsJson, c);
      assert forall d :: d in [c] + "|a" ==> d in alphabet;
    }
  }

  // --- exactly when the two sides agree ---

  /** White space by either test. */
  function Either(a: Space, b: Space): Space {
    c => a(c) || b(c)
  }

  lemma {:induction false} TrimLeftAbsorbed(a: Space, w: Space, s: string)
    requires forall c :: a(c) ==> w(c)
    ensures Trim(w, TrimLeft(a, s)) == Trim(w, s)
  {
    if s != [] && a(s[0]) {
      TrimLeftAbsorbed(a, w, s[1..]);
      TrimDropsFront(w, s[0], s[1..]);
      assert s == [s[0]] + s[1..];
    }
  }

  lemma {:induction false} TrimRightAbsorbed(a: Space, w: Space, s: string)
    requires forall c :: a(c) ==> w(c)
    ensures Trim(w, TrimRight(a, s)) == Trim(w, s)
  {
    if s != [] && a(s[|s| - 1]) {
      var n := |s| - 1;
      TrimRightAbsorbed(a, w, s[..n]);
      TrimDropsBack(w, s[..n], s[n]);
      assert s == s[..n] + [s[n]];
    }
  }

  lemma {:induction false} TrimShortens(space: Space, s: string)
    ensures |TrimLeft(space, s)| <= |s| && |TrimRight(space, s)| <= |s|
    decreases |s|
  {
    if s != [] {
      TrimShortens(space, s[1..]);
      TrimShortens(space, s[..|s| - 1]);
    }
  }

  lemma TrimmedEnds(space: Space, s: string)
    requires s != "" && Trim(space, s) == s
    ensures !space(s[0]) && !space(s[|s| - 1])
  {
    TrimShortens(space, s);
    TrimShortens(space, s[1..]);
    TrimShortens(space, TrimLeft(space, s));
    TrimShortens(space, s[..|s| - 1]);
  }

  /** What one side trims and the other leaves alone is trimmed by either test. */
  lemma TrimmedByBoth(a: Space, b: Space, s: string)
    requires Trim(b, Trim(a, s)) == Trim(a, s)
    ensures Trim(Either(a, b), s) == Trim(a, s)
  {
    var w, q := Either(a, b), Trim(a, s);
    TrimRightAbsorbed(a, w, TrimLeft(a, s));
    TrimLeftAbsorbed(a, w, s);
    TrimTwice(a, s);
    if q != "" {
      TrimmedEnds(a, q);
      TrimmedEnds(b, q);
    }
  }

  lemma BlankByEither(a: Space, b: Space, s: string)
    requires Trim(b, s) == ""
    ensures Trim(Either(a, b), s) == ""
  {
    var w := Either(a, b);
    TrimRightAbsorbed(b, w, TrimLeft(b, s));
    TrimLeftAbsorbed(b, w, s);
  }

  lemma OtherSideKeeps(a: Space, b: Space, p: Question)
    requires Kept(a, p) != [] && Trim(b, Trim(a, p.q)) == Trim(a, p.q) && Trim(b, Trim(a, p.a)) == Trim(a, p.a)
    ensures Kept(b, p) != []
  {
    hide Trim;
    TrimmedByBoth(a, b, p.q);
    TrimmedByBoth(a, b, p.a);
    if Trim(b, p.q) == "" {
      BlankByEither(a, b, p.q);
    }
    if Trim(b, p.a) == "" {
      BlankByEither(a, b, p.a);
    }
  }

  lemma EitherTurned(a: Space, b: Space, s: string)
    ensures Trim(Either(a, b), s) == Trim(Either(b, a), s)
  {
    FullTrimAgrees(Either(a, b), Either(b, a), s);
  }

  lemma SameTrim(a: Space, b: Space, s: string)
    requires Trim(b, Trim(a, s)) == Trim(a, s) && Trim(a, Trim(b, s)) == Trim(b, s)
    ensures Trim(a, s) == Trim(b, s)
  {
    TrimmedByBoth(a, b, s);
    TrimmedByBoth(b, a, s);
    EitherTurned(a, b, s);
  }

  /** If neither side reads out of this line what the other would trim, they read the same. */
  lemma PartsReadAlike(a: Space, b: Space, p: Question)
    requires forall k :: k in Kept(a, p) ==> Trim(b, k.q) == k.q && Trim(b, k.a) == k.a
    requires forall k :: k in Kept(b, p) ==> Trim(a, k.q) == k.q && Trim(a, k.a) == k.a
    ensures Kept(a, p) == Kept(b, p)
  {
    hide Trim;
    if Kept(a, p) != [] {
      assert Kept(a, p)[0] in Kept(a, p);
      OtherSideKeeps(a, b, p);
      assert Kept(b, p)[0] in Kept(b, p);
      SameTrim(a, b, p.q);
      SameTrim(a, b, p.a);
    } else if Kept(b, p) != [] {
      assert Kept(b, p)[0] in Kept(b, p);
      OtherSideKeeps(b, a, p);
    }
  }

  lemma LineInParts(space: Space, line: string)
    ensures BarAt(line) == -1 ==> ParseLine(space, line) == []
    ensures var i := BarAt(line); i >= 0 ==> ParseLine(space, line) == Kept(space, Question(line[..i], line[i + 1..]))
  {
    var i := BarAt(line);
    if i >= 0 {
      assert line == line[..i] + "|" + line[i + 1..];
      LineOfParts(space, line[..i], line[i + 1..]);
    } else {
      TrimKeepsChars(space, line, '|');
      TrimKeepsChars(space, TrimLeft(space, line), '|');
    }
  }

  lemma LineReadsAlike(a: Space, b: Space, line: string)
    requires forall k :: k in ParseLine(a, line) ==> Clean(b, k)
    requires forall k :: k in ParseLine(b, line) ==> Clean(a, k)
    ensures ParseLine(a, line) == ParseLine(b, line)
  {
    hide ParseLine, Trim, Kept;
    LineInParts(a, line);
    LineInParts(b, line);
    var i := BarAt(line);
    if i >= 0 {
      PartsReadAlike(a, b, Question(line[..i], line[i + 1..]));
    }
  }

  lemma {:induction false} CollectHolds(space: Space, lines: seq<string>, i: nat)
    requires i < |lines|
    ensures forall k :: k in ParseLine(space, lines[i]) ==> k in Collect(space, lines)
  {
    hide ParseLine;
    if i > 0 {
      CollectHolds(space, lines[1..], i - 1);
    }
  }

  lemma {:induction false} CollectSame(a: Space, b: Space, lines: seq<string>)
    requires forall i :: 0 <= i < |lines| ==> ParseLine(a, lines[i]) == ParseLine(b, lines[i])
    ensures Collect(a, lines) == Collect(b, lines)
  {
    hide ParseLine;
    if lines != [] {
      CollectSame(a, b, lines[1..]);
    }
  }

  /** Equal readings can only come from lines that read equally: a question that one side
      would have trimmed further never comes out of that side, on no line. */
  lemma CollectExactly(a: Space, b: Space, lines: seq<string>)
    requires forall i :: 0 <= i < |lines| ==> '\n' !in lines[i]
    ensures Collect(a, lines) == Collect(b, lines) <==>
      forall i :: 0 <= i < |lines| ==> ParseLine(a, lines[i]) == ParseLine(b, lines[i])
  {
    hide ParseLine, Clean;
    if Collect(a, lines) == Collect(b, lines) {
      CollectedAreClean(a, lines);
      CollectedAreClean(b, lines);
      forall i | 0 <= i < |lines| ensures ParseLine(a, lines[i]) == ParseLine(b, lines[i]) {
        CollectHolds(a, lines, i);
        CollectHolds(b, lines, i);
        LineReadsAlike(a, b, lines[i]);
      }
    } else if forall i :: 0 <= i < |lines| ==> ParseLine(a, lines[i]) == ParseLine(b, lines[i]) {
      CollectSame(a, b, lines);
    }
  }

  /** Both sides make the same of a line: no bar, or a part that is blank to each, or the
      same two trimmed parts. */
  predicate TrimsAlike(a: Space, b: Space, line: string) {
    var i := BarAt(line);
    i == -1 ||
    var x, y := line[..i], line[i + 1..];
    if Trim(a, x) == "" || Trim(a, y) == "" then Trim(b, x) == "" || Trim(b, y) == ""
    else Trim(a, x) == Trim(b, x) && Trim(a, y) == Trim(b, y)
  }

  lemma TrimsAlikeExactly(a: Space, b: Space, line: string)
    ensures TrimsAlike(a, b, line) <==> ParseLine(a, line) == ParseLine(b, line)
  {
    hide ParseLine, Trim;
    LineInParts(a, line);
    LineInParts(b, line);
  }

  /** Text by text: the server and the client read the same questions exactly when they trim
      every line alike. */
  lemma SameReadingExactly(goJson: Decoder, jsJson: Decoder, text: string)
    requires !LooksLikeJson(GoSpace, text) && !LooksLikeJson(JsSpace, text)
    ensures SameReading(goJson, jsJson, text) <==>
      forall i :: 0 <= i < |Split(text)| ==> TrimsAlike(GoSpace, JsSpace, Split(text)[i])
  {
    hide LooksLikeJson, TrimsAlike, ParseLine, Collect, Trim, Split;
    ServerAndClientAgree(JsSpace, goJson, jsJson, text);
    LinesHaveNoBreaks(text);
    CollectExactly(GoSpace, JsSpace, Split(text));
    forall i | 0 <= i < |Split(text)|
      ensures TrimsAlike(GoSpace, JsSpace, Split(text)[i])
        <==> ParseLine(GoSpace, Split(text)[i]) == ParseLine(JsSpace, Split(text)[i])
    {
      TrimsAlikeExactly(GoSpace, JsSpace, Split(text)[i]);
    }
  }
}
