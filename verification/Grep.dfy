/** grep: the matcher against a declarative reading of patterns, and the line buffer
    against the input cut at its newlines. The end of a C string is the end of the
    sequence; the file itself may hold NUL characters. */
module Grep {
  const BUFSIZE := 1024

  // ----- what patterns mean -----

  datatype Re = Done | AtEnd | One(c: char, rest: Re) | Star(c: char, rest: Re)

  /** The pattern re from position i on. */
  function Parse(re: string, i: nat): Re
    decreases |re| - i
  {
    if i >= |re| then Done
    else if i + 1 < |re| && re[i + 1] == '*' then Star(re[i], Parse(re, i + 2))
    else if re[i] == '$' && i + 1 == |re| then AtEnd
    else One(re[i], Parse(re, i + 1))
  }

  predicate Covers(c: char, x: char) {
    c == '.' || c == x
  }

  ghost predicate AllCovered(c: char, text: string, j: nat, m: nat) {
    j <= m <= |text| && forall x :: j <= x < m ==> Covers(c, text[x])
  }

  /** r matches exactly text[j..k]. */
  ghost predicate Spans(r: Re, text: string, j: nat, k: nat) {
    match r
    case Done => j == k <= |text|
    case AtEnd => j == k == |text|
    case One(c, rest) => j < |text| && Covers(c, text[j]) && Spans(rest, text, j + 1, k)
    case Star(c, rest) => exists m: nat :: AllCovered(c, text, j, m) && Spans(rest, text, m, k)
  }

  ghost predicate MatchesAt(r: Re, text: string, j: nat) {
    exists k: nat :: Spans(r, text, j, k)
  }

  /** The pattern is found in text: at its beginning after a ^, anywhere otherwise. */
  ghost predicate Found(re: string, text: string) {
    if |re| > 0 && re[0] == '^' then MatchesAt(Parse(re, 1), text, 0)
    else exists j: nat :: j <= |text| && MatchesAt(Parse(re, 0), text, j)
  }

  lemma OneStep(c: char, rest: Re, text: string, j: nat)
    ensures MatchesAt(One(c, rest), text, j) <==> j < |text| && Covers(c, text[j]) && MatchesAt(rest, text, j + 1)
  {
    if MatchesAt(One(c, rest), text, j) {
      var k: nat :| Spans(One(c, rest), text, j, k);
      assert Spans(rest, text, j + 1, k);
    }
    if j < |text| && Covers(c, text[j]) && MatchesAt(rest, text, j + 1) {
      var k: nat :| Spans(rest, text, j + 1, k);
      assert Spans(One(c, rest), text, j, k);
    }
  }

  lemma StarEnd(c: char, rest: Re, text: string, j: nat, k: nat) returns (m: nat)
    requires Spans(Star(c, rest), text, j, k)
    ensures AllCovered(c, text, j, m) && Spans(rest, text, m, k)
  {
    m :| AllCovered(c, text, j, m) && Spans(rest, text, m, k);
  }

  /** A star matches nothing, or one covered character and then itself. */
  lemma StarStep(c: char, rest: Re, text: string, j: nat)
    requires j <= |text|
    ensures MatchesAt(Star(c, rest), text, j) <==>
              MatchesAt(rest, text, j) || (j < |text| && Covers(c, text[j]) && MatchesAt(Star(c, rest), text, j + 1))
  {
    if MatchesAt(Star(c, rest), text, j) {
      var k: nat :| Spans(Star(c, rest), text, j, k);
      var m := StarEnd(c, rest, text, j, k);
      if m > j {
        assert AllCovered(c, text, j + 1, m);
        assert Spans(Star(c, rest), text, j + 1, k);
      }
    }
    if MatchesAt(rest, text, j) {
      var k: nat :| Spans(rest, text, j, k);
      assert AllCovered(c, text, j, j);
      assert Spans(Star(c, rest), text, j, k);
    }
    if j < |text| && Covers(c, text[j]) && MatchesAt(Star(c, rest), text, j + 1) {
      var k: nat :| Spans(Star(c, rest), text, j + 1, k);
      var m := StarEnd(c, rest, text, j + 1, k);
      assert AllCovered(c, text, j, m);
      assert Spans(Star(c, rest), text, j, k);
    }
  }

  /** `matchhere`. */
  method MatchHere(re: string, i: nat, text: string, j: nat) returns (b: bool)
    requires i <= |re| && j <= |text|
    ensures b <==> MatchesAt(Parse(re, i), text, j)
    decreases |re| - i, 0
  {
    hide Spans, MatchesAt;
    if i == |re| {
      DoneMatches(text, j);
      return true;
    }
    if i + 1 < |re| && re[i + 1] == '*' {
      b := MatchStar(re[i], re, i + 2, text, j);
      return;
    }
    if re[i] == '$' && i + 1 == |re| {
      AtEndMatches(text, j);
      return j == |text|;
    }
    OneStep(re[i], Parse(re, i + 1), text, j);
    if j < |text| && (re[i] == '.' || re[i] == text[j]) {
      b := MatchHere(re, i + 1, text, j + 1);
      return;
    }
    return false;
  }

  /** `matchstar`. */
  method MatchStar(c: char, re: string, i: nat, text: string, j: nat) returns (b: bool)
    requires i <= |re| && j <= |text|
    ensures b <==> MatchesAt(Star(c, Parse(re, i)), text, j)
    decreases |re| - i, 1
  {
    hide Spans, MatchesAt, Parse;
    var t := j;
    while true
      invariant j <= t <= |text|
      invariant MatchesAt(Star(c, Parse(re, i)), text, j) <==> MatchesAt(Star(c, Parse(re, i)), text, t)
      decreases |text| - t
    {
      StarStep(c, Parse(re, i), text, t);
      b := MatchHere(re, i, text, t);
      if b { return true; }
      if !(t < |text| && (text[t] == c || c == '.')) { return false; }
      t := t + 1;
    }
  }

  lemma DoneMatches(text: string, j: nat)
    requires j <= |text|
    ensures MatchesAt(Done, text, j)
  {
    assert Spans(Done, text, j, j);
  }

  lemma AtEndMatches(text: string, j: nat)
    ensures MatchesAt(AtEnd, text, j) <==> j == |text|
  {
    assert Spans(AtEnd, text, j, j) <==> j == |text|;
  }

  /** `match`. */
  method Match(re: string, text: string) returns (b: bool)
    ensures b <==> Found(re, text)
  {
    hide MatchesAt, Spans, Parse;
    if |re| > 0 && re[0] == '^' {
      b := MatchHere(re, 1, text, 0);
      return;
    }
    var j := 0;
    while true
      invariant 0 <= j <= |text|
      invariant forall x: nat :: x < j ==> !MatchesAt(Parse(re, 0), text, x)
      decreases |text| - j
    {
      b := MatchHere(re, 0, text, j);
      if b { return true; }
      if j == |text| { return false; }
      j := j + 1;
    }
  }

  // ----- the line buffer -----

  /** The position of the next newline at or after s, or the end of the input. */
  function NextNewline(input: string, s: nat): (p: nat)
    requires s <= |input|
    ensures s <= p <= |input| && (p < |input| ==> input[p] == '\n')
    ensures forall x :: s <= x < p ==> input[x] != '\n'
    decreases |input| - s
  {
    if s == |input| || input[s] == '\n' then s else NextNewline(input, s + 1)
  }

  predicate Stops(c: char) {
    c == '\n' || c == '\0'
  }

  /** Where strchr(.., '\n') comes to rest: the next newline or NUL at or after s, or the end. */
  function NextStop(input: string, s: nat): (p: nat)
    requires s <= |input|
    ensures s <= p <= |input| && (p < |input| ==> Stops(input[p]))
    ensures forall x :: s <= x < p ==> !Stops(input[x])
    decreases |input| - s
  {
    if s == |input| || Stops(input[s]) then s else NextStop(input, s + 1)
  }

  /** What grep prints for the line that starts at s and ends with the newline at p. */
  ghost function Line(re: string, input: string, s: nat, p: nat): string
    requires s <= p < |input|
  {
    if Found(re, input[s..p]) then input[s..p + 1] else []
  }

  /** What grep prints for the input from s on, a line start: its matching lines, up to the
      first line that does not fit the buffer or holds a NUL. */
  ghost function Printed(re: string, input: string, s: nat): string
    requires s <= |input|
    decreases |input| - s
  {
    var p := NextStop(input, s);
    if p == |input| || input[p] == '\0' || p - s >= BUFSIZE - 1 then []
    else Line(re, input, s, p) + Printed(re, input, p + 1)
  }

  /** buf[lo..hi] holds the input from position start + lo on. */
  ghost predicate Holds(buf: array<char>, input: string, start: nat, lo: nat, hi: nat)
    reads buf
  {
    && buf.Length == BUFSIZE && lo <= hi < BUFSIZE && start + hi <= |input|
    && forall x :: lo <= x < hi ==> buf[x] == input[start + x]
  }

  ghost predicate NoStop(input: string, lo: nat, hi: nat) {
    hi <= |input| && forall x :: lo <= x < hi ==> !Stops(input[x])
  }

  /** With input[s..pos] in the buffer, strchr finds no newline. */
  predicate Stuck(input: string, s: nat, pos: nat)
    requires s <= pos <= |input|
  {
    NextStop(input, s) >= pos || input[NextStop(input, s)] == '\0'
  }

  lemma StopAt(input: string, s: nat, p: nat)
    requires s <= p <= |input| && NoStop(input, s, p)
    ensures if p < |input| && Stops(input[p]) then NextStop(input, s) == p else NextStop(input, s) >= p
  {}

  /** No newline in sight within the buffer's reach, or none at all: nothing more is printed. */
  lemma NothingLeft(re: string, input: string, s: nat, pos: nat)
    requires s <= pos <= |input| && Stuck(input, s, pos) && (pos == |input| || pos - s == BUFSIZE - 1)
    ensures Printed(re, input, s) == []
  {
    hide Line;
  }

  lemma LinePrinted(re: string, input: string, s: nat, p: nat)
    requires s <= p < |input| && NoStop(input, s, p) && input[p] == '\n' && p - s < BUFSIZE - 1
    ensures Printed(re, input, s) == Line(re, input, s, p) + Printed(re, input, p + 1)
  {
    hide Line;
    StopAt(input, s, p);
  }

  /** `read` of n characters into buf at m, and the terminating NUL. */
  method Read(buf: array<char>, m: nat, input: string, pos: nat, n: nat)
    requires buf.Length == BUFSIZE && m <= pos && pos + n <= |input| && m + n < BUFSIZE
    requires Holds(buf, input, pos - m, 0, m)
    modifies buf
    ensures Holds(buf, input, pos - m, 0, m + n) && buf[m + n] == '\0'
  {
    for i := 0 to n
      invariant Holds(buf, input, pos - m, 0, m + i)
    {
      buf[m + i] := input[pos + i];
    }
    buf[m + n] := '\0';
  }

  /** `strchr(p, '\n')`: the first newline unless a NUL comes first, be it the one at m or
      one that was read. */
  method FindNewline(buf: array<char>, p: nat, m: nat, ghost input: string, ghost start: nat)
    returns (found: bool, q: nat)
    requires Holds(buf, input, start, p, m) && buf[m] == '\0'
    ensures p <= q <= m && NoStop(input, start + p, start + q)
    ensures if found then q < m && input[start + q] == '\n' else Stuck(input, start + p, start + m)
  {
    q := p;
    while buf[q] != '\n' && buf[q] != '\0'
      invariant p <= q <= m && NoStop(input, start + p, start + q)
      decreases m - q
    {
      q := q + 1;
    }
    StopAt(input, start + p, start + q);
    found := buf[q] == '\n';
  }

  /** `memmove(buf, p, m)` of the m characters at p to the front. */
  method Shift(buf: array<char>, p: nat, m: nat, ghost input: string, ghost start: nat)
    requires Holds(buf, input, start, p, p + m)
    modifies buf
    ensures Holds(buf, input, start + p, 0, m)
  {
    for i := 0 to m
      invariant Holds(buf, input, start + p, 0, i)
      invariant forall x :: p + i <= x < p + m ==> buf[x] == input[start + x]
    {
      buf[i] := buf[p + i];
    }
  }

  /** The line at buf[p..q], terminated for the matcher and printed if it matches. */
  method PrintLine(re: string, buf: array<char>, p: nat, q: nat, m: nat, ghost input: string, ghost start: nat)
    returns (line: string)
    requires Holds(buf, input, start, p, m) && p <= q < m && input[start + q] == '\n'
    modifies buf
    ensures line == Line(re, input, start + p, start + q)
    ensures Holds(buf, input, start, q + 1, m) && buf[m] == old(buf[m])
  {
    buf[q] := '\0';
    var text := buf[p..q];
    assert text == input[start + p..start + q];
    var found := Match(re, text);
    if !found { return []; }
    buf[q] := '\n';
    line := buf[p..q + 1];
    assert line == input[start + p..start + q + 1];
  }

  lemma Assoc(a: string, b: string, c: string)
    ensures a + b + c == a + (b + c)
  {}

  /** The lines completed in the buffer are printed if they match; p is the start of the rest. */
  method PrintLines(re: string, buf: array<char>, m: nat, ghost input: string, ghost start: nat)
    returns (out: string, p: nat)
    requires Holds(buf, input, start, 0, m) && buf[m] == '\0'
    modifies buf
    ensures p <= m && Holds(buf, input, start, p, m) && Stuck(input, start + p, start + m)
    ensures Printed(re, input, start) == out + Printed(re, input, start + p)
  {
    hide Printed, Line, NextStop, NoStop, Stuck;
    out, p := [], 0;
    var found, q := FindNewline(buf, p, m, input, start);
    while found
      invariant 0 <= p <= q <= m && Holds(buf, input, start, p, m) && buf[m] == '\0'
      invariant NoStop(input, start + p, start + q)
      invariant if found then q < m && input[start + q] == '\n' else Stuck(input, start + p, start + m)
      invariant Printed(re, input, start) == out + Printed(re, input, start + p)
      decreases m - p, found
    {
      LinePrinted(re, input, start + p, start + q);
      var line := PrintLine(re, buf, p, q, m, input, start);
      Assoc(out, line, Printed(re, input, start + q + 1));
      out := out + line;
      p := q + 1;
      found, q := FindNewline(buf, p, m, input, start);
    }
  }

  /** `grep` over a file whose reads return any number of characters at a time: the
      matching lines, newline included, in order. */
  method GrepFile(re: string, input: string) returns (out: string)
    ensures out == Printed(re, input, 0)
  {
    hide Printed, NextStop, Stuck;
    var buf := new char[BUFSIZE](_ => '\0');
    var m, pos := 0, 0;
    out := [];
    EmptyStuck(input);
    while true
      invariant 0 <= m <= pos <= |input| && Holds(buf, input, pos - m, 0, m) && Stuck(input, pos - m, pos)
      invariant Printed(re, input, 0) == out + Printed(re, input, pos - m)
      decreases |input| - pos
    {
      var room := if |input| - pos < BUFSIZE - m - 1 then |input| - pos else BUFSIZE - m - 1;
      if room == 0 {
        NothingLeft(re, input, pos - m, pos);
        return;
      }
      var n :| 1 <= n <= room;
      Read(buf, m, input, pos, n);
      ghost var start := pos - m;
      pos, m := pos + n, m + n;
      var printed, p := PrintLines(re, buf, m, input, start);
      Assoc(out, printed, Printed(re, input, start + p));
      out := out + printed;
      m := m - p;
      Shift(buf, p, m, input, start);
    }
  }

  lemma EmptyStuck(input: string)
    ensures Stuck(input, 0, 0)
  {}

  // ----- when every line is printed -----

  /** The matching lines of the whole input that end in a newline. */
  ghost function Filtered(re: string, input: string, s: nat): string
    requires s <= |input|
    decreases |input| - s
  {
    var p := NextNewline(input, s);
    if p == |input| then [] else Line(re, input, s, p) + Filtered(re, input, p + 1)
  }

  /** The line from s to its newline at p defeats grep. */
  predicate Bad(input: string, s: nat, p: nat)
    requires s <= p <= |input|
  {
    p - s >= BUFSIZE - 1 || NextStop(input, s) < p
  }

  /** The start of the first line, from s on, that is too long or holds a NUL. */
  function FirstBad(input: string, s: nat): (f: nat)
    requires s <= |input|
    ensures s <= f <= |input|
    decreases |input| - s
  {
    var p := NextNewline(input, s);
    if p == |input| then |input| else if Bad(input, s, p) then s else FirstBad(input, p + 1)
  }

  lemma StopNewline(input: string, s: nat)
    requires s <= |input|
    ensures NextStop(input, s) <= NextNewline(input, s)
    ensures NextStop(input, s) < NextNewline(input, s) ==> input[NextStop(input, s)] == '\0'
  {}

  /** Printed by whole lines. */
  lemma PrintedCases(re: string, input: string, s: nat)
    requires s <= |input|
    ensures var p := NextNewline(input, s);
            Printed(re, input, s)
            == if p == |input| || Bad(input, s, p) then [] else Line(re, input, s, p) + Printed(re, input, p + 1)
  {
    hide Line, NextStop, NextNewline;
    StopNewline(input, s);
  }

  /** grep prints exactly the matching lines before the first bad one. */
  lemma {:induction false} PrintedPrefix(re: string, input: string, s: nat)
    requires s <= |input|
    ensures Filtered(re, input, s) == Printed(re, input, s) + Filtered(re, input, FirstBad(input, s))
    decreases |input| - s
  {
    hide Line, Printed, NextNewline, Bad;
    PrintedCases(re, input, s);
    var p := NextNewline(input, s);
    if p < |input| && !Bad(input, s, p) {
      PrintedPrefix(re, input, p + 1);
      Assoc(Line(re, input, s, p), Printed(re, input, p + 1), Filtered(re, input, FirstBad(input, p + 1)));
    }
  }

  /** So it prints all of them if and only if none from there on matches. */
  lemma OnlyBadLinesLost(re: string, input: string, s: nat)
    requires s <= |input|
    ensures Filtered(re, input, s) == Printed(re, input, s) + Filtered(re, input, FirstBad(input, s))
    ensures Printed(re, input, s) == Filtered(re, input, s) <==> Filtered(re, input, FirstBad(input, s)) == []
  {
    hide Filtered, Printed, FirstBad;
    PrintedPrefix(re, input, s);
  }

  lemma EmptyPattern(text: string)
    ensures Found("", text)
  {
    DoneMatches(text, 0);
    assert Parse("", 0) == Done;
  }

  lemma {:induction false} FirstBadIsLine(input: string, s: nat)
    requires s <= |input|
    ensures FirstBad(input, s) < |input| ==> NextNewline(input, FirstBad(input, s)) < |input|
    decreases |input| - s
  {
    var p := NextNewline(input, s);
    if p < |input| && !Bad(input, s, p) { FirstBadIsLine(input, p + 1); }
  }

  /** A file from which grep prints every matching line, whatever the pattern, is one whose
      complete lines are all shorter than the buffer by two and free of NULs. */
  lemma AllPrintedIff(input: string)
    ensures (forall re :: Printed(re, input, 0) == Filtered(re, input, 0)) <==> FirstBad(input, 0) == |input|
  {
    hide Line, Printed, FirstBad;
    forall re
      ensures Printed(re, input, 0) == Filtered(re, input, 0) <==> Filtered(re, input, FirstBad(input, 0)) == []
    {
      OnlyBadLinesLost(re, input, 0);
    }
    var f := FirstBad(input, 0);
    FirstBadIsLine(input, 0);
    if f < |input| {
      var p := NextNewline(input, f);
      EmptyPattern(input[f..p]);
      assert Line("", input, f, p) == input[f..p + 1] by { LineFound("", input, f, p); }
      assert Filtered("", input, f) != [];
      assert Printed("", input, 0) != Filtered("", input, 0);
    } else {
      forall re ensures Filtered(re, input, f) == [] {
      }
    }
  }

  lemma LineFound(re: string, input: string, s: nat, p: nat)
    requires s <= p < |input| && Found(re, input[s..p])
    ensures Line(re, input, s, p) == input[s..p + 1]
  {}

  /** Where the text behind the last newline starts. */
  function Tail(input: string, s: nat): (t: nat)
    requires s <= |input|
    ensures s <= t <= |input|
    ensures t == |input| <==> s == |input| || input[|input| - 1] == '\n'
    decreases |input| - s
  {
    var p := NextNewline(input, s);
    if p == |input| then s else Tail(input, p + 1)
  }

  /** All matching lines, a last one without a newline included. */
  ghost function Wanted(re: string, input: string): string {
    var t := Tail(input, 0);
    Filtered(re, input, 0) + if t < |input| && Found(re, input[t..]) then input[t..] else []
  }

  /** grep never prints a last line without a newline. So a file from which it prints every
      matching line, that one included, also has to be empty or end in a newline. */
  lemma NothingLostIff(input: string)
    ensures (forall re :: Printed(re, input, 0) == Wanted(re, input))
       <==> FirstBad(input, 0) == |input| && (input == [] || input[|input| - 1] == '\n')
  {
    hide Filtered, Printed, FirstBad, Found;
    AllPrintedIff(input);
    var t := Tail(input, 0);
    if t < |input| {
      EmptyPattern(input[t..]);
      OnlyBadLinesLost("", input, 0);
      assert |Wanted("", input)| > |Filtered("", input, 0)| >= |Printed("", input, 0)|;
      assert Printed("", input, 0) != Wanted("", input);
    } else {
      forall re ensures Wanted(re, input) == Filtered(re, input, 0) {
      }
    }
  }

  /** A file of one line of n characters, all of them 'a'. */
  function OneLine(n: nat): string {
    seq(n, _ => 'a') + ['\n']
  }

  lemma NewlineAt(input: string, s: nat, p: nat)
    requires s <= p < |input| && input[p] == '\n' && forall x :: s <= x < p ==> input[x] != '\n'
    ensures NextNewline(input, s) == p
  {}

  /** The shortest line that grep loses: with an empty pattern, which matches anything, it
      prints nothing. */
  lemma LongLineLost()
    ensures Printed("", OneLine(BUFSIZE - 1), 0) == [] && Filtered("", OneLine(BUFSIZE - 1), 0) == OneLine(BUFSIZE - 1)
  {
    hide Found;
    var input := OneLine(BUFSIZE - 1);
    NewlineAt(input, 0, BUFSIZE - 1);
    StopNewline(input, 0);
    EmptyPattern(input[0..BUFSIZE - 1]);
    assert input[0..BUFSIZE] == input;
    assert NextNewline(input, BUFSIZE) == |input|;
  }
}
