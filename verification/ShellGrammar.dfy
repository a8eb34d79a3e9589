/** The shell's grammar as a set of derivations, with the text and the command tree of each.
    sh.c's recursive descent accepts exactly the texts of derivations, as their trees,
    whatever white space is between the tokens. */
module ShellGrammar {
  import opened ShellSyntax
  import opened ShellParser

  /** A word of a command, or a redirection. */
  datatype Item = Arg(w: string) | Into(mode: Mode, file: string)

  datatype Items = NoItems | Items(head: Item, tail: Items)

  /** Words and redirections in any order, or a block with redirections behind it. */
  datatype Part = Simply(items: Items) | Group(line: Script, redirs: Items)

  /** Parts with | between them. */
  datatype Piped = One(part: Part) | More(part: Part, rest: Piped)

  /** A pipeline, as many & behind it, and a ; with another line or not. */
  datatype Script = Last(piped: Piped, amps: nat) | Semi(piped: Piped, amps: nat, next: Script)

  // ----- texts -----

  function ItemsText(items: Items, k: Tokens): Tokens {
    match items
    case NoItems => k
    case Items(Arg(w), tail) => Cons(Word(w), ItemsText(tail, k))
    case Items(Into(mode, file), tail) => Cons(ModeTok(mode), Cons(Word(file), ItemsText(tail, k)))
  }

  function PartText(part: Part, k: Tokens): Tokens {
    match part
    case Simply(items) => ItemsText(items, k)
    case Group(line, redirs) => Cons(Sym('('), ScriptText(line, Cons(Sym(')'), ItemsText(redirs, k))))
  }

  function PipedText(piped: Piped, k: Tokens): Tokens {
    match piped
    case One(part) => PartText(part, k)
    case More(part, rest) => PartText(part, Cons(Sym('|'), PipedText(rest, k)))
  }

  function Amps(n: nat, k: Tokens): Tokens {
    if n == 0 then k else Cons(Sym('&'), Amps(n - 1, k))
  }

  function ScriptText(line: Script, k: Tokens): Tokens {
    match line
    case Last(piped, amps) => PipedText(piped, Amps(amps, k))
    case Semi(piped, amps, next) => PipedText(piped, Amps(amps, Cons(Sym(';'), ScriptText(next, k))))
  }

  // ----- trees -----

  /** The words among the items. */
  function WordsIn(items: Items): seq<string> {
    match items
    case NoItems => []
    case Items(Arg(w), tail) => [w] + WordsIn(tail)
    case Items(Into(_, _), tail) => WordsIn(tail)
  }

  /** cmd with the redirections among the items around it, the last outermost. */
  function Wrapped(cmd: Cmd, items: Items): Cmd
    decreases items
  {
    match items
    case NoItems => cmd
    case Items(Arg(_), tail) => Wrapped(cmd, tail)
    case Items(Into(mode, file), tail) => Wrapped(Redir(cmd, file, mode), tail)
  }

  function PartTree(part: Part): Cmd {
    match part
    case Simply(items) => Wrapped(Exec(WordsIn(items)), items)
    case Group(line, redirs) => Wrapped(ScriptTree(line), redirs)
  }

  function PipedTree(piped: Piped): Cmd {
    match piped
    case One(part) => PartTree(part)
    case More(part, rest) => Pipe(PartTree(part), PipedTree(rest))
  }

  function InBack(cmd: Cmd, n: nat): Cmd
    decreases n
  {
    if n == 0 then cmd else InBack(Back(cmd), n - 1)
  }

  function ScriptTree(line: Script): Cmd {
    match line
    case Last(piped, amps) => InBack(PipedTree(piped), amps)
    case Semi(piped, amps, next) => List(InBack(PipedTree(piped), amps), ScriptTree(next))
  }

  // ----- what a derivation has to respect -----

  predicate OnlyRedirs(items: Items) {
    items.Items? ==> items.head.Into? && OnlyRedirs(items.tail)
  }

  predicate GoodPart(part: Part) {
    match part
    case Simply(items) => |WordsIn(items)| < MAXARGS
    case Group(line, redirs) => GoodScript(line) && OnlyRedirs(redirs)
  }

  predicate GoodPiped(piped: Piped) {
    GoodPart(piped.part) && (piped.More? ==> GoodPiped(piped.rest))
  }

  predicate GoodScript(line: Script) {
    GoodPiped(line.piped) && (line.Semi? ==> GoodScript(line.next))
  }

  // ----- every derivation is accepted -----

  /** What may stand behind the words of a command. */
  predicate Stops(k: Tokens) {
    k.Nil? || Starts(k, '|') || Starts(k, ')') || Starts(k, '&') || Starts(k, ';')
  }

  lemma {:induction false} WrappedArgs(ret: Cmd, items: Items, args: seq<string>)
    ensures WithArgs(Wrapped(ret, items), args) == Wrapped(WithArgs(ret, args), items)
    decreases items
  {
    match items {
      case NoItems =>
      case Items(Arg(_), tail) => WrappedArgs(ret, tail, args);
      case Items(Into(mode, file), tail) => WrappedArgs(Redir(ret, file, mode), tail, args);
    }
  }

  lemma ModeBack(mode: Mode)
    ensures ModeOf(ModeTok(mode)) == mode && forall ts :: StartsRedir(Cons(ModeTok(mode), ts))
  {}

  lemma StopStep(args: seq<string>, ret: Cmd, k: Tokens)
    requires Stops(k)
    ensures Redirs(ret, k) == Ok(ret, k) && Args(args, ret, k) == Ok(WithArgs(ret, args), k)
  {}

  lemma WordStep(args: seq<string>, ret: Cmd, w: string, ts: Tokens)
    requires |args| + 1 < MAXARGS
    ensures Redirs(ret, Cons(Word(w), ts)) == Ok(ret, Cons(Word(w), ts))
    ensures var r := Redirs(ret, ts);
            Args(args, ret, Cons(Word(w), ts)) == if r.Panic? then Panic else Args(args + [w], r.cmd, r.rest)
  {
    hide WithArgs;
  }

  lemma RedirStep(ret: Cmd, mode: Mode, file: string, ts: Tokens)
    ensures Redirs(ret, Cons(ModeTok(mode), Cons(Word(file), ts))) == Redirs(Redir(ret, file, mode), ts)
  {
    ModeBack(mode);
  }

  /** Words and redirections in any order make one command with those words, and the
      redirections around it in their order. */
  lemma {:induction false} ItemsRead(args: seq<string>, ret: Cmd, items: Items, k: Tokens)
    requires Stops(k) && |args| + |WordsIn(items)| < MAXARGS
    ensures var r := Redirs(ret, ItemsText(items, k));
            r.Ok? && Args(args, r.cmd, r.rest) == Ok(Wrapped(WithArgs(ret, args + WordsIn(items)), items), k)
    decreases items
  {
    hide Redirs, Args;
    match items {
      case NoItems =>
        StopStep(args, ret, k);
        assert args + WordsIn(items) == args;
      case Items(Arg(w), tail) =>
        WordStep(args, ret, w, ItemsText(tail, k));
        ItemsRead(args + [w], ret, tail, k);
        assert args + [w] + WordsIn(tail) == args + WordsIn(items);
      case Items(Into(mode, file), tail) =>
        RedirStep(ret, mode, file, ItemsText(tail, k));
        ItemsRead(args, Redir(ret, file, mode), tail, k);
    }
  }

  lemma {:induction false} RedirsRead(cmd: Cmd, items: Items, k: Tokens)
    requires OnlyRedirs(items) && !StartsRedir(k)
    ensures Redirs(cmd, ItemsText(items, k)) == Ok(Wrapped(cmd, items), k)
    decreases items
  {
    if items.Items? {
      ModeBack(items.head.mode);
      RedirsRead(Redir(cmd, items.head.file, items.head.mode), items.tail, k);
    }
  }

  lemma {:induction false} AmpsRead(cmd: Cmd, n: nat, k: Tokens)
    requires !Starts(k, '&')
    ensures Backs(cmd, Amps(n, k)) == Ok(InBack(cmd, n), k)
    decreases n
  {
    if n > 0 { AmpsRead(Back(cmd), n - 1, k); }
  }

  lemma NotBlock(items: Items, k: Tokens)
    requires Stops(k)
    ensures !Starts(ItemsText(items, k), '(')
  {}

  lemma {:induction false} PartRead(part: Part, k: Tokens)
    requires GoodPart(part) && Stops(k)
    ensures Simple(PartText(part, k)) == Ok(PartTree(part), k)
    decreases part, 0
  {
    match part {
      case Simply(items) =>
        ItemsRead([], Exec([]), items, k);
        assert [] + WordsIn(items) == WordsIn(items);
        NotBlock(items, k);
      case Group(line, redirs) =>
        ScriptRead(line, Cons(Sym(')'), ItemsText(redirs, k)));
        RedirsRead(ScriptTree(line), redirs, k);
    }
  }

  lemma {:induction false} PipedRead(piped: Piped, k: Tokens)
    requires GoodPiped(piped) && Stops(k) && !Starts(k, '|')
    ensures Pipeline(PipedText(piped, k)) == Ok(PipedTree(piped), k)
    decreases piped, 1
  {
    hide Simple;
    match piped {
      case One(part) => PartRead(part, k);
      case More(part, rest) =>
        PipedRead(rest, k);
        PartRead(part, Cons(Sym('|'), PipedText(rest, k)));
    }
  }

  lemma AmpsStop(n: nat, k: Tokens)
    requires Stops(k) && !Starts(k, '|')
    ensures Stops(Amps(n, k)) && !Starts(Amps(n, k), '|')
  {}

  lemma {:induction false} ScriptRead(line: Script, k: Tokens)
    requires GoodScript(line) && Ends(k)
    ensures Line(ScriptText(line, k)) == Ok(ScriptTree(line), k)
    decreases line, 2
  {
    hide Pipeline, Backs;
    match line {
      case Last(piped, amps) =>
        AmpsStop(amps, k);
        PipedRead(piped, Amps(amps, k));
        AmpsRead(PipedTree(piped), amps, k);
      case Semi(piped, amps, next) =>
        var k2 := Cons(Sym(';'), ScriptText(next, k));
        AmpsStop(amps, k2);
        PipedRead(piped, Amps(amps, k2));
        AmpsRead(PipedTree(piped), amps, k2);
        ScriptRead(next, k);
    }
  }

  // ----- what is accepted has a derivation -----

  function Joined(a: Items, b: Items): Items {
    if a.NoItems? then b else Items(a.head, Joined(a.tail, b))
  }

  lemma {:induction false} JoinedText(cmd: Cmd, a: Items, b: Items, k: Tokens)
    requires OnlyRedirs(a)
    ensures ItemsText(Joined(a, b), k) == ItemsText(a, ItemsText(b, k))
    ensures Wrapped(cmd, Joined(a, b)) == Wrapped(Wrapped(cmd, a), b) && WordsIn(Joined(a, b)) == WordsIn(b)
    decreases a
  {
    if a.Items? { JoinedText(Redir(cmd, a.head.file, a.head.mode), a.tail, b, k); }
  }

  lemma {:induction false} RedirsHave(cmd: Cmd, ts: Tokens) returns (items: Items)
    requires Redirs(cmd, ts).Ok?
    ensures OnlyRedirs(items) && ItemsText(items, Redirs(cmd, ts).rest) == ts
    ensures Redirs(cmd, ts).cmd == Wrapped(cmd, items)
    decreases ts
  {
    if StartsRedir(ts) {
      var m, file := ModeOf(ts.tok), ts.rest.tok.w;
      var tail := RedirsHave(Redir(cmd, file, m), ts.rest.rest);
      items := Items(Into(m, file), tail);
    } else {
      items := NoItems;
    }
  }

  lemma {:induction false} ArgsHave(args: seq<string>, ret: Cmd, ts: Tokens) returns (items: Items)
    requires Args(args, ret, ts).Ok? && |args| < MAXARGS
    ensures ItemsText(items, Args(args, ret, ts).rest) == ts && |args| + |WordsIn(items)| < MAXARGS
    ensures Args(args, ret, ts).cmd == Wrapped(WithArgs(ret, args + WordsIn(items)), items)
    decreases Len(ts)
  {
    if Stops(ts) {
      items := NoItems;
      assert args + [] == args;
    } else {
      var w := ts.tok.w;
      var r := Redirs(ret, ts.rest);
      var redirs := RedirsHave(ret, ts.rest);
      var rest := ArgsHave(args + [w], r.cmd, r.rest);
      var all := args + [w] + WordsIn(rest);
      JoinedText(WithArgs(ret, all), redirs, rest, Args(args, ret, ts).rest);
      WrappedArgs(ret, redirs, all);
      items := Items(Arg(w), Joined(redirs, rest));
      assert args + WordsIn(items) == all;
    }
  }

  lemma PlainHas(ts: Tokens) returns (items: Items)
    requires Plain(ts).Ok?
    ensures |WordsIn(items)| < MAXARGS && ItemsText(items, Plain(ts).rest) == ts
    ensures Plain(ts).cmd == Wrapped(Exec(WordsIn(items)), items)
  {
    var r := Redirs(Exec([]), ts);
    var redirs := RedirsHave(Exec([]), ts);
    var rest := ArgsHave([], r.cmd, r.rest);
    assert [] + WordsIn(rest) == WordsIn(rest);
    WrappedArgs(Exec([]), redirs, WordsIn(rest));
    JoinedText(Exec(WordsIn(rest)), redirs, rest, Plain(ts).rest);
    items := Joined(redirs, rest);
  }

  lemma {:induction false} SimpleHas(ts: Tokens) returns (part: Part)
    requires Simple(ts).Ok?
    ensures GoodPart(part) && PartText(part, Simple(ts).rest) == ts && PartTree(part) == Simple(ts).cmd
    decreases Len(ts), 0
  {
    if Starts(ts, '(') {
      var line := LineHas(ts.rest);
      var r := Line(ts.rest);
      var redirs := RedirsHave(r.cmd, r.rest.rest);
      part := Group(line, redirs);
    } else {
      var items := PlainHas(ts);
      part := Simply(items);
    }
  }

  lemma {:induction false} PipelineHas(ts: Tokens) returns (piped: Piped)
    requires Pipeline(ts).Ok?
    ensures GoodPiped(piped) && PipedText(piped, Pipeline(ts).rest) == ts && PipedTree(piped) == Pipeline(ts).cmd
    decreases Len(ts), 1
  {
    hide Simple;
    var r := Simple(ts);
    var part := SimpleHas(ts);
    if Starts(r.rest, '|') {
      var rest := PipelineHas(r.rest.rest);
      piped := More(part, rest);
    } else {
      piped := One(part);
    }
  }

  lemma {:induction false} BacksHave(cmd: Cmd, ts: Tokens) returns (n: nat)
    ensures Amps(n, Backs(cmd, ts).rest) == ts && Backs(cmd, ts).cmd == InBack(cmd, n)
    decreases ts
  {
    if Starts(ts, '&') {
      n := BacksHave(Back(cmd), ts.rest);
      n := n + 1;
    } else {
      n := 0;
    }
  }

  lemma {:induction false} LineHas(ts: Tokens) returns (line: Script)
    requires Line(ts).Ok?
    ensures GoodScript(line) && ScriptText(line, Line(ts).rest) == ts && ScriptTree(line) == Line(ts).cmd
    decreases Len(ts), 2
  {
    hide Pipeline, Backs;
    var r := Pipeline(ts);
    var piped := PipelineHas(ts);
    var b := Backs(r.cmd, r.rest);
    var n := BacksHave(r.cmd, r.rest);
    if Starts(b.rest, ';') {
      var next := LineHas(b.rest.rest);
      line := Semi(piped, n, next);
    } else {
      line := Last(piped, n);
    }
  }

  /** parsecmd accepts exactly the texts of derivations, and builds their trees. */
  lemma GrammarExact(ts: Tokens, cmd: Cmd)
    ensures Command(ts) == Ok(cmd, Nil)
       <==> exists line :: GoodScript(line) && ScriptText(line, Nil) == ts && ScriptTree(line) == cmd
  {
    hide Line, GoodScript, ScriptText, ScriptTree;
    if Command(ts) == Ok(cmd, Nil) { var line := LineHas(ts); }
    if line :| GoodScript(line) && ScriptText(line, Nil) == ts && ScriptTree(line) == cmd { ScriptRead(line, Nil); }
  }

  // ----- the tokens in a string -----

  /** Only white space from i to j. */
  ghost predicate Blank(s: string, i: nat, j: nat) {
    i <= j <= |s| && forall x :: i <= x < j ==> IsSpace(s[x])
  }

  /** The text of t stands in s at j and does not go on behind. */
  ghost predicate TokenAt(s: string, j: nat, t: Tok) {
    var e := j + |TokText(t)|;
    && TokShape(t) && e <= |s| && s[j..e] == TokText(t)
    && (t.Word? ==> e == |s| || !IsWordChar(s[e]))
    && (t == Sym('>') ==> e == |s| || s[e] != '>')
  }

  predicate TokShape(t: Tok) {
    match t
    case Word(w) => |w| > 0 && forall x :: 0 <= x < |w| ==> IsWordChar(w[x])
    case Sym(c) => IsSymbol(c)
    case Append => true
  }

  /** From i on, s holds the tokens ts and white space between them, or none. */
  ghost predicate Laid(s: string, i: nat, ts: Tokens)
    decreases ts
  {
    match ts
    case Nil => Blank(s, i, |s|)
    case Cons(t, rest) => exists j: nat :: Blank(s, i, j) && TokenAt(s, j, t) && Laid(s, j + |TokText(t)|, rest)
  }

  lemma {:induction false} SkipIs(s: string, i: nat, j: nat)
    requires Blank(s, i, j) && (j < |s| ==> !IsSpace(s[j]))
    ensures Skip(s, i) == j
    decreases j - i
  {
    if i < j { SkipIs(s, i + 1, j); }
  }

  lemma {:induction false} SkipBlank(s: string, i: nat)
    requires i <= |s|
    ensures Blank(s, i, Skip(s, i))
    decreases |s| - i
  {
    if i < |s| && IsSpace(s[i]) { SkipBlank(s, i + 1); }
  }

  lemma {:induction false} WordEndIs(s: string, i: nat, e: nat)
    requires i <= e <= |s| && (e < |s| ==> !IsWordChar(s[e])) && forall x :: i <= x < e ==> IsWordChar(s[x])
    ensures WordEnd(s, i) == e
    decreases e - i
  {
    if i < e { WordEndIs(s, i + 1, e); }
  }

  lemma TokenFirst(s: string, j: nat, t: Tok)
    requires TokenAt(s, j, t)
    ensures j < |s| && !IsSpace(s[j]) && Skip(s, j) == j && Lex(s, j) == Cons(t, Lex(s, j + |TokText(t)|))
  {
    var e := j + |TokText(t)|;
    assert forall x :: j <= x < e ==> s[x] == s[j..e][x - j];
    SkipIs(s, j, j);
    if t.Word? { WordEndIs(s, j, e); }
  }

  lemma WordNotEmpty(s: string, j: nat)
    requires j < |s| && IsWordChar(s[j])
    ensures j < WordEnd(s, j)
  {
    hide IsWordChar;
  }

  lemma FirstWordAt(s: string, j: nat)
    requires j < |s| && IsWordChar(s[j])
    ensures j < WordEnd(s, j) && TokenAt(s, j, Word(s[j..WordEnd(s, j)]))
  {
    hide WordEnd, IsWordChar;
    WordNotEmpty(s, j);
    var e := WordEnd(s, j);
    var w := s[j..e];
    forall x | 0 <= x < |w| ensures IsWordChar(w[x]) { assert w[x] == s[j + x]; }
  }

  lemma FirstSymAt(s: string, j: nat)
    requires j < |s| && IsSymbol(s[j])
    ensures if s[j] == '>' && j + 1 < |s| && s[j + 1] == '>' then TokenAt(s, j, Append) else TokenAt(s, j, Sym(s[j]))
  {
    if s[j] == '>' && j + 1 < |s| && s[j + 1] == '>' {
      assert s[j..j + 2] == ">>";
    } else {
      assert s[j..j + 1] == [s[j]];
    }
  }

  /** gettoken's first token in the sense of Lex stands there in the sense of TokenAt. */
  lemma FirstToken(s: string, i: nat)
    requires i <= |s| && Lex(s, i).Cons?
    ensures TokenAt(s, Skip(s, i), Lex(s, i).tok)
    ensures Lex(s, i).rest == Lex(s, Skip(s, i) + |TokText(Lex(s, i).tok)|)
  {
    hide TokenAt, Skip, WordEnd;
    var j := Skip(s, i);
    if IsSymbol(s[j]) { FirstSymAt(s, j); } else { FirstWordAt(s, j); }
  }

  lemma LaidEnd(s: string, i: nat)
    requires Blank(s, i, |s|)
    ensures Laid(s, i, Nil)
  {}

  lemma LaidFirst(s: string, i: nat, j: nat, t: Tok, rest: Tokens)
    requires Blank(s, i, j) && TokenAt(s, j, t) && Laid(s, j + |TokText(t)|, rest)
    ensures Laid(s, i, Cons(t, rest))
  {
    hide Blank, TokenAt;
  }

  lemma {:induction false} LexLaid(s: string, i: nat)
    requires i <= |s|
    ensures Laid(s, i, Lex(s, i))
    decreases |s| - i
  {
    hide Lex, TokenAt, Skip, Blank, Laid;
    var ts := Lex(s, i);
    if ts.Nil? {
      LexNil(s, i);
      LaidEnd(s, i);
    } else {
      var j := Skip(s, i);
      SkipBlank(s, i);
      FirstToken(s, i);
      TokenFirst(s, j, ts.tok);
      TokenInside(s, j, ts.tok);
      var e := j + |TokText(ts.tok)|;
      LexLaid(s, e);
      LaidFirst(s, i, j, ts.tok, ts.rest);
      assert ts == Cons(ts.tok, ts.rest);
    }
  }

  lemma {:induction false} LaidLex(s: string, i: nat, ts: Tokens)
    requires i <= |s| && Laid(s, i, ts)
    ensures Lex(s, i) == ts
    decreases ts
  {
    hide Lex, TokenAt, Skip, Blank;
    if ts.Nil? {
      LexNil(s, i);
    } else {
      var j: nat :| Blank(s, i, j) && TokenAt(s, j, ts.tok) && Laid(s, j + |TokText(ts.tok)|, ts.rest);
      TokenFirst(s, j, ts.tok);
      TokenInside(s, j, ts.tok);
      SkipIs(s, i, j);
      LexSkip(s, i);
      LaidLex(s, j + |TokText(ts.tok)|, ts.rest);
    }
  }

  /** Reading tokens is exact: whatever the white space, as much as there is or none. */
  lemma LexExact(s: string, i: nat, ts: Tokens)
    requires i <= |s|
    ensures Lex(s, i) == ts <==> Laid(s, i, ts)
  {
    hide Lex, Laid;
    LexLaid(s, i);
    if Laid(s, i, ts) { LaidLex(s, i, ts); }
  }

  lemma TokenInside(s: string, j: nat, t: Tok)
    requires TokenAt(s, j, t)
    ensures j < j + |TokText(t)| <= |s|
  {}

  lemma LexNil(s: string, i: nat)
    requires i <= |s|
    ensures Lex(s, i) == Nil <==> Blank(s, i, |s|)
  {
    SkipBlank(s, i);
    if Blank(s, i, |s|) { SkipIs(s, i, |s|); }
  }

  /** A derivation of the string s. */
  ghost predicate Derives(line: Script, s: string) {
    GoodScript(line) && Laid(s, 0, ScriptText(line, Nil))
  }

  lemma DerivedParses(s: string, line: Script)
    requires Derives(line, s)
    ensures Command(Lex(s, 0)) == Ok(ScriptTree(line), Nil)
  {
    hide Line, Lex, GoodScript, ScriptText, ScriptTree, Laid;
    LexExact(s, 0, ScriptText(line, Nil));
    ScriptRead(line, Nil);
  }

  lemma ParsedDerives(s: string) returns (line: Script)
    requires Command(Lex(s, 0)).Ok?
    ensures Derives(line, s) && Command(Lex(s, 0)) == Ok(ScriptTree(line), Nil)
  {
    hide Line, Lex, GoodScript, ScriptText, ScriptTree, Laid;
    line := LineHas(Lex(s, 0));
    LexExact(s, 0, ScriptText(line, Nil));
  }

  /** parsecmd on a string: it succeeds exactly if the string has a derivation, and then the
      tree is that of the derivation. */
  lemma ParsesExactly(s: string, cmd: Cmd)
    ensures Command(Lex(s, 0)) == Ok(cmd, Nil) <==> exists line :: Derives(line, s) && ScriptTree(line) == cmd
  {
    hide Command, Lex, Derives, ScriptTree;
    if Command(Lex(s, 0)) == Ok(cmd, Nil) { var line := ParsedDerives(s); }
    if line :| Derives(line, s) && ScriptTree(line) == cmd { DerivedParses(s, line); }
  }

  /** All derivations of a string have the same tree. */
  lemma OneTree(s: string, line: Script, other: Script)
    requires Derives(line, s) && Derives(other, s)
    ensures ScriptTree(line) == ScriptTree(other)
  {
    hide Command, Lex, Derives, ScriptTree;
    DerivedParses(s, line);
    DerivedParses(s, other);
  }

  /** parsecmd run on a buffer: it fails exactly if the string has no derivation, and otherwise
      builds the tree that every derivation of it has. */
  method ParseDerived(buf: array<char>, s: string) returns (r: Parsed)
    requires '\0' !in s && buf[..] == s + ['\0']
    modifies buf
    ensures r.Parsed? ==> NodeOk(s, r.node) && AllRead(buf[..], s, r.node)
    ensures r.Parsed? <==> exists line :: Derives(line, s)
    ensures forall line :: Derives(line, s) ==> r.Parsed? && ScriptTree(line) == Text(s, r.node)
  {
    hide Command, Lex, AllRead, ScriptTree, Derives, Text;
    r := ParseCmd(buf, s);
    if r.Parsed? { ghost var line := ParsedDerives(s); }
    forall line | Derives(line, s) ensures r.Parsed? && ScriptTree(line) == Text(s, r.node) { DerivedParses(s, line); }
  }
}
