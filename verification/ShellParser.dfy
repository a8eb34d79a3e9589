/** The shell's parser as sh.c runs it: a cursor over the characters, recursive descent to
    a tree of pointers into the buffer, and NULs written behind every word. Input is
    NUL-free; the end of the C string is the end of the sequence. */
module ShellParser {
  import opened ShellSyntax

  predicate IsSpace(c: char) {
    c == ' ' || c == '\t' || c == '\r' || c == '\n' || c == '\U{B}'
  }

  predicate IsSymbol(c: char) {
    c == '<' || c == '|' || c == '>' || c == '&' || c == ';' || c == '(' || c == ')'
  }

  predicate IsWordChar(c: char) {
    !IsSpace(c) && !IsSymbol(c)
  }

  // ----- the tokens of a string -----

  function Skip(s: string, i: nat): (j: nat)
    requires i <= |s|
    ensures i <= j <= |s| && (j < |s| ==> !IsSpace(s[j]))
    decreases |s| - i
  {
    if i < |s| && IsSpace(s[i]) then Skip(s, i + 1) else i
  }

  function WordEnd(s: string, i: nat): (e: nat)
    requires i <= |s|
    ensures i <= e <= |s| && (e < |s| ==> !IsWordChar(s[e]))
    ensures forall x :: i <= x < e ==> IsWordChar(s[x])
    decreases |s| - i
  {
    if i < |s| && IsWordChar(s[i]) then WordEnd(s, i + 1) else i
  }

  function Lex(s: string, i: nat): Tokens
    requires i <= |s|
    decreases |s| - i
  {
    var j := Skip(s, i);
    if j == |s| then Nil
    else if s[j] == '>' && j + 1 < |s| && s[j + 1] == '>' then Cons(Append, Lex(s, j + 2))
    else if IsSymbol(s[j]) then Cons(Sym(s[j]), Lex(s, j + 1))
    else Cons(Word(s[j..WordEnd(s, j)]), Lex(s, WordEnd(s, j)))
  }

  lemma LexSkip(s: string, i: nat)
    requires i <= |s|
    ensures Lex(s, Skip(s, i)) == Lex(s, i) && Skip(s, Skip(s, i)) == Skip(s, i)
  {}

  /** [q, eq) is a whole word of s. */
  predicate WordAt(s: string, q: nat, eq: nat) {
    q < eq <= |s| && (eq < |s| ==> !IsWordChar(s[eq])) && forall x :: q <= x < eq ==> IsWordChar(s[x])
  }

  /** The first token of s from i on is a symbol of toks; peek's test. */
  predicate FirstIn(s: string, i: nat, toks: string)
    requires i <= |s|
  {
    Skip(s, i) < |s| && s[Skip(s, i)] in toks
  }

  /** `peek`: the cursor moves over white space, which changes no token. */
  method Peek(s: string, i: nat, toks: string) returns (b: bool, j: nat)
    requires i <= |s|
    ensures i <= j <= |s| && j == Skip(s, i) && Lex(s, j) == Lex(s, i) && Skip(s, j) == j
    ensures b <==> FirstIn(s, i, toks)
  {
    LexSkip(s, i);
    j := SkipSpace(s, i);
    b := j < |s| && s[j] in toks;
  }

  /** The loop that passes over white space. */
  method SkipSpace(s: string, i: nat) returns (j: nat)
    requires i <= |s|
    ensures j == Skip(s, i)
  {
    j := i;
    while j < |s| && IsSpace(s[j])
      invariant i <= j <= |s| && Skip(s, j) == Skip(s, i)
    {
      j := j + 1;
    }
  }

  /** What gettoken returns for a token. */
  predicate Returned(t: Tok, s: string, ret: char, q: nat, eq: nat) {
    match t
    case Append => ret == '+'
    case Sym(c) => ret == c
    case Word(w) => ret == 'a' && WordAt(s, q, eq) && w == s[q..eq]
  }

  /** `gettoken`: the first token, and the cursor behind it and any white space. */
  method GetToken(s: string, i: nat) returns (ret: char, q: nat, eq: nat, j: nat)
    requires i <= |s|
    ensures i <= j <= |s| && q <= eq <= |s|
    ensures (ret == '\0' <==> Lex(s, i).Nil?) && (ret == '\0' ==> j == |s|)
    ensures ret == 'a' <==> Lex(s, i).Cons? && Lex(s, i).tok.Word?
    ensures Lex(s, i).Cons? ==> i < j && Returned(Lex(s, i).tok, s, ret, q, eq) && Lex(s, j) == Lex(s, i).rest
  {
    var t := SkipSpace(s, i);
    q := t;
    if t == |s| {
      ret := '\0';
    } else if s[t] == '>' {
      ret := '>';
      t := t + 1;
      if t < |s| && s[t] == '>' {
        ret := '+';
        t := t + 1;
      }
    } else if IsSymbol(s[t]) {
      ret := s[t];
      t := t + 1;
    } else {
      ret := 'a';
      while t < |s| && !IsSpace(s[t]) && !IsSymbol(s[t])
        invariant q <= t <= |s| && WordEnd(s, t) == WordEnd(s, q)
      {
        t := t + 1;
      }
    }
    eq := t;
    LexSkip(s, t);
    j := SkipSpace(s, t);
  }

  /** What peek's answers say about the next token. */
  lemma PeekMeans(s: string, i: nat)
    requires i <= |s|
    ensures FirstIn(s, i, "(") <==> Starts(Lex(s, i), '(')
    ensures FirstIn(s, i, ")") <==> Starts(Lex(s, i), ')')
    ensures FirstIn(s, i, "|") <==> Starts(Lex(s, i), '|')
    ensures FirstIn(s, i, "&") <==> Starts(Lex(s, i), '&')
    ensures FirstIn(s, i, ";") <==> Starts(Lex(s, i), ';')
    ensures FirstIn(s, i, "<>") <==> StartsRedir(Lex(s, i))
    ensures FirstIn(s, i, "|)&;") <==>
              var ts := Lex(s, i); Starts(ts, '|') || Starts(ts, ')') || Starts(ts, '&') || Starts(ts, ';')
  {}

  // ----- the tree of pointers -----

  datatype Span = Span(q: nat, eq: nat)

  datatype Node =
    | ExecNode(args: seq<Span>)
    | RedirNode(sub: Node, file: Span, mode: Mode)
    | PipeNode(left: Node, right: Node)
    | ListNode(left: Node, right: Node)
    | BackNode(sub: Node)

  predicate SpanOk(s: string, w: Span) {
    WordAt(s, w.q, w.eq)
  }

  predicate NodeOk(s: string, n: Node) {
    match n
    case ExecNode(args) => forall i :: 0 <= i < |args| ==> SpanOk(s, args[i])
    case RedirNode(sub, file, mode) => NodeOk(s, sub) && SpanOk(s, file)
    case PipeNode(l, r) => NodeOk(s, l) && NodeOk(s, r)
    case ListNode(l, r) => NodeOk(s, l) && NodeOk(s, r)
    case BackNode(sub) => NodeOk(s, sub)
  }

  function WordOf(s: string, w: Span): string
    requires SpanOk(s, w)
  {
    s[w.q..w.eq]
  }

  function WordsOf(s: string, ws: seq<Span>): (r: seq<string>)
    requires forall i :: 0 <= i < |ws| ==> SpanOk(s, ws[i])
    ensures |r| == |ws| && forall i :: 0 <= i < |ws| ==> r[i] == WordOf(s, ws[i])
  {
    seq(|ws|, i requires 0 <= i < |ws| => WordOf(s, ws[i]))
  }

  /** The command that a tree of pointers into s stands for. */
  function Text(s: string, n: Node): Cmd
    requires NodeOk(s, n)
  {
    match n
    case ExecNode(args) => Exec(WordsOf(s, args))
    case RedirNode(sub, file, mode) => Redir(Text(s, sub), WordOf(s, file), mode)
    case PipeNode(l, r) => Pipe(Text(s, l), Text(s, r))
    case ListNode(l, r) => List(Text(s, l), Text(s, r))
    case BackNode(sub) => Back(Text(s, sub))
  }

  datatype Parsed = Parsed(node: Node, j: nat) | Failed

  /** The parser on characters did what the grammar on tokens says. */
  ghost predicate Agrees(s: string, r: Parsed, t: Result) {
    && (r.Failed? <==> t.Panic?)
    && (r.Parsed? && t.Ok? ==>
          r.j <= |s| && NodeOk(s, r.node) && t.cmd == Text(s, r.node) && t.rest == Lex(s, r.j))
  }

  // ----- redirections -----

  /** `parseredirs`: each redirection becomes a node around the command as it is found. */
  method ParseRedirs(s: string, i: nat, cmd: Node) returns (r: Parsed)
    requires i <= |s| && NodeOk(s, cmd)
    ensures Agrees(s, r, Redirs(Text(s, cmd), Lex(s, i))) && (r.Parsed? ==> i <= r.j && !StartsRedir(Lex(s, r.j)))
  {
    hide FirstIn, Lex;
    var n, j := cmd, i;
    var more;
    PeekMeans(s, j);
    more, j := Peek(s, j, "<>");
    while more
      invariant i <= j <= |s| && NodeOk(s, n) && (more <==> StartsRedir(Lex(s, j)))
      invariant Redirs(Text(s, cmd), Lex(s, i)) == Redirs(Text(s, n), Lex(s, j))
      decreases |s| - j
    {
      var tok, q, eq, k := GetToken(s, j);
      var ret, q2, eq2, k2 := GetToken(s, k);
      if ret != 'a' { return Failed; }
      n := RedirNode(n, Span(q2, eq2), if tok == '<' then In else if tok == '>' then Out else App);
      PeekMeans(s, k2);
      more, j := Peek(s, k2, "<>");
    }
    return Parsed(n, j);
  }

  // ----- recursive descent -----

  /** The tree ret after parseexec stored args through its own pointer to the innermost node. */
  function FillArgs(ret: Node, args: seq<Span>): Node {
    match ret
    case ExecNode(_) => ExecNode(args)
    case RedirNode(sub, file, mode) => RedirNode(FillArgs(sub, args), file, mode)
    case _ => ret
  }

  lemma {:induction false} FillText(s: string, ret: Node, args: seq<Span>)
    requires NodeOk(s, ret) && forall x :: 0 <= x < |args| ==> SpanOk(s, args[x])
    ensures NodeOk(s, FillArgs(ret, args)) && Text(s, FillArgs(ret, args)) == WithArgs(Text(s, ret), WordsOf(s, args))
  {
    if ret.RedirNode? { FillText(s, ret.sub, args); }
  }

  /** `parseexec` where no block begins: at most MAXARGS - 1 words, with redirections anywhere
      among them. */
  method ParseArgs(s: string, i: nat) returns (r: Parsed)
    requires i <= |s|
    ensures Agrees(s, r, Plain(Lex(s, i))) && (r.Parsed? ==> i <= r.j)
  {
    hide FirstIn, Lex, Redirs, Text, WithArgs;
    var args: seq<Span> := [];
    NoWords(s);
    r := ParseRedirs(s, i, ExecNode([]));
    if r.Failed? { return; }
    var ret, j, done := r.node, r.j, false;
    PeekMeans(s, j);
    done, j := Peek(s, j, "|)&;");
    while !done
      invariant i <= j <= |s| && NodeOk(s, ret) && |args| < MAXARGS
      invariant forall x :: 0 <= x < |args| ==> SpanOk(s, args[x])
      invariant done <==> var ts := Lex(s, j); Starts(ts, '|') || Starts(ts, ')') || Starts(ts, '&') || Starts(ts, ';')
      invariant Plain(Lex(s, i)) == Args(WordsOf(s, args), Text(s, ret), Lex(s, j))
      decreases |s| - j
    {
      var tok, q, eq, k := GetToken(s, j);
      if tok == '\0' { break; }
      if tok != 'a' { return Failed; }
      ghost var was := args;
      args := args + [Span(q, eq)];
      assert WordsOf(s, args) == WordsOf(s, was) + [WordOf(s, Span(q, eq))];
      if |args| >= MAXARGS { return Failed; }
      r := ParseRedirs(s, k, ret);
      if r.Failed? { return; }
      ret := r.node;
      PeekMeans(s, r.j);
      done, j := Peek(s, r.j, "|)&;");
    }
    FillText(s, ret, args);
    return Parsed(FillArgs(ret, args), j);
  }

  lemma NoWords(s: string)
    ensures NodeOk(s, ExecNode([])) && Text(s, ExecNode([])) == Exec([]) && WordsOf(s, []) == []
  {}

  /** `parseexec` and `parseblock`. */
  method ParseExec(s: string, i: nat) returns (r: Parsed)
    requires i <= |s|
    ensures Agrees(s, r, Simple(Lex(s, i))) && (r.Parsed? ==> i <= r.j)
    decreases |s| - i, 0
  {
    hide FirstIn, Lex, Plain, Line, Redirs;
    PeekMeans(s, i);
    var open, j := Peek(s, i, "(");
    if !open {
      r := ParseArgs(s, j);
      return;
    }
    var tok, q, eq, k := GetToken(s, j);
    r := ParseLine(s, k);
    if r.Failed? { return; }
    var n := r.node;
    PeekMeans(s, r.j);
    var close;
    close, j := Peek(s, r.j, ")");
    if !close { return Failed; }
    tok, q, eq, k := GetToken(s, j);
    r := ParseRedirs(s, k, n);
  }

  /** `parsepipe`. */
  method ParsePipe(s: string, i: nat) returns (r: Parsed)
    requires i <= |s|
    ensures Agrees(s, r, Pipeline(Lex(s, i))) && (r.Parsed? ==> i <= r.j)
    decreases |s| - i, 1
  {
    hide FirstIn, Lex, Simple;
    r := ParseExec(s, i);
    if r.Failed? { return; }
    var n := r.node;
    PeekMeans(s, r.j);
    var more, j := Peek(s, r.j, "|");
    if !more { return Parsed(n, j); }
    var tok, q, eq, k := GetToken(s, j);
    r := ParsePipe(s, k);
    if r.Failed? { return; }
    return Parsed(PipeNode(n, r.node), r.j);
  }

  /** `parseline`. */
  method ParseLine(s: string, i: nat) returns (r: Parsed)
    requires i <= |s|
    ensures Agrees(s, r, Line(Lex(s, i))) && (r.Parsed? ==> i <= r.j)
    decreases |s| - i, 2
  {
    hide FirstIn, Lex, Pipeline;
    r := ParsePipe(s, i);
    if r.Failed? { return; }
    var n := r.node;
    ghost var c, ts := Text(s, n), Lex(s, r.j);
    PeekMeans(s, r.j);
    var more, j := Peek(s, r.j, "&");
    while more
      invariant i <= j <= |s| && NodeOk(s, n) && (more <==> Starts(Lex(s, j), '&'))
      invariant Backs(c, ts) == Backs(Text(s, n), Lex(s, j))
      decreases |s| - j
    {
      var tok, q, eq, k := GetToken(s, j);
      n := BackNode(n);
      PeekMeans(s, k);
      more, j := Peek(s, k, "&");
    }
    PeekMeans(s, j);
    more, j := Peek(s, j, ";");
    if !more { return Parsed(n, j); }
    var tok, q, eq, k := GetToken(s, j);
    r := ParseLine(s, k);
    if r.Failed? { return; }
    return Parsed(ListNode(n, r.node), r.j);
  }

  /** `parsecmd` up to nulterminate: anything left over is a syntax error. */
  method ParseAll(s: string) returns (r: Parsed)
    ensures Agrees(s, r, Command(Lex(s, 0)))
  {
    hide FirstIn, Line;
    r := ParseLine(s, 0);
    if r.Failed? { return; }
    var b, j := Peek(s, r.j, "");
    if j != |s| { return Failed; }
    return Parsed(r.node, j);
  }

  // ----- NUL-termination -----

  /** b is the buffer of the NUL-free string s with NULs written over some characters that
      are in no word. */
  ghost predicate Marked(b: seq<char>, s: string) {
    && |b| == |s| + 1 && b[|s|] == '\0'
    && forall x :: 0 <= x < |s| ==> b[x] == s[x] || (b[x] == '\0' && !IsWordChar(s[x]))
  }

  ghost predicate Ended(b: seq<char>, w: Span) {
    w.eq < |b| && b[w.eq] == '\0'
  }

  /** Every word of the tree has a NUL behind it. */
  ghost predicate AllEnded(b: seq<char>, n: Node) {
    match n
    case ExecNode(args) => forall i :: 0 <= i < |args| ==> Ended(b, args[i])
    case RedirNode(sub, file, mode) => AllEnded(b, sub) && Ended(b, file)
    case PipeNode(l, r) => AllEnded(b, l) && AllEnded(b, r)
    case ListNode(l, r) => AllEnded(b, l) && AllEnded(b, r)
    case BackNode(sub) => AllEnded(b, sub)
  }

  /** NULs stay. */
  ghost predicate Keeps(b: seq<char>, c: seq<char>) {
    |b| == |c| && forall x :: 0 <= x < |b| && b[x] == '\0' ==> c[x] == '\0'
  }

  lemma {:induction false} EndedStays(b: seq<char>, c: seq<char>, n: Node)
    requires Keeps(b, c) && AllEnded(b, n)
    ensures AllEnded(c, n)
  {
    match n {
      case ExecNode(args) =>
        forall i | 0 <= i < |args| ensures Ended(c, args[i]) { assert Ended(b, args[i]); }
      case RedirNode(sub, file, mode) => EndedStays(b, c, sub);
      case PipeNode(l, r) => EndedStays(b, c, l); EndedStays(b, c, r);
      case ListNode(l, r) => EndedStays(b, c, l); EndedStays(b, c, r);
      case BackNode(sub) => EndedStays(b, c, sub);
    }
  }

  /** `nulterminate`. */
  method NulTerminate(buf: array<char>, n: Node, ghost s: string)
    requires NodeOk(s, n) && Marked(buf[..], s)
    modifies buf
    ensures Marked(buf[..], s) && AllEnded(buf[..], n) && Keeps(old(buf[..]), buf[..])
    decreases n
  {
    match n {
      case ExecNode(args) =>
        for i := 0 to |args|
          invariant Marked(buf[..], s) && Keeps(old(buf[..]), buf[..])
          invariant forall x :: 0 <= x < i ==> Ended(buf[..], args[x])
        {
          assert SpanOk(s, args[i]);
          buf[args[i].eq] := '\0';
        }
      case RedirNode(sub, file, mode) =>
        NulTerminate(buf, sub, s);
        ghost var b := buf[..];
        buf[file.eq] := '\0';
        EndedStays(b, buf[..], sub);
      case PipeNode(l, r) =>
        NulTerminate(buf, l, s);
        ghost var b := buf[..];
        NulTerminate(buf, r, s);
        EndedStays(b, buf[..], l);
      case ListNode(l, r) =>
        NulTerminate(buf, l, s);
        ghost var b := buf[..];
        NulTerminate(buf, r, s);
        EndedStays(b, buf[..], l);
      case BackNode(sub) =>
        NulTerminate(buf, sub, s);
    }
  }

  /** The C string at position q of b. */
  ghost predicate CString(b: seq<char>, q: nat, w: string) {
    q + |w| < |b| && b[q + |w|] == '\0' && forall x :: 0 <= x < |w| ==> b[q + x] == w[x] && w[x] != '\0'
  }

  /** After nulterminate, a word read as a C string is exactly its token. */
  lemma WordReads(b: seq<char>, s: string, w: Span)
    requires '\0' !in s && Marked(b, s) && SpanOk(s, w) && Ended(b, w)
    ensures CString(b, w.q, WordOf(s, w))
  {
    forall x | 0 <= x < |WordOf(s, w)| ensures b[w.q + x] == WordOf(s, w)[x] && WordOf(s, w)[x] != '\0' {
      assert IsWordChar(s[w.q + x]) && s[w.q + x] in s;
    }
  }

  /** Every word of the tree, read as a C string in b, is its token in s. */
  ghost predicate AllRead(b: seq<char>, s: string, n: Node)
    requires NodeOk(s, n)
  {
    match n
    case ExecNode(args) => forall i :: 0 <= i < |args| ==> CString(b, args[i].q, WordOf(s, args[i]))
    case RedirNode(sub, file, mode) => AllRead(b, s, sub) && CString(b, file.q, WordOf(s, file))
    case PipeNode(l, r) => AllRead(b, s, l) && AllRead(b, s, r)
    case ListNode(l, r) => AllRead(b, s, l) && AllRead(b, s, r)
    case BackNode(sub) => AllRead(b, s, sub)
  }

  lemma {:induction false} TreeReads(b: seq<char>, s: string, n: Node)
    requires '\0' !in s && Marked(b, s) && NodeOk(s, n) && AllEnded(b, n)
    ensures AllRead(b, s, n)
  {
    hide Marked, CString;
    match n {
      case ExecNode(args) =>
        forall i | 0 <= i < |args| ensures CString(b, args[i].q, WordOf(s, args[i])) {
          assert SpanOk(s, args[i]) && Ended(b, args[i]);
          WordReads(b, s, args[i]);
        }
      case RedirNode(sub, file, mode) => TreeReads(b, s, sub); WordReads(b, s, file);
      case PipeNode(l, r) => TreeReads(b, s, l); TreeReads(b, s, r);
      case ListNode(l, r) => TreeReads(b, s, l); TreeReads(b, s, r);
      case BackNode(sub) => TreeReads(b, s, sub);
    }
  }

  /** `parsecmd` on a buffer that holds the C string s: it fails exactly where the grammar
      does, and otherwise returns the grammar's tree, all of whose words are now C strings in
      the buffer. */
  method ParseCmd(buf: array<char>, s: string) returns (r: Parsed)
    requires '\0' !in s && buf[..] == s + ['\0']
    modifies buf
    ensures Agrees(s, r, Command(Lex(s, 0)))
    ensures r.Parsed? ==> NodeOk(s, r.node) && AllRead(buf[..], s, r.node)
  {
    hide Command, Lex, AllRead, AllEnded;
    r := ParseAll(s);
    if r.Parsed? {
      NulTerminate(buf, r.node, s);
      TreeReads(buf[..], s, r.node);
    }
  }

  // ----- text and tokens -----

  predicate WordText(w: string) {
    |w| > 0 && forall x :: 0 <= x < |w| ==> IsWordChar(w[x]) && w[x] != '\0'
  }

  predicate TokOk(t: Tok) {
    match t
    case Word(w) => WordText(w)
    case Sym(c) => IsSymbol(c)
    case Append => true
  }

  predicate TokensOk(ts: Tokens) {
    ts.Cons? ==> TokOk(ts.tok) && TokensOk(ts.rest)
  }

  function TokText(t: Tok): string {
    match t
    case Word(w) => w
    case Sym(c) => [c]
    case Append => ">>"
  }

  /** The tokens with a space behind each. */
  function Render(ts: Tokens): string {
    if ts.Nil? then [] else TokText(ts.tok) + [' '] + Render(ts.rest)
  }

  ghost predicate TextAt(s: string, i: nat, w: string) {
    i + |w| < |s| && s[i + |w|] == ' ' && forall x :: 0 <= x < |w| ==> s[i + x] == w[x]
  }

  /** From i on, s is the rendering of ts. */
  ghost predicate Spells(s: string, i: nat, ts: Tokens)
    decreases ts
  {
    if ts.Nil? then i == |s| else TextAt(s, i, TokText(ts.tok)) && Spells(s, i + |TokText(ts.tok)| + 1, ts.rest)
  }

  lemma TextAppended(pre: string, w: string, post: string)
    ensures TextAt(pre + w + [' '] + post, |pre|, w)
  {}

  lemma {:induction false} RenderSpells(pre: string, ts: Tokens)
    ensures Spells(pre + Render(ts), |pre|, ts)
    decreases ts
  {
    hide TextAt;
    if ts.Cons? {
      var w := TokText(ts.tok);
      TextAppended(pre, w, Render(ts.rest));
      RenderSpells(pre + w + [' '], ts.rest);
      Regroup(pre, w, [' '], Render(ts.rest));
    } else {
      assert pre + Render(ts) == pre;
    }
  }

  lemma Regroup(a: string, b: string, c: string, d: string)
    ensures a + b + c + d == a + (b + c + d) && |a + b + c| == |a| + |b| + |c|
  {}

  lemma {:induction false} WordEndAt(s: string, i: nat, e: nat)
    requires i <= e < |s| && !IsWordChar(s[e]) && forall x :: i <= x < e ==> IsWordChar(s[x])
    ensures WordEnd(s, i) == e
    decreases e - i
  {
    if i < e { WordEndAt(s, i + 1, e); }
  }

  lemma SpaceSkipped(s: string, i: nat)
    requires i < |s| && s[i] == ' '
    ensures Lex(s, i) == Lex(s, i + 1)
  {
    LexSkip(s, i);
    LexSkip(s, i + 1);
  }

  lemma FirstWord(s: string, i: nat, w: string)
    requires TextAt(s, i, w) && WordText(w)
    ensures Lex(s, i) == Cons(Word(w), Lex(s, i + |w|))
  {
    var e := i + |w|;
    forall x | i <= x < e ensures IsWordChar(s[x]) { assert s[i + (x - i)] == w[x - i]; }
    WordEndAt(s, i, e);
    assert s[i..e] == w;
  }

  lemma FirstSymbol(s: string, i: nat, t: Tok)
    requires TextAt(s, i, TokText(t)) && TokOk(t) && !t.Word?
    ensures Lex(s, i) == Cons(t, Lex(s, i + |TokText(t)|))
  {
    assert s[i + 0] == TokText(t)[0];
    if t.Append? { assert s[i + 1] == TokText(t)[1]; }
  }

  lemma {:induction false} LexSpelled(s: string, i: nat, ts: Tokens)
    requires i <= |s| && Spells(s, i, ts) && TokensOk(ts)
    ensures Lex(s, i) == ts
    decreases ts
  {
    hide Lex;
    if ts.Cons? {
      var e := i + |TokText(ts.tok)|;
      if ts.tok.Word? { FirstWord(s, i, ts.tok.w); } else { FirstSymbol(s, i, ts.tok); }
      SpaceSkipped(s, e);
      LexSpelled(s, e + 1, ts.rest);
    } else {
      LexEnd(s);
    }
  }

  lemma LexEnd(s: string)
    ensures Lex(s, |s|) == Nil
  {}

  predicate WordsOk(cmd: Cmd) {
    match cmd
    case Exec(args) => forall i :: 0 <= i < |args| ==> WordText(args[i])
    case Redir(c, file, mode) => WordsOk(c) && WordText(file)
    case Pipe(l, r) => WordsOk(l) && WordsOk(r)
    case List(l, r) => WordsOk(l) && WordsOk(r)
    case Back(c) => WordsOk(c)
  }

  lemma {:induction false} ArgTokensOk(args: seq<string>, i: nat, k: Tokens)
    requires i <= |args| && TokensOk(k) && forall x :: 0 <= x < |args| ==> WordText(args[x])
    ensures TokensOk(Words(args, i, k))
    decreases |args| - i
  {
    if i < |args| { ArgTokensOk(args, i + 1, k); }
  }

  lemma {:induction false} EmitOk(cmd: Cmd, k: Tokens)
    requires WordsOk(cmd) && TokensOk(k)
    ensures TokensOk(Emit(cmd, k))
    decreases cmd
  {
    match cmd {
      case Exec(args) => ArgTokensOk(args, 0, k);
      case Redir(c, file, mode) => EmitOk(c, Cons(Sym(')'), Cons(ModeTok(mode), Cons(Word(file), k))));
      case Pipe(l, r) =>
        EmitOk(r, Cons(Sym(')'), k));
        EmitOk(l, Cons(Sym(')'), Cons(Sym('|'), Block(Emit(r, Cons(Sym(')'), k))))));
      case List(l, r) =>
        EmitOk(r, Cons(Sym(')'), k));
        EmitOk(l, Cons(Sym(')'), Cons(Sym(';'), Block(Emit(r, Cons(Sym(')'), k))))));
      case Back(c) => EmitOk(c, Cons(Sym(')'), Cons(Sym('&'), k)));
    }
  }

  /** The fully parenthesised text of a command. */
  function Print(cmd: Cmd): string {
    Render(Emit(cmd, Nil))
  }

  /** Parser round trip: the text of a command tree whose words are words, with at most
      MAXARGS - 1 arguments each, is parsed as that very tree. */
  lemma PrintParses(cmd: Cmd)
    requires FewArgs(cmd) && WordsOk(cmd)
    ensures Command(Lex(Print(cmd), 0)) == Ok(cmd, Nil)
  {
    hide Lex, Line, Emit, Render, Spells, TokensOk, WordsOk, FewArgs;
    var ts := Emit(cmd, Nil);
    EmitOk(cmd, Nil);
    RenderSpells("", ts);
    assert "" + Render(ts) == Render(ts);
    LexSpelled(Render(ts), 0, ts);
    ReadBack(cmd, Nil);
  }

  lemma {:induction false} RenderClean(ts: Tokens)
    requires TokensOk(ts)
    ensures '\0' !in Render(ts)
    decreases ts
  {
    if ts.Cons? {
      RenderClean(ts.rest);
      assert '\0' !in TokText(ts.tok);
    }
  }

  /** parsecmd undoes Print: run on the text of a command, it builds the tree of that command
      and leaves its words in the buffer as C strings. */
  method ParsePrinted(cmd: Cmd) returns (r: Parsed, b: seq<char>)
    requires FewArgs(cmd) && WordsOk(cmd)
    ensures r.Parsed? && NodeOk(Print(cmd), r.node) && Text(Print(cmd), r.node) == cmd
    ensures AllRead(b, Print(cmd), r.node)
  {
    hide Command, Lex, AllRead, Emit, Render, Text;
    var s := Print(cmd);
    EmitOk(cmd, Nil);
    RenderClean(Emit(cmd, Nil));
    PrintParses(cmd);
    var buf := new char[|s| + 1](i requires 0 <= i <= |s| => if i < |s| then s[i] else '\0');
    assert buf[..] == s + ['\0'];
    r := ParseCmd(buf, s);
    b := buf[..];
  }
}
