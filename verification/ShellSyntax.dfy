/** The shell's grammar on tokens: what sh.c's recursive descent accepts, the text that a
    command tree is written as, and that reading it back gives the same tree. */
module ShellSyntax {
  const MAXARGS := 10

  datatype Tok = Word(w: string) | Sym(c: char) | Append    // Append: >>

  datatype Tokens = Nil | Cons(tok: Tok, rest: Tokens)

  datatype Mode = In | Out | App                            // <, >, >>

  datatype Cmd =
    | Exec(args: seq<string>)
    | Redir(cmd: Cmd, file: string, mode: Mode)
    | Pipe(left: Cmd, right: Cmd)
    | List(left: Cmd, right: Cmd)
    | Back(cmd: Cmd)

  /** Panic stands for sh.c's panics: syntax, a missing file or ), too many arguments. */
  datatype Result = Ok(cmd: Cmd, rest: Tokens) | Panic

  function Len(ts: Tokens): nat {
    if ts.Nil? then 0 else 1 + Len(ts.rest)
  }

  predicate Starts(ts: Tokens, c: char) {
    ts.Cons? && ts.tok == Sym(c)
  }

  predicate StartsRedir(ts: Tokens) {
    Starts(ts, '<') || Starts(ts, '>') || (ts.Cons? && ts.tok.Append?)
  }

  function ModeOf(t: Tok): Mode {
    if t == Sym('<') then In else if t == Sym('>') then Out else App
  }

  function ModeTok(m: Mode): Tok {
    match m
    case In => Sym('<')
    case Out => Sym('>')
    case App => Append
  }

  /** parseredirs. */
  function Redirs(cmd: Cmd, ts: Tokens): (r: Result)
    ensures r.Ok? ==> Len(r.rest) <= Len(ts) && !StartsRedir(r.rest)
    decreases ts
  {
    if !StartsRedir(ts) then Ok(cmd, ts)
    else if ts.rest.Nil? || !ts.rest.tok.Word? then Panic
    else Redirs(Redir(cmd, ts.rest.tok.w, ModeOf(ts.tok)), ts.rest.rest)
  }

  /** ret, whose innermost command is the one parseexec fills in, with these arguments. */
  function WithArgs(ret: Cmd, args: seq<string>): Cmd {
    match ret
    case Exec(_) => Exec(args)
    case Redir(c, file, mode) => Redir(WithArgs(c, args), file, mode)
    case _ => ret
  }

  /** The loop of parseexec: args are the arguments so far, and ret is the command with the
      redirections found so far around it. */
  function Args(args: seq<string>, ret: Cmd, ts: Tokens): (r: Result)
    ensures r.Ok? ==> Len(r.rest) <= Len(ts)
    decreases Len(ts)
  {
    if ts.Nil? || Starts(ts, '|') || Starts(ts, ')') || Starts(ts, '&') || Starts(ts, ';') then
      Ok(WithArgs(ret, args), ts)
    else if !ts.tok.Word? || |args| + 1 >= MAXARGS then Panic
    else
      var r := Redirs(ret, ts.rest);
      if r.Panic? then Panic else Args(args + [ts.tok.w], r.cmd, r.rest)
  }

  /** parseexec where no block begins. */
  function Plain(ts: Tokens): (r: Result)
    ensures r.Ok? ==> Len(r.rest) <= Len(ts)
  {
    var r := Redirs(Exec([]), ts);
    if r.Panic? then Panic else Args([], r.cmd, r.rest)
  }

  /** parseexec and parseblock. */
  function Simple(ts: Tokens): (r: Result)
    ensures r.Ok? ==> Len(r.rest) <= Len(ts)
    decreases Len(ts), 0
  {
    if Starts(ts, '(') then
      var r := Line(ts.rest);
      if r.Panic? || !Starts(r.rest, ')') then Panic else Redirs(r.cmd, r.rest.rest)
    else Plain(ts)
  }

  /** parsepipe. */
  function Pipeline(ts: Tokens): (r: Result)
    ensures r.Ok? ==> Len(r.rest) <= Len(ts)
    decreases Len(ts), 1
  {
    var r := Simple(ts);
    if r.Panic? || !Starts(r.rest, '|') then r
    else
      var q := Pipeline(r.rest.rest);
      if q.Panic? then Panic else Ok(Pipe(r.cmd, q.cmd), q.rest)
  }

  /** The & loop of parseline. */
  function Backs(cmd: Cmd, ts: Tokens): (r: Result)
    ensures r.Ok? && Len(r.rest) <= Len(ts) && !Starts(r.rest, '&')
    decreases ts
  {
    if Starts(ts, '&') then Backs(Back(cmd), ts.rest) else Ok(cmd, ts)
  }

  /** parseline. */
  function Line(ts: Tokens): (r: Result)
    ensures r.Ok? ==> Len(r.rest) <= Len(ts)
    decreases Len(ts), 2
  {
    var r := Pipeline(ts);
    if r.Panic? then Panic
    else
      var b := Backs(r.cmd, r.rest);
      if !Starts(b.rest, ';') then b
      else
        var q := Line(b.rest.rest);
        if q.Panic? then Panic else Ok(List(b.cmd, q.cmd), q.rest)
  }

  /** parsecmd: nothing may be left over. */
  function Command(ts: Tokens): Result {
    var r := Line(ts);
    if r.Ok? && r.rest.Nil? then r else Panic
  }

  // ----- writing a tree and reading it back -----

  function Words(args: seq<string>, i: nat, k: Tokens): Tokens
    requires i <= |args|
    decreases |args| - i
  {
    if i == |args| then k else Cons(Word(args[i]), Words(args, i + 1, k))
  }

  function Block(body: Tokens): Tokens {
    Cons(Sym('('), body)
  }

  /** cmd, fully parenthesised, in front of k. */
  function Emit(cmd: Cmd, k: Tokens): Tokens {
    match cmd
    case Exec(args) => Words(args, 0, k)
    case Redir(c, file, mode) => Block(Emit(c, Cons(Sym(')'), Cons(ModeTok(mode), Cons(Word(file), k)))))
    case Pipe(l, r) => Block(Emit(l, Cons(Sym(')'), Cons(Sym('|'), Block(Emit(r, Cons(Sym(')'), k)))))))
    case List(l, r) => Block(Emit(l, Cons(Sym(')'), Cons(Sym(';'), Block(Emit(r, Cons(Sym(')'), k)))))))
    case Back(c) => Block(Emit(c, Cons(Sym(')'), Cons(Sym('&'), k))))
  }

  /** No command has too many arguments. */
  predicate FewArgs(cmd: Cmd) {
    match cmd
    case Exec(args) => |args| < MAXARGS
    case Redir(c, file, mode) => FewArgs(c)
    case Pipe(l, r) => FewArgs(l) && FewArgs(r)
    case List(l, r) => FewArgs(l) && FewArgs(r)
    case Back(c) => FewArgs(c)
  }

  predicate Ends(k: Tokens) {
    k.Nil? || Starts(k, ')')
  }

  lemma {:induction false} WordsRead(args: seq<string>, i: nat, k: Tokens)
    requires i <= |args| < MAXARGS && Ends(k)
    ensures Args(args[..i], Exec([]), Words(args, i, k)) == Ok(Exec(args), k) && !StartsRedir(Words(args, i, k))
    decreases |args| - i
  {
    if i < |args| {
      assert args[..i] + [args[i]] == args[..i + 1];
      WordsRead(args, i + 1, k);
    } else {
      assert args[..i] == args;
    }
  }

  /** A parenthesised tree is read as one simple command. */
  lemma BlockRead(c: Cmd, k: Tokens)
    requires Line(Emit(c, Cons(Sym(')'), k))) == Ok(c, Cons(Sym(')'), k))
    ensures Simple(Block(Emit(c, Cons(Sym(')'), k)))) == Redirs(c, k)
  {}

  lemma RedirRead(c: Cmd, file: string, mode: Mode, k: Tokens)
    requires !StartsRedir(k)
    ensures Redirs(c, Cons(ModeTok(mode), Cons(Word(file), k))) == Ok(Redir(c, file, mode), k)
  {
    assert Redirs(Redir(c, file, mode), k) == Ok(Redir(c, file, mode), k);
  }

  /** A simple command in front of ) or the end is a whole line. */
  lemma LoneLine(ts: Tokens, c: Cmd, k: Tokens)
    requires Simple(ts) == Ok(c, k) && Ends(k)
    ensures Pipeline(ts) == Ok(c, k) && Line(ts) == Ok(c, k)
  {
    hide Simple;
    assert Backs(c, k) == Ok(c, k);
  }

  lemma PipeRead(l: Cmd, r: Cmd, ts: Tokens, us: Tokens, k: Tokens)
    requires Simple(ts) == Ok(l, Cons(Sym('|'), us)) && Pipeline(us) == Ok(r, k) && Ends(k)
    ensures Line(ts) == Ok(Pipe(l, r), k)
  {
    hide Simple;
    assert Pipeline(ts) == Ok(Pipe(l, r), k);
    assert Backs(Pipe(l, r), k) == Ok(Pipe(l, r), k);
  }

  lemma ListRead(l: Cmd, r: Cmd, ts: Tokens, us: Tokens, k: Tokens)
    requires Simple(ts) == Ok(l, Cons(Sym(';'), us)) && Line(us) == Ok(r, k)
    ensures Line(ts) == Ok(List(l, r), k)
  {
    hide Simple;
    assert Pipeline(ts) == Ok(l, Cons(Sym(';'), us));
    assert Backs(l, Cons(Sym(';'), us)) == Ok(l, Cons(Sym(';'), us));
  }

  lemma BackRead(c: Cmd, ts: Tokens, k: Tokens)
    requires Simple(ts) == Ok(c, Cons(Sym('&'), k)) && Ends(k)
    ensures Line(ts) == Ok(Back(c), k)
  {
    hide Simple;
    assert Pipeline(ts) == Ok(c, Cons(Sym('&'), k));
    assert Backs(Back(c), k) == Ok(Back(c), k);
    assert Backs(c, Cons(Sym('&'), k)) == Backs(Back(c), k);
  }

  /** Round trip: the text of a tree, in front of a ) or the end, is read as that tree and
      nothing more. */
  lemma {:induction false} ReadBack(cmd: Cmd, k: Tokens)
    requires FewArgs(cmd) && Ends(k)
    ensures Line(Emit(cmd, k)) == Ok(cmd, k)
    decreases cmd
  {
    hide Line, Pipeline, Backs;
    match cmd {
      case Exec(args) =>
        WordsRead(args, 0, k);
        assert args[..0] == [];
        LoneLine(Emit(cmd, k), cmd, k);
      case Redir(c, file, mode) =>
        var k2 := Cons(ModeTok(mode), Cons(Word(file), k));
        ReadBack(c, Cons(Sym(')'), k2));
        BlockRead(c, k2);
        RedirRead(c, file, mode, k);
        LoneLine(Emit(cmd, k), cmd, k);
      case Pipe(l, r) =>
        var us := Block(Emit(r, Cons(Sym(')'), k)));
        ReadBack(r, Cons(Sym(')'), k));
        BlockRead(r, k);
        LoneLine(us, r, k);
        ReadBack(l, Cons(Sym(')'), Cons(Sym('|'), us)));
        BlockRead(l, Cons(Sym('|'), us));
        PipeRead(l, r, Emit(cmd, k), us, k);
      case List(l, r) =>
        var us := Block(Emit(r, Cons(Sym(')'), k)));
        ReadBack(r, Cons(Sym(')'), k));
        BlockRead(r, k);
        LoneLine(us, r, k);
        ReadBack(l, Cons(Sym(')'), Cons(Sym(';'), us)));
        BlockRead(l, Cons(Sym(';'), us));
        ListRead(l, r, Emit(cmd, k), us, k);
      case Back(c) =>
        ReadBack(c, Cons(Sym(')'), Cons(Sym('&'), k)));
        BlockRead(c, Cons(Sym('&'), k));
        BackRead(c, Emit(cmd, k), k);
    }
  }
}
