/** Printing a command, with parentheses where the grammar needs them, and parsing it again. */
module ShellRoundTrip {
  import opened Params
  import opened ShellLexer
  import opened ShellParser

  // ---- printing as tokens

  function Core<W>(t: Cmd<W>): (c: Cmd<W>)
    ensures !c.Redir?
  {
    if t.Redir? then Core(t.cmd) else t
  }

  function RedirsOf<W>(t: Cmd<W>): Redirs<W> {
    if t.Redir? then RedirsOf(t.cmd) + [To(t.file, t.kind)] else []
  }

  lemma {:induction false} WrapCore<W>(t: Cmd<W>)
    ensures Wrap(Core(t), RedirsOf(t)) == t
  {
    if t.Redir? {
      WrapCore(t.cmd);
      WrapMore(Core(t), RedirsOf(t.cmd), To(t.file, t.kind));
    }
  }

  function SymOf(k: Kind): char {
    match k case In => '<' case Out => '>' case Append => '+'
  }

  function RedirToks<W>(rs: Redirs<W>): seq<Tok<W>> {
    if rs == [] then [] else [Sym(SymOf(rs[0].kind)), Word(rs[0].file)] + RedirToks(rs[1..])
  }

  function ArgToks<W>(args: seq<W>): seq<Tok<W>> {
    if args == [] then [] else [Word(args[0])] + ArgToks(args[1..])
  }

  /** Which of the printers below hands t on to which: the one for its own constructor comes last. */
  function Rank<W>(t: Cmd<W>, level: nat): nat {
    var own := match t case Exec(_) => 0 case Redir(_, _, _) => 0 case Pipe(_, _) => 1 case Back(_) => 2 case List(_,
        _) => 3;
    if level >= own then level - own else level + 4 - own
  }

  function ExecToks<W>(t: Cmd<W>): seq<Tok<W>>
    decreases t, Rank(t, 0)
  {
    var c := Core(t);
    CoreSmaller(t);
    (if c.Exec? then ArgToks(c.args) else [Sym('(')] + LineToks(c) + [Sym(')')]) + RedirToks(RedirsOf(t))
  }

  lemma {:induction false} CoreSmaller<W>(t: Cmd<W>)
    ensures Core(t) == t || (t decreases to Core(t))
  {
    if t.Redir? { CoreSmaller(t.cmd); }
  }

  function PipeToks<W>(t: Cmd<W>): seq<Tok<W>>
    decreases t, Rank(t, 1)
  {
    if t.Pipe? then ExecToks(t.left) + [Sym('|')] + PipeToks(t.right) else ExecToks(t)
  }

  function BackToks<W>(t: Cmd<W>): seq<Tok<W>>
    decreases t, Rank(t, 2)
  {
    if t.Back? then BackToks(t.cmd) + [Sym('&')] else PipeToks(t)
  }

  function LineToks<W>(t: Cmd<W>): seq<Tok<W>>
    decreases t, Rank(t, 3)
  {
    if t.List? then BackToks(t.left) + [Sym(';')] + LineToks(t.right) else BackToks(t)
  }

  /** At most nine arguments in each exec. */
  predicate Legal<W>(t: Cmd<W>) {
    match t
    case Exec(args) => |args| < MAXARGS
    case Redir(c, _, _) => Legal(c)
    case Pipe(l, r) => Legal(l) && Legal(r)
    case List(l, r) => Legal(l) && Legal(r)
    case Back(c) => Legal(c)
  }

  lemma {:induction false} LegalCore<W>(t: Cmd<W>)
    requires Legal(t)
    ensures Legal(Core(t))
  {
    if t.Redir? { LegalCore(t.cmd); }
  }

  // ---- parsing the tokens again

  predicate Follows<W>(ts: seq<Tok<W>>, chars: set<char>) {
    ts == [] || Starts(ts, chars)
  }

  lemma OneRedirAgain<W>(x: To<W>, ts: seq<Tok<W>>)
    requires ParseRedirs(ts).Ok?
    ensures ParseRedirs([Sym(SymOf(x.kind)), Word(x.file)] + ts) == Ok([x] + ParseRedirs(ts).v, ParseRedirs(ts).rest)
  {
    var all: seq<Tok<W>> := [Sym(SymOf(x.kind)), Word(x.file)] + ts;
    assert all[2..] == ts && all[0] == Sym(SymOf(x.kind)) && all[1] == Word(x.file);
    OneRedirParsed(all, x, ts);
  }

  lemma OneRedirParsed<W>(all: seq<Tok<W>>, x: To<W>, ts: seq<Tok<W>>)
    requires |all| >= 2 && all[2..] == ts && all[0] == Sym(SymOf(x.kind)) && all[1] == Word(x.file)
             && ParseRedirs(ts).Ok?
    ensures ParseRedirs(all) == Ok([x] + ParseRedirs(ts).v, ParseRedirs(ts).rest)
  {
    assert x == To(x.file, KindOf(SymOf(x.kind)));
  }

  lemma {:induction false} RedirsAgain<W>(rs: Redirs<W>, rest: seq<Tok<W>>)
    requires !Starts(rest, {'<', '>'})
    ensures ParseRedirs(RedirToks(rs) + rest) == Ok(rs, rest)
  {
    if rs == [] {
      assert RedirToks(rs) + rest == rest;
    } else {
      RedirsAgain(rs[1..], rest);
      OneRedirAgain(rs[0], RedirToks(rs[1..]) + rest);
      Flat2([Sym(SymOf(rs[0].kind)), Word(rs[0].file)], RedirToks(rs[1..]), rest);
      assert rs == [rs[0]] + rs[1..];
    }
  }

  /** One turn of parseexec's loop. */
  lemma OneArgAgain<W>(done: seq<W>, x: W, ts: seq<Tok<W>>, rs: Redirs<W>, rest: seq<Tok<W>>)
    requires |done| + 1 < MAXARGS && ParseRedirs(ts) == Ok(rs, rest)
    ensures ParseArgs(done, [], [Word(x)] + ts) == ParseArgs(done + [x], rs, rest)
  {
    var all := [Word(x)] + ts;
    assert all[1..] == ts && [] + rs == rs;
  }

  lemma ArgsStop<W>(args: seq<W>, rs: Redirs<W>, rest: seq<Tok<W>>)
    requires Follows(rest, {'|', ')', '&', ';'})
    ensures ParseArgs(args, rs, rest) == Ok(Wrap(Exec(args), rs), rest)
  {
  }

  lemma {:induction false} ArgsAgain<W>(done: seq<W>, args: seq<W>, tail: seq<Tok<W>>, rs: Redirs<W>, rest: seq<Tok<W>>)
    requires args != [] && |done| + |args| < MAXARGS && Follows(rest, {'|', ')', '&', ';'})
             && ParseRedirs(tail) == Ok(rs, rest)
    ensures ParseArgs(done, [], ArgToks(args) + tail) == Ok(Wrap(Exec(done + args), rs), rest)
    decreases |args|
  {
    var x, more := args[0], args[1..];
    Flat2([Word(x)], ArgToks(more), tail);
    assert done + [x] + more == done + args;
    if more == [] {
      assert ArgToks(more) + tail == tail && done + args == done + [x];
      OneArgAgain(done, x, tail, rs, rest);
      ArgsStop(done + args, rs, rest);
    } else {
      assert (ArgToks(more) + tail)[0] == Word(more[0]);
      OneArgAgain(done, x, ArgToks(more) + tail, [], ArgToks(more) + tail);
      ArgsAgain(done + [x], more, tail, rs, rest);
    }
  }

  lemma SimpleAgain<W>(args: seq<W>, rs: Redirs<W>, rest: seq<Tok<W>>)
    requires |args| < MAXARGS && Follows(rest, {'|', ')', '&', ';'})
    ensures ParseExec(ArgToks(args) + (RedirToks(rs) + rest)) == Ok(Wrap(Exec(args), rs), rest)
  {
    var tail := RedirToks(rs) + rest;
    RedirsAgain(rs, rest);
    if args == [] {
      assert ArgToks(args) + tail == tail;
      NoBlock(rs, rest);
    } else {
      ArgsAgain([], args, tail, rs, rest);
      assert [] + args == args && (ArgToks(args) + tail)[0] == Word(args[0]);
    }
  }

  lemma NoBlock<W>(rs: Redirs<W>, rest: seq<Tok<W>>)
    requires Follows(rest, {'|', ')', '&', ';'})
    ensures !Starts(RedirToks(rs) + rest, {'('})
  {
    if rs == [] { assert RedirToks(rs) + rest == rest; }
  }

  /** A block in parentheses, with its redirections. */
  lemma BlockAgain<W>(c: Cmd<W>, line: seq<Tok<W>>, rs: Redirs<W>, rest: seq<Tok<W>>)
    requires !Starts(rest, {'<', '>'})
    requires ParseLine(line + ([Sym(')')] + (RedirToks(rs) + rest))) == Ok(c, [Sym(')')] + (RedirToks(rs) + rest))
    ensures ParseExec([Sym('(')] + (line + ([Sym(')')] + (RedirToks(rs) + rest)))) == Ok(Wrap(c, rs), rest)
  {
    var tail := RedirToks(rs) + rest;
    var inner := line + ([Sym(')')] + tail);
    var ts := [Sym('(')] + inner;
    assert ts[1..] == inner && ([Sym(')')] + tail)[1..] == tail;
    RedirsAgain(rs, rest);
    assert ParseExec(ts) == ParseBlock(ts);
  }

  lemma {:induction false} ExecAgain<W>(t: Cmd<W>, rest: seq<Tok<W>>)
    requires Legal(t) && Follows(rest, {'|', ')', '&', ';'})
    ensures ParseExec(ExecToks(t) + rest) == Ok(t, rest)
    decreases t, Rank(t, 0)
  {
    var c, rs := Core(t), RedirsOf(t);
    WrapCore(t);
    LegalCore(t);
    CoreSmaller(t);
    var tail := RedirToks(rs) + rest;
    ExecShape(t, rest);
    if c.Exec? {
      SimpleAgain(c.args, rs, rest);
    } else {
      LineAgain(c, [Sym(')')] + tail);
      BlockAgain(c, LineToks(c), rs, rest);
    }
  }

  lemma ExecShape<W>(t: Cmd<W>, rest: seq<Tok<W>>)
    ensures var c, tail := Core(t), RedirToks(RedirsOf(t)) + rest;
            ExecToks(t) + rest == if c.Exec? then ArgToks(c.args) + tail
                else [Sym('(')] + (LineToks(c) + ([Sym(')')] + tail))
  {
    var c := Core(t);
    if c.Exec? {
      Flat2(ArgToks(c.args), RedirToks(RedirsOf(t)), rest);
    } else {
      Flat5([Sym('(')], LineToks(c), [Sym(')')], RedirToks(RedirsOf(t)), rest);
    }
  }

  lemma Flat2<T>(a: seq<T>, b: seq<T>, c: seq<T>)
    ensures a + b + c == a + (b + c)
  {
  }

  lemma Flat5<T>(a: seq<T>, b: seq<T>, c: seq<T>, d: seq<T>, e: seq<T>)
    ensures a + b + c + d + e == a + (b + (c + (d + e)))
  {
    Flat2(a + b + c, d, e);
    Flat2(a + b, c, d + e);
    Flat2(a, b, c + (d + e));
  }

  lemma {:induction false} PipeAgain<W>(t: Cmd<W>, rest: seq<Tok<W>>)
    requires Legal(t) && Follows(rest, {')', '&', ';'})
    ensures ParsePipe(PipeToks(t) + rest) == Ok(t, rest)
    decreases t, Rank(t, 1)
  {
    if t.Pipe? {
      var tail := [Sym('|')] + (PipeToks(t.right) + rest);
      ExecAgain(t.left, tail);
      assert PipeToks(t) + rest == ExecToks(t.left) + tail;
      assert tail[1..] == PipeToks(t.right) + rest;
      PipeAgain(t.right, rest);
    } else {
      ExecAgain(t, rest);
    }
  }

  /** The pipeline, then the '&'s: what parseline has after its loop. */
  lemma {:induction false} BackAgain<W>(t: Cmd<W>, rest: seq<Tok<W>>)
    requires Legal(t) && Follows(rest, {')', '&', ';'})
    ensures var p := ParsePipe(BackToks(t) + rest); p.Ok? && ParseBacks(p.v, p.rest) == ParseBacks(t, rest)
    decreases t, Rank(t, 2)
  {
    if t.Back? {
      var tail := [Sym('&')] + rest;
      BackAgain(t.cmd, tail);
      assert BackToks(t) + rest == BackToks(t.cmd) + tail;
      assert tail[1..] == rest;
    } else {
      PipeAgain(t, rest);
    }
  }

  lemma {:induction false} LineAgain<W>(t: Cmd<W>, rest: seq<Tok<W>>)
    requires Legal(t) && Follows(rest, {')'})
    ensures ParseLine(LineToks(t) + rest) == Ok(t, rest)
    decreases t, Rank(t, 3)
  {
    if t.List? {
      var tail := [Sym(';')] + (LineToks(t.right) + rest);
      BackAgain(t.left, tail);
      assert LineToks(t) + rest == BackToks(t.left) + tail;
      assert tail[1..] == LineToks(t.right) + rest;
      LineAgain(t.right, rest);
    } else {
      BackAgain(t, rest);
    }
  }

  /** Parsing the printed tokens of any legal command gives that command back. */
  lemma TokensAgain<W>(t: Cmd<W>)
    requires Legal(t)
    ensures ParseAll(LineToks(t)) == Some(t)
  {
    LineAgain(t, []);
    assert LineToks(t) + [] == LineToks(t);
  }
}
