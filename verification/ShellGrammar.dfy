/** The grammar user/sh.c accepts, as syntax trees: exactly their token sequences parse, and to what they mean. */
module ShellGrammar {
  import opened Params
  import opened ShellLexer
  import opened ShellParser
  import opened ShellRoundTrip

  /** A word or a redirection; a command has them in any order. */
  datatype Item<W> = Arg(w: W) | Into(to: To<W>)

  datatype Exec'<W> = Plain(items: seq<Item<W>>) | Block(line: Line'<W>, tos: Redirs<W>)

  datatype Pipe'<W> = One(exec: Exec'<W>) | Bar(exec: Exec'<W>, more: Pipe'<W>)

  /** A pipeline with its '&'s, and what follows a ';'. */
  datatype Line'<W> = Last(pipe: Pipe'<W>, backs: nat) | Semi(pipe: Pipe'<W>, backs: nat, more: Line'<W>)

  // ---- tokens

  function ItemTok<W>(item: Item<W>): seq<Tok<W>> {
    match item case Arg(w) => [Word(w)] case Into(to) => [Sym(SymOf(to.kind)), Word(to.file)]
  }

  function ItemToks<W>(items: seq<Item<W>>): seq<Tok<W>> {
    if items == [] then [] else ItemTok(items[0]) + ItemToks(items[1..])
  }

  function Ands<W>(n: nat): seq<Tok<W>> {
    if n == 0 then [] else [Sym('&')] + Ands(n - 1)
  }

  function ExecText<W>(e: Exec'<W>): seq<Tok<W>> {
    match e
    case Plain(items) => ItemToks(items)
    case Block(line, tos) => [Sym('(')] + (LineText(line) + ([Sym(')')] + RedirToks(tos)))
  }

  function PipeText<W>(p: Pipe'<W>): seq<Tok<W>> {
    match p
    case One(e) => ExecText(e)
    case Bar(e, more) => ExecText(e) + ([Sym('|')] + PipeText(more))
  }

  function LineText<W>(l: Line'<W>): seq<Tok<W>> {
    match l
    case Last(p, n) => PipeText(p) + Ands(n)
    case Semi(p, n, more) => PipeText(p) + (Ands(n) + ([Sym(';')] + LineText(more)))
  }

  // ---- meaning

  function ArgsIn<W>(items: seq<Item<W>>): seq<W> {
    if items == [] then [] else (if items[0].Arg? then [items[0].w] else []) + ArgsIn(items[1..])
  }

  function RedirsIn<W>(items: seq<Item<W>>): Redirs<W> {
    if items == [] then [] else (if items[0].Into? then [items[0].to] else []) + RedirsIn(items[1..])
  }

  function Backed<W>(c: Cmd<W>, n: nat): Cmd<W>
    decreases n
  {
    if n == 0 then c else Backed(Back(c), n - 1)
  }

  /** All words in order are the arguments; all redirections in order are around it, the last one outermost. */
  function ExecMeans<W>(e: Exec'<W>): Cmd<W> {
    match e
    case Plain(items) => Wrap(Exec(ArgsIn(items)), RedirsIn(items))
    case Block(line, tos) => Wrap(LineMeans(line), tos)
  }

  function PipeMeans<W>(p: Pipe'<W>): Cmd<W> {
    match p
    case One(e) => ExecMeans(e)
    case Bar(e, more) => Pipe(ExecMeans(e), PipeMeans(more))
  }

  function LineMeans<W>(l: Line'<W>): Cmd<W> {
    match l
    case Last(p, n) => Backed(PipeMeans(p), n)
    case Semi(p, n, more) => List(Backed(PipeMeans(p), n), LineMeans(more))
  }

  /** No command has more than nine arguments. */
  predicate ExecFits<W>(e: Exec'<W>) {
    match e case Plain(items) => |ArgsIn(items)| < MAXARGS case Block(line, _) => LineFits(line)
  }

  predicate PipeFits<W>(p: Pipe'<W>) {
    match p case One(e) => ExecFits(e) case Bar(e, more) => ExecFits(e) && PipeFits(more)
  }

  predicate LineFits<W>(l: Line'<W>) {
    match l case Last(p, _) => PipeFits(p) case Semi(p, _, more) => PipeFits(p) && LineFits(more)
  }

  // ---- what parses has a tree

  lemma {:induction false} RedirsDerive<W>(ts: seq<Tok<W>>)
    requires ParseRedirs(ts).Ok?
    ensures RedirToks(ParseRedirs(ts).v) + ParseRedirs(ts).rest == ts
    decreases |ts|
  {
    if Starts(ts, {'<', '>'}) {
      RedirsDerive(ts[2..]);
      var r := ParseRedirs(ts[2..]);
      assert ParseRedirs(ts).v[1..] == r.v;
      assert SymOf(KindOf(ts[0].c)) == ts[0].c;
      Flat2([ts[0], ts[1]], RedirToks(r.v), r.rest);
      assert ts == [ts[0], ts[1]] + ts[2..];
    } else {
      assert RedirToks<W>([]) + ts == ts;
    }
  }

  function Intos<W>(tos: Redirs<W>): (items: seq<Item<W>>)
    ensures |items| == |tos| && forall i :: 0 <= i < |tos| ==> items[i] == Into(tos[i])
  {
    seq(|tos|, i requires 0 <= i < |tos| => Into(tos[i]))
  }

  lemma {:induction false} IntosAre<W>(tos: Redirs<W>)
    ensures ItemToks(Intos(tos)) == RedirToks(tos) && ArgsIn(Intos(tos)) == [] && RedirsIn(Intos(tos)) == tos
  {
    if tos != [] {
      IntosAre(tos[1..]);
      assert Intos(tos)[1..] == Intos(tos[1..]);
      assert tos == [tos[0]] + tos[1..];
    }
  }

  lemma ItemsBoth<W>(a: seq<Item<W>>, b: seq<Item<W>>)
    ensures ItemToks(a + b) == ItemToks(a) + ItemToks(b)
    ensures ArgsIn(a + b) == ArgsIn(a) + ArgsIn(b) && RedirsIn(a + b) == RedirsIn(a) + RedirsIn(b)
  {
    ToksBoth(a, b);
    ArgsBoth(a, b);
    RedirsBoth(a, b);
  }

  lemma {:induction false} ToksBoth<W>(a: seq<Item<W>>, b: seq<Item<W>>)
    ensures ItemToks(a + b) == ItemToks(a) + ItemToks(b)
  {
    if a == [] {
      assert a + b == b;
    } else {
      ToksBoth(a[1..], b);
      assert (a + b)[1..] == a[1..] + b && (a + b)[0] == a[0];
      Flat2(ItemTok(a[0]), ItemToks(a[1..]), ItemToks(b));
    }
  }

  lemma {:induction false} ArgsBoth<W>(a: seq<Item<W>>, b: seq<Item<W>>)
    ensures ArgsIn(a + b) == ArgsIn(a) + ArgsIn(b)
  {
    if a == [] {
      assert a + b == b;
    } else {
      ArgsBoth(a[1..], b);
      assert (a + b)[1..] == a[1..] + b && (a + b)[0] == a[0];
      Flat2(if a[0].Arg? then [a[0].w] else [], ArgsIn(a[1..]), ArgsIn(b));
    }
  }

  lemma {:induction false} RedirsBoth<W>(a: seq<Item<W>>, b: seq<Item<W>>)
    ensures RedirsIn(a + b) == RedirsIn(a) + RedirsIn(b)
  {
    if a == [] {
      assert a + b == b;
    } else {
      RedirsBoth(a[1..], b);
      assert (a + b)[1..] == a[1..] + b && (a + b)[0] == a[0];
      Flat2(if a[0].Into? then [a[0].to] else [], RedirsIn(a[1..]), RedirsIn(b));
    }
  }

  lemma {:induction false} ArgsDerive<W>(args: seq<W>, rs: Redirs<W>, ts: seq<Tok<W>>) returns (items: seq<Item<W>>)
    requires ParseArgs(args, rs, ts).Ok? && |args| < MAXARGS
    ensures ItemToks(items) + ParseArgs(args, rs, ts).rest == ts && |args + ArgsIn(items)| < MAXARGS
    ensures ParseArgs(args, rs, ts).v == Wrap(Exec(args + ArgsIn(items)), rs + RedirsIn(items))
    decreases |ts|
  {
    if ts == [] || Starts(ts, {'|', ')', '&', ';'}) {
      items := [];
      assert args + ArgsIn(items) == args && rs + RedirsIn(items) == rs && ItemToks(items) + ts == ts;
    } else {
      var r := ParseRedirs(ts[1..]);
      RedirsDerive(ts[1..]);
      var more := ArgsDerive(args + [ts[0].w], rs + r.v, r.rest);
      items := [Arg(ts[0].w)] + (Intos(r.v) + more);
      OneArg(ts[0].w, r.v, more);
      Flat2(args, [ts[0].w], ArgsIn(more));
      Flat2(rs, r.v, RedirsIn(more));
      JoinArg(ts, r.v, more, r.rest, ParseArgs(args, rs, ts).rest);
    }
  }

  lemma JoinArg<W>(ts: seq<Tok<W>>, tos: Redirs<W>, more: seq<Item<W>>, mid: seq<Tok<W>>, rest: seq<Tok<W>>)
    requires ts != [] && ts[0].Word? && RedirToks(tos) + mid == ts[1..] && ItemToks(more) + rest == mid
    ensures ItemToks([Arg(ts[0].w)] + (Intos(tos) + more)) + rest == ts
  {
    OneArg(ts[0].w, tos, more);
    Flat3([ts[0]], RedirToks(tos), ItemToks(more), rest);
    assert ts == [ts[0]] + ts[1..];
  }

  lemma Flat3<T>(a: seq<T>, b: seq<T>, c: seq<T>, d: seq<T>)
    ensures a + (b + c) + d == a + (b + (c + d))
  {
    Flat2(a, b + c, d);
    Flat2(b, c, d);
  }

  lemma OneArg<W>(w: W, tos: Redirs<W>, more: seq<Item<W>>)
    ensures ItemToks([Arg(w)] + (Intos(tos) + more)) == [Word(w)] + (RedirToks(tos) + ItemToks(more))
    ensures ArgsIn([Arg(w)] + (Intos(tos) + more)) == [w] + ArgsIn(more)
    ensures RedirsIn([Arg(w)] + (Intos(tos) + more)) == tos + RedirsIn(more)
  {
    var rest := Intos(tos) + more;
    assert ([Arg(w)] + rest)[1..] == rest;
    ItemsBoth(Intos(tos), more);
    IntosAre(tos);
    assert [] + ArgsIn(more) == ArgsIn(more);
  }

  lemma PlainDerive<W>(ts: seq<Tok<W>>) returns (e: Exec'<W>)
    requires ParseExec(ts).Ok? && !Starts(ts, {'('})
    ensures ExecFits(e) && ExecText(e) + ParseExec(ts).rest == ts && ExecMeans(e) == ParseExec(ts).v
  {
    var r := ParseRedirs(ts);
    RedirsDerive(ts);
    var more := ArgsDerive([], r.v, r.rest);
    e := Plain(Intos(r.v) + more);
    ItemsBoth(Intos(r.v), more);
    IntosAre(r.v);
    assert [] + ArgsIn(more) == ArgsIn(more);
    Flat2(RedirToks(r.v), ItemToks(more), ParseExec(ts).rest);
  }

  lemma {:induction false} ExecDerive<W>(ts: seq<Tok<W>>) returns (e: Exec'<W>)
    requires ParseExec(ts).Ok?
    ensures ExecFits(e) && ExecText(e) + ParseExec(ts).rest == ts && ExecMeans(e) == ParseExec(ts).v
    decreases |ts|, 1
  {
    if Starts(ts, {'('}) {
      var line := LineDerive(ts[1..]);
      var c := ParseLine(ts[1..]);
      RedirsDerive(c.rest[1..]);
      var r := ParseRedirs(c.rest[1..]);
      e := Block(line, r.v);
      BlockText(ts, line, c.rest, r.v, r.rest);
    } else {
      e := PlainDerive(ts);
    }
  }

  lemma BlockText<W>(ts: seq<Tok<W>>, line: Line'<W>, mid: seq<Tok<W>>, tos: Redirs<W>, rest: seq<Tok<W>>)
    requires ts != [] && ts[0] == Sym('(') && LineText(line) + mid == ts[1..]
    requires mid != [] && mid[0] == Sym(')') && RedirToks(tos) + rest == mid[1..]
    ensures ExecText(Block(line, tos)) + rest == ts
  {
    assert mid == [Sym(')')] + mid[1..];
    Flat5([Sym('(')], LineText(line), [Sym(')')], RedirToks(tos), rest);
    Flat4([Sym('(')], LineText(line), [Sym(')')], RedirToks(tos));
    assert ts == [Sym('(')] + ts[1..];
  }

  lemma Flat4<T>(a: seq<T>, b: seq<T>, c: seq<T>, d: seq<T>)
    ensures a + (b + (c + d)) == a + b + c + d
  {
    Flat2(a + b, c, d);
    Flat2(a, b, c + d);
  }

  lemma {:induction false} PipeDerive<W>(ts: seq<Tok<W>>) returns (p: Pipe'<W>)
    requires ParsePipe(ts).Ok?
    ensures PipeFits(p) && PipeText(p) + ParsePipe(ts).rest == ts && PipeMeans(p) == ParsePipe(ts).v
    decreases |ts|, 2
  {
    var e := ExecDerive(ts);
    var c := ParseExec(ts);
    if Starts(c.rest, {'|'}) {
      var more := PipeDerive(c.rest[1..]);
      p := Bar(e, more);
      var d := ParsePipe(c.rest[1..]);
      assert c.rest == [Sym('|')] + c.rest[1..];
      Flat2(ExecText(e), [Sym('|')] + PipeText(more), d.rest);
      Flat2([Sym('|')], PipeText(more), d.rest);
    } else {
      p := One(e);
    }
  }

  lemma {:induction false} BacksDerive<W>(c: Cmd<W>, ts: seq<Tok<W>>) returns (n: nat)
    ensures ParseBacks(c, ts).0 == Backed(c, n) && Ands(n) + ParseBacks(c, ts).1 == ts
    decreases |ts|
  {
    if Starts(ts, {'&'}) {
      var m := BacksDerive(Back(c), ts[1..]);
      n := m + 1;
      Flat2([Sym('&')], Ands(m), ParseBacks(c, ts).1);
      assert ts == [Sym('&')] + ts[1..];
    } else {
      n := 0;
      assert Ands(0) + ts == ts;
    }
  }

  lemma {:induction false} LineDerive<W>(ts: seq<Tok<W>>) returns (l: Line'<W>)
    requires ParseLine(ts).Ok?
    ensures LineFits(l) && LineText(l) + ParseLine(ts).rest == ts && LineMeans(l) == ParseLine(ts).v
    decreases |ts|, 3
  {
    var p := PipeDerive(ts);
    var q := ParsePipe(ts);
    var n := BacksDerive(q.v, q.rest);
    var (c, rest) := ParseBacks(q.v, q.rest);
    if Starts(rest, {';'}) {
      var more := LineDerive(rest[1..]);
      l := Semi(p, n, more);
      var d := ParseLine(rest[1..]);
      assert rest == [Sym(';')] + rest[1..];
      Flat4'(PipeText(p), Ands(n), [Sym(';')], LineText(more), d.rest);
    } else {
      l := Last(p, n);
      Flat2(PipeText(p), Ands(n), rest);
    }
  }

  lemma Flat4'<T>(a: seq<T>, b: seq<T>, c: seq<T>, d: seq<T>, e: seq<T>)
    ensures a + (b + (c + d)) + e == a + (b + (c + (d + e)))
  {
    Flat4(a, b, c, d);
    Flat5(a, b, c, d, e);
  }

  // ---- what has a tree parses

  /** How many redirections come first. */
  function Lead<W>(items: seq<Item<W>>): (n: nat)
    ensures n <= |items| && (n < |items| ==> items[n].Arg?)
  {
    if items == [] || items[0].Arg? then 0 else 1 + Lead(items[1..])
  }

  lemma {:induction false} LeadParses<W>(items: seq<Item<W>>, rest: seq<Tok<W>>)
    requires Follows(rest, {'|', ')', '&', ';'})
    ensures var n := Lead(items);
      ParseRedirs(ItemToks(items) + rest) == Ok(RedirsIn(items[..n]), ItemToks(items[n..]) + rest)
  {
    var n := Lead(items);
    if items == [] {
      assert ItemToks(items) + rest == rest && items[n..] == items;
    } else if items[0].Arg? {
      assert items[n..] == items && items[..n] == [];
      assert (ItemToks(items) + rest)[0] == Word(items[0].w);
    } else {
      LeadParses(items[1..], rest);
      var x := items[0].to;
      OneRedirAgain(x, ItemToks(items[1..]) + rest);
      Flat2([Sym(SymOf(x.kind)), Word(x.file)], ItemToks(items[1..]), rest);
      assert items[n..] == items[1..][n - 1..] && items[..n][1..] == items[1..][..n - 1];
    }
  }

  lemma LeadSplits<W>(items: seq<Item<W>>)
    ensures var n := Lead(items);
      && RedirsIn(items) == RedirsIn(items[..n]) + RedirsIn(items[n..]) && ArgsIn(items) == ArgsIn(items[n..])
  {
    var n := Lead(items);
    assert items == items[..n] + items[n..];
    ItemsBoth(items[..n], items[n..]);
    LeadNoArgs(items, n);
  }

  lemma {:induction false} LeadNoArgs<W>(items: seq<Item<W>>, n: nat)
    requires n <= Lead(items)
    ensures ArgsIn(items[..n]) == []
  {
    if n > 0 {
      assert items[..n][1..] == items[1..][..n - 1];
      LeadNoArgs(items[1..], n - 1);
    }
  }

  lemma {:induction false} ArgsParse<W>(args: seq<W>, rs: Redirs<W>, items: seq<Item<W>>, rest: seq<Tok<W>>)
    requires (items == [] || items[0].Arg?) && |args| + |ArgsIn(items)| < MAXARGS
    requires Follows(rest, {'|', ')', '&', ';'})
    ensures ParseArgs(args, rs, ItemToks(items) + rest) ==
            Ok(Wrap(Exec(args + ArgsIn(items)), rs + RedirsIn(items)), rest)
    decreases |items|
  {
    if items == [] {
      assert ItemToks(items) + rest == rest && args + ArgsIn(items) == args && rs + RedirsIn(items) == rs;
      ArgsStop(args, rs, rest);
    } else {
      var w, more := items[0].w, items[1..];
      var n := Lead(more);
      Flat2([Word(w)], ItemToks(more), rest);
      LeadParses(more, rest);
      LeadSplits(more);
      OneTurn(args, rs, w, ItemToks(more) + rest);
      Flat2(args, [w], ArgsIn(more[n..]));
      Flat2(rs, RedirsIn(more[..n]), RedirsIn(more[n..]));
      assert [] + RedirsIn(more) == RedirsIn(more);
      ArgsParse(args + [w], rs + RedirsIn(more[..n]), more[n..], rest);
    }
  }

  /** One turn of parseexec's loop. */
  lemma OneTurn<W>(args: seq<W>, rs: Redirs<W>, w: W, ts: seq<Tok<W>>)
    requires |args| + 1 < MAXARGS && ParseRedirs(ts).Ok?
    ensures ParseArgs(args, rs, [Word(w)] + ts) ==
            ParseArgs(args + [w], rs + ParseRedirs(ts).v, ParseRedirs(ts).rest)
  {
    var all: seq<Tok<W>> := [Word(w)] + ts;
    assert all[0] == Word(w) && all[1..] == ts;
  }

  /** Redirections may stand before, between and after the words of a command; all of them count, in order. */
  lemma PlainParses<W>(items: seq<Item<W>>, rest: seq<Tok<W>>)
    requires |ArgsIn(items)| < MAXARGS && Follows(rest, {'|', ')', '&', ';'})
    ensures ParseExec(ItemToks(items) + rest) == Ok(Wrap(Exec(ArgsIn(items)), RedirsIn(items)), rest)
  {
    var n := Lead(items);
    LeadParses(items, rest);
    LeadSplits(items);
    assert [] + ArgsIn(items[n..]) == ArgsIn(items[n..]);
    ArgsParse([], RedirsIn(items[..n]), items[n..], rest);
    if items == [] { assert ItemToks(items) + rest == rest; }
  }

  lemma {:induction false} ExecParses<W>(e: Exec'<W>, rest: seq<Tok<W>>)
    requires ExecFits(e) && Follows(rest, {'|', ')', '&', ';'})
    ensures ParseExec(ExecText(e) + rest) == Ok(ExecMeans(e), rest)
    decreases e
  {
    match e
    case Plain(items) => PlainParses(items, rest);
    case Block(line, tos) =>
      LineParses(line, [Sym(')')] + (RedirToks(tos) + rest));
      Flat4'([Sym('(')], LineText(line), [Sym(')')], RedirToks(tos), rest);
      BlockAgain(LineMeans(line), LineText(line), tos, rest);
  }

  lemma {:induction false} PipeParses<W>(p: Pipe'<W>, rest: seq<Tok<W>>)
    requires PipeFits(p) && Follows(rest, {')', '&', ';'})
    ensures ParsePipe(PipeText(p) + rest) == Ok(PipeMeans(p), rest)
    decreases p
  {
    match p
    case One(e) => ExecParses(e, rest);
    case Bar(e, more) =>
      var tail := [Sym('|')] + (PipeText(more) + rest);
      Flat2(ExecText(e), [Sym('|')] + PipeText(more), rest);
      Flat2([Sym('|')], PipeText(more), rest);
      ExecParses(e, tail);
      assert tail[1..] == PipeText(more) + rest;
      PipeParses(more, rest);
  }

  lemma {:induction false} AndsParse<W>(c: Cmd<W>, n: nat, rest: seq<Tok<W>>)
    requires !Starts(rest, {'&'})
    ensures ParseBacks(c, Ands(n) + rest) == (Backed(c, n), rest)
    decreases n
  {
    if n == 0 {
      assert Ands(0) + rest == rest;
    } else {
      Flat2([Sym('&')], Ands(n - 1), rest);
      assert (Ands(n) + rest)[1..] == Ands(n - 1) + rest;
      AndsParse(Back(c), n - 1, rest);
    }
  }

  lemma AndsFollow<W>(n: nat, rest: seq<Tok<W>>)
    requires Follows(rest, {')', ';'})
    ensures Follows(Ands(n) + rest, {')', '&', ';'})
  {
    if n == 0 { assert Ands(0) + rest == rest; }
  }

  lemma {:induction false} LineParses<W>(l: Line'<W>, rest: seq<Tok<W>>)
    requires LineFits(l) && Follows(rest, {')'})
    ensures ParseLine(LineText(l) + rest) == Ok(LineMeans(l), rest)
    decreases l
  {
    match l
    case Last(p, n) =>
      Flat2(PipeText(p), Ands(n), rest);
      AndsFollow(n, rest);
      PipeParses(p, Ands(n) + rest);
      AndsParse(PipeMeans(p), n, rest);
    case Semi(p, n, more) =>
      var tail := [Sym(';')] + (LineText(more) + rest);
      Flat4'(PipeText(p), Ands(n), [Sym(';')], LineText(more), rest);
      AndsFollow(n, tail);
      PipeParses(p, Ands(n) + tail);
      AndsParse(PipeMeans(p), n, tail);
      assert tail[1..] == LineText(more) + rest;
      LineParses(more, rest);
  }

  /** parsecmd accepts a line if and only if it is the text of a syntax tree with at most nine arguments a command, and
      returns what the tree means. */
  lemma ParsesExactly<W>(ts: seq<Tok<W>>, c: Cmd<W>)
    ensures ParseAll(ts) == Some(c) <==> exists l :: LineFits(l) && LineText(l) == ts && LineMeans(l) == c
  {
    if ParseAll(ts) == Some(c) {
      var l := LineDerive(ts);
      assert LineText(l) + [] == LineText(l);
    }
    forall l | LineFits(l) && LineText(l) == ts ensures ParseAll(ts) == Some(LineMeans(l)) {
      LineParses(l, []);
      assert LineText(l) + [] == LineText(l);
    }
  }
}
