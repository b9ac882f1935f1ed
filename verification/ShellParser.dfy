/** The recursive-descent parser of user/sh.c: the grammar on tokens, and the code with its cursor into the line. */
module ShellParser {
  import opened Params
  import opened ShellLexer

  const MAXARGS: nat := 10

  /** '<', '>' or ">>": the file is opened for reading as 0, or for writing as 1, truncated or not. */
  datatype Kind = In | Out | Append

  datatype Cmd<W> =
    | Exec(args: seq<W>)
    | Redir(cmd: Cmd<W>, file: W, kind: Kind)
    | Pipe(left: Cmd<W>, right: Cmd<W>)
    | List(left: Cmd<W>, right: Cmd<W>)
    | Back(cmd: Cmd<W>)

  /** What a parsing function returns: what it read and the tokens left, or a panic. */
  datatype Res<T, W> = Panic | Ok(v: T, rest: seq<Tok<W>>)

  datatype To<W> = To(file: W, kind: Kind)

  type Redirs<W> = seq<To<W>>

  /** Redirections wrapped around a command, the first one innermost. */
  function Wrap<W>(c: Cmd<W>, rs: Redirs<W>): Cmd<W> {
    if rs == [] then c else Redir(Wrap(c, rs[..|rs| - 1]), rs[|rs| - 1].file, rs[|rs| - 1].kind)
  }

  function KindOf(c: char): Kind {
    if c == '<' then In else if c == '+' then Append else Out
  }

  // ---- the grammar

  /** parseredirs. */
  function ParseRedirs<W>(ts: seq<Tok<W>>): (r: Res<Redirs<W>, W>)
    ensures r.Ok? ==> |r.rest| <= |ts|
  {
    if !Starts(ts, {'<', '>'}) then Ok([], ts)
    else if |ts| < 2 || !ts[1].Word? then Panic
    else
      var r := ParseRedirs(ts[2..]);
      if r.Panic? then Panic else Ok([To(ts[1].w, KindOf(ts[0].c))] + r.v, r.rest)
  }

  /** The loop of parseexec: the arguments and redirections so far, and the tokens to come. */
  function ParseArgs<W>(args: seq<W>, rs: Redirs<W>, ts: seq<Tok<W>>): (r: Res<Cmd<W>, W>)
    ensures r.Ok? ==> |r.rest| <= |ts|
    decreases |ts|
  {
    if ts == [] || Starts(ts, {'|', ')', '&', ';'}) then Ok(Wrap(Exec(args), rs), ts)
    else if !ts[0].Word? || |args| + 1 >= MAXARGS then Panic
    else
      var r := ParseRedirs(ts[1..]);
      if r.Panic? then Panic else ParseArgs(args + [ts[0].w], rs + r.v, r.rest)
  }

  function ParseExec<W>(ts: seq<Tok<W>>): (r: Res<Cmd<W>, W>)
    ensures r.Ok? ==> |r.rest| <= |ts|
    decreases |ts|, 1
  {
    if Starts(ts, {'('}) then ParseBlock(ts)
    else
      var r := ParseRedirs(ts);
      if r.Panic? then Panic else ParseArgs([], r.v, r.rest)
  }

  function ParseBlock<W>(ts: seq<Tok<W>>): (r: Res<Cmd<W>, W>)
    requires Starts(ts, {'('})
    ensures r.Ok? ==> |r.rest| < |ts|
    decreases |ts|, 0
  {
    var c := ParseLine(ts[1..]);
    if c.Panic? || !Starts(c.rest, {')'}) then Panic
    else
      var r := ParseRedirs(c.rest[1..]);
      if r.Panic? then Panic else Ok(Wrap(c.v, r.v), r.rest)
  }

  function ParsePipe<W>(ts: seq<Tok<W>>): (r: Res<Cmd<W>, W>)
    ensures r.Ok? ==> |r.rest| <= |ts|
    decreases |ts|, 2
  {
    var c := ParseExec(ts);
    if c.Panic? || !Starts(c.rest, {'|'}) then c
    else
      var d := ParsePipe(c.rest[1..]);
      if d.Panic? then Panic else Ok(Pipe(c.v, d.v), d.rest)
  }

  /** The loop of parseline over '&'. */
  function ParseBacks<W>(c: Cmd<W>, ts: seq<Tok<W>>): (r: (Cmd<W>, seq<Tok<W>>))
    ensures |r.1| <= |ts|
    decreases |ts|
  {
    if Starts(ts, {'&'}) then ParseBacks(Back(c), ts[1..]) else (c, ts)
  }

  function ParseLine<W>(ts: seq<Tok<W>>): (r: Res<Cmd<W>, W>)
    ensures r.Ok? ==> |r.rest| <= |ts|
    decreases |ts|, 3
  {
    var p := ParsePipe(ts);
    if p.Panic? then Panic
    else
      var (c, rest) := ParseBacks(p.v, p.rest);
      if !Starts(rest, {';'}) then Ok(c, rest)
      else
        var d := ParseLine(rest[1..]);
        if d.Panic? then Panic else Ok(List(c, d.v), d.rest)
  }

  /** parsecmd: the whole line is one command. */
  function ParseAll<W>(ts: seq<Tok<W>>): Option<Cmd<W>> {
    var c := ParseLine(ts);
    if c.Panic? || c.rest != [] then None else Some(c.v)
  }

  // ---- the code, with its cursor

  /** A cursor at p' after reading v, or a panic: what the grammar says of the tokens from p on. */
  predicate Agrees<T(==)>(res: Res<T, Span>, s: string, r: Option<T>, p': nat)
    requires p' <= |s|
  {
    if res.Panic? then r.None? else r == Some(res.v) && Lex(s, p') == res.rest
  }

  lemma WrapMore<W>(c: Cmd<W>, rs: Redirs<W>, x: To<W>)
    ensures Wrap(c, rs + [x]) == Redir(Wrap(c, rs), x.file, x.kind)
  {
    assert (rs + [x])[..|rs|] == rs;
  }

  method RedirsAt(s: string, p: nat) returns (r: Option<Redirs<Span>>, p': nat)
    requires p <= |s| && NoNul(s)
    ensures p' <= |s| && Agrees(ParseRedirs(Lex(s, p)), s, r, p')
  {
    var rs: Redirs<Span> := [];
    p' := p;
    ghost var all := ParseRedirs(Lex(s, p));
    RedirsStart(Lex(s, p));
    while true
      invariant p' <= |s| && RedirsFrom(all, rs, Lex(s, p'))
      decreases |Lex(s, p')|
    {
      var more;
      more, p' := Peek(s, p', {'<', '>'});
      if !more { break; }
      var x, p1 := OneRedir(s, p');
      if x.None? { return None, p1; }
      RedirsStep(all, rs, Lex(s, p'));
      rs := rs + [x.value];
      p' := p1;
    }
    assert rs + [] == rs;
    r := Some(rs);
  }

  /** One round: the symbol, then the file. */
  method OneRedir(s: string, p: nat) returns (x: Option<To<Span>>, p': nat)
    requires p <= |s| && NoNul(s) && Starts(Lex(s, p), {'<', '>'})
    ensures p' <= |s| && (x.None? <==> |Lex(s, p)| < 2 || !Lex(s, p)[1].Word?)
    ensures x.Some? ==> x.value == To(Lex(s, p)[1].w, KindOf(Lex(s, p)[0].c)) && Lex(s, p') == Lex(s, p)[2..]
  {
    var tok, w0, p1 := GetToken(s, p);
    var kind, w;
    kind, w, p' := GetToken(s, p1);
    x := if kind != 'a' then None else Some(To(w, KindOf(tok)));
  }

  lemma RedirsStart(ts: seq<Tok<Span>>)
    ensures RedirsFrom(ParseRedirs(ts), [], ts)
  {
    var r := ParseRedirs(ts);
    if r.Ok? { assert [] + r.v == r.v; }
  }

  /** The whole result is the redirections read so far, then those of the remaining tokens. */
  ghost predicate RedirsFrom(all: Res<Redirs<Span>, Span>, rs: Redirs<Span>, ts: seq<Tok<Span>>) {
    var r := ParseRedirs(ts);
    if r.Panic? then all.Panic? else all == Ok(rs + r.v, r.rest)
  }

  lemma RedirsStep(all: Res<Redirs<Span>, Span>, rs: Redirs<Span>, ts: seq<Tok<Span>>)
    requires RedirsFrom(all, rs, ts) && Starts(ts, {'<', '>'}) && |ts| >= 2 && ts[1].Word?
    ensures RedirsFrom(all, rs + [To(ts[1].w, KindOf(ts[0].c))], ts[2..])
  {
    var x := To(ts[1].w, KindOf(ts[0].c));
    var r := ParseRedirs(ts[2..]);
    if r.Ok? { assert rs + ([x] + r.v) == rs + [x] + r.v; }
  }

  method ExecAt(s: string, p: nat) returns (r: Option<Cmd<Span>>, p': nat)
    requires p <= |s| && NoNul(s)
    ensures p' <= |s| && Agrees(ParseExec(Lex(s, p)), s, r, p')
    decreases |Lex(s, p)|, 1
  {
    var block;
    block, p' := Peek(s, p, {'('});
    if block {
      r, p' := BlockAt(s, p');
      return;
    }
    var rs;
    rs, p' := RedirsAt(s, p');
    if rs.None? { return None, p'; }
    r, p' := ArgsAt(s, p', rs.value);
  }

  /** The loop of parseexec. */
  method ArgsAt(s: string, p: nat, rs: Redirs<Span>) returns (r: Option<Cmd<Span>>, p': nat)
    requires p <= |s| && NoNul(s)
    ensures p' <= |s| && Agrees(ParseArgs([], rs, Lex(s, p)), s, r, p')
  {
    var args, redirs := [], rs;
    p' := p;
    while true
      invariant p' <= |s| && ParseArgs(args, redirs, Lex(s, p')) == ParseArgs([], rs, Lex(s, p))
      decreases |Lex(s, p')|
    {
      var stop;
      stop, p' := Peek(s, p', {'|', ')', '&', ';'});
      if stop { break; }
      var tok, w, p1 := GetToken(s, p');
      if tok == '\0' { break; }
      if tok != 'a' { return None, p1; }
      args := args + [w];
      if |args| >= MAXARGS { return None, p1; }
      var more;
      more, p' := RedirsAt(s, p1);
      if more.None? { return None, p'; }
      redirs := redirs + more.value;
    }
    r := Some(Wrap(Exec(args), redirs));
  }

  method BlockAt(s: string, p: nat) returns (r: Option<Cmd<Span>>, p': nat)
    requires p <= |s| && NoNul(s) && Starts(Lex(s, p), {'('})
    ensures p' <= |s| && Agrees(ParseBlock(Lex(s, p)), s, r, p')
    decreases |Lex(s, p)|, 0
  {
    var open, w, close;
    open, w, p' := GetToken(s, p);
    r, p' := LineAt(s, p');
    if r.None? { return; }
    close, p' := Peek(s, p', {')'});
    if !close { return None, p'; }
    open, w, p' := GetToken(s, p');
    var rs;
    rs, p' := RedirsAt(s, p');
    if rs.None? { return None, p'; }
    r := Some(Wrap(r.value, rs.value));
  }

  method PipeAt(s: string, p: nat) returns (r: Option<Cmd<Span>>, p': nat)
    requires p <= |s| && NoNul(s)
    ensures p' <= |s| && Agrees(ParsePipe(Lex(s, p)), s, r, p')
    decreases |Lex(s, p)|, 2
  {
    var bar, tok, w;
    r, p' := ExecAt(s, p);
    if r.None? { return; }
    bar, p' := Peek(s, p', {'|'});
    if bar {
      tok, w, p' := GetToken(s, p');
      var right;
      right, p' := PipeAt(s, p');
      if right.None? { return None, p'; }
      r := Some(Pipe(r.value, right.value));
    }
  }

  method LineAt(s: string, p: nat) returns (r: Option<Cmd<Span>>, p': nat)
    requires p <= |s| && NoNul(s)
    ensures p' <= |s| && Agrees(ParseLine(Lex(s, p)), s, r, p')
    decreases |Lex(s, p)|, 3
  {
    var more, tok, w;
    r, p' := PipeAt(s, p);
    if r.None? { return; }
    var c := r.value;
    ghost var first, ts := c, Lex(s, p');
    while true
      invariant p' <= |s| && ParseBacks(c, Lex(s, p')) == ParseBacks(first, ts)
      decreases |Lex(s, p')|
    {
      more, p' := Peek(s, p', {'&'});
      if !more { break; }
      tok, w, p' := GetToken(s, p');
      c := Back(c);
    }
    r := Some(c);
    more, p' := Peek(s, p', {';'});
    if more {
      tok, w, p' := GetToken(s, p');
      var rest;
      rest, p' := LineAt(s, p');
      if rest.None? { return None, p'; }
      r := Some(List(c, rest.value));
    }
  }

  /** parsecmd, before nulterminate: the command the whole line denotes, or None where the shell panics. */
  method ParseCmd(s: string) returns (r: Option<Cmd<Span>>)
    requires NoNul(s)
    ensures r == ParseAll(Lex(s, 0))
  {
    var p, no;
    r, p := LineAt(s, 0);
    if r.None? { return; }
    no, p := Peek(s, p, {});
    if p != |s| { r := None; }
  }
}
