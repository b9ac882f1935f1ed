/** Command lines as characters: the round trip through print and parse, and what nulterminate does to the line. */
module ShellWords {
  import opened Params
  import opened ShellLexer
  import opened ShellParser
  import opened ShellRoundTrip

  // ---- words as text

  function Text(s: string, w: Span): string {
    if w.q <= w.eq <= |s| then s[w.q..w.eq] else []
  }

  function TokText(s: string, t: Tok<Span>): Tok<string> {
    if t.Sym? then Sym(t.c) else Word(Text(s, t.w))
  }

  function Texts(s: string, ts: seq<Tok<Span>>): (r: seq<Tok<string>>)
    ensures |r| == |ts| && forall i :: 0 <= i < |ts| ==> r[i] == TokText(s, ts[i])
  {
    seq(|ts|, i requires 0 <= i < |ts| => TokText(s, ts[i]))
  }

  function ArgTexts(s: string, ws: seq<Span>): (r: seq<string>)
    ensures |r| == |ws| && forall i :: 0 <= i < |ws| ==> r[i] == Text(s, ws[i])
  {
    seq(|ws|, i requires 0 <= i < |ws| => Text(s, ws[i]))
  }

  function RedirTexts(s: string, rs: Redirs<Span>): (r: Redirs<string>)
    ensures |r| == |rs| && forall i :: 0 <= i < |rs| ==> r[i] == To(Text(s, rs[i].file), rs[i].kind)
  {
    seq(|rs|, i requires 0 <= i < |rs| => To(Text(s, rs[i].file), rs[i].kind))
  }

  /** The command with its words spelled out. */
  function CmdText(s: string, c: Cmd<Span>): Cmd<string> {
    match c
    case Exec(args) => Exec(ArgTexts(s, args))
    case Redir(d, f, k) => Redir(CmdText(s, d), Text(s, f), k)
    case Pipe(l, r) => Pipe(CmdText(s, l), CmdText(s, r))
    case List(l, r) => List(CmdText(s, l), CmdText(s, r))
    case Back(d) => Back(CmdText(s, d))
  }

  function ResText(s: string, r: Res<Cmd<Span>, Span>): Res<Cmd<string>, string> {
    if r.Panic? then Panic else Ok(CmdText(s, r.v), Texts(s, r.rest))
  }

  // ---- parsing looks at words only as words

  lemma DropTexts(s: string, ts: seq<Tok<Span>>, k: nat)
    requires k <= |ts|
    ensures Texts(s, ts[k..]) == Texts(s, ts)[k..]
  {
  }

  lemma {:induction false} RedirsText(s: string, ts: seq<Tok<Span>>)
    ensures var r := ParseRedirs(ts);
            ParseRedirs(Texts(s, ts)) == if r.Panic? then Panic else Ok(RedirTexts(s, r.v), Texts(s, r.rest))
  {
    if !Starts(ts, {'<', '>'}) {
      assert RedirTexts(s, []) == [];
    } else if |ts| >= 2 && ts[1].Word? {
      DropTexts(s, ts, 2);
      RedirsText(s, ts[2..]);
      var r := ParseRedirs(ts[2..]);
      if r.Ok? {
        var x := To(ts[1].w, KindOf(ts[0].c));
        assert RedirTexts(s, [x] + r.v) == [To(Text(s, x.file), x.kind)] + RedirTexts(s, r.v);
      }
    }
  }

  lemma {:induction false} WrapText(s: string, c: Cmd<Span>, rs: Redirs<Span>)
    ensures CmdText(s, Wrap(c, rs)) == Wrap(CmdText(s, c), RedirTexts(s, rs))
  {
    if rs != [] {
      WrapText(s, c, rs[..|rs| - 1]);
      assert RedirTexts(s, rs)[..|rs| - 1] == RedirTexts(s, rs[..|rs| - 1]);
    }
  }

  lemma MoreTexts(s: string, args: seq<Span>, w: Span, rs: Redirs<Span>, more: Redirs<Span>)
    ensures ArgTexts(s, args + [w]) == ArgTexts(s, args) + [Text(s, w)]
    ensures RedirTexts(s, rs + more) == RedirTexts(s, rs) + RedirTexts(s, more)
  {
  }

  lemma {:induction false} ArgsText(s: string, args: seq<Span>, rs: Redirs<Span>, ts: seq<Tok<Span>>)
    ensures ParseArgs(ArgTexts(s, args), RedirTexts(s, rs), Texts(s, ts)) == ResText(s, ParseArgs(args, rs, ts))
    decreases |ts|
  {
    if ts == [] || Starts(ts, {'|', ')', '&', ';'}) {
      WrapText(s, Exec(args), rs);
    } else if ts[0].Word? && |args| + 1 < MAXARGS {
      DropTexts(s, ts, 1);
      RedirsText(s, ts[1..]);
      var r := ParseRedirs(ts[1..]);
      if r.Ok? {
        ArgsText(s, args + [ts[0].w], rs + r.v, r.rest);
        MoreTexts(s, args, ts[0].w, rs, r.v);
      }
    }
  }

  lemma {:induction false} ExecText(s: string, ts: seq<Tok<Span>>)
    ensures ParseExec(Texts(s, ts)) == ResText(s, ParseExec(ts))
    decreases |ts|, 1
  {
    if Starts(ts, {'('}) {
      BlockText(s, ts);
    } else {
      RedirsText(s, ts);
      var r := ParseRedirs(ts);
      if r.Ok? {
        ArgsText(s, [], r.v, r.rest);
        assert ArgTexts(s, []) == [];
      }
    }
  }

  lemma {:induction false} BlockText(s: string, ts: seq<Tok<Span>>)
    requires Starts(ts, {'('})
    ensures ParseBlock(Texts(s, ts)) == ResText(s, ParseBlock(ts))
    decreases |ts|, 0
  {
    DropTexts(s, ts, 1);
    LineText(s, ts[1..]);
    var c := ParseLine(ts[1..]);
    if c.Ok? && Starts(c.rest, {')'}) {
      DropTexts(s, c.rest, 1);
      RedirsText(s, c.rest[1..]);
      var r := ParseRedirs(c.rest[1..]);
      if r.Ok? { WrapText(s, c.v, r.v); }
    }
  }

  lemma {:induction false} PipeText(s: string, ts: seq<Tok<Span>>)
    ensures ParsePipe(Texts(s, ts)) == ResText(s, ParsePipe(ts))
    decreases |ts|, 2
  {
    ExecText(s, ts);
    var c := ParseExec(ts);
    if c.Ok? && Starts(c.rest, {'|'}) {
      DropTexts(s, c.rest, 1);
      PipeText(s, c.rest[1..]);
    }
  }

  lemma {:induction false} BacksText(s: string, c: Cmd<Span>, ts: seq<Tok<Span>>)
    ensures var r := ParseBacks(c, ts); ParseBacks(CmdText(s, c), Texts(s, ts)) == (CmdText(s, r.0), Texts(s, r.1))
    decreases |ts|
  {
    if Starts(ts, {'&'}) {
      DropTexts(s, ts, 1);
      BacksText(s, Back(c), ts[1..]);
    }
  }

  lemma {:induction false} LineText(s: string, ts: seq<Tok<Span>>)
    ensures ParseLine(Texts(s, ts)) == ResText(s, ParseLine(ts))
    decreases |ts|, 3
  {
    PipeText(s, ts);
    var p := ParsePipe(ts);
    if p.Ok? {
      BacksText(s, p.v, p.rest);
      var rest := ParseBacks(p.v, p.rest).1;
      if Starts(rest, {';'}) {
        DropTexts(s, rest, 1);
        LineText(s, rest[1..]);
      }
    }
  }

  // ---- printing as characters

  predicate LegalWord(w: string) {
    w != [] && forall i :: 0 <= i < |w| ==> IsWordChar(w[i]) && w[i] != '\0'
  }

  predicate LegalTok(t: Tok<string>) {
    if t.Word? then LegalWord(t.w) else IsSymbol(t.c) || t.c == '+'
  }

  function Spelling(t: Tok<string>): string {
    if t.Word? then t.w else if t.c == '+' then ">>" else [t.c]
  }

  /** Each token followed by a space. */
  function Spell(ts: seq<Tok<string>>): string {
    if ts == [] then [] else Spelling(ts[0]) + " " + Spell(ts[1..])
  }

  predicate WordsLegal(t: Cmd<string>) {
    match t
    case Exec(args) => forall i :: 0 <= i < |args| ==> LegalWord(args[i])
    case Redir(c, f, _) => WordsLegal(c) && LegalWord(f)
    case Pipe(l, r) => WordsLegal(l) && WordsLegal(r)
    case List(l, r) => WordsLegal(l) && WordsLegal(r)
    case Back(c) => WordsLegal(c)
  }

  predicate AllLegal(ts: seq<Tok<string>>) {
    forall i :: 0 <= i < |ts| ==> LegalTok(ts[i])
  }

  lemma {:induction false} RedirToksLegal(rs: Redirs<string>)
    requires forall i :: 0 <= i < |rs| ==> LegalWord(rs[i].file)
    ensures AllLegal(RedirToks(rs))
  {
    if rs != [] { RedirToksLegal(rs[1..]); }
  }

  lemma {:induction false} ArgToksLegal(args: seq<string>)
    requires forall i :: 0 <= i < |args| ==> LegalWord(args[i])
    ensures AllLegal(ArgToks(args))
  {
    if args != [] { ArgToksLegal(args[1..]); }
  }

  lemma {:induction false} PartsLegal(t: Cmd<string>)
    requires WordsLegal(t)
    ensures WordsLegal(Core(t)) && forall i :: 0 <= i < |RedirsOf(t)| ==> LegalWord(RedirsOf(t)[i].file)
  {
    if t.Redir? { PartsLegal(t.cmd); }
  }

  lemma {:induction false} ExecToksLegal(t: Cmd<string>)
    requires WordsLegal(t)
    ensures AllLegal(ExecToks(t))
    decreases t, Rank(t, 0)
  {
    PartsLegal(t);
    CoreSmaller(t);
    RedirToksLegal(RedirsOf(t));
    var c := Core(t);
    if c.Exec? { ArgToksLegal(c.args); } else { LineToksLegal(c); }
  }

  lemma {:induction false} PipeToksLegal(t: Cmd<string>)
    requires WordsLegal(t)
    ensures AllLegal(PipeToks(t))
    decreases t, Rank(t, 1)
  {
    if t.Pipe? {
      ExecToksLegal(t.left);
      PipeToksLegal(t.right);
    } else {
      ExecToksLegal(t);
    }
  }

  lemma {:induction false} BackToksLegal(t: Cmd<string>)
    requires WordsLegal(t)
    ensures AllLegal(BackToks(t))
    decreases t, Rank(t, 2)
  {
    if t.Back? { BackToksLegal(t.cmd); } else { PipeToksLegal(t); }
  }

  lemma {:induction false} LineToksLegal(t: Cmd<string>)
    requires WordsLegal(t)
    ensures AllLegal(LineToks(t))
    decreases t, Rank(t, 3)
  {
    if t.List? {
      BackToksLegal(t.left);
      LineToksLegal(t.right);
    } else {
      BackToksLegal(t);
    }
  }

  /** One spelled token, read back: what it is, and where it ends. */
  lemma TokenAgain(s: string, q: nat, t: Tok<string>)
    requires LegalTok(t) && q + |Spelling(t)| < |s| && s[q..q + |Spelling(t)|] == Spelling(t)
             && s[q + |Spelling(t)|] == ' '
    ensures !IsSpace(s[q]) && TokenAt(s, q).1 == q + |Spelling(t)| && TokText(s, TokenAt(s, q).0) == t
  {
    var e := q + |Spelling(t)|;
    forall i | q <= i < e ensures s[i] == Spelling(t)[i - q] { assert s[q..e][i - q] == s[i]; }
    if t.Word? {
      assert IsWordChar(s[q]) && WordEnd(s, q) == e;
    } else {
      assert s[q] == Spelling(t)[0];
    }
  }

  lemma LexSpace(s: string, p: nat)
    requires p < |s| && IsSpace(s[p])
    ensures Lex(s, p) == Lex(s, p + 1)
  {
    assert SkipSpace(s, p) == SkipSpace(s, p + 1);
  }

  /** The tokens from p on, with their words spelled out. */
  ghost predicate Reads(s: string, p: nat, ts: seq<Tok<string>>)
    requires p <= |s|
  {
    Same(s, Lex(s, p), ts)
  }

  ghost predicate Same(s: string, us: seq<Tok<Span>>, ts: seq<Tok<string>>) {
    |us| == |ts| && forall i :: 0 <= i < |us| ==> TokText(s, us[i]) == ts[i]
  }

  lemma SameCons(s: string, x: Tok<Span>, us: seq<Tok<Span>>, ts: seq<Tok<string>>)
    requires Same(s, us, ts)
    ensures Same(s, [x] + us, [TokText(s, x)] + ts)
  {
  }

  /** A spelled token and a space, then the rest. */
  lemma LexStep(s: string, q: nat, e: nat, next: nat, t: Tok<string>, more: seq<Tok<string>>)
    requires LegalTok(t) && e == q + |Spelling(t)| && e + 1 == next <= |s| && s[q..e] == Spelling(t) && s[e] == ' '
    requires Reads(s, next, more)
    ensures Reads(s, q, [t] + more)
  {
    TokenAgain(s, q, t);
    assert SkipSpace(s, q) == q;
    LexSpace(s, e);
    SameCons(s, TokenAt(s, q).0, Lex(s, e), more);
  }

  lemma {:induction false} LexAgain(s: string, p: nat, ts: seq<Tok<string>>)
    requires AllLegal(ts) && p <= |s| && s[p..] == Spell(ts)
    ensures Reads(s, p, ts)
    decreases |ts|
  {
    if ts == [] {
      LexEnd(s, p);
    } else {
      var t, more := ts[0], ts[1..];
      assert ts == [t] + more;
      Pieces(s, p, Spelling(t), Spell(more));
      var e := p + |Spelling(t)|;
      var next := e + 1;
      LexAgain(s, next, more);
      LexStep(s, p, e, next, t, more);
    }
  }

  lemma LexEnd(s: string, p: nat)
    requires p == |s|
    ensures Reads(s, p, [])
  {
  }

  lemma Pieces(s: string, p: nat, w: string, rest: string)
    requires p <= |s| && s[p..] == w + " " + rest
    ensures p + |w| < |s| && s[p..p + |w|] == w && s[p + |w|] == ' ' && s[p + |w| + 1..] == rest
  {
    assert s[p..][|w|] == ' ';
    assert s[p..][..|w|] == w;
    assert s[p..][|w| + 1..] == rest;
  }

  lemma {:induction false} SpellNoNul(ts: seq<Tok<string>>)
    requires AllLegal(ts)
    ensures NoNul(Spell(ts))
  {
    if ts != [] {
      SpellNoNul(ts[1..]);
      assert NoNul(Spelling(ts[0]));
    }
  }

  /** For every command with legal words and at most nine arguments an exec: parsing its print gives that command. */
  lemma RoundTrip(t: Cmd<string>)
    requires Legal(t) && WordsLegal(t)
    ensures var s := Spell(LineToks(t));
            && NoNul(s) && ParseAll(Lex(s, 0)).Some? && CmdText(s, ParseAll(Lex(s, 0)).value) == t
  {
    var ts := LineToks(t);
    var s := Spell(ts);
    LineToksLegal(t);
    SpellNoNul(ts);
    LexAgain(s, 0, ts);
    assert Texts(s, Lex(s, 0)) == ts;
    LineText(s, Lex(s, 0));
    TokensAgain(t);
  }

  // ---- nulterminate

  /** Every word of the command is a maximal run of word characters in the line. */
  predicate GoodCmd(s: string, c: Cmd<Span>) {
    match c
    case Exec(args) => forall i :: 0 <= i < |args| ==> SpanOk(s, args[i])
    case Redir(d, f, _) => GoodCmd(s, d) && SpanOk(s, f)
    case Pipe(l, r) => GoodCmd(s, l) && GoodCmd(s, r)
    case List(l, r) => GoodCmd(s, l) && GoodCmd(s, r)
    case Back(d) => GoodCmd(s, d)
  }

  predicate GoodRedirs(s: string, rs: Redirs<Span>) {
    forall i :: 0 <= i < |rs| ==> SpanOk(s, rs[i].file)
  }

  ghost predicate GoodRes(s: string, r: Res<Cmd<Span>, Span>) {
    r.Ok? ==> GoodCmd(s, r.v) && TokensOk(s, r.rest)
  }

  lemma {:induction false} RedirsGood(s: string, ts: seq<Tok<Span>>)
    requires TokensOk(s, ts)
    ensures var r := ParseRedirs(ts); r.Ok? ==> GoodRedirs(s, r.v) && TokensOk(s, r.rest)
  {
    if Starts(ts, {'<', '>'}) && |ts| >= 2 && ts[1].Word? { RedirsGood(s, ts[2..]); }
  }

  lemma {:induction false} WrapGood(s: string, c: Cmd<Span>, rs: Redirs<Span>)
    requires GoodCmd(s, c) && GoodRedirs(s, rs)
    ensures GoodCmd(s, Wrap(c, rs))
  {
    if rs != [] { WrapGood(s, c, rs[..|rs| - 1]); }
  }

  lemma {:induction false} ArgsGood(s: string, args: seq<Span>, rs: Redirs<Span>, ts: seq<Tok<Span>>)
    requires GoodCmd(s, Exec(args)) && GoodRedirs(s, rs) && TokensOk(s, ts)
    ensures GoodRes(s, ParseArgs(args, rs, ts))
    decreases |ts|
  {
    if ts == [] || Starts(ts, {'|', ')', '&', ';'}) {
      WrapGood(s, Exec(args), rs);
    } else if ts[0].Word? && |args| + 1 < MAXARGS {
      RedirsGood(s, ts[1..]);
      var r := ParseRedirs(ts[1..]);
      if r.Ok? { ArgsGood(s, args + [ts[0].w], rs + r.v, r.rest); }
    }
  }

  lemma {:induction false} ExecGood(s: string, ts: seq<Tok<Span>>)
    requires TokensOk(s, ts)
    ensures GoodRes(s, ParseExec(ts))
    decreases |ts|, 1
  {
    if Starts(ts, {'('}) {
      BlockGood(s, ts);
    } else {
      RedirsGood(s, ts);
      var r := ParseRedirs(ts);
      if r.Ok? { ArgsGood(s, [], r.v, r.rest); }
    }
  }

  lemma {:induction false} BlockGood(s: string, ts: seq<Tok<Span>>)
    requires TokensOk(s, ts) && Starts(ts, {'('})
    ensures GoodRes(s, ParseBlock(ts))
    decreases |ts|, 0
  {
    LineGood(s, ts[1..]);
    var c := ParseLine(ts[1..]);
    if c.Ok? && Starts(c.rest, {')'}) {
      RedirsGood(s, c.rest[1..]);
      var r := ParseRedirs(c.rest[1..]);
      if r.Ok? { WrapGood(s, c.v, r.v); }
    }
  }

  lemma {:induction false} PipeGood(s: string, ts: seq<Tok<Span>>)
    requires TokensOk(s, ts)
    ensures GoodRes(s, ParsePipe(ts))
    decreases |ts|, 2
  {
    ExecGood(s, ts);
    var c := ParseExec(ts);
    if c.Ok? && Starts(c.rest, {'|'}) { PipeGood(s, c.rest[1..]); }
  }

  lemma {:induction false} BacksGood(s: string, c: Cmd<Span>, ts: seq<Tok<Span>>)
    requires GoodCmd(s, c) && TokensOk(s, ts)
    ensures var r := ParseBacks(c, ts); GoodCmd(s, r.0) && TokensOk(s, r.1)
    decreases |ts|
  {
    if Starts(ts, {'&'}) { BacksGood(s, Back(c), ts[1..]); }
  }

  lemma {:induction false} LineGood(s: string, ts: seq<Tok<Span>>)
    requires TokensOk(s, ts)
    ensures GoodRes(s, ParseLine(ts))
    decreases |ts|, 3
  {
    PipeGood(s, ts);
    var p := ParsePipe(ts);
    if p.Ok? {
      BacksGood(s, p.v, p.rest);
      var rest := ParseBacks(p.v, p.rest).1;
      if Starts(rest, {';'}) { LineGood(s, rest[1..]); }
    }
  }

  predicate Mentions(c: Cmd<Span>, w: Span) {
    match c
    case Exec(args) => w in args
    case Redir(d, f, _) => Mentions(d, w) || w == f
    case Pipe(l, r) => Mentions(l, w) || Mentions(r, w)
    case List(l, r) => Mentions(l, w) || Mentions(r, w)
    case Back(d) => Mentions(d, w)
  }

  ghost predicate EndsWord(c: Cmd<Span>, i: nat) {
    exists w :: Mentions(c, w) && w.eq == i
  }

  lemma {:induction false} MentionsGood(s: string, c: Cmd<Span>, w: Span)
    requires GoodCmd(s, c) && Mentions(c, w)
    ensures SpanOk(s, w)
  {
    match c
    case Exec(_) =>
    case Redir(d, f, _) => if Mentions(d, w) { MentionsGood(s, d, w); }
    case Pipe(l, r) => if Mentions(l, w) { MentionsGood(s, l, w); } else { MentionsGood(s, r, w); }
    case List(l, r) => if Mentions(l, w) { MentionsGood(s, l, w); } else { MentionsGood(s, r, w); }
    case Back(d) => MentionsGood(s, d, w);
  }

  /** The line with a NUL at the end of each word of the command. */
  ghost predicate Terminated(b: string, b': string, c: Cmd<Span>) {
    |b'| == |b| && forall i :: 0 <= i < |b| ==> b'[i] == if EndsWord(c, i) then '\0' else b[i]
  }

  /** nulterminate: writes into the line, recursively. */
  method NulTerminate(c: Cmd<Span>, buf: array<char>)
    requires forall w :: Mentions(c, w) ==> w.eq < buf.Length
    modifies buf
    ensures Terminated(old(buf[..]), buf[..], c)
    decreases c
  {
    match c
    case Exec(args) =>
      var i := 0;
      while i < |args|
        invariant 0 <= i <= |args|
        invariant forall k :: 0 <= k < buf.Length ==> buf[k] == if k in ArgEnds(args[..i]) then '\0' else old(buf[k])
      {
        assert Mentions(c, args[i]);
        buf[args[i].eq] := '\0';
        assert args[..i + 1] == args[..i] + [args[i]];
        i := i + 1;
      }
      assert args[..i] == args;
    case Redir(d, f, _) =>
      assert Mentions(c, f);
      NulTerminate(d, buf);
      buf[f.eq] := '\0';
    case Pipe(l, r) =>
      NulTerminate(l, buf);
      NulTerminate(r, buf);
    case List(l, r) =>
      NulTerminate(l, buf);
      NulTerminate(r, buf);
    case Back(d) =>
      NulTerminate(d, buf);
  }

  ghost function ArgEnds(args: seq<Span>): set<nat> {
    set w | w in args :: w.eq
  }

  /** For any line the shell accepts: after nulterminate every word reads, as a C string, as it was in the line, since
      no word's NUL lands inside another word; and every NUL is written within the line and its final NUL. */
  lemma WordsSurvive(s: string, c: Cmd<Span>, b': string, w: Span)
    requires ParseAll(Lex(s, 0)) == Some(c) && Terminated(s + ['\0'], b', c) && Mentions(c, w) && NoNul(s)
    ensures w.q < w.eq < |b'| && b'[w.q..w.eq] == Text(s, w) && b'[w.eq] == '\0' && NoNul(b'[w.q..w.eq])
  {
    LexOk(s, 0);
    LineGood(s, Lex(s, 0));
    MentionsGood(s, c, w);
    forall i | w.q <= i < w.eq ensures b'[i] == s[i] {
      forall v | Mentions(c, v) ensures v.eq != i { MentionsGood(s, c, v); }
      assert !EndsWord(c, i) && (s + ['\0'])[i] == s[i];
    }
    assert EndsWord(c, w.eq);
  }

  // ---- parsecmd on its buffer

  /** The C string at p. */
  function CString(b: string, p: nat): string
    decreases |b| - p
  {
    if p >= |b| || b[p] == '\0' then [] else [b[p]] + CString(b, p + 1)
  }

  lemma {:induction false} CStringIs(b: string, p: nat, e: nat)
    requires p <= e < |b| && b[e] == '\0' && NoNul(b[p..e])
    ensures CString(b, p) == b[p..e]
    decreases e - p
  {
    if p < e {
      assert b[p..e][0] == b[p] && b[p..e][1..] == b[p + 1..e];
      var rest := b[p + 1..e];
      forall i | 0 <= i < |rest| ensures rest[i] != '\0' { assert b[p..e][i + 1] == rest[i]; }
      CStringIs(b, p + 1, e);
    }
  }

  method Strlen(buf: array<char>) returns (n: nat)
    requires exists i :: 0 <= i < buf.Length && buf[i] == '\0'
    ensures n < buf.Length && buf[n] == '\0' && buf[..n] == CString(buf[..], 0) && NoNul(buf[..n])
  {
    n := 0;
    while buf[n] != '\0'
      invariant n < buf.Length && forall i :: 0 <= i < n ==> buf[i] != '\0'
      decreases buf.Length - n
    {
      n := n + 1;
    }
    assert buf[..][0..n] == buf[..n];
    CStringIs(buf[..], 0, n);
  }

  /** The NULs of a command that is part of a longer buffer, seen in the line and its final NUL. */
  lemma TerminatedPrefix(b: string, b': string, c: Cmd<Span>, n: nat)
    requires Terminated(b, b', c) && n < |b| && b[n] == '\0'
    ensures Terminated(b[..n] + ['\0'], b'[..n + 1], c)
  {
    assert b[..n] + ['\0'] == b[..n + 1];
  }

  lemma EndsInLine(s: string, c: Cmd<Span>, w: Span)
    requires ParseAll(Lex(s, 0)) == Some(c) && Mentions(c, w)
    ensures w.q < w.eq <= |s|
  {
    LexOk(s, 0);
    LineGood(s, Lex(s, 0));
    MentionsGood(s, c, w);
  }

  /** parsecmd: the command the C string in the buffer denotes, or None where the shell panics, and then the buffer is
      untouched. Otherwise every word of the command is, where it begins, the C string it was in the line, and nothing
      but the ends of words has changed. */
  method ParseCmdInPlace(buf: array<char>) returns (r: Option<Cmd<Span>>)
    requires exists i :: 0 <= i < buf.Length && buf[i] == '\0'
    modifies buf
    ensures r == ParseAll(Lex(CString(old(buf[..]), 0), 0))
    ensures r.None? ==> buf[..] == old(buf[..])
    ensures r.Some? ==> Terminated(old(buf[..]), buf[..], r.value)
    ensures r.Some? ==> forall w :: Mentions(r.value, w) ==>
              && w.q < w.eq <= |CString(old(buf[..]), 0)| < buf.Length
              && CString(buf[..], w.q) == Text(CString(old(buf[..]), 0), w)
  {
    ghost var b := buf[..];
    var n := Strlen(buf);
    var s := buf[..n];
    r := ParseCmd(s);
    if r.None? { return; }
    forall w | Mentions(r.value, w) ensures w.q < w.eq <= |s| { EndsInLine(s, r.value, w); }
    NulTerminate(r.value, buf);
    ghost var b' := buf[..];
    TerminatedPrefix(b, b', r.value, n);
    forall w | Mentions(r.value, w) ensures CString(b', w.q) == Text(s, w) { ReadsBack(s, r.value, b', n, w); }
  }

  lemma ReadsBack(s: string, c: Cmd<Span>, b': string, n: nat, w: Span)
    requires ParseAll(Lex(s, 0)) == Some(c) && n == |s| < |b'| && Terminated(s + ['\0'], b'[..n + 1], c)
             && Mentions(c, w) && NoNul(s)
    ensures w.q < w.eq <= |s| && CString(b', w.q) == Text(s, w)
  {
    EndsInLine(s, c, w);
    WordsSurvive(s, c, b'[..n + 1], w);
    assert b'[w.q..w.eq] == b'[..n + 1][w.q..w.eq] && b'[w.eq] == b'[..n + 1][w.eq];
    CStringIs(b', w.q, w.eq);
  }
}
