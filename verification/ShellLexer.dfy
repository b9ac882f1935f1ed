/** The tokens of user/sh.c. A command line is a string without its NUL; a position ranges up to its length. */
module ShellLexer {
  predicate IsSpace(c: char) { c == ' ' || c == '\t' || c == '\r' || c == '\n' || c == (11 as char) }

  predicate IsSymbol(c: char) { c == '<' || c == '|' || c == '>' || c == '&' || c == ';' || c == '(' || c == ')' }

  predicate IsWordChar(c: char) { !IsSpace(c) && !IsSymbol(c) }

  /** A symbol ('+' for {'>', '>'}), or a word; what a word is kept as is left open. */
  datatype Tok<W> = Sym(c: char) | Word(w: W)

  /** A word in the line: from q up to, not including, eq. */
  datatype Span = Span(q: nat, eq: nat)

  /** sh's strings of white space and of symbols. */
  lemma Alphabet(c: char)
    ensures IsSpace(c) <==> c in " \t\r\n" + [11 as char]
    ensures IsSymbol(c) <==> c in "<|>&;()"
  {
  }

  /** The line up to its NUL. */
  predicate NoNul(s: string) { forall i :: 0 <= i < |s| ==> s[i] != '\0' }

  function SkipSpace(s: string, p: nat): (r: nat)
    requires p <= |s|
    ensures p <= r <= |s| && (r < |s| ==> !IsSpace(s[r]))
    ensures forall i :: p <= i < r ==> IsSpace(s[i])
    decreases |s| - p
  {
    if p < |s| && IsSpace(s[p]) then SkipSpace(s, p + 1) else p
  }

  function WordEnd(s: string, p: nat): (r: nat)
    requires p <= |s|
    ensures p <= r <= |s| && (r < |s| ==> !IsWordChar(s[r]))
    ensures forall i :: p <= i < r ==> IsWordChar(s[i])
    decreases |s| - p
  {
    if p < |s| && IsWordChar(s[p]) then WordEnd(s, p + 1) else p
  }

  /** The token that starts at q, where there is no space, and where it ends. */
  function TokenAt(s: string, q: nat): (r: (Tok<Span>, nat))
    requires q < |s| && !IsSpace(s[q])
    ensures q < r.1 <= |s|
  {
    var c := s[q];
    if IsSymbol(c) then
      if c == '>' && q + 1 < |s| && s[q + 1] == '>' then (Sym('+'), q + 2) else (Sym(c), q + 1)
    else
      (Word(Span(q, WordEnd(s, q))), WordEnd(s, q))
  }

  /** The tokens from p to the end of the line. */
  function Lex(s: string, p: nat): seq<Tok<Span>>
    requires p <= |s|
    decreases |s| - p
  {
    var q := SkipSpace(s, p);
    if q == |s| then [] else [TokenAt(s, q).0] + Lex(s, TokenAt(s, q).1)
  }

  lemma {:induction false} SkipTwice(s: string, p: nat, r: nat)
    requires p <= r <= |s| && forall i :: p <= i < r ==> IsSpace(s[i])
    ensures SkipSpace(s, p) == SkipSpace(s, r)
    decreases r - p
  {
    if p < r { SkipTwice(s, p + 1, r); }
  }

  lemma LexSkip(s: string, p: nat)
    requires p <= |s|
    ensures Lex(s, SkipSpace(s, p)) == Lex(s, p)
  {
    SkipTwice(s, p, SkipSpace(s, p));
  }

  // ---- words are where the line says

  /** A maximal run of word characters. */
  predicate SpanOk(s: string, w: Span) {
    && w.q < w.eq <= |s| && (forall i :: w.q <= i < w.eq ==> IsWordChar(s[i]))
    && (w.eq < |s| ==> !IsWordChar(s[w.eq]))
  }

  ghost predicate TokensOk(s: string, ts: seq<Tok<Span>>) {
    forall i :: 0 <= i < |ts| && ts[i].Word? ==> SpanOk(s, ts[i].w)
  }

  lemma {:induction false} LexOk(s: string, p: nat)
    requires p <= |s|
    ensures TokensOk(s, Lex(s, p))
    decreases |s| - p
  {
    var q := SkipSpace(s, p);
    if q < |s| { LexOk(s, TokenAt(s, q).1); }
  }

  function Unspaced(s: string): string {
    if s == [] then [] else (if IsSpace(s[0]) then [] else [s[0]]) + Unspaced(s[1..])
  }

  /** What a token stands for in the line. */
  function Spelling(s: string, t: Tok<Span>): string {
    match t
    case Sym(c) => if c == '+' then ['>', '>'] else [c]
    case Word(w) => if w.q <= w.eq <= |s| then s[w.q..w.eq] else []
  }

  function Spelled(s: string, ts: seq<Tok<Span>>): string {
    if ts == [] then [] else Spelling(s, ts[0]) + Spelled(s, ts[1..])
  }

  lemma {:induction false} UnspacedRun(s: string, p: nat, q: nat)
    requires p <= q <= |s|
    ensures (forall i :: p <= i < q ==> IsSpace(s[i])) ==> Unspaced(s[p..]) == Unspaced(s[q..])
    ensures (forall i :: p <= i < q ==> !IsSpace(s[i])) ==> Unspaced(s[p..]) == s[p..q] + Unspaced(s[q..])
    decreases q - p
  {
    if p < q {
      UnspacedRun(s, p + 1, q);
      assert s[p..][0] == s[p] && s[p..][1..] == s[p + 1..] && s[p..q] == [s[p]] + s[p + 1..q];
    }
  }

  lemma TokenSpells(s: string, q: nat)
    requires q < |s| && !IsSpace(s[q])
    ensures var (t, e) := TokenAt(s, q);
            Spelling(s, t) == s[q..e] && Unspaced(s[q..]) == s[q..e] + Unspaced(s[e..])
  {
    UnspacedRun(s, q, TokenAt(s, q).1);
  }

  lemma SpelledFirst(s: string, t: Tok<Span>, ts: seq<Tok<Span>>)
    ensures Spelled(s, [t] + ts) == Spelling(s, t) + Spelled(s, ts)
  {
    assert ([t] + ts)[1..] == ts;
  }

  lemma LexFirst(s: string, p: nat)
    requires p <= |s|
    ensures var q := SkipSpace(s, p);
            Lex(s, p) == if q == |s| then [] else [TokenAt(s, q).0] + Lex(s, TokenAt(s, q).1)
  {
  }

  /** The tokens spell the line, but for its spaces: nothing is left out, added or out of order. */
  lemma {:induction false} LexSpells(s: string, p: nat)
    requires p <= |s|
    ensures Spelled(s, Lex(s, p)) == Unspaced(s[p..])
    decreases |s| - p
  {
    var q := SkipSpace(s, p);
    UnspacedRun(s, p, q);
    if q < |s| {
      var (t, e) := TokenAt(s, q);
      LexSpells(s, e);
      TokenSpells(s, q);
      LexFirst(s, p);
      SpelledFirst(s, t, Lex(s, e));
    }
  }

  // ---- the code

  /** The loop in gettoken and peek. */
  method SkipSpaces(s: string, p: nat) returns (r: nat)
    requires p <= |s|
    ensures r == SkipSpace(s, p)
  {
    r := p;
    while r < |s| && IsSpace(s[r])
      invariant p <= r <= |s| && forall i :: p <= i < r ==> IsSpace(s[i])
    {
      r := r + 1;
    }
    SkipTwice(s, p, r);
  }

  /** gettoken: the kind ('a' for a word, '+' for ">>", NUL at the end), the word's ends, and where to go on. */
  method GetToken(s: string, p: nat) returns (kind: char, w: Span, p': nat)
    requires p <= |s| && NoNul(s)
    ensures p <= p' <= |s| && SkipSpace(s, p') == p'
    ensures kind == '\0' <==> Lex(s, p) == []
    ensures kind == 'a' <==> Lex(s, p) != [] && Lex(s, p)[0].Word?
    ensures Lex(s, p) == [] ==> p' == |s|
    ensures Lex(s, p) != [] ==> Lex(s, p') == Lex(s, p)[1..]
    ensures Lex(s, p) != [] && Lex(s, p)[0].Sym? ==> kind == Lex(s, p)[0].c
    ensures kind == 'a' ==> w == Lex(s, p)[0].w
  {
    var q := SkipSpaces(s, p);
    var e;
    kind, e := TokenEnd(s, q);
    w := Span(q, e);
    p' := SkipSpaces(s, e);
    LexSkip(s, e);
    SkipTwice(s, p', p');
    assert q < |s| ==> Lex(s, p) == [TokenAt(s, q).0] + Lex(s, e);
  }

  /** The switch of gettoken. */
  method TokenEnd(s: string, q: nat) returns (kind: char, e: nat)
    requires q <= |s| && NoNul(s) && (q < |s| ==> !IsSpace(s[q]))
    ensures q == |s| ==> kind == '\0' && e == q
    ensures q < |s| ==> e == TokenAt(s, q).1 && kind != '\0' && (kind == 'a' <==> TokenAt(s, q).0.Word?)
    ensures q < |s| ==> if TokenAt(s, q).0.Word? then TokenAt(s, q).0.w == Span(q, e) else TokenAt(s, q).0.c == kind
  {
    e := q;
    kind := '\0';
    if e < |s| {
      kind := s[e];
      if kind == '>' {
        e := e + 1;
        if e < |s| && s[e] == '>' {
          kind := '+';
          e := e + 1;
        }
      } else if IsSymbol(kind) {
        e := e + 1;
      } else {
        kind := 'a';
        e := EndOfWord(s, e);
      }
    }
  }

  method EndOfWord(s: string, p: nat) returns (r: nat)
    requires p <= |s|
    ensures r == WordEnd(s, p)
  {
    r := p;
    while r < |s| && !IsSpace(s[r]) && !IsSymbol(s[r])
      invariant p <= r <= |s| && WordEnd(s, r) == WordEnd(s, p)
    {
      r := r + 1;
    }
  }

  /** The character a token starts with, if it is a symbol. */
  function FirstChar<W>(t: Tok<W>): char {
    if t.Word? then 'a' else if t.c == '+' then '>' else t.c
  }

  predicate Starts<W>(ts: seq<Tok<W>>, chars: set<char>) {
    ts != [] && ts[0].Sym? && FirstChar(ts[0]) in chars
  }

  /** peek, for a set of symbols: whether the next token starts with one of them. */
  method Peek(s: string, p: nat, chars: set<char>) returns (r: bool, p': nat)
    requires p <= |s| && forall c :: c in chars ==> IsSymbol(c)
    ensures p <= p' <= |s| && Lex(s, p') == Lex(s, p) && r == Starts(Lex(s, p), chars)
    ensures Lex(s, p) == [] <==> p' == |s|
  {
    p' := SkipSpaces(s, p);
    LexSkip(s, p);
    SkipTwice(s, p', p');
    r := p' < |s| && s[p'] in chars;
  }
}
