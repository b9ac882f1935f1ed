/** The regular-expression matcher of user/grep.c, against the language a pattern denotes. Strings are without their
    NUL. */
module Regex {
  /** One character (any, for '.'), or a run of one (of any, for '.'). */
  datatype Item = One(c: char) | Star(c: char)

  predicate Ok(c: char, x: char) { c == '.' || c == x }

  /** The items of a pattern, read from the left; a final '$' is not an item. */
  function Items(re: string): seq<Item> {
    if re == [] then []
    else if |re| >= 2 && re[1] == '*' then [Star(re[0])] + Items(re[2..])
    else if re == "$" then []
    else [One(re[0])] + Items(re[1..])
  }

  /** The pattern ends in a '$' that stands for the end of the text. */
  predicate Anchored(re: string) {
    if re == [] then false
    else if |re| >= 2 && re[1] == '*' then Anchored(re[2..])
    else re == "$" || Anchored(re[1..])
  }

  /** The words of one item. */
  predicate ItemWord(it: Item, w: string) {
    match it
    case One(c) => |w| == 1 && Ok(c, w[0])
    case Star(c) => forall i :: 0 <= i < |w| ==> Ok(c, w[i])
  }

  ghost predicate Cut(items: seq<Item>, w: string, k: nat)
    requires items != [] && k <= |w|
    decreases |items|, 0
  {
    ItemWord(items[0], w[..k]) && Word(items[1..], w[k..])
  }

  /** The language of a sequence of items: words that split into one word of each. */
  ghost predicate Word(items: seq<Item>, w: string)
    decreases |items|, 1
  {
    if items == [] then w == [] else exists k :: 0 <= k <= |w| && Cut(items, w, k)
  }

  /** The first n characters of the text are in the language, and they are all of it if the pattern is anchored. */
  ghost predicate Prefix(re: string, text: string, n: nat)
    requires n <= |text|
  {
    Word(Items(re), text[..n]) && (Anchored(re) ==> n == |text|)
  }

  ghost predicate Here(re: string, text: string) {
    exists n :: 0 <= n <= |text| && Prefix(re, text, n)
  }

  ghost predicate StarHere(c: char, re: string, text: string) {
    exists k :: 0 <= k <= |text| && Run(c, text, k) && Here(re, text[k..])
  }

  predicate Run(c: char, text: string, k: nat)
    requires k <= |text|
  {
    forall i :: 0 <= i < k ==> Ok(c, text[i])
  }

  // ---- the equations matchhere follows

  lemma HereEmpty(text: string)
    ensures Here([], text)
  {
    assert Prefix([], text, 0);
  }

  lemma HereEnd(text: string)
    ensures Here("$", text) <==> text == []
  {
    assert Items("$") == [] && Anchored("$");
    if text == [] { assert Prefix("$", text, 0); }
  }

  lemma HereOne(re: string, text: string)
    requires re != [] && !(|re| >= 2 && re[1] == '*') && re != "$"
    ensures Here(re, text) <==> text != [] && Ok(re[0], text[0]) && Here(re[1..], text[1..])
  {
    var items := Items(re);
    assert items[0] == One(re[0]) && items[1..] == Items(re[1..]) && Anchored(re) == Anchored(re[1..]);
    if Here(re, text) {
      var n :| 0 <= n <= |text| && Prefix(re, text, n);
      var w := text[..n];
      assert Word(items, w);
      var k :| 0 <= k <= |w| && Cut(items, w, k);
      assert w[..1][0] == text[0] && w[1..] == text[1..][..n - 1];
      assert Prefix(re[1..], text[1..], n - 1);
    }
    if text != [] && Ok(re[0], text[0]) && Here(re[1..], text[1..]) {
      var n :| 0 <= n <= |text[1..]| && Prefix(re[1..], text[1..], n);
      var w := text[..n + 1];
      assert w[1..] == text[1..][..n] && w[..1] == [text[0]];
      assert Cut(items, w, 1);
      assert Prefix(re, text, n + 1);
    }
  }

  lemma HereStar(re: string, text: string)
    requires |re| >= 2 && re[1] == '*'
    ensures Here(re, text) <==> StarHere(re[0], re[2..], text)
  {
    var items := Items(re);
    assert items[0] == Star(re[0]) && items[1..] == Items(re[2..]) && Anchored(re) == Anchored(re[2..]);
    if Here(re, text) { StarOut(re, text); }
    if StarHere(re[0], re[2..], text) {
      var k :| 0 <= k <= |text| && Run(re[0], text, k) && Here(re[2..], text[k..]);
      var n :| 0 <= n <= |text[k..]| && Prefix(re[2..], text[k..], n);
      var w := text[..k + n];
      assert w[k..] == text[k..][..n] && w[..k] == text[..k];
      assert Cut(items, w, k);
      assert Prefix(re, text, k + n);
    }
  }

  lemma StarOut(re: string, text: string)
    requires |re| >= 2 && re[1] == '*' && Here(re, text)
    ensures StarHere(re[0], re[2..], text)
  {
    var items := Items(re);
    var n :| 0 <= n <= |text| && Prefix(re, text, n);
    var w := text[..n];
    assert Word(items, w);
    var k :| 0 <= k <= |w| && Cut(items, w, k);
    assert w[k..] == text[k..][..n - k];
    assert Prefix(re[2..], text[k..], n - k);
    forall i | 0 <= i < k ensures Ok(re[0], text[i]) { assert w[..k][i] == text[i]; }
    assert Run(re[0], text, k) && Here(re[2..], text[k..]);
  }

  // ---- the code

  /** matchhere: whether some prefix of the text is matched. */
  method MatchHere(re: string, text: string) returns (r: bool)
    ensures r <==> Here(re, text)
    decreases |re|, 0
  {
    if re == [] {
      HereEmpty(text);
      return true;
    }
    if |re| >= 2 && re[1] == '*' {
      HereStar(re, text);
      r := MatchStar(re[0], re[2..], text);
      return;
    }
    if re[0] == '$' && |re| == 1 {
      assert re == "$";
      HereEnd(text);
      return text == [];
    }
    HereOne(re, text);
    if text != [] && (re[0] == '.' || re[0] == text[0]) {
      r := MatchHere(re[1..], text[1..]);
      return;
    }
    return false;
  }

  /** matchstar: whether a run of c and then a match of re begins the text. */
  method MatchStar(c: char, re: string, text: string) returns (r: bool)
    ensures r <==> StarHere(c, re, text)
    decreases |re|, 1
  {
    var i := 0;
    while true
      invariant 0 <= i <= |text| && Run(c, text, i)
      invariant forall k :: 0 <= k < i ==> !Here(re, text[k..])
      decreases |text| - i
    {
      r := MatchHere(re, text[i..]);
      if r { return; }
      if i == |text| || !(text[i] == c || c == '.') { break; }
      i := i + 1;
    }
  }

  /** A substring the pattern describes: in the language, at the start after '^', at the end before a final '$'. */
  ghost predicate Occurs(re: string, text: string, i: nat, j: nat)
    requires i <= j <= |text|
  {
    var caret := re != [] && re[0] == '^';
    var p := if caret then re[1..] else re;
    Word(Items(p), text[i..j]) && (caret ==> i == 0) && (Anchored(p) ==> j == |text|)
  }

  /** match: whether the pattern describes some substring of the text. */
  method Match(re: string, text: string) returns (r: bool)
    ensures r <==> exists i, j :: 0 <= i <= j <= |text| && Occurs(re, text, i, j)
  {
    if re != [] && re[0] == '^' {
      r := MatchHere(re[1..], text);
      CaretIs(re, text);
      return;
    }
    var i := 0;
    while true
      invariant 0 <= i <= |text| && forall k :: 0 <= k < i ==> !Here(re, text[k..])
      decreases |text| - i
    {
      r := MatchHere(re, text[i..]);
      if r { HereOccurs(re, text, i); return; }
      if i == |text| { break; }
      i := i + 1;
    }
    forall i, j | 0 <= i <= j <= |text| ensures !Occurs(re, text, i, j) {
      assert !Here(re, text[i..]);
      if Occurs(re, text, i, j) { OccursHere(re, text, i, j); }
    }
  }

  lemma OccursHere(re: string, text: string, i: nat, j: nat)
    requires i <= j <= |text| && Occurs(re, text, i, j) && !(re != [] && re[0] == '^')
    ensures Here(re, text[i..])
  {
    assert text[i..][..j - i] == text[i..j];
    assert Prefix(re, text[i..], j - i);
  }

  lemma HereOccurs(re: string, text: string, i: nat)
    requires i <= |text| && Here(re, text[i..]) && !(re != [] && re[0] == '^')
    ensures exists j :: i <= j <= |text| && Occurs(re, text, i, j)
  {
    var n :| 0 <= n <= |text[i..]| && Prefix(re, text[i..], n);
    assert text[i..][..n] == text[i..i + n];
    assert Occurs(re, text, i, i + n);
  }

  lemma CaretIs(re: string, text: string)
    requires re != [] && re[0] == '^'
    ensures Here(re[1..], text) <==> exists i, j :: 0 <= i <= j <= |text| && Occurs(re, text, i, j)
  {
    if Here(re[1..], text) {
      var n :| 0 <= n <= |text| && Prefix(re[1..], text, n);
      assert text[0..n] == text[..n];
      assert Occurs(re, text, 0, n);
    }
    if i, j :| 0 <= i <= j <= |text| && Occurs(re, text, i, j) {
      assert text[0..j] == text[..j];
      assert Prefix(re[1..], text, j);
    }
  }
}
