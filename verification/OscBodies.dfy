/** Which path the body of an OSC 9;9 sequence carries: what stands between white space
    and quotes at its ends. */
module OscBodies {
  import opened Common
  import opened Cwd
  import opened Prompts

  // --- White space ---

  /** The UTF-8 encoding of a character of the basic plane (section 3 of RFC 3629). */
  function Utf8(c: nat): Bytes
    requires c < 0x10000
  {
    if c < 0x80 then [c]
    else if c < 0x800 then [0xc0 + c / 64, 0x80 + c % 64]
    else [0xe0 + c / 4096, 0x80 + c / 64 % 64, 0x80 + c % 64]
  }

  ghost predicate EncodesWhiteSpace(e: Bytes) {
    exists c: nat :: WhiteSpace(c) && e == Utf8(c)
  }

  function CharOf(e: Bytes): int
    requires 1 <= |e| <= 3
  {
    var b0: int := e[0];
    if |e| == 1 then b0
    else
      var b1: int := e[1];
      if |e| == 2 then (b0 - 0xc0) * 64 + b1 - 0x80
      else
        var b2: int := e[2];
        (b0 - 0xe0) * 4096 + (b1 - 0x80) * 64 + b2 - 0x80
  }

  lemma SpaceDecodes(e: Bytes)
    requires IsSpace(e)
    ensures 0 <= CharOf(e) < 0x10000 && WhiteSpace(CharOf(e)) && e == Utf8(CharOf(e))
  {
  }

  lemma SpaceEncodes(c: nat)
    requires WhiteSpace(c)
    ensures IsSpace(Utf8(c))
  {
  }

  /** What is trimmed as white space is exactly the white space of Unicode. */
  lemma SpacesAreUnicode(e: Bytes)
    ensures IsSpace(e) <==> EncodesWhiteSpace(e)
  {
    if IsSpace(e) {
      SpaceDecodes(e);
    }
    if EncodesWhiteSpace(e) {
      var c: nat :| WhiteSpace(c) && e == Utf8(c);
      SpaceEncodes(c);
    }
  }

  /** The first byte of a white space character says how long it is. */
  ghost predicate Shaped(e: Bytes) {
    && 1 <= |e| <= 3
    && (|e| == 1 <==> e[0] < 0x80) && (|e| == 2 <==> 0x80 <= e[0] < 0xe0)
    && (e[0] < 0x80 || e[0] >= 0xc0)
    && (forall i :: 1 <= i < |e| ==> 0x80 <= e[i] < 0xc0)
  }

  lemma SpacesAreShaped(e: Bytes)
    requires IsSpace(e)
    ensures Shaped(e)
  {
  }

  lemma AheadIsSpace(s: Bytes, w: nat)
    requires 1 <= w <= 3 && w <= |s| && IsSpace(s[..w])
    ensures SpaceAhead(s) == w
  {
    SpacesAreShaped(s[..w]);
    SpacesAreShaped(s[..SpaceAhead(s)]);
  }

  lemma BehindIsSpace(s: Bytes, w: nat)
    requires 1 <= w <= 3 && w <= |s| && IsSpace(s[|s| - w..])
    ensures SpaceBehind(s) == w
  {
    var last, v := s[|s| - w..], SpaceBehind(s);
    SpacesAreShaped(last);
    ShapedEnd(s, w, v);
  }

  /** A shorter end of a text that ends in a white space character is none. */
  lemma ShapedEnd(s: Bytes, w: nat, v: nat)
    requires 1 <= v <= w <= 3 && w <= |s| && Shaped(s[|s| - w..]) && IsSpace(s[|s| - v..])
    ensures v == w
  {
    SpacesAreShaped(s[|s| - v..]);
    assert s[|s| - v..][0] == s[|s| - w..][w - v];
  }

  ghost predicate AllSpaces(es: seq<Bytes>) {
    forall e :: e in es ==> IsSpace(e)
  }

  /** White space characters, one after the other. */
  ghost predicate Blank(a: Bytes) {
    exists es: seq<Bytes> :: AllSpaces(es) && a == Join(es)
  }

  /** Neither begins nor ends with a white space character. */
  ghost predicate BeginsBlank(t: Bytes, w: nat) {
    1 <= w <= 3 && w <= |t| && IsSpace(t[..w])
  }

  ghost predicate EndsBlank(t: Bytes, w: nat) {
    1 <= w <= 3 && w <= |t| && IsSpace(t[|t| - w..])
  }

  /** Neither begins nor ends with a white space character. */
  ghost predicate Tight(t: Bytes) {
    forall w: nat :: !BeginsBlank(t, w) && !EndsBlank(t, w)
  }

  lemma AheadMeans(t: Bytes)
    ensures SpaceAhead(t) == 0 <==> forall w: nat :: !BeginsBlank(t, w)
  {
    if forall w: nat :: !BeginsBlank(t, w) {
      assert !BeginsBlank(t, SpaceAhead(t));
    } else {
      var w: nat :| BeginsBlank(t, w);
      AheadIsSpace(t, w);
    }
  }

  lemma BehindMeans(t: Bytes)
    ensures SpaceBehind(t) == 0 <==> forall w: nat :: !EndsBlank(t, w)
  {
    if forall w: nat :: !EndsBlank(t, w) {
      assert !EndsBlank(t, SpaceBehind(t));
    } else {
      var w: nat :| EndsBlank(t, w);
      BehindIsSpace(t, w);
    }
  }

  lemma TightMeans(t: Bytes)
    ensures Tight(t) <==> SpaceAhead(t) == 0 && SpaceBehind(t) == 0
  {
    AheadMeans(t);
    BehindMeans(t);
  }

  /** No white space character begins or ends with another. */
  lemma SpacesStandApart(e: Bytes, rest: Bytes)
    requires IsSpace(e)
    ensures SpaceAhead(e + rest) == |e| && SpaceBehind(rest + e) == |e|
  {
    SpacesAreShaped(e);
    assert (e + rest)[..|e|] == e && (rest + e)[|rest|..] == e;
    AheadIsSpace(e + rest, |e|);
    BehindIsSpace(rest + e, |e|);
  }

  lemma BlankFront(e: Bytes, a: Bytes)
    requires IsSpace(e) && Blank(a)
    ensures Blank(e + a) && Blank(a + e)
  {
    var es: seq<Bytes> :| AllSpaces(es) && a == Join(es);
    JoinConcat([e], es);
    JoinSnoc([], e);
    assert [] + [e] == [e] && [] + e == e;
    assert AllSpaces([e] + es) && Join([e] + es) == e + a;
    JoinSnoc(es, e);
    assert AllSpaces(es + [e]);
  }

  lemma NoBlank()
    ensures Blank([])
  {
    assert AllSpaces([]) && Join<byte>([]) == [];
  }

  ghost predicate SpacedOut(s: Bytes, a: Bytes, t: Bytes, b: Bytes) {
    s == a + t + b && Blank(a) && Blank(b) && Tight(t)
  }

  lemma SpacedFront(e: Bytes, rest: Bytes, a: Bytes, t: Bytes, b: Bytes)
    requires IsSpace(e) && SpacedOut(rest, a, t, b)
    ensures SpacedOut(e + rest, e + a, t, b)
  {
    BlankFront(e, a);
  }

  lemma SpacedBack(e: Bytes, rest: Bytes, a: Bytes, t: Bytes, b: Bytes)
    requires IsSpace(e) && SpacedOut(rest, a, t, b)
    ensures SpacedOut(rest + e, a, t, b + e)
  {
    BlankFront(e, b);
  }

  lemma NotSpaced(s: Bytes)
    requires Tight(s)
    ensures SpacedOut(s, [], s, [])
  {
    NoBlank();
    assert [] + s + [] == s;
  }

  lemma SplitFront(s: Bytes, w: nat, a: Bytes, t: Bytes, b: Bytes)
    requires w <= |s| && IsSpace(s[..w]) && SpacedOut(s[w..], a, t, b)
    ensures SpacedOut(s, s[..w] + a, t, b)
  {
    SpacedFront(s[..w], s[w..], a, t, b);
    assert s == s[..w] + s[w..];
  }

  lemma SplitBack(s: Bytes, n: nat, a: Bytes, t: Bytes, b: Bytes)
    requires n <= |s| && IsSpace(s[n..]) && SpacedOut(s[..n], a, t, b)
    ensures SpacedOut(s, a, t, b + s[n..])
  {
    SpacedBack(s[n..], s[..n], a, t, b);
    assert s == s[..n] + s[n..];
  }

  lemma TrimStep(s: Bytes)
    ensures SpaceAhead(s) > 0 ==> TrimSpace(s) == TrimSpace(s[SpaceAhead(s)..])
    ensures SpaceAhead(s) == 0 && SpaceBehind(s) > 0 ==> TrimSpace(s) == TrimSpace(s[..|s| - SpaceBehind(s)])
  {
  }

  /** Trimming takes white space off both ends, and all there is. */
  lemma {:induction false} TrimSplits(s: Bytes) returns (a: Bytes, b: Bytes)
    ensures SpacedOut(s, a, TrimSpace(s), b)
  {
    var w, n := SpaceAhead(s), |s| - SpaceBehind(s);
    TrimStep(s);
    if w > 0 {
      a, b := TrimSplits(s[w..]);
      SplitFront(s, w, a, TrimSpace(s), b);
      a := s[..w] + a;
    } else if n < |s| {
      a, b := TrimSplits(s[..n]);
      SplitBack(s, n, a, TrimSpace(s), b);
      b := b + s[n..];
    } else {
      TightMeans(s);
      NotSpaced(s);
      a, b := [], [];
    }
  }

  lemma TrimFront(e: Bytes, s: Bytes)
    requires IsSpace(e)
    ensures TrimSpace(e + s) == TrimSpace(s)
  {
    SpacesStandApart(e, s);
    assert (e + s)[|e|..] == s;
  }

  lemma {:induction false} TrimBlanks(es: seq<Bytes>, s: Bytes)
    requires AllSpaces(es)
    ensures TrimSpace(Join(es) + s) == TrimSpace(s)
    decreases |es|
  {
    if es == [] {
      assert [] + s == s;
    } else {
      var n := |es| - 1;
      assert es[n] in es;
      TrimBlanks(es[..n], es[n] + s);
      ConcatAssociates(Join(es[..n]), es[n], s);
      TrimFront(es[n], s);
    }
  }

  /** What follows a text that begins with no white space cannot make it begin with some. */
  lemma StillTight(t: Bytes, e: Bytes, rest: Bytes)
    requires t != [] && SpaceAhead(t) == 0 && IsSpace(e)
    ensures SpaceAhead(t + (e + rest)) == 0
  {
    var s := t + (e + rest);
    SpacesAreShaped(e);
    forall w: nat
      ensures !BeginsBlank(s, w)
    {
      if BeginsBlank(s, w) {
        BlankBegins(t, e, s, w);
      }
    }
    assert !BeginsBlank(s, SpaceAhead(s));
  }

  lemma BlankBegins(t: Bytes, e: Bytes, s: Bytes, w: nat)
    requires t != [] && e != [] && t + e <= s && Shaped(e) && BeginsBlank(s, w)
    ensures SpaceAhead(t) > 0
  {
    assert w > |t| ==> s[..w][|t|] == (t + e)[|t|];
    SpacesAreShaped(s[..w]);
    assert s[..w] == t[..w];
    AheadIsSpace(t, w);
  }

  lemma {:induction false} TrimBehind(t: Bytes, es: seq<Bytes>)
    requires t != [] && Tight(t) && AllSpaces(es)
    ensures TrimSpace(t + Join(es)) == t
    decreases |es|
  {
    TightMeans(t);
    if es == [] {
      assert t + [] == t;
    } else {
      var n := |es| - 1;
      assert es[n] in es;
      assert AllSpaces(es[..n]);
      NotAhead(t, es);
      var s := t + Join(es);
      ConcatAssociates(t, Join(es[..n]), es[n]);
      SpacesStandApart(es[n], t + Join(es[..n]));
      assert s[..|s| - |es[n]|] == t + Join(es[..n]);
      TrimBehind(t, es[..n]);
    }
  }

  lemma NotAhead(t: Bytes, es: seq<Bytes>)
    requires t != [] && SpaceAhead(t) == 0 && AllSpaces(es) && es != []
    ensures SpaceAhead(t + Join(es)) == 0
  {
    assert es == [es[0]] + es[1..];
    JoinConcat([es[0]], es[1..]);
    JoinSnoc([], es[0]);
    assert [] + [es[0]] == [es[0]] && [] + es[0] == es[0];
    assert es[0] in es;
    StillTight(t, es[0], Join(es[1..]));
  }

  /** And nothing else: it leaves whatever stands tight between blanks. */
  lemma TrimIsUnique(s: Bytes, a: Bytes, t: Bytes, b: Bytes)
    requires SpacedOut(s, a, t, b)
    ensures TrimSpace(s) == t
  {
    var front: seq<Bytes> :| AllSpaces(front) && a == Join(front);
    var back: seq<Bytes> :| AllSpaces(back) && b == Join(back);
    ConcatAssociates(a, t, b);
    TrimBlanks(front, t + b);
    if t == [] {
      assert t + b == b + [];
      TrimBlanks(back, []);
    } else {
      TrimBehind(t, back);
    }
  }

  // --- Quotes ---

  ghost predicate AllQuotes(q: Bytes) {
    forall i :: 0 <= i < |q| ==> q[i] == 0x22
  }

  ghost predicate Unquoted(p: Bytes) {
    p == [] || (p[0] != 0x22 && p[|p| - 1] != 0x22)
  }

  ghost predicate QuotedAs(s: Bytes, q: Bytes, p: Bytes, r: Bytes) {
    s == q + p + r && AllQuotes(q) && AllQuotes(r) && Unquoted(p)
  }

  lemma QuoteFront(rest: Bytes, q: Bytes, p: Bytes, r: Bytes)
    requires QuotedAs(rest, q, p, r)
    ensures QuotedAs([QUOTE] + rest, [QUOTE] + q, p, r)
  {
  }

  lemma QuoteBack(rest: Bytes, q: Bytes, p: Bytes, r: Bytes)
    requires QuotedAs(rest, q, p, r)
    ensures QuotedAs(rest + [QUOTE], q, p, r + [QUOTE])
  {
  }

  lemma NotQuoted(s: Bytes)
    requires Unquoted(s)
    ensures QuotedAs(s, [], s, [])
  {
    assert [] + s + [] == s;
  }

  lemma {:induction false} UnquoteSplits(s: Bytes) returns (q: Bytes, r: Bytes)
    ensures QuotedAs(s, q, TrimQuotes(s), r)
  {
    if s != [] && s[0] == QUOTE {
      var rest := s[1..];
      q, r := UnquoteSplits(rest);
      QuoteFront(rest, q, TrimQuotes(rest), r);
      assert s == [QUOTE] + rest;
      q := [QUOTE] + q;
    } else if s != [] && s[|s| - 1] == QUOTE {
      var rest := s[..|s| - 1];
      q, r := UnquoteSplits(rest);
      QuoteBack(rest, q, TrimQuotes(rest), r);
      assert s == rest + [QUOTE];
      r := r + [QUOTE];
    } else {
      q, r := [], [];
      NotQuoted(s);
    }
  }

  lemma {:induction false} UnquoteIsUnique(s: Bytes, q: Bytes, p: Bytes, r: Bytes)
    requires QuotedAs(s, q, p, r)
    ensures TrimQuotes(s) == p
    decreases |s|
  {
    if s != [] && s[0] == QUOTE {
      if q != [] {
        assert s[1..] == q[1..] + p + r;
        UnquoteIsUnique(s[1..], q[1..], p, r);
      } else {
        assert p == [] && s[1..] == [] + p + r[1..];
        UnquoteIsUnique(s[1..], [], p, r[1..]);
      }
    } else if s != [] && s[|s| - 1] == QUOTE {
      var n := |r| - 1;
      assert s[..|s| - 1] == q + p + r[..n];
      UnquoteIsUnique(s[..|s| - 1], q, p, r[..n]);
    } else {
      assert q == [] && r == [];
    }
  }

  // --- The body ---

  /** `9;9;`, blanks, quotes, the path, quotes, blanks. */
  ghost predicate CarriesIn(body: Bytes, p: PathText, a: Bytes, q: Bytes, r: Bytes, b: Bytes) {
    && body == [0x39, 0x3b, 0x39, 0x3b] + (a + (q + p + r) + b)
    && Blank(a) && Blank(b) && Tight(q + p + r) && AllQuotes(q) && AllQuotes(r) && Unquoted(p)
  }

  ghost predicate Carries(body: Bytes, p: PathText) {
    exists a: Bytes, q: Bytes, r: Bytes, b: Bytes :: CarriesIn(body, p, a, q, r, b)
  }

  lemma TrimmedIsCarried(body: Bytes)
    requires PREFIX <= body
    ensures Carries(body, TrimQuotes(TrimSpace(body[|PREFIX|..])))
  {
    var s := body[|PREFIX|..];
    var a, b := TrimSplits(s);
    var q, r := UnquoteSplits(TrimSpace(s));
    assert body == PREFIX + s;
    assert CarriesIn(body, TrimQuotes(TrimSpace(s)), a, q, r, b);
  }

  lemma CarriedIsTrimmed(body: Bytes, p: PathText)
    requires Carries(body, p)
    ensures PREFIX <= body && TrimQuotes(TrimSpace(body[|PREFIX|..])) == p
  {
    var a: Bytes, q: Bytes, r: Bytes, b: Bytes :| CarriesIn(body, p, a, q, r, b);
    assert body[|PREFIX|..] == a + (q + p + r) + b;
    TrimIsUnique(body[|PREFIX|..], a, q + p + r, b);
    UnquoteIsUnique(q + p + r, q, p, r);
  }

  /** A body is read as a path exactly when it carries that path and the path is not empty:
      nothing else comes off, and a body without the `9;9;` carries none. */
  lemma ReadIffCarried(body: Bytes, p: PathText)
    ensures ParseOsc99(body) == [p] <==> p != [] && Carries(body, p)
  {
    if PREFIX <= body {
      TrimmedIsCarried(body);
    }
    if Carries(body, p) {
      CarriedIsTrimmed(body, p);
    }
  }

  lemma SpacesHoldNoQuote(e: Bytes)
    requires IsSpace(e)
    ensures 0x22 !in e
  {
  }

  lemma QuotedFront(q: Bytes, p: Bytes, r: Bytes, w: nat)
    requires p != [] && AllQuotes(q) && AllQuotes(r) && 1 <= w <= |q + p + r|
    ensures 0x22 in (q + p + r)[..w] || (w <= |p| && (q + p + r)[..w] == p[..w])
  {
    var front := (q + p + r)[..w];
    if q != [] {
      assert front[0] == 0x22;
    } else if w > |p| {
      assert front[|p|] == 0x22;
    }
  }

  lemma QuotedBack(q: Bytes, p: Bytes, r: Bytes, w: nat)
    requires p != [] && AllQuotes(q) && AllQuotes(r) && 1 <= w <= |q + p + r|
    ensures 0x22 in (q + p + r)[|q + p + r| - w..]
            || (w <= |p| && (q + p + r)[|q + p + r| - w..] == p[|p| - w..])
  {
    var back := (q + p + r)[|q + p + r| - w..];
    if r != [] {
      assert back[w - 1] == 0x22;
    } else if w > |p| {
      assert back[w - |p| - 1] == 0x22;
    }
  }

  lemma QuotingStaysTight(q: Bytes, p: PathText, r: Bytes)
    requires p != [] && Tight(p) && AllQuotes(q) && AllQuotes(r)
    ensures Tight(q + p + r)
  {
    var t := q + p + r;
    forall w: nat
      ensures !BeginsBlank(t, w) && !EndsBlank(t, w)
    {
      if BeginsBlank(t, w) {
        SpacesHoldNoQuote(t[..w]);
        QuotedFront(q, p, r, w);
        assert BeginsBlank(p, w);
      }
      if EndsBlank(t, w) {
        SpacesHoldNoQuote(t[|t| - w..]);
        QuotedBack(q, p, r, w);
        assert EndsBlank(p, w);
      }
    }
  }

  function Body(a: Bytes, q: Bytes, p: PathText, r: Bytes, b: Bytes): Bytes {
    [0x39, 0x3b, 0x39, 0x3b] + (a + (q + p + r) + b)
  }

  /** However a trackable path is quoted and set off, such a body carries it. */
  lemma QuotedPathsAreCarried(a: Bytes, q: Bytes, p: PathText, r: Bytes, b: Bytes)
    requires Trackable(p) && AllQuotes(q) && AllQuotes(r) && Blank(a) && Blank(b)
    ensures Carries(Body(a, q, p, r, b), p)
  {
    TightMeans(p);
    QuotingStaysTight(q, p, r);
    assert CarriesIn(Body(a, q, p, r, b), p, a, q, r, b);
  }

  /** A whole sequence, ended either way, reports the path its body carries. */
  lemma CarriedPathsAreReported(raw: Bytes, p: PathText, rest: Bytes)
    requires Unterminated(raw) && |raw| <= 4096 && p != [] && Carries(raw, p)
    ensures PathsIn([0x1b, 0x5d] + raw + ([0x07] + rest)) == [p] + PathsIn(rest)
    ensures PathsIn([0x1b, 0x5d] + raw + ([0x1b, 0x5c] + rest)) == [p] + PathsIn(rest)
  {
    ReadIffCarried(raw, p);
    SequenceIsRead(raw, rest);
  }

  lemma SequenceIsRead(raw: Bytes, rest: Bytes)
    requires Unterminated(raw) && |raw| <= 4096
    ensures PathsIn([0x1b, 0x5d] + raw + ([0x07] + rest)) == ParseOsc99(raw) + PathsIn(rest)
    ensures PathsIn([0x1b, 0x5d] + raw + ([0x1b, 0x5c] + rest)) == ParseOsc99(raw) + PathsIn(rest)
  {
    assert Truncated(raw) == raw;
    OscClosed(raw, [BEL], rest);
    OscClosed(raw, [ESC, BACKSLASH], rest);
  }
}
