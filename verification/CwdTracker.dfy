/** The working-directory tracker: a byte-at-a-time scanner for OSC 9;9, its
    independent description as a parser of the whole stream, and the prompts the
    relay makes the shells print for it. */
module Cwd {
  import opened Common

  // A path as the relay stores it: the bytes of a Go string.
  type PathText = Bytes

  const MAX_BODY := 4096
  const PREFIX: Bytes := [0x39, 0x3b, 0x39, 0x3b]  // 9;9;
  const RBRACKET: byte := 0x5d
  const BACKSLASH: byte := 0x5c
  const QUOTE: byte := 0x22
  const GREATER: byte := 0x3e
  const SPACE: byte := 0x20

  // --- The body of one OSC sequence ---

  /** The UTF-8 encodings of the Unicode white space characters. */
  predicate IsSpace(e: Bytes) {
    || (|e| == 1 && (0x09 <= e[0] <= 0x0d || e[0] == SPACE))
    || (|e| == 2 && e[0] == 0xc2 && (e[1] == 0x85 || e[1] == 0xa0))
    || (|e| == 3 && e[0] == 0xe1 && e[1] == 0x9a && e[2] == 0x80)
    || (|e| == 3 && e[0] == 0xe2 && e[1] == 0x80 &&
        (0x80 <= e[2] <= 0x8a || e[2] == 0xa8 || e[2] == 0xa9 || e[2] == 0xaf))
    || (|e| == 3 && e[0] == 0xe2 && e[1] == 0x81 && e[2] == 0x9f)
    || (|e| == 3 && e[0] == 0xe3 && e[1] == 0x80 && e[2] == 0x80)
  }

  /** The width of the white space character `s` starts with, or 0. */
  function SpaceAhead(s: Bytes): (w: nat)
    ensures w <= |s| && w <= 3 && (w > 0 ==> IsSpace(s[..w]))
  {
    if |s| >= 1 && IsSpace(s[..1]) then 1
    else if |s| >= 2 && IsSpace(s[..2]) then 2
    else if |s| >= 3 && IsSpace(s[..3]) then 3
    else 0
  }

  function SpaceBehind(s: Bytes): (w: nat)
    ensures w <= |s| && w <= 3 && (w > 0 ==> IsSpace(s[|s| - w..]))
  {
    if |s| >= 1 && IsSpace(s[|s| - 1..]) then 1
    else if |s| >= 2 && IsSpace(s[|s| - 2..]) then 2
    else if |s| >= 3 && IsSpace(s[|s| - 3..]) then 3
    else 0
  }

  function TrimSpace(s: Bytes): (t: Bytes)
    ensures |t| <= |s|
    ensures t == s <==> SpaceAhead(s) == 0 && SpaceBehind(s) == 0
  {
    if SpaceAhead(s) > 0 then TrimSpace(s[SpaceAhead(s)..])
    else if SpaceBehind(s) > 0 then TrimSpace(s[..|s| - SpaceBehind(s)])
    else s
  }

  function TrimQuotes(s: Bytes): (t: Bytes)
    ensures |t| <= |s|
    ensures t == s <==> s == [] || (s[0] != QUOTE && s[|s| - 1] != QUOTE)
  {
    if s != [] && s[0] == QUOTE then TrimQuotes(s[1..])
    else if s != [] && s[|s| - 1] == QUOTE then TrimQuotes(s[..|s| - 1])
    else s
  }

  ghost predicate DrawnFrom(t: Bytes, s: Bytes) {
    forall b :: b in t ==> b in s
  }

  lemma {:induction false} TrimSpaceKeeps(s: Bytes)
    ensures DrawnFrom(TrimSpace(s), s)
  {
    if SpaceAhead(s) > 0 {
      TrimSpaceKeeps(s[SpaceAhead(s)..]);
    } else if SpaceBehind(s) > 0 {
      TrimSpaceKeeps(s[..|s| - SpaceBehind(s)]);
    }
  }

  lemma {:induction false} TrimQuotesKeeps(s: Bytes)
    ensures DrawnFrom(TrimQuotes(s), s)
  {
    if s != [] && s[0] == QUOTE {
      TrimQuotesKeeps(s[1..]);
    } else if s != [] && s[|s| - 1] == QUOTE {
      TrimQuotesKeeps(s[..|s| - 1]);
    }
  }

  /** The path carried by an OSC body, as a list of zero or one. */
  function ParseOsc99(body: Bytes): (paths: seq<PathText>)
    ensures |paths| <= 1
  {
    if !(PREFIX <= body) then []
    else
      var payload := TrimQuotes(TrimSpace(body[|PREFIX|..]));
      if payload == [] then [] else [payload]
  }

  // --- The tracker, one byte at a time ---

  datatype ParserState = Scan | AfterEsc | InOsc | OscEsc

  datatype Tracker = Tracker(state: ParserState, body: Bytes)

  const NEW_TRACKER := Tracker(Scan, [])

  /** One byte through the state machine: the next state and any path it completes. */
  function FeedByte(t: Tracker, b: byte): (Tracker, seq<PathText>) {
    match t.state
    case Scan => (if b == ESC then t.(state := AfterEsc) else t, [])
    case AfterEsc =>
      if b == RBRACKET then (Tracker(InOsc, []), [])
      else if b == ESC then (t, [])
      else (t.(state := Scan), [])
    case InOsc =>
      if b == BEL then (Tracker(Scan, []), ParseOsc99(t.body))
      else if b == ESC then (t.(state := OscEsc), [])
      else if |t.body| < MAX_BODY then (t.(body := t.body + [b]), [])
      else (t, [])
    case OscEsc =>
      if b == BACKSLASH then (Tracker(Scan, []), ParseOsc99(t.body))
      else if b == ESC then (Tracker(AfterEsc, []), [])
      else (Tracker(Scan, []), [])
  }

  function FeedAll(t: Tracker, p: Bytes): (Tracker, seq<PathText>)
    decreases |p|
  {
    if p == [] then (t, [])
    else
      var (t1, first) := FeedByte(t, p[0]);
      var (t2, rest) := FeedAll(t1, p[1..]);
      (t2, first + rest)
  }

  class CwdTracker {
    var state: ParserState
    var body: Bytes

    ghost function Value(): Tracker
      reads this
    {
      Tracker(state, body)
    }

    constructor ()
      ensures Value() == NEW_TRACKER
    {
      state, body := Scan, [];
    }

    method Feed(p: Bytes) returns (out: seq<PathText>)
      modifies this
      ensures (Value(), out) == FeedAll(old(Value()), p)
    {
      out := [];
      ghost var start := Value();
      for i := 0 to |p|
        invariant (Value(), out) == FeedAll(start, p[..i])
      {
        FeedSnoc(start, p[..i], p[i]);
        assert p[..i + 1] == p[..i] + [p[i]];
        assert out + [] == out;
        var b := p[i];
        match state {
          case Scan =>
            if b == ESC {
              state := AfterEsc;
            }
          case AfterEsc =>
            if b == RBRACKET {
              state := InOsc;
              body := [];
            } else if b != ESC {
              state := Scan;
            }
          case InOsc =>
            if b == BEL {
              out := out + ParseOsc99(body);
              state := Scan;
              body := [];
            } else if b == ESC {
              state := OscEsc;
            } else if |body| < MAX_BODY {
              body := body + [b];
            }
          case OscEsc =>
            if b == BACKSLASH {
              out := out + ParseOsc99(body);
              state := Scan;
              body := [];
            } else {
              body := [];
              state := if b == ESC then AfterEsc else Scan;
            }
        }
      }
      assert p[..|p|] == p;
    }
  }

  lemma {:induction false} FeedConcat(t: Tracker, p: Bytes, q: Bytes)
    ensures FeedAll(t, p + q).0 == FeedAll(FeedAll(t, p).0, q).0
    ensures FeedAll(t, p + q).1 == FeedAll(t, p).1 + FeedAll(FeedAll(t, p).0, q).1
    decreases |p|
  {
    if p == [] {
      assert p + q == q;
      assert [] + FeedAll(t, q).1 == FeedAll(t, q).1;
    } else {
      var (t1, o1) := FeedByte(t, p[0]);
      FeedConcat(t1, p[1..], q);
      assert (p + q)[1..] == p[1..] + q;
      ConcatAssociates(o1, FeedAll(t1, p[1..]).1, FeedAll(FeedAll(t1, p[1..]).0, q).1);
    }
  }

  lemma FeedSnoc(t: Tracker, p: Bytes, b: byte)
    ensures FeedAll(t, p + [b]).0 == FeedByte(FeedAll(t, p).0, b).0
    ensures FeedAll(t, p + [b]).1 == FeedAll(t, p).1 + FeedByte(FeedAll(t, p).0, b).1
  {
    FeedConcat(t, p, [b]);
    var (t2, last) := FeedByte(FeedAll(t, p).0, b);
    assert [b][1..] == [];
    assert FeedAll(t2, []) == (t2, []);
    assert last + [] == last;
  }

  /** Runaway sequences never grow the body past its bound. */
  lemma {:induction false} BodyBounded(t: Tracker, p: Bytes)
    requires |t.body| <= 4096
    ensures |FeedAll(t, p).0.body| <= 4096
    decreases |p|
  {
    if p != [] {
      BodyBounded(FeedByte(t, p[0]).0, p[1..]);
    }
  }

  // --- The whole stream at once ---

  /** The index of the first BEL or ESC at or after `k`, or the length of `s`. */
  function BodyEnd(s: Bytes, k: nat): (e: nat)
    requires k <= |s|
    ensures k <= e <= |s|
    ensures forall i :: k <= i < e ==> s[i] != BEL && s[i] != ESC
    ensures e < |s| ==> s[e] == BEL || s[e] == ESC
    decreases |s| - k
  {
    if k == |s| || s[k] == BEL || s[k] == ESC then k else BodyEnd(s, k + 1)
  }

  function Truncated(raw: Bytes): Bytes {
    raw[..Min(|raw|, MAX_BODY)]
  }

  /** Every path reported by a stream: after each ESC ] the raw body runs to the
      first BEL or ESC; BEL, or ESC followed by a backslash, completes it. An ESC
      followed by anything else abandons it, and only a second ESC can begin anew. */
  function PathsIn(s: Bytes): seq<PathText>
    decreases |s|
  {
    if |s| < 2 then []
    else if s[0] != ESC || s[1] != RBRACKET then PathsIn(s[1..])
    else
      var e := BodyEnd(s, 2);
      if e == |s| then []
      else if s[e] == BEL then ParseOsc99(Truncated(s[2..e])) + PathsIn(s[e + 1..])
      else if e + 1 == |s| then []
      else if s[e + 1] == BACKSLASH then ParseOsc99(Truncated(s[2..e])) + PathsIn(s[e + 2..])
      else if s[e + 1] == ESC then PathsIn(s[e + 1..])
      else PathsIn(s[e + 2..])
  }

  predicate Unterminated(raw: Bytes) {
    forall i :: 0 <= i < |raw| ==> raw[i] != BEL && raw[i] != ESC
  }

  /** The unread part of the stream that a tracker state stands for. */
  ghost predicate StandsFor(t: Tracker, raw: Bytes, unread: Bytes) {
    match t.state
    case Scan => unread == []
    case AfterEsc => unread == [ESC]
    case InOsc => Unterminated(raw) && t.body == Truncated(raw) && unread == [ESC, RBRACKET] + raw
    case OscEsc => Unterminated(raw) && t.body == Truncated(raw) && unread == [ESC, RBRACKET] + raw + [ESC]
  }

  lemma BodyEndAt(raw: Bytes, rest: Bytes)
    requires Unterminated(raw)
    requires rest == [] || rest[0] == BEL || rest[0] == ESC
    ensures BodyEnd([ESC, RBRACKET] + raw + rest, 2) == 2 + |raw|
  {
    var s := [ESC, RBRACKET] + raw + rest;
    assert forall i :: 2 <= i < 2 + |raw| ==> s[i] == raw[i - 2];
    assert rest != [] ==> s[2 + |raw|] == rest[0];
  }

  /** How the whole-stream parser reads an OSC whose body is known. */
  lemma PathsInOsc(raw: Bytes, rest: Bytes)
    requires Unterminated(raw)
    ensures rest == [] ==> PathsIn([ESC, RBRACKET] + raw + rest) == []
    ensures rest != [] && rest[0] == BEL ==>
              PathsIn([ESC, RBRACKET] + raw + rest) == ParseOsc99(Truncated(raw)) + PathsIn(rest[1..])
    ensures |rest| == 1 && rest[0] == ESC ==> PathsIn([ESC, RBRACKET] + raw + rest) == []
    ensures |rest| > 1 && rest[0] == ESC && rest[1] == BACKSLASH ==>
              PathsIn([ESC, RBRACKET] + raw + rest) == ParseOsc99(Truncated(raw)) + PathsIn(rest[2..])
    ensures |rest| > 1 && rest[0] == ESC && rest[1] == ESC ==>
              PathsIn([ESC, RBRACKET] + raw + rest) == PathsIn(rest[1..])
    ensures |rest| > 1 && rest[0] == ESC && rest[1] != ESC && rest[1] != BACKSLASH ==>
              PathsIn([ESC, RBRACKET] + raw + rest) == PathsIn(rest[2..])
  {
    if rest == [] || rest[0] == BEL || rest[0] == ESC {
      var s := [ESC, RBRACKET] + raw + rest;
      var e := 2 + |raw|;
      BodyEndAt(raw, rest);
      assert s[2..e] == raw;
      assert s[e..] == rest;
      if rest != [] {
        assert s[e + 1..] == rest[1..];
        if |rest| > 1 {
          assert s[e + 2..] == rest[2..];
        }
      }
    }
  }

  // One byte moves from the new bytes to the unread ones; what the parser finds
  // changes by exactly what the tracker reports.

  lemma StepScan(b: byte, rest: Bytes)
    requires b != ESC
    ensures PathsIn([b] + rest) == PathsIn(rest)
  {
    assert ([b] + rest)[1..] == rest;
  }

  lemma StepAfterEsc(b: byte, rest: Bytes)
    requires b != RBRACKET
    ensures b == ESC ==> PathsIn([ESC, b] + rest) == PathsIn([ESC] + rest)
    ensures b != ESC ==> PathsIn([ESC, b] + rest) == PathsIn(rest)
  {
    assert ([ESC, b] + rest)[1..] == [b] + rest;
    if b != ESC {
      StepScan(b, rest);
    }
  }

  lemma StepInOsc(raw: Bytes, b: byte, rest: Bytes)
    requires Unterminated(raw)
    ensures b == BEL ==>
              PathsIn([ESC, RBRACKET] + raw + ([b] + rest)) == ParseOsc99(Truncated(raw)) + PathsIn(rest)
    ensures [ESC, RBRACKET] + raw + ([b] + rest) == [ESC, RBRACKET] + (raw + [b]) + rest
    ensures [ESC, RBRACKET] + raw + ([b] + rest) == [ESC, RBRACKET] + raw + [b] + rest
  {
    PathsInOsc(raw, [b] + rest);
    assert ([b] + rest)[1..] == rest;
  }

  lemma StepOscEsc(raw: Bytes, b: byte, rest: Bytes)
    requires Unterminated(raw)
    ensures PathsIn([ESC, RBRACKET] + raw + [ESC] + ([b] + rest)) ==
            if b == BACKSLASH then ParseOsc99(Truncated(raw)) + PathsIn(rest)
            else if b == ESC then PathsIn([ESC] + rest)
            else PathsIn(rest)
  {
    var tail := [ESC] + ([b] + rest);
    ConcatAssociates([ESC, RBRACKET] + raw, [ESC], [b] + rest);
    PathsInOsc(raw, tail);
    assert tail[1] == b;
    assert tail[1..] == [b] + rest;
    assert tail[2..] == rest;
  }

  lemma StepUnread(t: Tracker, raw: Bytes, unread: Bytes, b: byte, rest: Bytes)
    returns (raw1: Bytes, unread1: Bytes)
    requires StandsFor(t, raw, unread)
    ensures StandsFor(FeedByte(t, b).0, raw1, unread1)
    ensures PathsIn(unread + ([b] + rest)) == FeedByte(t, b).1 + PathsIn(unread1 + rest)
  {
    raw1, unread1 := [], [];
    assert [] + rest == rest;
    match t.state {
      case Scan =>
        if b == ESC {
          unread1 := [ESC];
        } else {
          StepScan(b, rest);
        }
        assert unread + ([b] + rest) == [b] + rest;
      case AfterEsc =>
        assert unread + ([b] + rest) == [ESC, b] + rest;
        if b == RBRACKET {
          unread1 := [ESC, RBRACKET];
          assert [ESC, RBRACKET] + [] == unread1;
        } else {
          StepAfterEsc(b, rest);
          unread1 := if b == ESC then [ESC] else [];
        }
      case InOsc =>
        StepInOsc(raw, b, rest);
        if b == ESC {
          raw1, unread1 := raw, [ESC, RBRACKET] + raw + [ESC];
        } else if b != BEL {
          raw1, unread1 := raw + [b], [ESC, RBRACKET] + (raw + [b]);
        }
      case OscEsc =>
        StepOscEsc(raw, b, rest);
        unread1 := if b == ESC then [ESC] else [];
    }
  }

  lemma NothingUnread(t: Tracker, raw: Bytes, unread: Bytes)
    requires StandsFor(t, raw, unread)
    ensures PathsIn(unread) == []
  {
    if t.state == InOsc {
      PathsInOsc(raw, []);
      assert [ESC, RBRACKET] + raw + [] == unread;
    } else if t.state == OscEsc {
      PathsInOsc(raw, [ESC]);
    }
  }

  /** From any state, the tracker reports exactly what the parser finds in the
      unread bytes followed by the new ones. */
  lemma {:induction false} FeedFrom(t: Tracker, raw: Bytes, unread: Bytes, s: Bytes)
    requires StandsFor(t, raw, unread)
    ensures FeedAll(t, s).1 == PathsIn(unread + s)
    decreases |s|
  {
    if s == [] {
      NothingUnread(t, raw, unread);
      assert unread + s == unread;
    } else {
      var raw1, unread1 := StepUnread(t, raw, unread, s[0], s[1..]);
      FeedFrom(FeedByte(t, s[0]).0, raw1, unread1, s[1..]);
      assert s == [s[0]] + s[1..];
    }
  }

  function FeedChunks(t: Tracker, chunks: seq<Bytes>): (Tracker, seq<PathText>) {
    if chunks == [] then (t, [])
    else
      var (t1, first) := FeedChunks(t, chunks[..|chunks| - 1]);
      var (t2, last) := FeedAll(t1, chunks[|chunks| - 1]);
      (t2, first + last)
  }

  lemma {:induction false} FeedChunksIsFeedJoined(t: Tracker, chunks: seq<Bytes>)
    ensures FeedChunks(t, chunks) == FeedAll(t, Join(chunks))
  {
    if chunks != [] {
      var init, last := chunks[..|chunks| - 1], chunks[|chunks| - 1];
      FeedChunksIsFeedJoined(t, init);
      FeedConcat(t, Join(init), last);
    }
  }

  /** However the output is cut into reads, the paths reported are those of the
      whole stream, and two cuts of one stream leave the tracker in one state. */
  lemma ChunkingDoesNotMatter(chunks: seq<Bytes>, others: seq<Bytes>)
    requires Join(chunks) == Join(others)
    ensures FeedChunks(NEW_TRACKER, chunks) == FeedChunks(NEW_TRACKER, others)
    ensures FeedChunks(NEW_TRACKER, chunks).1 == PathsIn(Join(chunks))
    ensures |FeedChunks(NEW_TRACKER, chunks).0.body| <= 4096
  {
    FeedChunksIsFeedJoined(NEW_TRACKER, chunks);
    FeedChunksIsFeedJoined(NEW_TRACKER, others);
    FeedFrom(NEW_TRACKER, [], [], Join(chunks));
    assert [] + Join(chunks) == Join(chunks);
    BodyBounded(NEW_TRACKER, Join(chunks));
  }

  /** The working directory the relay should show after some output. */
  function LastPath(paths: seq<PathText>): PathText {
    if paths == [] then [] else paths[|paths| - 1]
  }
}
