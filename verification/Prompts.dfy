/** The prompts the relay installs in PowerShell and cmd, and the proof that the
    tracker reads back exactly the directories they print. */
module Prompts {
  import opened Common
  import opened Cwd

  const OSC: Bytes := [ESC, RBRACKET]

  datatype Prompt =
    | PowerShell(path: PathText, base: Bytes)  // base: what the user's own prompt prints
    | Cmd(path: PathText)

  function Text(p: Prompt): Bytes {
    match p
    case PowerShell(path, base) => OSC + (PREFIX + path) + ([BEL] + base)
    case Cmd(path) => OSC + (PREFIX + path) + ([ESC, BACKSLASH] + (path + [GREATER, SPACE]))
  }

  /** What follows the completed sequence on the same line. */
  function Trailer(p: Prompt): Bytes {
    match p
    case PowerShell(_, base) => base
    case Cmd(path) => path + [GREATER, SPACE]
  }

  // --- The prompts as they are configured ---

  function Ascii(text: string): Bytes {
    if text == "" then [] else (if text[0] < 128 as char then [text[0] as int] else []) + Ascii(text[1..])
  }

  lemma AsciiOf()
    ensures Ascii("]9;9;") == [0x5d, 0x39, 0x3b, 0x39, 0x3b] && Ascii("\\") == [0x5c] && Ascii("> ") == [0x3e, 0x20]
  {
    assert "]9;9;"[1..] == "9;9;" && "9;9;"[1..] == ";9;" && ";9;"[1..] == "9;" && "9;"[1..] == ";" && ";"[1..] == "";
    assert "\\"[1..] == "" && "> "[1..] == " " && " "[1..] == "";
  }

  /** The prompts read back here are those the relay configures the shells with: an escape,
      `]9;9;`, the directory and a BEL before PowerShell's own prompt; and for cmd an escape,
      `]9;9;`, the directory, an escape, a backslash, the directory again and `> `. */
  lemma PromptsAreThoseConfigured(path: PathText, base: Bytes)
    ensures Text(PowerShell(path, base)) == [27] + Ascii("]9;9;") + path + [7] + base
    ensures Text(Cmd(path)) == [27] + Ascii("]9;9;") + path + [27] + Ascii("\\") + path + Ascii("> ")
  {
    AsciiOf();
    assert OSC + PREFIX == [27] + Ascii("]9;9;");
    Grouped(OSC, PREFIX, path, [BEL], base);
    assert [ESC, BACKSLASH] == [27] + Ascii("\\");
    Grouped(OSC, PREFIX, path, [ESC, BACKSLASH], path + [GREATER, SPACE]);
    assert (OSC + PREFIX + path + [ESC, BACKSLASH]) + (path + [GREATER, SPACE])
        == [27] + Ascii("]9;9;") + path + [27] + Ascii("\\") + path + Ascii("> ");
  }

  lemma Grouped(a: Bytes, b: Bytes, c: Bytes, d: Bytes, e: Bytes)
    ensures a + (b + c) + (d + e) == a + b + c + d + e
  {
  }

  /** The paths that survive printing and parsing. */
  ghost predicate Trackable(path: PathText) {
    && path != []
    && Unterminated(path)
    && 4 + |path| <= 4096
    && SpaceAhead(path) == 0 && SpaceBehind(path) == 0
    && path[0] != QUOTE && path[|path| - 1] != QUOTE
  }

  /** Output that starts no operating-system command of its own. */
  ghost predicate Quiet(g: Bytes) {
    forall i :: 0 <= i < |g| - 1 ==> !(g[i] == ESC && g[i + 1] == RBRACKET)
  }

  lemma {:induction false} QuietIsSkipped(g: Bytes, rest: Bytes)
    requires Quiet(g)
    requires rest == [] || rest[0] != RBRACKET
    ensures PathsIn(g + rest) == PathsIn(rest)
    decreases |g|
  {
    var s := g + rest;
    if g == [] {
      assert s == rest;
    } else if |s| >= 2 {
      QuietIsSkipped(g[1..], rest);
      assert s[1..] == g[1..] + rest;
      assert s[0] == g[0] && (|g| >= 2 ==> s[1] == g[1]);
    }
  }

  lemma PrefixStripped(path: PathText)
    ensures PREFIX <= PREFIX + path
    ensures (PREFIX + path)[|PREFIX|..] == path
  {
  }

  lemma ParsedBody(path: PathText)
    ensures ParseOsc99(PREFIX + path) == var t := TrimQuotes(TrimSpace(path)); if t == [] then [] else [t]
    ensures ParseOsc99(PREFIX + path) == [path] <==> path != [] && TrimSpace(path) == path && TrimQuotes(path) == path
  {
    PrefixStripped(path);
    var t := TrimQuotes(TrimSpace(path));
    assert t == path ==> |TrimSpace(path)| == |path|;
  }

  lemma OscClosed(raw: Bytes, closing: Bytes, rest: Bytes)
    requires Unterminated(raw)
    ensures closing == [BEL] || closing == [ESC, BACKSLASH] ==>
              PathsIn(OSC + raw + (closing + rest)) == ParseOsc99(Truncated(raw)) + PathsIn(rest)
  {
    PathsInOsc(raw, closing + rest);
    if closing == [BEL] {
      assert (closing + rest)[1..] == rest;
    } else if closing == [ESC, BACKSLASH] {
      assert (closing + rest)[2..] == rest;
    }
  }

  lemma Regrouped(a: Bytes, b: Bytes, c: Bytes, d: Bytes)
    ensures a + (b + c) + d == a + (b + (c + d))
  {
    ConcatAssociates(a, b + c, d);
    ConcatAssociates(b, c, d);
  }

  lemma PrefixUnterminated(path: PathText)
    requires Unterminated(path)
    ensures Unterminated(PREFIX + path)
  {
  }

  lemma TextParsed(p: Prompt, rest: Bytes)
    requires Unterminated(p.path)
    ensures PathsIn(Text(p) + rest) == ParseOsc99(Truncated(PREFIX + p.path)) + PathsIn(Trailer(p) + rest)
  {
    var raw := PREFIX + p.path;
    var closing := if p.PowerShell? then [BEL] else [ESC, BACKSLASH];
    PrefixUnterminated(p.path);
    OscClosed(raw, closing, Trailer(p) + rest);
    Regrouped(OSC + raw, closing, Trailer(p), rest);
  }

  /** One prompt and whatever the shell printed before the next one. */
  datatype Shown = Shown(prompt: Prompt, output: Bytes)

  function Printed(run: seq<Shown>): Bytes {
    if run == [] then []
    else Line(run[0]) + Printed(run[1..])
  }

  function Directories(run: seq<Shown>): seq<PathText> {
    if run == [] then [] else [run[0].prompt.path] + Directories(run[1..])
  }

  ghost predicate WellBehaved(s: Shown) {
    Trackable(s.prompt.path) && Quiet(Gap(s))
  }

  lemma FirstRead(p: Prompt, output: Bytes, more: Bytes)
    requires Trackable(p.path)
    ensures PathsIn(Text(p) + (output + more)) == [p.path] + PathsIn(Trailer(p) + output + more)
  {
    TextParsed(p, output + more);
    ParsedBody(p.path);
    assert Truncated(PREFIX + p.path) == PREFIX + p.path;
    ConcatAssociates(Trailer(p), output, more);
  }

  function Gap(s: Shown): Bytes {
    Trailer(s.prompt) + s.output
  }

  /** The line as it goes to the terminal. */
  function Line(s: Shown): (line: Bytes)
    ensures |line| > 0 && line[0] == ESC
  {
    Text(s.prompt) + s.output
  }

  lemma LineRead(s: Shown, more: Bytes)
    requires WellBehaved(s)
    ensures Quiet(Gap(s))
    ensures PathsIn(Line(s) + more) == [s.prompt.path] + PathsIn(Gap(s) + more)
  {
    FirstRead(s.prompt, s.output, more);
    ConcatAssociates(Text(s.prompt), s.output, more);
  }

  /** For any run of prompts of either shell with ordinary output in between, the
      tracker reports exactly the printed directories, in order. */
  lemma {:induction false} PromptsReadBack(banner: Bytes, run: seq<Shown>)
    requires Quiet(banner)
    requires forall s :: s in run ==> WellBehaved(s)
    ensures PathsIn(banner + Printed(run)) == Directories(run)
    decreases |run|
  {
    QuietIsSkipped(banner, Printed(run));
    if run != [] {
      LineRead(run[0], Printed(run[1..]));
      PromptsReadBack(Gap(run[0]), run[1..]);
    }
  }

  /** A directory printed by cmd is followed by itself again, which is no obstacle. */
  lemma CmdTrailerIsQuiet(path: PathText, output: Bytes)
    requires Unterminated(path) && Quiet(output)
    ensures Quiet(Trailer(Cmd(path)) + output)
  {
    var t := path + [GREATER, SPACE];
    var g := t + output;
    forall i | 0 <= i < |g| - 1
      ensures !(g[i] == ESC && g[i + 1] == RBRACKET)
    {
      if i < |path| {
        assert g[i] == path[i];
      } else if i >= |t| {
        assert g[i] == output[i - |t|] && g[i + 1] == output[i + 1 - |t|];
      }
    }
  }

  // --- Which paths survive: both directions ---

  /** A reported path never contains the bytes that end a sequence, and is never
      longer than the tracker's body allows. */
  ghost predicate Reportable(path: PathText) {
    Unterminated(path) && 4 + |path| <= 4096
  }

  lemma BodyReportable(raw: Bytes)
    requires Unterminated(raw)
    ensures forall q :: q in ParseOsc99(Truncated(raw)) ==> Reportable(q)
  {
    var body := Truncated(raw);
    forall q | q in ParseOsc99(body)
      ensures Reportable(q)
    {
      var payload := body[|PREFIX|..];
      forall i | 0 <= i < |q|
        ensures q[i] != BEL && q[i] != ESC
      {
        TrimSpaceKeeps(payload);
        TrimQuotesKeeps(TrimSpace(payload));
        assert q[i] in TrimSpace(payload);
        assert q[i] in payload;
        var k :| 0 <= k < |payload| && payload[k] == q[i];
        assert payload[k] == raw[k + |PREFIX|];
      }
    }
  }

  lemma {:induction false} PathsReportable(s: Bytes)
    ensures forall q :: q in PathsIn(s) ==> Reportable(q)
    decreases |s|
  {
    if |s| < 2 {
    } else if s[0] != ESC || s[1] != RBRACKET {
      PathsReportable(s[1..]);
    } else {
      var e := BodyEnd(s, 2);
      assert Unterminated(s[2..e]);
      BodyReportable(s[2..e]);
      if e < |s| {
        PathsReportable(s[e + 1..]);
      }
      if e + 1 < |s| {
        PathsReportable(s[e + 2..]);
      }
    }
  }

  /** A lone prompt is read back as its directory exactly when that directory is
      trackable; the rest of the line must itself be quiet. */
  lemma ReadBackIffTrackable(p: Prompt)
    requires Quiet(Trailer(p))
    ensures PathsIn(Text(p)) == [p.path] <==> Trackable(p.path)
  {
    if PathsIn(Text(p)) == [p.path] {
      PathsReportable(Text(p));
      assert p.path in PathsIn(Text(p));
    }
    if Reportable(p.path) {
      TextParsed(p, []);
      assert Text(p) + [] == Text(p);
      assert Trailer(p) + [] == Trailer(p);
      QuietIsSkipped(Trailer(p), []);
      ParsedBody(p.path);
      assert Truncated(PREFIX + p.path) == PREFIX + p.path;
    }
  }
}
