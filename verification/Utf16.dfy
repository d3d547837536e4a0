/** UTF-16 as the relay writes it for PowerShell and reads it from files, and the
    rule that decides which files are shown as text. */
module Utf16 {
  import opened Common

  /** A Unicode scalar value, and one 16-bit code unit. */
  type Scalar = r: int | 0 <= r < 0xD800 || 0xE000 <= r < 0x110000
  type Unit = u: int | 0 <= u < 0x10000

  const REPLACEMENT: Scalar := 0xFFFD

  predicate IsHigh(u: Unit) {
    0xD800 <= u < 0xDC00
  }

  predicate IsLow(u: Unit) {
    0xDC00 <= u < 0xE000
  }

  function EncodeOne(r: Scalar): seq<Unit> {
    if r < 0x10000 then [r] else [0xD800 + (r - 0x10000) / 0x400, 0xDC00 + (r - 0x10000) % 0x400]
  }

  function Encode(text: seq<Scalar>): seq<Unit> {
    if text == [] then [] else EncodeOne(text[0]) + Encode(text[1..])
  }

  function Pair(high: Unit, low: Unit): Scalar
    requires IsHigh(high) && IsLow(low)
  {
    0x10000 + (high - 0xD800) * 0x400 + (low - 0xDC00)
  }

  /** A surrogate without its partner reads as the replacement character. */
  function Decode(units: seq<Unit>): seq<Scalar> {
    if units == [] then []
    else if IsHigh(units[0]) && |units| > 1 && IsLow(units[1]) then
      [Pair(units[0], units[1])] + Decode(units[2..])
    else if IsHigh(units[0]) || IsLow(units[0]) then [REPLACEMENT] + Decode(units[1..])
    else [units[0]] + Decode(units[1..])
  }

  // --- Bytes ---

  datatype Order = Little | Big

  function UnitAt(data: Bytes, i: nat, order: Order): Unit
    requires 2 * i + 1 < |data|
  {
    var first: int, second: int := data[2 * i], data[2 * i + 1];
    if order == Little then first + 0x100 * second else 0x100 * first + second
  }

  function Units(data: Bytes, order: Order): seq<Unit> {
    seq(|data| / 2, i requires 0 <= i < |data| / 2 => UnitAt(data, i, order))
  }

  function ByteAt(units: seq<Unit>, k: nat, order: Order): byte
    requires k < 2 * |units|
  {
    if (k % 2 == 0) == (order == Little) then units[k / 2] % 0x100 else units[k / 2] / 0x100
  }

  function Serialize(units: seq<Unit>, order: Order): (data: Bytes)
    ensures |data| == 2 * |units|
  {
    seq(2 * |units|, k requires 0 <= k < 2 * |units| => ByteAt(units, k, order))
  }

  method DecodeUtf16(data: Bytes, order: Order) returns (text: Option<seq<Scalar>>)
    ensures text == if |data| % 2 != 0 then None else Some(Decode(Units(data, order)))
  {
    if |data| % 2 != 0 {
      return None;
    }
    var units: seq<Unit> := [];
    var i := 0;
    while i < |data|
      invariant 0 <= i <= |data| && i % 2 == 0
      invariant |units| == i / 2
      invariant forall k :: 0 <= k < |units| ==> units[k] == UnitAt(data, k, order)
    {
      units := units + [UnitAt(data, i / 2, order)];
      i := i + 2;
    }
    assert units == Units(data, order);
    text := Some(Decode(units));
  }

  /** Every CR LF becomes LF, scanning once from the front. */
  function UnixLines(text: seq<Scalar>): seq<Scalar> {
    if text == [] then []
    else if |text| > 1 && text[0] == 0x0d && text[1] == 0x0a then [0x0a] + UnixLines(text[2..])
    else [text[0]] + UnixLines(text[1..])
  }

  /** The script as PowerShell's -EncodedCommand wants it, before base64. */
  method EncodePwshScript(script: seq<Scalar>) returns (buf: array<byte>)
    ensures fresh(buf) && buf[..] == Serialize(Encode(UnixLines(script)), Little)
  {
    var units := Encode(UnixLines(script));
    buf := new byte[2 * |units|];
    for i := 0 to |units|
      invariant forall k :: 0 <= k < 2 * i ==> buf[k] == ByteAt(units, k, Little)
    {
      buf[2 * i] := units[i] % 0x100;
      buf[2 * i + 1] := units[i] / 0x100;
    }
  }

  // --- Round trips ---

  lemma EncodeOneDecodes(r: Scalar, rest: seq<Unit>)
    ensures Decode(EncodeOne(r) + rest) == [r] + Decode(rest)
  {
    var units := EncodeOne(r) + rest;
    if r < 0x10000 {
      assert units[1..] == rest;
    } else {
      assert units[2..] == rest;
    }
  }

  /** Decoding gives back every text, surrogate pairs included. */
  lemma {:induction false} DecodeUndoesEncode(text: seq<Scalar>)
    ensures Decode(Encode(text)) == text
  {
    if text != [] {
      EncodeOneDecodes(text[0], Encode(text[1..]));
      DecodeUndoesEncode(text[1..]);
    }
  }

  /** No surrogate without its partner. */
  predicate WellFormed(units: seq<Unit>) {
    && (forall i :: 0 <= i < |units| && IsHigh(units[i]) ==> i + 1 < |units| && IsLow(units[i + 1]))
    && (forall i :: 0 <= i < |units| && IsLow(units[i]) ==> i > 0 && IsHigh(units[i - 1]))
  }

  lemma WellFormedTail(units: seq<Unit>)
    requires units != []
    ensures IsHigh(units[0]) && |units| > 1 && IsLow(units[1]) ==> (WellFormed(units) <==> WellFormed(units[2..]))
    ensures !IsHigh(units[0]) && !IsLow(units[0]) ==> (WellFormed(units) <==> WellFormed(units[1..]))
  {
    if IsHigh(units[0]) && |units| > 1 && IsLow(units[1]) {
      var rest := units[2..];
      assert forall i :: 2 <= i < |units| ==> units[i] == rest[i - 2];
      assert forall i :: 0 <= i < |rest| ==> rest[i] == units[i + 2];
      if WellFormed(rest) {
        forall i | 0 <= i < |units|
          ensures IsHigh(units[i]) ==> i + 1 < |units| && IsLow(units[i + 1])
          ensures IsLow(units[i]) ==> i > 0 && IsHigh(units[i - 1])
        {
          if i >= 2 {
            assert units[i] == rest[i - 2];
          }
        }
      }
    } else if !IsHigh(units[0]) && !IsLow(units[0]) {
      var rest := units[1..];
      assert forall i :: 1 <= i < |units| ==> units[i] == rest[i - 1];
      assert forall i :: 0 <= i < |rest| ==> rest[i] == units[i + 1];
    }
  }

  lemma PairEncodes(high: Unit, low: Unit)
    requires IsHigh(high) && IsLow(low)
    ensures EncodeOne(Pair(high, low)) == [high, low]
  {
  }

  /** Re-encoding gives back exactly the unit sequences without lone surrogates. */
  lemma {:induction false} EncodeUndoesDecode(units: seq<Unit>)
    ensures Encode(Decode(units)) == units <==> WellFormed(units)
    decreases |units|
  {
    if units != [] {
      WellFormedTail(units);
      var text := Decode(units);
      if IsHigh(units[0]) && |units| > 1 && IsLow(units[1]) {
        EncodeUndoesDecode(units[2..]);
        PairEncodes(units[0], units[1]);
        assert text[1..] == Decode(units[2..]);
        assert units == [units[0], units[1]] + units[2..];
        assert Encode(text)[2..] == Encode(Decode(units[2..]));
      } else if IsHigh(units[0]) || IsLow(units[0]) {
        assert Encode(text)[0] == REPLACEMENT;
      } else {
        EncodeUndoesDecode(units[1..]);
        assert text[1..] == Decode(units[1..]);
        assert units == [units[0]] + units[1..];
        assert Encode(text)[1..] == Encode(Decode(units[1..]));
      }
    }
  }

  lemma UnitsOfBytes(units: seq<Unit>, order: Order)
    ensures Units(Serialize(units, order), order) == units
  {
    var data := Serialize(units, order);
    forall i | 0 <= i < |units|
      ensures UnitAt(data, i, order) == units[i]
    {
      assert (2 * i) % 2 == 0 && (2 * i) / 2 == i && (2 * i + 1) % 2 == 1 && (2 * i + 1) / 2 == i;
      assert data[2 * i] == ByteAt(units, 2 * i, order);
      assert data[2 * i + 1] == ByteAt(units, 2 * i + 1, order);
    }
  }

  lemma ByteBack(data: Bytes, order: Order, k: nat)
    requires |data| % 2 == 0 && k < |data|
    ensures k / 2 < |data| / 2 && ByteAt(Units(data, order), k, order) == data[k]
  {
    var i := k / 2;
    assert Units(data, order)[i] == UnitAt(data, i, order);
    if k % 2 == 0 {
      assert k == 2 * i;
    } else {
      assert k == 2 * i + 1;
    }
  }

  lemma BytesOfUnits(data: Bytes, order: Order)
    requires |data| % 2 == 0
    ensures Serialize(Units(data, order), order) == data
  {
    var back := Serialize(Units(data, order), order);
    forall k | 0 <= k < |data|
      ensures back[k] == data[k]
    {
      ByteBack(data, order, k);
    }
  }

  // --- What is shown as text ---

  predicate LooksLikeText(text: seq<Scalar>) {
    forall r :: r in text ==> r in [0x09, 0x0a, 0x0d, 0x0c] || !(r == REPLACEMENT || r < 0x20)
  }

  datatype Encoding = UTF8 | UTF16LE | UTF16BE | ShiftJIS

  datatype TextResult = IsText(text: seq<Scalar>, encoding: Encoding) | NotText

  function Checked(text: Option<seq<Scalar>>, encoding: Encoding): TextResult {
    if text.Some? && LooksLikeText(text.value) then IsText(text.value, encoding) else NotText
  }

  function Utf16Text(data: Bytes, order: Order): Option<seq<Scalar>> {
    if |data| % 2 != 0 then None else Some(Decode(Units(data, order)))
  }

  /** A file read as text; the other two decoders are given. */
  function TextOf(data: Bytes, utf8: Bytes -> Option<seq<Scalar>>, shiftJis: Bytes -> Option<seq<Scalar>>): TextResult {
    if data == [] then IsText([], UTF8)
    else if [0xef, 0xbb, 0xbf] <= data then Checked(utf8(data[3..]), UTF8)
    else if Mark(Little) <= data then Checked(Utf16Text(data[2..], Little), UTF16LE)
    else if Mark(Big) <= data then Checked(Utf16Text(data[2..], Big), UTF16BE)
    else if 0 in data then NotText
    else if utf8(data).Some? then Checked(utf8(data), UTF8)
    else Checked(shiftJis(data), ShiftJIS)
  }

  function Mark(order: Order): Bytes {
    if order == Little then [0xff, 0xfe] else [0xfe, 0xff]
  }

  function Label(order: Order): Encoding {
    if order == Little then UTF16LE else UTF16BE
  }

  const UTF8_MARK: Bytes := [0xef, 0xbb, 0xbf]

  predicate Unmarked(data: Bytes) {
    !(UTF8_MARK <= data) && !(Mark(Little) <= data) && !(Mark(Big) <= data)
  }

  predicate ShownAs(text: Option<seq<Scalar>>) {
    text.Some? && LooksLikeText(text.value)
  }

  /** What is shown is text, under the label its mark calls for; without a mark a file
      is taken for UTF-8 wherever it can be, for Shift_JIS only where it cannot, and
      never when it holds a NUL. */
  lemma ShownIsText(data: Bytes, utf8: Bytes -> Option<seq<Scalar>>, shiftJis: Bytes -> Option<seq<Scalar>>)
    ensures var r := TextOf(data, utf8, shiftJis);
            && (r.IsText? ==> LooksLikeText(r.text))
            && (r.IsText? && r.encoding == UTF16LE ==> Mark(Little) <= data)
            && (r.IsText? && r.encoding == UTF16BE ==> Mark(Big) <= data)
            && (r.IsText? && r.encoding == ShiftJIS ==>
                  Unmarked(data) && 0 !in data && utf8(data).None? && shiftJis(data) == Some(r.text))
            && (Unmarked(data) && data != [] && r.IsText? ==> 0 !in data && (r.encoding == UTF8 <==> utf8(data).Some?))
            && (Unmarked(data) && data != [] && 0 !in data && utf8(data).Some? && LooksLikeText(utf8(data).value) ==>
                  r == IsText(utf8(data).value, UTF8))
            && (Unmarked(data) && data != [] && 0 !in data && utf8(data).None? && ShownAs(shiftJis(data)) ==>
                  r == IsText(shiftJis(data).value, ShiftJIS))
            && (data == [] ==> r == IsText([], UTF8))
  {
  }

  /** A UTF-8 file is shown the same with its mark as without, as long as the decoder
      keeps NULs and empty files as they are. */
  lemma Utf8MarkMakesNoDifference(data: Bytes, utf8: Bytes -> Option<seq<Scalar>>, shiftJis: Bytes -> Option<seq<Scalar>>)
    requires Unmarked(data) && utf8(data).Some?
    requires data == [] ==> utf8(data) == Some([])
    requires 0 in data ==> 0 in utf8(data).value
    ensures TextOf(UTF8_MARK + data, utf8, shiftJis) == TextOf(data, utf8, shiftJis)
  {
    assert UTF8_MARK <= UTF8_MARK + data && (UTF8_MARK + data)[3..] == data;
  }

  /** A file with a UTF-16 mark is shown as some text exactly when it is that text
      encoded after the mark and the text looks like text: reading loses nothing. */
  lemma Utf16FilesReadBack(data: Bytes, order: Order, text: seq<Scalar>,
                           utf8: Bytes -> Option<seq<Scalar>>, shiftJis: Bytes -> Option<seq<Scalar>>)
    requires Mark(order) <= data
    ensures TextOf(data, utf8, shiftJis) == IsText(text, Label(order))
       <==> data == Mark(order) + Serialize(Encode(text), order) && LooksLikeText(text)
  {
    var body := data[2..];
    assert data == Mark(order) + body;
    assert data[0] == Mark(order)[0] && data[1] == Mark(order)[1];
    assert TextOf(data, utf8, shiftJis) == Checked(Utf16Text(body, order), Label(order));
    if |body| % 2 == 0 && text == Decode(Units(body, order)) && LooksLikeText(text) {
      NoReplacementMeansWellFormed(Units(body, order));
      EncodeUndoesDecode(Units(body, order));
      BytesOfUnits(body, order);
    }
    if data == Mark(order) + Serialize(Encode(text), order) {
      assert body == Serialize(Encode(text), order);
      UnitsOfBytes(Encode(text), order);
      DecodeUndoesEncode(text);
    }
  }

  lemma {:induction false} NoReplacementMeansWellFormed(units: seq<Unit>)
    requires REPLACEMENT !in Decode(units)
    ensures WellFormed(units)
    decreases |units|
  {
    if units != [] {
      WellFormedTail(units);
      if IsHigh(units[0]) && |units| > 1 && IsLow(units[1]) {
        NoReplacementMeansWellFormed(units[2..]);
      } else {
        NoReplacementMeansWellFormed(units[1..]);
      }
    }
  }

  /** What PowerShell decodes is the script, with unix line ends. */
  lemma ScriptsArrive(script: seq<Scalar>)
    ensures Utf16Text(Serialize(Encode(UnixLines(script)), Little), Little) == Some(UnixLines(script))
  {
    UnitsOfBytes(Encode(UnixLines(script)), Little);
    DecodeUndoesEncode(UnixLines(script));
  }

  lemma {:induction false} OthersStay(text: seq<Scalar>)
    requires forall i :: 0 <= i < |text| - 1 ==> !(text[i] == 0x0d && text[i + 1] == 0x0a)
    ensures UnixLines(text) == text
  {
    if text != [] {
      OthersStay(text[1..]);
    }
  }

  /** Scanning a text comes to what follows it, unless it ends between a CR and its LF. */
  lemma {:induction false} ScansOn(before: seq<Scalar>, rest: seq<Scalar>)
    requires rest == [] || rest[0] != 0x0a
    ensures UnixLines(before + rest) == UnixLines(before) + UnixLines(rest)
    decreases |before|
  {
    var text := before + rest;
    if before == [] {
      assert text == rest;
    } else if |before| > 1 && before[0] == 0x0d && before[1] == 0x0a {
      ScansOn(before[2..], rest);
      assert text[2..] == before[2..] + rest;
    } else {
      ScansOn(before[1..], rest);
      assert text[1..] == before[1..] + rest;
    }
  }

  lemma LineEndFirst(after: seq<Scalar>)
    ensures UnixLines([0x0d, 0x0a] + after) == [0x0a] + UnixLines(after)
  {
    assert ([0x0d, 0x0a] + after)[2..] == after;
  }

  /** Every CR LF becomes a LF, wherever it stands, and a text without one stays as it is. */
  lemma LineEndsAreReplaced(before: seq<Scalar>, after: seq<Scalar>)
    ensures UnixLines(before + ([0x0d, 0x0a] + after)) == UnixLines(before) + ([0x0a] + UnixLines(after))
    ensures (forall i :: 0 <= i < |before| - 1 ==> !(before[i] == 0x0d && before[i + 1] == 0x0a)) ==>
              UnixLines(before) == before
  {
    ScansOn(before, [0x0d, 0x0a] + after);
    LineEndFirst(after);
    if forall i :: 0 <= i < |before| - 1 ==> !(before[i] == 0x0d && before[i + 1] == 0x0a) {
      OthersStay(before);
    }
  }

  /** Of the control characters a text may hold tabs, line feeds, form feeds and carriage
      returns, and it holds no replacement character; anything else it may hold. */
  lemma TextHoldsNoControls(text: seq<Scalar>)
    ensures LooksLikeText(text) <==>
              forall i :: 0 <= i < |text| ==>
                (text[i] < 32 ==> text[i] == 9 || text[i] == 10 || text[i] == 12 || text[i] == 13) && text[i] != 0xFFFD
  {
    if LooksLikeText(text) {
      forall i | 0 <= i < |text|
        ensures (text[i] < 32 ==> text[i] == 9 || text[i] == 10 || text[i] == 12 || text[i] == 13) && text[i] != 0xFFFD
      {
        assert text[i] in text;
      }
    }
  }
}
