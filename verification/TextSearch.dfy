/** Finding a query in a document, and cutting the document at what was found. */
module TextSearch {
  import opened Common

  datatype TextMatch = TextMatch(start: nat, end: nat)

  type Chars = seq<int>  // UTF-16 code units, as the platform's strings count them

  /** Position of the first occurrence from `start` on, or -1. */
  function First(haystack: Chars, needle: Chars, start: nat): (index: int)
    ensures index == -1 || (start <= index && index + |needle| <= |haystack|)
    decreases |haystack| - start
  {
    if start + |needle| > |haystack| then -1
    else if OccursAt(haystack, needle, start) then start
    else First(haystack, needle, start + 1)
  }

  lemma {:induction false} FirstOccurs(haystack: Chars, needle: Chars, start: nat)
    requires First(haystack, needle, start) >= 0
    ensures OccursAt(haystack, needle, First(haystack, needle, start))
    decreases |haystack| - start
  {
    if start + |needle| <= |haystack| && !OccursAt(haystack, needle, start) {
      FirstOccurs(haystack, needle, start + 1);
    }
  }

  lemma {:induction false} NoneBeforeFirst(haystack: Chars, needle: Chars, start: nat, k: nat)
    requires start <= k && OccursAt(haystack, needle, k)
    ensures 0 <= First(haystack, needle, start) <= k
    decreases |haystack| - start
  {
    if start < k && !OccursAt(haystack, needle, start) {
      NoneBeforeFirst(haystack, needle, start + 1, k);
    }
  }

  /** The matches from `start` on, each taken as early as possible. */
  function Greedy(haystack: Chars, needle: Chars, start: nat): seq<TextMatch>
    requires needle != []
    decreases |haystack| - start
  {
    var i := First(haystack, needle, start);
    if i < 0 then [] else [TextMatch(i, i + |needle|)] + Greedy(haystack, needle, i + |needle|)
  }

  lemma OneMore(matches: seq<TextMatch>, haystack: Chars, needle: Chars, start: nat)
    requires needle != [] && First(haystack, needle, start) >= 0
    ensures var i := First(haystack, needle, start);
            matches + Greedy(haystack, needle, start)
            == matches + [TextMatch(i, i + |needle|)] + Greedy(haystack, needle, i + |needle|)
  {
  }

  /** The search moves on after every match exactly when the needle is not empty; with
      an empty one it would find its own starting point forever. */
  lemma SearchMovesOn(haystack: Chars, needle: Chars)
    ensures (forall start: nat :: First(haystack, needle, start) >= 0 ==> First(haystack, needle, start) + |needle| > start)
       <==> needle != []
  {
    if needle == [] {
      assert OccursAt(haystack, needle, 0);
      assert First(haystack, needle, 0) == 0;
    }
  }

  /** The loop of the search. */
  method FindIn(haystack: Chars, needle: Chars) returns (matches: seq<TextMatch>)
    requires needle != []
    ensures matches == Greedy(haystack, needle, 0)
  {
    ghost var all := Greedy(haystack, needle, 0);
    matches := [];
    var start := 0;
    while start <= |haystack|
      invariant matches + Greedy(haystack, needle, start) == all
      decreases |haystack| - start
    {
      var index := First(haystack, needle, start);
      if index < 0 {
        break;
      }
      OneMore(matches, haystack, needle, start);
      matches := matches + [TextMatch(index, index + |needle|)];
      start := index + |needle|;
    }
    assert matches + [] == matches;
  }

  /** The search. `lower` is the platform's case folding, which leaves no text empty. */
  method FindTextMatches(content: Chars, query: Chars, caseSensitive: bool, lower: Chars -> Chars)
      returns (matches: seq<TextMatch>)
    requires query != [] && !caseSensitive ==> lower(query) != []
    ensures matches == if query == [] then []
                       else if caseSensitive then Greedy(content, query, 0)
                       else Greedy(lower(content), lower(query), 0)
  {
    if query == [] {
      return [];
    }
    var haystack := if caseSensitive then content else lower(content);
    var needle := if caseSensitive then query else lower(query);
    matches := FindIn(haystack, needle);
  }

  // --- What the matches are ---

  /** In order and apart, from `start` up to `bound`. */
  predicate Apart(matches: seq<TextMatch>, start: nat, bound: nat) {
    && (forall i :: 0 <= i < |matches| ==> start <= matches[i].start <= matches[i].end <= bound)
    && (forall i, j :: 0 <= i < j < |matches| ==> matches[i].end <= matches[j].start)
  }

  predicate Covered(matches: seq<TextMatch>, k: nat) {
    exists i :: 0 <= i < |matches| && matches[i].start <= k < matches[i].end
  }

  predicate Occurrence(m: TextMatch, haystack: Chars, needle: Chars) {
    m.end == m.start + |needle| && OccursAt(haystack, needle, m.start)
  }

  /** Non-overlapping occurrences, with none missed: wherever the needle occurs, that
      place is inside a match. */
  ghost predicate Leftmost(matches: seq<TextMatch>, haystack: Chars, needle: Chars, start: nat) {
    && Apart(matches, start, |haystack|)
    && (forall i :: 0 <= i < |matches| ==> Occurrence(matches[i], haystack, needle))
    && (forall k {:trigger Covered(matches, k)} :: start <= k && OccursAt(haystack, needle, k) ==> Covered(matches, k))
  }

  lemma CoveredLater(m: TextMatch, rest: seq<TextMatch>, k: nat)
    requires Covered(rest, k)
    ensures Covered([m] + rest, k)
  {
    var j :| 0 <= j < |rest| && rest[j].start <= k < rest[j].end;
    assert ([m] + rest)[j + 1] == rest[j];
  }

  lemma ApartCons(m: TextMatch, rest: seq<TextMatch>, start: nat, bound: nat)
    requires start <= m.start <= m.end <= bound && Apart(rest, m.end, bound)
    ensures Apart([m] + rest, start, bound)
  {
  }

  lemma {:induction false} GreedyIsApart(haystack: Chars, needle: Chars, start: nat)
    requires needle != []
    ensures Apart(Greedy(haystack, needle, start), start, |haystack|)
    decreases |haystack| - start
  {
    var i := First(haystack, needle, start);
    if i >= 0 {
      GreedyIsApart(haystack, needle, i + |needle|);
      ApartCons(TextMatch(i, i + |needle|), Greedy(haystack, needle, i + |needle|), start, |haystack|);
    }
  }

  lemma {:induction false} GreedyOccurs(haystack: Chars, needle: Chars, start: nat, i: nat)
    requires needle != [] && i < |Greedy(haystack, needle, start)|
    ensures Occurrence(Greedy(haystack, needle, start)[i], haystack, needle)
    decreases |haystack| - start
  {
    var first := First(haystack, needle, start);
    if i == 0 {
      FirstOccurs(haystack, needle, start);
    } else {
      GreedyOccurs(haystack, needle, first + |needle|, i - 1);
    }
  }

  lemma GreedyStep(haystack: Chars, needle: Chars, start: nat)
    requires needle != [] && First(haystack, needle, start) >= 0
    ensures var i := First(haystack, needle, start);
            Greedy(haystack, needle, start) == [TextMatch(i, i + |needle|)] + Greedy(haystack, needle, i + |needle|)
  {
  }

  lemma CoveredFirst(m: TextMatch, rest: seq<TextMatch>, k: nat)
    requires m.start <= k < m.end
    ensures Covered([m] + rest, k)
  {
    assert ([m] + rest)[0] == m;
  }

  lemma {:induction false} GreedyMissesNone(haystack: Chars, needle: Chars, start: nat, k: nat)
    requires needle != [] && start <= k && OccursAt(haystack, needle, k)
    ensures Covered(Greedy(haystack, needle, start), k)
    decreases |haystack| - start
  {
    NoneBeforeFirst(haystack, needle, start, k);
    GreedyStep(haystack, needle, start);
    var i := First(haystack, needle, start);
    var end := i + |needle|;
    if k < end {
      CoveredFirst(TextMatch(i, end), Greedy(haystack, needle, end), k);
    } else {
      GreedyMissesNone(haystack, needle, end, k);
      CoveredLater(TextMatch(i, end), Greedy(haystack, needle, end), k);
    }
  }

  lemma GreedyIsLeftmost(haystack: Chars, needle: Chars, start: nat)
    requires needle != []
    ensures Leftmost(Greedy(haystack, needle, start), haystack, needle, start)
  {
    GreedyIsApart(haystack, needle, start);
    forall i | 0 <= i < |Greedy(haystack, needle, start)|
      ensures Occurrence(Greedy(haystack, needle, start)[i], haystack, needle)
    {
      GreedyOccurs(haystack, needle, start, i);
    }
    forall k | start <= k && OccursAt(haystack, needle, k)
      ensures Covered(Greedy(haystack, needle, start), k)
    {
      GreedyMissesNone(haystack, needle, start, k);
    }
  }

  lemma FirstIsFirst(matches: seq<TextMatch>, haystack: Chars, needle: Chars, start: nat)
    requires Leftmost(matches, haystack, needle, start)
    ensures First(haystack, needle, start) == if matches == [] then -1 else matches[0].start
  {
    var i := First(haystack, needle, start);
    if i >= 0 {
      FirstOccurs(haystack, needle, start);
      assert Covered(matches, i);
    }
    if matches != [] {
      assert Occurrence(matches[0], haystack, needle);
      NoneBeforeFirst(haystack, needle, start, matches[0].start);
    }
  }

  lemma ApartTail(matches: seq<TextMatch>, start: nat, bound: nat)
    requires matches != [] && Apart(matches, start, bound)
    ensures Apart(matches[1..], matches[0].end, bound)
  {
  }

  lemma CoveredTail(matches: seq<TextMatch>, k: nat)
    requires matches != [] && Covered(matches, k) && matches[0].end <= k
    ensures Covered(matches[1..], k)
  {
    var j :| 0 <= j < |matches| && matches[j].start <= k < matches[j].end;
    assert matches[1..][j - 1] == matches[j];
  }

  lemma RestIsLeftmost(matches: seq<TextMatch>, haystack: Chars, needle: Chars, start: nat)
    requires matches != [] && Leftmost(matches, haystack, needle, start)
    ensures Leftmost(matches[1..], haystack, needle, matches[0].end)
  {
    var rest, end := matches[1..], matches[0].end;
    ApartTail(matches, start, |haystack|);
    forall k | end <= k && OccursAt(haystack, needle, k)
      ensures Covered(rest, k)
    {
      assert Covered(matches, k);
      CoveredTail(matches, k);
    }
  }

  lemma HeadIsGreedy(matches: seq<TextMatch>, haystack: Chars, needle: Chars, start: nat)
    requires needle != [] && matches != [] && Leftmost(matches, haystack, needle, start)
    ensures Greedy(haystack, needle, start) == [matches[0]] + Greedy(haystack, needle, matches[0].end)
    ensures matches[0].end > start
    ensures matches == [matches[0]] + matches[1..]
  {
    FirstIsFirst(matches, haystack, needle, start);
    assert Occurrence(matches[0], haystack, needle);
  }

  lemma {:induction false} LeftmostIsGreedy(matches: seq<TextMatch>, haystack: Chars, needle: Chars, start: nat)
    requires needle != [] && Leftmost(matches, haystack, needle, start)
    ensures matches == Greedy(haystack, needle, start)
    decreases |matches|
  {
    if matches == [] {
      FirstIsFirst(matches, haystack, needle, start);
    } else {
      HeadIsGreedy(matches, haystack, needle, start);
      RestIsLeftmost(matches, haystack, needle, start);
      LeftmostIsGreedy(matches[1..], haystack, needle, matches[0].end);
    }
  }

  /** The matches found are the non-overlapping occurrences taken from the left with
      none missed, and no other list is. */
  lemma MatchesAreExactlyTheLeftmost(matches: seq<TextMatch>, haystack: Chars, needle: Chars)
    requires needle != []
    ensures matches == Greedy(haystack, needle, 0) <==> Leftmost(matches, haystack, needle, 0)
  {
    GreedyIsLeftmost(haystack, needle, 0);
    if Leftmost(matches, haystack, needle, 0) {
      LeftmostIsGreedy(matches, haystack, needle, 0);
    }
  }

  /** Where the folded content is no longer than the content, every query's matches
      can be cut out of the content; where it is longer, some query's cannot. */
  lemma FoldingMayOnlyShrink(content: Chars, haystack: Chars)
    ensures (forall needle: Chars :: needle != [] ==> Apart(Greedy(haystack, needle, 0), 0, |content|))
       <==> |haystack| <= |content|
  {
    if |haystack| <= |content| {
      forall needle: Chars | needle != []
        ensures Apart(Greedy(haystack, needle, 0), 0, |content|)
      {
        GreedyIsApart(haystack, needle, 0);
      }
    } else {
      assert haystack[0..|haystack|] == haystack;
      assert OccursAt(haystack, haystack, 0);
      assert Greedy(haystack, haystack, 0)[0] == TextMatch(0, |haystack|);
    }
  }

  /** Folding unit by unit. */
  function Folded(s: Chars, fold: int -> int): Chars {
    seq(|s|, i requires 0 <= i < |s| => fold(s[i]))
  }

  /** With such folding, what is highlighted is the query up to case, everywhere it
      can be without overlaps. */
  lemma HighlightedIsTheQuery(content: Chars, query: Chars, fold: int -> int, i: nat)
    requires query != [] && i < |Greedy(Folded(content, fold), Folded(query, fold), 0)|
    ensures var m := Greedy(Folded(content, fold), Folded(query, fold), 0)[i];
            m.start <= m.end <= |content| && Folded(content[m.start..m.end], fold) == Folded(query, fold)
  {
    var haystack, needle := Folded(content, fold), Folded(query, fold);
    GreedyIsApart(haystack, needle, 0);
    GreedyOccurs(haystack, needle, 0, i);
    var m := Greedy(haystack, needle, 0)[i];
    FoldedSlice(content, fold, m.start, m.end);
  }

  lemma FoldedSlice(s: Chars, fold: int -> int, from: nat, to: nat)
    requires from <= to <= |s|
    ensures Folded(s[from..to], fold) == Folded(s, fold)[from..to]
  {
  }

  // --- Stepping through the matches ---

  function NextTextMatchIndex(current: int, count: nat, forward: bool): (next: int)
    ensures count == 0 <==> next == -1
    ensures count > 0 ==> 0 <= next < count
  {
    if count == 0 then -1
    else if current < 0 || current >= count then (if forward then 0 else count - 1)
    else if forward then (current + 1) % count
    else (current - 1 + count) % count
  }

  lemma Wraps(x: nat, count: nat)
    requires x < 2 * count
    ensures x % count == if x < count then x else x - count
  {
    var q := x / count;
    assert x == q * count + x % count;
    if q == 1 {
      assert q * count == count;
    }
  }

  /** Forward and backward undo each other on a current match. */
  lemma StepsUndo(current: nat, count: nat)
    requires current < count
    ensures NextTextMatchIndex(NextTextMatchIndex(current, count, true), count, false) == current
    ensures NextTextMatchIndex(NextTextMatchIndex(current, count, false), count, true) == current
  {
    Wraps(current + 1, count);
    Wraps(current - 1 + count, count);
    Wraps(NextTextMatchIndex(current, count, true) - 1 + count, count);
    Wraps(NextTextMatchIndex(current, count, false) + 1, count);
  }

  /** From outside the matches a step forward goes to the first and one back to the last. */
  lemma StepsFromOutside(current: int, count: nat)
    requires count > 0 && !(0 <= current < count)
    ensures NextTextMatchIndex(current, count, true) == 0
    ensures NextTextMatchIndex(current, count, false) == count - 1
  {
  }

  function Forward(current: int, count: nat, steps: nat): int {
    if steps == 0 then current else NextTextMatchIndex(Forward(current, count, steps - 1), count, true)
  }

  /** Going forward comes past every match before it comes past one again. */
  lemma {:induction false} RoundTrip(current: nat, count: nat, steps: nat)
    requires current < count && steps <= count
    ensures Forward(current, count, steps) == if current + steps < count then current + steps else current + steps - count
  {
    if steps > 0 {
      RoundTrip(current, count, steps - 1);
      Wraps(Forward(current, count, steps - 1) + 1, count);
    }
  }

  // --- Highlighting ---

  datatype Span = Plain(text: Chars) | Marked(text: Chars, current: bool)

  function Texts(spans: seq<Span>): Chars {
    if spans == [] then [] else Texts(spans[..|spans| - 1]) + spans[|spans| - 1].text
  }

  /** The highlighted spans, in order. */
  function Marks(spans: seq<Span>): seq<Span> {
    if spans == [] then []
    else Marks(spans[..|spans| - 1]) + (if spans[|spans| - 1].Marked? then [spans[|spans| - 1]] else [])
  }

  function MarkOf(content: Chars, m: TextMatch, current: bool): Span
    requires m.start <= m.end <= |content|
  {
    Marked(content[m.start..m.end], current)
  }

  function Gap(content: Chars, from: nat, to: nat): seq<Span>
    requires from <= to <= |content|
  {
    if from < to then [Plain(content[from..to])] else []
  }

  /** Where the first `n` matches end. */
  function Cursor(matches: seq<TextMatch>, n: nat): nat
    requires n <= |matches|
  {
    if n == 0 then 0 else matches[n - 1].end
  }

  /** The content cut up to the end of its first `n` matches. */
  function Cut(content: Chars, matches: seq<TextMatch>, currentMatch: int, n: nat): seq<Span>
    requires Apart(matches, 0, |content|) && n <= |matches|
  {
    if n == 0 then []
    else
      var m := matches[n - 1];
      Cut(content, matches, currentMatch, n - 1) + Gap(content, Cursor(matches, n - 1), m.start)
      + [MarkOf(content, m, n - 1 == currentMatch)]
  }

  function CutAll(content: Chars, matches: seq<TextMatch>, currentMatch: int): seq<Span>
    requires Apart(matches, 0, |content|)
  {
    if matches == [] then [Plain(content)]
    else Cut(content, matches, currentMatch, |matches|) + Gap(content, Cursor(matches, |matches|), |content|)
  }

  lemma SpanSnoc(spans: seq<Span>, s: Span)
    ensures Texts(spans + [s]) == Texts(spans) + s.text
    ensures Marks(spans + [s]) == Marks(spans) + (if s.Marked? then [s] else [])
  {
    assert (spans + [s])[..|spans|] == spans;
  }

  lemma GapAdds(spans: seq<Span>, content: Chars, from: nat, to: nat)
    requires from <= to <= |content| && Texts(spans) == content[..from]
    ensures Texts(spans + Gap(content, from, to)) == content[..to]
    ensures Marks(spans + Gap(content, from, to)) == Marks(spans)
  {
    if from < to {
      SpanSnoc(spans, Plain(content[from..to]));
      assert content[..from] + content[from..to] == content[..to];
      assert Marks(spans) + [] == Marks(spans);
    } else {
      assert spans + [] == spans;
    }
  }

  method Spans(content: Chars, matches: seq<TextMatch>, currentMatch: int) returns (spans: seq<Span>)
    requires Apart(matches, 0, |content|)
    ensures spans == CutAll(content, matches, currentMatch)
  {
    if matches == [] {
      return [Plain(content)];
    }
    spans := [];
    var cursor := 0;
    for i := 0 to |matches|
      invariant cursor == Cursor(matches, i)
      invariant spans == Cut(content, matches, currentMatch, i)
    {
      var m := matches[i];
      if cursor < m.start {
        spans := spans + [Plain(content[cursor..m.start])];
      }
      spans := spans + [Marked(content[m.start..m.end], i == currentMatch)];
      cursor := m.end;
    }
    if cursor < |content| {
      spans := spans + [Plain(content[cursor..])];
    }
    assert content[cursor..] == content[cursor..|content|];
  }

  /** One highlighted span for each of the first `n` matches. */
  function Highlights(content: Chars, matches: seq<TextMatch>, currentMatch: int, n: nat): seq<Span>
    requires Apart(matches, 0, |content|) && n <= |matches|
  {
    if n == 0 then []
    else Highlights(content, matches, currentMatch, n - 1) + [MarkOf(content, matches[n - 1], n - 1 == currentMatch)]
  }

  lemma MarkAdds(spans: seq<Span>, content: Chars, m: TextMatch, current: bool)
    requires m.start <= m.end <= |content| && Texts(spans) == content[..m.start]
    ensures Texts(spans + [MarkOf(content, m, current)]) == content[..m.end]
    ensures Marks(spans + [MarkOf(content, m, current)]) == Marks(spans) + [MarkOf(content, m, current)]
  {
    SpanSnoc(spans, MarkOf(content, m, current));
    assert content[..m.start] + content[m.start..m.end] == content[..m.end];
  }

  lemma CutAdds(before: seq<Span>, content: Chars, from: nat, m: TextMatch, current: bool)
    requires from <= m.start <= m.end <= |content| && Texts(before) == content[..from]
    ensures var spans := before + Gap(content, from, m.start) + [MarkOf(content, m, current)];
            Texts(spans) == content[..m.end] && Marks(spans) == Marks(before) + [MarkOf(content, m, current)]
  {
    GapAdds(before, content, from, m.start);
    MarkAdds(before + Gap(content, from, m.start), content, m, current);
  }

  lemma {:induction false} CutUpTo(content: Chars, matches: seq<TextMatch>, currentMatch: int, n: nat)
    requires Apart(matches, 0, |content|) && n <= |matches|
    ensures Texts(Cut(content, matches, currentMatch, n)) == content[..Cursor(matches, n)]
    ensures Marks(Cut(content, matches, currentMatch, n)) == Highlights(content, matches, currentMatch, n)
  {
    if n > 0 {
      CutUpTo(content, matches, currentMatch, n - 1);
      CutAdds(Cut(content, matches, currentMatch, n - 1), content, Cursor(matches, n - 1), matches[n - 1],
              n - 1 == currentMatch);
    }
  }

  /** The pieces make up the content again, and the highlighted ones are the matches,
      one each and in order, the current one standing out. */
  lemma SpansMakeUpTheContent(content: Chars, matches: seq<TextMatch>, currentMatch: int)
    requires Apart(matches, 0, |content|)
    ensures Texts(CutAll(content, matches, currentMatch)) == content
    ensures Marks(CutAll(content, matches, currentMatch)) == Highlights(content, matches, currentMatch, |matches|)
  {
    var n := |matches|;
    if n == 0 {
      SpanSnoc([], Plain(content));
      assert [] + [Plain(content)] == [Plain(content)];
      assert Marks([Plain(content)]) == [];
    } else {
      CutUpTo(content, matches, currentMatch, n);
      GapAdds(Cut(content, matches, currentMatch, n), content, Cursor(matches, n), |content|);
      assert content[..|content|] == content;
    }
  }

  predicate Pieces(spans: seq<Span>) {
    forall k :: 0 <= k < |spans| && spans[k].Plain? ==> spans[k].text != []
  }

  lemma {:induction false} CutHasNoEmptyPieces(content: Chars, matches: seq<TextMatch>, currentMatch: int, n: nat)
    requires Apart(matches, 0, |content|) && n <= |matches|
    ensures Pieces(Cut(content, matches, currentMatch, n))
  {
    if n > 0 {
      CutHasNoEmptyPieces(content, matches, currentMatch, n - 1);
    }
  }

  /** No plain piece is empty, unless there is nothing to show at all; and a content without
      matches is one piece. */
  lemma NoPieceIsEmpty(content: Chars, matches: seq<TextMatch>, currentMatch: int)
    requires Apart(matches, 0, |content|)
    ensures content != [] || matches != [] ==> Pieces(CutAll(content, matches, currentMatch))
    ensures matches == [] ==> CutAll(content, matches, currentMatch) == [Plain(content)]
  {
    CutHasNoEmptyPieces(content, matches, currentMatch, |matches|);
  }

  /** Where a match's span is: what comes before it is the content before the match. */
  ghost predicate PlacedAt(spans: seq<Span>, content: Chars, m: TextMatch, current: bool, at: nat)
    requires m.start <= m.end <= |content|
  {
    at < |spans| && spans[at] == MarkOf(content, m, current) && Texts(spans[..at]) == content[..m.start]
  }

  lemma CutPlaces(content: Chars, matches: seq<TextMatch>, currentMatch: int, i: nat)
    requires Apart(matches, 0, |content|) && i < |matches|
    ensures var at := |Cut(content, matches, currentMatch, i + 1)| - 1;
            at >= 0 && PlacedAt(Cut(content, matches, currentMatch, i + 1), content, matches[i], i == currentMatch, at)
  {
    var before := Cut(content, matches, currentMatch, i);
    var gap := Gap(content, Cursor(matches, i), matches[i].start);
    CutUpTo(content, matches, currentMatch, i);
    GapAdds(before, content, Cursor(matches, i), matches[i].start);
    var spans := Cut(content, matches, currentMatch, i + 1);
    assert spans[..|spans| - 1] == before + gap;
  }

  lemma {:induction false} CutStarts(content: Chars, matches: seq<TextMatch>, currentMatch: int, i: nat, n: nat)
    requires Apart(matches, 0, |content|) && i <= n <= |matches|
    ensures Cut(content, matches, currentMatch, i) <= Cut(content, matches, currentMatch, n)
    decreases n
  {
    if i < n {
      CutStarts(content, matches, currentMatch, i, n - 1);
    }
  }

  ghost predicate InPlace(spans: seq<Span>, content: Chars, m: TextMatch, current: bool)
    requires m.start <= m.end <= |content|
  {
    exists at: nat :: PlacedAt(spans, content, m, current, at)
  }

  lemma LongerStillPlaces(part: seq<Span>, spans: seq<Span>, content: Chars, m: TextMatch, current: bool, at: nat)
    requires m.start <= m.end <= |content| && part <= spans && PlacedAt(part, content, m, current, at)
    ensures PlacedAt(spans, content, m, current, at)
  {
    assert spans[..at] == part[..at];
  }

  /** Every match is highlighted at its own place. */
  lemma EveryMatchIsInPlace(content: Chars, matches: seq<TextMatch>, currentMatch: int, i: nat)
    requires Apart(matches, 0, |content|) && i < |matches|
    ensures InPlace(CutAll(content, matches, currentMatch), content, matches[i], i == currentMatch)
  {
    var part := Cut(content, matches, currentMatch, i + 1);
    CutPlaces(content, matches, currentMatch, i);
    CutStarts(content, matches, currentMatch, i + 1, |matches|);
    LongerStillPlaces(part, CutAll(content, matches, currentMatch), content, matches[i], i == currentMatch, |part| - 1);
  }
}
