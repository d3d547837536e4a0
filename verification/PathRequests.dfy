/** What each form of request asks for: absolute, relative or empty, with or without white
    space around it. */
module PathRequests {
  import Common
  import opened Paths

  // --- White space around a request ---

  ghost predicate Blank(s: string) {
    forall i :: 0 <= i < |s| ==> Common.WhiteSpace(s[i] as int)
  }

  ghost predicate SpacedOut(s: string, a: string, t: string, b: string) {
    s == a + t + b && Blank(a) && Blank(b) && Bare(t)
  }

  lemma SpacedFront(c: char, rest: string, a: string, t: string, b: string)
    requires IsSpace(c) && SpacedOut(rest, a, t, b)
    ensures SpacedOut([c] + rest, [c] + a, t, b)
  {
  }

  lemma SpacedBack(c: char, rest: string, a: string, t: string, b: string)
    requires IsSpace(c) && SpacedOut(rest, a, t, b)
    ensures SpacedOut(rest + [c], a, t, b + [c])
  {
  }

  lemma {:induction false} TrimSplits(s: string) returns (a: string, b: string)
    ensures SpacedOut(s, a, TrimSpace(s), b)
    decreases |s|
  {
    if s != "" && IsSpace(s[0]) {
      var rest := s[1..];
      a, b := TrimSplits(rest);
      SpacedFront(s[0], rest, a, TrimSpace(rest), b);
      assert s == [s[0]] + rest;
      a := [s[0]] + a;
    } else if s != "" && IsSpace(s[|s| - 1]) {
      var rest, c := s[..|s| - 1], s[|s| - 1];
      a, b := TrimSplits(rest);
      SpacedBack(c, rest, a, TrimSpace(rest), b);
      assert s == rest + [c];
      b := b + [c];
    } else {
      a, b := "", "";
      NotSpaced(s);
    }
  }

  lemma NotSpaced(s: string)
    requires Bare(s)
    ensures SpacedOut(s, "", s, "")
  {
    assert "" + s + "" == s;
  }

  lemma {:induction false} TrimIsUnique(s: string, a: string, t: string, b: string)
    requires SpacedOut(s, a, t, b)
    ensures TrimSpace(s) == t
    decreases |s|
  {
    if s != "" && IsSpace(s[0]) {
      if a != "" {
        assert s[1..] == a[1..] + t + b;
        TrimIsUnique(s[1..], a[1..], t, b);
      } else {
        assert t == "" && s[1..] == "" + t + b[1..];
        TrimIsUnique(s[1..], "", t, b[1..]);
      }
    } else if s != "" && IsSpace(s[|s| - 1]) {
      var n := |b| - 1;
      assert s[..|s| - 1] == a + t + b[..n];
      TrimIsUnique(s[..|s| - 1], a, t, b[..n]);
    } else {
      assert a == "" && b == "";
    }
  }

  // --- Where a request leads ---

  /** What is to be answered for a target under a base, for any links. */
  function AnswerFor(base: Path, target: seq<string>, eval: Path -> Evaluated): Resolved {
    if !Names(target) || !(base <= target) then Forbidden
    else match eval(target)
      case Missing => NotFound
      case Unreadable => Failed
      case Real(path) => if base <= path then Found(path, Text(path[|base|..])) else Forbidden
  }

  lemma RelIsRest(base: Path, target: Path)
    requires base <= target
    ensures (if Rel(base, target) == "." then "" else Rel(base, target)) == Text(target[|base|..])
  {
    var names := target[|base|..];
    assert target == base + names;
    if names != [] {
      assert CommonLength(base, target) == |base|;
      assert Ups(0) + names == names;
      assert forall p :: p in names ==> p in target;
      assert names[0] in names;
      NameIsNotUp(names);
    }
  }

  lemma AnswersTheTarget(base: Path, requested: string, eval: Path -> Evaluated)
    ensures ResolveBase(base, requested, eval) == AnswerFor(base, Named(base, requested), eval)
  {
    ResolvedStaysInside(base, requested, eval);
    NamedIsPath(base, requested);
    var named: Path := Named(base, requested);
    if eval(named).Real? && base <= eval(named).path {
      RelIsRest(base, eval(named).path);
    }
    InsideRootIsPrefix(base, named);
    if eval(named).Real? {
      InsideRootIsPrefix(base, eval(named).path);
    }
  }

  /** The components of a text are walked one by one: empty ones and `.` stay, `..` goes up
      as far as the root, and anything else goes down. An absolute text starts at the root,
      any other at the base; white space around it does not matter. */
  lemma RequestsLeadWhereTheySay(base: Path, a: string, text: string, b: string, eval: Path -> Evaluated)
    requires Blank(a) && Blank(b) && Bare(text)
    ensures ResolveBase(base, a + text + b, eval)
         == AnswerFor(base, EnterAll(if text != "" && text[0] == '/' then [] else base, Split(text)), eval)
  {
    assert SpacedOut(a + text + b, a, text, b);
    TrimIsUnique(a + text + b, a, text, b);
    AnswersTheTarget(base, a + text + b, eval);
    EnterStays(base);
    if text != "" && text != "." && text[0] != '/' {
      CleanTextJoins(base, text);
    }
  }

  lemma EnterStays(base: Path)
    ensures EnterAll(base, Split("")) == base && EnterAll(base, Split(".")) == base
  {
    EnterAllSnoc(base, [], "");
    EnterAllSnoc(base, [], ".");
    SplitPrefix(".", "");
    assert [] + [""] == [""] && [] + ["."] == ["."];
  }

  /** Any request is of that form. */
  lemma EveryRequestIsSpacedOut(requested: string) returns (a: string, text: string, b: string)
    ensures requested == a + text + b && Blank(a) && Blank(b) && Bare(text)
  {
    a, b := TrimSplits(requested);
    text := TrimSpace(requested);
  }

  // --- Names ---

  lemma RootedText(names: Path)
    ensures EnterAll([], Split(['/'] + Text(names))) == names
  {
    SplitPrefix("", Text(names));
    assert "" + [SEP] + Text(names) == ['/'] + Text(names);
    EnterAllSnoc([], [], "");
    assert [] + [""] == [""];
    if names == [] {
      EnterAllSnoc([], [""], "");
      assert [""] + [""] == ["", ""];
      assert Split("") == [""];
    } else {
      SplitText(names);
      EnterBlankFirst(names);
    }
  }

  lemma {:induction false} EnterBlankFirst(names: seq<string>)
    requires Names(names)
    ensures EnterAll([], [""] + names) == names
  {
    if names == [] {
      assert [""] + names == [""];
      EnterAllSnoc([], [], "");
      assert [] + [""] == [""];
    } else {
      var n := |names| - 1;
      EnterBlankFirst(names[..n]);
      assert [""] + names == ([""] + names[..n]) + [names[n]];
      EnterAllSnoc([], [""] + names[..n], names[n]);
      assert names[n] in names;
      assert names == names[..n] + [names[n]];
    }
  }

  /** An absolute path names itself: under the base it is answered by what it leads to,
      elsewhere it is refused, whatever the links are. */
  lemma AbsoluteRequests(base: Path, names: Path, eval: Path -> Evaluated)
    requires Bare(['/'] + Text(names))
    ensures ResolveBase(base, ['/'] + Text(names), eval) == AnswerFor(base, names, eval)
    ensures base <= names && eval(names) == Real(names) ==>
              ResolveBase(base, ['/'] + Text(names), eval) == Found(names, Text(names[|base|..]))
    ensures !(base <= names) ==> ResolveBase(base, ['/'] + Text(names), eval) == Forbidden
  {
    var text := ['/'] + Text(names);
    NotSpaced(text);
    RequestsLeadWhereTheySay(base, "", text, "", eval);
    RootedText(names);
  }

  /** A relative path of plain names is looked for under the base. */
  lemma RelativeRequests(base: Path, names: Path, eval: Path -> Evaluated)
    requires names != [] && Bare(Text(names))
    ensures ResolveBase(base, Text(names), eval) == AnswerFor(base, base + names, eval)
  {
    var text := Text(names);
    NotSpaced(text);
    RequestsLeadWhereTheySay(base, "", text, "", eval);
    assert names[0] in names;
    NameIsNotUp(names);
    SplitText(names);
    EnterNames(base, names);
  }

  lemma UpIsRelative(names: Path)
    ensures var text := Text([".."] + names); text != "" && text[0] != '/'
    ensures Split(Text([".."] + names)) == [".."] + names
  {
    TextStarts([".."] + names);
    SplitText([".."] + names);
  }

  /** A request that steps up from the base and does not come back is refused. */
  lemma StepsOutAreRefused(base: Path, names: Path, eval: Path -> Evaluated)
    requires base != [] && Bare(Text([".."] + names)) && !(base <= base[..|base| - 1] + names)
    ensures ResolveBase(base, Text([".."] + names), eval) == Forbidden
  {
    var text := Text([".."] + names);
    NotSpaced(text);
    RequestsLeadWhereTheySay(base, "", text, "", eval);
    UpIsRelative(names);
    EnterUpThenNames(base, names);
  }

  lemma {:induction false} EnterUpThenNames(base: Path, names: seq<string>)
    requires base != [] && Names(names)
    ensures EnterAll(base, [".."] + names) == base[..|base| - 1] + names
  {
    if names == [] {
      EnterAllSnoc(base, [], "..");
      assert [".."] + names == [] + [".."];
    } else {
      var n := |names| - 1;
      EnterUpThenNames(base, names[..n]);
      assert [".."] + names == ([".."] + names[..n]) + [names[n]];
      EnterAllSnoc(base, [".."] + names[..n], names[n]);
      assert names[n] in names;
      assert names == names[..n] + [names[n]];
    }
  }
}
