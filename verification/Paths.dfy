/** Which files a request may name: the lexical check that a path stays under its
    root, and the resolver that applies it before and after following links. */
module Paths {
  import Common
  const SEP := '/'

  predicate IsName(s: string) {
    s != "" && s != "." && s != ".." && SEP !in s
  }

  predicate Names(names: seq<string>) {
    forall n :: n in names ==> IsName(n)
  }

  /** A clean absolute path, as its components. */
  type Path = names: seq<string> | Names(names)

  // --- Path texts ---

  function Text(parts: seq<string>): string {
    if parts == [] then "" else if |parts| == 1 then parts[0] else parts[0] + [SEP] + Text(parts[1..])
  }

  function Split(s: string): (parts: seq<string>)
    ensures parts != []
  {
    if s == "" then [""]
    else
      var rest := Split(s[1..]);
      if s[0] == SEP then [""] + rest else [[s[0]] + rest[0]] + rest[1..]
  }

  /** What one component does to the path so far. */
  function Enter(path: seq<string>, part: string): seq<string> {
    if part == "" || part == "." then path
    else if part == ".." then (if path == [] then [] else path[..|path| - 1])
    else path + [part]
  }

  function EnterAll(path: seq<string>, parts: seq<string>): seq<string> {
    if parts == [] then path else Enter(EnterAll(path, parts[..|parts| - 1]), parts[|parts| - 1])
  }

  /** The same where there is no root to stop at: leading steps up are kept. */
  function EnterRelative(path: seq<string>, part: string): seq<string> {
    if part == "" || part == "." then path
    else if part == ".." && (path == [] || path[|path| - 1] == "..") then path + [".."]
    else if part == ".." then path[..|path| - 1]
    else path + [part]
  }

  function CleanRelative(parts: seq<string>): seq<string> {
    if parts == [] then [] else EnterRelative(CleanRelative(parts[..|parts| - 1]), parts[|parts| - 1])
  }

  function CleanRelativeText(s: string): string {
    var parts := CleanRelative(Split(s));
    if parts == [] then "." else Text(parts)
  }

  function Joined(base: seq<string>, s: string): seq<string> {
    EnterAll(base, Split(s))
  }

  // --- Relative paths ---

  function CommonLength(a: seq<string>, b: seq<string>): (n: nat)
    ensures n <= |a| && n <= |b| && a[..n] == b[..n]
    ensures n < |a| && n < |b| ==> a[n] != b[n]
  {
    if a == [] || b == [] || a[0] != b[0] then 0 else 1 + CommonLength(a[1..], b[1..])
  }

  function Ups(n: nat): seq<string> {
    if n == 0 then [] else [".."] + Ups(n - 1)
  }

  function RelParts(base: Path, target: Path): seq<string> {
    var n := CommonLength(base, target);
    Ups(|base| - n) + target[n..]
  }

  function Rel(base: Path, target: Path): string {
    if base == target then "." else Text(RelParts(base, target))
  }

  predicate IsAbs(s: string) {
    s != "" && s[0] == SEP
  }

  /** The check the resolver makes, on the text of the relative path. */
  predicate InsideRoot(root: Path, target: Path) {
    var rel := Rel(root, target);
    rel == "." || (rel != ".." && !(".." + [SEP] <= rel) && !IsAbs(rel))
  }

  lemma TextStarts(parts: seq<string>)
    requires parts != []
    ensures parts[0] <= Text(parts)
    ensures |parts| > 1 ==> parts[0] + [SEP] <= Text(parts)
    ensures |parts| == 1 ==> Text(parts) == parts[0]
  {
  }

  /** A text that begins with a name does not begin with a step up. */
  lemma NameIsNotUp(parts: seq<string>)
    requires parts != [] && IsName(parts[0])
    ensures Text(parts) != ".." && Text(parts) != "." && !(".." + [SEP] <= Text(parts)) && !IsAbs(Text(parts))
  {
    var name, text := parts[0], Text(parts);
    TextStarts(parts);
    assert text[0] == name[0] && name[0] in name;
    if |parts| > 1 {
      assert text[|name|] == SEP;
    }
    if |name| > 2 {
      assert text[2] == name[2] && name[2] in name;
    }
  }

  /** The check says exactly that the root's components come first in the target:
      a name that merely starts with two dots is a name like any other. */
  lemma InsideRootIsPrefix(root: Path, target: Path)
    ensures InsideRoot(root, target) <==> root <= target
  {
    var n := CommonLength(root, target);
    var parts := RelParts(root, target);
    if root == target {
    } else if n == |root| {
      assert target[..n] == root;
      assert Ups(0) + target[n..] == target[n..];
      assert parts[0] == target[n] && target[n] in target;
      NameIsNotUp(parts);
    } else {
      assert parts[0] == "..";
      TextStarts(parts);
    }
  }

  // --- Resolving a request ---

  datatype Evaluated = Real(path: Path) | Missing | Unreadable

  datatype Resolved = Found(target: Path, rel: string) | Forbidden | NotFound | Failed

  predicate IsSpace(c: char) {
    Common.WhiteSpace(c as int)
  }

  /** No white space at either end. */
  predicate Bare(s: string) {
    s != "" ==> !IsSpace(s[0]) && !IsSpace(s[|s| - 1])
  }

  function TrimSpace(s: string): (t: string)
    ensures |t| <= |s| && Bare(t) && (t == s <==> Bare(s))
    decreases |s|
  {
    if s == "" then ""
    else if IsSpace(s[0]) then TrimSpace(s[1..])
    else if IsSpace(s[|s| - 1]) then TrimSpace(s[..|s| - 1])
    else s
  }

  /** The path a request names, before links are followed. */
  function Named(base: Path, requested: string): seq<string> {
    var text := TrimSpace(requested);
    if text == "" || text == "." then base
    else if IsAbs(text) then Joined([], text)
    else Joined(base, CleanRelativeText(text))
  }

  lemma {:induction false} EnterAllNames(path: seq<string>, parts: seq<string>)
    requires Names(path) && forall p :: p in parts ==> SEP !in p
    ensures Names(EnterAll(path, parts))
    decreases |parts|
  {
    if parts != [] {
      EnterAllNames(path, parts[..|parts| - 1]);
    }
  }

  lemma {:induction false} SplitParts(s: string)
    ensures forall p :: p in Split(s) ==> SEP !in p
  {
    if s != "" {
      SplitParts(s[1..]);
      assert Split(s[1..])[0] in Split(s[1..]);
    }
  }

  lemma NamedIsPath(base: Path, requested: string)
    ensures Names(Named(base, requested))
  {
    var text := TrimSpace(requested);
    SplitParts(text);
    SplitParts(CleanRelativeText(text));
    EnterAllNames([], Split(text));
    EnterAllNames(base, Split(CleanRelativeText(text)));
  }

  function ResolveBase(base: Path, requested: string, eval: Path -> Evaluated): Resolved {
    NamedIsPath(base, requested);
    var target: Path := Named(base, requested);
    if !InsideRoot(base, target) then Forbidden
    else match eval(target)
      case Missing => NotFound
      case Unreadable => Failed
      case Real(path) =>
        if !InsideRoot(base, path) then Forbidden
        else
          var rel := Rel(base, path);
          Found(path, if rel == "." then "" else rel)
  }

  function JoinRelative(base: string, name: string): string {
    if base == "" then name else CleanRelativeText(base + [SEP] + name)
  }

  // --- Texts and components undo each other ---

  lemma {:induction false} SplitPrefix(name: string, rest: string)
    requires SEP !in name
    ensures Split(name + [SEP] + rest) == [name] + Split(rest)
    ensures Split(name) == [name]
  {
    if name == "" {
      assert name + [SEP] + rest == [SEP] + rest;
      assert ([SEP] + rest)[1..] == rest;
    } else {
      SplitPrefix(name[1..], rest);
      assert name[0] in name;
      assert name == [name[0]] + name[1..];
      assert (name + [SEP] + rest)[1..] == name[1..] + [SEP] + rest;
    }
  }

  lemma {:induction false} SplitText(parts: seq<string>)
    requires parts != [] && forall p :: p in parts ==> SEP !in p
    ensures Split(Text(parts)) == parts
  {
    if |parts| == 1 {
      SplitPrefix(parts[0], "");
    } else {
      SplitPrefix(parts[0], Text(parts[1..]));
      SplitText(parts[1..]);
    }
  }

  lemma EnterAllSnoc(path: seq<string>, parts: seq<string>, part: string)
    ensures EnterAll(path, parts + [part]) == Enter(EnterAll(path, parts), part)
  {
    assert (parts + [part])[..|parts|] == parts;
  }

  lemma {:induction false} EnterNames(path: seq<string>, names: seq<string>)
    requires Names(names)
    ensures EnterAll(path, names) == path + names
  {
    if names == [] {
      assert path + names == path;
    } else {
      var n := |names| - 1;
      EnterNames(path, names[..n]);
      assert names[n] in names;
      assert path + names[..n] + [names[n]] == path + names;
    }
  }

  lemma {:induction false} CleanHasNoBlanks(parts: seq<string>)
    ensures "" !in CleanRelative(parts) && "." !in CleanRelative(parts)
    decreases |parts|
  {
    if parts != [] {
      CleanHasNoBlanks(parts[..|parts| - 1]);
    }
  }

  /** A cleaned path steps up at its beginning or not at all. */
  lemma {:induction false} CleanStepsUpFirst(parts: seq<string>)
    ensures forall i :: 0 < i < |CleanRelative(parts)| && CleanRelative(parts)[i] == ".." ==>
              CleanRelative(parts)[i - 1] == ".."
    decreases |parts|
  {
    if parts != [] {
      CleanStepsUpFirst(parts[..|parts| - 1]);
    }
  }

  lemma CleaningOneMore(path: seq<string>, clean: seq<string>, part: string)
    requires "" !in clean && "." !in clean
    ensures EnterAll(path, EnterRelative(clean, part)) == Enter(EnterAll(path, clean), part)
  {
    if part == ".." && clean != [] && clean[|clean| - 1] != ".." {
      var k := |clean| - 1;
      assert clean[k] in clean;
      assert EnterAll(path, clean) == EnterAll(path, clean[..k]) + [clean[k]];
    } else {
      EnterAllSnoc(path, clean, part);
    }
  }

  /** Entering a cleaned relative path leads where the path itself does. */
  lemma {:induction false} CleaningLeadsTheSame(path: seq<string>, parts: seq<string>)
    ensures EnterAll(path, CleanRelative(parts)) == EnterAll(path, parts)
    decreases |parts|
  {
    if parts != [] {
      var n := |parts| - 1;
      CleaningLeadsTheSame(path, parts[..n]);
      CleanHasNoBlanks(parts[..n]);
      CleaningOneMore(path, CleanRelative(parts[..n]), parts[n]);
    }
  }

  lemma {:induction false} CleanKeepsParts(parts: seq<string>)
    requires forall p :: p in parts ==> SEP !in p
    ensures forall p :: p in CleanRelative(parts) ==> SEP !in p
    decreases |parts|
  {
    if parts != [] {
      CleanKeepsParts(parts[..|parts| - 1]);
    }
  }

  /** Joining a cleaned text is joining the text. */
  lemma CleanTextJoins(base: seq<string>, s: string)
    ensures Joined(base, CleanRelativeText(s)) == Joined(base, s)
  {
    var parts := CleanRelative(Split(s));
    SplitParts(s);
    CleanKeepsParts(Split(s));
    CleaningLeadsTheSame(base, Split(s));
    if parts == [] {
      SplitPrefix(".", "");
      EnterAllSnoc(base, [], ".");
      assert [] + ["."] == ["."];
    } else {
      SplitText(parts);
    }
  }

  // --- What a successful answer says ---

  /** The relative result of a target inside the base: no step up in it, and joined
      to the base it is the target. */
  lemma RelLeadsBack(base: Path, target: Path)
    requires base <= target
    ensures var rel := if Rel(base, target) == "." then "" else Rel(base, target);
            && ".." !in Split(rel) && !IsAbs(rel)
            && Joined(base, rel) == target
            && (target != base ==> Split(rel) == target[|base|..])
  {
    var names := target[|base|..];
    assert target == base + names;
    if names == [] {
      assert EnterAll(base, [""]) == Enter(EnterAll(base, []), "");
    } else {
      var n := CommonLength(base, target);
      assert n == |base|;
      assert Ups(0) + names == names;
      assert forall p :: p in names ==> p in target;
      assert names[0] in names;
      NameIsNotUp(names);
      SplitText(names);
      EnterNames(base, names);
    }
  }

  /** Whatever the links are: the answer is a path under the base, with its relative
      form; and a request is refused exactly when the path it names, or the one the
      links lead to, is not under the base. */
  lemma ResolvedStaysInside(base: Path, requested: string, eval: Path -> Evaluated)
    ensures var r, named := ResolveBase(base, requested, eval), Named(base, requested);
            && Names(named)
            && (r == Forbidden <==> !(base <= named) || (eval(named).Real? && !(base <= eval(named).path)))
            && (r == NotFound <==> base <= named && eval(named) == Missing)
            && (r == Failed <==> base <= named && eval(named) == Unreadable)
            && (r.Found? ==> eval(named) == Real(r.target) && base <= r.target
                             && ".." !in Split(r.rel) && !IsAbs(r.rel) && Joined(base, r.rel) == r.target)
  {
    NamedIsPath(base, requested);
    var named: Path := Named(base, requested);
    InsideRootIsPrefix(base, named);
    if eval(named).Real? {
      InsideRootIsPrefix(base, eval(named).path);
      if base <= eval(named).path {
        RelLeadsBack(base, eval(named).path);
      }
    }
  }

  // --- Asking again ---

  /** Room taken by components with a separator after each. */
  function Size(parts: seq<string>): nat {
    if parts == [] then 0 else Size(parts[..|parts| - 1]) + |parts[|parts| - 1]| + 1
  }

  lemma {:induction false} SizeConcat(a: seq<string>, b: seq<string>)
    ensures Size(a + b) == Size(a) + Size(b)
  {
    if b == [] {
      assert a + b == a;
    } else {
      var n := |b| - 1;
      SizeConcat(a, b[..n]);
      assert (a + b)[..|a + b| - 1] == a + b[..n];
    }
  }

  lemma {:induction false} SplitSize(s: string)
    ensures Size(Split(s)) == |s| + 1
  {
    if s == "" {
      assert [""][..0] == [];
    } else {
      var rest := Split(s[1..]);
      SplitSize(s[1..]);
      SizeConcat([""], rest);
      SizeConcat([rest[0]], rest[1..]);
      SizeConcat([[s[0]] + rest[0]], rest[1..]);
      assert rest == [rest[0]] + rest[1..];
      assert [""][..0] == [] && [rest[0]][..0] == [] && [[s[0]] + rest[0]][..0] == [];
    }
  }

  lemma {:induction false} EnterSize(path: seq<string>, parts: seq<string>)
    ensures Size(EnterAll(path, parts)) <= Size(path) + Size(parts)
    decreases |parts|
  {
    if parts != [] {
      var n := |parts| - 1;
      EnterSize(path, parts[..n]);
      var before := EnterAll(path, parts[..n]);
      SizeConcat(before, [parts[n]]);
      assert [parts[n]][..0] == [];
    }
  }

  lemma NamesAreNamed(base: Path, names: seq<string>)
    requires names != [] && Names(names) && TrimSpace(Text(names)) == Text(names)
    ensures Named(base, Text(names)) == base + names
  {
    var x := Text(names);
    assert names[0] in names;
    NameIsNotUp(names);
    SplitText(names);
    CleanTextJoins(base, x);
    EnterNames(base, names);
    TextStarts(names);
  }

  /** What a request names is no longer than its text without white space at the ends. */
  lemma NamedIsShort(base: Path, requested: string)
    ensures Size(Named(base, requested)) <= Size(base) + |TrimSpace(requested)| + 1
  {
    var text := TrimSpace(requested);
    SplitSize(text);
    EnterSize([], Split(text));
    EnterSize(base, Split(text));
    CleanTextJoins(base, text);
  }

  lemma NamesSize(base: Path, names: seq<string>)
    requires names != [] && Names(names)
    ensures Size(base + names) == Size(base) + |Text(names)| + 1
  {
    SplitText(names);
    SplitSize(Text(names));
    SizeConcat(base, names);
  }

  /** Asking for the relative path of something strictly inside the base names that
      very thing, exactly when the path neither starts nor ends with white space. */
  lemma AskingAgain(base: Path, names: seq<string>)
    requires names != [] && Names(names)
    ensures Named(base, Text(names)) == base + names <==> Bare(Text(names))
  {
    if Bare(Text(names)) {
      NamesAreNamed(base, names);
    } else {
      TrimShortens(Text(names));
      NamedIsShort(base, Text(names));
      NamesSize(base, names);
    }
  }

  lemma TrimShortens(s: string)
    requires !Bare(s)
    ensures |TrimSpace(s)| < |s|
  {
  }

  lemma {:induction false} CleanNames(names: seq<string>)
    requires Names(names)
    ensures CleanRelative(names) == names
  {
    if names != [] {
      CleanNames(names[..|names| - 1]);
      assert names[|names| - 1] in names;
    }
  }

  lemma {:induction false} TextSnoc(names: seq<string>, name: string)
    requires names != []
    ensures Text(names + [name]) == Text(names) + [SEP] + name
  {
    assert (names + [name])[1..] == names[1..] + [name];
    if |names| > 1 {
      TextSnoc(names[1..], name);
      assert Text(names + [name]) == names[0] + [SEP] + (Text(names[1..]) + [SEP] + name);
    }
  }

  lemma NamesAreClean(names: seq<string>)
    requires names != [] && Names(names)
    ensures CleanRelativeText(Text(names)) == Text(names)
  {
    SplitText(names);
    CleanNames(names);
  }

  lemma TextIsNotEmpty(names: seq<string>)
    requires names != [] && Names(names)
    ensures Text(names) != ""
  {
    assert names[0] in names;
    TextStarts(names);
  }

  lemma ShownPath(names: seq<string>, name: string)
    requires Names(names) && IsName(name)
    ensures JoinRelative(Text(names), name) == Text(names + [name])
  {
    if names == [] {
      assert names + [name] == [name];
    } else {
      TextIsNotEmpty(names);
      TextSnoc(names, name);
      NamesAreClean(names + [name]);
    }
  }

  /** The path shown for an entry of a listed directory names that entry, exactly
      when it neither starts nor ends with white space. */
  lemma ListedEntryIsNamed(base: Path, names: seq<string>, name: string)
    requires Names(names) && IsName(name)
    ensures var shown := JoinRelative(Text(names), name);
            Named(base, shown) == base + (names + [name]) <==> Bare(shown)
  {
    ShownPath(names, name);
    AskingAgain(base, names + [name]);
  }

  /** The path shown for an entry whose name begins with a blank names another one. */
  lemma BlankNamesAreLost(base: Path)
    ensures IsName(" a") && JoinRelative("", " a") == " a" && Named(base, " a") == base + ["a"]
  {
    assert " a"[1..] == "a" && Names(["a"]) && Text(["a"]) == "a";
    NamesAreNamed(base, ["a"]);
  }
}
