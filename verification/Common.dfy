/** Definitions shared by every module: options and results, bytes, and the two
    sequence operations the whole model is written in, `Tail` and `Join`. */
module Common {

  datatype Option<+T> = None | Some(value: T)

  type byte = x: int | 0 <= x < 256

  type Bytes = seq<byte>

  const ESC: byte := 0x1b
  const BEL: byte := 0x07

  /** The characters of Unicode with the White_Space property. */
  predicate WhiteSpace(c: nat) {
    || 0x09 <= c <= 0x0d || c == 0x20 || c == 0x85 || c == 0xa0 || c == 0x1680
    || 0x2000 <= c <= 0x200a || c == 0x2028 || c == 0x2029 || c == 0x202f || c == 0x205f || c == 0x3000
  }

  function Min(a: int, b: int): int {
    if a <= b then a else b
  }

  /** The last `n` elements of `s`, or all of `s` when it is shorter. */
  function Tail<T>(s: seq<T>, n: nat): seq<T> {
    if |s| <= n then s else s[|s| - n..]
  }

  /** The chunks glued together in order. */
  function Join<T>(chunks: seq<seq<T>>): seq<T> {
    if chunks == [] then [] else Join(chunks[..|chunks| - 1]) + chunks[|chunks| - 1]
  }

  ghost predicate IsSuffix<T>(s: seq<T>, t: seq<T>) {
    s == t || (|s| < |t| && t[|t| - |s|..] == s)
  }

  /** Whether `pattern` stands in `s` at index `i`. */
  predicate OccursAt<T(==)>(s: seq<T>, pattern: seq<T>, i: nat) {
    i + |pattern| <= |s| && s[i..i + |pattern|] == pattern
  }

  lemma ConcatAssociates<T>(a: seq<T>, b: seq<T>, c: seq<T>)
    ensures a + (b + c) == (a + b) + c
  {
  }

  lemma DropPast<T>(a: seq<T>, b: seq<T>, k: nat)
    requires |a| <= k <= |a| + |b|
    ensures (a + b)[k..] == b[k - |a|..]
  {
  }

  /** Truncating early loses nothing that truncating late would have kept. */
  lemma TailOfTail<T>(a: seq<T>, b: seq<T>, n: nat)
    ensures Tail(Tail(a, n) + b, n) == Tail(a + b, n)
  {
    if |a| > n {
      var pre, t := a[..|a| - n], Tail(a, n);
      assert a == pre + t;
      ConcatAssociates(pre, t, b);
      DropPast(pre, t + b, |a| + |b| - n);
    }
  }

  lemma JoinSnoc<T>(chunks: seq<seq<T>>, last: seq<T>)
    ensures Join(chunks + [last]) == Join(chunks) + last
  {
    assert (chunks + [last])[..|chunks|] == chunks;
  }

  lemma {:induction false} JoinConcat<T>(a: seq<seq<T>>, b: seq<seq<T>>)
    ensures Join(a + b) == Join(a) + Join(b)
  {
    if b == [] {
      assert a + b == a;
    } else {
      var init, last := b[..|b| - 1], b[|b| - 1];
      JoinConcat(a, init);
      SnocOfConcat(a, b);
      JoinSnoc(a + init, last);
      ConcatAssociates(Join(a), Join(init), last);
    }
  }

  lemma SnocOfConcat<T>(a: seq<T>, b: seq<T>)
    requires b != []
    ensures a + b == (a + b[..|b| - 1]) + [b[|b| - 1]]
  {
  }

  lemma SuffixAppend<T>(s: seq<T>, t: seq<T>, more: seq<T>)
    requires IsSuffix(s, t)
    ensures IsSuffix(s + more, t + more)
  {
  }

  lemma SuffixTransitive<T>(r: seq<T>, s: seq<T>, t: seq<T>)
    requires IsSuffix(r, s) && IsSuffix(s, t)
    ensures IsSuffix(r, t)
  {
  }
}
