/** The client's bounded record of what it has received, kept to redraw the
    terminal from: the newest chunks that fit, but always at least the last one. */
module RenderHistory {
  import opened Common

  const LIMIT_BYTES := 4 * 1024 * 1024

  function Size(chunks: seq<Bytes>): nat {
    if chunks == [] then 0 else Size(chunks[..|chunks| - 1]) + |chunks[|chunks| - 1]|
  }

  function Evict(chunks: seq<Bytes>): seq<Bytes> {
    if Size(chunks) > LIMIT_BYTES && |chunks| > 1 then Evict(chunks[1..]) else chunks
  }

  function Append(chunks: seq<Bytes>, data: Bytes): seq<Bytes> {
    if data == [] then chunks else Evict(chunks + [data])
  }

  lemma {:induction false} SizeSplit(chunks: seq<Bytes>, k: nat)
    requires k <= |chunks|
    ensures Size(chunks) == Size(chunks[..k]) + Size(chunks[k..])
  {
    if k < |chunks| {
      var init := chunks[..|chunks| - 1];
      SizeSplit(init, k);
      assert init[..k] == chunks[..k];
      assert chunks[k..][..|chunks| - 1 - k] == init[k..];
    } else {
      assert chunks[..k] == chunks;
    }
  }

  lemma SizeDropFirst(chunks: seq<Bytes>)
    requires chunks != []
    ensures Size(chunks[1..]) == Size(chunks) - |chunks[0]|
  {
    SizeSplit(chunks, 1);
    assert chunks[..1] == [chunks[0]];
    assert Size([chunks[0]]) == |chunks[0]|;
  }

  /** `kept` is what should remain of the chunks appended since the last reset: the
      longest run of newest chunks within the limit, or the newest alone. */
  ghost predicate Retained(kept: seq<Bytes>, appended: seq<Bytes>) {
    && IsSuffix(kept, appended)
    && (appended != [] ==> kept != [])
    && (Size(kept) <= LIMIT_BYTES || |kept| == 1)
    && (|kept| < |appended| ==> Size(Tail(appended, |kept| + 1)) > LIMIT_BYTES)
  }

  /** No longer run would fit either. */
  lemma LongerDoesNotFit(kept: seq<Bytes>, appended: seq<Bytes>, n: nat)
    requires Retained(kept, appended) && |kept| < n <= |appended|
    ensures Size(Tail(appended, n)) > LIMIT_BYTES
  {
    var longer := Tail(appended, n);
    SizeSplit(longer, n - (|kept| + 1));
    assert longer[n - (|kept| + 1)..] == Tail(appended, |kept| + 1);
  }

  /** There is only one such run. */
  lemma RetainedIsUnique(a: seq<Bytes>, b: seq<Bytes>, appended: seq<Bytes>)
    requires Retained(a, appended) && Retained(b, appended)
    ensures a == b
  {
    assert a == Tail(appended, |a|) && b == Tail(appended, |b|);
    if |a| < |b| {
      LongerDoesNotFit(a, appended, |b|);
    }
    if |b| < |a| {
      LongerDoesNotFit(b, appended, |a|);
    }
  }

  /** Evicting from the front of a suffix that is long enough ends at the right one. */
  lemma {:induction false} EvictRetains(kept: seq<Bytes>, appended: seq<Bytes>)
    requires IsSuffix(kept, appended) && kept != []
    requires |kept| < |appended| ==> Size(Tail(appended, |kept| + 1)) > LIMIT_BYTES
    ensures Retained(Evict(kept), appended)
    decreases |kept|
  {
    if Size(kept) > LIMIT_BYTES && |kept| > 1 {
      assert Tail(appended, |kept|) == kept;
      EvictRetains(kept[1..], appended);
    }
  }

  lemma TooLongStays(appended: seq<Bytes>, data: Bytes, n: nat)
    requires n <= |appended| && Size(Tail(appended, n)) > LIMIT_BYTES
    ensures Size(Tail(appended + [data], n + 1)) > LIMIT_BYTES
  {
    var older := Tail(appended, n);
    assert Tail(appended + [data], n + 1) == older + [data];
    SizeGrows(older, data);
  }

  lemma OneMoreRetains(kept: seq<Bytes>, appended: seq<Bytes>, data: Bytes)
    requires IsSuffix(kept, appended)
    requires |kept| < |appended| ==> Size(Tail(appended, |kept| + 1)) > LIMIT_BYTES
    ensures Retained(Evict(kept + [data]), appended + [data])
  {
    var longer := kept + [data];
    assert |longer| == |kept| + 1;
    if |kept| < |appended| {
      TooLongStays(appended, data, |kept| + 1);
    }
    SuffixAppend(kept, appended, [data]);
    EvictRetains(longer, appended + [data]);
  }

  lemma AppendRetains(kept: seq<Bytes>, appended: seq<Bytes>, data: Bytes)
    requires Retained(kept, appended)
    ensures Retained(Append(kept, data), if data == [] then appended else appended + [data])
  {
    if data != [] {
      OneMoreRetains(kept, appended, data);
    }
  }

  lemma SizeGrows(chunks: seq<Bytes>, data: Bytes)
    ensures Size(chunks + [data]) == Size(chunks) + |data|
  {
    assert (chunks + [data])[..|chunks|] == chunks;
  }

  lemma {:induction false} SuffixJoins(kept: seq<Bytes>, appended: seq<Bytes>)
    requires IsSuffix(kept, appended)
    ensures IsSuffix(Join(kept), Join(appended))
  {
    var cut := |appended| - |kept|;
    assert appended == appended[..cut] + kept;
    JoinConcat(appended[..cut], kept);
  }
}
