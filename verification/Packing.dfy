/** First-fit-decreasing packing of call-graph components into chunks. */
module Packing {

  /** Functions that stay together, and their total size. */
  datatype Bin = Bin(funcs: seq<nat>, bytes: nat)

  /** The bytes of a list of functions, `size[f]` being the body length of `f`. */
  ghost function SumSizes(fs: seq<nat>, size: seq<nat>): nat {
    if fs == [] then 0 else SumSizes(fs[..|fs| - 1], size) + SizeAt(fs[|fs| - 1], size)
  }

  ghost function SizeAt(f: nat, size: seq<nat>): nat {
    if f < |size| then size[f] else 0
  }

  /** The bytes of the functions of `s` below `n`. */
  ghost function SetBytes(s: set<nat>, n: nat, size: seq<nat>): nat {
    if n == 0 then 0 else SetBytes(s, n - 1, size) + if n - 1 in s then SizeAt(n - 1, size) else 0
  }

  ghost predicate Sized(bins: seq<Bin>, size: seq<nat>) {
    forall i :: 0 <= i < |bins| ==> bins[i].bytes == SumSizes(bins[i].funcs, size)
  }

  lemma {:induction false} SumConcat(a: seq<nat>, b: seq<nat>, size: seq<nat>)
    ensures SumSizes(a + b, size) == SumSizes(a, size) + SumSizes(b, size)
  {
    if b == [] {
      assert a + b == a;
    } else {
      var n := |b| - 1;
      SumConcat(a, b[..n], size);
      assert (a + b)[..|a| + n] == a + b[..n];
    }
  }

  lemma {:induction false} SetBytesUnion(a: set<nat>, b: set<nat>, n: nat, size: seq<nat>)
    requires a !! b
    ensures SetBytes(a + b, n, size) == SetBytes(a, n, size) + SetBytes(b, n, size)
  {
    if n > 0 {
      SetBytesUnion(a, b, n - 1, size);
    }
  }

  lemma {:induction false} SetBytesOne(f: nat, n: nat, size: seq<nat>)
    ensures SetBytes({f}, n, size) == if f < n then SizeAt(f, size) else 0
    ensures SetBytes({}, n, size) == 0
  {
    if n > 0 {
      SetBytesOne(f, n - 1, size);
    }
  }

  ghost function AsSet(fs: seq<nat>): set<nat> {
    set f | f in fs
  }

  /** Without repeats, a list weighs what its set weighs. */
  lemma {:induction false} SumIsSetBytes(fs: seq<nat>, n: nat, size: seq<nat>)
    requires forall i, j :: 0 <= i < j < |fs| ==> fs[i] != fs[j]
    requires forall i :: 0 <= i < |fs| ==> fs[i] < n
    ensures SumSizes(fs, size) == SetBytes(AsSet(fs), n, size)
  {
    var s := AsSet(fs);
    if fs == [] {
      SetBytesOne(0, n, size);
      assert s == {};
    } else {
      var k := |fs| - 1;
      var t := AsSet(fs[..k]);
      SumIsSetBytes(fs[..k], n, size);
      assert s == t + {fs[k]};
      SetBytesUnion(t, {fs[k]}, n, size);
      SetBytesOne(fs[k], n, size);
    }
  }

  /** How often function `f` is listed. */
  ghost function Count(bins: seq<Bin>, f: nat): nat {
    if bins == [] then 0 else Count(bins[..|bins| - 1], f) + multiset(bins[|bins| - 1].funcs)[f]
  }

  ghost function Bytes(bins: seq<Bin>): nat {
    if bins == [] then 0 else Bytes(bins[..|bins| - 1]) + bins[|bins| - 1].bytes
  }

  lemma Append(bins: seq<Bin>, b: Bin)
    ensures forall f :: Count(bins + [b], f) == Count(bins, f) + multiset(b.funcs)[f]
    ensures Bytes(bins + [b]) == Bytes(bins) + b.bytes
  {
    assert (bins + [b])[..|bins|] == bins;
  }

  lemma {:induction false} Concat(a: seq<Bin>, b: seq<Bin>)
    ensures forall f :: Count(a + b, f) == Count(a, f) + Count(b, f)
    ensures Bytes(a + b) == Bytes(a) + Bytes(b)
  {
    if b == [] {
      assert a + b == a;
    } else {
      var n := |b| - 1;
      Concat(a, b[..n]);
      Append(a + b[..n], b[n]);
      assert a + b == (a + b[..n]) + [b[n]];
    }
  }

  /** Taking out one bin. */
  lemma Splice(bins: seq<Bin>, k: nat)
    requires k < |bins|
    ensures forall f :: Count(bins, f) == Count(bins[..k] + bins[k + 1..], f) + multiset(bins[k].funcs)[f]
    ensures Bytes(bins) == Bytes(bins[..k] + bins[k + 1..]) + bins[k].bytes
  {
    var p, q, x := bins[..k], bins[k + 1..], bins[k];
    assert bins == p + [x] + q;
    Together(p, x, q);
  }

  lemma Together(p: seq<Bin>, x: Bin, q: seq<Bin>)
    ensures forall f :: Count(p + [x] + q, f) == Count(p + q, f) + multiset(x.funcs)[f]
    ensures Bytes(p + [x] + q) == Bytes(p + q) + x.bytes
  {
    Append(p, x);
    Concat(p + [x], q);
    Concat(p, q);
  }

  lemma Update(bins: seq<Bin>, k: nat, b: Bin)
    requires k < |bins|
    ensures forall f :: Count(bins[k := b], f) == Count(bins, f) + multiset(b.funcs)[f] - multiset(bins[k].funcs)[f]
    ensures Bytes(bins[k := b]) == Bytes(bins) + b.bytes - bins[k].bytes
  {
    var r := bins[k := b];
    Splice(bins, k);
    Splice(r, k);
    assert r[..k] == bins[..k] && r[k + 1..] == bins[k + 1..];
  }

  lemma {:induction false} Listed(bins: seq<Bin>, i: nat, f: nat)
    requires i < |bins| && f in bins[i].funcs
    ensures Count(bins, f) >= 1
  {
    Splice(bins, i);
    assert multiset(bins[i].funcs)[f] >= 1;
  }

  lemma {:induction false} Source(bins: seq<Bin>, f: nat) returns (i: nat)
    requires Count(bins, f) >= 1
    ensures i < |bins| && f in bins[i].funcs
  {
    var n := |bins| - 1;
    if f in bins[n].funcs {
      i := n;
    } else {
      i := Source(bins[..n], f);
    }
  }

  /** A function in two bins of a list is listed twice. */
  lemma ListedTwice(bins: seq<Bin>, i: nat, j: nat, f: nat)
    requires i < j < |bins| && f in bins[i].funcs && f in bins[j].funcs
    ensures Count(bins, f) >= 2
  {
    Splice(bins, j);
    assert multiset(bins[j].funcs)[f] >= 1;
    var r := bins[..j] + bins[j + 1..];
    assert r[i] == bins[i];
    Listed(r, i, f);
  }

  // ----- sort.SliceStable, biggest first -----

  ghost predicate Descending(bins: seq<Bin>) {
    forall i, j :: 0 <= i < j < |bins| ==> bins[i].bytes >= bins[j].bytes
  }

  function InsertStable(bins: seq<Bin>, b: Bin): (r: seq<Bin>)
    ensures multiset(r) == multiset(bins) + multiset{b}
  {
    if bins == [] || bins[|bins| - 1].bytes >= b.bytes then
      bins + [b]
    else
      var n := |bins| - 1;
      assert bins == bins[..n] + [bins[n]];
      InsertStable(bins[..n], b) + [bins[n]]
  }

  lemma {:induction false} InsertDescending(bins: seq<Bin>, b: Bin)
    requires Descending(bins)
    ensures Descending(InsertStable(bins, b))
  {
    if bins != [] && bins[|bins| - 1].bytes < b.bytes {
      var n := |bins| - 1;
      var r := InsertStable(bins[..n], b);
      InsertDescending(bins[..n], b);
      forall i | 0 <= i < |r|
        ensures r[i].bytes >= bins[n].bytes
      {
        assert r[i] in multiset(r);
        if r[i] != b {
          assert r[i] in bins[..n];
        }
      }
    }
  }

  function SortStable(bins: seq<Bin>): (r: seq<Bin>)
    ensures multiset(r) == multiset(bins)
    ensures Descending(r)
  {
    if bins == [] then []
    else
      var n := |bins| - 1;
      assert bins == bins[..n] + [bins[n]];
      InsertDescending(SortStable(bins[..n]), bins[n]);
      InsertStable(SortStable(bins[..n]), bins[n])
  }

  /** Rearranging bins rearranges their functions. */
  lemma {:induction false} Permute(a: seq<Bin>, b: seq<Bin>)
    requires multiset(a) == multiset(b)
    ensures forall f :: Count(a, f) == Count(b, f)
    ensures Bytes(a) == Bytes(b)
    decreases |a|
  {
    if a != [] {
      var n := |a| - 1;
      var x := a[n];
      MultisetDrop(a, n);
      assert x in multiset(b);
      var k :| 0 <= k < |b| && b[k] == x;
      MultisetDrop(b, k);
      Splice(a, n);
      Splice(b, k);
      Permute(a[..n] + a[n + 1..], b[..k] + b[k + 1..]);
    } else {
      assert |multiset(b)| == |b|;
    }
  }

  lemma MultisetDrop(b: seq<Bin>, k: nat)
    requires k < |b|
    ensures multiset(b[..k] + b[k + 1..]) == multiset(b) - multiset{b[k]}
  {
    assert b == b[..k] + [b[k]] + b[k + 1..];
  }

  // ----- the packing loop -----

  /** All functions of a bin are in one chunk. */
  ghost predicate Whole(b: Bin, chunks: seq<Bin>) {
    exists c :: 0 <= c < |chunks| && Inside(b, chunks[c])
  }

  ghost predicate Inside(b: Bin, c: Bin) {
    multiset(b.funcs) <= multiset(c.funcs)
  }

  /** The chunk fits, or is a single bin. */
  ghost predicate FitsOrSingle(c: Bin, bins: seq<Bin>, chunkBytes: nat) {
    c.bytes <= chunkBytes || c in bins
  }

  /** `chunks` hold the functions and bytes of the first `done` bins. */
  ghost predicate Conserves(bins: seq<Bin>, done: nat, chunks: seq<Bin>)
    requires done <= |bins|
  {
    (forall f :: Count(chunks, f) == Count(bins[..done], f)) && Bytes(chunks) == Bytes(bins[..done])
  }

  ghost predicate AllWhole(bins: seq<Bin>, done: nat, chunks: seq<Bin>)
    requires done <= |bins|
  {
    forall b {:trigger Whole(bins[b], chunks)} :: 0 <= b < done ==> Whole(bins[b], chunks)
  }

  ghost predicate AllFit(bins: seq<Bin>, chunks: seq<Bin>, chunkBytes: nat) {
    forall c :: 0 <= c < |chunks| ==> FitsOrSingle(chunks[c], bins, chunkBytes)
  }

  /** No two chunks would fit into one. */
  ghost predicate PairsFull(chunks: seq<Bin>, chunkBytes: nat) {
    forall i, j :: 0 <= i < j < |chunks| ==> chunks[i].bytes + chunks[j].bytes > chunkBytes
  }

  /** Every chunk is at least as big as every bin still to come. */
  ghost predicate Dominates(bins: seq<Bin>, done: nat, chunks: seq<Bin>) {
    forall c, b :: 0 <= c < |chunks| && done <= b < |bins| ==> chunks[c].bytes >= bins[b].bytes
  }

  ghost predicate Packed(bins: seq<Bin>, done: nat, chunks: seq<Bin>, chunkBytes: nat)
    requires done <= |bins|
  {
    && Conserves(bins, done, chunks) && AllWhole(bins, done, chunks) && AllFit(bins, chunks, chunkBytes)
    && PairsFull(chunks, chunkBytes) && Dominates(bins, done, chunks)
  }

  /** `bins[done]` goes into chunk `at` of `r`; the other chunks stay. */
  lemma StaysWhole(bins: seq<Bin>, done: nat, chunks: seq<Bin>, r: seq<Bin>, at: nat)
    requires done < |bins| && AllWhole(bins, done, chunks) && |chunks| <= |r| && at < |r|
    requires forall c :: 0 <= c < |chunks| ==> Inside(chunks[c], r[c])
    requires Inside(bins[done], r[at])
    ensures AllWhole(bins, done + 1, r)
  {
    forall i | 0 <= i < done + 1
      ensures Whole(bins[i], r)
    {
      if i < done {
        assert Whole(bins[i], chunks);
        var c :| 0 <= c < |chunks| && Inside(bins[i], chunks[c]);
        assert Inside(chunks[c], r[c]);
        assert Inside(bins[i], r[c]);
      }
    }
  }

  lemma OpenChunk(bins: seq<Bin>, done: nat, chunks: seq<Bin>, chunkBytes: nat)
    requires done < |bins| && Packed(bins, done, chunks, chunkBytes) && Descending(bins) && chunkBytes > 0
    requires || bins[done].bytes >= chunkBytes
             || forall c :: 0 <= c < |chunks| ==> chunks[c].bytes + bins[done].bytes > chunkBytes
    ensures Packed(bins, done + 1, chunks + [bins[done]], chunkBytes)
  {
    var b := bins[done];
    var r := chunks + [b];
    assert Conserves(bins, done + 1, r) by {
      Append(chunks, b);
      Append(bins[..done], b);
      assert bins[..done + 1] == bins[..done] + [b];
    }
    StaysWhole(bins, done, chunks, r, |chunks|);
    assert PairsFull(r, chunkBytes) by {
      assert forall c :: 0 <= c < |chunks| ==> chunks[c].bytes >= b.bytes;
    }
    assert AllFit(bins, r, chunkBytes);
    assert Dominates(bins, done + 1, r);
  }

  lemma FillConserves(bins: seq<Bin>, done: nat, chunks: seq<Bin>, fit: nat, c: Bin)
    requires done < |bins| && Conserves(bins, done, chunks) && fit < |chunks|
    requires c == Bin(chunks[fit].funcs + bins[done].funcs, chunks[fit].bytes + bins[done].bytes)
    ensures Conserves(bins, done + 1, chunks[fit := c])
  {
    var b := bins[done];
    assert multiset(c.funcs) == multiset(chunks[fit].funcs) + multiset(b.funcs);
    Update(chunks, fit, c);
    Append(bins[..done], b);
    assert bins[..done + 1] == bins[..done] + [b];
  }

  lemma FillChunk(bins: seq<Bin>, done: nat, chunks: seq<Bin>, chunkBytes: nat, fit: nat, c: Bin)
    requires done < |bins| && Packed(bins, done, chunks, chunkBytes)
    requires fit < |chunks| && chunks[fit].bytes + bins[done].bytes <= chunkBytes
    requires c == Bin(chunks[fit].funcs + bins[done].funcs, chunks[fit].bytes + bins[done].bytes)
    ensures Packed(bins, done + 1, chunks[fit := c], chunkBytes)
  {
    var r := chunks[fit := c];
    FillConserves(bins, done, chunks, fit, c);
    assert multiset(c.funcs) == multiset(chunks[fit].funcs) + multiset(bins[done].funcs);
    StaysWhole(bins, done, chunks, r, fit);
    FillSizes(bins, done, chunks, chunkBytes, fit, c);
  }

  lemma FillSizes(bins: seq<Bin>, done: nat, chunks: seq<Bin>, chunkBytes: nat, fit: nat, c: Bin)
    requires fit < |chunks| && chunks[fit].bytes <= c.bytes <= chunkBytes && done < |bins|
    requires AllFit(bins, chunks, chunkBytes) && PairsFull(chunks, chunkBytes) && Dominates(bins, done, chunks)
    ensures var r := chunks[fit := c];
            AllFit(bins, r, chunkBytes) && PairsFull(r, chunkBytes) && Dominates(bins, done + 1, r)
  {
  }

  // ----- how many chunks there are -----

  /** Chunks that pairwise exceed the limit: twice the total exceeds the limit
      once per chunk. */
  lemma ChunkCount(chunks: seq<Bin>, chunkBytes: nat)
    requires |chunks| >= 2 && PairsFull(chunks, chunkBytes)
    ensures |chunks| * chunkBytes < 2 * Bytes(chunks)
  {
    var n := |chunks| - 1;
    AdjacentPairs(chunks, n, chunkBytes);
    assert chunks[..n + 1] == chunks;
    assert chunks[0].bytes + chunks[n].bytes > chunkBytes;
    OnceMore(n, chunkBytes);
  }

  lemma OnceMore(n: nat, c: nat)
    ensures (n + 1) * c == n * c + c
  {
  }

  lemma {:induction false} AdjacentPairs(chunks: seq<Bin>, n: nat, chunkBytes: nat)
    requires n < |chunks| && PairsFull(chunks, chunkBytes)
    ensures n * chunkBytes + n <= 2 * Bytes(chunks[..n + 1]) - chunks[0].bytes - chunks[n].bytes
  {
    Append(chunks[..n], chunks[n]);
    assert chunks[..n + 1] == chunks[..n] + [chunks[n]];
    if n > 0 {
      AdjacentPairs(chunks, n - 1, chunkBytes);
      assert chunks[n - 1].bytes + chunks[n].bytes > chunkBytes;
      OnceMore(n - 1, chunkBytes);
    }
  }
}
