/** Which chunk first-fit-decreasing packing sends each bin to. */
module FirstFit {
  import opened Packing

  // ----- sorting is stable -----

  /** The bins of `n` bytes, in order. */
  ghost function OfSize(bins: seq<Bin>, n: nat): seq<Bin> {
    if bins == [] then [] else OfSize(bins[..|bins| - 1], n) + IfSize(bins[|bins| - 1], n)
  }

  ghost function IfSize(b: Bin, n: nat): seq<Bin> {
    if b.bytes == n then [b] else []
  }

  lemma OfSizeLast(bins: seq<Bin>, b: Bin, n: nat)
    ensures OfSize(bins + [b], n) == OfSize(bins, n) + IfSize(b, n)
  {
    assert (bins + [b])[..|bins|] == bins;
  }

  /** Inserting keeps bins of one size in order, the new one last. */
  lemma {:induction false} InsertIsStable(bins: seq<Bin>, b: Bin, n: nat)
    ensures OfSize(InsertStable(bins, b), n) == OfSize(bins, n) + IfSize(b, n)
  {
    if bins == [] || bins[|bins| - 1].bytes >= b.bytes {
      OfSizeLast(bins, b, n);
    } else {
      var front, last := bins[..|bins| - 1], bins[|bins| - 1];
      InsertIsStable(front, b, n);
      OfSizeLast(InsertStable(front, b), last, n);
      Swapped(OfSize(front, n), b, last, n);
    }
  }

  /** Bins of different sizes may be swapped. */
  lemma Swapped(front: seq<Bin>, b: Bin, last: Bin, n: nat)
    requires b.bytes != last.bytes
    ensures front + IfSize(b, n) + IfSize(last, n) == front + IfSize(last, n) + IfSize(b, n)
  {
  }

  /** Sorting leaves bins of one size as they came. */
  lemma {:induction false} SortIsStable(bins: seq<Bin>, n: nat)
    ensures OfSize(SortStable(bins), n) == OfSize(bins, n)
  {
    if bins != [] {
      SortIsStable(bins[..|bins| - 1], n);
      InsertIsStable(SortStable(bins[..|bins| - 1]), bins[|bins| - 1], n);
    }
  }

  // ----- which chunk each bin goes to -----

  /** `at` says for the first bins which chunk they went to; this many chunks were opened for them. */
  ghost function Opened(at: seq<nat>): nat {
    if at == [] then 0
    else if at[|at| - 1] < Opened(at[..|at| - 1]) then Opened(at[..|at| - 1])
    else at[|at| - 1] + 1
  }

  /** What chunk `c` holds after those bins. */
  ghost function Contents(bins: seq<Bin>, at: seq<nat>, c: nat): Bin
    requires |at| <= |bins|
  {
    if at == [] then Bin([], 0)
    else
      var n := |at| - 1;
      var before := Contents(bins, at[..n], c);
      if at[n] == c then Bin(before.funcs + bins[n].funcs, before.bytes + bins[n].bytes) else before
  }

  ghost predicate HasRoom(bins: seq<Bin>, at: seq<nat>, chunkBytes: nat, c: nat, b: Bin)
    requires |at| <= |bins|
  {
    Contents(bins, at, c).bytes + b.bytes <= chunkBytes
  }

  /** Beside the bins packed before it, bin `k` goes to the first chunk with room, if it is below the limit and
      there is one, and otherwise opens the next chunk. */
  ghost predicate GoesFirst(bins: seq<Bin>, at: seq<nat>, chunkBytes: nat, k: nat)
    requires k < |at| <= |bins|
  {
    var open := Opened(at[..k]);
    if bins[k].bytes < chunkBytes && exists c :: 0 <= c < open && HasRoom(bins, at[..k], chunkBytes, c, bins[k]) then
      && at[k] < open && HasRoom(bins, at[..k], chunkBytes, at[k], bins[k])
      && forall c :: 0 <= c < at[k] ==> !HasRoom(bins, at[..k], chunkBytes, c, bins[k])
    else at[k] == open
  }

  ghost predicate FitsFirst(bins: seq<Bin>, at: seq<nat>, chunkBytes: nat)
    requires |at| <= |bins|
  {
    forall k :: 0 <= k < |at| ==> GoesFirst(bins, at, chunkBytes, k)
  }

  /** The chunks hold what went there. */
  ghost predicate HoldWhatCame(bins: seq<Bin>, at: seq<nat>, chunks: seq<Bin>)
    requires |at| <= |bins|
  {
    |chunks| == Opened(at) && forall c :: 0 <= c < |chunks| ==> chunks[c] == Contents(bins, at, c)
  }

  /** Nothing is in a chunk that was not opened. */
  lemma {:induction false} Unopened(bins: seq<Bin>, at: seq<nat>, c: nat)
    requires |at| <= |bins| && c >= Opened(at)
    ensures Contents(bins, at, c) == Bin([], 0)
  {
    if at != [] {
      Unopened(bins, at[..|at| - 1], c);
    }
  }

  /** The next bin goes to chunk `c`. */
  lemma GoesOn(bins: seq<Bin>, at: seq<nat>, chunks: seq<Bin>, chunkBytes: nat, c: nat)
    requires |at| < |bins| && FitsFirst(bins, at, chunkBytes) && HoldWhatCame(bins, at, chunks) && c <= |chunks|
    requires GoesFirst(bins, at + [c], chunkBytes, |at|)
    ensures FitsFirst(bins, at + [c], chunkBytes)
    ensures var b := bins[|at|];
            HoldWhatCame(bins, at + [c],
                         if c == |chunks| then chunks + [b]
                         else chunks[c := Bin(chunks[c].funcs + b.funcs, chunks[c].bytes + b.bytes)])
  {
    var more := at + [c];
    assert more[..|at|] == at;
    forall k | 0 <= k < |more|
      ensures GoesFirst(bins, more, chunkBytes, k)
    {
      if k < |at| {
        assert GoesFirst(bins, at, chunkBytes, k) && more[..k] == at[..k];
      }
    }
    Unopened(bins, at, |chunks|);
    var b := bins[|at|];
    assert [] + b.funcs == b.funcs;
  }

  /** Where every function of a bin ends up. */
  lemma {:induction false} InItsChunk(bins: seq<Bin>, at: seq<nat>, k: nat, f: nat)
    requires k < |at| <= |bins| && f in bins[k].funcs
    ensures at[k] < Opened(at) && f in Contents(bins, at, at[k]).funcs
  {
    var n := |at| - 1;
    if k < n {
      InItsChunk(bins, at[..n], k, f);
    }
  }

  /** The packing so far. */
  ghost predicate Progress(bins: seq<Bin>, chunks: seq<Bin>, at: seq<nat>, chunkBytes: nat, size: seq<nat>) {
    && |at| <= |bins| && Packed(bins, |at|, chunks, chunkBytes) && Sized(chunks, size)
    && FitsFirst(bins, at, chunkBytes) && HoldWhatCame(bins, at, chunks)
  }

  /** The next bin opens a chunk. */
  lemma Opens(bins: seq<Bin>, chunks: seq<Bin>, at: seq<nat>, chunkBytes: nat, size: seq<nat>)
    requires Progress(bins, chunks, at, chunkBytes, size) && |at| < |bins| && Descending(bins) && chunkBytes > 0
    requires Sized(bins, size)
    requires || bins[|at|].bytes >= chunkBytes
             || forall c :: 0 <= c < |chunks| ==> chunks[c].bytes + bins[|at|].bytes > chunkBytes
    ensures Progress(bins, chunks + [bins[|at|]], at + [|chunks|], chunkBytes, size)
  {
    OpenChunk(bins, |at|, chunks, chunkBytes);
    assert (at + [|chunks|])[..|at|] == at;
    assert forall c :: 0 <= c < |chunks| ==> chunks[c] == Contents(bins, at, c);
    GoesOn(bins, at, chunks, chunkBytes, |chunks|);
  }

  /** The next bin goes to the first chunk with room. */
  lemma Fills(bins: seq<Bin>, chunks: seq<Bin>, at: seq<nat>, chunkBytes: nat, size: seq<nat>, fit: nat, more: Bin)
    requires Progress(bins, chunks, at, chunkBytes, size) && |at| < |bins| && Sized(bins, size)
    requires bins[|at|].bytes < chunkBytes && fit < |chunks| && chunks[fit].bytes + bins[|at|].bytes <= chunkBytes
    requires forall c :: 0 <= c < fit ==> chunks[c].bytes + bins[|at|].bytes > chunkBytes
    requires more == Bin(chunks[fit].funcs + bins[|at|].funcs, chunks[fit].bytes + bins[|at|].bytes)
    ensures Progress(bins, chunks[fit := more], at + [fit], chunkBytes, size)
  {
    FillChunk(bins, |at|, chunks, chunkBytes, fit, more);
    SumConcat(chunks[fit].funcs, bins[|at|].funcs, size);
    assert (at + [fit])[..|at|] == at;
    assert forall c :: 0 <= c < |chunks| ==> chunks[c] == Contents(bins, at, c);
    GoesOn(bins, at, chunks, chunkBytes, fit);
  }

  /** Packs every bin, biggest first, into the first chunk with room for it. */
  method Pack(bins: seq<Bin>, chunkBytes: nat, ghost size: seq<nat>) returns (chunks: seq<Bin>, ghost at: seq<nat>)
    requires Descending(bins) && chunkBytes > 0 && Sized(bins, size)
    ensures Packed(bins, |bins|, chunks, chunkBytes) && Sized(chunks, size)
    ensures |at| == |bins| && FitsFirst(bins, at, chunkBytes) && HoldWhatCame(bins, at, chunks)
  {
    chunks, at := [], [];
    for done := 0 to |bins|
      invariant |at| == done && Progress(bins, chunks, at, chunkBytes, size)
    {
      var b := bins[done];
      if b.bytes >= chunkBytes {
        Opens(bins, chunks, at, chunkBytes, size);
        chunks, at := chunks + [b], at + [|chunks|];
        continue;
      }
      var fit := FindFit(chunks, b, chunkBytes);
      if fit == |chunks| {
        Opens(bins, chunks, at, chunkBytes, size);
        chunks, at := chunks + [b], at + [|chunks|];
      } else {
        var c := Bin(chunks[fit].funcs + b.funcs, chunks[fit].bytes + b.bytes);
        Fills(bins, chunks, at, chunkBytes, size, fit, c);
        chunks, at := chunks[fit := c], at + [fit];
      }
    }
  }

  /** The first chunk with room, or the number of chunks. */
  method FindFit(chunks: seq<Bin>, b: Bin, chunkBytes: nat) returns (fit: nat)
    ensures fit <= |chunks| && forall c :: 0 <= c < fit ==> chunks[c].bytes + b.bytes > chunkBytes
    ensures fit < |chunks| ==> chunks[fit].bytes + b.bytes <= chunkBytes
  {
    for i := 0 to |chunks|
      invariant forall c :: 0 <= c < i ==> chunks[c].bytes + b.bytes > chunkBytes
    {
      if chunks[i].bytes + b.bytes <= chunkBytes {
        return i;
      }
    }
    fit := |chunks|;
  }
}
