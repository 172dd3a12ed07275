/**
 The import loop of `import_data` (lines 161-168): the documents are cut
 into slices `documents[i:i + 50]` for `i` in `range(0, len(documents), 50)`
 and submitted in order; the first rejected batch ends the import.
 */
module Batching {

  const BatchSize: nat := 50

  /** `len(range(0, n, BatchSize))`. */
  function BatchCount(n: nat): (count: nat)
    ensures n <= count * BatchSize
    ensures count == 0 || (count - 1) * BatchSize < n
  {
    (n + BatchSize - 1) / BatchSize
  }

  function Min(a: nat, b: nat): nat {
    if a <= b then a else b
  }

  /** Python's `s[i:j]` for non-negative bounds: out-of-range bounds are
      clamped to the length. */
  function Slice<T>(s: seq<T>, i: nat, j: nat): (r: seq<T>)
    ensures |r| == if Min(i, |s|) <= Min(j, |s|) then Min(j, |s|) - Min(i, |s|) else 0
    ensures r == [] || i + |r| <= |s|
    ensures forall k :: 0 <= k < |r| ==> r[k] == s[i + k]
  {
    var lo := Min(i, |s|);
    var hi := Min(j, |s|);
    if lo <= hi then s[lo..hi] else []
  }

  /** The k-th batch: `documents[50k : 50k + 50]`. */
  function Batch<T>(docs: seq<T>, k: nat): (b: seq<T>)
    ensures |b| <= BatchSize
    ensures |b| > 0 <==> k < BatchCount(|docs|)
    ensures forall j :: 0 <= j < |b| ==> k * BatchSize + j < |docs| && b[j] == docs[k * BatchSize + j]
  {
    Slice(docs, k * BatchSize, k * BatchSize + BatchSize)
  }

  /** All batches, in submission order. Every batch but the last holds exactly
      `BatchSize` documents, the last holds 1 to `BatchSize`, and together they
      cover every document exactly once, in order. */
  function Batches<T>(docs: seq<T>): (bs: seq<seq<T>>)
    ensures |bs| == BatchCount(|docs|)
    ensures forall k :: 0 <= k < |bs| - 1 ==> |bs[k]| == BatchSize
    ensures |bs| > 0 ==> 1 <= |bs[|bs| - 1]| <= BatchSize
    ensures Concat(bs) == docs
  {
    var bs := seq(BatchCount(|docs|), k requires 0 <= k < BatchCount(|docs|) => Batch(docs, k));
    BatchesPrefix(docs, bs, |bs|);
    assert bs[..|bs|] == bs;
    bs
  }

  /** The concatenation of a sequence of sequences. */
  function Concat<T>(bs: seq<seq<T>>): seq<T>
    decreases |bs|
  {
    if |bs| == 0 then [] else Concat(bs[..|bs| - 1]) + bs[|bs| - 1]
  }

  /** The first `m` batches hold the first `m * BatchSize` documents (or all of them). */
  lemma {:induction false} BatchesPrefix<T>(docs: seq<T>, bs: seq<seq<T>>, m: nat)
    requires |bs| == BatchCount(|docs|)
    requires forall k :: 0 <= k < |bs| ==> bs[k] == Batch(docs, k)
    requires m <= |bs|
    ensures Concat(bs[..m]) == docs[..Min(m * BatchSize, |docs|)]
    decreases m
  {
    if m > 0 {
      BatchesPrefix(docs, bs, m - 1);
      assert bs[..m][..m - 1] == bs[..m - 1];
      var lo := (m - 1) * BatchSize;
      assert lo < |docs|;
      assert docs[..Min(m * BatchSize, |docs|)] == docs[..lo] + Batch(docs, m - 1);
    }
  }

  /** The first `m` batches hold exactly the first `m * BatchSize` documents,
      or all of them: what `total_imported` counts after `m` batches. */
  lemma ImportedPrefix<T>(documents: seq<T>, m: nat)
    requires m <= BatchCount(|documents|)
    ensures Concat(Batches(documents)[..m]) == documents[..Min(m * BatchSize, |documents|)]
  {
    BatchesPrefix(documents, Batches(documents), m);
  }

  /** The loop offset `m * BatchSize` is still inside the documents exactly
      when batch `m` exists. */
  lemma BatchCountBound(n: nat, m: nat)
    ensures m < BatchCount(n) <==> m * BatchSize < n
  {
  }

  /** The loop state after `sent` batches: `i` is the next offset, `total`
      counts the documents imported so far, and the batches sent are the
      first batches of `Batches(documents)`. */
  ghost predicate Imported<T>(documents: seq<T>, sent: seq<seq<T>>, i: nat, total: nat) {
    && |sent| <= BatchCount(|documents|) && sent == Batches(documents)[..|sent|]
    && i == |sent| * BatchSize
    && (|sent| < BatchCount(|documents|) <==> i < |documents|)
    && total == Min(i, |documents|)
  }

  /** One more loop iteration sends the next batch, `documents[i:i + 50]`,
      which is the next of `Batches(documents)`. */
  lemma NextBatch<T>(documents: seq<T>, sent: seq<seq<T>>, i: nat, total: nat)
    requires Imported(documents, sent, i, total) && i < |documents|
    ensures var b := Slice(documents, i, i + BatchSize);
      && b == Batches(documents)[|sent|]
      && Imported(documents, sent + [b], i + BatchSize, total + |b|)
  {
    var all := Batches(documents);
    var b := Slice(documents, i, i + BatchSize);
    var m := |sent| + 1;
    assert m * BatchSize == i + BatchSize;
    assert b == all[|sent|];
    assert sent + [b] == all[..m];
    BatchCountBound(|documents|, m);
  }

  /** When the offset passes the end, every batch has been sent. */
  lemma LastBatch<T>(documents: seq<T>, sent: seq<seq<T>>, i: nat, total: nat)
    requires Imported(documents, sent, i, total) && i >= |documents|
    ensures sent == Batches(documents) && total == |documents|
  {
    var all := Batches(documents);
    assert all[..|all|] == all;
  }

  /** The import loop. `accepts(k)` is whether the search service acknowledges
      the k-th batch; a rejection raises, which ends the loop and makes the
      import report failure. Returns the verdict, the batches the service
      received, and `total_imported`. Batches sent before a rejection stay in
      the service. */
  method ImportData<T>(documents: seq<T>, accepts: nat -> bool) returns (ok: bool, sent: seq<seq<T>>, total: nat)
    ensures |sent| <= BatchCount(|documents|) && sent == Batches(documents)[..|sent|]
    ensures forall k :: 0 <= k < |sent| ==> accepts(k)
    ensures total == Min(|sent| * BatchSize, |documents|)
    ensures ok <==> forall k :: 0 <= k < BatchCount(|documents|) ==> accepts(k)
    ensures ok ==> total == |documents| && sent == Batches(documents)
    ensures !ok ==> |sent| < BatchCount(|documents|) && !accepts(|sent|) && total == |sent| * BatchSize
  {
    sent := [];
    total := 0;
    var i := 0;
    while i < |documents|
      invariant Imported(documents, sent, i, total)
      invariant forall k :: 0 <= k < |sent| ==> accepts(k)
      decreases |documents| - i
    {
      var batch := Slice(documents, i, i + BatchSize);
      NextBatch(documents, sent, i, total);
      if !accepts(|sent|) {
        return false, sent, total;
      }
      sent := sent + [batch];
      total := total + |batch|;
      i := i + BatchSize;
    }
    LastBatch(documents, sent, i, total);
    ok := true;
  }

}
