/** How a stream of documents is cut into write batches: a batch is sent
    each time the running count reaches a multiple of 1000, and whatever is
    left at the end is sent as one last, shorter batch. */
module Batching {


  /** The full batches, in order: what the loop sends from inside the loop. */
  function FullBatches<T>(s: seq<T>): seq<seq<T>>
    decreases |s|
  {
    if |s| < 1000 then [] else [s[..1000]] + FullBatches(s[1000..])
  }

  /** There are floor(L / 1000) full batches, each of 1000 documents. */
  lemma {:induction false} FullBatchesSizes<T>(s: seq<T>)
    ensures |FullBatches(s)| == |s| / 1000
    ensures forall j :: 0 <= j < |FullBatches(s)| ==> |FullBatches(s)[j]| == 1000
    decreases |s|
  {
    if |s| >= 1000 {
      FullBatchesSizes(s[1000..]);
      assert forall j :: 1 <= j < |FullBatches(s)| ==> FullBatches(s)[j] == FullBatches(s[1000..])[j - 1];
    }
  }

  /** The documents still buffered when the input runs out: what is left
      once the full batches are taken off the front. */
  function Remainder<T>(s: seq<T>): seq<T>
    decreases |s|
  {
    if |s| < 1000 then s else Remainder(s[1000..])
  }

  /** The remainder holds L mod 1000 documents, the last ones of the input,
      so it is empty iff L is a multiple of 1000. */
  lemma {:induction false} RemainderSize<T>(s: seq<T>)
    ensures |Remainder(s)| == |s| % 1000
    ensures Remainder(s) == s[|s| - |s| % 1000..]
    ensures Remainder(s) == [] <==> |s| % 1000 == 0
    decreases |s|
  {
    if |s| >= 1000 {
      RemainderSize(s[1000..]);
      assert (|s| - 1000) % 1000 == |s| % 1000;
      assert s[1000..][|s| - 1000 - |s| % 1000..] == s[|s| - |s| % 1000..];
    }
  }

  /** Every batch sent: the full ones, then the remainder if it is not empty. */
  function Batches<T>(s: seq<T>): seq<seq<T>> {
    FullBatches(s) + if Remainder(s) == [] then [] else [Remainder(s)]
  }

  function Flatten<T>(bs: seq<seq<T>>): seq<T> {
    if bs == [] then [] else bs[0] + Flatten(bs[1..])
  }

  lemma {:induction false} FlattenAppend<T>(a: seq<seq<T>>, b: seq<seq<T>>)
    ensures Flatten(a + b) == Flatten(a) + Flatten(b)
  {
    if a != [] {
      assert (a + b)[1..] == a[1..] + b;
      FlattenAppend(a[1..], b);
    } else {
      assert a + b == b;
    }
  }

  /** One more document: when the count reaches a multiple of the batch
      size the buffer plus the document becomes the next full batch and the
      buffer empties; otherwise the document joins the buffer. */
  lemma {:induction false} BufferStep<T>(s: seq<T>, x: T)
    ensures (|s| + 1) % 1000 == 0 ==>
      FullBatches(s + [x]) == FullBatches(s) + [Remainder(s) + [x]] && Remainder(s + [x]) == []
    ensures (|s| + 1) % 1000 != 0 ==>
      FullBatches(s + [x]) == FullBatches(s) && Remainder(s + [x]) == Remainder(s) + [x]
    decreases |s|
  {
    var t := s + [x];
    if |s| < 999 {
    } else if |s| == 999 {
      assert t[..1000] == t;
      assert t[1000..] == [];
    } else {
      assert t[..1000] == s[..1000];
      assert t[1000..] == s[1000..] + [x];
      assert (|s[1000..]| + 1) % 1000 == (|s| + 1) % 1000;
      BufferStep(s[1000..], x);
    }
  }

  /** `BufferStep` for the prefixes a loop over `s` walks through. */
  lemma PrefixStep<T>(s: seq<T>, i: nat)
    requires i < |s|
    ensures (i + 1) % 1000 == 0 ==>
      FullBatches(s[..i + 1]) == FullBatches(s[..i]) + [Remainder(s[..i]) + [s[i]]] && Remainder(s[..i + 1]) == []
    ensures (i + 1) % 1000 != 0 ==>
      FullBatches(s[..i + 1]) == FullBatches(s[..i]) && Remainder(s[..i + 1]) == Remainder(s[..i]) + [s[i]]
  {
    assert s[..i + 1] == s[..i] + [s[i]];
    BufferStep(s[..i], s[i]);
  }

  /** The full batches followed by the remainder give back the input. */
  lemma {:induction false} FullBatchesThenRemainder<T>(s: seq<T>)
    ensures Flatten(FullBatches(s)) + Remainder(s) == s
    decreases |s|
  {
    if |s| >= 1000 {
      var rest := s[1000..];
      FullBatchesThenRemainder(rest);
      assert Remainder(s) == Remainder(rest);
      assert FullBatches(s)[1..] == FullBatches(rest);
      assert s == s[..1000] + rest;
    }
  }

  /** The batches partition the input: concatenated in order they are the
      input, there are ceil(L / 1000) of them, none is empty, every one but
      the last has exactly 1000 documents, and the last has L mod 1000 (or
      1000 when L is a multiple of it). */
  lemma BatchesPartition<T>(s: seq<T>)
    ensures Flatten(Batches(s)) == s
    ensures |Batches(s)| == (|s| + 1000 - 1) / 1000
    ensures forall j :: 0 <= j < |Batches(s)| ==> 0 < |Batches(s)[j]| <= 1000
    ensures forall j :: 0 <= j < |Batches(s)| - 1 ==> |Batches(s)[j]| == 1000
    ensures s != [] ==> |Batches(s)[|Batches(s)| - 1]| == if |s| % 1000 == 0 then 1000 else |s| % 1000
  {
    var full, rem := FullBatches(s), Remainder(s);
    RemainderSize(s);
    FullBatchesSizes(s);
    FullBatchesThenRemainder(s);
    FlattenAppend(full, if rem == [] then [] else [rem]);
    if rem != [] {
      assert Flatten([rem]) == rem + Flatten([]);
    }
  }

  /** The number of documents the service reports as succeeded. */
  function CountSucceeded(results: seq<bool>): (n: nat)
    ensures n <= |results|
    ensures n == |results| <==> forall i :: 0 <= i < |results| ==> results[i]
  {
    if results == [] then 0 else (if results[0] then 1 else 0) + CountSucceeded(results[1..])
  }
}
