/** Batched ingestion (`indexSections` and `indexDocs`): documents are
    buffered, the buffer is written and emptied each time the running count
    reaches a multiple of 1000, and a non-empty buffer left at the end is
    written with `upload_documents`. */
module Ingestion {
  import opened Documents
  import opened Batching
  import opened Service
  import opened Sections

  /** What each write logs: the number of results and how many succeeded. */
  datatype Report = Report(attempted: nat, succeeded: nat)

  /** The write calls that send `batches` in order, all through `call`. */
  function Sent(index: string, call: WriteCall, batches: seq<seq<Record>>): seq<Upload> {
    if batches == [] then [] else [Upload(index, call, batches[0])] + Sent(index, call, batches[1..])
  }

  /** The batches a sequence of write calls carried. */
  function BatchesOf(us: seq<Upload>): seq<seq<Record>> {
    if us == [] then [] else [us[0].batch] + BatchesOf(us[1..])
  }

  lemma {:induction false} SentAppend(index: string, call: WriteCall, a: seq<seq<Record>>, b: seq<seq<Record>>)
    ensures Sent(index, call, a + b) == Sent(index, call, a) + Sent(index, call, b)
  {
    if a != [] {
      assert (a + b)[1..] == a[1..] + b;
      SentAppend(index, call, a[1..], b);
    } else {
      assert a + b == b;
    }
  }

  lemma {:induction false} BatchesOfAppend(a: seq<Upload>, b: seq<Upload>)
    ensures BatchesOf(a + b) == BatchesOf(a) + BatchesOf(b)
  {
    if a != [] {
      assert (a + b)[1..] == a[1..] + b;
      BatchesOfAppend(a[1..], b);
    } else {
      assert a + b == b;
    }
  }

  /** Sending batches writes exactly those batches, in order. */
  lemma {:induction false} BatchesOfSent(index: string, call: WriteCall, bs: seq<seq<Record>>)
    ensures BatchesOf(Sent(index, call, bs)) == bs
  {
    if bs != [] {
      BatchesOfSent(index, call, bs[1..]);
    }
  }

  /** The report of one write: the number of results the service gave and
      how many of them are flagged as succeeded. */
  function ReportOf(results: seq<bool>): (r: Report)
    ensures r.attempted == |results| && r.succeeded <= r.attempted
    ensures r.succeeded == r.attempted <==> forall i :: 0 <= i < |results| ==> results[i]
  {
    Report(|results|, CountSucceeded(results))
  }

  /** One report and one answer per batch: each answer has a flag per
      document of its batch, and each report counts that answer. */
  predicate ReportsMatch(reports: seq<Report>, batches: seq<seq<Record>>, answers: seq<seq<bool>>) {
    && |reports| == |batches| && |answers| == |batches|
    && forall j :: 0 <= j < |reports| ==>
         |answers[j]| == |batches[j]| && reports[j] == ReportOf(answers[j])
  }

  /** Every report of a matching log attempts its whole batch and counts at
      most that many successes. */
  lemma ReportsMatchBounds(reports: seq<Report>, batches: seq<seq<Record>>, answers: seq<seq<bool>>)
    requires ReportsMatch(reports, batches, answers)
    ensures forall j :: 0 <= j < |reports| ==>
      reports[j].attempted == |batches[j]| && reports[j].succeeded <= reports[j].attempted
  {
    forall j | 0 <= j < |reports|
      ensures reports[j].attempted == |batches[j]| && reports[j].succeeded <= reports[j].attempted
    {
      assert reports[j] == ReportOf(answers[j]);
    }
  }

  lemma ReportsMatchAppend(reports: seq<Report>, batches: seq<seq<Record>>, answers: seq<seq<bool>>,
                           batch: seq<Record>, results: seq<bool>)
    requires ReportsMatch(reports, batches, answers)
    requires |results| == |batch|
    ensures ReportsMatch(reports + [ReportOf(results)], batches + [batch], answers + [results])
  {
  }

  /** One write: send the batch and report what the service answered. */
  method Flush(svc: SearchService, indexName: string, call: WriteCall, batch: seq<Record>)
    returns (report: Report, results: seq<bool>)
    modifies svc`uploads, svc`answers
    ensures |results| == |batch| && report == ReportOf(results)
    ensures svc.uploads == old(svc.uploads) + [Upload(indexName, call, batch)]
    ensures svc.answers == old(svc.answers) + [results]
  {
    results := svc.Write(indexName, call, batch);
    report := ReportOf(results);
  }

  /** The loop shared by both entry points: buffer each document, and write
      the buffer through `call` whenever the count is a multiple of 1000.
      Returns what is left in the buffer. */
  method SendFullBatches(svc: SearchService, indexName: string, call: WriteCall, records: seq<Record>)
    returns (batch: seq<Record>, reports: seq<Report>, ghost answers: seq<seq<bool>>)
    modifies svc`uploads, svc`answers
    ensures batch == Remainder(records)
    ensures svc.uploads == old(svc.uploads) + Sent(indexName, call, FullBatches(records))
    ensures svc.answers == old(svc.answers) + answers
    ensures ReportsMatch(reports, FullBatches(records), answers)
  {
    var i := 0;
    batch, reports, answers := [], [], [];
    while i < |records|
      invariant 0 <= i <= |records|
      invariant batch == Remainder(records[..i])
      invariant svc.uploads == old(svc.uploads) + Sent(indexName, call, FullBatches(records[..i]))
      invariant svc.answers == old(svc.answers) + answers
      invariant ReportsMatch(reports, FullBatches(records[..i]), answers)
    {
      ghost var done := records[..i];
      PrefixStep(records, i);
      batch := batch + [records[i]];
      i := i + 1;
      if i % 1000 == 0 {
        var report, results := Flush(svc, indexName, call, batch);
        SentAppend(indexName, call, FullBatches(done), [batch]);
        ReportsMatchAppend(reports, FullBatches(done), answers, batch, results);
        reports, answers := reports + [report], answers + [results];
        batch := [];
      }
    }
    assert records[..i] == records;
  }

  /** `indexDocs`: every batch, full or not, goes through `upload_documents`. */
  method IndexDocs(svc: SearchService, indexName: string, docs: seq<Record>)
    returns (reports: seq<Report>, ghost answers: seq<seq<bool>>)
    modifies svc`uploads, svc`answers
    ensures svc.uploads == old(svc.uploads) + Sent(indexName, UploadDocuments, Batches(docs))
    ensures svc.answers == old(svc.answers) + answers
    ensures ReportsMatch(reports, Batches(docs), answers)
  {
    var batch;
    batch, reports, answers := SendFullBatches(svc, indexName, UploadDocuments, docs);
    if |batch| > 0 {
      var report, results := Flush(svc, indexName, UploadDocuments, batch);
      ReportsMatchAppend(reports, FullBatches(docs), answers, batch, results);
      reports, answers := reports + [report], answers + [results];
    }
    SentAppend(indexName, UploadDocuments, FullBatches(docs), if batch == [] then [] else [batch]);
  }

  /** The write calls `indexSections` makes for the records `g` the generator
      yielded: full batches through `index_documents`, then the remainder
      through `upload_documents` unless the generator raised. */
  function SectionUploads(indexName: string, g: Generated): seq<Upload> {
    Sent(indexName, IndexDocuments, FullBatches(g.records)) +
    if g.raised || Remainder(g.records) == [] then [] else [Upload(indexName, UploadDocuments, Remainder(g.records))]
  }

  /** `indexSections`: generate the records of `docs` and write them in batches.
      `raised` is the generator's exception, which the source lets escape. */
  method IndexSections(svc: SearchService, indexType: string, embed: Embedder, fileName: string,
                       indexName: string, docs: seq<Chunk>)
    returns (reports: seq<Report>, raised: bool, ghost answers: seq<seq<bool>>)
    modifies svc`uploads, svc`answers
    ensures raised == Generate(indexType, embed, fileName, docs).raised
    ensures svc.uploads == old(svc.uploads) + SectionUploads(indexName, Generate(indexType, embed, fileName, docs))
    ensures svc.answers == old(svc.answers) + answers
    ensures ReportsMatch(reports, BatchesOf(SectionUploads(indexName, Generate(indexType, embed, fileName, docs))), answers)
  {
    var records;
    records, raised := CreateSections(indexType, embed, fileName, docs);
    var batch;
    batch, reports, answers := SendFullBatches(svc, indexName, IndexDocuments, records);
    var sent := Sent(indexName, IndexDocuments, FullBatches(records));
    BatchesOfSent(indexName, IndexDocuments, FullBatches(records));
    if !raised && |batch| > 0 {
      var report, results := Flush(svc, indexName, UploadDocuments, batch);
      ReportsMatchAppend(reports, FullBatches(records), answers, batch, results);
      reports, answers := reports + [report], answers + [results];
      BatchesOfAppend(sent, [Upload(indexName, UploadDocuments, batch)]);
      assert SectionUploads(indexName, Generated(records, raised)) == sent + [Upload(indexName, UploadDocuments, batch)];
    } else {
      assert SectionUploads(indexName, Generated(records, raised)) == sent;
    }
  }

  /** When the generator does not raise, `indexSections` writes the
      partition of the records: concatenated, the written batches are the
      records in order; all but the last hold 1000 records; only the
      remainder goes through `upload_documents`. */
  lemma IndexSectionsWritesAll(indexName: string, g: Generated)
    requires !g.raised
    ensures BatchesOf(SectionUploads(indexName, g)) == Batches(g.records)
    ensures Flatten(BatchesOf(SectionUploads(indexName, g))) == g.records
    ensures forall j :: 0 <= j < |SectionUploads(indexName, g)| ==>
      (SectionUploads(indexName, g)[j].call == UploadDocuments <==> j == |g.records| / 1000)
  {
    var full := FullBatches(g.records);
    var tail := if Remainder(g.records) == [] then [] else [Upload(indexName, UploadDocuments, Remainder(g.records))];
    BatchesOfAppend(Sent(indexName, IndexDocuments, full), tail);
    BatchesOfSent(indexName, IndexDocuments, full);
    BatchesPartition(g.records);
    FullBatchesSizes(g.records);
    SentCalls(indexName, IndexDocuments, full);
    var us := SectionUploads(indexName, g);
    assert us == Sent(indexName, IndexDocuments, full) + tail;
    forall j | 0 <= j < |us|
      ensures us[j].call == UploadDocuments <==> j == |g.records| / 1000
    {
      if j < |full| {
        assert us[j] == Upload(indexName, IndexDocuments, full[j]);
      } else {
        assert us[j] == tail[0];
      }
    }
  }

  /** Every call in `Sent(index, call, bs)` is `call`, one per batch. */
  lemma {:induction false} SentCalls(index: string, call: WriteCall, bs: seq<seq<Record>>)
    ensures |Sent(index, call, bs)| == |bs|
    ensures forall j :: 0 <= j < |bs| ==> Sent(index, call, bs)[j] == Upload(index, call, bs[j])
  {
    if bs != [] {
      SentCalls(index, call, bs[1..]);
    }
  }
}
