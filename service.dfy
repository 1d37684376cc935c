/** The remote search service, seen only through the calls the module makes:
    list index names, create an index, delete an index, and write a batch of
    documents with `index_documents` or `upload_documents`. Every call that
    changes the service is recorded, so that the model can say how many
    calls were made and with what. Whether the service accepts a creation,
    and which documents of a batch it stores, is the service's choice and is
    left open. */
module Service {
  import opened Documents
  import opened Schemas

  /** The SDK call a batch went through. */
  datatype WriteCall = IndexDocuments | UploadDocuments

  /** One write call: the target index, the call used, and the batch sent. */
  datatype Upload = Upload(index: string, call: WriteCall, batch: seq<Record>)

  /** One `create_index` call and whether the service accepted it (`false`: it raised). */
  datatype CreateCall = CreateCall(schema: IndexSchema, ok: bool)

  /** `after` extends `before` by exactly one creation of `schema`, and the
      index names grew by the schema's name iff that creation succeeded. */
  predicate CreatedOnce(before: seq<CreateCall>, after: seq<CreateCall>,
                        namesBefore: set<string>, namesAfter: set<string>, schema: IndexSchema)
  {
    && |after| == |before| + 1
    && after[..|before|] == before
    && after[|before|].schema == schema
    && namesAfter == (if after[|before|].ok then namesBefore + {schema.name} else namesBefore)
  }

  class SearchService {
    /** The names of the indexes that exist on the service. */
    var names: set<string>
    /** Every `create_index` call, in order. */
    var creates: seq<CreateCall>
    /** Every `delete_index` call, in order. */
    var deletes: seq<string>
    /** Every document write, in order. */
    var uploads: seq<Upload>
    /** What the service answered to each write, in the same order: one
        `succeeded` flag per document of the batch. */
    var answers: seq<seq<bool>>

    constructor (existing: set<string>)
      ensures names == existing && creates == [] && deletes == [] && uploads == [] && answers == []
    {
      names, creates, deletes, uploads, answers := existing, [], [], [], [];
    }

    /** `create_index`: refused when the name is taken, and otherwise the
        service may still refuse it. */
    method CreateIndex(schema: IndexSchema) returns (ok: bool)
      modifies this`names, this`creates
      ensures ok ==> schema.name !in old(names)
      ensures creates == old(creates) + [CreateCall(schema, ok)]
      ensures names == if ok then old(names) + {schema.name} else old(names)
    {
      ok := false;
      if schema.name !in names {
        var accepted: bool :| true;
        ok := accepted;
      }
      creates := creates + [CreateCall(schema, ok)];
      if ok {
        names := names + {schema.name};
      }
    }

    /** `delete_index`. */
    method DeleteIndex(name: string)
      modifies this`names, this`deletes
      ensures names == old(names) - {name}
      ensures deletes == old(deletes) + [name]
    {
      names := names - {name};
      deletes := deletes + [name];
    }

    /** `index_documents` or `upload_documents`: one result per document,
        `true` where the service reports the document as succeeded. */
    method Write(index: string, call: WriteCall, batch: seq<Record>) returns (results: seq<bool>)
      modifies this`uploads, this`answers
      ensures |results| == |batch|
      ensures uploads == old(uploads) + [Upload(index, call, batch)]
      ensures answers == old(answers) + [results]
    {
      var allSucceeded := seq(|batch|, _ => true);
      assert |allSucceeded| == |batch|;
      results :| |results| == |batch|;
      uploads := uploads + [Upload(index, call, batch)];
      answers := answers + [results];
    }
  }
}
