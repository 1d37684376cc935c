/** Index management (`createSearchIndex`, `createKbSearchIndex`,
    `deleteSearchIndex`): each operation first lists the index names and acts
    only when the name is absent (create) or present (delete). A failed
    creation is caught and dropped, so none of them fails. */
module IndexManagement {
  import opened Documents
  import opened Schemas
  import opened Service

  /** `deleteSearchIndex`: delete the index when it is listed, otherwise do
      nothing. Every other name is left as it was. */
  method DeleteSearchIndex(svc: SearchService, indexName: string)
    modifies svc`names, svc`deletes
    ensures svc.names == old(svc.names) - {indexName}
    ensures svc.deletes == old(svc.deletes) + if indexName in old(svc.names) then [indexName] else []
  {
    if indexName in svc.names {
      svc.DeleteIndex(indexName);
    }
  }

  /** Create `schema` unless an index of that name is listed; an exception
      from the service is swallowed. The part both create operations share. */
  method CreateIfAbsent(svc: SearchService, schema: IndexSchema)
    modifies svc`names, svc`creates
    ensures schema.name in old(svc.names) ==> svc.names == old(svc.names) && svc.creates == old(svc.creates)
    ensures schema.name !in old(svc.names) ==>
      CreatedOnce(old(svc.creates), svc.creates, old(svc.names), svc.names, schema)
  {
    if schema.name !in svc.names {
      var ok := svc.CreateIndex(schema);
    }
  }

  /** `createSearchIndex`: build the schema for `indexType` and create it if
      the name is free. For a type with no schema the source reaches
      `create_index` with an unbound `index`; the resulting error is caught,
      so no create call is made at all. */
  method CreateSearchIndex(svc: SearchService, indexType: string, indexName: string)
    modifies svc`names, svc`creates
    ensures indexName in old(svc.names) || SchemaFor(indexType, indexName).None? ==>
      svc.names == old(svc.names) && svc.creates == old(svc.creates)
    ensures indexName !in old(svc.names) && SchemaFor(indexType, indexName).Some? ==>
      CreatedOnce(old(svc.creates), svc.creates, old(svc.names), svc.names, SchemaFor(indexType, indexName).value)
    ensures svc.names - old(svc.names) <= {indexName}
  {
    var schema := SchemaFor(indexType, indexName);
    if indexName !in svc.names {
      match schema {
        case Some(index) => CreateIfAbsent(svc, index);
        case None =>
      }
    }
  }

  /** `createKbSearchIndex`: the same create-if-absent step with the
      knowledge-base schema. */
  method CreateKbSearchIndex(svc: SearchService, indexName: string)
    modifies svc`names, svc`creates
    ensures indexName in old(svc.names) ==> svc.names == old(svc.names) && svc.creates == old(svc.creates)
    ensures indexName !in old(svc.names) ==>
      CreatedOnce(old(svc.creates), svc.creates, old(svc.names), svc.names, KbSchema(indexName))
    ensures svc.names - old(svc.names) <= {indexName}
  {
    CreateIfAbsent(svc, KbSchema(indexName));
  }

  /** Two `createSearchIndex` calls in a row with the same arguments create
      the index at most once: the second call reaches the service only when
      the first made a call that failed. */
  method CreateSearchIndexTwice(svc: SearchService, indexType: string, indexName: string)
    modifies svc`names, svc`creates
    ensures |old(svc.creates)| <= |svc.creates| <= |old(svc.creates)| + 2
    ensures svc.creates[..|old(svc.creates)|] == old(svc.creates)
    ensures |svc.creates| == |old(svc.creates)| + 2 ==> !svc.creates[|old(svc.creates)|].ok
    ensures forall j, l :: |old(svc.creates)| <= j < l < |svc.creates| ==>
      !(svc.creates[j].ok && svc.creates[l].ok)
    ensures svc.names - old(svc.names) <= {indexName}
  {
    CreateSearchIndex(svc, indexType, indexName);
    CreateSearchIndex(svc, indexType, indexName);
  }
}
