/** Turning the chunks of one file into index records (`createSections`):
    the sanitised id `"{fileName}-{counter}"`, the chunk's text, the file's
    basename and, for vector indexes, the chunk's embedding. */
module Sections {
  import opened Documents
  import opened Strings

  /** What the id format appends to the file name: a dash and the counter in decimal. */
  function CounterSuffix(counter: nat): string {
    "-" + Decimal(counter)
  }

  /** The id of the `counter`-th section of `fileName`: the formatted string
      `"{fileName}-{counter}"`, then the sanitisation chain. */
  function IdFor(fileName: string, counter: nat): string {
    Sanitize(fileName + CounterSuffix(counter))
  }

  /** No id contains any of the six replaced characters. */
  lemma IdClean(fileName: string, counter: nat)
    ensures var id := IdFor(fileName, counter);
      forall i :: 0 <= i < |id| ==> id[i] !in Forbidden
  {
    SanitizeRemovesForbidden(fileName + CounterSuffix(counter));
  }

  /** The dash and the digits after the file name are none of the six characters. */
  lemma CounterSuffixClean(counter: nat)
    ensures var tail := CounterSuffix(counter);
      forall i :: 0 <= i < |tail| ==> tail[i] !in Forbidden
  {
    var digits := Decimal(counter);
    var tail := CounterSuffix(counter);
    DecimalDigits(counter);
    forall i | 1 <= i < |tail| ensures tail[i] !in Forbidden {
      assert tail[i] == digits[i - 1];
    }
  }

  /** The id is the sanitised file name, then the dash and the decimal
      counter untouched by the sanitisation. */
  lemma IdShape(fileName: string, counter: nat)
    ensures IdFor(fileName, counter) == Sanitize(fileName) + CounterSuffix(counter)
  {
    CounterSuffixClean(counter);
    SanitizeCleanSuffix(fileName, CounterSuffix(counter));
  }

  /** Within one file, the id determines the counter. */
  lemma IdsDistinct(fileName: string, a: nat, b: nat)
    ensures IdFor(fileName, a) == IdFor(fileName, b) <==> a == b
  {
    if IdFor(fileName, a) == IdFor(fileName, b) {
      IdShape(fileName, a);
      IdShape(fileName, b);
      var prefix := Sanitize(fileName);
      var sa, sb := CounterSuffix(a), CounterSuffix(b);
      assert sa == (prefix + sa)[|prefix|..];
      assert sb == (prefix + sb)[|prefix|..];
      assert Decimal(a) == sa[1..] && Decimal(b) == sb[1..];
      DecimalInjective(a, b);
    }
  }

  /** Ids are not unique across files: two names that differ only in a
      sanitised character give the same ids. */
  lemma IdsCollideAcrossFiles()
    ensures IdFor("a.b", 1) == IdFor("a b", 1)
  {
    var x, y := "a.b" + CounterSuffix(1), "a b" + CounterSuffix(1);
    SanitizeAt(x);
    SanitizeAt(y);
    assert |x| == |y| == 5;
    forall i | 0 <= i < 5 ensures SanitizeChar(x[i]) == SanitizeChar(y[i]) {
      if i != 1 {
        assert x[i] == y[i];
      }
    }
    assert Sanitize(x) == Sanitize(y);
  }

  /** The record a "cogsearch" index receives for one chunk. */
  function PlainSection(fileName: string, counter: nat, chunk: Chunk): Record {
    map[IdKey := Text(IdFor(fileName, counter)),
        ContentKey := Text(chunk.pageContent),
        SourceFileKey := Text(Basename(fileName))]
  }

  /** The record a "cogsearchvs" index receives for one chunk. */
  function VectorSection(fileName: string, counter: nat, chunk: Chunk, vector: Embedding): Record {
    map[IdKey := Text(IdFor(fileName, counter)),
        ContentKey := Text(chunk.pageContent),
        ContentVectorKey := Vector(vector),
        SourceFileKey := Text(Basename(fileName))]
  }

  /** How many leading chunks the embedding provider serves before its first failure. */
  function EmbeddedPrefix(embed: Embedder, docs: seq<Chunk>): (k: nat)
    ensures k <= |docs|
    ensures forall i :: 0 <= i < k ==> embed(docs[i].pageContent).Some?
    ensures k < |docs| ==> embed(docs[k].pageContent).None?
  {
    if docs == [] || embed(docs[0].pageContent).None? then 0
    else 1 + EmbeddedPrefix(embed, docs[1..])
  }

  /** What the section generator yields before it is exhausted, and whether
      it ended by raising (an embedding call that failed). */
  datatype Generated = Generated(records: seq<Record>, raised: bool)

  /** The "cogsearchvs" generator from `counter` on: it stops by raising at
      the first chunk whose embedding fails. */
  function VectorSectionsFrom(embed: Embedder, fileName: string, docs: seq<Chunk>, counter: nat): Generated
    decreases |docs|
  {
    if docs == [] then Generated([], false)
    else
      match embed(docs[0].pageContent)
      case None => Generated([], true)
      case Some(vector) =>
        var rest := VectorSectionsFrom(embed, fileName, docs[1..], counter + 1);
        Generated([VectorSection(fileName, counter, docs[0], vector)] + rest.records, rest.raised)
  }

  /** The "cogsearch" generator from `counter` on. */
  function PlainSectionsFrom(fileName: string, docs: seq<Chunk>, counter: nat): seq<Record>
    decreases |docs|
  {
    if docs == [] then [] else [PlainSection(fileName, counter, docs[0])] + PlainSectionsFrom(fileName, docs[1..], counter + 1)
  }

  /** The records `createSections` yields, as a function of its inputs. */
  function Generate(indexType: string, embed: Embedder, fileName: string, docs: seq<Chunk>): Generated
  {
    if indexType == CogSearchVs then VectorSectionsFrom(embed, fileName, docs, 1)
    else if indexType == CogSearch then Generated(PlainSectionsFrom(fileName, docs, 1), false)
    else Generated([], false)
  }

  /** The generator loop: one record per chunk, the counter starting at 1. */
  method CreateSections(indexType: string, embed: Embedder, fileName: string, docs: seq<Chunk>)
    returns (records: seq<Record>, raised: bool)
    ensures Generated(records, raised) == Generate(indexType, embed, fileName, docs)
  {
    records, raised := [], false;
    var counter: nat := 1;
    if indexType == CogSearchVs {
      var i := 0;
      while i < |docs|
        invariant i <= |docs| && counter == i + 1
        invariant VectorSectionsFrom(embed, fileName, docs, 1) ==
          var rest := VectorSectionsFrom(embed, fileName, docs[i..], counter);
          Generated(records + rest.records, rest.raised)
      {
        ghost var rest := VectorSectionsFrom(embed, fileName, docs[i..], counter);
        assert docs[i..][0] == docs[i] && docs[i..][1..] == docs[i + 1..];
        var vector := embed(docs[i].pageContent);
        if vector.None? {
          assert rest == Generated([], true);
          raised := true;
          return;
        }
        ghost var next := VectorSectionsFrom(embed, fileName, docs[i + 1..], counter + 1);
        var section := VectorSection(fileName, counter, docs[i], vector.value);
        assert rest == Generated([section] + next.records, next.raised);
        assert records + rest.records == (records + [section]) + next.records;
        records := records + [section];
        counter := counter + 1;
        i := i + 1;
      }
      assert docs[i..] == [];
    } else if indexType == CogSearch {
      var i := 0;
      while i < |docs|
        invariant i <= |docs| && counter == i + 1
        invariant PlainSectionsFrom(fileName, docs, 1) == records + PlainSectionsFrom(fileName, docs[i..], counter)
      {
        assert docs[i..][0] == docs[i] && docs[i..][1..] == docs[i + 1..];
        var section := PlainSection(fileName, counter, docs[i]);
        assert records + PlainSectionsFrom(fileName, docs[i..], counter) ==
          (records + [section]) + PlainSectionsFrom(fileName, docs[i + 1..], counter + 1);
        records := records + [section];
        counter := counter + 1;
        i := i + 1;
      }
      assert docs[i..] == [];
    }
  }

  /** The vector generator yields one record for each chunk before the first
      failed embedding, and raises iff it stopped before the end. */
  lemma {:induction false} VectorSectionsFromCount(embed: Embedder, fileName: string, docs: seq<Chunk>, counter: nat)
    ensures var g := VectorSectionsFrom(embed, fileName, docs, counter);
      |g.records| == EmbeddedPrefix(embed, docs) && g.raised == (|g.records| < |docs|)
    decreases |docs|
  {
    if docs != [] && embed(docs[0].pageContent).Some? {
      VectorSectionsFromCount(embed, fileName, docs[1..], counter + 1);
    }
  }

  /** Record i of the vector generator is the section of chunk i, numbered
      `counter + i`, with that chunk's embedding. */
  lemma {:induction false} VectorSectionsFromAt(embed: Embedder, fileName: string, docs: seq<Chunk>, counter: nat, i: nat)
    requires i < |VectorSectionsFrom(embed, fileName, docs, counter).records|
    ensures i < |docs| && embed(docs[i].pageContent).Some?
    ensures VectorSectionsFrom(embed, fileName, docs, counter).records[i] ==
      VectorSection(fileName, counter + i, docs[i], embed(docs[i].pageContent).value)
    decreases i
  {
    var g := VectorSectionsFrom(embed, fileName, docs, counter);
    var rest := VectorSectionsFrom(embed, fileName, docs[1..], counter + 1);
    assert docs != [] && embed(docs[0].pageContent).Some?;
    var first := VectorSection(fileName, counter, docs[0], embed(docs[0].pageContent).value);
    assert g.records == [first] + rest.records;
    if i > 0 {
      VectorSectionsFromAt(embed, fileName, docs[1..], counter + 1, i - 1);
      assert g.records[i] == rest.records[i - 1];
      assert docs[1..][i - 1] == docs[i];
      assert counter + 1 + (i - 1) == counter + i;
    }
  }

  /** The plain generator yields one record per chunk. */
  lemma {:induction false} PlainSectionsFromCount(fileName: string, docs: seq<Chunk>, counter: nat)
    ensures |PlainSectionsFrom(fileName, docs, counter)| == |docs|
    decreases |docs|
  {
    if docs != [] {
      PlainSectionsFromCount(fileName, docs[1..], counter + 1);
    }
  }

  /** Record i of the plain generator is the section of chunk i, numbered `counter + i`. */
  lemma {:induction false} PlainSectionsFromAt(fileName: string, docs: seq<Chunk>, counter: nat, i: nat)
    requires i < |docs|
    ensures i < |PlainSectionsFrom(fileName, docs, counter)|
    ensures PlainSectionsFrom(fileName, docs, counter)[i] == PlainSection(fileName, counter + i, docs[i])
    decreases i
  {
    var rest := PlainSectionsFrom(fileName, docs[1..], counter + 1);
    if i > 0 {
      PlainSectionsFromAt(fileName, docs[1..], counter + 1, i - 1);
      assert PlainSectionsFrom(fileName, docs, counter)[i] == rest[i - 1];
      assert docs[1..][i - 1] == docs[i];
      assert counter + 1 + (i - 1) == counter + i;
    }
  }

  /** One record per chunk for "cogsearch"; for "cogsearchvs" one per chunk
      up to the first failed embedding, where the generator raises; nothing
      for any other type. */
  lemma SectionsCount(indexType: string, embed: Embedder, fileName: string, docs: seq<Chunk>)
    ensures var g := Generate(indexType, embed, fileName, docs);
      && (indexType != CogSearch && indexType != CogSearchVs ==> g == Generated([], false))
      && (indexType == CogSearch ==> |g.records| == |docs| && !g.raised)
      && (indexType == CogSearchVs ==>
            |g.records| == EmbeddedPrefix(embed, docs) <= |docs| &&
            (g.raised <==> exists i :: 0 <= i < |docs| && embed(docs[i].pageContent).None?))
  {
    VectorSectionsFromCount(embed, fileName, docs, 1);
    PlainSectionsFromCount(fileName, docs, 1);
  }

  /** The i-th yielded record is the section of chunk i with counter i + 1. */
  lemma SectionAt(indexType: string, embed: Embedder, fileName: string, docs: seq<Chunk>, i: nat)
    requires i < |Generate(indexType, embed, fileName, docs).records|
    ensures i < |docs|
    ensures indexType == CogSearchVs ==>
      embed(docs[i].pageContent).Some? &&
      Generate(indexType, embed, fileName, docs).records[i] ==
        VectorSection(fileName, i + 1, docs[i], embed(docs[i].pageContent).value)
    ensures indexType == CogSearch ==>
      Generate(indexType, embed, fileName, docs).records[i] == PlainSection(fileName, i + 1, docs[i])
  {
    if indexType == CogSearchVs {
      VectorSectionsFromAt(embed, fileName, docs, 1, i);
    } else if indexType == CogSearch {
      PlainSectionsFromCount(fileName, docs, 1);
      PlainSectionsFromAt(fileName, docs, 1, i);
    }
  }

  /** Every yielded record carries the id of its counter, the chunk's text
      and the file's basename; only the vector type adds the embedding, and
      it does so under the key "contentVector". */
  lemma SectionFields(indexType: string, embed: Embedder, fileName: string, docs: seq<Chunk>, i: nat)
    requires i < |Generate(indexType, embed, fileName, docs).records|
    ensures i < |docs|
    ensures var r := Generate(indexType, embed, fileName, docs).records[i];
      && IdKey in r && r[IdKey] == Text(IdFor(fileName, i + 1))
      && ContentKey in r && r[ContentKey] == Text(docs[i].pageContent)
      && SourceFileKey in r && r[SourceFileKey] == Text(Basename(fileName))
      && (ContentVectorKey in r <==> indexType == CogSearchVs)
      && (indexType == CogSearchVs ==>
            r.Keys == {IdKey, ContentKey, ContentVectorKey, SourceFileKey} &&
            ContentVectorKey in r && r[ContentVectorKey].Vector? &&
            embed(docs[i].pageContent) == Some(r[ContentVectorKey].embedding))
      && (indexType == CogSearch ==> r.Keys == {IdKey, ContentKey, SourceFileKey})
  {
    SectionAt(indexType, embed, fileName, docs, i);
    SectionsCount(indexType, embed, fileName, docs);
  }

  /** Records i and j both have ids, and the ids differ. */
  predicate DistinctIdsAt(rs: seq<Record>, i: nat, j: nat)
    requires i < |rs| && j < |rs|
  {
    IdKey in rs[i] && IdKey in rs[j] && rs[i][IdKey] != rs[j][IdKey]
  }

  /** Every record has an id, and no two records share one. */
  predicate UniqueIds(rs: seq<Record>) {
    forall i: nat, j: nat :: i < j < |rs| ==> DistinctIdsAt(rs, i, j)
  }

  /** The ids yielded by one call are pairwise distinct. */
  lemma SectionIdsDistinct(indexType: string, embed: Embedder, fileName: string, docs: seq<Chunk>)
    ensures UniqueIds(Generate(indexType, embed, fileName, docs).records)
  {
    var rs := Generate(indexType, embed, fileName, docs).records;
    forall i: nat, j: nat | i < j < |rs| ensures DistinctIdsAt(rs, i, j) {
      SectionFields(indexType, embed, fileName, docs, i);
      SectionFields(indexType, embed, fileName, docs, j);
      IdsDistinct(fileName, i + 1, j + 1);
    }
  }
}
