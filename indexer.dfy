/**
 * Vector-entry construction and the upsert plan of
 * `process_and_store_embeddings` (embedding_utils.py). The sentence
 * encoder, the Pinecone connection and `index.upsert` are oracles passed
 * in as parameters; embedding values are whatever the encoder returns.
 */
module Indexer {
  import opened Wrappers
  import opened Text
  import opened Chunker

  /** Dimension of the 'all-MiniLM-L6-v2' model and of the index. */
  const Dimension: nat := 384
  const BatchSize: nat := 100

  type Vector = seq<real>

  /** The encoder: `Some(vector)`, or `None` when `embedding_model.encode` raises. */
  type Encoder = string -> Option<Vector>

  /** `[0.0] * 384`. */
  function ZeroVector(): (v: Vector)
    ensures |v| == Dimension
    ensures forall i :: 0 <= i < |v| ==> v[i] == 0.0
  {
    seq(Dimension, _ => 0.0)
  }

  /**
   * `get_embedding`: never fails; blank text and an encoder failure both
   * give the zero vector of the index's dimension.
   */
  function GetEmbedding(text: string, encode: Encoder): (v: Vector)
    ensures IsBlank(text) ==> v == ZeroVector()
    ensures !IsBlank(text) ==> v == (if encode(text).Some? then encode(text).value else ZeroVector())
    ensures (encode(text).Some? ==> |encode(text).value| == Dimension) ==> |v| == Dimension
  {
    if IsBlank(text) then ZeroVector()
    else match encode(text)
      case Some(embedding) => embedding
      case None => ZeroVector()
  }

  /**
   * An input document dictionary. A key the dictionary lacks reads as ""
   * (`document.get(key, "")`), so a missing `id` and an empty one are the
   * same here.
   */
  datatype Document = Document(
    id: string,
    title: string,
    authors: string,
    organizations: string,
    emails: string,
    content: string,
    fullContent: string)

  /** The metadata dictionary of an entry; `kind` is the value under the key "type". */
  datatype Metadata = Metadata(kind: string, documentId: string, chunkId: Option<nat>, text: string)

  /** The `(id, embedding, metadata)` tuple handed to `index.upsert`. */
  datatype VectorEntry = VectorEntry(id: string, values: Vector, metadata: Metadata)

  function FieldEntry(documentId: string, field: string, text: string, encode: Encoder): VectorEntry {
    VectorEntry(documentId + "_" + field, GetEmbedding(text, encode), Metadata(field, documentId, None, text))
  }

  /** The four metadata entries of embedding_utils.py:138-150, in that order. */
  function MetadataEntries(d: Document, encode: Encoder): seq<VectorEntry> {
    [ FieldEntry(d.id, "title", d.title, encode),
      FieldEntry(d.id, "authors", d.authors, encode),
      FieldEntry(d.id, "organizations", d.organizations, encode),
      FieldEntry(d.id, "emails", d.emails, encode) ]
  }

  /** The entry for chunk number i (numbered after blank windows were dropped). */
  function ChunkEntry(documentId: string, i: nat, chunk: string, encode: Encoder): VectorEntry {
    VectorEntry(documentId + "_chunk_" + NatToString(i), GetEmbedding(chunk, encode),
                Metadata("chunk", documentId, Some(i), chunk))
  }

  function ChunkEntries(documentId: string, chunks: seq<string>, encode: Encoder): (r: seq<VectorEntry>)
    ensures |r| == |chunks|
  {
    seq(|chunks|, i requires 0 <= i < |chunks| => ChunkEntry(documentId, i, chunks[i], encode))
  }

  /** What one document contributes to `all_vectors`. */
  function DocumentEntries(d: Document, encode: Encoder): seq<VectorEntry> {
    if d.id == "" then []
    else MetadataEntries(d, encode) + ChunkPart(d, encode)
  }

  /** `all_vectors` after the loop over `documents`. */
  function AllEntries(documents: seq<Document>, encode: Encoder): seq<VectorEntry>
    decreases |documents|
  {
    if |documents| == 0 then []
    else AllEntries(documents[..|documents| - 1], encode) + DocumentEntries(documents[|documents| - 1], encode)
  }

  /**
   * A document with an empty id contributes nothing. Otherwise it
   * contributes exactly the four entries `{id}_title`, `{id}_authors`,
   * `{id}_organizations`, `{id}_emails`, whose type is the field name and
   * whose text is the field value, followed, unless its full content is
   * blank, by one entry per chunk: `{id}_chunk_{i}` with chunk_id i and the
   * chunk's exact text, for i = 0, 1, ... without gaps.
   */
  lemma DocumentEntriesShape(d: Document, encode: Encoder)
    ensures d.id == "" ==> DocumentEntries(d, encode) == []
    ensures d.id != "" && IsBlank(d.fullContent) ==> |DocumentEntries(d, encode)| == 4
    ensures d.id != "" && !IsBlank(d.fullContent) ==>
      |DocumentEntries(d, encode)| == 4 + |Chunks(d.fullContent)|
    ensures d.id != "" ==> DocumentEntries(d, encode)[..4] == MetadataEntries(d, encode)
    ensures d.id != "" ==>
      DocumentEntries(d, encode)[0].id == d.id + "_title"
      && DocumentEntries(d, encode)[0].metadata == Metadata("title", d.id, None, d.title)
      && DocumentEntries(d, encode)[1].id == d.id + "_authors"
      && DocumentEntries(d, encode)[1].metadata == Metadata("authors", d.id, None, d.authors)
      && DocumentEntries(d, encode)[2].id == d.id + "_organizations"
      && DocumentEntries(d, encode)[2].metadata == Metadata("organizations", d.id, None, d.organizations)
      && DocumentEntries(d, encode)[3].id == d.id + "_emails"
      && DocumentEntries(d, encode)[3].metadata == Metadata("emails", d.id, None, d.emails)
    ensures d.id != "" && !IsBlank(d.fullContent) ==>
      forall i :: 0 <= i < |Chunks(d.fullContent)| ==>
        DocumentEntries(d, encode)[4 + i].id == d.id + "_chunk_" + NatToString(i)
        && DocumentEntries(d, encode)[4 + i].metadata
           == Metadata("chunk", d.id, Some(i), Chunks(d.fullContent)[i])
  {
    if d.id != "" {
      var m := MetadataEntries(d, encode);
      var rest := ChunkPart(d, encode);
      assert DocumentEntries(d, encode) == m + rest;
      assert (m + rest)[..4] == m;
      forall i | 0 <= i < |rest|
        ensures (m + rest)[4 + i] == rest[i]
      {
      }
    }
  }

  /** A vector entry carries `get_embedding` of its own metadata text. */
  predicate CarriesOwnEmbedding(e: VectorEntry, encode: Encoder) {
    e.values == GetEmbedding(e.metadata.text, encode)
  }

  /**
   * The vector side of the entries: each field entry carries
   * `get_embedding` of its field's text and each chunk entry that of its
   * chunk (the texts `DocumentEntriesShape` pins), so every entry has 384
   * values whenever the encoder's vectors do.
   */
  lemma DocumentEntriesValues(d: Document, encode: Encoder)
    ensures forall e :: e in DocumentEntries(d, encode) ==> CarriesOwnEmbedding(e, encode)
    ensures (forall t :: encode(t).Some? ==> |encode(t).value| == Dimension) ==>
      forall e :: e in DocumentEntries(d, encode) ==> |e.values| == Dimension
  {
    if d.id != "" {
      var m := MetadataEntries(d, encode);
      var rest := ChunkPart(d, encode);
      assert DocumentEntries(d, encode) == m + rest;
      assert forall e :: e in m ==> CarriesOwnEmbedding(e, encode);
      forall e | e in rest
        ensures CarriesOwnEmbedding(e, encode)
      {
        var j :| 0 <= j < |rest| && rest[j] == e;
      }
    }
  }

  /** Every entry of `all_vectors` carries the embedding of its own text. */
  lemma {:induction false} AllEntriesValues(documents: seq<Document>, encode: Encoder)
    ensures forall e :: e in AllEntries(documents, encode) ==> CarriesOwnEmbedding(e, encode)
    decreases |documents|
  {
    if |documents| > 0 {
      AllEntriesValues(documents[..|documents| - 1], encode);
      DocumentEntriesValues(documents[|documents| - 1], encode);
    }
  }

  /** The chunk entries a document with a non-empty id contributes after its metadata entries. */
  function ChunkPart(d: Document, encode: Encoder): seq<VectorEntry> {
    if IsBlank(d.fullContent) then [] else ChunkEntries(d.id, Chunks(d.fullContent), encode)
  }

  // ---------------------------------------------------------------------
  // Entry ids are unique
  // ---------------------------------------------------------------------

  /** The part of an entry id after the document id. */
  function IdSuffix(kind: string, chunkId: Option<nat>): string {
    if chunkId.Some? then "_chunk_" + NatToString(chunkId.value) else "_" + kind
  }

  const MetadataKinds: set<string> := {"title", "authors", "organizations", "emails"}

  /** An entry's id is its document id followed by the suffix of its kind and chunk number. */
  predicate WellKeyed(e: VectorEntry) {
    && e.id == e.metadata.documentId + IdSuffix(e.metadata.kind, e.metadata.chunkId)
    && (e.metadata.chunkId.Some? <==> e.metadata.kind == "chunk")
    && (e.metadata.chunkId.None? ==> e.metadata.kind in MetadataKinds)
  }

  lemma EndsWithAt(b: string, a: string, k: nat)
    requires EndsWith(b, a) && k < |a|
    ensures a[k] == b[|b| - |a| + k]
  {
    assert a[k] == b[|b| - |a|..][k];
  }

  lemma TailChars(a: string, b: string)
    requires EndsWith(b, a) && |a| >= 2
    ensures a[|a| - 1] == b[|b| - 1] && a[|a| - 2] == b[|b| - 2]
  {
    assert a[|a| - 1] == b[|b| - |a|..][|a| - 1];
    assert a[|a| - 2] == b[|b| - |a|..][|a| - 2];
  }

  lemma LastOfConcat(x: string, y: string)
    ensures |y| > 0 ==> (x + y)[|x + y| - 1] == y[|y| - 1]
  {
  }

  /** The metadata kind a name ending in the two characters x, y would be. */
  function KindOfTail(x: char, y: char): string {
    if y == 'e' then "title" else if x == 'r' then "authors" else if x == 'n' then "organizations" else "emails"
  }

  /** A metadata kind is determined by its last two characters, the last of which is a letter. */
  lemma KindTail(k: string)
    requires k in MetadataKinds
    ensures |k| >= 2 && KindOfTail(k[|k| - 2], k[|k| - 1]) == k
    ensures k[|k| - 1] == 'e' || k[|k| - 1] == 's'
  {
    if k == "title" {
    } else if k == "authors" {
    } else if k == "organizations" {
    } else {
      assert k == "emails";
    }
  }

  /** The four metadata suffixes already differ in their last two characters. */
  lemma MetadataSuffixesUnambiguous(k1: string, k2: string)
    requires k1 in MetadataKinds && k2 in MetadataKinds
    requires EndsWith("_" + k2, "_" + k1)
    ensures k1 == k2
  {
    var a, b := "_" + k1, "_" + k2;
    KindTail(k1);
    KindTail(k2);
    TailChars(a, b);
    assert a[|a| - 1] == k1[|k1| - 1] && a[|a| - 2] == k1[|k1| - 2];
    assert b[|b| - 1] == k2[|k2| - 1] && b[|b| - 2] == k2[|k2| - 2];
  }

  /** Two chunk suffixes, one ending the other, carry the same chunk number. */
  lemma ChunkSuffixesUnambiguous(n1: nat, n2: nat)
    requires EndsWith("_chunk_" + NatToString(n2), "_chunk_" + NatToString(n1))
    ensures n1 == n2
  {
    var d1, d2 := NatToString(n1), NatToString(n2);
    var a, b := "_chunk_" + d1, "_chunk_" + d2;
    if |d1| < |d2| {
      // The '_' just before d1 would have to be a digit of d2.
      EndsWithAt(b, a, 6);
      assert false;
    } else {
      assert |a| == |b|;
      assert d1 == a[7..] == b[7..] == d2;
      NatToStringInjective(n1, n2);
    }
  }

  /** Of two suffixes, one can end the other only if they are equal. */
  lemma SuffixesUnambiguous(k1: string, c1: Option<nat>, k2: string, c2: Option<nat>)
    requires (c1.None? ==> k1 in MetadataKinds) && (c2.None? ==> k2 in MetadataKinds)
    requires EndsWith(IdSuffix(k2, c2), IdSuffix(k1, c1))
    ensures c1 == c2 && (c1.None? ==> k1 == k2)
  {
    var a, b := IdSuffix(k1, c1), IdSuffix(k2, c2);
    if c1.None? && c2.None? {
      MetadataSuffixesUnambiguous(k1, k2);
    } else if c1.Some? && c2.Some? {
      ChunkSuffixesUnambiguous(c1.value, c2.value);
    } else if c1.Some? {
      // A chunk suffix ends in a digit, a metadata suffix in a letter.
      var digits := NatToString(c1.value);
      EndsWithAt(b, a, |a| - 1);
      assert a[|a| - 1] == digits[|digits| - 1];
      KindTail(k2);
      LastOfConcat("_", k2);
      assert false;
    } else {
      var digits := NatToString(c2.value);
      EndsWithAt(b, a, |a| - 1);
      assert b[|b| - 1] == digits[|digits| - 1];
      KindTail(k1);
      LastOfConcat("_", k1);
      assert false;
    }
  }

  /** Two well-keyed entries with the same id belong to the same document, kind and chunk. */
  lemma IdDeterminesKey(e1: VectorEntry, e2: VectorEntry)
    requires WellKeyed(e1) && WellKeyed(e2) && e1.id == e2.id
    ensures e1.metadata.documentId == e2.metadata.documentId
    ensures e1.metadata.kind == e2.metadata.kind && e1.metadata.chunkId == e2.metadata.chunkId
  {
    var m1, m2 := e1.metadata, e2.metadata;
    var a, b := IdSuffix(m1.kind, m1.chunkId), IdSuffix(m2.kind, m2.chunkId);
    if |a| <= |b| {
      assert b[|b| - |a|..] == e1.id[|e1.id| - |a|..] == a;
      SuffixesUnambiguous(m1.kind, m1.chunkId, m2.kind, m2.chunkId);
    } else {
      assert a[|a| - |b|..] == e1.id[|e1.id| - |b|..] == b;
      SuffixesUnambiguous(m2.kind, m2.chunkId, m1.kind, m1.chunkId);
    }
    assert a == b;
    assert m1.documentId == e1.id[..|e1.id| - |a|] == m2.documentId;
  }

  lemma FieldEntryWellKeyed(documentId: string, field: string, text: string, encode: Encoder)
    requires field in MetadataKinds
    ensures WellKeyed(FieldEntry(documentId, field, text, encode))
  {
    assert documentId + "_" + field == documentId + ("_" + field);
  }

  lemma ChunkEntryWellKeyed(documentId: string, i: nat, chunk: string, encode: Encoder)
    ensures WellKeyed(ChunkEntry(documentId, i, chunk, encode))
  {
    assert documentId + "_chunk_" + NatToString(i) == documentId + ("_chunk_" + NatToString(i));
  }

  lemma DocumentEntriesWellKeyed(d: Document, encode: Encoder)
    ensures forall k :: 0 <= k < |DocumentEntries(d, encode)| ==>
      WellKeyed(DocumentEntries(d, encode)[k]) && DocumentEntries(d, encode)[k].metadata.documentId == d.id
  {
    if d.id != "" {
      var m, rest := MetadataEntries(d, encode), ChunkPart(d, encode);
      FieldEntryWellKeyed(d.id, "title", d.title, encode);
      FieldEntryWellKeyed(d.id, "authors", d.authors, encode);
      FieldEntryWellKeyed(d.id, "organizations", d.organizations, encode);
      FieldEntryWellKeyed(d.id, "emails", d.emails, encode);
      forall k | 0 <= k < |rest|
        ensures WellKeyed(rest[k]) && rest[k].metadata.documentId == d.id
      {
        ChunkEntryWellKeyed(d.id, k, rest[k].metadata.text, encode);
      }
      forall k | 0 <= k < |m + rest|
        ensures WellKeyed((m + rest)[k]) && (m + rest)[k].metadata.documentId == d.id
      {
        if k >= |m| {
          assert (m + rest)[k] == rest[k - |m|];
        }
      }
    }
  }

  /** Within one document, different positions carry different (kind, chunk number) keys. */
  lemma DocumentKeysDistinct(d: Document, encode: Encoder, i: nat, j: nat)
    requires i < j < |DocumentEntries(d, encode)|
    ensures DocumentEntries(d, encode)[i].metadata.kind != DocumentEntries(d, encode)[j].metadata.kind
         || DocumentEntries(d, encode)[i].metadata.chunkId != DocumentEntries(d, encode)[j].metadata.chunkId
  {
    var m, rest := MetadataEntries(d, encode), ChunkPart(d, encode);
    assert DocumentEntries(d, encode) == m + rest;
    if j < 4 {
      assert (m + rest)[i] == m[i] && (m + rest)[j] == m[j];
    } else if i < 4 {
      assert (m + rest)[i] == m[i] && (m + rest)[j] == rest[j - 4];
    } else {
      assert (m + rest)[i] == rest[i - 4] && (m + rest)[j] == rest[j - 4];
    }
  }

  /** No two entries of the sequence share an id. */
  predicate UniqueIds(es: seq<VectorEntry>) {
    forall i, j :: 0 <= i < j < |es| ==> es[i].id != es[j].id
  }

  lemma UniqueIdsAppend(a: seq<VectorEntry>, b: seq<VectorEntry>)
    requires UniqueIds(a) && UniqueIds(b)
    requires forall i, j :: 0 <= i < |a| && 0 <= j < |b| ==> a[i].id != b[j].id
    ensures UniqueIds(a + b)
  {
    forall i, j | 0 <= i < j < |a + b|
      ensures (a + b)[i].id != (a + b)[j].id
    {
      if j < |a| {
        assert (a + b)[i] == a[i] && (a + b)[j] == a[j];
      } else if i >= |a| {
        assert (a + b)[i] == b[i - |a|] && (a + b)[j] == b[j - |a|];
      } else {
        assert (a + b)[i] == a[i] && (a + b)[j] == b[j - |a|];
      }
    }
  }

  /** The entries of one document have pairwise distinct ids. */
  lemma DocumentIdsUnique(d: Document, encode: Encoder)
    ensures UniqueIds(DocumentEntries(d, encode))
  {
    var es := DocumentEntries(d, encode);
    DocumentEntriesWellKeyed(d, encode);
    forall i, j | 0 <= i < j < |es|
      ensures es[i].id != es[j].id
    {
      if es[i].id == es[j].id {
        IdDeterminesKey(es[i], es[j]);
        DocumentKeysDistinct(d, encode, i, j);
      }
    }
  }

  predicate DistinctIds(documents: seq<Document>) {
    forall i, j :: 0 <= i < j < |documents| && documents[i].id != "" ==> documents[i].id != documents[j].id
  }

  lemma {:induction false} AllEntriesKeyed(documents: seq<Document>, encode: Encoder)
    ensures forall k :: 0 <= k < |AllEntries(documents, encode)| ==>
      WellKeyed(AllEntries(documents, encode)[k])
      && exists n :: 0 <= n < |documents| && documents[n].id == AllEntries(documents, encode)[k].metadata.documentId
           && documents[n].id != ""
    decreases |documents|
  {
    if |documents| > 0 {
      var init, last := documents[..|documents| - 1], documents[|documents| - 1];
      AllEntriesKeyed(init, encode);
      DocumentEntriesWellKeyed(last, encode);
      var all := AllEntries(documents, encode);
      forall k | 0 <= k < |all|
        ensures WellKeyed(all[k])
        ensures exists n :: 0 <= n < |documents| && documents[n].id == all[k].metadata.documentId && documents[n].id != ""
      {
        if k < |AllEntries(init, encode)| {
          assert all[k] == AllEntries(init, encode)[k];
          var n :| 0 <= n < |init| && init[n].id == all[k].metadata.documentId && init[n].id != "";
          assert documents[n] == init[n];
        } else {
          assert all[k] == DocumentEntries(last, encode)[k - |AllEntries(init, encode)|];
        }
      }
    }
  }

  /**
   * When the non-empty document ids of one call are distinct, no two
   * entries of `all_vectors` share an id, so no upsert of the call
   * overwrites another of its entries.
   */
  lemma {:induction false} EntryIdsUnique(documents: seq<Document>, encode: Encoder)
    requires DistinctIds(documents)
    ensures UniqueIds(AllEntries(documents, encode))
    decreases |documents|
  {
    if |documents| > 0 {
      var init, last := documents[..|documents| - 1], documents[|documents| - 1];
      var front, back := AllEntries(init, encode), DocumentEntries(last, encode);
      assert DistinctIds(init);
      EntryIdsUnique(init, encode);
      DocumentIdsUnique(last, encode);
      AllEntriesKeyed(init, encode);
      DocumentEntriesWellKeyed(last, encode);
      forall k | 0 <= k < |front|
        ensures front[k].metadata.documentId != last.id
      {
        var n :| 0 <= n < |init| && init[n].id == front[k].metadata.documentId && init[n].id != "";
        assert documents[n] == init[n];
      }
      forall i, j | 0 <= i < |front| && 0 <= j < |back|
        ensures front[i].id != back[j].id
      {
        if front[i].id == back[j].id {
          IdDeterminesKey(front[i], back[j]);
        }
      }
      UniqueIdsAppend(front, back);
    }
  }

  /** Entries of documents with different ids never share an id, so one document's upserts never overwrite another's. */
  lemma EntriesOfDistinctDocumentsDisjoint(d1: Document, d2: Document, encode: Encoder, i: nat, j: nat)
    requires d1.id != d2.id
    requires i < |DocumentEntries(d1, encode)| && j < |DocumentEntries(d2, encode)|
    ensures DocumentEntries(d1, encode)[i].id != DocumentEntries(d2, encode)[j].id
  {
    DocumentEntriesWellKeyed(d1, encode);
    DocumentEntriesWellKeyed(d2, encode);
    if DocumentEntries(d1, encode)[i].id == DocumentEntries(d2, encode)[j].id {
      IdDeterminesKey(DocumentEntries(d1, encode)[i], DocumentEntries(d2, encode)[j]);
    }
  }

  // ---------------------------------------------------------------------
  // Batches
  // ---------------------------------------------------------------------

  /** The slices `all_vectors[i:min(i + 100, n)]` for i = 0, 100, 200, ... below n. */
  function Batches<T>(s: seq<T>): seq<seq<T>>
    decreases |s|
  {
    if |s| == 0 then []
    else [s[..Min(BatchSize, |s|)]] + Batches(s[Min(BatchSize, |s|)..])
  }

  function Flatten<T>(bs: seq<seq<T>>): seq<T>
    decreases |bs|
  {
    if |bs| == 0 then [] else bs[0] + Flatten(bs[1..])
  }

  /**
   * The batches are consecutive slices of at most 100 entries that put
   * back together give exactly `all_vectors`; there are ceil(n / 100) of
   * them, so none at all when there is no entry.
   */
  lemma {:induction false} BatchesPartition<T>(s: seq<T>)
    ensures Flatten(Batches(s)) == s
    ensures |Batches(s)| == (|s| + BatchSize - 1) / BatchSize
    ensures forall k :: 0 <= k < |Batches(s)| ==> 0 < |Batches(s)[k]| <= BatchSize
    ensures forall k :: 0 <= k < |Batches(s)| - 1 ==> |Batches(s)[k]| == BatchSize
    decreases |s|
  {
    if |s| > 0 {
      var m := Min(BatchSize, |s|);
      BatchesPartition(s[m..]);
      assert s == s[..m] + s[m..];
      var bs := Batches(s);
      assert bs[1..] == Batches(s[m..]);
      forall k | 0 < k < |bs|
        ensures 0 < |bs[k]| <= BatchSize
      {
        assert bs[k] == Batches(s[m..])[k - 1];
      }
      forall k | 0 < k < |bs| - 1
        ensures |bs[k]| == BatchSize
      {
        assert bs[k] == Batches(s[m..])[k - 1];
      }
      if |s| > BatchSize {
        assert Batches(s[m..]) != [];
      }
    }
  }

  /** What became of the index connection and the upserts. */
  datatype StoreOutcome =
    | ConnectFailed
      /** every batch was upserted; the index is returned */
    | Stored(upserted: seq<seq<VectorEntry>>)
      /** `index.upsert` raised on `failed`; the earlier batches stay stored and None is returned */
    | UpsertFailed(upserted: seq<seq<VectorEntry>>, failed: seq<VectorEntry>)

  /** The loop of embedding_utils.py:170-174, appending one entry per chunk. */
  method AppendChunkEntries(allVectors: seq<VectorEntry>, documentId: string, chunks: seq<string>, encode: Encoder)
    returns (r: seq<VectorEntry>)
    ensures r == allVectors + ChunkEntries(documentId, chunks, encode)
  {
    r := allVectors;
    for i := 0 to |chunks|
      invariant r == allVectors + ChunkEntries(documentId, chunks[..i], encode)
    {
      assert ChunkEntries(documentId, chunks[..i + 1], encode)
          == ChunkEntries(documentId, chunks[..i], encode) + [ChunkEntry(documentId, i, chunks[i], encode)];
      r := r + [ChunkEntry(documentId, i, chunks[i], encode)];
    }
    assert chunks[..|chunks|] == chunks;
  }

  lemma AllEntriesStep(documents: seq<Document>, n: nat, encode: Encoder)
    requires n < |documents|
    ensures AllEntries(documents[..n + 1], encode) == AllEntries(documents[..n], encode) + DocumentEntries(documents[n], encode)
  {
    assert documents[..n + 1][..n] == documents[..n];
  }

  /** The body of the document loop of embedding_utils.py:114-174: what one document adds to `all_vectors`. */
  method DocumentVectors(document: Document, encode: Encoder) returns (entries: seq<VectorEntry>)
    ensures entries == DocumentEntries(document, encode)
  {
    if document.id == "" {
      return [];
    }
    entries := MetadataEntries(document, encode);
    if !IsBlank(document.fullContent) {
      var chunks := SplitIntoChunks(document.fullContent);
      entries := AppendChunkEntries(entries, document.id, chunks, encode);
    }
  }

  /** The document loop of embedding_utils.py:112-175. */
  method CollectVectors(documents: seq<Document>, encode: Encoder) returns (allVectors: seq<VectorEntry>)
    ensures allVectors == AllEntries(documents, encode)
  {
    allVectors := [];
    for n := 0 to |documents|
      invariant allVectors == AllEntries(documents[..n], encode)
    {
      AllEntriesStep(documents, n, encode);
      var entries := DocumentVectors(documents[n], encode);
      allVectors := allVectors + entries;
    }
    assert documents[..|documents|] == documents;
  }

  lemma BatchesStep<T>(s: seq<T>, i: nat)
    requires i < |s|
    ensures Batches(s[i..]) == [s[i..Min(i + BatchSize, |s|)]] + Batches(s[Min(i + BatchSize, |s|)..])
  {
    assert s[i..][..Min(BatchSize, |s| - i)] == s[i..Min(i + BatchSize, |s|)];
    assert s[i..][Min(BatchSize, |s| - i)..] == s[Min(i + BatchSize, |s|)..];
  }

  /**
   * The batch loop of embedding_utils.py:178-188: upsert the batches in
   * order; the first one the index refuses (`upsertAccepts` false:
   * `index.upsert` raised) ends the loop, and the batches before it stay
   * stored.
   */
  method UpsertBatches(allVectors: seq<VectorEntry>, upsertAccepts: seq<VectorEntry> -> bool)
    returns (outcome: StoreOutcome)
    ensures !outcome.ConnectFailed?
    ensures outcome.Stored? <==>
      forall k :: 0 <= k < |Batches(allVectors)| ==> upsertAccepts(Batches(allVectors)[k])
    ensures outcome.Stored? ==>
      outcome.upserted == Batches(allVectors)
      && forall k :: 0 <= k < |outcome.upserted| ==> upsertAccepts(outcome.upserted[k])
    ensures outcome.UpsertFailed? ==>
      |outcome.upserted| < |Batches(allVectors)|
      && outcome.upserted == Batches(allVectors)[..|outcome.upserted|]
      && outcome.failed == Batches(allVectors)[|outcome.upserted|]
      && !upsertAccepts(outcome.failed)
      && forall k :: 0 <= k < |outcome.upserted| ==> upsertAccepts(outcome.upserted[k])
  {
    ghost var plan := Batches(allVectors);
    var upserted: seq<seq<VectorEntry>> := [];
    var i := 0;
    while i < |allVectors|
      invariant 0 <= i <= |allVectors|
      invariant |upserted| <= |plan| && upserted == plan[..|upserted|]
      invariant Batches(allVectors[i..]) == plan[|upserted|..]
      invariant forall k :: 0 <= k < |upserted| ==> upsertAccepts(upserted[k])
      decreases |allVectors| - i
    {
      var batch := allVectors[i..Min(i + BatchSize, |allVectors|)];
      BatchesStep(allVectors, i);
      assert plan[|upserted|..] == [batch] + Batches(allVectors[Min(i + BatchSize, |allVectors|)..]);
      assert |upserted| < |plan| && batch == plan[|upserted|];
      if !upsertAccepts(batch) {
        return UpsertFailed(upserted, batch);
      }
      assert plan[..|upserted| + 1] == upserted + [batch];
      upserted := upserted + [batch];
      i := Min(i + BatchSize, |allVectors|);
      assert plan[|upserted|..] == plan[|upserted| - 1..][1..];
    }
    assert plan[|upserted|..] == [];
    return Stored(upserted);
  }

  /**
   * `process_and_store_embeddings`: connect (the oracle `connected`; any
   * failure there returns None before a document is read), build
   * `all_vectors`, then upsert its batches in order.
   */
  method ProcessAndStoreEmbeddings(
    documents: seq<Document>, encode: Encoder, connected: bool, upsertAccepts: seq<VectorEntry> -> bool)
    returns (outcome: StoreOutcome)
    ensures !connected <==> outcome == ConnectFailed
    ensures outcome.Stored? <==>
      (connected && forall k :: 0 <= k < |Batches(AllEntries(documents, encode))| ==>
                      upsertAccepts(Batches(AllEntries(documents, encode))[k]))
    ensures outcome.Stored? ==>
      outcome.upserted == Batches(AllEntries(documents, encode))
      && forall k :: 0 <= k < |outcome.upserted| ==> upsertAccepts(outcome.upserted[k])
    ensures outcome.UpsertFailed? ==>
      var plan := Batches(AllEntries(documents, encode));
      |outcome.upserted| < |plan|
      && outcome.upserted == plan[..|outcome.upserted|]
      && outcome.failed == plan[|outcome.upserted|]
      && !upsertAccepts(outcome.failed)
      && forall k :: 0 <= k < |outcome.upserted| ==> upsertAccepts(outcome.upserted[k])
  {
    if !connected {
      return ConnectFailed;
    }
    var allVectors := CollectVectors(documents, encode);
    outcome := UpsertBatches(allVectors, upsertAccepts);
  }
}
