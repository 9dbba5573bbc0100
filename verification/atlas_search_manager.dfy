/** The Atlas Search manager: preparing documents for indexing, the per-document
    deduplicating upsert into a collection, the tally over a batch, the deletion status, the
    lookup of a search index by name and the mapping of Atlas API failures to errors. The
    database is the in-memory store of DocumentStore; driver failures are a `Fault`
    parameter; the Atlas API's answer is an `HttpOutcome` value. */
module Managers {
  import opened Wrappers
  import opened JsStrings
  import opened Documents
  import opened DocumentStore

  // ---------------------------------------------------------------- preparing documents

  /** A document as handed to the bulk indexer. */
  datatype PreparedDocument = PreparedDocument(indexName: string, indexedDocumentId: string, document: Document)

  /** A document ready to be written: the collection it goes to, its key and its fields. */
  datatype IndexItem = IndexItem(index: string, indexedDocumentId: string, document: Document)

  /** The field under which a prepared document records its full index name. */
  const IndexNameField := "indexName"

  /** One document of bulkIndex: the collection is the index name up to its first `__`, and
      the document gains the `indexedDocumentId` and `indexName` fields. */
  function PrepareForIndex(d: PreparedDocument): (item: IndexItem)
    ensures item.index <= d.indexName
    ensures item.index == d.indexName || SeparatorAt(d.indexName, |item.index|)
    ensures forall i :: 0 <= i < |item.index| ==> !SeparatorAt(d.indexName, i)
    ensures item.indexedDocumentId == d.indexedDocumentId
    ensures CarriesDocumentId(item.document, d.indexedDocumentId)
    ensures IndexNameField in item.document && item.document[IndexNameField] == Str(d.indexName)
    ensures item.document.Keys == d.document.Keys + {DocumentIdField, IndexNameField}
    ensures forall f <- d.document :: f != DocumentIdField && f != IndexNameField ==> item.document[f] == d.document[f]
  {
    IndexItem(FirstSegment(d.indexName), d.indexedDocumentId,
              d.document[DocumentIdField := Str(d.indexedDocumentId)][IndexNameField := Str(d.indexName)])
  }

  /** The index name of a dated index is its leading name. */
  lemma DatedIndexName()
    ensures PrepareForIndex(PreparedDocument("content__2022_7_22__14_57_40", "d1", map[])).index == "content"
  {
    var s := "content__2022_7_22__14_57_40";
    assert s[..9] == "content__";
    FirstSegmentAt(s, 7);
  }

  /** The whole batch, prepared in order. */
  function Prepared(docs: seq<PreparedDocument>): (items: seq<IndexItem>)
    ensures |items| == |docs|
    ensures forall i :: 0 <= i < |docs| ==> items[i] == PrepareForIndex(docs[i])
  {
    if docs == [] then [] else [PrepareForIndex(docs[0])] + Prepared(docs[1..])
  }

  /** The loop of bulkIndex that fills the pending list. */
  method PrepareBatch(documents: seq<PreparedDocument>) returns (pending: seq<IndexItem>)
    ensures pending == Prepared(documents)
    ensures forall item <- pending :: CarriesDocumentId(item.document, item.indexedDocumentId)
  {
    pending := [];
    var i := 0;
    while i < |documents|
      invariant 0 <= i <= |documents|
      invariant pending == Prepared(documents[..i])
    {
      assert documents[..i + 1] == documents[..i] + [documents[i]];
      PreparedAppend(documents[..i], documents[i]);
      pending := pending + [PrepareForIndex(documents[i])];
      i := i + 1;
    }
    assert documents[..i] == documents;
  }

  /** Preparing one more document appends its item. */
  lemma PreparedAppend(docs: seq<PreparedDocument>, d: PreparedDocument)
    ensures Prepared(docs + [d]) == Prepared(docs) + [PrepareForIndex(d)]
  {
    var whole := Prepared(docs + [d]);
    var parts := Prepared(docs) + [PrepareForIndex(d)];
    forall i | 0 <= i < |whole| ensures whole[i] == parts[i] {
      if i < |docs| {
        assert (docs + [d])[i] == docs[i];
      }
    }
  }

  // ---------------------------------------------------------------- the upsert

  /** The writes indexSingleDocument issues after its find returned `matches`: an insert when
      there is none, otherwise an update of the first and a delete of every other. */
  function Plan(matches: seq<Record>, doc: Document): (plan: seq<Write>)
    ensures |plan| == if matches == [] then 1 else |matches|
    ensures matches == [] ==> plan == [Insert(doc)]
    ensures matches != [] ==> plan[0] == Update(matches[0].id, doc)
    ensures forall i :: 1 <= i < |matches| ==> plan[i] == Delete(matches[i].id)
  {
    if matches == [] then [Insert(doc)]
    else [Update(matches[0].id, doc)] + seq(|matches| - 1, i requires 0 <= i < |matches| - 1 => Delete(matches[i + 1].id))
  }

  /** A driver failure: `Some(k)` makes driver calls 0 to k-1 succeed and call k throw, the
      find being call 0 and the plan's writes calls 1, 2, ...; `None` is no failure. */
  type Fault = Option<nat>

  /** The writes that reach the store before the failure. */
  function WritesDone(plan: seq<Write>, fault: Fault): (done: seq<Write>)
    ensures done <= plan
    ensures UpsertSucceeds(plan, fault) ==> done == plan
    ensures fault == Some(0) ==> done == []
    ensures fault.Some? && 1 <= fault.value <= |plan| + 1 ==> done == plan[..fault.value - 1]
  {
    match fault
    case None => plan
    case Some(k) => if k == 0 then [] else if k - 1 <= |plan| then plan[..k - 1] else plan
  }

  /** Whether every driver call of the upsert succeeds. */
  predicate UpsertSucceeds(plan: seq<Write>, fault: Fault) {
    fault.None? || fault.value > |plan|
  }

  /** The status indexSingleDocument returns. */
  datatype IndexStatus = Indexed | NotIndexed(error: string)

  /** The error text the manager gives for a document it could not write or delete. */
  function DocumentErrorText(documentId: string, collection: string): string {
    "Error indexing documentId: " + documentId + " for index: " + collection
  }

  /** The text names the document: two texts for one collection are equal exactly when
      they name the same document. */
  lemma DocumentErrorTextNamesDocument(a: string, b: string, collection: string)
    ensures DocumentErrorText(a, collection) == DocumentErrorText(b, collection) <==> a == b
  {
    var pre := "Error indexing documentId: ";
    var post := " for index: " + collection;
    if DocumentErrorText(a, collection) == DocumentErrorText(b, collection) {
      assert DocumentErrorText(a, collection) == pre + a + post;
      assert DocumentErrorText(b, collection) == pre + b + post;
      assert (pre + a + post)[|pre|..|pre| + |a|] == a;
      assert (pre + b + post)[|pre|..|pre| + |b|] == b;
    }
  }

  /** The error of a failed upsert. It names the collection in the place of the document,
      as the source does, so it names the document only when the two names coincide. */
  function IndexErrorMessage(data: IndexItem): (msg: string)
    ensures msg == DocumentErrorText(data.index, data.index)
    ensures msg == DocumentErrorText(data.indexedDocumentId, data.index) <==> data.indexedDocumentId == data.index
  {
    DocumentErrorTextNamesDocument(data.index, data.indexedDocumentId, data.index);
    DocumentErrorText(data.index, data.index)
  }

  /** The collections and the status after one upsert. */
  datatype Outcome = Outcome(collections: map<string, seq<Record>>, status: IndexStatus)

  /** With at most one match the plan is the one insert or update, and doing it is one
      write to the collection. */
  lemma SingleWrite(cols: map<string, seq<Record>>, name: string, results: seq<Record>, doc: Document)
    requires |results| <= 1
    ensures var w := if |results| == 0 then Insert(doc) else Update(results[0].id, doc);
      && Plan(results, doc) == [w]
      && AfterWrites(cols, name, [w]) == cols[name := ApplyWrite(Collection(cols, name), w)]
  {
    var w := if |results| == 0 then Insert(doc) else Update(results[0].id, doc);
    AfterWritesStep(cols, name, [], w);
    assert [] + [w] == [w];
  }

  /** Write `i` of the plan for several matches updates the first match or deletes match
      `i`, and doing it extends the writes done by one. */
  lemma NextWrite(cols: map<string, seq<Record>>, name: string, results: seq<Record>, doc: Document, i: nat)
    requires i < |results|
    ensures var plan := Plan(results, doc);
      var w := if i == 0 then Update(results[i].id, doc) else Delete(results[i].id);
      var now := AfterWrites(cols, name, plan[..i]);
      && plan[i] == w
      && AfterWrites(cols, name, plan[..i + 1]) == now[name := ApplyWrite(Collection(now, name), w)]
  {
    var plan := Plan(results, doc);
    var w := if i == 0 then Update(results[i].id, doc) else Delete(results[i].id);
    assert plan[i] == w;
    assert plan[..i] + [w] == plan[..i + 1];
    AfterWritesStep(cols, name, plan[..i], w);
  }

  /** indexSingleDocument on the collections `cols`. */
  function Upsert(cols: map<string, seq<Record>>, data: IndexItem, fault: Fault): (o: Outcome)
    ensures fault == Some(0) ==> o == Outcome(cols, NotIndexed(IndexErrorMessage(data)))
    ensures fault.None? ==> o.status == Indexed
    ensures o.status == Indexed <==>
              UpsertSucceeds(Plan(Matching(Collection(cols, data.index), data.indexedDocumentId), data.document), fault)
    ensures o.collections ==
              AfterWrites(cols, data.index,
                          WritesDone(Plan(Matching(Collection(cols, data.index), data.indexedDocumentId), data.document), fault))
    ensures o.status == Indexed || o.status == NotIndexed(IndexErrorMessage(data))
    ensures o.status == Indexed ==>
              o.collections == AfterWrites(cols, data.index, Plan(Matching(Collection(cols, data.index), data.indexedDocumentId), data.document))
    ensures forall n :: n != data.index ==> Collection(o.collections, n) == Collection(cols, n)
  {
    var c := Collection(cols, data.index);
    var plan := Plan(Matching(c, data.indexedDocumentId), data.document);
    var writes := WritesDone(plan, fault);
    Outcome(AfterWrites(cols, data.index, writes),
            if UpsertSucceeds(plan, fault) then Indexed else NotIndexed(IndexErrorMessage(data)))
  }

  /** A prefix of an update plan that includes the update leaves the collection reshaped:
      the first match merged, the following matches of the prefix deleted. */
  lemma {:induction false} PlanPrefix(c: seq<Record>, key: string, doc: Document, k: nat)
    requires UniqueIds(c)
    requires 1 <= k <= |Matching(c, key)|
    ensures var m := Matching(c, key);
      ApplyWrites(c, Plan(m, doc)[..k]) == Reshape(c, m[0].id, doc, Ids(m[1..k]))
  {
    if k == 1 {
      PlanFirst(c, key, doc);
    } else {
      PlanPrefix(c, key, doc, k - 1);
      PlanStep(c, key, doc, k);
    }
  }

  /** The update alone merges the first match. */
  lemma PlanFirst(c: seq<Record>, key: string, doc: Document)
    requires UniqueIds(c)
    requires 1 <= |Matching(c, key)|
    ensures var m := Matching(c, key);
      ApplyWrites(c, Plan(m, doc)[..1]) == Reshape(c, m[0].id, doc, Ids(m[1..1]))
  {
    var m := Matching(c, key);
    var plan := Plan(m, doc);
    ApplyWritesPrefix(c, plan, 1);
    assert plan[..0] == [];
    MatchingMembers(c, key);
    assert m[0] in m;
    IdsMembers(c);
    UpdateIsReshape(c, m[0].id, doc);
    assert m[1..1] == [];
  }

  /** Each delete of the plan drops one more match. */
  lemma PlanStep(c: seq<Record>, key: string, doc: Document, k: nat)
    requires UniqueIds(c)
    requires 2 <= k <= |Matching(c, key)|
    requires var m := Matching(c, key);
      ApplyWrites(c, Plan(m, doc)[..k - 1]) == Reshape(c, m[0].id, doc, Ids(m[1..k - 1]))
    ensures var m := Matching(c, key);
      ApplyWrites(c, Plan(m, doc)[..k]) == Reshape(c, m[0].id, doc, Ids(m[1..k]))
  {
    var m := Matching(c, key);
    var plan := Plan(m, doc);
    var x := m[k - 1].id;
    var before := Reshape(c, m[0].id, doc, Ids(m[1..k - 1]));
    assert plan[k - 1] == Delete(x);
    assert ApplyWrites(c, plan[..k]) == RemoveFirst(before, x) by {
      ApplyWritesPrefix(c, plan, k);
    }
    MatchIdsStep(c, key, k);
    DeleteAfterReshape(c, m[0].id, doc, Ids(m[1..k - 1]), x);
  }

  /** The match deleted at step `k` is neither the updated one nor one deleted before. */
  lemma MatchIdsStep(c: seq<Record>, key: string, k: nat)
    requires UniqueIds(c)
    requires 2 <= k <= |Matching(c, key)|
    ensures var m := Matching(c, key);
      && m[k - 1].id != m[0].id
      && m[k - 1].id !in Ids(m[1..k - 1])
      && Ids(m[1..k]) == Ids(m[1..k - 1]) + {m[k - 1].id}
  {
    var m := Matching(c, key);
    var x := m[k - 1].id;
    var between := m[1..k - 1];
    assert m[1..k] == between + [m[k - 1]];
    IdsAppend(between, m[k - 1]);
    MatchingKeepsIdsUnique(c, key);
    UniqueAt(m, 0, k - 1);
    forall i | 0 <= i < |between|
      ensures between[i].id != x
    {
      UniqueAt(m, i + 1, k - 1);
    }
    NotInIds(between, x);
  }

  /** No record outside the matches has the `_id` of a match. */
  lemma OthersOutsidePlan(c: seq<Record>, key: string, j: nat)
    requires UniqueIds(c)
    requires 1 <= j <= |Matching(c, key)|
    ensures var m := Matching(c, key);
      forall r <- c :: !HasDocumentId(r, key) ==> r.id != m[0].id && r.id !in Ids(m[1..j])
  {
    var m := Matching(c, key);
    MatchingMembers(c, key);
    IdsMembers(m[1..j]);
    assert m[0] in m;
    forall r <- c | !HasDocumentId(r, key)
      ensures r.id != m[0].id && r.id !in Ids(m[1..j])
    {
      if r.id == m[0].id {
        SameIdSameRecord(c, r, m[0]);
      }
      if r.id in Ids(m[1..j]) {
        var r' :| r' in m[1..j] && r'.id == r.id;
        assert r' in m;
        SameIdSameRecord(c, r, r');
      }
    }
  }

  /** The dedupe: after the whole plan the collection holds exactly one record with the key,
      the first match merged with the document or the inserted document, its other records
      are as they were, and `_id`s stay unique. */
  lemma UpsertLeavesOneRecord(c: seq<Record>, key: string, doc: Document)
    requires UniqueIds(c) && CarriesDocumentId(doc, key)
    ensures var after := ApplyWrites(c, Plan(Matching(c, key), doc));
      && UniqueIds(after)
      && Others(after, key) == Others(c, key)
      && Matching(after, key) ==
           [if Matching(c, key) == [] then Record(FreshId(c), doc) else Merge(Matching(c, key)[0], doc)]
  {
    if Matching(c, key) == [] {
      UpsertInserts(c, key, doc);
    } else {
      UpsertMerges(c, key, doc);
    }
  }

  /** With no match, the plan inserts the document as a new record. */
  lemma UpsertInserts(c: seq<Record>, key: string, doc: Document)
    requires UniqueIds(c) && CarriesDocumentId(doc, key) && Matching(c, key) == []
    ensures var after := ApplyWrites(c, Plan(Matching(c, key), doc));
      && UniqueIds(after)
      && Others(after, key) == Others(c, key)
      && Matching(after, key) == [Record(FreshId(c), doc)]
  {
    var r := Record(FreshId(c), doc);
    var plan := Plan(Matching(c, key), doc);
    assert plan[..0] == [];
    assert ApplyWrites(c, plan) == c + [r];
    MatchingAppend(c, r, key);
    OthersAppend(c, r, key);
    AppendKeepsIdsUnique(c, r);
  }

  /** With matches, the plan merges the first and deletes the others. */
  lemma UpsertMerges(c: seq<Record>, key: string, doc: Document)
    requires UniqueIds(c) && CarriesDocumentId(doc, key) && Matching(c, key) != []
    ensures var after := ApplyWrites(c, Plan(Matching(c, key), doc));
      && UniqueIds(after)
      && Others(after, key) == Others(c, key)
      && Matching(after, key) == [Merge(Matching(c, key)[0], doc)]
  {
    var m := Matching(c, key);
    var plan := Plan(m, doc);
    var d := Ids(m[1..]);
    assert ApplyWrites(c, plan) == Reshape(c, m[0].id, doc, d) by {
      PlanPrefix(c, key, doc, |m|);
      assert |plan| == |m|;
      assert plan[..|m|] == plan;
      assert m[1..|m|] == m[1..];
    }
    MergedMatch(c, key, doc);
    MergedOthers(c, key, doc);
    ReshapeKeepsIdsUnique(c, m[0].id, doc, d);
  }

  /** The update and the deletes leave the records without the key as they were. */
  lemma MergedOthers(c: seq<Record>, key: string, doc: Document)
    requires UniqueIds(c) && CarriesDocumentId(doc, key) && Matching(c, key) != []
    ensures var m := Matching(c, key);
      Others(Reshape(c, m[0].id, doc, Ids(m[1..])), key) == Others(c, key)
  {
    var m := Matching(c, key);
    OthersOutsidePlan(c, key, |m|);
    assert m[1..|m|] == m[1..];
    OthersReshape(c, key, m[0].id, doc, Ids(m[1..]));
  }

  /** After the update and the deletes, the merged first match is the only match. */
  lemma MergedMatch(c: seq<Record>, key: string, doc: Document)
    requires UniqueIds(c) && CarriesDocumentId(doc, key) && Matching(c, key) != []
    ensures var m := Matching(c, key);
      Matching(Reshape(c, m[0].id, doc, Ids(m[1..])), key) == [Merge(m[0], doc)]
  {
    var m := Matching(c, key);
    MatchesCovered(c, key);
    assert m[0] in c by {
      MatchingMembers(c, key);
      assert m[0] in m;
    }
    MatchingReshape(c, key, m[0], doc, Ids(m[1..]));
  }

  /** Every matching record is the first match or one of the others, whose `_id`s differ
      from the first's. */
  lemma MatchesCovered(c: seq<Record>, key: string)
    requires UniqueIds(c) && Matching(c, key) != []
    ensures var m := Matching(c, key);
      && m[0].id !in Ids(m[1..])
      && forall r <- c :: HasDocumentId(r, key) ==> r.id == m[0].id || r.id in Ids(m[1..])
  {
    var m := Matching(c, key);
    MatchingKeepsIdsUnique(c, key);
    MatchingMembers(c, key);
    IdsMembers(m[1..]);
    forall r <- c | HasDocumentId(r, key)
      ensures r.id == m[0].id || r.id in Ids(m[1..])
    {
      var i :| 0 <= i < |m| && m[i] == r;
      if i > 0 {
        assert r in m[1..];
      }
    }
  }

  /** Upserting the same document twice leaves the collection as the first upsert left it. */
  lemma UpsertTwice(c: seq<Record>, key: string, doc: Document)
    requires UniqueIds(c) && CarriesDocumentId(doc, key)
    ensures var once := ApplyWrites(c, Plan(Matching(c, key), doc));
      ApplyWrites(once, Plan(Matching(once, key), doc)) == once
  {
    var once := ApplyWrites(c, Plan(Matching(c, key), doc));
    UpsertSettles(c, key, doc);
    var m1 := Matching(once, key)[0];
    assert Plan(Matching(once, key), doc) == [Update(m1.id, doc)];
    UpdateFixed(once, m1, doc);
  }

  /** After one upsert the single record with the key already holds the document's fields. */
  lemma UpsertSettles(c: seq<Record>, key: string, doc: Document)
    requires UniqueIds(c) && CarriesDocumentId(doc, key)
    ensures var once := ApplyWrites(c, Plan(Matching(c, key), doc));
      && UniqueIds(once)
      && |Matching(once, key)| == 1
      && Matching(once, key)[0] in once
      && Merge(Matching(once, key)[0], doc) == Matching(once, key)[0]
  {
    var once := ApplyWrites(c, Plan(Matching(c, key), doc));
    UpsertLeavesOneRecord(c, key, doc);
    var m1 := Matching(once, key)[0];
    if Matching(c, key) == [] {
      MergeOwnFields(FreshId(c), doc);
    } else {
      MergeTwice(Matching(c, key)[0], doc);
    }
    assert m1 in once by {
      MatchingMembers(once, key);
      assert m1 in Matching(once, key);
    }
  }

  lemma UpdateFixed(c: seq<Record>, r: Record, doc: Document)
    requires UniqueIds(c) && r in c && Merge(r, doc) == r
    ensures ApplyWrites(c, [Update(r.id, doc)]) == c
  {
    assert [Update(r.id, doc)][..0] == [];
    IdsMembers(c);
    UpdateIsReshape(c, r.id, doc);
    forall r' <- c | r'.id == r.id
      ensures Merge(r', doc) == r'
    {
      SameIdSameRecord(c, r', r);
    }
    ReshapeFixed(c, r.id, doc);
  }

  /** A successful upsert, on the collections: exactly one record with the key, holding the
      document's fields; every other record and every other collection as before. */
  lemma UpsertDedupes(cols: map<string, seq<Record>>, data: IndexItem)
    requires UniqueIds(Collection(cols, data.index))
    requires CarriesDocumentId(data.document, data.indexedDocumentId)
    ensures var o := Upsert(cols, data, None);
      var before := Collection(cols, data.index);
      var after := Collection(o.collections, data.index);
      && o.status == Indexed
      && |Matching(after, data.indexedDocumentId)| == 1
      && (forall f <- data.document :: f in Matching(after, data.indexedDocumentId)[0].doc
                                        && Matching(after, data.indexedDocumentId)[0].doc[f] == data.document[f])
      && Others(after, data.indexedDocumentId) == Others(before, data.indexedDocumentId)
      && UniqueIds(after)
      && (forall n :: n != data.index ==> Collection(o.collections, n) == Collection(cols, n))
  {
    UpsertLeavesOneRecord(Collection(cols, data.index), data.indexedDocumentId, data.document);
  }

  /** Whatever driver call fails, records with another key, other collections and the
      uniqueness of `_id`s are untouched. */
  lemma UpsertKeepsOthers(cols: map<string, seq<Record>>, data: IndexItem, fault: Fault)
    requires UniqueIds(Collection(cols, data.index))
    requires CarriesDocumentId(data.document, data.indexedDocumentId)
    ensures var o := Upsert(cols, data, fault);
      var after := Collection(o.collections, data.index);
      && Others(after, data.indexedDocumentId) == Others(Collection(cols, data.index), data.indexedDocumentId)
      && UniqueIds(after)
      && (forall n :: n != data.index ==> Collection(o.collections, n) == Collection(cols, n))
  {
    var c := Collection(cols, data.index);
    var key := data.indexedDocumentId;
    var m := Matching(c, key);
    var plan := Plan(m, data.document);
    var writes := WritesDone(plan, fault);
    if writes == plan {
      UpsertLeavesOneRecord(c, key, data.document);
    } else if writes != [] {
      var j := |writes|;
      assert m != [];
      assert writes == plan[..j];
      PlanPrefix(c, key, data.document, j);
      OthersOutsidePlan(c, key, j);
      OthersReshape(c, key, m[0].id, data.document, Ids(m[1..j]));
      ReshapeKeepsIdsUnique(c, m[0].id, data.document, Ids(m[1..j]));
    }
  }

  // ---------------------------------------------------------------- the batch

  /** The fault of the `i`th document of a batch; documents beyond the list see none. */
  function FaultAt(faults: seq<Fault>, i: nat): Fault {
    if i < |faults| then faults[i] else None
  }

  /** The collections and statuses after upserting a batch in order. */
  datatype BatchOutcome = BatchOutcome(collections: map<string, seq<Record>>, statuses: seq<IndexStatus>)

  /** indexDocuments on the collections `cols`. */
  function RunBatch(cols: map<string, seq<Record>>, items: seq<IndexItem>, faults: seq<Fault>): (o: BatchOutcome)
    ensures |o.statuses| == |items|
  {
    if items == [] then BatchOutcome(cols, [])
    else
      var before := RunBatch(cols, items[..|items| - 1], faults);
      var step := Upsert(before.collections, items[|items| - 1], FaultAt(faults, |items| - 1));
      BatchOutcome(step.collections, before.statuses + [step.status])
  }

  /** The counts indexDocuments returns. */
  datatype Tally = Tally(documentCount: nat, successCount: nat, errors: seq<string>)

  /** The tally of a list of statuses: every status is one success or one error, and the
      errors keep the order of their documents. */
  function TallyOf(statuses: seq<IndexStatus>): (t: Tally)
    ensures t.documentCount == |statuses|
    ensures t.successCount + |t.errors| == |statuses|
    ensures forall e <- t.errors :: NotIndexed(e) in statuses
  {
    if statuses == [] then Tally(0, 0, [])
    else
      var t := TallyOf(statuses[..|statuses| - 1]);
      assert forall s <- statuses[..|statuses| - 1] :: s in statuses;
      match statuses[|statuses| - 1]
      case Indexed => Tally(|statuses|, t.successCount + 1, t.errors)
      case NotIndexed(e) => Tally(|statuses|, t.successCount, t.errors + [e])
  }
  /** The errors of the failed statuses, in the order of their documents. */
  function FailedErrors(statuses: seq<IndexStatus>): seq<string>
  {
    if statuses == [] then []
    else (if statuses[0].NotIndexed? then [statuses[0].error] else []) + FailedErrors(statuses[1..])
  }

  /** The number of indexed statuses. */
  function IndexedCount(statuses: seq<IndexStatus>): nat
  {
    if statuses == [] then 0
    else (if statuses[0].Indexed? then 1 else 0) + IndexedCount(statuses[1..])
  }

  /** A status appended last adds its error, if any, after the others. */
  lemma {:induction false} FailedErrorsAppend(statuses: seq<IndexStatus>, s: IndexStatus)
    ensures FailedErrors(statuses + [s]) == FailedErrors(statuses) + (if s.NotIndexed? then [s.error] else [])
    ensures IndexedCount(statuses + [s]) == IndexedCount(statuses) + (if s.Indexed? then 1 else 0)
  {
    if statuses != [] {
      FailedErrorsAppend(statuses[1..], s);
      assert (statuses + [s])[1..] == statuses[1..] + [s];
    } else {
      assert [] + [s] == [s];
    }
  }

  /** The tally counts every status, counts exactly the indexed ones as successes, and
      lists exactly the errors of the failed ones, in the order of their documents. */
  lemma {:induction false} TallyCounts(statuses: seq<IndexStatus>)
    ensures TallyOf(statuses) == Tally(|statuses|, IndexedCount(statuses), FailedErrors(statuses))
  {
    if statuses != [] {
      var init := statuses[..|statuses| - 1];
      TallyCounts(init);
      FailedErrorsAppend(init, statuses[|statuses| - 1]);
      assert init + [statuses[|statuses| - 1]] == statuses;
    }
  }

  /** Dropping a batch's last item keeps the status of every other item. */
  lemma {:induction false} RunBatchLast(cols: map<string, seq<Record>>, items: seq<IndexItem>, faults: seq<Fault>, i: nat)
    requires i + 1 < |items|
    ensures RunBatch(cols, items, faults).statuses[i] == RunBatch(cols, items[..|items| - 1], faults).statuses[i]
  {
  }

  /** One document's failure does not stop the batch: whatever the other items' faults,
      an item without a fault is indexed, an item whose `find` fails gets its own error, and
      every item is either indexed or gets its own error. */
  lemma {:induction false} BatchItemStatus(cols: map<string, seq<Record>>, items: seq<IndexItem>, faults: seq<Fault>, i: nat)
    requires i < |items|
    ensures FaultAt(faults, i).None? ==> RunBatch(cols, items, faults).statuses[i] == Indexed
    ensures FaultAt(faults, i) == Some(0) ==>
              RunBatch(cols, items, faults).statuses[i] == NotIndexed(IndexErrorMessage(items[i]))
    ensures RunBatch(cols, items, faults).statuses[i] in {Indexed, NotIndexed(IndexErrorMessage(items[i]))}
    decreases |items|
  {
    if i + 1 < |items| {
      var init := items[..|items| - 1];
      RunBatchLast(cols, items, faults, i);
      BatchItemStatus(cols, init, faults, i);
      assert init[i] == items[i];
    }
  }

  /** The batch over one more item is the batch so far followed by that item's upsert. */
  lemma RunBatchStep(cols: map<string, seq<Record>>, items: seq<IndexItem>, faults: seq<Fault>, i: nat)
    requires i < |items|
    ensures var before := RunBatch(cols, items[..i], faults);
      var step := Upsert(before.collections, items[i], FaultAt(faults, i));
      RunBatch(cols, items[..i + 1], faults) == BatchOutcome(step.collections, before.statuses + [step.status])
  {
    assert items[..i + 1][..i] == items[..i];
  }

  /** One more status adds one document and either one success or its error, last. */
  lemma TallyStep(statuses: seq<IndexStatus>, s: IndexStatus)
    ensures var t := TallyOf(statuses);
      TallyOf(statuses + [s]) ==
        if s.Indexed? then Tally(|statuses| + 1, t.successCount + 1, t.errors)
        else Tally(|statuses| + 1, t.successCount, t.errors + [s.error])
  {
    assert (statuses + [s])[..|statuses|] == statuses;
  }


  /** Without driver failures every document of a batch is indexed and the tally has no
      error. */
  lemma {:induction false} BatchWithoutFaults(cols: map<string, seq<Record>>, items: seq<IndexItem>)
    ensures var statuses := RunBatch(cols, items, []).statuses;
      TallyOf(statuses) == Tally(|items|, |items|, [])
  {
    if items != [] {
      BatchWithoutFaults(cols, items[..|items| - 1]);
      var statuses := RunBatch(cols, items, []).statuses;
      assert statuses[..|statuses| - 1] == RunBatch(cols, items[..|items| - 1], []).statuses;
    }
  }

  /** Uniqueness of `_id`s in every collection, which the store guarantees. */
  predicate AllIdsUnique(cols: map<string, seq<Record>>) {
    forall n <- cols :: UniqueIds(cols[n])
  }

  /** A batch keeps `_id`s unique in every collection, whatever fails. */
  lemma {:induction false} BatchKeepsIdsUnique(cols: map<string, seq<Record>>, items: seq<IndexItem>, faults: seq<Fault>)
    requires AllIdsUnique(cols)
    ensures AllIdsUnique(RunBatch(cols, items, faults).collections)
  {
    if items != [] {
      BatchKeepsIdsUnique(cols, items[..|items| - 1], faults);
      UpsertKeepsAllIdsUnique(RunBatch(cols, items[..|items| - 1], faults).collections,
                              items[|items| - 1], FaultAt(faults, |items| - 1));
    }
  }

  /** One upsert keeps `_id`s unique in every collection, whatever fails. */
  lemma UpsertKeepsAllIdsUnique(cols: map<string, seq<Record>>, data: IndexItem, fault: Fault)
    requires AllIdsUnique(cols)
    ensures AllIdsUnique(Upsert(cols, data, fault).collections)
  {
    var c := Collection(cols, data.index);
    var plan := Plan(Matching(c, data.indexedDocumentId), data.document);
    WritesKeepIdsUnique(c, WritesDone(plan, fault));
  }

  // ---------------------------------------------------------------- deletion

  /** What deleteDocument returns. */
  datatype DeleteResult = DeleteResult(status: string, error: Option<string>)

  /** The status of deleteDocument: OK when deleteMany succeeded or when failures are to be
      ignored, otherwise BAD with an error naming the key and the collection. */
  function DeleteStatus(failed: bool, ignoreNotFound: Option<bool>, indexedDocumentId: string, collection: string): (r: DeleteResult)
    ensures r.status == "OK" <==> !failed || ignoreNotFound == Some(true)
    ensures r.status == "OK" || r.status == "BAD"
    ensures r.error.Some? <==> r.status == "BAD"
    ensures r.error.Some? ==> r.error.value == DocumentErrorText(indexedDocumentId, collection)
  {
    if !failed || ignoreNotFound == Some(true) then DeleteResult("OK", None)
    else DeleteResult("BAD", Some(DocumentErrorText(indexedDocumentId, collection)))
  }

  // ---------------------------------------------------------------- the Atlas API

  /** The response carried by a failed request: its status and the `detail` of its body. */
  datatype ErrorResponse = ErrorResponse(status: int, detail: Option<string>)

  /** How an Atlas API request ended: with a response whose `data` is returned, with no
      response value, or rejected with or without a response. */
  datatype HttpOutcome<T> = Returned(data: T) | NoResponse | Rejected(response: Option<ErrorResponse>)

  /** The error object the manager throws. */
  datatype ApiError = ApiError(code: int, error: string)

  const BadRequestMessage := "Bad Mongodb Atlas Search API Request"
  const CommunicationFailureMessage := "Communication Failure with Atlas Search API"
  const NotFoundMessage := "Mongodb Atlas Search API Request Not Found Error"
  const FailedMessage := "Failed to communicate with Mongo Atlas Search API"

  /** performRequest: the data of a response, or the error its failure maps to. */
  function PerformRequest<T>(outcome: HttpOutcome<T>): (r: Result<T, ApiError>)
    ensures r.Success? <==> outcome.Returned?
    ensures r.Success? ==> r.value == outcome.data
    ensures r.Failure? ==> r.error.code == 400 || r.error.code == 500
    ensures r.Failure? && r.error.code == 400 <==>
      outcome.Rejected? && outcome.response.Some? && outcome.response.value.status in {400, 404, 500}
    ensures outcome == Rejected(Some(ErrorResponse(400, None))) ==> r == Failure(ApiError(400, BadRequestMessage))
    ensures forall d :: outcome == Rejected(Some(ErrorResponse(400, Some(d)))) ==>
      r == Failure(ApiError(400, if d == "" then BadRequestMessage else d))
    ensures forall d :: outcome == Rejected(Some(ErrorResponse(500, d))) ==> r == Failure(ApiError(400, CommunicationFailureMessage))
    ensures forall d :: outcome == Rejected(Some(ErrorResponse(404, d))) ==> r == Failure(ApiError(400, NotFoundMessage))
    ensures r.Failure? && r.error.code == 500 ==> r.error.error == FailedMessage
  {
    match outcome
    case Returned(data) => Success(data)
    case NoResponse => Failure(ApiError(500, FailedMessage))
    case Rejected(None) => Failure(ApiError(500, FailedMessage))
    case Rejected(Some(response)) =>
      if response.status == 400 then
        if response.detail.Some? && response.detail.value != "" then Failure(ApiError(400, response.detail.value))
        else Failure(ApiError(400, BadRequestMessage))
      else if response.status == 500 then Failure(ApiError(400, CommunicationFailureMessage))
      else if response.status == 404 then Failure(ApiError(400, NotFoundMessage))
      else Failure(ApiError(500, FailedMessage))
  }

  /** An entry of the Atlas list of search indexes. */
  datatype IndexDescriptor = IndexDescriptor(name: string, indexID: string)

  /** The id of the first listed index called `name`, if any. */
  function FindIndexId(indexes: seq<IndexDescriptor>, name: string): (id: Option<string>)
    ensures id.None? <==> forall i :: 0 <= i < |indexes| ==> indexes[i].name != name
    ensures id.Some? ==> exists i :: 0 <= i < |indexes| && indexes[i].name == name && id.value == indexes[i].indexID
                                  && forall j :: 0 <= j < i ==> indexes[j].name != name
  {
    if indexes == [] then None
    else if indexes[0].name == name then Some(indexes[0].indexID)
    else
      var id := FindIndexId(indexes[1..], name);
      assert id.Some? ==> exists i :: 1 <= i < |indexes| && indexes[i].name == name && id.value == indexes[i].indexID
                                   && forall j :: 0 <= j < i ==> indexes[j].name != name by {
        if id.Some? {
          var i :| 0 <= i < |indexes[1..]| && indexes[1..][i].name == name && id.value == indexes[1..][i].indexID
                   && forall j :: 0 <= j < i ==> indexes[1..][j].name != name;
          assert indexes[i + 1].name == name && forall j :: 0 <= j < i + 1 ==> indexes[j].name != name;
        }
      }
      id
  }

  /** findIndexByIndexName: the id of the index, given the answer to the listing request. */
  function FindIndexByIndexName(listing: HttpOutcome<seq<IndexDescriptor>>, name: string): (r: Result<Option<string>, ApiError>)
    ensures r.Failure? <==> !listing.Returned?
    ensures r.Failure? ==> r.error == PerformRequest(listing).error
    ensures r.Success? ==> r.value == FindIndexId(listing.data, name)
  {
    match PerformRequest(listing)
    case Failure(e) => Failure(e)
    case Success(indexes) => if |indexes| > 0 then Success(FindIndexId(indexes, name)) else Success(None)
  }

  /** deleteIndex: `Success(Some(id))` when the index `id` was deleted, `Success(None)` when
      no index with a non-empty id is called `name`, in which case no request is issued. */
  function DeleteIndex(listing: HttpOutcome<seq<IndexDescriptor>>, name: string, deletion: HttpOutcome<bool>): (r: Result<Option<string>, ApiError>)
    ensures var found := FindIndexByIndexName(listing, name);
      && (found.Failure? ==> r == Failure(found.error))
      && (found.Success? && (found.value.None? || found.value.value == "") ==> r == Success(None))
      && (found.Success? && found.value.Some? && found.value.value != "" ==>
            r == (if deletion.Returned? then Success(found.value) else Failure(PerformRequest(deletion).error)))
  {
    match FindIndexByIndexName(listing, name)
    case Failure(e) => Failure(e)
    case Success(id) =>
      if id.None? || id.value == "" then Success(None)
      else match PerformRequest(deletion)
        case Failure(e) => Failure(e)
        case Success(_) => Success(id)
  }

  // ---------------------------------------------------------------- the manager object

  /** The manager with its memoised database handle. */
  class AtlasSearchManager {
    var database: Database?

    constructor ()
      ensures database == null
    {
      database := null;
    }

    /** The handle connect returns: the stored one, else the freshly connected one. */
    function Handle(connected: Database): Database
      reads this
    {
      if database == null then connected else database
    }

    /** connect: opens a connection only when none is stored, and returns the stored one. */
    method Connect(connected: Database) returns (db: Database)
      modifies this
      ensures db == old(Handle(connected)) && database == db
    {
      if database == null {
        database := connected;
      }
      db := database;
    }

    /** indexSingleDocument: find the records with the key, then insert, update, or update the
        first and delete the others; any failing driver call gives the error status. */
    method IndexSingleDocument(connection: Database, data: IndexItem, fault: Fault) returns (status: IndexStatus)
      modifies connection
      ensures Outcome(connection.collections, status) == Upsert(old(connection.collections), data, fault)
    {
      ghost var cols0 := connection.collections;
      var ok := false;
      if fault != Some(0) {
        var results := connection.Find(data.index, data.indexedDocumentId);
        if |results| <= 1 {
          ok := WriteSingle(connection, data.index, results, data.document, fault);
        } else {
          ok := UpdateFirstDeleteRest(connection, data.index, results, data.document, fault);
        }
      }
      status := if ok then Indexed else NotIndexed(IndexErrorMessage(data));
    }

    /** indexSingleDocument with at most one match: insert the document, or update the match. */
    method WriteSingle(connection: Database, name: string, results: seq<Record>, doc: Document, fault: Fault)
      returns (ok: bool)
      requires |results| <= 1
      requires fault.None? || fault.value >= 1
      modifies connection
      ensures var plan := Plan(results, doc);
        && ok == UpsertSucceeds(plan, fault)
        && connection.collections == AfterWrites(old(connection.collections), name, WritesDone(plan, fault))
    {
      if fault == Some(1) {
        return false;
      }
      var w := if |results| == 0 then Insert(doc) else Update(results[0].id, doc);
      SingleWrite(connection.collections, name, results, doc);
      assert WritesDone(Plan(results, doc), fault) == [w];
      connection.Perform(name, w);
      return true;
    }

    /** The loop of indexSingleDocument over several matches: update the first, delete each
        other; it stops at the first failing driver call. */
    method UpdateFirstDeleteRest(connection: Database, name: string, results: seq<Record>, doc: Document, fault: Fault)
      returns (ok: bool)
      requires |results| >= 2
      requires fault.None? || fault.value >= 1
      modifies connection
      ensures var plan := Plan(results, doc);
        && ok == UpsertSucceeds(plan, fault)
        && connection.collections == AfterWrites(old(connection.collections), name, WritesDone(plan, fault))
    {
      ghost var cols0 := connection.collections;
      ghost var plan := Plan(results, doc);
      var ii := 0;
      while ii < |results|
        invariant 0 <= ii <= |results|
        invariant fault.None? || fault.value > ii
        invariant connection.collections == AfterWrites(cols0, name, plan[..ii])
      {
        if fault == Some(ii + 1) {
          return false;
        }
        PerformNext(connection, cols0, name, results, doc, ii);
        ii := ii + 1;
      }
      assert plan[..ii] == plan;
      return true;
    }

    /** Driver call `i + 1` of the loop over several matches: the update of the first match,
        or the deletion of match `i`. */
    method PerformNext(connection: Database, ghost cols0: map<string, seq<Record>>, name: string,
                       results: seq<Record>, doc: Document, i: nat)
      requires i < |results|
      requires connection.collections == AfterWrites(cols0, name, Plan(results, doc)[..i])
      modifies connection
      ensures connection.collections == AfterWrites(cols0, name, Plan(results, doc)[..i + 1])
    {
      var w := if i == 0 then Update(results[i].id, doc) else Delete(results[i].id);
      NextWrite(cols0, name, results, doc, i);
      connection.Perform(name, w);
    }

    /** indexDocuments: upsert every document in order, counting successes and collecting
        errors. */
    method IndexDocuments(dataSet: seq<IndexItem>, connected: Database, faults: seq<Fault>) returns (tally: Tally)
      modifies this, connected, database
      ensures database == old(Handle(connected))
      ensures var o := RunBatch(old(Handle(connected).collections), dataSet, faults);
        database.collections == o.collections && tally == TallyOf(o.statuses)
      ensures connected != database ==> unchanged(connected)
    {
      var connection := Connect(connected);
      ghost var start := connection.collections;
      var errors: seq<string> := [];
      var successCount := 0;
      ghost var statuses: seq<IndexStatus> := [];
      var ii := 0;
      while ii < |dataSet|
        modifies connection
        invariant 0 <= ii <= |dataSet|
        invariant database == connection
        invariant RunBatch(start, dataSet[..ii], faults) == BatchOutcome(connection.collections, statuses)
        invariant TallyOf(statuses) == Tally(ii, successCount, errors)
      {
        var data := dataSet[ii];
        RunBatchStep(start, dataSet, faults, ii);
        TallyStep(statuses, Indexed);
        TallyStep(statuses, NotIndexed(IndexErrorMessage(data)));
        var result := IndexSingleDocument(connection, data, FaultAt(faults, ii));
        statuses := statuses + [result];
        if result.NotIndexed? {
          errors := errors + [result.error];
        } else {
          successCount := successCount + 1;
        }
        ii := ii + 1;
      }
      assert dataSet[..ii] == dataSet;
      tally := Tally(|dataSet|, successCount, errors);
    }

    /** bulkIndex: nothing for an absent or empty list; otherwise prepare every document and
        index the batch. The tally is what bulkIndex reports. */
    method BulkIndex(documents: Option<seq<PreparedDocument>>, connected: Database, faults: seq<Fault>) returns (tally: Option<Tally>)
      modifies this, connected, database
      ensures documents.None? || documents.value == [] ==>
        tally.None? && database == old(database) && unchanged(connected) && (database != null ==> unchanged(database))
      ensures documents.Some? && documents.value != [] ==>
        var o := RunBatch(old(Handle(connected).collections), Prepared(documents.value), faults);
        && database == old(Handle(connected))
        && database.collections == o.collections
        && tally == Some(TallyOf(o.statuses))
        && (connected != database ==> unchanged(connected))
    {
      if documents.None? || |documents.value| == 0 {
        return None;
      }
      var pending := PrepareBatch(documents.value);
      var t := IndexDocuments(pending, connected, faults);
      tally := Some(t);
    }

    /** deleteDocument: `deleteMany` of every record with the key; `failed` is whether the
        driver call threw, in which case the collection is left as it was. */
    method DeleteDocument(connection: Database, collection: string, indexedDocumentId: string,
                          ignoreNotFound: Option<bool>, failed: bool) returns (result: DeleteResult)
      modifies connection
      ensures result == DeleteStatus(failed, ignoreNotFound, indexedDocumentId, collection)
      ensures connection.collections ==
        if failed then old(connection.collections)
        else old(connection.collections)[collection := Others(old(connection.Get(collection)), indexedDocumentId)]
    {
      if !failed {
        connection.DeleteMany(collection, indexedDocumentId);
        return DeleteResult("OK", None);
      }
      if ignoreNotFound == Some(true) {
        return DeleteResult("OK", None);
      }
      result := DeleteResult("BAD", Some("Error indexing documentId: " + indexedDocumentId + " for index: " + collection));
    }

    /** deleteIndexedDocument: connect, then deleteDocument on the collection named by the
        index. */
    method DeleteIndexedDocument(indexName: string, indexedDocumentId: string, ignoreNotFound: Option<bool>,
                                 connected: Database, failed: bool) returns (result: DeleteResult)
      modifies this, connected, database
      ensures database == old(Handle(connected))
      ensures result == DeleteStatus(failed, ignoreNotFound, indexedDocumentId, indexName)
      ensures database.collections ==
        if failed then old(Handle(connected).collections)
        else old(Handle(connected).collections)[indexName := Others(Collection(old(Handle(connected).collections), indexName), indexedDocumentId)]
      ensures connected != database ==> unchanged(connected)
    {
      var connection := Connect(connected);
      result := DeleteDocument(connection, indexName, indexedDocumentId, ignoreNotFound, failed);
    }
  }
}
