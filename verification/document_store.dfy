/** An in-memory stand-in for the MongoDB database the manager writes to: named collections
    of records, each record the `_id` the store gave it and the document's fields. The
    driver calls the manager makes (`find`, `insertOne`, `updateOne`, `deleteOne`,
    `deleteMany`) are modelled as functions on a collection. */
module DocumentStore {
  import opened Documents

  /** A stored record: its `_id` and its fields. */
  datatype Record = Record(id: nat, doc: Document)

  /** The field the manager deduplicates on. */
  const DocumentIdField := "indexedDocumentId"

  /** Whether the record's `indexedDocumentId` field is the string `key`. */
  predicate HasDocumentId(r: Record, key: string) {
    DocumentIdField in r.doc && r.doc[DocumentIdField] == Str(key)
  }

  /** Whether the document sets `indexedDocumentId` to `key`. */
  predicate CarriesDocumentId(doc: Document, key: string) {
    DocumentIdField in doc && doc[DocumentIdField] == Str(key)
  }

  /** `find({indexedDocumentId: key})`: the matching records, in collection order. */
  function Matching(c: seq<Record>, key: string): (m: seq<Record>)
    ensures |m| <= |c|
  {
    if c == [] then []
    else (if HasDocumentId(c[0], key) then [c[0]] else []) + Matching(c[1..], key)
  }

  /** The records a find returns are exactly the collection's records that match. */
  lemma {:induction false} MatchingMembers(c: seq<Record>, key: string)
    ensures forall r :: r in Matching(c, key) <==> r in c && HasDocumentId(r, key)
  {
    if c != [] {
      MatchingMembers(c[1..], key);
      assert forall r :: r in c <==> r == c[0] || r in c[1..];
    }
  }

  /** The records that do not match `key`, in collection order; also what
      `deleteMany({indexedDocumentId: key})` leaves. */
  function Others(c: seq<Record>, key: string): (o: seq<Record>)
    ensures |o| <= |c|
  {
    if c == [] then []
    else (if HasDocumentId(c[0], key) then [] else [c[0]]) + Others(c[1..], key)
  }

  /** The records kept by a deletion on `key` are exactly the records that do not match. */
  lemma {:induction false} OthersMembers(c: seq<Record>, key: string)
    ensures forall r :: r in Others(c, key) <==> r in c && !HasDocumentId(r, key)
  {
    if c != [] {
      OthersMembers(c[1..], key);
      assert forall r :: r in c <==> r == c[0] || r in c[1..];
    }
  }

  /** The `_id`s present in a collection. */
  function Ids(c: seq<Record>): set<nat>
  {
    if c == [] then {} else {c[0].id} + Ids(c[1..])
  }

  /** The `_id`s of a collection are exactly those of its records. */
  lemma {:induction false} IdsMembers(c: seq<Record>)
    ensures forall r <- c :: r.id in Ids(c)
    ensures forall id <- Ids(c) :: exists r <- c :: r.id == id
  {
    if c != [] {
      IdsMembers(c[1..]);
      assert forall r :: r in c <==> r == c[0] || r in c[1..];
    }
  }

  /** No two records share an `_id` (MongoDB's unique index on `_id`). */
  predicate UniqueIds(c: seq<Record>) {
    c == [] || (c[0].id !in Ids(c[1..]) && UniqueIds(c[1..]))
  }

  /** An `_id` above every `_id` of the collection: what the store assigns on insert. */
  function FreshId(c: seq<Record>): (id: nat)
    ensures forall r <- c :: r.id < id
    ensures id !in Ids(c)
  {
    IdsMembers(c);
    if c == [] then 0
    else
      var m := FreshId(c[1..]);
      assert forall r <- c :: r == c[0] || r in c[1..];
      if c[0].id + 1 > m then c[0].id + 1 else m
  }

  /** A write the manager asks the driver for. */
  datatype Write =
    | Insert(doc: Document)               // insertOne(doc)
    | Update(id: nat, fields: Document)   // updateOne({_id: id}, {$set: fields}, {upsert: true})
    | Delete(id: nat)                     // deleteOne({_id: id})

  /** `$set`: the given fields overwrite or join the record's. */
  function Merge(r: Record, fields: Document): (m: Record)
    ensures m.id == r.id
    ensures forall f <- fields :: f in m.doc && m.doc[f] == fields[f]
    ensures forall f <- r.doc :: f !in fields ==> f in m.doc && m.doc[f] == r.doc[f]
    ensures m.doc.Keys == r.doc.Keys + fields.Keys
  {
    Record(r.id, r.doc + fields)
  }

  /** Merging the same fields twice is merging them once. */
  lemma MergeTwice(r: Record, fields: Document)
    ensures Merge(Merge(r, fields), fields) == Merge(r, fields)
  {
    assert (r.doc + fields) + fields == r.doc + fields;
  }

  /** Merging a record's own fields into it changes nothing. */
  lemma MergeOwnFields(id: nat, fields: Document)
    ensures Merge(Record(id, fields), fields) == Record(id, fields)
  {
    assert fields + fields == fields;
  }

  /** The collection with its first record of `_id` `id` merged with `fields`. */
  function MergeFirst(c: seq<Record>, id: nat, fields: Document): seq<Record>
  {
    if c == [] then []
    else if c[0].id == id then [Merge(c[0], fields)] + c[1..]
    else [c[0]] + MergeFirst(c[1..], id, fields)
  }

  /** The collection without its first record of `_id` `id`. */
  function RemoveFirst(c: seq<Record>, id: nat): seq<Record>
  {
    if c == [] then []
    else if c[0].id == id then c[1..]
    else [c[0]] + RemoveFirst(c[1..], id)
  }

  /** The collection after one write. An update whose `_id` is absent inserts a record with
      that `_id` (the `upsert: true` option). */
  function ApplyWrite(c: seq<Record>, w: Write): (r: seq<Record>)
    ensures w.Insert? ==> |r| == |c| + 1 && c < r && r[|c|] == Record(r[|c|].id, w.doc) && r[|c|].id !in Ids(c)
    ensures w.Update? && w.id in Ids(c) ==> |r| == |c| && Ids(r) == Ids(c)
    ensures w.Update? && w.id in Ids(c) ==>
              r == c[IdIndex(c, w.id) := Merge(c[IdIndex(c, w.id)], w.fields)]
    ensures w.Update? && w.id !in Ids(c) ==> r == c + [Record(w.id, w.fields)]
    ensures w.Delete? && w.id in Ids(c) ==> |r| == |c| - 1
    ensures w.Delete? && w.id in Ids(c) ==> r == c[..IdIndex(c, w.id)] + c[IdIndex(c, w.id) + 1..]
    ensures w.Delete? && w.id !in Ids(c) ==> r == c
  {
    match w
    case Insert(doc) => c + [Record(FreshId(c), doc)]
    case Update(id, fields) =>
      MergeFirstShape(c, id, fields);
      if id in Ids(c) then MergeFirst(c, id, fields) else c + [Record(id, fields)]
    case Delete(id) =>
      RemoveFirstShape(c, id);
      RemoveFirst(c, id)
  }

  /** The position of the first record with `_id` `id`. */
  function IdIndex(c: seq<Record>, id: nat): (i: nat)
    requires id in Ids(c)
    ensures i < |c| && c[i].id == id
    ensures forall j :: 0 <= j < i ==> c[j].id != id
  {
    if c[0].id == id then 0
    else
      var k := IdIndex(c[1..], id);
      assert forall j :: 1 <= j < k + 1 ==> c[j] == c[1..][j - 1];
      k + 1
  }

  /** MergeFirst keeps the length and the `_id`s of the collection. */
  lemma {:induction false} MergeFirstShape(c: seq<Record>, id: nat, fields: Document)
    ensures |MergeFirst(c, id, fields)| == |c| && Ids(MergeFirst(c, id, fields)) == Ids(c)
    ensures id in Ids(c) ==> MergeFirst(c, id, fields) == c[IdIndex(c, id) := Merge(c[IdIndex(c, id)], fields)]
  {
    if c != [] && c[0].id != id {
      MergeFirstShape(c[1..], id, fields);
    }
    if id in Ids(c) {
      MergeFirstAt(c, id, fields);
    }
  }

  /** MergeFirst merges the first record with the `_id` and keeps every other record. */
  lemma MergeFirstAt(c: seq<Record>, id: nat, fields: Document)
    requires id in Ids(c)
    ensures MergeFirst(c, id, fields) == c[IdIndex(c, id) := Merge(c[IdIndex(c, id)], fields)]
  {
    MergeFirstAtIndex(c, id, fields, IdIndex(c, id));
  }

  /** MergeFirst merges the record at `i` when it is the first with the `_id`. */
  lemma {:induction false} MergeFirstAtIndex(c: seq<Record>, id: nat, fields: Document, i: nat)
    requires i < |c| && c[i].id == id
    requires forall j :: 0 <= j < i ==> c[j].id != id
    ensures MergeFirst(c, id, fields) == c[i := Merge(c[i], fields)]
  {
    if i == 0 {
      assert [Merge(c[0], fields)] + c[1..] == c[0 := Merge(c[0], fields)];
    } else {
      var m := Merge(c[i], fields);
      MergeFirstAtIndex(c[1..], id, fields, i - 1);
      assert [c[0]] + c[1..][i - 1 := m] == c[i := m];
    }
  }

  /** RemoveFirst drops exactly one record when the `_id` is present and none otherwise. */
  lemma {:induction false} RemoveFirstShape(c: seq<Record>, id: nat)
    ensures id in Ids(c) ==> |RemoveFirst(c, id)| == |c| - 1
    ensures id in Ids(c) ==> RemoveFirst(c, id) == c[..IdIndex(c, id)] + c[IdIndex(c, id) + 1..]
    ensures id !in Ids(c) ==> RemoveFirst(c, id) == c
  {
    if c != [] && c[0].id != id {
      RemoveFirstShape(c[1..], id);
    }
    if id in Ids(c) {
      RemoveFirstAt(c, id);
    }
  }

  /** RemoveFirst drops the first record with the `_id` and keeps every other record. */
  lemma RemoveFirstAt(c: seq<Record>, id: nat)
    requires id in Ids(c)
    ensures RemoveFirst(c, id) == c[..IdIndex(c, id)] + c[IdIndex(c, id) + 1..]
  {
    RemoveFirstAtIndex(c, id, IdIndex(c, id));
  }

  /** RemoveFirst drops the record at `i` when it is the first with the `_id`. */
  lemma {:induction false} RemoveFirstAtIndex(c: seq<Record>, id: nat, i: nat)
    requires i < |c| && c[i].id == id
    requires forall j :: 0 <= j < i ==> c[j].id != id
    ensures RemoveFirst(c, id) == c[..i] + c[i + 1..]
  {
    if i == 0 {
      assert c[..0] + c[1..] == c[1..];
    } else {
      RemoveFirstAtIndex(c[1..], id, i - 1);
      assert [c[0]] + c[1..][..i - 1] == c[..i];
      assert c[1..][i..] == c[i + 1..];
    }
  }

  /** With unique `_id`s, a present `_id` names exactly one record: an update merges that
      record and keeps every other, and a delete removes it so that the `_id` is gone. */
  lemma {:induction false} ApplyWriteUnique(c: seq<Record>, w: Write)
    requires UniqueIds(c)
    ensures w.Update? && w.id in Ids(c) ==>
              forall i :: 0 <= i < |c| ==>
                ApplyWrite(c, w)[i] == if c[i].id == w.id then Merge(c[i], w.fields) else c[i]
    ensures w.Delete? && w.id in Ids(c) ==>
              Ids(ApplyWrite(c, w)) == Ids(c) - {w.id} && UniqueIds(ApplyWrite(c, w))
  {
    if w.Update? && w.id in Ids(c) {
      var k := IdIndex(c, w.id);
      forall i | 0 <= i < |c|
        ensures ApplyWrite(c, w)[i] == if c[i].id == w.id then Merge(c[i], w.fields) else c[i]
      {
        if i < k {
        } else if k < i {
          UniqueAt(c, k, i);
        }
      }
    }
    if w.Delete? && w.id in Ids(c) {
      RemoveFirstDropsId(c, w.id);
      RemoveFirstKeepsIdsUnique(c, w.id);
    }
  }

  /** With unique `_id`s, RemoveFirst removes the `_id` altogether. */
  lemma {:induction false} RemoveFirstDropsId(c: seq<Record>, id: nat)
    requires UniqueIds(c)
    ensures Ids(RemoveFirst(c, id)) == Ids(c) - {id}
  {
    if c != [] && c[0].id != id {
      RemoveFirstDropsId(c[1..], id);
      assert ([c[0]] + RemoveFirst(c[1..], id))[1..] == RemoveFirst(c[1..], id);
    }
  }

  /** The collection after a sequence of writes, in order. */
  function ApplyWrites(c: seq<Record>, ws: seq<Write>): seq<Record>
  {
    if ws == [] then c else ApplyWrite(ApplyWrites(c, ws[..|ws| - 1]), ws[|ws| - 1])
  }

  /** The writes of a prefix one longer are those of the prefix, then one more. */
  lemma ApplyWritesPrefix(c: seq<Record>, ws: seq<Write>, k: nat)
    requires 1 <= k <= |ws|
    ensures ApplyWrites(c, ws[..k]) == ApplyWrite(ApplyWrites(c, ws[..k - 1]), ws[k - 1])
  {
    assert ws[..k][..k - 1] == ws[..k - 1];
  }

  // ---------------------------------------------------------------- ids stay unique

  /** Appending a record whose `_id` is new keeps the `_id`s unique. */
  lemma {:induction false} AppendKeepsIdsUnique(c: seq<Record>, r: Record)
    requires UniqueIds(c) && r.id !in Ids(c)
    ensures UniqueIds(c + [r]) && Ids(c + [r]) == Ids(c) + {r.id}
  {
    if c != [] {
      AppendKeepsIdsUnique(c[1..], r);
      assert (c + [r])[1..] == c[1..] + [r];
    } else {
      assert [] + [r] == [r];
    }
  }

  /** MergeFirst changes fields only. */
  lemma {:induction false} MergeFirstKeepsIds(c: seq<Record>, id: nat, fields: Document)
    requires UniqueIds(c)
    ensures UniqueIds(MergeFirst(c, id, fields)) && Ids(MergeFirst(c, id, fields)) == Ids(c)
  {
    if c != [] && c[0].id != id {
      MergeFirstKeepsIds(c[1..], id, fields);
    }
  }

  /** RemoveFirst drops a record and keeps the rest unique. */
  lemma {:induction false} RemoveFirstKeepsIdsUnique(c: seq<Record>, id: nat)
    requires UniqueIds(c)
    ensures UniqueIds(RemoveFirst(c, id)) && Ids(RemoveFirst(c, id)) <= Ids(c)
  {
    if c != [] && c[0].id != id {
      RemoveFirstKeepsIdsUnique(c[1..], id);
    }
  }

  /** No write breaks the uniqueness of `_id`s. */
  lemma WriteKeepsIdsUnique(c: seq<Record>, w: Write)
    requires UniqueIds(c)
    ensures UniqueIds(ApplyWrite(c, w))
  {
    match w
    case Insert(doc) => AppendKeepsIdsUnique(c, Record(FreshId(c), doc));
    case Update(id, fields) =>
      if id in Ids(c) { MergeFirstKeepsIds(c, id, fields); }
      else { AppendKeepsIdsUnique(c, Record(id, fields)); }
    case Delete(id) => RemoveFirstKeepsIdsUnique(c, id);
  }

  /** No sequence of writes breaks the uniqueness of `_id`s. */
  lemma {:induction false} WritesKeepIdsUnique(c: seq<Record>, ws: seq<Write>)
    requires UniqueIds(c)
    ensures UniqueIds(ApplyWrites(c, ws))
  {
    if ws != [] {
      WritesKeepIdsUnique(c, ws[..|ws| - 1]);
      WriteKeepsIdsUnique(ApplyWrites(c, ws[..|ws| - 1]), ws[|ws| - 1]);
    }
  }

  /** In a collection with unique `_id`s, a record is determined by its `_id`. */
  lemma {:induction false} SameIdSameRecord(c: seq<Record>, a: Record, b: Record)
    requires UniqueIds(c) && a in c && b in c && a.id == b.id
    ensures a == b
  {
    IdsMembers(c[1..]);
    if a != c[0] && b != c[0] {
      SameIdSameRecord(c[1..], a, b);
    }
  }

  /** Records at different positions of a collection with unique `_id`s have different `_id`s. */
  lemma {:induction false} UniqueAt(c: seq<Record>, i: nat, j: nat)
    requires UniqueIds(c) && i < j < |c|
    ensures c[i].id != c[j].id
  {
    if i == 0 {
      assert c[j] in c[1..];
      IdsMembers(c[1..]);
    } else {
      UniqueAt(c[1..], i - 1, j - 1);
    }
  }

  /** An `_id` no record carries is not among the collection's `_id`s. */
  lemma {:induction false} NotInIds(c: seq<Record>, x: nat)
    requires forall i :: 0 <= i < |c| ==> c[i].id != x
    ensures x !in Ids(c)
  {
    if c != [] {
      NotInIds(c[1..], x);
    }
  }

  /** The `_id`s after appending a record. */
  lemma {:induction false} IdsAppend(c: seq<Record>, r: Record)
    ensures Ids(c + [r]) == Ids(c) + {r.id}
  {
    if c == [] {
      assert [] + [r] == [r];
    } else {
      IdsAppend(c[1..], r);
      assert (c + [r])[1..] == c[1..] + [r];
    }
  }

  /** A collection whose records all appear in another has no `_id` the other lacks. */
  lemma {:induction false} IdsOfSubset(a: seq<Record>, b: seq<Record>)
    requires forall r <- a :: r in b
    ensures Ids(a) <= Ids(b)
  {
    IdsMembers(b);
    if a != [] {
      IdsOfSubset(a[1..], b);
    }
  }

  /** The records a find returns have unique `_id`s when the collection does. */
  lemma {:induction false} MatchingKeepsIdsUnique(c: seq<Record>, key: string)
    requires UniqueIds(c)
    ensures UniqueIds(Matching(c, key))
  {
    if c != [] {
      MatchingKeepsIdsUnique(c[1..], key);
      var rest := Matching(c[1..], key);
      if HasDocumentId(c[0], key) {
        assert Matching(c, key) == [c[0]] + rest;
        assert ([c[0]] + rest)[1..] == rest;
        MatchingMembers(c[1..], key);
        IdsOfSubset(rest, c[1..]);
      } else {
        assert Matching(c, key) == [] + rest == rest;
      }
    }
  }

  /** `deleteMany({indexedDocumentId: key})` leaves no matching record and keeps every other. */
  lemma {:induction false} DeleteManyRemovesAll(c: seq<Record>, key: string)
    ensures Matching(Others(c, key), key) == []
    ensures Others(Others(c, key), key) == Others(c, key)
  {
    if c != [] {
      DeleteManyRemovesAll(c[1..], key);
      var rest := Others(c[1..], key);
      if !HasDocumentId(c[0], key) {
        assert Others(c, key) == [c[0]] + rest;
        assert ([c[0]] + rest)[0] == c[0] && ([c[0]] + rest)[1..] == rest;
        assert Matching([c[0]] + rest, key) == [] + Matching(rest, key);
      } else {
        assert Others(c, key) == [] + rest == rest;
      }
    }
  }

  // ---------------------------------------------------------------- reshaping

  /** A collection after its record of `_id` `first` was merged with `fields` and its
      records whose `_id` is in `dropped` were deleted; the others keep their place. */
  function Reshape(c: seq<Record>, first: nat, fields: Document, dropped: set<nat>): seq<Record>
  {
    if c == [] then []
    else
      (if c[0].id == first then [Merge(c[0], fields)]
       else if c[0].id in dropped then []
       else [c[0]])
      + Reshape(c[1..], first, fields, dropped)
  }

  /** Reshaping touches nothing when none of the `_id`s concerned is present. */
  lemma {:induction false} ReshapeAbsent(c: seq<Record>, first: nat, fields: Document, dropped: set<nat>)
    requires first !in Ids(c) && Ids(c) !! dropped
    ensures Reshape(c, first, fields, dropped) == c
  {
    if c != [] {
      ReshapeAbsent(c[1..], first, fields, dropped);
      assert [c[0]] + c[1..] == c;
    }
  }

  /** Merging fields a record already holds, and dropping nothing, changes nothing. */
  lemma {:induction false} ReshapeFixed(c: seq<Record>, first: nat, fields: Document)
    requires forall r <- c :: r.id == first ==> Merge(r, fields) == r
    ensures Reshape(c, first, fields, {}) == c
  {
    if c != [] {
      ReshapeFixed(c[1..], first, fields);
      assert [c[0]] + c[1..] == c;
    }
  }

  /** Adding an absent `_id` to the dropped set changes nothing. */
  lemma {:induction false} ReshapeDropAbsent(c: seq<Record>, first: nat, fields: Document, dropped: set<nat>, x: nat)
    requires x !in Ids(c)
    ensures Reshape(c, first, fields, dropped + {x}) == Reshape(c, first, fields, dropped)
  {
    if c != [] {
      ReshapeDropAbsent(c[1..], first, fields, dropped, x);
    }
  }

  /** The update `updateOne({_id: first}, {$set: fields})` is the reshape that drops nothing. */
  lemma {:induction false} UpdateIsReshape(c: seq<Record>, first: nat, fields: Document)
    requires UniqueIds(c)
    ensures MergeFirst(c, first, fields) == Reshape(c, first, fields, {})
  {
    if c != [] {
      if c[0].id == first {
        ReshapeAbsent(c[1..], first, fields, {});
      } else {
        UpdateIsReshape(c[1..], first, fields);
      }
    }
  }

  /** Deleting one more record by `_id` after a reshape is the reshape that also drops it. */
  lemma {:induction false} DeleteAfterReshape(c: seq<Record>, first: nat, fields: Document, dropped: set<nat>, x: nat)
    requires UniqueIds(c) && x != first && x !in dropped
    ensures RemoveFirst(Reshape(c, first, fields, dropped), x) == Reshape(c, first, fields, dropped + {x})
  {
    if c != [] {
      var rest := Reshape(c[1..], first, fields, dropped);
      if c[0].id == x {
        assert Reshape(c, first, fields, dropped) == [c[0]] + rest;
        ReshapeDropAbsent(c[1..], first, fields, dropped, x);
      } else {
        DeleteAfterReshape(c[1..], first, fields, dropped, x);
        if c[0].id == first {
          assert Reshape(c, first, fields, dropped) == [Merge(c[0], fields)] + rest;
        } else if c[0].id in dropped {
          assert Reshape(c, first, fields, dropped) == rest;
        } else {
          assert Reshape(c, first, fields, dropped) == [c[0]] + rest;
        }
      }
    }
  }

  /** Reshaping keeps the `_id`s unique. */
  lemma {:induction false} ReshapeKeepsIdsUnique(c: seq<Record>, first: nat, fields: Document, dropped: set<nat>)
    requires UniqueIds(c)
    ensures UniqueIds(Reshape(c, first, fields, dropped))
    ensures Ids(Reshape(c, first, fields, dropped)) <= Ids(c)
  {
    if c != [] {
      ReshapeKeepsIdsUnique(c[1..], first, fields, dropped);
      var rest := Reshape(c[1..], first, fields, dropped);
      if c[0].id == first {
        var h := Merge(c[0], fields);
        assert Reshape(c, first, fields, dropped) == [h] + rest;
        assert ([h] + rest)[0] == h && ([h] + rest)[1..] == rest;
      } else if c[0].id in dropped {
        assert Reshape(c, first, fields, dropped) == rest;
      } else {
        assert Reshape(c, first, fields, dropped) == [c[0]] + rest;
        assert ([c[0]] + rest)[0] == c[0] && ([c[0]] + rest)[1..] == rest;
      }
    }
  }

  /** With no matching record but the merged one, the reshape matches nothing when that
      record is absent... */
  lemma {:induction false} MatchingReshapeAbsent(c: seq<Record>, key: string, first: nat, fields: Document, dropped: set<nat>)
    requires first !in Ids(c)
    requires forall r <- c :: HasDocumentId(r, key) ==> r.id in dropped
    ensures Matching(Reshape(c, first, fields, dropped), key) == []
  {
    if c != [] {
      MatchingReshapeAbsent(c[1..], key, first, fields, dropped);
      var rest := Reshape(c[1..], first, fields, dropped);
      if c[0].id in dropped {
        assert Reshape(c, first, fields, dropped) == rest;
      } else {
        assert Reshape(c, first, fields, dropped) == [c[0]] + rest;
        assert ([c[0]] + rest)[0] == c[0] && ([c[0]] + rest)[1..] == rest;
      }
    }
  }

  /** ... and exactly the merged record when it is present. */
  lemma {:induction false} MatchingReshape(c: seq<Record>, key: string, kept: Record, fields: Document, dropped: set<nat>)
    requires UniqueIds(c) && kept in c && kept.id !in dropped
    requires CarriesDocumentId(fields, key)
    requires forall r <- c :: HasDocumentId(r, key) ==> r.id == kept.id || r.id in dropped
    ensures Matching(Reshape(c, kept.id, fields, dropped), key) == [Merge(kept, fields)]
  {
    var rest := Reshape(c[1..], kept.id, fields, dropped);
    IdsMembers(c[1..]);
    if c[0] == kept {
      assert HasDocumentId(Merge(kept, fields), key);
      MatchingReshapeAbsent(c[1..], key, kept.id, fields, dropped);
      assert Reshape(c, kept.id, fields, dropped) == [Merge(kept, fields)] + rest;
    } else {
      assert kept in c[1..];
      MatchingReshape(c[1..], key, kept, fields, dropped);
      if c[0].id in dropped {
        assert Reshape(c, kept.id, fields, dropped) == rest;
      } else {
        assert Reshape(c, kept.id, fields, dropped) == [c[0]] + rest;
      }
    }
  }

  /** A reshape that merges and drops only matching records leaves the others as they were. */
  lemma {:induction false} OthersReshape(c: seq<Record>, key: string, first: nat, fields: Document, dropped: set<nat>)
    requires CarriesDocumentId(fields, key)
    requires forall r <- c :: !HasDocumentId(r, key) ==> r.id != first && r.id !in dropped
    ensures Others(Reshape(c, first, fields, dropped), key) == Others(c, key)
  {
    if c != [] {
      OthersReshape(c[1..], key, first, fields, dropped);
      var rest := Reshape(c[1..], first, fields, dropped);
      if c[0].id == first {
        assert Reshape(c, first, fields, dropped) == [Merge(c[0], fields)] + rest;
      } else if c[0].id in dropped {
        assert Reshape(c, first, fields, dropped) == rest;
      } else {
        assert Reshape(c, first, fields, dropped) == [c[0]] + rest;
      }
    }
  }

  /** Matching distributes over an appended record. */
  lemma {:induction false} MatchingAppend(c: seq<Record>, r: Record, key: string)
    ensures Matching(c + [r], key) == Matching(c, key) + Matching([r], key)
  {
    if c == [] {
      assert [] + [r] == [r];
    } else {
      var h := if HasDocumentId(c[0], key) then [c[0]] else [];
      var t := c[1..];
      assert Matching(c + [r], key) == h + Matching(t + [r], key) by {
        assert (c + [r])[0] == c[0] && (c + [r])[1..] == t + [r];
      }
      MatchingAppend(t, r, key);
      assert Matching(c, key) == h + Matching(t, key);
      assert h + (Matching(t, key) + Matching([r], key)) == (h + Matching(t, key)) + Matching([r], key);
    }
  }


  /** Others distributes over an appended record. */
  lemma {:induction false} OthersAppend(c: seq<Record>, r: Record, key: string)
    ensures Others(c + [r], key) == Others(c, key) + Others([r], key)
  {
    if c == [] {
      assert [] + [r] == [r];
    } else {
      var h := if HasDocumentId(c[0], key) then [] else [c[0]];
      var t := c[1..];
      assert Others(c + [r], key) == h + Others(t + [r], key) by {
        assert (c + [r])[0] == c[0] && (c + [r])[1..] == t + [r];
      }
      OthersAppend(t, r, key);
      assert Others(c, key) == h + Others(t, key);
      assert h + (Others(t, key) + Others([r], key)) == (h + Others(t, key)) + Others([r], key);
    }
  }


  /** The records of collection `name`; a collection never written is empty. */
  function Collection(cols: map<string, seq<Record>>, name: string): seq<Record>
  {
    if name in cols then cols[name] else []
  }

  /** The collections after the writes `ws` to collection `name`; no write, no change. */
  function AfterWrites(cols: map<string, seq<Record>>, name: string, ws: seq<Write>): map<string, seq<Record>>
  {
    if ws == [] then cols else cols[name := ApplyWrites(Collection(cols, name), ws)]
  }

  /** One more write to the collection is applied to its current records. */
  lemma AfterWritesStep(cols: map<string, seq<Record>>, name: string, ws: seq<Write>, w: Write)
    ensures var now := AfterWrites(cols, name, ws);
      AfterWrites(cols, name, ws + [w]) == now[name := ApplyWrite(Collection(now, name), w)]
  {
    assert (ws + [w])[..|ws|] == ws;
  }

  // ---------------------------------------------------------------- the database object

  /** The database handle: its collections by name. */
  class Database {
    var collections: map<string, seq<Record>>

    /** The records of collection `name`. */
    function Get(name: string): seq<Record>
      reads this
    {
      Collection(collections, name)
    }

    constructor (collections: map<string, seq<Record>>)
      ensures this.collections == collections
    {
      this.collections := collections;
    }

    /** `collection(name).find({indexedDocumentId: key}).toArray()`. */
    method Find(name: string, key: string) returns (results: seq<Record>)
      ensures results == Matching(Get(name), key)
    {
      results := Matching(Get(name), key);
    }

    /** `collection(name).insertOne(doc)`, `updateOne(...)` or `deleteOne(...)`. */
    method Perform(name: string, w: Write)
      modifies this
      ensures collections == old(collections)[name := ApplyWrite(old(Get(name)), w)]
    {
      collections := collections[name := ApplyWrite(Get(name), w)];
    }

    /** `collection(name).deleteMany({indexedDocumentId: key})`. */
    method DeleteMany(name: string, key: string)
      modifies this
      ensures collections == old(collections)[name := Others(old(Get(name)), key)]
    {
      collections := collections[name := Others(Get(name), key)];
    }
  }
}
