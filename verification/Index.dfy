/** Secondary indexes: for an entity, field -> rendered value -> ids. */
module Index {
  import opened Values
  import opened Projection
  import opened Records

  datatype EntityIndex = EntityIndex(byField: map<string, map<string, set<string>>>, count: nat)

  function Bucket(idx: EntityIndex, field: string, key: string): set<string> {
    if field in idx.byField && key in idx.byField[field] then idx.byField[field][key] else {}
  }

  /** Whether a record is filed under a key: idxKey renders its value of the field. */
  predicate FiledUnder(records: map<Rid, Fields>, render: Value -> string, entity: string, id: string, field: string,
                       key: string)
  {
    Rid(entity, id) in records && render(Get(records[Rid(entity, id)], field)) == key
  }

  /** Every bucket of every indexed field holds exactly the records whose value renders to its key. */
  ghost predicate Exact(idx: EntityIndex, records: map<Rid, Fields>, render: Value -> string, entity: string) {
    && idx.count == |IdsOf(records, entity)|
    && forall field, key, id :: field in idx.byField ==>
         (id in Bucket(idx, field, key) <==> FiledUnder(records, render, entity, id, field, key))
  }

  /** Every cached index is exact. */
  ghost predicate Coherent(cache: map<string, EntityIndex>, records: map<Rid, Fields>, render: Value -> string) {
    forall entity <- cache :: Exact(cache[entity], records, render, entity)
  }

  /** Writing one entity leaves the other entities' indexes exact. */
  lemma DropKeepsCoherent(cache: map<string, EntityIndex>, records: map<Rid, Fields>, next: map<Rid, Fields>,
                          render: Value -> string, entity: string)
    requires Coherent(cache, records, render)
    requires forall r: Rid :: r.entity != entity ==>
      (r in records <==> r in next) && (r in records ==> records[r] == next[r])
    ensures Coherent(cache - {entity}, next, render)
  {
    forall other | other in cache - {entity} ensures Exact(cache[other], next, render, other) {
      var idx := cache[other];
      assert Exact(idx, records, render, other);
      assert IdsOf(records, other) == IdsOf(next, other) by {
        forall id ensures id in IdsOf(records, other) <==> id in IdsOf(next, other) {
          assert Rid(other, id) in records <==> Rid(other, id) in next;
        }
      }
      forall field, key, id | field in idx.byField
        ensures id in Bucket(idx, field, key) <==> FiledUnder(next, render, other, id, field, key)
      {
        assert id in Bucket(idx, field, key) <==> FiledUnder(records, render, other, id, field, key);
        assert Rid(other, id).entity != entity;
      }
    }
  }

  // ---- building ---------------------------------------------------------------------

  type Buckets = map<string, map<string, set<string>>>

  function In(byField: Buckets, field: string, key: string): set<string> {
    if field in byField && key in byField[field] then byField[field][key] else {}
  }

  /** The field's buckets hold what they held before, and the record under its own value. */
  ghost predicate Filed(next: Buckets, byField: Buckets, render: Value -> string, id: string, record: Fields,
                        field: string)
  {
    forall key, x :: x in In(next, field, key) <==>
      x in In(byField, field, key) || (x == id && render(Get(record, field)) == key)
  }

  lemma FiledFrame(next: Buckets, before: Buckets, byField: Buckets, render: Value -> string, id: string,
                   record: Fields, field: string)
    requires Filed(before, byField, render, id, record, field)
    requires field in next && field in before && next[field] == before[field]
    ensures Filed(next, byField, render, id, record, field)
  {
    forall key, x ensures x in In(next, field, key) <==>
      x in In(byField, field, key) || (x == id && render(Get(record, field)) == key) {
      assert In(next, field, key) == In(before, field, key);
    }
  }

  /** Files a record under its value of one field, creating the bucket when needed. */
  method FileUnder(byField: Buckets, render: Value -> string, id: string, record: Fields, field: string)
    returns (next: Buckets)
    requires field in byField
    ensures next.Keys == byField.Keys
    ensures forall other :: other in byField && other != field ==> next[other] == byField[other]
    ensures Filed(next, byField, render, id, record, field)
  {
    var key := render(Get(record, field));
    var ids := if key in byField[field] then byField[field][key] else {};
    next := byField[field := byField[field][key := ids + {id}]];
  }

  lemma FiledStart(next: Buckets, before: Buckets, byField: Buckets, render: Value -> string, id: string,
                   record: Fields, field: string)
    requires Filed(next, before, render, id, record, field)
    requires field in before && field in byField && before[field] == byField[field]
    ensures Filed(next, byField, render, id, record, field)
  {
    forall key, x ensures x in In(next, field, key) <==>
      x in In(byField, field, key) || (x == id && render(Get(record, field)) == key) {
      assert In(before, field, key) == In(byField, field, key);
    }
  }

  /** Files one record under its value of every field. */
  method FileRecord(byField: Buckets, render: Value -> string, id: string, record: Fields) returns (next: Buckets)
    ensures next.Keys == byField.Keys
    ensures forall field <- byField.Keys :: Filed(next, byField, render, id, record, field)
  {
    hide Filed, In, SortedIds;
    next := byField;
    var fields := SortedIds(byField.Keys);
    SortedIdsDistinct(byField.Keys);
    for i := 0 to |fields|
      invariant next.Keys == byField.Keys
      invariant forall j :: i <= j < |fields| ==> next[fields[j]] == byField[fields[j]]
      invariant forall j :: 0 <= j < i ==> Filed(next, byField, render, id, record, fields[j])
    {
      ghost var before := next;
      assert fields[i] in fields;
      next := FileUnder(next, render, id, record, fields[i]);
      FiledStart(next, before, byField, render, id, record, fields[i]);
      forall j | 0 <= j < i ensures Filed(next, byField, render, id, record, fields[j]) {
        assert fields[j] in fields;
        FiledFrame(next, before, byField, render, id, record, fields[j]);
      }
    }
    forall field | field in byField.Keys ensures Filed(next, byField, render, id, record, field) {
      assert field in fields;
    }
  }

  /** The field's buckets hold exactly the given records. */
  ghost predicate FiledAll(byField: Buckets, records: map<Rid, Fields>, render: Value -> string, entity: string,
                           ids: seq<string>, field: string)
  {
    forall key, id :: id in In(byField, field, key) <==>
      id in ids && FiledUnder(records, render, entity, id, field, key)
  }

  lemma FiledNext(next: Buckets, before: Buckets, records: map<Rid, Fields>, render: Value -> string, entity: string,
                  ids: seq<string>, id: string, field: string)
    requires Rid(entity, id) in records && FiledAll(before, records, render, entity, ids, field)
    requires Filed(next, before, render, id, records[Rid(entity, id)], field)
    ensures FiledAll(next, records, render, entity, ids + [id], field)
  {
  }

  lemma FiledIsExact(byField: Buckets, records: map<Rid, Fields>, render: Value -> string, entity: string,
                     fields: set<string>)
    requires byField.Keys == fields
    requires forall field <- fields ::
      FiledAll(byField, records, render, entity, SortedIds(IdsOf(records, entity)), field)
    ensures Exact(EntityIndex(byField, |IdsOf(records, entity)|), records, render, entity)
  {
    var idx := EntityIndex(byField, |IdsOf(records, entity)|);
    forall field, key, id | field in idx.byField
      ensures id in Bucket(idx, field, key) <==> FiledUnder(records, render, entity, id, field, key)
    {
      assert FiledAll(byField, records, render, entity, SortedIds(IdsOf(records, entity)), field);
      assert Bucket(idx, field, key) == In(byField, field, key);
      assert Rid(entity, id) in records <==> id in IdsOf(records, entity);
    }
  }

  /** Files every record of an entity. */
  method Build(records: map<Rid, Fields>, render: Value -> string, entity: string, fields: set<string>)
    returns (idx: EntityIndex)
    ensures Exact(idx, records, render, entity) && idx.byField.Keys == fields
  {
    hide Filed, Exact, FiledUnder, SortedIds;
    var byField: Buckets := map f | f in fields :: map[];
    var ids := SortedIds(IdsOf(records, entity));
    for i := 0 to |ids|
      invariant byField.Keys == fields
      invariant forall field <- fields :: FiledAll(byField, records, render, entity, ids[..i], field)
    {
      hide FiledAll;
      ghost var before := byField;
      assert ids[..i + 1] == ids[..i] + [ids[i]] && ids[i] in ids;
      byField := FileRecord(byField, render, ids[i], records[Rid(entity, ids[i])]);
      forall field | field in fields ensures FiledAll(byField, records, render, entity, ids[..i + 1], field) {
        FiledNext(byField, before, records, render, entity, ids[..i], ids[i], field);
      }
    }
    idx := EntityIndex(byField, |IdsOf(records, entity)|);
    assert ids[..|ids|] == ids;
    FiledIsExact(byField, records, render, entity, fields);
  }
}
