/** Listing the records an actor may read: by scanning every row, or by the candidates an index gives. */
module Queries {
  import opened Values
  import opened Model
  import opened Journal
  import opened Projection
  import opened Environment
  import opened Permissions
  import opened Rights
  import opened Records
  import opened Conditions
  import opened Spelling
  import opened ConditionMeaning
  import opened Scope
  import opened QuotedTerms
  import opened Index
  import Computed

  // ---- selecting rows --------------------------------------------------------------------

  datatype Row = Row(id: string, values: Fields)

  datatype QueryOpts = QueryOpts(
    filter: Fields, where: string, search: string, order: seq<Row> -> seq<Row>, offset: int, limit: int)

  function Lower(s: string): string {
    if s == "" then "" else [if 'A' <= s[0] <= 'Z' then s[0] - 'A' + 'a' else s[0]] + Lower(s[1..])
  }

  /** Any text or string field contains the term. */
  predicate MatchesSearch(decl: Entity, full: Fields, term: string) {
    exists f <- decl.fields :: (f.ty == Scalar("string") || f.ty == Scalar("text")) && Get(full, f.name).Str? &&
      HasPart(Lower(Get(full, f.name).s), term)
  }

  predicate MatchesFilter(full: Fields, filter: Fields) {
    forall k :: k in filter ==> Get(full, k) == filter[k]
  }

  predicate Readable(env: Env, v: View, actor: Actor, entity: string, id: string, now: int) {
    Rid(entity, id) in v.records && Can(env, v, actor, "read", entity, "", Some(v.records[Rid(entity, id)]), now)
  }

  predicate Wanted(env: Env, v: View, actor: Actor, entity: string, opts: QueryOpts, id: string, now: int) {
    var full := env.computed(v.model, v.records, Rid(entity, id), now);
    var term := Lower(TrimSpace(opts.search));
    && MatchesFilter(full, opts.filter)
    && (opts.where == "" || env.holds(opts.where, v.records, id, actor, full, now))
    && (term == "" || (entity in v.model.entities && MatchesSearch(v.model.entities[entity], full, term)))
  }

  function RowOf(env: Env, v: View, actor: Actor, entity: string, id: string, now: int): Row {
    Row(id, MaskFields(env, v, actor, entity, env.computed(v.model, v.records, Rid(entity, id), now), now))
  }

  /** The readable rows that match, among the given ids and in their order. */
  function Select(env: Env, v: View, actor: Actor, entity: string, opts: QueryOpts, ids: seq<string>,
                  now: int): seq<Row>
  {
    if ids == [] then []
    else
      (if Readable(env, v, actor, entity, ids[0], now) && Wanted(env, v, actor, entity, opts, ids[0], now)
       then [RowOf(env, v, actor, entity, ids[0], now)] else [])
      + Select(env, v, actor, entity, opts, ids[1..], now)
  }

  function Page(rows: seq<Row>, offset: int, limit: int): seq<Row> {
    if offset > 0 && offset >= |rows| then []
    else
      var rest := if offset > 0 then rows[offset..] else rows;
      if limit > 0 && |rest| > limit then rest[..limit] else rest
  }

  /** The query as a scan of every row of the entity. */
  function Scan(env: Env, v: View, actor: Actor, entity: string, opts: QueryOpts, now: int): seq<Row> {
    Page(opts.order(Select(env, v, actor, entity, opts, SortedIds(IdsOf(v.records, entity)), now)), opts.offset,
      opts.limit)
  }

  // ---- candidates ---------------------------------------------------------------------------

  function Applicable(items: seq<PermItem>, entity: string): (r: seq<PermItem>)
    ensures forall item :: item in r <==> item in items && (item.all || item.entity == entity)
  {
    if items == [] then []
    else (if items[0].all || items[0].entity == entity then [items[0]] else []) + Applicable(items[1..], entity)
  }

  predicate GrantsRead(rule: PermRule) { rule.verb == "read" || rule.verb == "full" }

  /** The items of a role's read and full rules that concern an entity. */
  function ReadItems(rules: seq<PermRule>, entity: string): (r: seq<PermItem>)
    ensures forall rule, item ::
      (rule in rules && GrantsRead(rule) && item in rule.items && (item.all || item.entity == entity)) ==> item in r
  {
    if rules == [] then []
    else
      assert rules == [rules[0]] + rules[1..];
      (if GrantsRead(rules[0]) then Applicable(rules[0].items, entity) else []) + ReadItems(rules[1..], entity)
  }

  /** The first term over an indexed field. */
  function FirstIndexed(terms: seq<Term>, fields: set<string>): (r: Option<Term>)
    ensures r.Some? ==> r.value in terms && r.value.field in fields
  {
    if terms == [] then None
    else if terms[0].field in fields then Some(terms[0])
    else FirstIndexed(terms[1..], fields)
  }

  /** Whether an item can be narrowed at all: it has a condition, and no disjunction in it. */
  predicate Narrowable(item: PermItem) {
    item.where != "" && !item.all && !HasPart(Collapse(item.where), " or ")
  }

  function ScopeKey(t: Term, actor: Actor, render: Value -> string): string {
    render(MeValue(t, actor.id, actor.attrs))
  }

  /** The bucket that holds every row an item may allow; None when the item cannot be narrowed. */
  function ItemBucket(idx: EntityIndex, item: PermItem, actor: Actor, render: Value -> string): Option<set<string>> {
    if !Narrowable(item) then None
    else
      var t := FirstIndexed(ScopeTerms(item.where), idx.byField.Keys);
      if t.None? then None else Some(Bucket(idx, t.value.field, ScopeKey(t.value, actor, render)))
  }

  /** The union of the items' buckets, unless one of them cannot be narrowed. */
  function Buckets(idx: EntityIndex, items: seq<PermItem>, actor: Actor, render: Value -> string): Option<set<string>> {
    if items == [] then Some({})
    else
      var first := ItemBucket(idx, items[0], actor, render);
      var rest := Buckets(idx, items[1..], actor, render);
      if first.None? || rest.None? then None else Some(first.value + rest.value)
  }

  /** candidateIDs over an index; None means every row must be scanned. */
  function Candidates(idx: EntityIndex, m: Model, entity: string, actor: Actor,
                      render: Value -> string): Option<set<string>>
  {
    if actor.role !in m.perms then None
    else
      var items := ReadItems(m.perms[actor.role], entity);
      if items == [] then None else Buckets(idx, items, actor, render)
  }

  /** The fields worth indexing: those any role's read or full rule on the entity scopes by. */
  function IndexedFields(m: Model, entity: string): set<string> {
    set role, rule, item, t | role in m.perms && rule in m.perms[role] && GrantsRead(rule) && item in rule.items
      && item.entity == entity && item.where != "" && t in ScopeTerms(item.where) :: t.field
  }

  // ---- the index agrees with the scan ----------------------------------------------------------

  /** Every term found in a narrowable read clause of the actor is necessary for the clause to hold. */
  ghost predicate TermsNecessary(env: Env, v: View, actor: Actor, entity: string, render: Value -> string, now: int) {
    forall item, t, id ::
      && actor.role in v.model.perms && item in ReadItems(v.model.perms[actor.role], entity) && Narrowable(item)
      && t in ScopeTerms(item.where) && Rid(entity, id) in v.records
      && env.holds(item.where, v.records, "", actor, v.records[Rid(entity, id)], now)
      ==> FiledUnder(v.records, render, entity, id, t.field, ScopeKey(t, actor, render))
  }

  lemma {:induction false} BucketsCover(idx: EntityIndex, items: seq<PermItem>, actor: Actor, render: Value -> string,
                                        item: PermItem)
    requires Buckets(idx, items, actor, render).Some? && item in items
    ensures ItemBucket(idx, item, actor, render).Some?
    ensures ItemBucket(idx, item, actor, render).value <= Buckets(idx, items, actor, render).value
  {
    hide ItemBucket;
    if item != items[0] {
      BucketsCover(idx, items[1..], actor, render, item);
    }
  }

  /** A readable record is a candidate. */
  lemma CandidatesCover(env: Env, v: View, actor: Actor, entity: string, idx: EntityIndex, render: Value -> string,
                        id: string, now: int)
    requires !IsCore(entity) && Exact(idx, v.records, render, entity)
    requires TermsNecessary(env, v, actor, entity, render, now)
    requires Candidates(idx, v.model, entity, actor, render).Some? && Readable(env, v, actor, entity, id, now)
    ensures id in Candidates(idx, v.model, entity, actor, render).value
  {
    hide Denied, ScopeTerms;
    var rules := v.model.perms[actor.role];
    var record := v.records[Rid(entity, id)];
    var rule :| rule in rules && Grants(rule, "read") && exists item <- rule.items ::
      ItemMatches("read", item, "read", entity, "") && AllowHolds(env, v, actor, item, Some(record), now);
    var item :| item in rule.items && ItemMatches("read", item, "read", entity, "")
      && AllowHolds(env, v, actor, item, Some(record), now);
    var items := ReadItems(rules, entity);
    assert item in items;
    BucketsCover(idx, items, actor, render, item);
    var t := FirstIndexed(ScopeTerms(item.where), idx.byField.Keys).value;
    assert FiledUnder(v.records, render, entity, id, t.field, ScopeKey(t, actor, render));
  }

  /** Some rule of some role that reads the entity scopes it by the field. */
  ghost predicate ScopedBy(m: Model, entity: string, field: string) {
    exists role <- m.perms, rule <- m.perms[role], item <- rule.items, t <- ScopeTerms(item.where) ::
      rule.verb in {"read", "full"} && item.entity == entity && item.where != "" && t.field == field
  }

  /** The fields an index files are exactly those a read rule on the entity scopes by. */
  lemma IndexedFieldsAre(m: Model, entity: string, field: string)
    ensures field in IndexedFields(m, entity) <==> ScopedBy(m, entity, field)
  {
    hide ScopeTerms;
  }

  /** An index narrows a role's queries exactly when the role has read items on the entity and each of them has a
      condition without a visible disjunction in which a term is found. */
  lemma NarrowsIff(m: Model, entity: string, idx: EntityIndex, actor: Actor, render: Value -> string)
    requires idx.byField.Keys == IndexedFields(m, entity)
    ensures Candidates(idx, m, entity, actor, render).Some? <==>
      && actor.role in m.perms
      && (exists item :: ConcernsRead(m.perms[actor.role], entity, item))
      && (forall item :: ConcernsRead(m.perms[actor.role], entity, item) ==>
            !item.all && item.where != "" && !HasPart(Collapse(item.where), " or ") && ScopeTerms(item.where) != [])
  {
    hide ScopeTerms, HasPart, Collapse, IndexedFields, Narrowable;
    if actor.role in m.perms {
      var rules := m.perms[actor.role];
      var items := ReadItems(rules, entity);
      forall item ensures item in items <==> ConcernsRead(rules, entity, item) {
        ReadItemsAre(rules, entity, item);
      }
      assert items == [] <==> !(exists item :: ConcernsRead(rules, entity, item)) by {
        if items != [] {
          assert items[0] in items;
        }
      }
      BucketsIff(idx, items, actor, render);
      forall item | item in items
        ensures ItemBucket(idx, item, actor, render).Some? <==>
          !item.all && item.where != "" && !HasPart(Collapse(item.where), " or ") && ScopeTerms(item.where) != []
      {
        ItemNarrows(m, entity, idx, item, actor, render);
      }
    }
  }

  predicate ConcernsRead(rules: seq<PermRule>, entity: string, item: PermItem) {
    exists rule <- rules :: rule.verb in {"read", "full"} && item in rule.items && (item.all || item.entity == entity)
  }

  lemma {:induction false} ReadItemsAre(rules: seq<PermRule>, entity: string, item: PermItem)
    ensures item in ReadItems(rules, entity) <==> ConcernsRead(rules, entity, item)
  {
    if rules != [] {
      ReadItemsAre(rules[1..], entity, item);
      assert rules == [rules[0]] + rules[1..];
    }
  }

  lemma {:induction false} BucketsIff(idx: EntityIndex, items: seq<PermItem>, actor: Actor, render: Value -> string)
    ensures Buckets(idx, items, actor, render).Some? <==>
      forall item <- items :: ItemBucket(idx, item, actor, render).Some?
  {
    hide ItemBucket;
    if items != [] {
      assert items == [items[0]] + items[1..];
      BucketsIff(idx, items[1..], actor, render);
    }
  }

  lemma ItemNarrows(m: Model, entity: string, idx: EntityIndex, item: PermItem, actor: Actor, render: Value -> string)
    requires idx.byField.Keys == IndexedFields(m, entity) && actor.role in m.perms
    requires ConcernsRead(m.perms[actor.role], entity, item)
    ensures ItemBucket(idx, item, actor, render).Some? <==>
      !item.all && item.where != "" && !HasPart(Collapse(item.where), " or ") && ScopeTerms(item.where) != []
  {
    hide ScopeTerms, HasPart, Collapse, IndexedFields;
    var terms := ScopeTerms(item.where);
    if Narrowable(item) && terms != [] {
      var rule :| rule in m.perms[actor.role] && rule.verb in {"read", "full"} && item in rule.items
        && (item.all || item.entity == entity);
      assert terms[0] in terms;
      assert ScopedBy(m, entity, terms[0].field);
      IndexedFieldsAre(m, entity, terms[0].field);
      assert FirstIndexed(terms, idx.byField.Keys).Some?;
    }
  }

  /** The candidates are records of the entity. */
  lemma {:induction false} BucketsAreRecords(idx: EntityIndex, items: seq<PermItem>, actor: Actor, records: map<Rid,
                                        Fields>,
                                             render: Value -> string, entity: string)
    requires Exact(idx, records, render, entity) && Buckets(idx, items, actor, render).Some?
    ensures Buckets(idx, items, actor, render).value <= IdsOf(records, entity)
  {
    if items != [] {
      BucketsAreRecords(idx, items[1..], actor, records, render, entity);
      BucketAreRecords(idx, items[0], actor, records, render, entity);
    }
  }

  lemma BucketAreRecords(idx: EntityIndex, item: PermItem, actor: Actor, records: map<Rid, Fields>,
                         render: Value -> string, entity: string)
    requires Exact(idx, records, render, entity) && ItemBucket(idx, item, actor, render).Some?
    ensures ItemBucket(idx, item, actor, render).value <= IdsOf(records, entity)
  {
    hide ScopeTerms, Narrowable;
    forall id | id in ItemBucket(idx, item, actor, render).value ensures id in IdsOf(records, entity) {
      var t := FirstIndexed(ScopeTerms(item.where), idx.byField.Keys).value;
      assert FiledUnder(records, render, entity, id, t.field, ScopeKey(t, actor, render));
    }
  }

  /** The least id of a set, kept or dropped, does not disturb the order of the rest. */
  lemma {:induction false} LeastOfSubset(all: set<string>, part: set<string>)
    requires all != {} && part <= all
    ensures Least(all) in part ==> part != {} && Least(part) == Least(all)
  {
    if Least(all) in part {
      LexTotal(Least(part), Least(all));
    }
  }

  /** Dropping unreadable ids changes no selection. */
  lemma {:induction false} SelectReadable(env: Env, v: View, actor: Actor, entity: string, opts: QueryOpts, now: int,
                                          all: set<string>, part: set<string>)
    requires part <= all && forall id <- all :: Readable(env, v, actor, entity, id, now) ==> id in part
    ensures Select(env, v, actor, entity, opts, SortedIds(all), now) ==
      Select(env, v, actor, entity, opts, SortedIds(part), now)
    decreases |all|
  {
    hide Readable, Wanted, RowOf;
    if all != {} {
      var x := Least(all);
      assert SortedIds(all) == [x] + SortedIds(all - {x});
      LeastOfSubset(all, part);
      if x in part {
        assert SortedIds(part) == [x] + SortedIds(part - {x});
        SelectReadable(env, v, actor, entity, opts, now, all - {x}, part - {x});
      } else {
        SelectReadable(env, v, actor, entity, opts, now, all - {x}, part);
      }
    }
  }

  /** Where every term is necessary, the candidates of an exact index give the rows of the full scan. */
  lemma IndexAgreesWithScan(env: Env, v: View, actor: Actor, entity: string, idx: EntityIndex, render: Value -> string,
                            opts: QueryOpts, now: int)
    requires !IsCore(entity) && Exact(idx, v.records, render, entity)
    requires TermsNecessary(env, v, actor, entity, render, now)
    requires Candidates(idx, v.model, entity, actor, render).Some?
    ensures Select(env, v, actor, entity, opts, SortedIds(Candidates(idx, v.model, entity, actor, render).value),
      now) ==
            Select(env, v, actor, entity, opts, SortedIds(IdsOf(v.records, entity)), now)
  {
    hide Exact, TermsNecessary, Readable;
    var cand, all := Candidates(idx, v.model, entity, actor, render).value, IdsOf(v.records, entity);
    BucketsAreRecords(idx, ReadItems(v.model.perms[actor.role], entity), actor, v.records, render, entity);
    forall id | id in all && Readable(env, v, actor, entity, id, now) ensures id in cand {
      CandidatesCover(env, v, actor, entity, idx, render, id, now);
    }
    SelectReadable(env, v, actor, entity, opts, now, all, cand);
  }

  /** An index only narrows: whatever ids are tried, every row returned is a row of the full scan. */
  lemma {:induction false} IndexNeverLeaks(env: Env, v: View, actor: Actor, entity: string, opts: QueryOpts,
                                        ids: seq<string>,
                                           now: int, row: Row)
    requires row in Select(env, v, actor, entity, opts, ids, now)
    ensures row in Select(env, v, actor, entity, opts, SortedIds(IdsOf(v.records, entity)), now)
    ensures Readable(env, v, actor, entity, row.id, now)
  {
    var id := SelectedId(env, v, actor, entity, opts, ids, now, row);
    var all := SortedIds(IdsOf(v.records, entity));
    assert id in all;
    SelectKeeps(env, v, actor, entity, opts, all, now, id);
  }

  lemma {:induction false} SelectedId(env: Env, v: View, actor: Actor, entity: string, opts: QueryOpts,
                                      ids: seq<string>,
                                      now: int, row: Row) returns (id: string)
    requires row in Select(env, v, actor, entity, opts, ids, now)
    ensures id in ids && Readable(env, v, actor, entity, id, now) && Wanted(env, v, actor, entity, opts, id, now)
    ensures row == RowOf(env, v, actor, entity, id, now)
  {
    hide Readable, Wanted;
    if row in Select(env, v, actor, entity, opts, ids[1..], now) {
      id := SelectedId(env, v, actor, entity, opts, ids[1..], now, row);
    } else {
      id := ids[0];
    }
  }

  lemma {:induction false} SelectKeeps(env: Env, v: View, actor: Actor, entity: string, opts: QueryOpts,
                                       ids: seq<string>,
                                       now: int, id: string)
    requires id in ids && Readable(env, v, actor, entity, id, now) && Wanted(env, v, actor, entity, opts, id, now)
    ensures RowOf(env, v, actor, entity, id, now) in Select(env, v, actor, entity, opts, ids, now)
  {
    hide Readable, Wanted;
    if ids[0] != id {
      SelectKeeps(env, v, actor, entity, opts, ids[1..], now, id);
    }
  }

  // ---- what a listed row shows --------------------------------------------------------------------

  /** The row is a readable record's, with exactly the fields of it the actor may read and their values. */
  ghost predicate Shows(env: Env, v: View, actor: Actor, entity: string, row: Row, now: int) {
    var rid := Rid(entity, row.id);
    var full := env.computed(v.model, v.records, rid, now);
    && rid in v.records && Entitled(env, v, actor, "read", entity, "", Some(v.records[rid]), now)
    && (forall k :: k in row.values <==> k in full && Entitled(env, v, actor, "read", entity, k, Some(full), now))
    && (forall k <- row.values :: row.values[k] == full[k])
  }

  /** ASCII letters compare without their case. */
  predicate SameLetter(a: char, b: char) {
    a == b || ('A' <= a <= 'Z' && a as int + 32 == b as int) || ('A' <= b <= 'Z' && b as int + 32 == a as int)
  }

  /** The term stands at a place of the text, letter by letter. */
  predicate StandsAt(text: string, term: string, i: nat) {
    i + |term| <= |text| && forall j :: 0 <= j < |term| ==> SameLetter(text[i + j], term[j])
  }

  ghost predicate HoldsTerm(text: string, term: string) {
    exists i: nat :: StandsAt(text, term, i)
  }

  /** The record, computed fields included, passes the filter, the condition and the search of a query. */
  ghost predicate Passes(env: Env, v: View, actor: Actor, entity: string, opts: QueryOpts, id: string, now: int) {
    var full := env.computed(v.model, v.records, Rid(entity, id), now);
    var term := TrimSpace(opts.search);
    && (forall k <- opts.filter :: Get(full, k) == opts.filter[k])
    && (opts.where != "" ==> env.holds(opts.where, v.records, id, actor, full, now))
    && (term != "" ==>
          && entity in v.model.entities
          && exists f <- v.model.entities[entity].fields ::
               f.ty in {Scalar("string"), Scalar("text")} && f.name in full && full[f.name].Str?
               && HoldsTerm(full[f.name].s, term))
  }

  lemma {:induction false} LowerIs(s: string)
    ensures |Lower(s)| == |s| && forall i :: 0 <= i < |s| ==> SameLetter(Lower(s)[i], s[i])
    ensures forall i :: 0 <= i < |s| ==> !('A' <= Lower(s)[i] <= 'Z')
  {
    if s != "" {
      LowerIs(s[1..]);
    }
  }

  lemma LowerStandsAt(text: string, term: string, i: nat)
    requires i + |term| <= |text| == |Lower(text)| && |Lower(term)| == |term|
    ensures Lower(text)[i..][..|term|] == Lower(term) <==> StandsAt(text, term, i)
  {
    LowerIs(text);
    LowerIs(term);
    hide Lower;
    var a, b, n := Lower(text), Lower(term), |term|;
    assert forall j :: 0 <= j < n ==> a[i..][..n][j] == a[i + j];
    forall j | 0 <= j < n ensures a[i + j] == b[j] <==> SameLetter(text[i + j], term[j]) {
      assert SameLetter(a[i + j], text[i + j]) && SameLetter(b[j], term[j]);
    }
  }

  lemma LowerHasPart(text: string, term: string)
    ensures HasPart(Lower(text), Lower(term)) <==> HoldsTerm(text, term)
  {
    LowerIs(text);
    LowerIs(term);
    hide Lower, StandsAt;
    forall i: nat | i + |term| <= |text|
      ensures Lower(text)[i..][..|term|] == Lower(term) <==> StandsAt(text, term, i)
    {
      LowerStandsAt(text, term, i);
    }
    if HoldsTerm(text, term) {
      var i: nat :| StandsAt(text, term, i);
      assert i + |term| <= |text| by { WithinText(text, term, i); }
      assert Lower(text)[i..][..|term|] == Lower(term);
    }
  }

  lemma WithinText(text: string, term: string, i: nat)
    requires StandsAt(text, term, i)
    ensures i + |term| <= |text|
  {
  }

  lemma WantedPasses(env: Env, v: View, actor: Actor, entity: string, opts: QueryOpts, id: string, now: int)
    ensures Wanted(env, v, actor, entity, opts, id, now) <==> Passes(env, v, actor, entity, opts, id, now)
  {
    hide HasPart, Lower, HoldsTerm, TrimSpace;
    var full := env.computed(v.model, v.records, Rid(entity, id), now);
    var term := TrimSpace(opts.search);
    assert Lower(term) == "" <==> term == "" by { LowerIs(term); }
    forall text ensures HasPart(Lower(text), Lower(term)) <==> HoldsTerm(text, term) {
      LowerHasPart(text, term);
    }
  }

  /** A record tried is listed exactly when the actor may read it and it passes the query. */
  lemma ListedIff(env: Env, v: View, actor: Actor, entity: string, opts: QueryOpts, ids: seq<string>, now: int,
                  id: string)
    requires id in ids
    ensures (exists row <- Select(env, v, actor, entity, opts, ids, now) :: row.id == id) <==>
      && Rid(entity, id) in v.records
      && Entitled(env, v, actor, "read", entity, "", Some(v.records[Rid(entity, id)]), now)
      && Passes(env, v, actor, entity, opts, id, now)
  {
    hide Can, Entitled, Passes, Wanted, Select;
    WantedPasses(env, v, actor, entity, opts, id, now);
    if Rid(entity, id) in v.records {
      CanIsEntitled(env, v, actor, "read", entity, "", Some(v.records[Rid(entity, id)]), now);
    }
    if Readable(env, v, actor, entity, id, now) && Wanted(env, v, actor, entity, opts, id, now) {
      SelectKeeps(env, v, actor, entity, opts, ids, now, id);
      assert RowOf(env, v, actor, entity, id, now).id == id;
    } else {
      forall row | row in Select(env, v, actor, entity, opts, ids, now) ensures row.id != id {
        var x := SelectedId(env, v, actor, entity, opts, ids, now, row);
      }
    }
  }

  /** A page is the stretch of rows from the offset, no longer than the limit; neither below one counts. */
  lemma PageIs(rows: seq<Row>, offset: int, limit: int)
    ensures var from := if offset <= 0 then 0 else if offset <= |rows| then offset else |rows|;
      var left := |rows| - from;
      && |Page(rows, offset, limit)| == (if 0 < limit <= left then limit else left)
      && forall i :: 0 <= i < |Page(rows, offset, limit)| ==> Page(rows, offset, limit)[i] == rows[from + i]
  {
  }

  /** Whatever ids are tried, a row selected is the record's, masked to what the actor may read. */
  lemma SelectedRowsShow(env: Env, v: View, actor: Actor, entity: string, opts: QueryOpts, ids: seq<string>,
                         now: int, row: Row)
    requires row in Select(env, v, actor, entity, opts, ids, now)
    ensures row.id in ids && Shows(env, v, actor, entity, row, now)
  {
    hide Can, Entitled;
    var id := SelectedId(env, v, actor, entity, opts, ids, now, row);
    var full := env.computed(v.model, v.records, Rid(entity, id), now);
    CanIsEntitled(env, v, actor, "read", entity, "", Some(v.records[Rid(entity, id)]), now);
    forall k ensures Can(env, v, actor, "read", entity, k, Some(full), now) <==>
      Entitled(env, v, actor, "read", entity, k, Some(full), now) {
      CanIsEntitled(env, v, actor, "read", entity, k, Some(full), now);
    }
  }

  /** A field that an item of the actor's role forbids to read, without a condition, is in no row. */
  lemma ForbiddenFieldIsInNoRow(env: Env, v: View, actor: Actor, entity: string, opts: QueryOpts, ids: seq<string>,
                                now: int, row: Row, rule: PermRule, item: PermItem, field: string)
    requires row in Select(env, v, actor, entity, opts, ids, now) && !("core." <= entity)
    requires actor.role in v.model.perms && rule in v.model.perms[actor.role] && rule.verb == "deny"
    requires item in rule.items && item.where == "" && (item.verb == "read" || item.verb == "full")
    requires item.all || (item.entity == entity && item.field in {"", "*", field})
    ensures field !in row.values
  {
    SelectedRowsShow(env, v, actor, entity, opts, ids, now, row);
    hide Select;
    var full := env.computed(v.model, v.records, Rid(entity, row.id), now);
    assert Forbids(env, v, actor, rule, item, "read", entity, field, Some(full), now);
  }

  /** And without an item that permits it, no field is. */
  lemma UnpermittedFieldIsInNoRow(env: Env, v: View, actor: Actor, entity: string, opts: QueryOpts, ids: seq<string>,
                                  now: int, row: Row, field: string)
    requires row in Select(env, v, actor, entity, opts, ids, now) && !("core." <= entity)
    requires actor.role in v.model.perms ==>
      forall rule <- v.model.perms[actor.role], item <- rule.items ::
        rule.verb in {"read", "full"} ==> !item.all && (item.entity != entity || item.field !in {"", "*", field})
    ensures field !in row.values
  {
    SelectedRowsShow(env, v, actor, entity, opts, ids, now, row);
    hide Select;
  }

  /** Pages of an order that only permutes hold rows that were selected. */
  lemma PagedRowsShow(env: Env, v: View, actor: Actor, entity: string, opts: QueryOpts, ids: seq<string>, now: int)
    requires forall rows :: multiset(opts.order(rows)) == multiset(rows)
    ensures forall row <- Page(opts.order(Select(env, v, actor, entity, opts, ids, now)), opts.offset, opts.limit) ::
      row.id in ids && Shows(env, v, actor, entity, row, now)
  {
    hide Select, Shows;
    var rows := Select(env, v, actor, entity, opts, ids, now);
    var ordered := opts.order(rows);
    forall row | row in Page(ordered, opts.offset, opts.limit)
      ensures row.id in ids && Shows(env, v, actor, entity, row, now)
    {
      assert row in ordered && row in multiset(ordered);
      SelectedRowsShow(env, v, actor, entity, opts, ids, now, row);
    }
  }

  // ---- clauses that meet the condition ------------------------------------------------------------

  function CtxFor(records: map<Rid, Fields>, selfId: string, actor: Actor, values: Fields, clock: string,
                  number: string -> Option<real>): Ctx
  {
    Ctx(values, actor.id, selfId, actor.attrs, clock, path => Computed.ResolvePath(records, path, values), number)
  }

  /** Conditions are evaluated by the condition language, with ref paths through the stored records. */
  ghost predicate UsesConditions(env: Env, clock: int -> string, number: string -> Option<real>) {
    forall text, records, selfId, actor, values, now ::
      env.holds(text, records, selfId, actor, values, now) <==>
      EvalWhere(text, CtxFor(records, selfId, actor, values, clock(now), number)) == Known(true)
  }

  /** Every record of the entity has every field the actor's read clauses scope by, with a value that compares
      as what it is: anything but an object, and no number against an actor's object. */
  ghost predicate ScopesStored(v: View, actor: Actor, entity: string) {
    forall item, t, id ::
      && actor.role in v.model.perms && item in ReadItems(v.model.perms[actor.role], entity)
      && t in ScopeTerms(item.where) && Rid(entity, id) in v.records
      ==> t.field in v.records[Rid(entity, id)]
          && Comparable(v.records[Rid(entity, id)][t.field], MeValue(t, actor.id, actor.attrs))
  }

  /** For plain clauses over stored fields, every term is necessary: the index agrees with the scan. */
  lemma PlainClausesAreServed(env: Env, v: View, actor: Actor, entity: string, render: Value -> string, now: int,
                              clock: int -> string, number: string -> Option<real>)
    requires UsesConditions(env, clock, number) && ScopesStored(v, actor, entity)
    requires actor.role in v.model.perms ==>
      forall item <- ReadItems(v.model.perms[actor.role], entity) :: Narrowable(item) ==> PlainClause(item.where)
    ensures TermsNecessary(env, v, actor, entity, render, now)
  {
    hide EvalWhere, ScopeTerms, CtxFor, UsesConditions, Narrowable, PlainClause;
    forall item, t, id |
      && actor.role in v.model.perms && item in ReadItems(v.model.perms[actor.role], entity) && Narrowable(item)
      && t in ScopeTerms(item.where) && Rid(entity, id) in v.records
      && env.holds(item.where, v.records, "", actor, v.records[Rid(entity, id)], now)
      ensures FiledUnder(v.records, render, entity, id, t.field, ScopeKey(t, actor, render))
    {
      ServedTerm(env, v, actor, entity, item, t, id, now, clock, number);
    }
  }

  lemma ServedTerm(env: Env, v: View, actor: Actor, entity: string, item: PermItem, t: Term, id: string, now: int,
                   clock: int -> string, number: string -> Option<real>)
    requires UsesConditions(env, clock, number) && Narrowable(item) && PlainClause(item.where)
    requires t in ScopeTerms(item.where) && Rid(entity, id) in v.records && t.field in v.records[Rid(entity, id)]
    requires Comparable(v.records[Rid(entity, id)][t.field], MeValue(t, actor.id, actor.attrs))
    requires env.holds(item.where, v.records, "", actor, v.records[Rid(entity, id)], now)
    ensures v.records[Rid(entity, id)][t.field] == MeValue(t, actor.id, actor.attrs)
  {
    hide EvalWhere, ScopeTerms, PlainClause, HasPart, Comparable;
    var c := CtxFor(v.records, "", actor, v.records[Rid(entity, id)], clock(now), number);
    assert EvalWhere(item.where, c) == Known(true);
    TermIsNecessary(item.where, c, t);
  }

  // ---- when narrowing changes nothing -----------------------------------------------------------------

  const ALL_ROWS := QueryOpts(map[], "", "", rows => rows, 0, 0)

  /** Narrowing changes no query exactly when every readable record is a candidate. */
  lemma NarrowedAgreesIff(env: Env, v: View, actor: Actor, entity: string, idx: EntityIndex, render: Value -> string,
                          now: int)
    requires Exact(idx, v.records, render, entity) && Candidates(idx, v.model, entity, actor, render).Some?
    ensures (forall opts ::
      Select(env, v, actor, entity, opts, SortedIds(Candidates(idx, v.model, entity, actor, render).value), now)
                         == Select(env, v, actor, entity, opts, SortedIds(IdsOf(v.records, entity)), now))
       <==> (forall id :: Readable(env, v, actor, entity, id, now) ==>
         id in Candidates(idx, v.model, entity, actor, render).value)
  {
    hide Exact, Can, ScopeTerms;
    var cand, all := Candidates(idx, v.model, entity, actor, render).value, IdsOf(v.records, entity);
    BucketsAreRecords(idx, ReadItems(v.model.perms[actor.role], entity), actor, v.records, render, entity);
    hide Candidates, RowOf;
    if forall id :: Readable(env, v, actor, entity, id, now) ==> id in cand {
      forall opts ensures Select(env, v, actor, entity, opts, SortedIds(cand), now) ==
        Select(env, v, actor, entity, opts, SortedIds(all), now) {
        SelectReadable(env, v, actor, entity, opts, now, all, cand);
      }
    } else {
      var id :| Readable(env, v, actor, entity, id, now) && id !in cand;
      LostRow(env, v, actor, entity, now, id, SortedIds(cand));
    }
  }

  /** A readable record outside the ids tried is a row the scan lists and they do not. */
  lemma LostRow(env: Env, v: View, actor: Actor, entity: string, now: int, id: string, ids: seq<string>)
    requires Readable(env, v, actor, entity, id, now) && id !in ids
    ensures Select(env, v, actor, entity, ALL_ROWS, ids, now)
         != Select(env, v, actor, entity, ALL_ROWS, SortedIds(IdsOf(v.records, entity)), now)
  {
    var all := SortedIds(IdsOf(v.records, entity));
    assert id in all;
    assert TrimSpace("") == "" && Lower("") == "";
    assert Wanted(env, v, actor, entity, ALL_ROWS, id, now);
    SelectKeeps(env, v, actor, entity, ALL_ROWS, all, now, id);
    var row := RowOf(env, v, actor, entity, id, now);
    if row in Select(env, v, actor, entity, ALL_ROWS, ids, now) {
      var other := SelectedId(env, v, actor, entity, ALL_ROWS, ids, now, row);
      assert false;
    }
  }

  // ---- clauses the index answers wrongly ---------------------------------------------------------------

  /** The role's one rule lets it read the entity's records where the clause holds. */
  predicate OneClause(v: View, actor: Actor, entity: string, where: string) {
    actor.role in v.model.perms
    && v.model.perms[actor.role] == [PermRule("read", [PermItem("read", entity, "", false, [], where)])]
  }

  lemma OneClauseReads(env: Env, v: View, actor: Actor, entity: string, where: string, idx: EntityIndex,
                       render: Value -> string,
                       t: Term, id: string, now: int)
    requires OneClause(v, actor, entity, where) && !IsCore(entity) && where != "" && !HasPart(Collapse(where), " or ")
    requires ScopeTerms(where) == [t] && t.field in idx.byField
    ensures Readable(env, v, actor, entity, id, now) <==>
      Rid(entity, id) in v.records && env.holds(where, v.records, "", actor, v.records[Rid(entity, id)], now)
    ensures Candidates(idx, v.model, entity, actor, render) == Some(Bucket(idx, t.field, ScopeKey(t, actor, render)))
  {
    hide ScopeTerms, HasPart, ScopeKey, Bucket;
    var item := PermItem("read", entity, "", false, [], where);
    var rules := [PermRule("read", [item])];
    assert rules[1..] == [] && [item][1..] == [];
    assert Applicable([], entity) == [] && ReadItems([], entity) == [];
    assert Applicable([item], entity) == [item] + [] && [item] + [] == [item];
    assert ReadItems(rules, entity) == [item];
    assert rules[0] in rules && rules[0].items[0] in rules[0].items;
    assert FirstIndexed([t], idx.byField.Keys) == Some(t);
    assert ItemBucket(idx, item, actor, render) == Some(Bucket(idx, t.field, ScopeKey(t, actor, render)));
    assert Buckets(idx, [], actor, render) == Some({});
    var bucket := Bucket(idx, t.field, ScopeKey(t, actor, render));
    assert Buckets(idx, [item], actor, render) == Some(bucket + {}) && bucket + {} == bucket;
  }

  lemma MeComparison(t: Term, c: Ctx, present: bool)
    requires '.' !in t.field && present == (t.field in c.values)
    requires present ==> c.values[t.field].Str?
    ensures present ==>
      Eval(Cmp(Path(t.field), "=", Lit(MeText(t.attr))), c) ==
        Known(c.values[t.field] == MeValue(t, c.actorId, c.attrs))
    ensures !present ==>
      Eval(Cmp(Path(t.field), "=", Lit(MeText(t.attr))), c) == Known(Str(t.field) == MeValue(t, c.actorId, c.attrs))
  {
    MeLiteral(t, c);
    hide LitValue, MeText;
  }

  function NegatedClause(t: Term): string {
    "not" + ([' '] + MeClause(t.field, t.attr))
  }

  /** What a record's clause evaluates to when the field holds a string. */
  lemma NegatedMeans(t: Term, c: Ctx)
    requires Named(t.field, t.attr) && t.field in c.values && c.values[t.field].Str?
    ensures EvalWhere(NegatedClause(t), c) == Known(c.values[t.field] != MeValue(t, c.actorId, c.attrs))
  {
    hide EvalWhere, NodeOk, Print, MeClause, Spared, HasPart, ScopeTerms, Collapse;
    MeClauseIs(t.field, t.attr);
    FieldIsPlain(t.field);
    var n := MeNode(t.field, t.attr);
    assert Spared(Not(n)) by { SparedNot(n); }
    PrintKeepsMeaning(Not(n), c);
    MeComparison(t, c, true);
    hide EvalCmp;
  }

  lemma SparedNot(n: Node)
    requires Spared(n)
    ensures Spared(Not(n))
  {
  }

  lemma MissingMeans(t: Term, c: Ctx)
    requires Named(t.field, t.attr) && t.field !in c.values
    ensures EvalWhere(MeClause(t.field, t.attr), c) == Known(Str(t.field) == MeValue(t, c.actorId, c.attrs))
  {
    hide EvalWhere, NodeOk, Print, MeClause, Spared, HasPart, ScopeTerms, Collapse;
    MeClauseIs(t.field, t.attr);
    FieldIsPlain(t.field);
    PrintKeepsMeaning(MeNode(t.field, t.attr), c);
    MeComparison(t, c, false);
    hide EvalCmp;
  }

  /** Under not, over stored strings, the index answers with the complement: every record is either readable or
      a candidate, never both, so no query through the index lists any row. */
  lemma NegatedTermIsInverted(env: Env, v: View, actor: Actor, entity: string, idx: EntityIndex,
                              render: Value -> string,
                              t: Term, opts: QueryOpts, now: int, clock: int -> string, number: string -> Option<real>)
    requires UsesConditions(env, clock, number) && Exact(idx, v.records, render, entity) && t.field in idx.byField
    requires !IsCore(entity) && Named(t.field, t.attr) && OneClause(v, actor, entity, NegatedClause(t))
    requires forall r <- v.records :: r.entity == entity ==> Get(v.records[r], t.field).Str?
    requires MeValue(t, actor.id, actor.attrs).Str? && forall s :: render(Str(s)) == s
    ensures Candidates(idx, v.model, entity, actor, render).Some?
    ensures forall id :: Rid(entity, id) in v.records ==>
      (Readable(env, v, actor, entity, id, now) <==> id !in Candidates(idx, v.model, entity, actor, render).value)
    ensures Select(env, v, actor, entity, opts, SortedIds(Candidates(idx, v.model, entity, actor, render).value),
      now) == []
  {
    hide EvalWhere, NodeOk, Named, HasPart, ScopeTerms, Collapse, NegatedClause, Can;
    NegatedIs(t);
    OneClauseReads(env, v, actor, entity, NegatedClause(t), idx, render, t, "", now);
    var cand := Candidates(idx, v.model, entity, actor, render).value;
    forall id | Rid(entity, id) in v.records ensures Readable(env, v, actor, entity, id, now) <==> id !in cand {
      OneClauseReads(env, v, actor, entity, NegatedClause(t), idx, render, t, id, now);
      NegatedMeans(t, CtxFor(v.records, "", actor, v.records[Rid(entity, id)], clock(now), number));
      assert id in cand <==> FiledUnder(v.records, render, entity, id, t.field, ScopeKey(t, actor, render));
    }
    forall id | id in cand ensures !Readable(env, v, actor, entity, id, now) {
      assert FiledUnder(v.records, render, entity, id, t.field, ScopeKey(t, actor, render));
    }
    NothingSelected(env, v, actor, entity, opts, SortedIds(cand), now);
  }

  lemma NegatedIs(t: Term)
    requires Named(t.field, t.attr)
    ensures NegatedClause(t) != "" && !HasPart(Collapse(NegatedClause(t)), " or ")
      && ScopeTerms(NegatedClause(t)) == [t]
  {
    MeClauseIs(t.field, t.attr);
    hide HasPart, ScopeTerms, Collapse, Print;
  }

  lemma {:induction false} NothingSelected(env: Env, v: View, actor: Actor, entity: string, opts: QueryOpts,
                                        ids: seq<string>, now: int)
    requires forall id <- ids :: !Readable(env, v, actor, entity, id, now)
    ensures Select(env, v, actor, entity, opts, ids, now) == []
  {
    hide Readable, Wanted;
    if ids != [] {
      NothingSelected(env, v, actor, entity, opts, ids[1..], now);
    }
  }

  /** A record without the scope field: the condition compares the field's own name, the index files it under
      null. Such a record is readable and no candidate, and so lost to every query through the index, exactly when
      the actor's value is the field's name and the two render apart. */
  lemma MissingFieldIsLostIff(env: Env, v: View, actor: Actor, entity: string, idx: EntityIndex,
                              render: Value -> string,
                              t: Term, id: string, now: int, clock: int -> string, number: string -> Option<real>)
    requires UsesConditions(env, clock, number) && Exact(idx, v.records, render, entity) && t.field in idx.byField
    requires !IsCore(entity) && Named(t.field, t.attr) && OneClause(v, actor, entity, MeClause(t.field, t.attr))
    requires Rid(entity, id) in v.records && t.field !in v.records[Rid(entity, id)]
    ensures Candidates(idx, v.model, entity, actor, render).Some?
    ensures Readable(env, v, actor, entity, id, now) && id !in Candidates(idx, v.model, entity, actor, render).value
      <==> MeValue(t, actor.id, actor.attrs) == Str(t.field) && render(Null) != render(Str(t.field))
    ensures Readable(env, v, actor, entity, id, now) && id !in Candidates(idx, v.model, entity, actor, render).value ==>
      Select(env, v, actor, entity, ALL_ROWS, SortedIds(Candidates(idx, v.model, entity, actor, render).value), now)
      != Select(env, v, actor, entity, ALL_ROWS, SortedIds(IdsOf(v.records, entity)), now)
  {
    hide EvalWhere, NodeOk, Named, HasPart, ScopeTerms, Collapse, MeClause, Can;
    PositiveIs(t);
    OneClauseReads(env, v, actor, entity, MeClause(t.field, t.attr), idx, render, t, id, now);
    MissingMeans(t, CtxFor(v.records, "", actor, v.records[Rid(entity, id)], clock(now), number));
    var cand := Candidates(idx, v.model, entity, actor, render).value;
    assert id in cand <==> FiledUnder(v.records, render, entity, id, t.field, ScopeKey(t, actor, render));
    if Readable(env, v, actor, entity, id, now) && id !in cand {
      LostRow(env, v, actor, entity, now, id, SortedIds(cand));
    }
  }

  lemma PositiveIs(t: Term)
    requires Named(t.field, t.attr)
    ensures MeClause(t.field, t.attr) != "" && !HasPart(Collapse(MeClause(t.field, t.attr)), " or ")
    ensures ScopeTerms(MeClause(t.field, t.attr)) == [t]
  {
    MeClauseIs(t.field, t.attr);
    hide HasPart, ScopeTerms, Collapse, Print;
  }

  /** A term that a clause only quotes: the records the clause is about have a text that names the actor, the
      index looks for records that hold the actor. A record is readable and no candidate, and so lost to every
      query through the index, exactly when it holds the text and its term's field renders unlike the actor's
      value. */
  lemma QuotedTermIsLostIff(env: Env, v: View, actor: Actor, entity: string, idx: EntityIndex,
                            render: Value -> string, field: string,
                            t: Term, id: string, now: int, clock: int -> string, number: string -> Option<real>)
    requires UsesConditions(env, clock, number) && Exact(idx, v.records, render, entity) && t.field in idx.byField
    requires !IsCore(entity) && Named(field, None) && Named(t.field, t.attr) && number(QuotedTerm(t)).None?
    requires OneClause(v, actor, entity, QuotedClause(field, t)) && Rid(entity, id) in v.records
    ensures Candidates(idx, v.model, entity, actor, render).Some?
    ensures Readable(env, v, actor, entity, id, now) && id !in Candidates(idx, v.model, entity, actor, render).value
      <==> Get(v.records[Rid(entity, id)], field) == Str(QuotedTerm(t))
           && render(Get(v.records[Rid(entity, id)], t.field)) != ScopeKey(t, actor, render)
    ensures Readable(env, v, actor, entity, id, now) && id !in Candidates(idx, v.model, entity, actor, render).value ==>
      Select(env, v, actor, entity, ALL_ROWS, SortedIds(Candidates(idx, v.model, entity, actor, render).value), now)
      != Select(env, v, actor, entity, ALL_ROWS, SortedIds(IdsOf(v.records, entity)), now)
  {
    hide EvalWhere, Named, HasPart, ScopeTerms, Collapse, QuotedClause, QuotedTerm, Can, ScopeKey;
    QuotedIs(field, t);
    OneClauseReads(env, v, actor, entity, QuotedClause(field, t), idx, render, t, id, now);
    QuotedClauseMeans(field, t, CtxFor(v.records, "", actor, v.records[Rid(entity, id)], clock(now), number));
    var cand := Candidates(idx, v.model, entity, actor, render).value;
    assert id in cand <==> FiledUnder(v.records, render, entity, id, t.field, ScopeKey(t, actor, render));
    if Readable(env, v, actor, entity, id, now) && id !in cand {
      LostRow(env, v, actor, entity, now, id, SortedIds(cand));
    }
  }

  lemma QuotedIs(field: string, t: Term)
    requires Named(field, None) && Named(t.field, t.attr)
    ensures QuotedClause(field, t) != "" && !HasPart(Collapse(QuotedClause(field, t)), " or ")
      && ScopeTerms(QuotedClause(field, t)) == [t]
  {
    hide *;
    QuotedClauseIs(field, t);
  }
}
