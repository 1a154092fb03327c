/** What a roll-up counts: the records of an entity whose reference names this one, each once, by its own value. */
module Rollups {
  import opened Values
  import opened Model
  import opened Projection
  import opened Records
  import opened Conditions
  import opened Arithmetic
  import opened Computed

  // ---- the text of a roll-up ---------------------------------------------------------------

  /** A name: no blanks, dots, equals signs or parentheses. */
  predicate Plain(s: string) {
    s != "" && forall ch <- s :: !IsSpace(ch) && ch != '.' && ch != '=' && ch != '(' && ch != ')'
  }

  /** Entity.field where ref = $self; a roll-up that counts needs no field. */
  function RollupText(entity: string, field: string, ref: string): string {
    (if field == "" then entity else entity + "." + field) + " where " + (ref + " = $self")
  }

  lemma {:induction false} CutAt(a: string, sep: string, b: string)
    requires sep != "" && sep[0] !in a
    ensures Cut(a + sep + b, sep) == Some((a, b))
    decreases |a|
  {
    var s := a + sep + b;
    if a == "" {
      assert s[..|sep|] == sep && s[|sep|..] == b;
    } else {
      assert s[0] == a[0] && a[0] in a && s[..|sep|][0] == s[0];
      assert s[1..] == a[1..] + sep + b && [a[0]] + a[1..] == a;
      assert forall ch <- a[1..] :: ch in a;
      CutAt(a[1..], sep, b);
    }
  }

  lemma {:induction false} NoCut(s: string, sep: string)
    requires sep != "" && sep[0] !in s
    ensures Cut(s, sep).None?
  {
    if s != "" {
      assert |s| >= |sep| ==> s[..|sep|][0] == s[0];
      assert s[0] in s;
      NoCut(s[1..], sep);
    }
  }

  lemma TrimTidy(s: string)
    requires s != "" && !IsSpace(s[0]) && !IsSpace(s[|s| - 1])
    ensures TrimSpace(s) == s
  {
  }

  lemma TrimOne(s: string)
    requires Plain(s)
    ensures TrimSpace(s) == s && TrimSpace(s + [' ']) == s && TrimSpace([' '] + s) == s
  {
    TrimTidy(s);
    assert s[0] in s && s[|s| - 1] in s;
    var t := s + [' '];
    assert TrimLeft(t) == t && t[|t| - 1] == ' ' && t[..|t| - 1] == s;
    assert TrimRight(t) == TrimRight(s);
    var u := [' '] + s;
    assert u[1..] == s && TrimLeft(u) == TrimLeft(s);
  }

  /** The text reads as its entity, its field and the reference, with the parenthesis that closes it. */
  lemma TargetReads(entity: string, field: string, ref: string)
    requires Plain(entity) && Plain(ref) && (field == "" || Plain(field))
    ensures TargetOf(RollupText(entity, field, ref) + ")") == Some(Target(entity, field, ref))
  {
    var text, cond, self := RollupText(entity, field, ref), ref + " = $self", "$self";
    var whole := if field == "" then entity else entity + "." + field;
    SelfIsPlain(self);
    assert cond == (ref + [' ']) + "=" + ([' '] + self);
    WholeIs(entity, field, whole);
    TextEndsTidy(text, whole, ref);
    hide *;
    CutAt(whole, " where ", cond);
    CutAt(ref + [' '], "=", [' '] + self);
    TrimOne(ref);
    TrimOne(self);
    TargetFrom(text, whole, cond, ref + [' ']);
    if field == "" {
      NoCut(entity, ".");
    } else {
      CutAt(entity, ".", field);
      TrimOne(entity);
      TrimOne(field);
    }
  }

  lemma TargetFrom(text: string, whole: string, cond: string, left: string)
    requires TrimSpace(text + ")") == text + ")" && TrimSpace(text) == text && TrimSpace(whole) == whole
    requires Cut(text, " where ") == Some((whole, cond)) && Cut(cond, "=") == Some((left, " $self"))
    requires TrimSpace(" $self") == "$self"
    ensures var dotted := Cut(whole, ".");
      TargetOf(text + ")") ==
      if dotted.None? then Some(Target(whole, "", TrimSpace(left)))
      else Some(Target(TrimSpace(dotted.value.0), TrimSpace(dotted.value.1), TrimSpace(left)))
  {
    hide TrimSpace, Cut;
    assert (text + ")")[..|text + ")"| - 1] == text;
  }

  lemma SelfIsPlain(self: string)
    requires self == "$self"
    ensures Plain(self) && [' '] + self == " $self"
  {
  }

  lemma WholeIs(entity: string, field: string, whole: string)
    requires Plain(entity) && (field == "" || Plain(field))
    requires whole == if field == "" then entity else entity + "." + field
    ensures whole != "" && " where "[0] !in whole && TrimSpace(whole) == whole && "."[0] !in entity
    ensures "="[0] !in whole && !IsSpace(whole[0])
  {
    assert forall i :: 0 <= i < |entity| ==> entity[i] in entity;
    assert forall i :: 0 <= i < |field| ==> field[i] in field;
    assert forall i :: 0 <= i < |whole| ==>
      (i < |entity| ==> whole[i] == entity[i]) && (i > |entity| ==> whole[i] == field[i - |entity| - 1]);
    assert whole[0] == entity[0];
    assert whole[|whole| - 1] == if field == "" then entity[|entity| - 1] else field[|field| - 1];
    TrimTidy(whole);
  }

  lemma TextEndsTidy(text: string, whole: string, ref: string)
    requires text == whole + " where " + (ref + " = $self") && whole != "" && !IsSpace(whole[0]) && Plain(ref)
    ensures TrimSpace(text + ")") == text + ")" && TrimSpace(text) == text && "="[0] !in ref + [' ']
  {
    assert text[0] == whole[0] && text[|text| - 1] == "$self"[4] && (text + ")")[0] == whole[0];
    assert (text + ")")[|text + ")"| - 1] == ')';
    TrimTidy(text);
    TrimTidy(text + ")");
  }

  // ---- the rows of a roll-up ---------------------------------------------------------------------

  /** The record's reference names this record. */
  predicate Refers(records: map<Rid, Fields>, entity: string, ref: string, id: string, selfId: string) {
    && Rid(entity, id) in records
    && var x := Get(records[Rid(entity, id)], ref); x == Str(selfId) || (selfId == "" && !x.Str?)
  }

  /** The field is a computed one of the entity. */
  predicate IsComputed(m: Model, t: Target, f: Field) {
    t.entity in m.entities && f in m.entities[t.entity].fields && f.name == t.field && f.computed != ""
  }

  /** What a record contributes: its stored value, or what its computed field evaluates to, where it does; a count
      looks at no value. */
  ghost predicate Contributes(fuel: nat, w: World, fn: string, t: Target, id: string, x: Value) {
    && Rid(t.entity, id) in w.records
    && var row := w.records[Rid(t.entity, id)];
       || (x == Get(row, t.field)
           && (fn == "count" || forall f :: IsComputed(w.model, t, f) ==>
                 EvalField(fuel, w, f.computed, id, row) == Fails))
       || (fn != "count" && x.Num?
           && exists f :: IsComputed(w.model, t, f) && EvalField(fuel, w, f.computed, id, row) == Got(x.n))
  }

  predicate FieldsDistinct(m: Model, entity: string) {
    entity in m.entities ==> DistinctFields(m.entities[entity].fields)
  }

  lemma ComputedIs(m: Model, t: Target)
    requires FieldsDistinct(m, t.entity)
    ensures var f := ComputedField(m, t.entity, t.field);
      forall g :: IsComputed(m, t, g) <==> f == Some(g)
  {
    if t.entity in m.entities {
      var fields := m.entities[t.entity].fields;
      forall g | g in fields && g.name == t.field ensures FindField(fields, t.field) == Some(g) {
        var h := FindField(fields, t.field).value;
        var i :| 0 <= i < |fields| && fields[i] == g;
        var j :| 0 <= j < |fields| && fields[j] == h;
      }
    }
  }

  lemma RowContributes(fuel: nat, w: World, fn: string, t: Target, id: string)
    requires FieldsDistinct(w.model, t.entity) && Rid(t.entity, id) in w.records
    requires RowValue(fuel, w, fn, t, id).Some?
    ensures Contributes(fuel, w, fn, t, id, RowValue(fuel, w, fn, t, id).value)
  {
    hide EvalField, ComputedField, FieldsDistinct, IsComputed;
    ComputedIs(w.model, t);
    var f := ComputedField(w.model, t.entity, t.field);
    if f.Some? {
      assert IsComputed(w.model, t, f.value);
    }
  }

  /** Related records in the order tried, each once. */
  ghost predicate RowsOf(fuel: nat, w: World, fn: string, t: Target, selfId: string, ids: seq<string>,
                         picked: seq<nat>, rows: seq<Value>)
  {
    && |picked| == |rows|
    && (forall i :: 0 <= i < |picked| ==>
          picked[i] < |ids| && Refers(w.records, t.entity, t.refField, ids[picked[i]], selfId)
          && Contributes(fuel, w, fn, t, ids[picked[i]], rows[i]))
    && (forall i, j :: 0 <= i < j < |picked| ==> picked[i] < picked[j])
    && (forall k :: 0 <= k < |ids| && Refers(w.records, t.entity, t.refField, ids[k], selfId) ==> k in picked)
  }

  lemma {:induction false} RowsAreRelated(fuel: nat, w: World, fn: string, t: Target, selfId: string, ids: seq<string>)
    returns (picked: seq<nat>)
    requires FieldsDistinct(w.model, t.entity) && Rows(fuel, w, fn, t, selfId, ids).Some?
    ensures RowsOf(fuel, w, fn, t, selfId, ids, picked, Rows(fuel, w, fn, t, selfId, ids).value)
    decreases |ids|
  {
    hide RowValue, Contributes, FieldsDistinct, Refers;
    picked := [];
    if ids != [] {
      var rest := RowsAreRelated(fuel, w, fn, t, selfId, ids[1..]);
      var less := Rows(fuel, w, fn, t, selfId, ids[1..]).value;
      var later := seq(|rest|, i requires 0 <= i < |rest| => rest[i] + 1);
      RelatedIs(w.records, t, ids[0], selfId);
      Shifted(fuel, w, fn, t, selfId, ids, rest, later, less);
      hide RowsOf;
      if Related(w.records, t, ids[0], selfId) {
        RowContributes(fuel, w, fn, t, ids[0]);
        picked := [0] + later;
        FirstPicked(fuel, w, fn, t, selfId, ids, later, less, RowValue(fuel, w, fn, t, ids[0]).value);
      } else {
        picked := later;
        NotPicked(fuel, w, fn, t, selfId, ids, later, less);
      }
    }
  }

  /** The places after the first id. */
  ghost predicate LaterRows(fuel: nat, w: World, fn: string, t: Target, selfId: string, ids: seq<string>,
                            later: seq<nat>, rows: seq<Value>)
  {
    && |later| == |rows|
    && (forall i :: 0 <= i < |later| ==>
          0 < later[i] < |ids| && Refers(w.records, t.entity, t.refField, ids[later[i]], selfId)
          && Contributes(fuel, w, fn, t, ids[later[i]], rows[i]))
    && (forall i, j :: 0 <= i < j < |later| ==> later[i] < later[j])
    && (forall k :: 0 < k < |ids| && Refers(w.records, t.entity, t.refField, ids[k], selfId) ==> k in later)
  }

  lemma FirstPicked(fuel: nat, w: World, fn: string, t: Target, selfId: string, ids: seq<string>, later: seq<nat>,
                    rows: seq<Value>, x: Value)
    requires ids != [] && LaterRows(fuel, w, fn, t, selfId, ids, later, rows)
    requires Refers(w.records, t.entity, t.refField, ids[0], selfId) && Contributes(fuel, w, fn, t, ids[0], x)
    ensures RowsOf(fuel, w, fn, t, selfId, ids, [0] + later, [x] + rows)
  {
    hide Refers, Contributes;
  }

  lemma NotPicked(fuel: nat, w: World, fn: string, t: Target, selfId: string, ids: seq<string>, later: seq<nat>,
                  rows: seq<Value>)
    requires ids != [] && LaterRows(fuel, w, fn, t, selfId, ids, later, rows)
    requires !Refers(w.records, t.entity, t.refField, ids[0], selfId)
    ensures RowsOf(fuel, w, fn, t, selfId, ids, later, rows)
  {
    hide Refers, Contributes;
  }

  lemma RelatedIs(records: map<Rid, Fields>, t: Target, id: string, selfId: string)
    ensures Related(records, t, id, selfId) <==> Refers(records, t.entity, t.refField, id, selfId)
  {
  }

  /** The same places, counted from one id earlier. */
  lemma Shifted(fuel: nat, w: World, fn: string, t: Target, selfId: string, ids: seq<string>, rest: seq<nat>,
                later: seq<nat>, rows: seq<Value>)
    requires ids != [] && RowsOf(fuel, w, fn, t, selfId, ids[1..], rest, rows)
    requires |later| == |rest| && forall i :: 0 <= i < |rest| ==> later[i] == rest[i] + 1
    ensures LaterRows(fuel, w, fn, t, selfId, ids, later, rows)
  {
    hide Refers, Contributes;
    forall k | 0 < k < |ids| && Refers(w.records, t.entity, t.refField, ids[k], selfId) ensures k in later {
      assert ids[1..][k - 1] == ids[k];
      var i :| 0 <= i < |rest| && rest[i] == k - 1;
      assert later[i] == k;
    }
  }

  /** A roll-up over an entity totals the records whose reference names this one, each once, by what it contributes. */
  lemma RollupTotals(fuel: nat, w: World, fn: string, entity: string, field: string, ref: string, selfId: string)
    returns (picked: seq<nat>, rows: seq<Value>)
    requires Plain(entity) && Plain(ref) && (field == "" || Plain(field)) && FieldsDistinct(w.model, entity)
    requires Aggregate(fuel, w, fn, RollupText(entity, field, ref) + ")", selfId) != Diverges
    ensures Aggregate(fuel, w, fn, RollupText(entity, field, ref) + ")", selfId) == Got(Total(fn, rows))
    ensures RowsOf(fuel, w, fn, Target(entity, field, ref), selfId, SortedIds(IdsOf(w.records, entity)), picked, rows)
  {
    hide Rows, TargetOf, RowsOf, Total, RollupText, Plain, FieldsDistinct;
    TargetReads(entity, field, ref);
    var t, ids := Target(entity, field, ref), SortedIds(IdsOf(w.records, entity));
    rows := Rows(fuel, w, fn, t, selfId, ids).value;
    picked := RowsAreRelated(fuel, w, fn, t, selfId, ids);
  }

  /** So a count is the number of those records. */
  lemma CountIsReferers(fuel: nat, w: World, entity: string, ref: string, selfId: string)
    requires Plain(entity) && Plain(ref) && FieldsDistinct(w.model, entity)
    requires Aggregate(fuel, w, "count", RollupText(entity, "", ref) + ")", selfId) != Diverges
    ensures Aggregate(fuel, w, "count", RollupText(entity, "", ref) + ")", selfId) ==
      Got(|set id | id in IdsOf(w.records, entity) && Refers(w.records, entity, ref, id, selfId)| as real)
  {
    hide Aggregate, RollupText, Plain, FieldsDistinct, Refers, Contributes;
    var picked, rows := RollupTotals(fuel, w, "count", entity, "", ref, selfId);
    var ids := SortedIds(IdsOf(w.records, entity));
    SortedIdsDistinct(IdsOf(w.records, entity));
    var named := seq(|picked|, i requires 0 <= i < |picked| => ids[picked[i]]);
    var referers := set id | id in IdsOf(w.records, entity) && Refers(w.records, entity, ref, id, selfId);
    forall id ensures id in referers <==> id in named {
      if id in referers {
        assert id in ids;
        var k :| 0 <= k < |ids| && ids[k] == id;
        var i :| 0 <= i < |picked| && picked[i] == k;
        assert named[i] == id;
      }
    }
    DistinctCount(named, referers);
  }

  lemma {:induction false} DistinctCount(xs: seq<string>, all: set<string>)
    requires forall i, j :: 0 <= i < j < |xs| ==> xs[i] != xs[j]
    requires forall x :: x in all <==> x in xs
    ensures |all| == |xs|
  {
    if xs != [] {
      assert xs == [xs[0]] + xs[1..];
      assert xs[0] !in xs[1..];
      DistinctCount(xs[1..], all - {xs[0]});
    }
  }
}
