/** What a computed field is: its expression over the record, its references and the records that refer to it. */
module ComputedMeaning {
  import opened Values
  import opened Model
  import opened Projection
  import opened Records
  import opened Conditions
  import opened Spelling
  import opened Arithmetic
  import opened ArithmeticMeaning
  import opened Computed
  import opened Rollups

  // ---- reference paths ------------------------------------------------------------------

  /** No two records share an id, whatever their entities. */
  predicate UniqueIds(records: map<Rid, Fields>) {
    forall r, s | r in records && s in records :: r.id == s.id ==> r == s
  }

  /** The path leads to the value: through one record after another, by the id each part but the last holds. */
  ghost predicate Leads(records: map<Rid, Fields>, parts: seq<string>, current: Fields, x: Value)
    decreases |parts|
  {
    && parts != [] && parts[0] in current
    && if |parts| == 1 then x == current[parts[0]]
       else exists r <- records ::
              r.id != "" && current[parts[0]] == Str(r.id) && Leads(records, parts[1..], records[r], x)
  }

  lemma {:induction false} HopLeads(records: map<Rid, Fields>, parts: seq<string>, current: Fields)
    requires parts != [] && UniqueIds(records)
    ensures forall x :: Hop(records, parts, current) == Some(x) <==> Leads(records, parts, current, x)
    decreases |parts|
  {
    if |parts| > 1 && parts[0] in current && current[parts[0]].Str? && current[parts[0]].s != "" {
      var id := current[parts[0]].s;
      if r :| r in records && r.id == id {
        LookupIs(records, r);
        HopLeads(records, parts[1..], records[r]);
      } else {
        NoLookup(records, id);
      }
    }
  }

  lemma LookupIs(records: map<Rid, Fields>, r: Rid)
    requires UniqueIds(records) && r in records
    ensures LookupAny(records, r.id) == Some(records[r])
  {
    var entities := set s | s in records && s.id == r.id :: s.entity;
    assert r.entity in entities;
    assert forall e <- entities :: Rid(e, r.id) in records;
    assert entities == {r.entity};
  }

  lemma NoLookup(records: map<Rid, Fields>, id: string)
    requires forall r <- records :: r.id != id
    ensures LookupAny(records, id).None?
  {
  }

  /** The parts of a path, with dots between them. */
  function Dots(parts: seq<string>): string
    requires parts != []
  {
    if |parts| == 1 then parts[0] else parts[0] + "." + Dots(parts[1..])
  }

  predicate PlainParts(parts: seq<string>) {
    parts != [] && forall p <- parts :: '.' !in p && ' ' !in p
  }

  lemma {:induction false} NoBlanks(s: string)
    requires ' ' !in s
    ensures WithoutBlanks(s) == s
  {
    if s != "" {
      assert s[0] in s && forall ch <- s[1..] :: ch in s;
      NoBlanks(s[1..]);
    }
  }

  lemma {:induction false} SplitOne(part: string, rest: string)
    requires '.' !in part
    ensures Split(part, '.') == [part]
    ensures Split(part + "." + rest, '.') == [part] + Split(rest, '.')
    decreases |part|
  {
    var s := part + "." + rest;
    if part == "" {
      assert s[0] == '.' && s[1..] == rest;
      assert [""] + Split(rest, '.') == [part] + Split(rest, '.');
    } else {
      assert part[0] in part && forall ch <- part[1..] :: ch in part;
      assert s[0] == part[0] && s[1..] == part[1..] + "." + rest && [part[0]] + part[1..] == part;
      SplitOne(part[1..], rest);
      assert ([part[1..]] + Split(rest, '.'))[1..] == Split(rest, '.');
      assert Split(s, '.') == [[s[0]] + part[1..]] + Split(rest, '.');
    }
  }

  lemma {:induction false} SplitDots(parts: seq<string>)
    requires PlainParts(parts)
    ensures Split(Dots(parts), '.') == parts && ' ' !in Dots(parts)
    decreases |parts|
  {
    assert parts[0] in parts;
    if |parts| == 1 {
      SplitOne(parts[0], "");
      assert parts == [parts[0]];
    } else {
      assert forall p <- parts[1..] :: p in parts;
      SplitDots(parts[1..]);
      SplitOne(parts[0], Dots(parts[1..]));
      assert parts == [parts[0]] + parts[1..];
    }
  }

  /** A path resolves to the value it leads to, and to none where it leads nowhere. */
  lemma PathLeads(records: map<Rid, Fields>, parts: seq<string>, values: Fields)
    requires PlainParts(parts) && UniqueIds(records)
    ensures forall x :: ResolvePath(records, Dots(parts), values) == Some(x) <==> Leads(records, parts, values, x)
  {
    SplitDots(parts);
    NoBlanks(Dots(parts));
    HopLeads(records, parts, values);
    hide Hop, Leads, Split, WithoutBlanks;
  }

  /** A path of names, each letters, digits and underscores, no digit first, and a numeral of digits with or without
      a fraction, are what an expression may be built of. */
  lemma NamesAreReadable(name: string, next: string, whole: string, fraction: string)
    requires name != "" && next != "" && !('0' <= name[0] <= '9')
    requires forall ch <- name + next :: 'a' <= ch <= 'z' || 'A' <= ch <= 'Z' || '0' <= ch <= '9' || ch == '_'
    requires whole != "" && fraction != "" && forall ch <- whole + fraction :: '0' <= ch <= '9'
    ensures ArithOk(Arith.Field(name)) && ArithOk(Arith.Field(name + "." + next))
    ensures ArithOk(Arith.Numeral(whole)) && ArithOk(Arith.Numeral(whole + "." + fraction))
  {
    Joined(name, next);
    Joined(whole, fraction);
  }

  lemma Joined(a: string, b: string)
    requires a != "" && b != "" && '.' !in a + b
    requires forall ch <- a + b :: 'a' <= ch <= 'z' || 'A' <= ch <= 'Z' || '0' <= ch <= '9' || ch == '_'
    ensures TightDots(a) && TightDots(a + "." + b)
    ensures forall ch <- a :: ch in a + b
    ensures forall ch <- a + "." + b :: ch == '.' || ch in a + b
    ensures (a + "." + b)[0] == a[0]
  {
    var s := a + "." + b;
    assert forall i :: 0 <= i < |a| ==> s[i] == a[i] && (a + b)[i] == a[i] && a[i] in a + b;
    assert forall i :: |a| < i < |s| ==> s[i] == b[i - |a| - 1] && (a + b)[i - 1] == s[i];
    forall i | 0 <= i < |s| && i != |a| ensures s[i] in a + b && s[i] != '.' && !IsGap(s[i]) {
    }
  }

  // ---- one field ------------------------------------------------------------------------------

  /** A computed field's text evaluates as its expression, read from the record and its world. */
  lemma FieldIsItsExpression(fuel: nat, w: World, n: Arith, selfId: string, values: Fields)
    requires fuel > 0 && ArithOk(n) && Returns(n, ReaderFor(fuel - 1, w, selfId, values))
    ensures var c := ReaderFor(fuel - 1, w, selfId, values);
      EvalField(fuel, w, PrintArith(n, Expression), selfId, values) == if Broken(n, c) then Fails else Got(RealOf(n, c))
  {
    hide ArithOk, Returns, Broken, RealOf, PrintArith, ReaderFor, EvalExpr;
    OnePassIsTreeValue(n, ReaderFor(fuel - 1, w, selfId, values));
  }

  /** What an expression reads: numerals by the number parser, paths through the records, elapsed time from the
      clock; a function by any other name, roll-ups aside, has no value. */
  lemma ReaderReads(fuel: nat, w: World, selfId: string, values: Fields, parts: seq<string>, name: string, body: string)
    requires UniqueIds(w.records) && PlainParts(parts)
    ensures var c := ReaderFor(fuel, w, selfId, values);
      && c.number == w.number
      && (forall x :: c.path(Dots(parts)) == Some(x) <==> Leads(w.records, parts, values, x))
      && (name in {"days_since", "hours_since", "minutes_since", "business_days_since", "business_hours_since",
                   "business_minutes_since"} ==>
            var v := w.since(name, TrimSpace(body), values);
            c.call(name, body) == if v.Some? then Got(v.value) else Fails)
      && (name in {"days_since", "hours_since", "minutes_since", "business_days_since", "business_hours_since",
                   "business_minutes_since", "count", "sum", "avg", "min", "max"} || c.call(name, body) == Fails)
  {
    PathLeads(w.records, parts, values);
    hide Leads, ResolvePath, Aggregate, TrimSpace, Dots;
  }

  // ---- a roll-up as a field ---------------------------------------------------------------------

  lemma {:induction false} NoParens(s: string)
    requires '(' !in s && ')' !in s
    ensures Close(s + [')'], 1) == Some(|s|)
  {
    if s != "" {
      assert s[0] in s && (s + [')'])[1..] == s[1..] + [')'] && (s + [')'])[0] == s[0];
      assert forall ch <- s[1..] :: ch in s;
      NoParens(s[1..]);
    }
  }

  /** The text of a roll-up field. */
  function RollupField(fn: string, entity: string, field: string, ref: string): string {
    fn + (['('] + (RollupText(entity, field, ref) + [')']))
  }

  lemma RollupIsPlain(fn: string, entity: string, field: string, ref: string)
    requires fn in {"count", "sum", "avg", "min", "max"} && Plain(entity) && Plain(ref) && (field == "" || Plain(field))
    ensures PlainCall(fn, RollupText(entity, field, ref))
  {
    hide *;
    RollupChars(entity, field, ref);
    NoParens(RollupText(entity, field, ref));
    FunctionIsName(fn);
    CallIsPlain(fn, RollupText(entity, field, ref));
  }

  lemma FunctionIsName(fn: string)
    requires fn in {"count", "sum", "avg", "min", "max"}
    ensures PlainPath(fn)
  {
  }

  lemma CallIsPlain(name: string, body: string)
    requires PlainPath(name) && TightDots(body) && Close(body + [')'], 1) == Some(|body|)
    ensures PlainCall(name, body)
  {
    hide PlainPath, TightDots, Close;
  }

  lemma RollupChars(entity: string, field: string, ref: string)
    requires Plain(entity) && Plain(ref) && (field == "" || Plain(field))
    ensures var text := RollupText(entity, field, ref); '(' !in text && ')' !in text && TightDots(text)
  {
    var text, tail := RollupText(entity, field, ref), " where " + (ref + " = $self");
    var head := if field == "" then entity else entity + "." + field;
    assert text == head + tail;
    forall i | 0 <= i < |tail| ensures tail[i] !in {'(', ')', '.'} {
      if 7 <= i < 7 + |ref| {
        assert tail[i] == ref[i - 7] && ref[i - 7] in ref;
      } else if i < 7 {
        assert tail[i] == " where "[i];
      } else {
        assert tail[i] == " = $self"[i - 7 - |ref|];
      }
    }
    forall i | 0 <= i < |head|
      ensures head[i] !in {'(', ')', ' '} && !IsSpace(head[i]) && (head[i] == '.' ==> i == |entity|)
    {
      if i < |entity| {
        assert head[i] == entity[i] && entity[i] in entity;
      } else if i > |entity| {
        assert head[i] == field[i - |entity| - 1] && field[i - |entity| - 1] in field;
      }
    }
    forall i | 0 <= i < |text| ensures text[i] !in {'(', ')'} {
      assert text[i] == if i < |head| then head[i] else tail[i - |head|];
    }
    forall i | 0 <= i < |text| && text[i] == '.'
      ensures 0 < i < |text| - 1 && !IsGap(text[i - 1]) && !IsGap(text[i + 1])
    {
      assert i < |head|;
      assert text[i] == head[i] && text[i - 1] == head[i - 1] && text[i + 1] == head[i + 1];
    }
  }

  lemma CallIsAggregate(fuel: nat, w: World, fn: string, body: string, selfId: string, values: Fields)
    requires fn in {"count", "sum", "avg", "min", "max"}
    ensures ReaderFor(fuel, w, selfId, values).call(fn, body) == Aggregate(fuel, w, fn, body + ")", selfId)
  {
    hide Aggregate;
    assert IsAggregate(fn) && !IsSince(fn);
    assert ReaderFor(fuel, w, selfId, values).call(fn, body) == FunctionTerm(fuel, w, fn, body, selfId, values);
  }

  /** A roll-up field totals the records whose reference names the record, each once, by what it contributes. */
  lemma RollupFieldTotals(fuel: nat, w: World, fn: string, entity: string, field: string, ref: string, selfId: string,
                          values: Fields) returns (picked: seq<nat>, rows: seq<Value>)
    requires fuel > 0 && fn in {"count", "sum", "avg", "min", "max"}
    requires Plain(entity) && Plain(ref) && (field == "" || Plain(field)) && FieldsDistinct(w.model, entity)
    requires Aggregate(fuel - 1, w, fn, RollupText(entity, field, ref) + ")", selfId) != Diverges
    ensures EvalField(fuel, w, RollupField(fn, entity, field, ref), selfId, values) == Got(Total(fn, rows))
    ensures RowsOf(fuel - 1, w, fn, Target(entity, field, ref), selfId, SortedIds(IdsOf(w.records, entity)), picked,
      rows)
  {
    hide *;
    var text := RollupText(entity, field, ref);
    var c := ReaderFor(fuel - 1, w, selfId, values);
    CallIsAggregate(fuel - 1, w, fn, text, selfId, values);
    RollupIsPlain(fn, entity, field, ref);
    picked, rows := RollupTotals(fuel - 1, w, fn, entity, field, ref, selfId);
    CallTree(fn, text, c);
    FieldIsItsExpression(fuel, w, Call(fn, text), selfId, values);
    RollupFieldIs(fn, entity, field, ref);
  }

  lemma RollupFieldIs(fn: string, entity: string, field: string, ref: string)
    ensures RollupField(fn, entity, field, ref) == fn + (['('] + (RollupText(entity, field, ref) + [')']))
  {
    hide RollupText;
  }

  lemma CallTree(name: string, body: string, c: Reader)
    requires PlainCall(name, body) && c.call(name, body).Got?
    ensures ArithOk(Call(name, body)) && Returns(Call(name, body), c) && !Broken(Call(name, body), c)
    ensures RealOf(Call(name, body), c) == c.call(name, body).v
    ensures PrintArith(Call(name, body), Expression) == name + (['('] + (body + [')']))
  {
    hide PlainCall;
  }

  // ---- all fields of a record -----------------------------------------------------------------------

  /** Each computed field has the value of its expression over the fields before it, where that has one. */
  lemma {:induction false} ComputedInTurn(fuel: nat, w: World, fields: seq<Field>, selfId: string,
                                          values: Fields, i: nat)
    requires DistinctFields(fields) && i < |fields| && fields[i].computed != ""
    requires WithComputed(fuel, w, fields, selfId, values).Some?
    ensures WithComputed(fuel, w, fields[..i], selfId, values).Some?
    ensures var before := WithComputed(fuel, w, fields[..i], selfId, values).value;
      var full, v := WithComputed(fuel, w, fields, selfId, values).value,
        EvalField(fuel, w, fields[i].computed, selfId, before);
      && (v.Got? ==> fields[i].name in full && full[fields[i].name] == Num(v.v))
      && (v.Fails? ==> (fields[i].name in full <==> fields[i].name in before)
                       && Get(full, fields[i].name) == Get(before, fields[i].name))
    decreases |fields|
  {
    hide EvalField;
    var f, rest := fields[0], fields[1..];
    var next := if f.computed != "" && EvalField(fuel, w, f.computed, selfId, values).Got?
                then values[f.name := Num(EvalField(fuel, w, f.computed, selfId, values).v)] else values;
    assert forall a, b :: 0 <= a < b < |rest| ==> rest[a] == fields[a + 1] && rest[b] == fields[b + 1];
    if i == 0 {
      assert fields[..0] == [];
      OthersLeaveIt(fuel, w, rest, selfId, next, f.name);
    } else {
      assert fields[..i][0] == f && fields[..i][1..] == rest[..i - 1] && rest[i - 1] == fields[i];
      ComputedInTurn(fuel, w, rest, selfId, next, i - 1);
    }
  }

  lemma {:induction false} OthersLeaveIt(fuel: nat, w: World, fields: seq<Field>, selfId: string, values: Fields,
                                         name: string)
    requires WithComputed(fuel, w, fields, selfId, values).Some? && forall f <- fields :: f.name != name
    ensures var full := WithComputed(fuel, w, fields, selfId, values).value;
      (name in full <==> name in values) && Get(full, name) == Get(values, name)
    decreases |fields|
  {
    hide EvalField;
    if fields != [] {
      var f := fields[0];
      var next := if f.computed != "" && EvalField(fuel, w, f.computed, selfId, values).Got?
                  then values[f.name := Num(EvalField(fuel, w, f.computed, selfId, values).v)] else values;
      assert f in fields && forall g <- fields[1..] :: g in fields;
      OthersLeaveIt(fuel, w, fields[1..], selfId, next, name);
    }
  }
}
