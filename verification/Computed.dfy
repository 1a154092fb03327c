/** Computed fields: ref paths, roll-ups over related records, and why their evaluation ends. */
module Computed {
  import opened Values
  import opened Model
  import opened Projection
  import opened Records
  import opened Conditions
  import opened Arithmetic

  /** What computed fields read besides the record: the stored records, float literals, and elapsed time. */
  datatype World = World(
    model: Model,
    records: map<Rid, Fields>,
    number: string -> Option<real>,
    since: (string, string, Fields) -> Option<real>)

  // ---- ref paths --------------------------------------------------------------------

  function Split(s: string, sep: char): (parts: seq<string>)
    ensures parts != []
  {
    if s == "" then [""]
    else
      var rest := Split(s[1..], sep);
      if s[0] == sep then [""] + rest else [[s[0]] + rest[0]] + rest[1..]
  }

  function WithoutBlanks(s: string): string {
    if s == "" then "" else (if s[0] == ' ' then "" else [s[0]]) + WithoutBlanks(s[1..])
  }

  /** A record by id alone; ids are unique across entities. */
  function LookupAny(records: map<Rid, Fields>, id: string): Option<Fields> {
    var entities := set r | r in records && r.id == id :: r.entity;
    if entities == {} then None
    else
      assert forall e <- entities :: Rid(e, id) in records;
      Some(records[Rid(Least(entities), id)])
  }

  /** Reads the last part, dereferencing a record id at every part before it. */
  function Hop(records: map<Rid, Fields>, parts: seq<string>, current: Fields): Option<Value>
    requires parts != []
    decreases |parts|
  {
    if parts[0] !in current then None
    else if |parts| == 1 then Some(current[parts[0]])
    else
      var id := AsString(current[parts[0]]);
      if id == "" then None
      else
        var next := LookupAny(records, id);
        if next.None? then None else Hop(records, parts[1..], next.value)
  }

  function ResolvePath(records: map<Rid, Fields>, path: string, values: Fields): Option<Value> {
    Hop(records, Split(WithoutBlanks(path), '.'), values)
  }

  // ---- roll-ups ----------------------------------------------------------------------

  predicate IsSince(name: string) {
    name in {"days_since", "hours_since", "minutes_since",
             "business_days_since", "business_hours_since", "business_minutes_since"}
  }

  predicate IsAggregate(name: string) {
    name == "count" || name == "sum" || name == "avg" || name == "min" || name == "max"
  }

  /** The text before and after the first occurrence of a separator. */
  function Cut(s: string, sep: string): Option<(string, string)>
    decreases |s|
  {
    if |s| >= |sep| && s[..|sep|] == sep then Some(("", s[|sep|..]))
    else if s == "" then None
    else
      var rest := Cut(s[1..], sep);
      if rest.None? then None else Some(([s[0]] + rest.value.0, rest.value.1))
  }

  datatype Target = Target(entity: string, field: string, refField: string)

  /** Entity[.field] where reffield = $self, with one trailing parenthesis trimmed. */
  function TargetOf(body: string): Option<Target> {
    var spaced := TrimSpace(body);
    var trimmed := TrimSpace(if spaced != "" && spaced[|spaced| - 1] == ')' then spaced[..|spaced| - 1] else spaced);
    var parts := Cut(trimmed, " where ");
    if parts.None? then None
    else
      var whole := TrimSpace(parts.value.0);
      var dotted := Cut(whole, ".");
      var cond := Cut(parts.value.1, "=");
      if cond.None? || TrimSpace(cond.value.1) != "$self" then None
      else if dotted.None? then Some(Target(whole, "", TrimSpace(cond.value.0)))
      else Some(Target(TrimSpace(dotted.value.0), TrimSpace(dotted.value.1), TrimSpace(cond.value.0)))
  }

  /** The field a roll-up would evaluate, if it is a computed one. */
  function ComputedField(m: Model, entity: string, field: string): Option<Field> {
    if entity !in m.entities then None
    else
      var f := FindField(m.entities[entity].fields, field);
      if f.Some? && f.value.computed != "" then f else None
  }

  predicate Related(records: map<Rid, Fields>, t: Target, id: string, selfId: string) {
    Rid(t.entity, id) in records && AsString(Get(records[Rid(t.entity, id)], t.refField)) == selfId
  }

  /** Evaluates a computed text. Fuel bounds how deep roll-ups nest into computed fields. */
  function EvalField(fuel: nat, w: World, text: string, selfId: string, values: Fields): Number
    decreases fuel, 3, 0
  {
    if fuel == 0 then Diverges else EvalExpr(text, ReaderFor(fuel - 1, w, selfId, values))
  }

  function ReaderFor(fuel: nat, w: World, selfId: string, values: Fields): Reader
    decreases fuel, 5, 0
  {
    Reader(w.number, path => ResolvePath(w.records, path, values),
           (name, body) => FunctionTerm(fuel, w, name, body, selfId, values))
  }

  function FunctionTerm(fuel: nat, w: World, name: string, body: string, selfId: string, values: Fields): Number
    decreases fuel, 4, 1
  {
    if IsSince(name) then
      var v := w.since(name, TrimSpace(body), values);
      if v.Some? then Got(v.value) else Fails
    else if IsAggregate(name) then Aggregate(fuel, w, name, body + ")", selfId)
    else Fails
  }

  function Aggregate(fuel: nat, w: World, fn: string, body: string, selfId: string): Number
    decreases fuel, 4, 0
  {
    var t := TargetOf(body);
    if t.None? then Fails
    else
      var rows := Rows(fuel, w, fn, t.value, selfId, SortedIds(IdsOf(w.records, t.value.entity)));
      if rows.None? then Diverges else Got(Total(fn, rows.value))
  }

  /** The aggregated value of every related record; None if evaluating one does not return. */
  function Rows(fuel: nat, w: World, fn: string, t: Target, selfId: string, ids: seq<string>): Option<seq<Value>>
    decreases fuel, 3, |ids| + 1
  {
    if ids == [] then Some([])
    else
      var rest := Rows(fuel, w, fn, t, selfId, ids[1..]);
      if !Related(w.records, t, ids[0], selfId) then rest
      else
        var v := RowValue(fuel, w, fn, t, ids[0]);
        if v.None? || rest.None? then None else Some([v.value] + rest.value)
  }

  function RowValue(fuel: nat, w: World, fn: string, t: Target, id: string): Option<Value>
    requires Rid(t.entity, id) in w.records
    decreases fuel, 3, 1
  {
    var row := w.records[Rid(t.entity, id)];
    var f := ComputedField(w.model, t.entity, t.field);
    if fn == "count" || f.None? then Some(Get(row, t.field))
    else
      match EvalField(fuel, w, f.value.computed, id, row)
      case Got(v) => Some(Num(v))
      case Fails => Some(Get(row, t.field))
      case Diverges => None
  }

  // ---- totals --------------------------------------------------------------------------

  /** The numbers among the rows; anything else is skipped. */
  function Numbers(rows: seq<Value>): seq<real> {
    if rows == [] then []
    else (if ToNumber(rows[0]).Some? then [ToNumber(rows[0]).value] else []) + Numbers(rows[1..])
  }

  function SumOf(xs: seq<real>): real {
    if xs == [] then 0.0 else xs[0] + SumOf(xs[1..])
  }

  function LeastOf(xs: seq<real>): (least: real)
    requires xs != []
    ensures least in xs && forall x <- xs :: least <= x
  {
    if |xs| == 1 then xs[0]
    else
      var rest := LeastOf(xs[1..]);
      assert xs == [xs[0]] + xs[1..];
      if xs[0] < rest then xs[0] else rest
  }

  function GreatestOf(xs: seq<real>): (greatest: real)
    requires xs != []
    ensures greatest in xs && forall x <- xs :: x <= greatest
  {
    if |xs| == 1 then xs[0]
    else
      var rest := GreatestOf(xs[1..]);
      assert xs == [xs[0]] + xs[1..];
      if xs[0] > rest then xs[0] else rest
  }

  /** What a roll-up means. The average divides by every related row, numeric or not. */
  function Total(fn: string, rows: seq<Value>): real {
    var xs := Numbers(rows);
    if fn == "count" then |rows| as real
    else if fn == "sum" then SumOf(xs)
    else if fn == "avg" then (if rows == [] then 0.0 else SumOf(xs) / |rows| as real)
    else if xs == [] then 0.0
    else if fn == "min" then LeastOf(xs)
    else GreatestOf(xs)
  }

  lemma {:induction false} NumbersAppend(rows: seq<Value>, v: Value)
    ensures Numbers(rows + [v]) == Numbers(rows) + if ToNumber(v).Some? then [ToNumber(v).value] else []
  {
    hide ToNumber;
    var last := if ToNumber(v).Some? then [ToNumber(v).value] else [];
    if rows == [] {
      assert rows + [v] == [v] && [v][1..] == [];
      assert Numbers([v]) == last + Numbers([]) && Numbers([]) == [];
    } else {
      var head, tail := if ToNumber(rows[0]).Some? then [ToNumber(rows[0]).value] else [], rows[1..];
      assert (rows + [v])[0] == rows[0] && (rows + [v])[1..] == tail + [v];
      NumbersAppend(tail, v);
      assert head + (Numbers(tail) + last) == (head + Numbers(tail)) + last;
    }
  }

  lemma {:induction false} SumAppend(xs: seq<real>, x: real)
    ensures SumOf(xs + [x]) == SumOf(xs) + x
  {
    if xs == [] {
      assert xs + [x] == [x];
    } else {
      assert (xs + [x])[1..] == xs[1..] + [x];
      SumAppend(xs[1..], x);
    }
  }

  /** What the accumulator holds after some rows. */
  ghost predicate Tallied(fn: string, rows: seq<Value>, count: nat, acc: real, first: bool) {
    var xs := Numbers(rows);
    && count == |rows|
    && (first <==> fn == "count" || xs == [])
    && (fn == "sum" || fn == "avg" ==> acc == SumOf(xs))
    && (fn == "min" && !first ==> acc in xs && forall x <- xs :: acc <= x)
    && (fn == "max" && !first ==> acc in xs && forall x <- xs :: x <= acc)
  }

  /** evalAggregate's loop: one accumulator serves every function. */
  method Accumulate(fn: string, rows: seq<Value>) returns (v: real)
    requires IsAggregate(fn)
    ensures v == Total(fn, rows)
  {
    var count, acc, first := 0, 0.0, true;
    for i := 0 to |rows|
      invariant Tallied(fn, rows[..i], count, acc, first)
    {
      assert rows[..i + 1] == rows[..i] + [rows[i]];
      NumbersAppend(rows[..i], rows[i]);
      count := count + 1;
      if fn == "count" {
        continue;
      }
      var n := ToNumber(rows[i]);
      if n.None? {
        assert Numbers(rows[..i]) + [] == Numbers(rows[..i]);
        continue;
      }
      SumAppend(Numbers(rows[..i]), n.value);
      if fn == "sum" || fn == "avg" {
        acc := acc + n.value;
      } else if fn == "min" {
        if first || n.value < acc {
          acc := n.value;
        }
      } else if first || n.value > acc {
        acc := n.value;
      }
      first := false;
    }
    assert rows[..|rows|] == rows;
    if fn == "count" {
      return count as real;
    } else if fn == "sum" {
      return acc;
    } else if fn == "avg" {
      return if count == 0 then 0.0 else acc / count as real;
    }
    return if first then 0.0 else acc;
  }

  // ---- evaluation ends ------------------------------------------------------------------

  /** A function term starts the text: its name, and its body up to the parenthesis that closes it. */
  predicate CallAt(s: string, name: string, body: string) {
    var k := AtomRun(s);
    && k > 0 && name == s[..k]
    && var rest := SkipSpace(s[k..]);
       && rest != "" && rest[0] == '(' && Close(rest[1..], 1).Some? && body == rest[1..][..Close(rest[1..], 1).value]
  }

  /** The text holds this function term. */
  ghost predicate CallIn(s: string, name: string, body: string) {
    exists i :: 0 <= i <= |s| && CallAt(s[i..], name, body)
  }

  /** Every computed field that a roll-up of this text evaluates ranks below the bound; counting evaluates none. */
  ghost predicate Below(m: Model, text: string, rank: (string, string) -> nat, bound: nat) {
    forall name, body :: CallIn(Collapse(TrimSpace(text)), name, body) && IsAggregate(name) && name != "count" ==>
      var t := TargetOf(body + ")");
      t.Some? && ComputedField(m, t.value.entity, t.value.field).Some? ==> rank(t.value.entity, t.value.field) < bound
  }

  /** Computed fields depend on one another without a cycle: each ranks above those it rolls up. */
  ghost predicate Acyclic(m: Model, rank: (string, string) -> nat) {
    forall entity, field :: ComputedField(m, entity, field).Some? ==>
      Below(m, ComputedField(m, entity, field).value.computed, rank, rank(entity, field))
  }

  /** Two readers that answer alike, and always return, for every function term inside a text. */
  ghost predicate Agree(c: Reader, d: Reader, s: string) {
    && (forall text :: c.number(text) == d.number(text))
    && (forall path :: c.path(path) == d.path(path))
    && forall name, body :: CallIn(s, name, body) ==> c.call(name, body) == d.call(name, body) != Diverges
  }

  ghost predicate Suffix(rest: string, s: string) {
    |rest| <= |s| && rest == s[|s| - |rest|..]
  }

  lemma AgreeOnSuffix(c: Reader, d: Reader, rest: string, s: string)
    requires Agree(c, d, s) && Suffix(rest, s)
    ensures Agree(c, d, rest)
  {
    hide CallAt;
    var k := |s| - |rest|;
    forall name, body | CallIn(rest, name, body) ensures CallIn(s, name, body) {
      var i :| 0 <= i <= |rest| && CallAt(rest[i..], name, body);
      assert rest[i..] == s[k + i..];
    }
  }

  lemma SuffixTrans(a: string, b: string, s: string)
    requires Suffix(a, b) && Suffix(b, s)
    ensures Suffix(a, s)
  {
  }

  lemma SuffixDrop(s: string, k: nat)
    requires k <= |s|
    ensures Suffix(s[k..], s)
  {
  }

  lemma {:induction false} SkipIsSuffix(s: string)
    ensures Suffix(SkipSpace(s), s)
  {
    if s != "" && (s[0] == ' ' || s[0] == '\t') {
      SkipIsSuffix(s[1..]);
    }
  }

  /** The parse of a text under either reader is the same step, within the text. */
  ghost predicate Same(r: Step, q: Step, s: string) {
    r == q && r != Stop(Diverges) && (r.At? ==> Suffix(r.rest, s))
  }

  lemma AtomAgrees(s: string, c: Reader, d: Reader)
    requires Agree(c, d, s)
    ensures Same(ParseAtom(s, c), ParseAtom(s, d), s)
  {
    var k := AtomRun(s);
    if k > 0 {
      var name, rest := s[..k], SkipSpace(s[k..]);
      PathAgrees(s, c, d, name);
      hide Agree, Suffix, ParseCall, SkipSpace, AtomRun, ToNumber;
      SkipIsSuffix(s[k..]);
      SuffixDrop(s, k);
      SuffixTrans(rest, s[k..], s);
      if rest != "" && rest[0] == '(' {
        CallAnswers(s, c, d);
        CallAgrees(name, rest, c, d);
        SameWithin(ParseCall(name, rest, c), ParseCall(name, rest, d), rest, s);
      }
    }
  }

  lemma PathAgrees(s: string, c: Reader, d: Reader, name: string)
    requires Agree(c, d, s)
    ensures c.path(name) == d.path(name)
  {
  }

  lemma SameWithin(r: Step, q: Step, rest: string, s: string)
    requires Same(r, q, rest) && Suffix(rest, s)
    ensures Same(r, q, s)
  {
    hide Suffix;
    if r.At? {
      SuffixTrans(r.rest, rest, s);
    }
  }

  /** The function term that starts a text is one of those the readers agree on. */
  lemma CallAnswers(s: string, c: Reader, d: Reader)
    requires Agree(c, d, s) && AtomRun(s) > 0
    ensures var name, rest := s[..AtomRun(s)], SkipSpace(s[AtomRun(s)..]);
      rest != "" && rest[0] == '(' && Close(rest[1..], 1).Some? ==>
        var body := rest[1..][..Close(rest[1..], 1).value]; c.call(name, body) == d.call(name, body) != Diverges
  {
    hide AtomRun, SkipSpace, Close, CallIn;
    var name, rest := s[..AtomRun(s)], SkipSpace(s[AtomRun(s)..]);
    if rest != "" && rest[0] == '(' && Close(rest[1..], 1).Some? {
      CallHere(s, name, rest[1..][..Close(rest[1..], 1).value]);
    }
  }

  lemma CallHere(s: string, name: string, body: string)
    requires CallAt(s, name, body)
    ensures CallIn(s, name, body)
  {
    hide CallAt;
    assert s[0..] == s;
  }

  lemma CallAgrees(name: string, s: string, c: Reader, d: Reader)
    requires s != "" && s[0] == '('
    requires Close(s[1..], 1).Some? ==>
      var body := s[1..][..Close(s[1..], 1).value]; c.call(name, body) == d.call(name, body) != Diverges
    ensures Same(ParseCall(name, s, c), ParseCall(name, s, d), s)
  {
    var close := Close(s[1..], 1);
    if close.Some? {
      SuffixDrop(s, close.value + 2);
    }
  }

  lemma {:induction false} FactorAgrees(text: string, c: Reader, d: Reader)
    requires Agree(c, d, text)
    ensures Same(ParseFactor(text, c), ParseFactor(text, d), text)
    decreases |text|, 0
  {
    hide Agree, Suffix, ParseExpr, ParseAtom, ParseNumber, SkipSpace;
    var s := SkipSpace(text);
    SkipIsSuffix(text);
    AgreeOnSuffix(c, d, s, text);
    if s != "" {
      SuffixDrop(s, 1);
      SuffixTrans(s[1..], s, text);
      SuffixLength(s, text);
      AgreeOnSuffix(c, d, s[1..], text);
      if s[0] == '(' {
        ExprAgrees(s[1..], c, d);
        var v := ParseExpr(s[1..], c);
        if v.At? {
          var rest := SkipSpace(v.rest);
          SkipIsSuffix(v.rest);
          SuffixTrans(v.rest, s[1..], text);
          SuffixTrans(rest, v.rest, text);
          if rest != "" {
            SuffixDrop(rest, 1);
            SuffixTrans(rest[1..], rest, text);
          }
        }
      } else if s[0] == '-' {
        FactorAgrees(s[1..], c, d);
        var v := ParseFactor(s[1..], c);
        if v.At? {
          SuffixTrans(v.rest, s[1..], text);
        }
      } else if DigitOrDot(s[0]) {
        NumberAgrees(s, c, d);
        if ParseNumber(s, c).At? {
          SuffixTrans(ParseNumber(s, c).rest, s, text);
        }
      } else {
        AtomAgrees(s, c, d);
        if ParseAtom(s, c).At? {
          SuffixTrans(ParseAtom(s, c).rest, s, text);
        }
      }
    }
  }

  lemma SuffixLength(a: string, b: string)
    requires Suffix(a, b)
    ensures |a| <= |b|
  {
  }

  lemma NumberAgrees(s: string, c: Reader, d: Reader)
    requires Agree(c, d, s)
    ensures Same(ParseNumber(s, c), ParseNumber(s, d), s)
  {
  }

  lemma {:induction false} TermAgrees(s: string, c: Reader, d: Reader)
    requires Agree(c, d, s)
    ensures Same(ParseTerm(s, c), ParseTerm(s, d), s)
    decreases |s|, 1
  {
    hide Agree, Suffix, ParseFactor, TermTail;
    FactorAgrees(s, c, d);
    var left := ParseFactor(s, c);
    if left.At? {
      AgreeOnSuffix(c, d, left.rest, s);
      TermTailAgrees(left.v, left.rest, c, d);
      if TermTail(left.v, left.rest, c).At? {
        SuffixTrans(TermTail(left.v, left.rest, c).rest, left.rest, s);
      }
    }
  }

  lemma {:induction false} TermTailAgrees(left: real, text: string, c: Reader, d: Reader)
    requires Agree(c, d, text)
    ensures Same(TermTail(left, text, c), TermTail(left, text, d), text)
    decreases |text|, 0
  {
    hide Agree, Suffix, ParseFactor, SkipSpace;
    var s := SkipSpace(text);
    SkipIsSuffix(text);
    if s != "" && (s[0] == '*' || s[0] == '/') {
      SuffixDrop(s, 1);
      SuffixTrans(s[1..], s, text);
      SuffixLength(s, text);
      AgreeOnSuffix(c, d, s[1..], text);
      FactorAgrees(s[1..], c, d);
      var right := ParseFactor(s[1..], c);
      if right.At? {
        SuffixTrans(right.rest, s[1..], text);
        AgreeOnSuffix(c, d, right.rest, text);
        var v := Combine(s[0], left, right.v);
        if v.Got? {
          TermTailAgrees(v.v, right.rest, c, d);
          if TermTail(v.v, right.rest, c).At? {
            SuffixTrans(TermTail(v.v, right.rest, c).rest, right.rest, text);
          }
        }
      }
    }
  }

  lemma {:induction false} ExprAgrees(s: string, c: Reader, d: Reader)
    requires Agree(c, d, s)
    ensures Same(ParseExpr(s, c), ParseExpr(s, d), s)
    decreases |s|, 2
  {
    hide Agree, Suffix, ParseTerm, ExprTail;
    TermAgrees(s, c, d);
    var left := ParseTerm(s, c);
    if left.At? {
      AgreeOnSuffix(c, d, left.rest, s);
      ExprTailAgrees(left.v, left.rest, c, d);
      if ExprTail(left.v, left.rest, c).At? {
        SuffixTrans(ExprTail(left.v, left.rest, c).rest, left.rest, s);
      }
    }
  }

  lemma {:induction false} ExprTailAgrees(left: real, text: string, c: Reader, d: Reader)
    requires Agree(c, d, text)
    ensures Same(ExprTail(left, text, c), ExprTail(left, text, d), text)
    decreases |text|, 0
  {
    hide Agree, Suffix, ParseTerm, SkipSpace;
    var s := SkipSpace(text);
    SkipIsSuffix(text);
    if s != "" && (s[0] == '+' || s[0] == '-') {
      SuffixDrop(s, 1);
      SuffixTrans(s[1..], s, text);
      SuffixLength(s, text);
      AgreeOnSuffix(c, d, s[1..], text);
      TermAgrees(s[1..], c, d);
      var right := ParseTerm(s[1..], c);
      if right.At? {
        SuffixTrans(right.rest, s[1..], text);
        AgreeOnSuffix(c, d, right.rest, text);
        var v := if s[0] == '+' then left + right.v else left - right.v;
        ExprTailAgrees(v, right.rest, c, d);
        if ExprTail(v, right.rest, c).At? {
          SuffixTrans(ExprTail(v, right.rest, c).rest, right.rest, text);
        }
      }
    }
  }

  /** Acyclic computed fields evaluate in finitely many steps, and to one value however much fuel is given. */
  lemma {:induction false} AcyclicTerminates(w: World, rank: (string, string) -> nat, text: string, bound: nat,
                                             selfId: string, values: Fields, fuel: nat, more: nat)
    requires Acyclic(w.model, rank) && Below(w.model, text, rank, bound)
    requires bound < fuel && bound < more
    ensures EvalField(fuel, w, text, selfId, values) == EvalField(more, w, text, selfId, values) != Diverges
    decreases bound, 1
  {
    hide ParseExpr, TargetOf, Aggregate, CallIn, Acyclic;
    var c, d := ReaderFor(fuel - 1, w, selfId, values), ReaderFor(more - 1, w, selfId, values);
    var s := Collapse(TrimSpace(text));
    forall name, body | CallIn(s, name, body) ensures c.call(name, body) == d.call(name, body) != Diverges {
      assert c.call(name, body) == FunctionTerm(fuel - 1, w, name, body, selfId, values);
      assert d.call(name, body) == FunctionTerm(more - 1, w, name, body, selfId, values);
      if IsAggregate(name) {
        AggregateTerminates(w, rank, bound, name, body + ")", selfId, fuel - 1, more - 1);
      }
    }
    ExprAgrees(s, c, d);
  }

  lemma {:induction false} AggregateTerminates(w: World, rank: (string, string) -> nat, bound: nat,
                                               fn: string, body: string, selfId: string, fuel: nat, more: nat)
    requires Acyclic(w.model, rank) && bound <= fuel && bound <= more
    requires var t := TargetOf(body);
      fn != "count" && t.Some? && ComputedField(w.model, t.value.entity, t.value.field).Some? ==>
        rank(t.value.entity, t.value.field) < bound
    ensures Aggregate(fuel, w, fn, body, selfId) == Aggregate(more, w, fn, body, selfId) != Diverges
    decreases bound, 0, 1
  {
    hide TargetOf, Total;
    var t := TargetOf(body);
    if t.Some? {
      RowsTerminate(w, rank, bound, fn, t.value, selfId, SortedIds(IdsOf(w.records, t.value.entity)), fuel, more);
    }
  }

  lemma {:induction false} RowsTerminate(w: World, rank: (string, string) -> nat, bound: nat, fn: string, t: Target,
                                         selfId: string, ids: seq<string>, fuel: nat, more: nat)
    requires Acyclic(w.model, rank) && bound <= fuel && bound <= more
    requires fn != "count" && ComputedField(w.model, t.entity, t.field).Some? ==> rank(t.entity, t.field) < bound
    ensures Rows(fuel, w, fn, t, selfId, ids) == Rows(more, w, fn, t, selfId, ids)
    ensures Rows(fuel, w, fn, t, selfId, ids).Some?
    decreases bound, 0, 0, |ids|
  {
    hide EvalField, ComputedField;
    if ids != [] {
      RowsTerminate(w, rank, bound, fn, t, selfId, ids[1..], fuel, more);
      var f := ComputedField(w.model, t.entity, t.field);
      if Related(w.records, t, ids[0], selfId) && fn != "count" && f.Some? {
        AcyclicTerminates(w, rank, f.value.computed, rank(t.entity, t.field), ids[0], w.records[Rid(t.entity, ids[0])],
          fuel, more);
      }
    }
  }

  // ---- a record with its computed fields --------------------------------------------------

  /** withComputed: each computed field sees the ones before it; a failed one is left out. */
  function WithComputed(fuel: nat, w: World, fields: seq<Field>, selfId: string, values: Fields): Option<Fields>
    decreases |fields|
  {
    if fields == [] then Some(values)
    else if fields[0].computed == "" then WithComputed(fuel, w, fields[1..], selfId, values)
    else
      match EvalField(fuel, w, fields[0].computed, selfId, values)
      case Got(v) => WithComputed(fuel, w, fields[1..], selfId, values[fields[0].name := Num(v)])
      case Fails => WithComputed(fuel, w, fields[1..], selfId, values)
      case Diverges => None
  }

  lemma {:induction false} ComputedRecordExists(w: World, rank: (string, string) -> nat, fields: seq<Field>, bound: nat,
                                                selfId: string, values: Fields, fuel: nat, more: nat)
    requires Acyclic(w.model, rank) && bound < fuel && bound < more
    requires forall f <- fields :: f.computed != "" ==> Below(w.model, f.computed, rank, bound)
    ensures WithComputed(fuel, w, fields, selfId, values) == WithComputed(more, w, fields, selfId, values)
    ensures WithComputed(fuel, w, fields, selfId, values).Some?
    decreases |fields|
  {
    hide EvalField, Acyclic, Below;
    if fields != [] {
      var f, rest := fields[0], fields[1..];
      assert f in fields && forall g <- rest :: g in fields;
      if f.computed != "" {
        AcyclicTerminates(w, rank, f.computed, bound, selfId, values, fuel, more);
      }
      var next := if f.computed != "" && EvalField(fuel, w, f.computed, selfId, values).Got?
                  then values[f.name := Num(EvalField(fuel, w, f.computed, selfId, values).v)] else values;
      ComputedRecordExists(w, rank, rest, bound, selfId, next, fuel, more);
    }
  }

  /** A stored field is never changed: computed fields are only added to a record or recomputed. */
  lemma {:induction false} StoredFieldsKept(fuel: nat, w: World, fields: seq<Field>, selfId: string, values: Fields)
    requires WithComputed(fuel, w, fields, selfId, values).Some?
    ensures var full := WithComputed(fuel, w, fields, selfId, values).value;
      && (forall k :: k in values ==> k in full)
      && (forall k :: k in values && (forall f <- fields :: f.computed != "" ==> f.name != k) ==> full[k] == values[k])
    decreases |fields|
  {
    hide EvalField;
    if fields != [] {
      var f, rest := fields[0], fields[1..];
      assert f in fields && forall g <- rest :: g in fields;
      var next := if f.computed != "" && EvalField(fuel, w, f.computed, selfId, values).Got?
                  then values[f.name := Num(EvalField(fuel, w, f.computed, selfId, values).v)] else values;
      StoredFieldsKept(fuel, w, rest, selfId, next);
    }
  }
}
