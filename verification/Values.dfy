/** Values stored in records, and the small helpers every component shares. */
module Values {

  datatype Option<+T> = None | Some(value: T)

  datatype Result<+T, +E> = Success(value: T) | Failure(error: E)

  /** A decoded JSON value. Numbers are reals; a missing map key reads as Null. */
  datatype Value =
    | Null
    | Bool(b: bool)
    | Num(n: real)
    | Str(s: string)
    | List(items: seq<Value>)
    | Obj(fields: map<string, Value>)

  type Fields = map<string, Value>

  function Get(m: Fields, key: string): Value {
    if key in m then m[key] else Null
  }

  /** The two-result string assertion with the result flag dropped: "" unless v is a string. */
  function AsString(v: Value): string {
    if v.Str? then v.s else ""
  }

  /** Comparing two lists or two objects panics in the source language. */
  predicate Uncomparable(a: Value, b: Value) {
    (a.List? && b.List?) || (a.Obj? && b.Obj?)
  }

  /** Numbers, and the amount of a money object, coerce to a number. */
  function ToNumber(v: Value): Option<real>
    decreases v
  {
    match v
    case Num(n) => Some(n)
    case Obj(m) => if "amount" in m then ToNumber(m["amount"]) else None
    case _ => None
  }

  function ValuesEqual(a: Value, b: Value): bool {
    var x, y := ToNumber(a), ToNumber(b);
    if x.Some? then y.Some? && x.value == y.value else a == b
  }

  // ---- characters -------------------------------------------------------------

  predicate IsDigit(c: char) { '0' <= c <= '9' }

  /** The characters before the next quote. */
  function QuoteRun(s: string): (k: nat)
    ensures k <= |s| && (forall i :: 0 <= i < k ==> s[i] != '"') && (k < |s| ==> s[k] == '"')
  {
    if s == "" || s[0] == '"' then 0 else 1 + QuoteRun(s[1..])
  }

  lemma {:induction false} QuoteRunStops(s: string, k: nat)
    requires k < |s| && (forall i :: 0 <= i < k ==> s[i] != '"') && s[k] == '"'
    ensures QuoteRun(s) == k
  {
    if k > 0 {
      QuoteRunStops(s[1..], k - 1);
    }
  }

  // ---- bytes ------------------------------------------------------------------

  newtype byte = b: int | 0 <= b < 256

  type Bytes = seq<byte>

  // ---- ordered iteration ------------------------------------------------------

  /** Lexicographic order on strings, the order sort.Strings uses. */
  predicate LexLe(a: string, b: string) {
    if a == "" then true
    else if b == "" then false
    else if a[0] != b[0] then a[0] < b[0]
    else LexLe(a[1..], b[1..])
  }

  /** The first difference decides; without one, the shorter string comes first. */
  lemma {:induction false} LexLeIs(a: string, b: string, i: nat)
    requires i <= |a| && i <= |b| && a[..i] == b[..i]
    ensures i == |a| ==> LexLe(a, b)
    ensures i == |b| < |a| ==> !LexLe(a, b)
    ensures i < |a| && i < |b| && a[i] != b[i] ==> (LexLe(a, b) <==> a[i] < b[i])
    decreases i
  {
    if i > 0 {
      assert a[0] == a[..i][0] == b[..i][0] == b[0];
      assert a[1..][..i - 1] == a[..i][1..] == b[..i][1..] == b[1..][..i - 1];
      LexLeIs(a[1..], b[1..], i - 1);
    }
  }

  lemma {:induction false} LexTotal(a: string, b: string)
    ensures LexLe(a, b) || LexLe(b, a)
    ensures LexLe(a, b) && LexLe(b, a) ==> a == b
  {
    if a != "" && b != "" && a[0] == b[0] {
      LexTotal(a[1..], b[1..]);
      assert a == [a[0]] + a[1..] && b == [b[0]] + b[1..];
    }
  }

  lemma {:induction false} LexTransitive(a: string, b: string, c: string)
    requires LexLe(a, b) && LexLe(b, c)
    ensures LexLe(a, c)
  {
    if a != "" && b != "" && c != "" && a[0] == b[0] == c[0] {
      LexTransitive(a[1..], b[1..], c[1..]);
    }
  }

  lemma {:induction false} LeastExists(ids: set<string>) returns (least: string)
    requires ids != {}
    ensures least in ids && forall id <- ids :: LexLe(least, id)
    decreases |ids|
  {
    var x :| x in ids;
    var rest := ids - {x};
    LexTotal(x, x);
    if rest == {} {
      assert ids == {x};
      least := x;
    } else {
      var y := LeastExists(rest);
      LexTotal(x, y);
      least := if LexLe(x, y) then x else y;
      forall id | id in ids ensures LexLe(least, id) {
        if id != x && least == x {
          assert id in rest;
          LexTransitive(x, y, id);
        }
      }
    }
  }

  function Least(ids: set<string>): (least: string)
    requires ids != {}
    ensures least in ids && forall id <- ids :: LexLe(least, id)
  {
    assert exists x :: x in ids && forall id <- ids :: LexLe(x, id) by {
      var x := LeastExists(ids);
    }
    assert forall x, y | x in ids && y in ids && (forall id <- ids :: LexLe(x, id))
      && (forall id <- ids :: LexLe(y, id)) :: x == y by {
      forall x, y | x in ids && y in ids && LexLe(x, y) && LexLe(y, x) ensures x == y {
        LexTotal(x, y);
      }
    }
    var x :| x in ids && forall id <- ids :: LexLe(x, id);
    x
  }

  /** Deterministic iteration order over a set of ids. */
  function SortedIds(ids: set<string>): (order: seq<string>)
    ensures forall id :: id in order <==> id in ids
    ensures |order| == |ids|
    decreases |ids|
  {
    if ids == {} then []
    else
      var x := Least(ids);
      [x] + SortedIds(ids - {x})
  }

  lemma {:induction false} SortedIdsDistinct(ids: set<string>)
    ensures forall i, j :: 0 <= i < j < |SortedIds(ids)| ==> SortedIds(ids)[i] != SortedIds(ids)[j]
    decreases |ids|
  {
    if ids != {} {
      var x := Least(ids);
      SortedIdsDistinct(ids - {x});
      assert SortedIds(ids) == [x] + SortedIds(ids - {x});
    }
  }

  /** Ids come in lexicographic order. */
  lemma {:induction false} SortedIdsSorted(ids: set<string>)
    ensures forall i, j :: 0 <= i <= j < |SortedIds(ids)| ==> LexLe(SortedIds(ids)[i], SortedIds(ids)[j])
    decreases |ids|
  {
    if ids != {} {
      var x := Least(ids);
      SortedIdsSorted(ids - {x});
      assert SortedIds(ids) == [x] + SortedIds(ids - {x});
      forall i, j | 0 <= i <= j < |SortedIds(ids)| ensures LexLe(SortedIds(ids)[i], SortedIds(ids)[j]) {
        assert SortedIds(ids)[j] in SortedIds(ids);
      }
    }
  }
}
