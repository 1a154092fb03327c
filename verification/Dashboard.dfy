/** Dashboard tiles: one aggregate over the rows an actor may read, ungrouped or per group. */
module Dashboard {
  import opened Values
  import opened Model
  import opened Journal
  import opened Projection
  import opened Environment
  import opened Records
  import opened Computed
  import opened Queries

  datatype Tile = Tile(fn: string, entity: string, field: string, where: string, groupBy: string)

  datatype TileResult = TileResult(value: real, groups: seq<(string, real)>)

  /** One counted row: its group and the value of the tile's field. */
  datatype Cell = Cell(key: string, value: Value)

  /** A group's name: null and the empty string share one. */
  function GroupKey(render: Value -> string, v: Value): string {
    match v
    case Null => "(none)"
    case Str(s) => if s == "" then "(none)" else s
    case Bool(b) => if b then "true" else "false"
    case _ => render(v)
  }

  /** The query a tile stands for: its condition, no filter, no search, no paging. */
  function TileQuery(tile: Tile): QueryOpts {
    QueryOpts(map[], tile.where, "", rows => rows, 0, 0)
  }

  predicate Counted(env: Env, v: View, actor: Actor, tile: Tile, id: string, now: int) {
    && Readable(env, v, actor, tile.entity, id, now)
    && (tile.where == ""
        || env.holds(tile.where, v.records, id, actor, env.computed(v.model, v.records, Rid(tile.entity, id), now),
          now))
  }

  function CellOf(env: Env, v: View, tile: Tile, render: Value -> string, id: string, now: int): Cell {
    var full := env.computed(v.model, v.records, Rid(tile.entity, id), now);
    Cell(if tile.groupBy == "" then "" else GroupKey(render, Get(full, tile.groupBy)), Get(full, tile.field))
  }

  /** The cells of the counted rows, in id order. */
  function Cells(env: Env, v: View, actor: Actor, tile: Tile, render: Value -> string, ids: seq<string>,
                 now: int): seq<Cell>
  {
    if ids == [] then []
    else
      (if Counted(env, v, actor, tile, ids[0], now) then [CellOf(env, v, tile, render, ids[0], now)] else [])
      + Cells(env, v, actor, tile, render, ids[1..], now)
  }

  function ValuesOf(cells: seq<Cell>): seq<Value> {
    if cells == [] then [] else [cells[0].value] + ValuesOf(cells[1..])
  }

  /** The cells of one group. */
  function Group(cells: seq<Cell>, key: string): seq<Cell> {
    if cells == [] then []
    else (if cells[0].key == key then [cells[0]] else []) + Group(cells[1..], key)
  }

  function Keys(cells: seq<Cell>): set<string> {
    set c | c in cells :: c.key
  }

  function GroupTotal(fn: string, cells: seq<Cell>, key: string): real {
    Total(fn, ValuesOf(Group(cells, key)))
  }

  lemma {:induction false} GroupAppend(cells: seq<Cell>, c: Cell, key: string)
    ensures Group(cells + [c], key) == Group(cells, key) + if c.key == key then [c] else []
  {
    var more := cells + [c];
    if cells == [] {
      assert more == [c] && more[1..] == [];
      assert [c] + Group([], key) == [c] && [] + Group([], key) == [];
    } else {
      assert more[1..] == cells[1..] + [c] && more[0] == cells[0];
      GroupAppend(cells[1..], c, key);
      var head, rest, last :=
        if cells[0].key == key then [cells[0]] else [], Group(cells[1..], key), if c.key == key then [c] else [];
      assert head + (rest + last) == (head + rest) + last;
    }
  }

  lemma {:induction false} ValuesAppend(cells: seq<Cell>, c: Cell)
    ensures ValuesOf(cells + [c]) == ValuesOf(cells) + [c.value]
  {
    if cells == [] {
      assert cells + [c] == [c];
    } else {
      assert (cells + [c])[1..] == cells[1..] + [c];
      ValuesAppend(cells[1..], c);
    }
  }

  // ---- the accumulating loop ---------------------------------------------------------------

  datatype Bucket = Bucket(count: nat, total: real, first: bool, extreme: real)

  /** What a group's bucket holds after some of its cells. */
  ghost predicate Holds(fn: string, rows: seq<Value>, b: Bucket) {
    Tallied(fn, rows, b.count, if fn == "min" || fn == "max" then b.extreme else b.total, b.first)
      && (b.first && (fn == "min" || fn == "max") ==> b.extreme == 0.0)
  }

  method AddCell(fn: string, b: Bucket, value: Value, ghost rows: seq<Value>) returns (next: Bucket)
    requires IsAggregate(fn) && Holds(fn, rows, b)
    ensures Holds(fn, rows + [value], next)
  {
    NumbersAppend(rows, value);
    next := b.(count := b.count + 1);
    if fn == "count" {
      return;
    }
    var n := ToNumber(value);
    if n.None? {
      assert Numbers(rows) + [] == Numbers(rows);
      return;
    }
    SumAppend(Numbers(rows), n.value);
    if fn == "sum" || fn == "avg" {
      next := next.(total := b.total + n.value);
    } else if (fn == "min" && (b.first || n.value < b.extreme)) || (fn == "max" && (b.first || n.value > b.extreme)) {
      next := next.(extreme := n.value);
    }
    next := next.(first := false);
  }

  function BucketValue(fn: string, b: Bucket): real {
    if fn == "count" then b.count as real
    else if fn == "sum" then b.total
    else if fn == "avg" then (if b.count == 0 then 0.0 else b.total / b.count as real)
    else b.extreme
  }

  lemma BucketMeans(fn: string, rows: seq<Value>, b: Bucket)
    requires IsAggregate(fn) && Holds(fn, rows, b)
    ensures BucketValue(fn, b) == Total(fn, rows)
  {
  }

  const EMPTY := Bucket(0, 0.0, true, 0.0)

  /** Adds every cell to its group's bucket. */
  method Accumulated(fn: string, cells: seq<Cell>) returns (buckets: map<string, Bucket>)
    requires IsAggregate(fn)
    ensures buckets.Keys == Keys(cells)
    ensures forall key <- buckets :: Holds(fn, ValuesOf(Group(cells, key)), buckets[key])
  {
    hide Holds;
    buckets := map[];
    for i := 0 to |cells|
      invariant buckets.Keys == Keys(cells[..i])
      invariant forall key <- buckets :: Holds(fn, ValuesOf(Group(cells[..i], key)), buckets[key])
    {
      hide Group, ValuesOf, Keys;
      assert cells[..i + 1] == cells[..i] + [cells[i]];
      buckets := AddToGroup(fn, buckets, cells[..i], cells[i]);
    }
    assert cells[..|cells|] == cells;
  }

  method AddToGroup(fn: string, buckets: map<string, Bucket>, ghost done: seq<Cell>, c: Cell)
    returns (next: map<string, Bucket>)
    requires IsAggregate(fn) && buckets.Keys == Keys(done)
    requires forall key <- buckets :: Holds(fn, ValuesOf(Group(done, key)), buckets[key])
    ensures next.Keys == Keys(done + [c])
    ensures forall key <- next :: Holds(fn, ValuesOf(Group(done + [c], key)), next[key])
  {
    hide Holds, Group, ValuesOf;
    if c.key !in buckets {
      NewGroup(fn, done, c.key);
    }
    var b := if c.key in buckets then buckets[c.key] else EMPTY;
    var added := AddCell(fn, b, c.value, ValuesOf(Group(done, c.key)));
    next := buckets[c.key := added];
    forall key | key in next ensures Holds(fn, ValuesOf(Group(done + [c], key)), next[key]) {
      GroupValues(done, c, key);
      assert key != c.key ==> key in buckets;
      assert ValuesOf(Group(done, key)) + [] == ValuesOf(Group(done, key));
    }
  }

  /** One more cell adds its value to its own group and to no other. */
  lemma GroupValues(cells: seq<Cell>, c: Cell, key: string)
    ensures ValuesOf(Group(cells + [c], key)) == ValuesOf(Group(cells, key)) + if c.key == key then [c.value] else []
  {
    GroupAppend(cells, c, key);
    if c.key == key {
      ValuesAppend(Group(cells, key), c);
    } else {
      assert Group(cells, key) + [] == Group(cells, key)
        && ValuesOf(Group(cells, key)) + [] == ValuesOf(Group(cells, key));
    }
  }

  lemma NewGroup(fn: string, cells: seq<Cell>, key: string)
    requires key !in Keys(cells)
    ensures Holds(fn, ValuesOf(Group(cells, key)), EMPTY)
  {
    EmptyGroup(cells, key);
  }

  lemma {:induction false} EmptyGroup(cells: seq<Cell>, key: string)
    requires key !in Keys(cells)
    ensures Group(cells, key) == []
  {
    if cells != [] {
      assert cells[0].key in Keys(cells);
      assert forall c <- cells[1..] :: c in cells;
      EmptyGroup(cells[1..], key);
    }
  }

  /** computeTile: one pass over the entity's rows in id order. */
  method ComputeTile(env: Env, v: View, actor: Actor, tile: Tile, render: Value -> string, now: int)
    returns (r: TileResult)
    requires IsAggregate(tile.fn)
    ensures tile.entity !in v.model.entities ==> r == TileResult(0.0, [])
    ensures tile.entity in v.model.entities ==>
      var cells := Cells(env, v, actor, tile, render, SortedIds(IdsOf(v.records, tile.entity)), now);
      if tile.groupBy == "" then r == TileResult(Total(tile.fn, ValuesOf(cells)), [])
      else r.value == 0.0 && r.groups == Groups(tile.fn, cells, SortedIds(Keys(cells)))
  {
    hide Holds, BucketValue, Total, Cells;
    if tile.entity !in v.model.entities {
      return TileResult(0.0, []);
    }
    var ids := SortedIds(IdsOf(v.records, tile.entity));
    var cells := CountCells(env, v, actor, tile, render, ids, now);
    var buckets := Accumulated(tile.fn, cells);
    if tile.groupBy == "" {
      OneGroup(env, v, actor, tile, render, ids, now);
      if "" in buckets {
        BucketMeans(tile.fn, ValuesOf(cells), buckets[""]);
        return TileResult(BucketValue(tile.fn, buckets[""]), []);
      }
      EmptyGroup(cells, "");
      NothingTotals(tile.fn);
      return TileResult(0.0, []);
    }
    var groups := ReadBuckets(tile.fn, cells, buckets);
    return TileResult(0.0, groups);
  }

  lemma GroupsSplit(fn: string, cells: seq<Cell>, keys: seq<string>, i: nat, groups: seq<(string, real)>)
    requires i < |keys|
    ensures groups + Groups(fn, cells, keys[i..]) ==
            (groups + [(keys[i], Total(fn, ValuesOf(Group(cells, keys[i]))))]) + Groups(fn, cells, keys[i + 1..])
  {
    hide Total;
    assert keys[i..][0] == keys[i] && keys[i..][1..] == keys[i + 1..];
  }

  /** The groups' values, by name. */
  method ReadBuckets(fn: string, ghost cells: seq<Cell>, buckets: map<string, Bucket>)
    returns (groups: seq<(string, real)>)
    requires IsAggregate(fn) && buckets.Keys == Keys(cells)
    requires forall key <- buckets :: Holds(fn, ValuesOf(Group(cells, key)), buckets[key])
    ensures groups == Groups(fn, cells, SortedIds(Keys(cells)))
  {
    hide Holds, BucketValue, Total, SortedIds, Groups, Group, ValuesOf, Keys, IsAggregate;
    var keys := SortedIds(buckets.Keys);
    groups := [];
    assert keys[0..] == keys && [] + Groups(fn, cells, keys) == Groups(fn, cells, keys);
    for i := 0 to |keys|
      invariant Groups(fn, cells, keys) == groups + Groups(fn, cells, keys[i..])
    {
      var key := keys[i];
      assert key in keys;
      BucketMeans(fn, ValuesOf(Group(cells, key)), buckets[key]);
      GroupsSplit(fn, cells, keys, i, groups);
      groups := groups + [(key, BucketValue(fn, buckets[key]))];
    }
    NoGroups(fn, cells, groups);
    assert keys[|keys|..] == [];
  }

  lemma NoGroups(fn: string, cells: seq<Cell>, groups: seq<(string, real)>)
    ensures groups + Groups(fn, cells, []) == groups
  {
  }

  lemma CellsStep(env: Env, v: View, actor: Actor, tile: Tile, render: Value -> string, ids: seq<string>, i: nat,
                  now: int, cells: seq<Cell>)
    requires i < |ids|
    ensures var rest := Cells(env, v, actor, tile, render, ids[i + 1..], now);
      cells + Cells(env, v, actor, tile, render, ids[i..], now) ==
      (if Counted(env, v, actor, tile, ids[i], now) then cells + [CellOf(env, v, tile, render, ids[i], now)]
        else cells) + rest
  {
    hide Counted, CellOf;
    assert ids[i..][0] == ids[i] && ids[i..][1..] == ids[i + 1..];
  }

  method CountCells(env: Env, v: View, actor: Actor, tile: Tile, render: Value -> string, ids: seq<string>, now: int)
    returns (cells: seq<Cell>)
    ensures cells == Cells(env, v, actor, tile, render, ids, now)
  {
    hide Counted, CellOf;
    cells := [];
    assert ids[0..] == ids;
    for i := 0 to |ids|
      invariant Cells(env, v, actor, tile, render, ids, now) ==
        cells + Cells(env, v, actor, tile, render, ids[i..], now)
    {
      hide Cells;
      CellsStep(env, v, actor, tile, render, ids, i, now, cells);
      if Counted(env, v, actor, tile, ids[i], now) {
        cells := cells + [CellOf(env, v, tile, render, ids[i], now)];
      }
    }
    assert ids[|ids|..] == [];
  }

  function Groups(fn: string, cells: seq<Cell>, keys: seq<string>): seq<(string, real)> {
    if keys == [] then [] else [(keys[0], GroupTotal(fn, cells, keys[0]))] + Groups(fn, cells, keys[1..])
  }

  lemma NothingTotals(fn: string)
    requires IsAggregate(fn)
    ensures Total(fn, ValuesOf([])) == 0.0
  {
  }

  /** Without a group field every cell is in the one group. */
  lemma {:induction false} OneGroup(env: Env, v: View, actor: Actor, tile: Tile, render: Value -> string,
                                    ids: seq<string>, now: int)
    requires tile.groupBy == ""
    ensures var cells := Cells(env, v, actor, tile, render, ids, now);
      Group(cells, "") == cells && (cells != [] ==> "" in Keys(cells))
  {
    hide Counted;
    if ids != [] {
      OneGroup(env, v, actor, tile, render, ids[1..], now);
      var cells, rest := Cells(env, v, actor, tile, render, ids, now),
        Cells(env, v, actor, tile, render, ids[1..], now);
      if Counted(env, v, actor, tile, ids[0], now) {
        assert cells[1..] == rest && cells[0] in cells;
      } else {
        assert cells == rest;
      }
    }
  }

  // ---- conservation --------------------------------------------------------------------------

  /** A count tile counts the rows its query lists. */
  lemma CountIsQueryLength(env: Env, v: View, actor: Actor, tile: Tile, render: Value -> string, now: int)
    requires tile.fn == "count"
    ensures var cells := Cells(env, v, actor, tile, render, SortedIds(IdsOf(v.records, tile.entity)), now);
      Total("count", ValuesOf(cells)) == |Scan(env, v, actor, tile.entity, TileQuery(tile), now)| as real
  {
    var ids := SortedIds(IdsOf(v.records, tile.entity));
    CellsAreRows(env, v, actor, tile, render, ids, now);
    ValuesLength(Cells(env, v, actor, tile, render, ids, now));
  }

  lemma {:induction false} ValuesLength(cells: seq<Cell>)
    ensures |ValuesOf(cells)| == |cells|
  {
    if cells != [] {
      ValuesLength(cells[1..]);
    }
  }

  /** The group a record belongs to. */
  predicate InGroup(render: Value -> string, tile: Tile, full: Fields, key: string) {
    if tile.groupBy == "" then key == ""
    else if tile.groupBy !in full || full[tile.groupBy] in {Null, Str("")} then key == "(none)"
    else if full[tile.groupBy].Str? then Str(key) == full[tile.groupBy]
    else if full[tile.groupBy].Bool? then key == if full[tile.groupBy] == Bool(true) then "true" else "false"
    else key == render(full[tile.groupBy])
  }

  /** A tile looks at exactly the rows its query lists, at the field and the group of each full record. */
  lemma {:induction false} CellsOfRows(env: Env, v: View, actor: Actor, tile: Tile, render: Value -> string,
                                       ids: seq<string>, now: int)
    ensures var cells, rows := Cells(env, v, actor, tile, render, ids, now),
        Select(env, v, actor, tile.entity, TileQuery(tile), ids, now);
      && |cells| == |rows|
      && forall i :: 0 <= i < |cells| ==>
           var full := env.computed(v.model, v.records, Rid(tile.entity, rows[i].id), now);
           && InGroup(render, tile, full, cells[i].key)
           && cells[i].value == if tile.field in full then full[tile.field] else Null
  {
    hide Readable;
    if ids != [] {
      CellsOfRows(env, v, actor, tile, render, ids[1..], now);
      assert Lower("") == "";
      assert Wanted(env, v, actor, tile.entity, TileQuery(tile), ids[0], now) <==>
             tile.where == "" || env.holds(tile.where, v.records, ids[0], actor,
               env.computed(v.model, v.records, Rid(tile.entity, ids[0]), now), now);
      hide InGroup, Wanted, RowOf;
      assert InGroup(render, tile, env.computed(v.model, v.records, Rid(tile.entity, ids[0]), now),
        CellOf(env, v, tile, render, ids[0], now).key) by { KeyOfCell(env, v, tile, render, ids[0], now); }
      RowIs(env, v, actor, tile.entity, ids[0], now);
    }
  }

  lemma KeyOfCell(env: Env, v: View, tile: Tile, render: Value -> string, id: string, now: int)
    ensures InGroup(render, tile, env.computed(v.model, v.records, Rid(tile.entity, id), now),
      CellOf(env, v, tile, render, id, now).key)
  {
  }

  lemma RowIs(env: Env, v: View, actor: Actor, entity: string, id: string, now: int)
    ensures RowOf(env, v, actor, entity, id, now).id == id
  {
  }

  lemma {:induction false} CellsAreRows(env: Env, v: View, actor: Actor, tile: Tile, render: Value -> string,
                                        ids: seq<string>, now: int)
    ensures |Cells(env, v, actor, tile, render, ids, now)| ==
      |Select(env, v, actor, tile.entity, TileQuery(tile), ids, now)|
  {
    hide Readable;
    if ids != [] {
      CellsAreRows(env, v, actor, tile, render, ids[1..], now);
      assert Lower("") == "";
      assert Wanted(env, v, actor, tile.entity, TileQuery(tile), ids[0], now) <==>
             tile.where == "" || env.holds(tile.where, v.records, ids[0], actor,
               env.computed(v.model, v.records, Rid(tile.entity, ids[0]), now), now);
    }
  }

  function SumGroups(groups: seq<(string, real)>): real {
    if groups == [] then 0.0 else groups[0].1 + SumGroups(groups[1..])
  }

  predicate Distinct(keys: seq<string>) {
    forall i, j :: 0 <= i < j < |keys| ==> keys[i] != keys[j]
  }

  /** What one more cell adds to a count or a sum. */
  function Share(fn: string, value: Value): real {
    if fn == "count" then 1.0 else if ToNumber(value).Some? then ToNumber(value).value else 0.0
  }

  lemma TotalStep(fn: string, value: Value, rows: seq<Value>)
    requires fn == "count" || fn == "sum"
    ensures Total(fn, [value] + rows) == Share(fn, value) + Total(fn, rows)
  {
    assert ([value] + rows)[1..] == rows;
    if ToNumber(value).Some? {
      assert ([ToNumber(value).value] + Numbers(rows))[1..] == Numbers(rows);
    } else {
      assert [] + Numbers(rows) == Numbers(rows);
    }
  }

  /** One more cell adds its share to exactly its own group. */
  lemma {:induction false} GroupsStep(fn: string, c: Cell, cells: seq<Cell>, keys: seq<string>)
    requires (fn == "count" || fn == "sum") && Distinct(keys)
    ensures SumGroups(Groups(fn, [c] + cells, keys)) ==
      SumGroups(Groups(fn, cells, keys)) + if c.key in keys then Share(fn, c.value) else 0.0
  {
    hide Total;
    if keys != [] {
      GroupsStep(fn, c, cells, keys[1..]);
      assert ([c] + cells)[1..] == cells;
      if c.key == keys[0] {
        var group := Group(cells, c.key);
        assert Group([c] + cells, c.key) == [c] + group && ([c] + group)[1..] == group;
        TotalStep(fn, c.value, ValuesOf(group));
      } else {
        assert [] + Group(cells, keys[0]) == Group(cells, keys[0]);
      }
    }
  }

  /** The group values of a count or sum tile add up to the ungrouped value. */
  lemma {:induction false} GroupsAddUp(fn: string, cells: seq<Cell>, keys: seq<string>)
    requires (fn == "count" || fn == "sum") && Distinct(keys) && forall c <- cells :: c.key in keys
    ensures SumGroups(Groups(fn, cells, keys)) == Total(fn, ValuesOf(cells))
    decreases |cells|
  {
    if cells == [] {
      NothingToAdd(fn, keys);
    } else {
      var c, rest := cells[0], cells[1..];
      assert cells == [c] + rest && c in cells && forall d <- rest :: d in cells;
      GroupsAddUp(fn, rest, keys);
      GroupsStep(fn, c, rest, keys);
      TotalStep(fn, c.value, ValuesOf(rest));
    }
  }

  lemma {:induction false} NothingToAdd(fn: string, keys: seq<string>)
    requires fn == "count" || fn == "sum"
    ensures SumGroups(Groups(fn, [], keys)) == 0.0
  {
    if keys != [] {
      NothingToAdd(fn, keys[1..]);
    }
  }

  /** A grouped count or sum tile conserves what the same tile without groups shows. */
  lemma GroupedTileConserves(env: Env, v: View, actor: Actor, tile: Tile, render: Value -> string, now: int)
    requires tile.fn == "count" || tile.fn == "sum"
    ensures var ids := SortedIds(IdsOf(v.records, tile.entity));
      var cells := Cells(env, v, actor, tile, render, ids, now);
      SumGroups(Groups(tile.fn, cells, SortedIds(Keys(cells)))) ==
      Total(tile.fn, ValuesOf(Cells(env, v, actor, tile.(groupBy := ""), render, ids, now)))
  {
    var ids := SortedIds(IdsOf(v.records, tile.entity));
    var cells := Cells(env, v, actor, tile, render, ids, now);
    SortedIdsDistinct(Keys(cells));
    GroupsAddUp(tile.fn, cells, SortedIds(Keys(cells)));
    SameValues(env, v, actor, tile, render, ids, now);
  }

  lemma {:induction false} SameValues(env: Env, v: View, actor: Actor, tile: Tile, render: Value -> string,
                                      ids: seq<string>, now: int)
    ensures ValuesOf(Cells(env, v, actor, tile, render, ids, now)) ==
            ValuesOf(Cells(env, v, actor, tile.(groupBy := ""), render, ids, now))
  {
    hide Readable;
    if ids != [] {
      SameValues(env, v, actor, tile, render, ids[1..], now);
      var c, d := CellOf(env, v, tile, render, ids[0], now), CellOf(env, v, tile.(groupBy := ""), render, ids[0], now);
      var a, b := Cells(env, v, actor, tile, render, ids[1..], now),
        Cells(env, v, actor, tile.(groupBy := ""), render, ids[1..], now);
      assert ([c] + a)[1..] == a && ([d] + b)[1..] == b && [] + a == a && [] + b == b;
    }
  }
}
