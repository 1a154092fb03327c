/** The checks every write passes: types, defaults, required fields, references and uniqueness. */
module Records {
  import opened Values
  import opened Model
  import opened Journal
  import opened Projection
  import opened Environment
  import opened Permissions
  import Serial

  function FindField(fields: seq<Field>, name: string): (r: Option<Field>)
    ensures r.Some? ==> r.value in fields && r.value.name == name
    ensures r.None? ==> forall f <- fields :: f.name != name
  {
    if fields == [] then None
    else if fields[0].name == name then Some(fields[0])
    else FindField(fields[1..], name)
  }

  // ---- types ------------------------------------------------------------------

  predicate HasHash(v: Value) {
    v.Obj? && AsString(Get(v.fields, "hash")) != ""
  }

  predicate CurrencyCode(s: string) {
    |s| == 3 && forall c <- s :: 'A' <= c <= 'Z'
  }

  predicate ScalarOk(wellFormatted: (string, string) -> bool, scalar: string, v: Value) {
    match scalar
    case "string" => v.Str?
    case "text" => v.Str?
    case "serial" => v.Str?
    case "file" => HasHash(v)
    case "bool" => v.Bool?
    case "int" => v.Num? && v.n == v.n.Floor as real
    case "float" => v.Num?
    case "money" =>
      v.Num? ||
      (v.Obj? && ToNumber(Get(v.fields, "amount")).Some? &&
        (AsString(Get(v.fields, "currency")) == "" || CurrencyCode(AsString(Get(v.fields, "currency")))))
    case "percent" => ToNumber(v).Some? && 0.0 <= ToNumber(v).value <= 100.0
    case "decimal" => ToNumber(v).Some?
    case "date" => v.Str? && wellFormatted(scalar, v.s)
    case "datetime" => v.Str? && wellFormatted(scalar, v.s)
    case "email" => v.Str? && wellFormatted(scalar, v.s)
    case "url" => v.Str? && wellFormatted(scalar, v.s)
    case "phone" => v.Str? && wellFormatted(scalar, v.s)
    case "color" => v.Str? && wellFormatted(scalar, v.s)
    case "duration" => v.Str? && v.s != "" && wellFormatted(scalar, v.s)
    case _ => true
  }

  predicate TypeOk(wellFormatted: (string, string) -> bool, ty: FieldType, v: Value) {
    match ty
    case Scalar(s) => ScalarOk(wellFormatted, s, v)
    case Enum(values) => v.Str? && v.s in values
    case Ref(_) => v.Str?
    case ArrayRef(_) => v.List? && forall x <- v.items :: x.Str?
    case Tags => v.List? && forall x <- v.items :: x.Str?
    case MultiEnum(options) => v.List? && forall x <- v.items :: x.Str? && x.s in options
    case ArrayFile => v.List? && forall x <- v.items :: HasHash(x)
  }

  // ---- validation --------------------------------------------------------------

  predicate GivenOk(env: Env, fields: seq<Field>, values: Fields) {
    forall k :: k in values ==>
      var f := FindField(fields, k);
      f.Some? && f.value.computed == "" && (values[k] == Null || TypeOk(env.wellFormatted, f.value.ty, values[k]))
  }

  /** Fills the defaults of absent fields, in declaration order. */
  function WithDefaults(env: Env, v: View, fields: seq<Field>, values: Fields, actorId: string, now: int): (r: Fields)
    ensures forall k :: k in values ==> k in r && r[k] == values[k]
    decreases |fields|
  {
    if fields == [] then values
    else
      var f := fields[0];
      var d := env.defaultValue(f.default, v.records, values, actorId, now);
      var filled :=
        if f.name in values || f.default == "" || f.computed != "" || d.None? then values
        else values[f.name := d.value];
      WithDefaults(env, v, fields[1..], filled, actorId, now)
  }

  predicate RequiredPresent(fields: seq<Field>, values: Fields) {
    forall f <- fields :: f.required ==> Get(values, f.name) != Null && Get(values, f.name) != Str("")
  }

  /** Unset serial fields take the next number of their sequence. */
  function AssignSerials(env: Env, v: View, entity: string, fields: seq<Field>, values: Fields, now: int): (r: Fields)
    ensures forall k :: k in values && Get(values, k) !in {Null, Str("")} ==> k in r && r[k] == values[k]
    decreases |fields|
  {
    if fields == [] then values
    else
      var f := fields[0];
      var filled :=
        if f.ty == Scalar("serial") && Get(values, f.name) in {Null, Str("")}
        then values[f.name :=
          Str(Serial.FormatSerial(f.format, Serial.NextSeq(Column(v, entity, f.name), f.format), env.year(now)))]
        else values;
      AssignSerials(env, v, entity, fields[1..], filled, now)
  }

  function IdsOf(records: map<Rid, Fields>, entity: string): set<string> {
    set r | r in records && r.entity == entity :: r.id
  }

  /** The strings stored in a field, over all records of the entity. */
  function Column(v: View, entity: string, field: string): (c: seq<string>)
    ensures forall r :: r in v.records && r.entity == entity ==> AsString(Get(v.records[r], field)) in c
  {
    var ids := SortedIds(IdsOf(v.records, entity));
    assert forall id <- ids :: Rid(entity, id) in v.records;
    var c := ColumnOf(v.records, entity, field, ids);
    assert forall r :: r in v.records && r.entity == entity ==> r.id in ids && r == Rid(entity, r.id);
    c
  }

  function ColumnOf(records: map<Rid, Fields>, entity: string, field: string, ids: seq<string>): (c: seq<string>)
    requires forall id <- ids :: Rid(entity, id) in records
    ensures forall id <- ids :: AsString(Get(records[Rid(entity, id)], field)) in c
  {
    if ids == [] then []
    else [AsString(Get(records[Rid(entity, ids[0])], field))] + ColumnOf(records, entity, field, ids[1..])
  }

  predicate FieldWritesOk(env: Env, v: View, actor: Actor, verb: string, entity: string, values: Fields,
                          record: Option<Fields>, now: int)
  {
    forall k :: k in values ==> Can(env, v, actor, verb, entity, k, record, now)
  }

  /** Every non-null single reference to a pack entity names an existing record. */
  predicate RefsExist(records: map<Rid, Fields>, fields: seq<Field>, values: Fields) {
    forall f <- fields :: f.ty.Ref? && !IsCore(f.ty.target) && Get(values, f.name) != Null ==>
      Rid(f.ty.target, AsString(Get(values, f.name))) in records
  }

  predicate SameTuple(names: seq<string>, a: Fields, b: Fields) {
    forall k <- names :: Get(a, k) == Get(b, k)
  }

  /** Comparing two tuples field by field stops at the first difference. */
  predicate TuplePanics(names: seq<string>, a: Fields, b: Fields) {
    if names == [] then false
    else if Uncomparable(Get(a, names[0]), Get(b, names[0])) then true
    else Get(a, names[0]) == Get(b, names[0]) && TuplePanics(names[1..], a, b)
  }

  /** No other record of the entity carries the same unique value or the same constrained tuple. */
  predicate UniqueOk(records: map<Rid, Fields>, decl: Entity, entity: string, values: Fields, selfId: string) {
    forall r :: r in records && r.entity == entity && r.id != selfId ==>
      && (forall f <- decl.fields :: f.unique && Get(values, f.name) != Null ==>
            Get(records[r], f.name) != Get(values, f.name))
      && (forall names <- decl.constraints :: !SameTuple(names, records[r], values))
  }

  predicate UniquePanics(records: map<Rid, Fields>, decl: Entity, entity: string, values: Fields, selfId: string) {
    exists r :: r in records && r.entity == entity && r.id != selfId &&
      ((exists f <- decl.fields :: f.unique && Uncomparable(Get(records[r], f.name), Get(values, f.name)))
       || (exists names <- decl.constraints :: TuplePanics(names, records[r], values)))
  }

  predicate TouchesState(m: Model, entity: string, values: Fields) {
    entity in m.workflows && m.workflows[entity].field in values
  }

  // ---- the two write paths ---------------------------------------------------------

  function UniqueCheck(records: map<Rid, Fields>, decl: Entity, entity: string, values: Fields,
                       selfId: string): Option<Error>
  {
    if UniquePanics(records, decl, entity, values, selfId) then Some(Panicked)
    else if !UniqueOk(records, decl, entity, values, selfId) then Some(Conflict)
    else None
  }

  /** The values a new record is stored with, or the reason it is refused. */
  function CreateCheck(env: Env, v: View, actor: Actor, entity: string, values: Fields,
                       now: int): Result<Fields, Error>
  {
    if entity !in v.model.entities then Failure(NotFound)
    else
      var decl := v.model.entities[entity];
      if !Can(env, v, actor, "create", entity, "", None, now) then Failure(PermissionDenied)
      else if decl.singleton && IdsOf(v.records, entity) != {} then Failure(Conflict)
      else if TouchesState(v.model, entity, values) then Failure(ValidationError)
      else
        var numbered := AssignSerials(env, v, entity, decl.fields, values, now);
        if !GivenOk(env, decl.fields, numbered) then Failure(ValidationError)
        else
          var vals := WithDefaults(env, v, decl.fields, numbered, actor.id, now);
          if !RequiredPresent(decl.fields, vals) then Failure(ValidationError)
          else if !FieldWritesOk(env, v, actor, "create", entity, vals, None, now) then Failure(PermissionDenied)
          else if !RefsExist(v.records, decl.fields, vals) then Failure(ValidationError)
          else
            var clash := UniqueCheck(v.records, decl, entity, vals, "");
            if clash.Some? then Failure(clash.value) else Success(vals)
  }

  /** The fields whose value an update changes. */
  function Changes(record: Fields, values: Fields): map<string, Change> {
    map k | k in values && Get(record, k) != values[k] :: Change(Get(record, k), values[k])
  }

  /** The changes an update makes, or the reason it is refused. */
  function UpdateCheck(env: Env, v: View, actor: Actor, rid: Rid, values: Fields,
                       now: int): Result<map<string, Change>, Error>
  {
    if rid.entity !in v.model.entities then Failure(NotFound)
    else if rid !in v.records then Failure(NotFound)
    else
      var decl, record := v.model.entities[rid.entity], v.records[rid];
      if TouchesState(v.model, rid.entity, values) then Failure(ValidationError)
      else if !Can(env, v, actor, "update", rid.entity, "", Some(record), now) then Failure(PermissionDenied)
      else if !FieldWritesOk(env, v, actor, "update", rid.entity, values, Some(record), now)
        then Failure(PermissionDenied)
      else if !GivenOk(env, decl.fields, values) then Failure(ValidationError)
      else if !RefsExist(v.records, decl.fields, values) then Failure(ValidationError)
      else
        var clash := UniqueCheck(v.records, decl, rid.entity, record + values, rid.id);
        if clash.Some? then Failure(clash.value)
        else if exists k :: k in values && Uncomparable(Get(record, k), values[k]) then Failure(Panicked)
        else Success(Changes(record, values))
  }
}
