/** What the engine calls but does not define: the compiler, the condition and computed-field evaluators,
    the id source, signature verification, and the node's fixed settings. */
module Environment {
  import opened Values
  import opened Model
  import opened Journal
  import opened Projection

  datatype Env = Env(
    /** The id drawn when the journal holds n entries. */
    ids: nat -> string,
    eventIds: nat -> string,
    compile: Compiler,
    /** Whether a condition text holds: text, stored records, $self, actor, values, clock. */
    holds: (string, map<Rid, Fields>, string, Actor, Fields, int) -> bool,
    /** A record's values extended with its computed fields. */
    computed: (Model, map<Rid, Fields>, Rid, int) -> Fields,
    /** The value of a default: text, stored records, values so far, actor id, clock. */
    defaultValue: (string, map<Rid, Fields>, Fields, string, int) -> Option<Value>,
    /** Format checks on strings: date, datetime, email, url, phone, color, duration. */
    wellFormatted: (string, string) -> bool,
    year: int -> nat,
    /** Signature verification, when wired: actor id, message, signature. */
    verify: Option<(string, string, Bytes) -> bool>,
    requireSignatures: bool,
    approver: string,
    taskTTL: int)

  /** Ids never repeat and are never empty. */
  ghost predicate FreshIds(env: Env) {
    && (forall m: nat, n: nat :: env.ids(m) == env.ids(n) ==> m == n)
    && (forall n: nat :: env.ids(n) != "")
  }

  datatype Error =
    | BasisRequired | NotFound | PermissionDenied | ValidationError | Conflict | GuardFailed | StaleBase
    | EmptyActor | NoRecord | Panicked
}
