/** The compiled definition the engine executes: entities, workflows, permissions, rules and links. */
module Model {
  import opened Values

  // ---- entities ---------------------------------------------------------------

  datatype FieldType =
    | Scalar(scalar: string)
    | Enum(values: seq<string>)
    | Ref(target: string)
    | ArrayRef(targets: string)
    | Tags
    | MultiEnum(options: seq<string>)
    | ArrayFile

  datatype Field = Field(
    name: string, ty: FieldType, required: bool, unique: bool,
    default: string, computed: string, format: string)

  datatype Entity = Entity(
    name: string, singleton: bool, fields: seq<Field>, constraints: seq<seq<string>>)

  /** Fields are declared once; the compiler rejects duplicates. */
  predicate DistinctFields(fields: seq<Field>) {
    forall i, j :: 0 <= i < j < |fields| ==> fields[i].name != fields[j].name
  }

  // ---- workflows --------------------------------------------------------------

  datatype Transition = Transition(
    from: string, to: string, action: string, auto: bool, when: string,
    assigneeRole: string, approvalRole: string)

  datatype Workflow = Workflow(field: string, transitions: seq<Transition>)

  /** Whether an edge can be taken out of a state; "any" matches every state. */
  predicate Leaves(tr: Transition, state: string) {
    tr.from == state || tr.from == "any"
  }

  /** The first named (non-auto) transition with this action out of the current state. */
  function FindTransition(transitions: seq<Transition>, action: string, current: string): (r: Option<Transition>)
    ensures r.Some? ==>
      r.value in transitions && r.value.action == action && !r.value.auto && Leaves(r.value, current)
    ensures r.None? ==>
      forall tr <- transitions :: !(tr.action == action && !tr.auto && Leaves(tr, current))
  {
    if transitions == [] then None
    else if transitions[0].action == action && !transitions[0].auto && Leaves(transitions[0], current) then
      Some(transitions[0])
    else FindTransition(transitions[1..], action, current)
  }

  /** A named action is declared once per workflow; the compiler rejects duplicates. */
  predicate DistinctActions(wf: Workflow) {
    forall t, u | t in wf.transitions && u in wf.transitions ::
      !t.auto && !u.auto && t.action == u.action ==> t == u
  }

  // ---- permissions ------------------------------------------------------------

  datatype PermItem = PermItem(
    verb: string, entity: string, field: string, all: bool, names: seq<string>, where: string)

  datatype PermRule = PermRule(verb: string, items: seq<PermItem>)

  // ---- automation, links ------------------------------------------------------

  datatype Action = Action(kind: string, role: string, task: string, args: string)

  datatype RuleId = RuleId(file: string, line: int)

  datatype Rule = Rule(
    id: RuleId, trigger: string, entity: string, stuckState: string, stuckFor: string,
    when: string, actions: seq<Action>)

  datatype LinkDecl = LinkDecl(from: string, to: string, forward: string, inverse: string)

  // ---- the model --------------------------------------------------------------

  datatype Model = Model(
    entities: map<string, Entity>,
    perms: map<string, seq<PermRule>>,
    workflows: map<string, Workflow>,
    automations: seq<Rule>,
    links: seq<LinkDecl>)

  /** Resolves a link name, forward or inverse, for an entity. The flag says which. */
  function LinkByName(links: seq<LinkDecl>, entity: string, name: string): (r: Option<(LinkDecl, bool)>)
    ensures r.Some? ==> r.value.0 in links
    ensures r.Some? && r.value.1 ==> r.value.0.from == entity && r.value.0.forward == name
    ensures r.Some? && !r.value.1 ==> r.value.0.inverse == name && entity in {r.value.0.from, r.value.0.to}
    ensures r.None? <==>
      forall l <- links ::
        (entity == l.from ==> name !in {l.forward, l.inverse}) && (entity == l.to ==> name != l.inverse)
  {
    if links == [] then None
    else
      var l := links[0];
      if l.from == entity && l.forward == name then Some((l, true))
      else if l.to == entity && l.inverse == name then Some((l, false))
      else if l.from == entity && l.inverse == name then Some((l, false))
      else LinkByName(links[1..], entity, name)
  }
}
