/** Permission decisions: default deny, deny over allow, row-level conditions. */
module Permissions {
  import opened Values
  import opened Model
  import opened Journal
  import opened Projection
  import opened Environment

  predicate IsCore(entity: string) {
    |entity| >= 5 && entity[..5] == "core."
  }

  predicate IsCrud(verb: string) {
    verb == "read" || verb == "create" || verb == "update" || verb == "delete"
  }

  /** Verb, entity and field of an item, ignoring its condition. */
  predicate ItemMatches(itemVerb: string, item: PermItem, verb: string, entity: string, field: string) {
    && (itemVerb == verb || (itemVerb == "full" && IsCrud(verb)))
    && (item.all || (item.entity == entity && (item.field == "" || item.field == "*" || item.field == field)))
  }

  predicate DenyHolds(env: Env, v: View, actor: Actor, item: PermItem, record: Option<Fields>, now: int) {
    item.where == "" || (record.Some? && env.holds(item.where, v.records, "", actor, record.value, now))
  }

  predicate Denied(env: Env, v: View, rules: seq<PermRule>, actor: Actor, verb: string, entity: string, field: string,
                   record: Option<Fields>, now: int)
  {
    exists rule <- rules :: rule.verb == "deny" &&
      exists item <- rule.items ::
        ItemMatches(item.verb, item, verb, entity, field) && DenyHolds(env, v, actor, item, record, now)
  }

  predicate Grants(rule: PermRule, verb: string) {
    rule.verb == verb || (rule.verb == "full" && IsCrud(verb))
  }

  predicate AllowHolds(env: Env, v: View, actor: Actor, item: PermItem, record: Option<Fields>, now: int) {
    item.where == "" || (record.Some? && env.holds(item.where, v.records, "", actor, record.value, now))
  }

  predicate Allowed(env: Env, v: View, rules: seq<PermRule>, actor: Actor, verb: string, entity: string, field: string,
                    record: Option<Fields>, now: int)
  {
    exists rule <- rules :: Grants(rule, verb) &&
      exists item <- rule.items ::
        ItemMatches(verb, item, verb, entity, field) && AllowHolds(env, v, actor, item, record, now)
  }

  /** Whether the actor may do the verb on the entity (or one field of it), given the record if there is one. */
  predicate Can(env: Env, v: View, actor: Actor, verb: string, entity: string, field: string,
                record: Option<Fields>, now: int)
  {
    if IsCore(entity) then verb == "read" || actor.role == env.approver
    else
      && actor.role in v.model.perms
      && !Denied(env, v, v.model.perms[actor.role], actor, verb, entity, field, record, now)
      && Allowed(env, v, v.model.perms[actor.role], actor, verb, entity, field, record, now)
  }

  /** Whether a role may act or approve a named action. */
  predicate CanNamed(perms: map<string, seq<PermRule>>, role: string, verb: string, name: string) {
    && role in perms
    && !(exists rule <- perms[role] :: rule.verb == "deny" &&
           exists item <- rule.items :: item.verb == verb && (item.all || name in item.names))
    && (exists rule <- perms[role] :: rule.verb == verb &&
           exists item <- rule.items :: item.all || name in item.names)
  }

  /** The fields the actor may read, with their values. */
  function MaskFields(env: Env, v: View, actor: Actor, entity: string, values: Fields, now: int): (masked: Fields)
    ensures masked.Keys <= values.Keys
    ensures forall k <- masked :: masked[k] == values[k] && Can(env, v, actor, "read", entity, k, Some(values), now)
  {
    map k | k in values && Can(env, v, actor, "read", entity, k, Some(values), now) :: values[k]
  }

  // ---- what one more rule does to what an actor sees -------------------------------------

  /** The view whose definition gives the role one more rule. */
  function WithRule(v: View, role: string, rule: PermRule): View
    requires role in v.model.perms
  {
    v.(model := v.model.(perms := v.model.perms[role := v.model.perms[role] + [rule]]))
  }

  /** The fields a rule's items hit for a read of this record. */
  function Hit(env: Env, v: View, actor: Actor, entity: string, values: Fields, rule: PermRule, now: int): set<string> {
    set k, item | k in values && item in rule.items
                  && ItemMatches(if rule.verb == "deny" then item.verb else "read", item, "read", entity, k)
                  && DenyHolds(env, v, actor, item, Some(values), now) :: k
  }

  /** Deny over allow: one more deny rule hides exactly the fields it hits, whatever the other rules grant. */
  lemma DenyRuleHides(env: Env, v: View, actor: Actor, entity: string, values: Fields, rule: PermRule, now: int)
    requires !IsCore(entity) && actor.role in v.model.perms && rule.verb == "deny"
    ensures MaskFields(env, WithRule(v, actor.role, rule), actor, entity, values, now) ==
      MaskFields(env, v, actor, entity, values, now) - Hit(env, v, actor, entity, values, rule, now)
  {
    var rules, w := v.model.perms[actor.role], WithRule(v, actor.role, rule);
    forall k | k in values
      ensures Can(env, w, actor, "read", entity, k, Some(values), now) <==>
              Can(env, v, actor, "read", entity, k, Some(values), now)
                && k !in Hit(env, v, actor, entity, values, rule, now)
    {
      DeniedByMore(env, v, w, rules, rule, actor, "read", entity, k, Some(values), now);
      AllowedByMore(env, v, w, rules, rule, actor, "read", entity, k, Some(values), now);
    }
  }

  /** Default deny: one more rule that grants reading shows exactly the fields it hits and no deny rule hides;
      one more rule of any other verb shows nothing. */
  lemma AllowRuleShows(env: Env, v: View, actor: Actor, entity: string, values: Fields, rule: PermRule, now: int)
    requires !IsCore(entity) && actor.role in v.model.perms && rule.verb != "deny"
    ensures var hit := Hit(env, v, actor, entity, values, rule, now);
      MaskFields(env, WithRule(v, actor.role, rule), actor, entity, values, now).Keys ==
      MaskFields(env, v, actor, entity, values, now).Keys +
      set k | k in hit && Grants(rule, "read")
              && !Denied(env, v, v.model.perms[actor.role], actor, "read", entity, k, Some(values), now)
  {
    var rules, w := v.model.perms[actor.role], WithRule(v, actor.role, rule);
    forall k | k in values
      ensures Can(env, w, actor, "read", entity, k, Some(values), now) <==>
        !Denied(env, v, rules, actor, "read", entity, k, Some(values), now) &&
        (Allowed(env, v, rules, actor, "read", entity, k, Some(values), now)
         || (Grants(rule, "read") && k in Hit(env, v, actor, entity, values, rule, now)))
    {
      DeniedByMore(env, v, w, rules, rule, actor, "read", entity, k, Some(values), now);
      AllowedByMore(env, v, w, rules, rule, actor, "read", entity, k, Some(values), now);
    }
  }

  lemma DeniedByMore(env: Env, v: View, w: View, rules: seq<PermRule>, rule: PermRule, actor: Actor, verb: string,
                     entity: string, field: string, record: Option<Fields>, now: int)
    requires w.records == v.records
    ensures Denied(env, w, rules + [rule], actor, verb, entity, field, record, now) <==>
      || Denied(env, v, rules, actor, verb, entity, field, record, now)
      || (rule.verb == "deny" && exists item <- rule.items ::
            ItemMatches(item.verb, item, verb, entity, field) && DenyHolds(env, v, actor, item, record, now))
  {
  }

  lemma AllowedByMore(env: Env, v: View, w: View, rules: seq<PermRule>, rule: PermRule, actor: Actor, verb: string,
                      entity: string, field: string, record: Option<Fields>, now: int)
    requires w.records == v.records
    ensures Allowed(env, w, rules + [rule], actor, verb, entity, field, record, now) <==>
      || Allowed(env, v, rules, actor, verb, entity, field, record, now)
      || (Grants(rule, verb) && exists item <- rule.items ::
            ItemMatches(verb, item, verb, entity, field) && AllowHolds(env, v, actor, item, record, now))
  {
  }
}
