/** What the rules of a definition say: who may do what to which field, and who may act and approve. */
module Rights {
  import opened Values
  import opened Model
  import opened Journal
  import opened Projection
  import opened Environment
  import opened Permissions

  // ---- rights over records, rule by rule -------------------------------------------------

  /** The item is about the field of the entity; an item without a field is about all of them. */
  predicate About(item: PermItem, entity: string, field: string) {
    item.all || (item.entity == entity && item.field in {"", "*", field})
  }

  /** A verb written in a rule covers itself, and "full" the four verbs on records. */
  predicate Covers(written: string, verb: string) {
    written == verb || (written == "full" && verb in {"read", "create", "update", "delete"})
  }

  ghost predicate ClauseHolds(env: Env, v: View, actor: Actor, where: string, record: Option<Fields>, now: int) {
    where != "" ==> record.Some? && env.holds(where, v.records, "", actor, record.value, now)
  }

  ghost predicate Forbids(env: Env, v: View, actor: Actor, rule: PermRule, item: PermItem, verb: string, entity: string,
                          field: string, record: Option<Fields>, now: int)
  {
    && rule.verb == "deny" && item in rule.items && Covers(item.verb, verb) && About(item, entity, field)
    && ClauseHolds(env, v, actor, item.where, record, now)
  }

  ghost predicate Permits(env: Env, v: View, actor: Actor, rule: PermRule, item: PermItem, verb: string, entity: string,
                          field: string, record: Option<Fields>, now: int)
  {
    && Covers(rule.verb, verb) && item in rule.items && About(item, entity, field)
    && ClauseHolds(env, v, actor, item.where, record, now)
  }

  /** Core entities are read by everyone and written by the approver; any other needs an item that permits and
      none that forbids, in the rules of the actor's role. */
  ghost predicate Entitled(env: Env, v: View, actor: Actor, verb: string, entity: string, field: string,
                           record: Option<Fields>, now: int)
  {
    if "core." <= entity then verb == "read" || actor.role == env.approver
    else
      && actor.role in v.model.perms
      && (exists rule <- v.model.perms[actor.role], item <- rule.items ::
            Permits(env, v, actor, rule, item, verb, entity, field, record, now))
      && (forall rule <- v.model.perms[actor.role], item <- rule.items ::
            !Forbids(env, v, actor, rule, item, verb, entity, field, record, now))
  }

  lemma CanIsEntitled(env: Env, v: View, actor: Actor, verb: string, entity: string, field: string,
                      record: Option<Fields>, now: int)
    ensures Can(env, v, actor, verb, entity, field, record, now) <==>
      Entitled(env, v, actor, verb, entity, field, record, now)
  {
    if !("core." <= entity) && actor.role in v.model.perms {
      var rules := v.model.perms[actor.role];
      DeniedMeans(env, v, rules, actor, verb, entity, field, record, now);
      AllowedMeans(env, v, rules, actor, verb, entity, field, record, now);
    }
  }

  lemma DeniedMeans(env: Env, v: View, rules: seq<PermRule>, actor: Actor, verb: string, entity: string, field: string,
                    record: Option<Fields>, now: int)
    ensures Denied(env, v, rules, actor, verb, entity, field, record, now) <==>
      exists rule <- rules, item <- rule.items :: Forbids(env, v, actor, rule, item, verb, entity, field, record, now)
  {
    forall rule, item | rule in rules && item in rule.items
      ensures Forbids(env, v, actor, rule, item, verb, entity, field, record, now) <==>
        rule.verb == "deny" && ItemMatches(item.verb, item, verb, entity, field)
        && DenyHolds(env, v, actor, item, record, now)
    {
    }
  }

  lemma AllowedMeans(env: Env, v: View, rules: seq<PermRule>, actor: Actor, verb: string, entity: string,
                     field: string, record: Option<Fields>, now: int)
    ensures Allowed(env, v, rules, actor, verb, entity, field, record, now) <==>
      exists rule <- rules, item <- rule.items :: Permits(env, v, actor, rule, item, verb, entity, field, record, now)
  {
    forall rule, item | rule in rules && item in rule.items
      ensures Permits(env, v, actor, rule, item, verb, entity, field, record, now) <==>
        Grants(rule, verb) && ItemMatches(verb, item, verb, entity, field)
        && AllowHolds(env, v, actor, item, record, now)
    {
    }
  }

  // ---- rights to act and to approve -----------------------------------------------------------

  /** A deny item for the verb that lists the action, or all of them. */
  predicate Bars(rule: PermRule, item: PermItem, verb: string, action: string) {
    rule.verb == "deny" && item in rule.items && item.verb == verb && (item.all || action in item.names)
  }

  predicate Licenses(rule: PermRule, item: PermItem, verb: string, action: string) {
    rule.verb == verb && item in rule.items && (item.all || action in item.names)
  }

  /** The role has rules, an item in them licenses the action, and none bars it. */
  predicate Licensed(perms: map<string, seq<PermRule>>, role: string, verb: string, action: string) {
    && role in perms
    && (exists rule <- perms[role], item <- rule.items :: Licenses(rule, item, verb, action))
    && (forall rule <- perms[role], item <- rule.items :: !Bars(rule, item, verb, action))
  }

  lemma CanNamedIsLicensed(perms: map<string, seq<PermRule>>, role: string, verb: string, action: string)
    ensures CanNamed(perms, role, verb, action) <==> Licensed(perms, role, verb, action)
  {
    if role in perms {
      var rules := perms[role];
      assert (exists rule <- rules :: rule.verb == "deny" &&
                exists item <- rule.items :: item.verb == verb && (item.all || action in item.names)) <==>
             (exists rule <- rules, item <- rule.items :: Bars(rule, item, verb, action));
      assert (exists rule <- rules :: rule.verb == verb &&
                exists item <- rule.items :: item.all || action in item.names)
        <==> (exists rule <- rules, item <- rule.items :: Licenses(rule, item, verb, action));
    }
  }

  function WithOne(perms: map<string, seq<PermRule>>, role: string, rule: PermRule): map<string, seq<PermRule>>
    requires role in perms
  {
    perms[role := perms[role] + [rule]]
  }

  /** One more deny rule takes exactly the actions it bars from a role, whatever the other rules license; one more
      rule of the verb gives exactly the actions it licenses and no deny rule bars; any other changes nothing. */
  lemma OneMoreRule(perms: map<string, seq<PermRule>>, role: string, rule: PermRule, verb: string, action: string)
    requires role in perms && (verb == "act" || verb == "approve")
    ensures CanNamed(WithOne(perms, role, rule), role, verb, action) <==>
      && (forall item <- rule.items :: !Bars(rule, item, verb, action))
      && (CanNamed(perms, role, verb, action)
          || ((exists item <- rule.items :: Licenses(rule, item, verb, action))
              && forall r <- perms[role], item <- r.items :: !Bars(r, item, verb, action)))
  {
    var more := WithOne(perms, role, rule);
    CanNamedIsLicensed(perms, role, verb, action);
    CanNamedIsLicensed(more, role, verb, action);
    hide CanNamed;
    forall r ensures r in more[role] <==> r in perms[role] || r == rule {
    }
  }
}
