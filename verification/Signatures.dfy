/** What a decision must be signed with. */
module Signatures {
  import opened Values
  import opened Model
  import opened Journal
  import opened Projection
  import opened Environment
  import opened Permissions
  import opened Steps

  /** What a human signs: which decision, about what, which way. */
  function Signed(domain: string, id: string, grant: bool): string {
    domain + "|" + id + (if grant then "|granted" else "|rejected")
  }

  /** Signed by this actor, or taken without: a signature passes by the verifier where there is one, and may be
      missing, or pass unread, only on a node that does not require signatures. */
  ghost predicate Vouched(env: Env, actorId: string, message: string, signature: Option<Bytes>) {
    || (signature.Some? && env.verify.Some? && env.verify.value(actorId, message, signature.value))
    || (!env.requireSignatures && (signature.None? || env.verify.None?))
  }

  lemma VouchedIs(env: Env, actorId: string, message: string, signature: Option<Bytes>)
    ensures SignatureOk(env, actorId, message, signature) <==> Vouched(env, actorId, message, signature)
  {
  }

  lemma MessageIs(id: string, grant: bool)
    ensures ApprovalMessage(id, grant) == Signed("kalita-approval-v1", id, grant)
    ensures DefinitionMessage(id, grant) == Signed("kalita-definition-v1", id, grant)
  {
  }

  /** A decision that changes anything was vouched for, about this approval, this way round. */
  lemma DecisionIsVouched(env: Env, s: State, actor: Actor, id: string, grant: bool, signature: Option<Bytes>,
                          basis: Option<Basis>, now: int)
    ensures var out := Decide(env, s, actor, id, grant, signature, basis, now);
      out.state != s || out.error.None? ==>
        Vouched(env, actor.id, Signed("kalita-approval-v1", id, grant), signature) && basis.Some? && actor.id != ""
  {
    VouchedIs(env, actor.id, ApprovalMessage(id, grant), signature);
    MessageIs(id, grant);
    hide SignatureOk, Vouched, Signed, ApprovalMessage, CanNamed, MoveApproved, Commit;
  }

  lemma DefinitionDecisionIsVouched(env: Env, s: State, actor: Actor, id: string, grant: bool,
                                    signature: Option<Bytes>, basis: Option<Basis>, now: int)
    ensures var out := DecideProposal(env, s, actor, id, grant, signature, basis, now);
      out.state != s || out.error.None? ==>
        Vouched(env, actor.id, Signed("kalita-definition-v1", id, grant), signature) && basis.Some? && actor.id != ""
  {
    VouchedIs(env, actor.id, DefinitionMessage(id, grant), signature);
    MessageIs(id, grant);
    hide SignatureOk, Vouched, Signed, DefinitionMessage, Commit;
  }

  /** Where signatures are required, an unsigned decision is refused and leaves everything as it was. */
  lemma UnsignedIsRefused(env: Env, s: State, actor: Actor, id: string, grant: bool, basis: Option<Basis>, now: int)
    requires env.requireSignatures
    ensures Decide(env, s, actor, id, grant, None, basis, now).error.Some?
    ensures Decide(env, s, actor, id, grant, None, basis, now).state == s
    ensures DecideProposal(env, s, actor, id, grant, None, basis, now).error.Some?
    ensures DecideProposal(env, s, actor, id, grant, None, basis, now).state == s
  {
    DecisionIsVouched(env, s, actor, id, grant, None, basis, now);
    DefinitionDecisionIsVouched(env, s, actor, id, grant, None, basis, now);
    hide Decide, DecideProposal, Signed;
  }

  /** A signature for one decision is for no other: neither the other verdict, nor another id, nor a definition. */
  lemma SignedIsInjective(id: string, grant: bool, other: string, verdict: bool, domain: string, elsewhere: string)
    requires domain in {"kalita-approval-v1", "kalita-definition-v1"}
    requires elsewhere in {"kalita-approval-v1", "kalita-definition-v1"}
    requires Signed(domain, id, grant) == Signed(elsewhere, other, verdict)
    ensures domain == elsewhere && id == other && grant == verdict
  {
    var s, t := Signed(domain, id, grant), Signed(elsewhere, other, verdict);
    assert s[7] == domain[7] && t[7] == elsewhere[7];
    assert "kalita-approval-v1"[7] == 'a' && "kalita-definition-v1"[7] == 'd';
    var v, w := if grant then "|granted" else "|rejected", if verdict then "|granted" else "|rejected";
    assert s[|s| - 3] == v[|v| - 3] && t[|t| - 3] == w[|w| - 3];
    assert "|granted"[5] == 't' && "|rejected"[6] == 't';
    assert s[|s| - 4] == v[|v| - 4] && t[|t| - 4] == w[|w| - 4];
    assert "|granted"[4] == 'n' && "|rejected"[5] == 'c';
    assert grant == verdict;
    var d := |domain| + 1;
    assert s[d..|s| - |v|] == id && t[d..|t| - |w|] == other;
  }
}
