/** What a pairing secret, a token, a revocation and a rotation are good for, over the
    operations and runs of the grant store. */
module Grants {
  import opened Options
  import opened Auth
  import opened AuthRuns

  // ---------------------------------------------------------------- exchanging a pairing

  /** An exchange makes a grant exactly when the secret of the open pairing is presented
      in time, for its scope and from a valid origin, and the cleared pairing was
      saved.  The pairing is gone then; an expired one is dropped; in any other case
      nothing changes, so a wrong secret does not use the pairing up. */
  lemma GrantsExactlyWhen(s: System, step: Step)
    requires step.Exchange?
    ensures var t := Apply(s, step);
            var open := s.mem.pairing.Some? && step.t1 <= s.mem.pairing.value.expiresAt;
            var right := open && s.mem.pairing.value.secret.secret == step.secret
                         && s.mem.pairing.value.scope == step.scope && step.validOrigin;
            && (t.log != s.log <==> right && step.ok1)
            && (t.log != s.log ==> |t.log| == |s.log| + 1 && t.log[|s.log|].Granted?
                                   && t.mem.grants == s.mem.grants[step.id := t.log[|s.log|].grant]
                                   && t.mem.pairing == None && t.disk == (if step.ok2 then t.mem else s.mem.(pairing := None)))
            && (right && !step.ok1 ==> t.mem == s.mem.(pairing := None) && t.disk == s.disk)
            && (s.mem.pairing.Some? && !open ==> t.mem == s.mem.(pairing := None))
            && (s.mem.pairing.None? || (open && !right) ==> t == s)
  {
  }

  /** A pairing begun by anyone and presented in time, after a reload, yields a grant
      that is in memory and on file and that its token proves. */
  lemma RightSecretYieldsAGrant(s: System, begin: Step, exchange: Step, now: nat)
    requires begin.Begin? && begin.ok && exchange.Exchange? && exchange.ok1 && exchange.ok2
    requires exchange.secret == begin.secret && exchange.scope == begin.scope && exchange.validOrigin
    requires exchange.t1 <= begin.now + begin.ttl && exchange.t1 <= begin.now + 600 && exchange.t1 <= MAX_SECONDS
    requires now <= exchange.t2 + exchange.ttl && now <= exchange.t2 + LongestLife(exchange.scope) && now <= MAX_SECONDS
    ensures var t := Apply(Apply(Apply(s, begin), Refresh), exchange);
            && exchange.id in t.mem.grants && t.disk == t.mem && t.mem.pairing == None
            && Proves(t.mem.grants[exchange.id], exchange.token, exchange.origin, exchange.scope, now)
  {
  }

  // ---------------------------------------------------------------- revoking a grant

  predicate Dead(m: Memory, id: nat) {
    id in m.grants ==> m.grants[id].revokedAt.Some?
  }

  predicate DeadEverywhere(s: System, id: nat) {
    Dead(s.mem, id) && Dead(s.disk, id)
  }

  /** Only a rotation or a grant of the same id can bring a grant back. */
  predicate Revives(step: Step, id: nat) {
    (step.Rotate? || step.Exchange? || step.IssueAdmin?) && step.id == id
  }

  /** A saved revocation is in force on file at once, and in the service at once or with
      its next reload. */
  lemma RevocationTakesEffect(s: System, step: Step)
    requires step.Revoke? && step.ok && step.id in Start(s, step.who).grants
    ensures Dead(Apply(s, step).disk, step.id)
    ensures DeadEverywhere(Apply(Apply(s, step), Refresh), step.id)
    ensures step.who == Service ==> DeadEverywhere(Apply(s, step), step.id)
  {
  }

  lemma DeadStays(s: System, step: Step, id: nat)
    requires DeadEverywhere(s, id) && !Revives(step, id)
    ensures DeadEverywhere(Apply(s, step), id)
  {
  }

  /** Over every run a revoked grant stays revoked until it is rotated: no token proves
      it, and no Wi-Fi approval is prepared or used with it. */
  lemma {:induction false} RevokedStaysRevoked(s: System, steps: seq<Step>, t: System, id: nat)
    requires DeadEverywhere(s, id) && Reaches(s, steps, t) && forall step <- steps :: !Revives(step, id)
    ensures DeadEverywhere(t, id)
    ensures id in t.mem.grants ==>
              forall token: nat, origin: string, required: Scope, now: nat :: !Proves(t.mem.grants[id], token, origin, required, now)
    ensures forall step: Step :: (step.Prepare? || step.Consume?) && step.grant == id ==> Apply(t, step) == t
    decreases |steps|
  {
    if steps == [] {
      forall step: Step | (step.Prepare? || step.Consume?) && step.grant == id ensures Apply(t, step) == t {
        DeadIsUnusable(t, step);
      }
    } else {
      hide Apply, DeadEverywhere, Proves;
      DeadStays(s, steps[0], id);
      RevokedStaysRevoked(Apply(s, steps[0]), steps[1..], t, id);
    }
  }

  lemma DeadIsUnusable(s: System, step: Step)
    requires (step.Prepare? || step.Consume?) && Dead(s.mem, step.grant)
    ensures Apply(s, step) == s
  {
  }

  // ---------------------------------------------------------------- rotating a grant

  predicate OneTokenEach(m: Memory) {
    forall a, b :: a in m.grants && b in m.grants && m.grants[a].token.secret == m.grants[b].token.secret ==> a == b
  }

  /** The grants after a rotation: only that of `id` is another, its old token proves
      nothing, and its new one proves it from its origin, within its scope and time. */
  ghost predicate TokenReplaced(before: Memory, after: Memory, step: Step, token: nat, now: nat, origin: string, required: Scope)
    requires step.Rotate? && step.id in before.grants
  {
    var g := before.grants[step.id];
    && after.grants.Keys == before.grants.Keys && OneTokenEach(after)
    && (forall id :: id in after.grants && id != step.id ==> after.grants[id] == before.grants[id])
    && (forall id :: id in after.grants ==> !Proves(after.grants[id], g.token.secret, origin, required, now))
    && (forall id :: id in after.grants ==>
          (Proves(after.grants[id], token, origin, required, now) <==>
           && id == step.id && origin == g.origin && (required == Print || g.scope == Admin)
           && now <= step.now + step.ttl && now <= step.now + LongestLife(g.scope) && now <= MAX_SECONDS))
  }

  lemma RotatedMemory(m: Memory, step: Step, now: nat, origin: string, required: Scope)
    requires step.Rotate? && step.id in m.grants && OneTokenEach(m)
    requires forall id :: id in m.grants ==> m.grants[id].token.secret != step.token
    ensures TokenReplaced(m, Rotated(m, step.id, step.ttl, step.salt, step.token, step.created, step.now),
                          step, step.token, now, origin, required)
  {
  }

  /** A rotation keeps the id, the origin and the scope of a grant and replaces its
      token: the old one proves nothing any more, and the new one proves this grant and
      no other, for as long as was asked and its scope may last. */
  lemma RotationReplacesTheToken(s: System, step: Step, now: nat, origin: string, required: Scope)
    requires step.Rotate? && step.id in Start(s, step.who).grants && OneTokenEach(Start(s, step.who))
    requires step.ok || step.who == Service
    requires forall id :: id in Start(s, step.who).grants ==> Start(s, step.who).grants[id].token.secret != step.token
    ensures var after := if step.who == Service then Apply(s, step).mem else Apply(s, step).disk;
            && TokenReplaced(Start(s, step.who), after, step, step.token, now, origin, required)
            && (step.ok ==> Apply(s, step).disk == after)
  {
    hide TokenReplaced, OneTokenEach, Rotated;
    RotatedMemory(Start(s, step.who), step, now, origin, required);
  }
}
