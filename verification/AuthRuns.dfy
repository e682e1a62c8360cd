/** One-time pairings and Wi-Fi approvals over every run.

    The service keeps one memory copy for its lifetime.  A command-line process
    loads the file, changes it once and writes it back, and these sequences do
    not overlap with each other or with an operation of the service.  Any write
    may fail, and the service may reload or restart at any time. */
module AuthRuns {
  import opened Options
  import opened Auth

  datatype Who = Service | CommandLine

  /** What a Wi-Fi approval is bound to. */
  datatype Request = Request(id: nat, grant: nat, origin: string, connection: string, fingerprint: string)

  function RequestOf(a: Approval): Request {
    Request(a.id, a.grant, a.origin, a.connection, a.fingerprint)
  }

  datatype Event =
    | Began(pairing: Pairing, ttl: nat, at: nat)
    | Granted(exchange: Step, from: Pairing, onDisk: Option<Pairing>, grant: Grant)
    | Prepared(approval: Approval, saved: bool)
    | ApproveCalled(id: nat)
    | ConsumedApproval(request: Request, at: nat, grant: Grant, checkedAt: nat)
    | Reloaded

  /** `secrets` and `ids` are the random values drawn so far. */
  datatype System = System(mem: Memory, disk: Memory, secrets: set<nat>, ids: set<nat>, log: seq<Event>)

  datatype Step =
    | Refresh
    | Begin(who: Who, scope: Scope, ttl: nat, salt: nat, secret: nat, now: nat, ok: bool)
    | Exchange(secret: nat, origin: string, validOrigin: bool, scope: Scope, ttl: nat,
               id: nat, salt: nat, token: nat, t1: nat, t2: nat, ok1: bool, ok2: bool)
    | IssueAdmin(id: nat, origin: string, ttl: nat, salt: nat, token: nat, now: nat, ok: bool)
    | Prepare(id: nat, grant: nat, origin: string, validOrigin: bool, connection: string, fingerprint: string, t1: nat, t2: nat, ok: bool)
    | Approve(who: Who, id: nat, t1: nat, t2: nat, ok: bool)
    | Consume(id: nat, grant: nat, origin: string, connection: string, fingerprint: string, t1: nat, t2: nat, t3: nat, ok: bool)
    | Revoke(who: Who, id: nat, now: nat, ok: bool)
    | Rotate(who: Who, id: nat, ttl: nat, salt: nat, token: nat, created: nat, now: nat, ok: bool)

  /** The memory an operation works on. */
  function Start(s: System, who: Who): Memory {
    if who == Service then s.mem else s.disk
  }

  /** The effect of an operation; a command-line process ends after it. */
  function Take(s: System, who: Who, e: Effect): System {
    s.(mem := if who == Service then e.mem else s.mem, disk := e.disk)
  }

  function Note(s: System, event: Event): System {
    s.(log := s.log + [event])
  }

  predicate Drawn(s: System, step: Step) {
    match step
    case Begin(_, _, _, _, secret, _, _) => secret !in s.secrets
    case Prepare(id, _, _, _, _, _, _, _, _) => id !in s.ids
    case _ => true
  }

  function AfterExchange(s: System, step: Step): System
    requires step.Exchange?
  {
    match Exchanging(s.mem, s.disk, step.secret, step.origin, step.validOrigin, step.scope, step.ttl,
                     step.id, step.salt, step.token, step.t1, step.t2, step.ok1, step.ok2)
    case Nothing(after) => Take(s, Service, after)
    case Made(cleared, after) =>
      Note(Take(s, Service, after), Granted(step, s.mem.pairing.value, cleared.disk.pairing, after.mem.grants[step.id]))
  }

  function AfterPrepare(s: System, step: Step): System
    requires step.Prepare?
  {
    var e := Preparing(s.mem, s.disk, step.id, step.grant, step.origin, step.validOrigin, step.connection,
                       step.fingerprint, step.t1, step.t2, step.ok);
    if !MayPrepare(s.mem, step.grant, step.origin, step.validOrigin, step.connection, step.fingerprint, step.t1)
    then Take(s, Service, e)
    else
      Note(Take(s, Service, e).(ids := s.ids + {step.id}),
           Prepared(NewApproval(step.id, step.grant, step.origin, step.connection, step.fingerprint, step.t2), step.ok))
  }

  function AfterApprove(s: System, who: Who, id: nat, t1: nat, t2: nat, ok: bool): System {
    var t := Take(s, who, Approving(Start(s, who), s.disk, id, t1, t2, ok));
    if Approvable(Start(s, who), id, t1) then Note(t, ApproveCalled(id)) else t
  }

  function AfterConsume(s: System, step: Step): System
    requires step.Consume?
  {
    var t := Take(s, Service, Consuming(s.mem, s.disk, step.id, step.grant, step.origin, step.connection,
                                        step.fingerprint, step.t1, step.t2, step.t3, step.ok));
    if step.ok && MayConsume(s.mem, step.id, step.grant, step.origin, step.connection, step.fingerprint, step.t1, step.t2)
    then
      Note(t, ConsumedApproval(Request(step.id, step.grant, step.origin, step.connection, step.fingerprint),
                               step.t2, s.mem.grants[step.grant], step.t1))
    else t
  }

  function Apply(s: System, step: Step): System {
    match step
    case Refresh => Note(s.(mem := s.disk), Reloaded)
    case Begin(who, scope, ttl, salt, secret, now, ok) =>
      var begun := Begun(Start(s, who), scope, ttl, salt, secret, now);
      Note(Take(s, who, Saving(begun, s.disk, ok)).(secrets := s.secrets + {secret}), Began(begun.pairing.value, ttl, now))
    case Exchange(_, _, _, _, _, _, _, _, _, _, _, _) => AfterExchange(s, step)
    case IssueAdmin(id, origin, ttl, salt, token, now, ok) =>
      Take(s, Service, Saving(Issued(s.mem, id, origin, Admin, ttl, salt, token, now), s.disk, ok))
    case Prepare(_, _, _, _, _, _, _, _, _) => AfterPrepare(s, step)
    case Approve(who, id, t1, t2, ok) => AfterApprove(s, who, id, t1, t2, ok)
    case Consume(_, _, _, _, _, _, _, _, _) => AfterConsume(s, step)
    case Revoke(who, id, now, ok) => Take(s, who, Revoking(Start(s, who), s.disk, id, now, ok))
    case Rotate(who, id, ttl, salt, token, created, now, ok) =>
      Take(s, who, Rotating(Start(s, who), s.disk, id, ttl, salt, token, created, now, ok))
  }

  // ---------------------------------------------------------------- pairings

  /** The pairing was begun before, and lasts as long as was asked and at most ten minutes. */
  predicate BeganWith(log: seq<Event>, p: Pairing) {
    exists i :: 0 <= i < |log| && log[i].Began? && log[i].pairing == p && EndsAfter(p.expiresAt, log[i].at, log[i].ttl, 600)
  }

  /** The secret of the pairing was presented in time, for its scope and from a valid
      origin, and the grant is what was asked for: of that origin and scope, with the
      token that was drawn, and for no longer than its scope may last. */
  predicate Earned(e: Event)
    requires e.Granted?
  {
    && e.exchange.Exchange? && e.exchange.secret == e.from.secret.secret && e.exchange.scope == e.from.scope
    && e.exchange.validOrigin && e.exchange.t1 <= e.from.expiresAt
    && e.grant.id == e.exchange.id && e.grant.origin == e.exchange.origin && e.grant.scope == e.from.scope
    && e.grant.token == Digest(e.exchange.salt, e.exchange.token) && e.grant.revokedAt == None
    && e.grant.createdAt == e.exchange.t2
    && EndsAfter(e.grant.expiresAt, e.exchange.t2, e.exchange.ttl, LongestLife(e.from.scope))
  }

  predicate GrantedFrom(log: seq<Event>, secret: Digest) {
    exists i :: 0 <= i < |log| && log[i].Granted? && log[i].from.secret == secret
  }

  /** A pairing that can still be exchanged was begun with its scope and has
      not been exchanged. */
  predicate OpenPairing(log: seq<Event>, m: Memory) {
    m.pairing.Some? ==> BeganWith(log, m.pairing.value) && !GrantedFrom(log, m.pairing.value.secret)
  }

  predicate GrantsOnce(log: seq<Event>) {
    forall i, j :: 0 <= i < j < |log| && log[i].Granted? && log[j].Granted? ==> log[i].from.secret != log[j].from.secret
  }

  predicate GrantsFollowPairings(log: seq<Event>) {
    forall i :: 0 <= i < |log| && log[i].Granted? ==>
      BeganWith(log[..i], log[i].from) && Earned(log[i]) && log[i].onDisk == None
  }

  predicate SecretsDrawn(s: System) {
    && (forall i :: 0 <= i < |s.log| && s.log[i].Began? ==> s.log[i].pairing.secret.secret in s.secrets)
    && (forall i :: 0 <= i < |s.log| && s.log[i].Granted? ==> s.log[i].from.secret.secret in s.secrets)
  }

  predicate PairingInv(s: System) {
    && OpenPairing(s.log, s.mem) && OpenPairing(s.log, s.disk)
    && GrantsOnce(s.log) && GrantsFollowPairings(s.log) && SecretsDrawn(s)
  }

  lemma OpenStays(log: seq<Event>, e: Event, m: Memory)
    requires OpenPairing(log, m)
    requires m.pairing.Some? && e.Granted? ==> e.from.secret != m.pairing.value.secret
    ensures OpenPairing(log + [e], m)
  {
    if m.pairing.Some? {
      var p := m.pairing.value;
      var i :| 0 <= i < |log| && log[i].Began? && log[i].pairing == p && EndsAfter(p.expiresAt, log[i].at, log[i].ttl, 600);
      assert (log + [e])[i] == log[i];
      assert forall k :: 0 <= k < |log| ==> (log + [e])[k] == log[k];
    }
  }

  lemma GrantsStay(log: seq<Event>, e: Event)
    requires GrantsOnce(log) && GrantsFollowPairings(log)
    requires e.Granted? ==> BeganWith(log, e.from) && Earned(e) && e.onDisk == None && !GrantedFrom(log, e.from.secret)
    ensures GrantsOnce(log + [e]) && GrantsFollowPairings(log + [e])
  {
    var r := log + [e];
    forall i | 0 <= i < |r| && r[i].Granted?
      ensures BeganWith(r[..i], r[i].from) && Earned(r[i]) && r[i].onDisk == None
    {
      assert i < |log| ==> r[..i] == log[..i];
      assert r[..|log|] == log;
    }
  }

  lemma EventKeepsPairings(s: System, e: Event)
    requires PairingInv(s) && !e.Granted? && (e.Began? ==> e.pairing.secret.secret in s.secrets)
    ensures PairingInv(s.(log := s.log + [e]))
  {
    OpenStays(s.log, e, s.mem);
    OpenStays(s.log, e, s.disk);
    GrantsStay(s.log, e);
  }

  /** A change of memory and file that brings in no other pairing. */
  lemma TakeKeepsPairings(s: System, who: Who, m: Memory, ok: bool)
    requires PairingInv(s) && (m.pairing == Start(s, who).pairing || m.pairing == None)
    ensures PairingInv(Take(s, who, Saving(m, s.disk, ok)))
  {
  }

  lemma BeginKeepsPairings(s: System, step: Step)
    requires PairingInv(s) && step.Begin? && Drawn(s, step)
    ensures PairingInv(Apply(s, step))
  {
    var m := Begun(Start(s, step.who), step.scope, step.ttl, step.salt, step.secret, step.now);
    var e := Began(m.pairing.value, step.ttl, step.now);
    var t := s.(secrets := s.secrets + {step.secret});
    EventKeepsPairings(t, e);
    assert (s.log + [e])[|s.log|] == e;
    assert OpenPairing(s.log + [e], m);
  }

  lemma ExchangeKeepsPairings(s: System, step: Step)
    requires PairingInv(s) && step.Exchange?
    ensures PairingInv(AfterExchange(s, step))
  {
    var m := s.mem;
    var empty := m.(pairing := None);
    if m.pairing.Some? {
      TakeKeepsPairings(s, Service, empty, step.ok1);
      if MayExchange(m, step.secret, step.scope, step.validOrigin, step.t1) && step.ok1 {
        GrantKeepsPairings(s, step);
      }
    }
  }

  lemma GrantKeepsPairings(s: System, step: Step)
    requires PairingInv(s) && step.Exchange? && MayExchange(s.mem, step.secret, step.scope, step.validOrigin, step.t1)
    ensures var empty := s.mem.(pairing := None);
            var m := Issued(empty, step.id, step.origin, step.scope, step.ttl, step.salt, step.token, step.t2);
            var granted := Granted(step, s.mem.pairing.value, None, m.grants[step.id]);
            PairingInv(Note(s.(mem := m, disk := if step.ok2 then m else empty), granted))
  {
    var p := s.mem.pairing.value;
    var m := Issued(s.mem, step.id, step.origin, step.scope, step.ttl, step.salt, step.token, step.t2);
    var granted := Granted(step, p, None, m.grants[step.id]);
    assert Earned(granted);
    GrantsStay(s.log, granted);
    assert SecretsDrawn(Note(s, granted)) by {
      var i :| 0 <= i < |s.log| && s.log[i].Began? && s.log[i].pairing == p && EndsAfter(p.expiresAt, s.log[i].at, s.log[i].ttl, 600);
    }
  }

  lemma PairingsKept(s: System, step: Step)
    requires PairingInv(s) && Drawn(s, step)
    ensures PairingInv(Apply(s, step))
  {
    var r := Apply(s, step);
    match step {
      case Begin(who, scope, ttl, salt, secret, now, ok) => BeginKeepsPairings(s, step);
      case Exchange(_, _, _, _, _, _, _, _, _, _, _, _) => ExchangeKeepsPairings(s, step);
      case _ =>
        hide PairingInv;
        QuietStepKeepsPairings(s, step);
    }
  }

  lemma QuietStepKeepsPairings(s: System, step: Step)
    requires PairingInv(s) && !step.Begin? && !step.Exchange?
    ensures PairingInv(Apply(s, step))
  {
    var r := Apply(s, step);
    var t := s.(mem := r.mem, disk := r.disk, ids := r.ids);
    assert r.mem.pairing == s.mem.pairing || r.mem.pairing == s.disk.pairing;
    assert r.disk.pairing == s.mem.pairing || r.disk.pairing == s.disk.pairing;
    assert PairingInv(t);
    if r.log != s.log {
      EventKeepsPairings(t, r.log[|s.log|]);
    }
  }

  // ---------------------------------------------------------------- Wi-Fi approvals

  /** The request was prepared at `j`, and no later prepare was saved. */
  predicate PreparedAt(log: seq<Event>, r: Request, j: nat) {
    && j < |log| && log[j].Prepared? && RequestOf(log[j].approval) == r
    && (forall k :: j < k < |log| && log[k].Prepared? ==> !log[k].saved)
  }

  predicate ReloadedAfter(log: seq<Event>, k: nat) {
    exists r :: k < r < |log| && log[r] == Reloaded
  }

  /** Memory was replaced by the file after every prepare later than `j`. */
  predicate LaterForgotten(log: seq<Event>, j: nat) {
    forall k :: j < k < |log| && log[k].Prepared? ==> ReloadedAfter(log, k)
  }

  predicate ApprovedAfter(log: seq<Event>, id: nat, j: nat) {
    exists k :: j < k < |log| && log[k] == ApproveCalled(id)
  }

  predicate WasConsumed(log: seq<Event>, id: nat) {
    exists i :: 0 <= i < |log| && log[i].ConsumedApproval? && log[i].request.id == id
  }

  predicate Source(log: seq<Event>, a: Approval, j: nat) {
    && PreparedAt(log, RequestOf(a), j)
    && a.expiresAt <= log[j].approval.createdAt + WIFI_APPROVAL_TTL
    && (a.approvedAt.Some? ==> ApprovedAfter(log, a.id, j))
  }

  /** An approval in memory or on file comes from a prepare; its approval mark
      comes from a later call, and it is marked if it was ever consumed. */
  ghost predicate Traced(log: seq<Event>, m: Memory) {
    m.approval.Some? ==>
      && (exists j: nat :: Source(log, m.approval.value, j))
      && (m.approval.value.consumedAt == None ==> !WasConsumed(log, m.approval.value.id))
  }

  /** The approval in memory is that of the latest prepare since the last reload, if
      there was one. */
  ghost predicate TracedInMemory(log: seq<Event>, m: Memory) {
    m.approval.Some? ==> exists j: nat :: Source(log, m.approval.value, j) && LaterForgotten(log, j)
  }

  ghost predicate Precedes(log: seq<Event>, e: Event, j: nat)
    requires e.ConsumedApproval?
  {
    && LaterForgotten(log, j) && PreparedAt(log, e.request, j) && ApprovedAfter(log, e.request.id, j)
    && e.at <= log[j].approval.createdAt + WIFI_APPROVAL_TTL
  }

  /** A successful consume: the request was prepared at most 120 seconds before,
      with every binding the same, and every later prepare was unsaved and then
      forgotten by a reload; it was approved after that; it was not consumed before;
      and the grant it was prepared for was an unexpired and unrevoked administrator
      grant of the same origin. */
  ghost predicate Justified(log: seq<Event>, e: Event)
    requires e.ConsumedApproval?
  {
    && (exists j: nat :: Precedes(log, e, j))
    && !WasConsumed(log, e.request.id)
    && e.grant.id == e.request.grant && e.grant.origin == e.request.origin && e.grant.scope == Admin
    && e.grant.revokedAt == None && e.checkedAt <= e.grant.expiresAt
  }

  ghost predicate ConsumesJustified(log: seq<Event>) {
    forall i :: 0 <= i < |log| && log[i].ConsumedApproval? ==> Justified(log[..i], log[i])
  }

  predicate IdsDrawn(log: seq<Event>, ids: set<nat>) {
    && (forall i :: 0 <= i < |log| && log[i].Prepared? ==> log[i].approval.id in ids)
    && (forall i :: 0 <= i < |log| && log[i].ConsumedApproval? ==> log[i].request.id in ids)
  }

  ghost predicate ApprovalInv(s: System) {
    && Traced(s.log, s.mem) && Traced(s.log, s.disk) && TracedInMemory(s.log, s.mem)
    && ConsumesJustified(s.log) && IdsDrawn(s.log, s.ids) && GrantsKeyed(s)
  }

  predicate GrantsKeyed(s: System) {
    KeyedById(s.mem.grants) && KeyedById(s.disk.grants)
  }

  /** Grants stay under their own ids. */
  lemma GrantsStayKeyed(s: System, step: Step)
    requires GrantsKeyed(s)
    ensures GrantsKeyed(Apply(s, step))
  {
  }

  lemma SourceStays(log: seq<Event>, e: Event, a: Approval, j: nat)
    requires Source(log, a, j) && !(e.Prepared? && e.saved)
    ensures Source(log + [e], a, j)
  {
    var r := log + [e];
    assert forall k :: 0 <= k < |log| ==> r[k] == log[k];
    if a.approvedAt.Some? {
      var k :| j < k < |log| && log[k] == ApproveCalled(a.id);
      assert r[k] == ApproveCalled(a.id);
    }
  }

  lemma TracedStays(log: seq<Event>, e: Event, m: Memory)
    requires Traced(log, m) && !(e.Prepared? && e.saved)
    requires e.ConsumedApproval? && m.approval.Some? && e.request.id == m.approval.value.id ==> m.approval.value.consumedAt.Some?
    ensures Traced(log + [e], m)
  {
    if m.approval.Some? {
      var j: nat :| Source(log, m.approval.value, j);
      SourceStays(log, e, m.approval.value, j);
      assert forall k :: 0 <= k < |log| ==> (log + [e])[k] == log[k];
    }
  }

  lemma ForgottenStays(log: seq<Event>, e: Event, j: nat)
    requires LaterForgotten(log, j) && !e.Prepared?
    ensures LaterForgotten(log + [e], j)
  {
    var r := log + [e];
    forall k | j < k < |r| && r[k].Prepared? ensures ReloadedAfter(r, k) {
      var i :| k < i < |log| && log[i] == Reloaded;
      assert r[i] == Reloaded;
    }
  }

  lemma InMemoryStays(log: seq<Event>, e: Event, m: Memory)
    requires TracedInMemory(log, m) && !e.Prepared?
    ensures TracedInMemory(log + [e], m)
  {
    if m.approval.Some? {
      var j: nat :| Source(log, m.approval.value, j) && LaterForgotten(log, j);
      SourceStays(log, e, m.approval.value, j);
      ForgottenStays(log, e, j);
    }
  }

  /** A reload forgets every prepare that is not on file. */
  lemma ReloadForgets(log: seq<Event>, disk: Memory)
    requires Traced(log, disk)
    ensures TracedInMemory(log + [Reloaded], disk)
  {
    if disk.approval.Some? {
      var r := log + [Reloaded];
      var j: nat :| Source(log, disk.approval.value, j);
      SourceStays(log, Reloaded, disk.approval.value, j);
      assert r[|log|] == Reloaded;
      assert forall k :: j < k < |r| && r[k].Prepared? ==> ReloadedAfter(r, k);
    }
  }

  lemma ConsumesStay(log: seq<Event>, e: Event)
    requires ConsumesJustified(log) && (e.ConsumedApproval? ==> Justified(log, e))
    ensures ConsumesJustified(log + [e])
  {
    var r := log + [e];
    forall i | 0 <= i < |r| && r[i].ConsumedApproval? ensures Justified(r[..i], r[i]) {
      assert i < |log| ==> r[..i] == log[..i];
      assert r[..|log|] == log;
    }
  }

  /** Any other event, with approvals that were there before. */
  lemma EventKeepsApprovals(s: System, e: Event)
    requires ApprovalInv(s) && !e.Prepared? && !e.ConsumedApproval?
    ensures ApprovalInv(Note(s, e))
  {
    TracedStays(s.log, e, s.mem);
    TracedStays(s.log, e, s.disk);
    InMemoryStays(s.log, e, s.mem);
    ConsumesStay(s.log, e);
  }

  lemma RefreshKeepsApprovals(s: System)
    requires ApprovalInv(s)
    ensures ApprovalInv(Apply(s, Refresh))
  {
    TracedStays(s.log, Reloaded, s.disk);
    ReloadForgets(s.log, s.disk);
    ConsumesStay(s.log, Reloaded);
  }

  lemma PrepareKeepsApprovals(s: System, step: Step)
    requires ApprovalInv(s) && step.Prepare? && Drawn(s, step)
    ensures ApprovalInv(AfterPrepare(s, step))
  {
    if MayPrepare(s.mem, step.grant, step.origin, step.validOrigin, step.connection, step.fingerprint, step.t1) {
      var a := NewApproval(step.id, step.grant, step.origin, step.connection, step.fingerprint, step.t2);
      var e := Prepared(a, step.ok);
      var r := s.log + [e];
      var m := s.mem.(approval := Some(a));
      assert r[|s.log|] == e;
      assert Source(r, a, |s.log|) && LaterForgotten(r, |s.log|);
      assert Traced(r, m) && TracedInMemory(r, m);
      if !step.ok {
        TracedStays(s.log, e, s.disk);
      }
      ConsumesStay(s.log, e);
    }
  }

  /** An approval mark is added after the prepare it belongs to. */
  lemma ApprovedSource(log: seq<Event>, a: Approval, t: nat, j: nat)
    requires Source(log, a, j)
    ensures Source(log + [ApproveCalled(a.id)], a.(approvedAt := Some(t)), j)
  {
    var e := ApproveCalled(a.id);
    SourceStays(log, e, a, j);
    assert (log + [e])[|log|] == e;
  }

  lemma ApproveKeepsApprovals(s: System, who: Who, id: nat, t1: nat, t2: nat, ok: bool)
    requires ApprovalInv(s)
    ensures ApprovalInv(AfterApprove(s, who, id, t1, t2, ok))
  {
    var before := Start(s, who);
    if Approvable(before, id, t1) {
      var e := ApproveCalled(id);
      EventKeepsApprovals(s, e);
      var m := Approved(before, t2);
      var j: nat :| Source(s.log, before.approval.value, j);
      ApprovedSource(s.log, before.approval.value, t2, j);
      assert Traced(s.log + [e], m);
      if who == Service {
        var k: nat :| Source(s.log, before.approval.value, k) && LaterForgotten(s.log, k);
        ApprovedSource(s.log, before.approval.value, t2, k);
        ForgottenStays(s.log, e, k);
        assert TracedInMemory(s.log + [e], m);
      }
    }
  }

  lemma ConsumeKeepsApprovals(s: System, step: Step)
    requires ApprovalInv(s) && step.Consume?
    ensures ApprovalInv(AfterConsume(s, step))
  {
    if MayConsume(s.mem, step.id, step.grant, step.origin, step.connection, step.fingerprint, step.t1, step.t2) {
      var a := s.mem.approval.value;
      var m := Consumed(s.mem, step.t3);
      var j: nat :| Source(s.log, a, j) && LaterForgotten(s.log, j);
      assert Source(s.log, m.approval.value, j);
      assert TracedInMemory(s.log, m) && Traced(s.log, m);
      if step.ok {
        var request := Request(step.id, step.grant, step.origin, step.connection, step.fingerprint);
        var e := ConsumedApproval(request, step.t2, s.mem.grants[step.grant], step.t1);
        assert Precedes(s.log, e, j);
        ConsumesStay(s.log, e);
        TracedStays(s.log, e, m);
        InMemoryStays(s.log, e, m);
        assert IdsDrawn(s.log + [e], s.ids);
      }
    }
  }

  lemma QuietStepKeepsApprovals(s: System, step: Step)
    requires ApprovalInv(s) && !step.Prepare? && !step.Approve? && !step.Consume? && !step.Refresh?
    ensures ApprovalInv(Apply(s, step))
  {
    var r := Apply(s, step);
    var t := s.(mem := r.mem, disk := r.disk, secrets := r.secrets);
    GrantsStayKeyed(s, step);
    assert r.mem.approval == s.mem.approval;
    assert r.disk.approval == s.mem.approval || r.disk.approval == s.disk.approval;
    assert ApprovalInv(t);
    if r.log != s.log {
      EventKeepsApprovals(t, r.log[|s.log|]);
    }
  }

  lemma ApprovalsKept(s: System, step: Step)
    requires ApprovalInv(s) && Drawn(s, step)
    ensures ApprovalInv(Apply(s, step))
  {
    hide ApprovalInv, AfterPrepare, AfterConsume, AfterApprove;
    match step {
      case Refresh => RefreshKeepsApprovals(s);
      case Prepare(_, _, _, _, _, _, _, _, _) => PrepareKeepsApprovals(s, step);
      case Consume(_, _, _, _, _, _, _, _, _) => ConsumeKeepsApprovals(s, step);
      case Approve(who, id, t1, t2, ok) => ApproveKeepsApprovals(s, who, id, t1, t2, ok);
      case _ => QuietStepKeepsApprovals(s, step);
    }
  }

  /** A use right after a reload checks the grant on file. */
  lemma UseAfterReloadChecksTheFile(s: System, step: Step)
    requires step.Consume? && |Apply(Apply(s, Refresh), step).log| == |s.log| + 2
    ensures var used := Apply(Apply(s, Refresh), step).log[|s.log| + 1];
            && used.ConsumedApproval? && step.grant in s.disk.grants && used.grant == s.disk.grants[step.grant]
            && used.grant.revokedAt == None && used.grant.expiresAt >= step.t1 && used.grant.scope == Admin
            && s.disk.approval.Some? && RequestOf(s.disk.approval.value) == used.request
  {
  }

  // ---------------------------------------------------------------- over every run

  ghost predicate Reaches(s: System, steps: seq<Step>, t: System)
    decreases |steps|
  {
    if steps == [] then s == t
    else Drawn(s, steps[0]) && Reaches(Apply(s, steps[0]), steps[1..], t)
  }

  ghost predicate Initial(s: System) {
    s.mem == EMPTY && s.disk == EMPTY && s.log == []
  }

  lemma {:induction false} InvAlways(s: System, steps: seq<Step>, t: System)
    requires PairingInv(s) && ApprovalInv(s) && Reaches(s, steps, t)
    ensures PairingInv(t) && ApprovalInv(t)
    decreases |steps|
  {
    hide PairingInv, ApprovalInv, Apply;
    if steps != [] {
      PairingsKept(s, steps[0]);
      ApprovalsKept(s, steps[0]);
      InvAlways(Apply(s, steps[0]), steps[1..], t);
    }
  }

  /** Conservation of pairings.  Over every run, with any write failing and any
      reload or restart, a grant is made only for a pairing that was begun, to
      someone who presents its secret in time, of its scope and for the origin and
      time that were asked; a pairing yields at most one; and at the moment the
      grant is made the file no longer holds any pairing. */
  lemma PairingsYieldOneGrant(s: System, steps: seq<Step>, t: System, i: nat)
    requires Initial(s) && Reaches(s, steps, t) && i < |t.log| && t.log[i].Granted?
    ensures BeganWith(t.log[..i], t.log[i].from) && Earned(t.log[i])
    ensures t.log[i].onDisk == None
    ensures forall j :: 0 <= j < |t.log| && t.log[j].Granted? && j != i ==> t.log[j].from.secret != t.log[i].from.secret
  {
    InvAlways(s, steps, t);
  }

  /** Every successful use of a Wi-Fi approval is justified by what came before. */
  lemma ApprovalsAreJustified(s: System, steps: seq<Step>, t: System, i: nat)
    requires Initial(s) && Reaches(s, steps, t) && i < |t.log| && t.log[i].ConsumedApproval?
    ensures Justified(t.log[..i], t.log[i])
  {
    InvAlways(s, steps, t);
  }

  /** An approval is used successfully at most once. */
  lemma ApprovalsAreUsedOnce(s: System, steps: seq<Step>, t: System, i: nat, j: nat)
    requires Initial(s) && Reaches(s, steps, t) && i < j < |t.log|
    requires t.log[i].ConsumedApproval? && t.log[j].ConsumedApproval?
    ensures t.log[i].request.id != t.log[j].request.id
  {
    InvAlways(s, steps, t);
    assert Justified(t.log[..j], t.log[j]);
    assert t.log[..j][i] == t.log[i];
  }

  // ---------------------------------------------------------------- a prepare that was not saved

  const TOKEN: Digest := Digest(0, 0)
  const ADMIN: Grant := Grant(1, "https://editor.example", Admin, TOKEN, 0, 100, None)

  /** A memory with one administrator grant and one approval. */
  function Holding(approval: Option<Approval>): Memory {
    Memory(map[1 := ADMIN], None, approval)
  }

  function Pending(id: nat): Approval {
    NewApproval(id, 1, "https://editor.example", "printer", "settings", 0)
  }

  function AskFor(id: nat, ok: bool): Step {
    Prepare(id, 1, "https://editor.example", true, "printer", "settings", 0, 0, ok)
  }

  /** A chain of single steps is a run. */
  lemma {:induction false} ChainReaches(states: seq<System>, steps: seq<Step>)
    requires |states| == |steps| + 1
    requires forall i | 0 <= i < |steps| :: Drawn(states[i], steps[i]) && Apply(states[i], steps[i]) == states[i + 1]
    ensures Reaches(states[0], steps, states[|steps|])
    decreases |steps|
  {
    if steps != [] {
      ChainReaches(states[1..], steps[1..]);
    }
  }

  const APPROVE: Step := Approve(Service, 10, 0, 0, true)
  const USE: Step := Consume(10, 1, "https://editor.example", "printer", "settings", 0, 0, 0, true)
  const APPROVED: Approval := Pending(10).(approvedAt := Some(0))
  const EVENTS: seq<Event> := [Prepared(Pending(10), true), ApproveCalled(10), Prepared(Pending(11), false), Reloaded,
                               ConsumedApproval(RequestOf(Pending(10)), 0, ADMIN, 0)]

  /** The memory and the file after the first events. */
  function After(mem: Option<Approval>, disk: Option<Approval>, ids: set<nat>, count: nat): (s: System)
    requires count <= |EVENTS|
    ensures s.ids == ids && s.log == EVENTS[..count]
  {
    System(Holding(mem), Holding(disk), {}, ids, EVENTS[..count])
  }

  lemma AdminIsIssued()
    ensures Apply(System(EMPTY, EMPTY, {}, {}, []), IssueAdmin(1, "https://editor.example", 100, 0, 0, 0, true)) ==
            After(None, None, {}, 0)
  {
  }

  lemma EarlierIsApproved()
    ensures Apply(After(None, None, {}, 0), AskFor(10, true)) == After(Some(Pending(10)), Some(Pending(10)), {10}, 1)
    ensures Apply(After(Some(Pending(10)), Some(Pending(10)), {10}, 1), APPROVE) == After(Some(APPROVED), Some(APPROVED), {10}, 2)
  {
  }

  lemma LaterIsForgotten()
    ensures Apply(After(Some(APPROVED), Some(APPROVED), {10}, 2), AskFor(11, false)) ==
            After(Some(Pending(11)), Some(APPROVED), {10, 11}, 3)
    ensures Apply(After(Some(Pending(11)), Some(APPROVED), {10, 11}, 3), Refresh) == After(Some(APPROVED), Some(APPROVED), {10, 11}, 4)
  {
  }

  lemma EarlierIsUsed()
    ensures var used := Some(APPROVED.(consumedAt := Some(0)));
            Apply(After(Some(APPROVED), Some(APPROVED), {10, 11}, 4), USE) == After(used, used, {10, 11}, 5)
  {
  }

  /** Why only a saved later prepare stops an approval: a later prepare whose write
      failed is forgotten by a reload, and the earlier approval can be used. */
  lemma UnsavedPrepareIsForgotten() returns (s: System, steps: seq<Step>, t: System)
    ensures Initial(s) && Reaches(s, steps, t) && |t.log| == 5
    ensures t.log[0] == Prepared(Pending(10), true) && t.log[1] == ApproveCalled(10)
    ensures t.log[2] == Prepared(Pending(11), false)
    ensures t.log[3] == Reloaded
    ensures t.log[4].ConsumedApproval? && t.log[4].request == RequestOf(Pending(10))
  {
    hide Apply, Reaches, Holding, After;
    s := System(EMPTY, EMPTY, {}, {}, []);
    steps := [IssueAdmin(1, "https://editor.example", 100, 0, 0, 0, true),
              AskFor(10, true), APPROVE, AskFor(11, false), Refresh, USE];
    var a := After(None, None, {}, 0);
    var b := After(Some(Pending(10)), Some(Pending(10)), {10}, 1);
    var c := After(Some(APPROVED), Some(APPROVED), {10}, 2);
    var d := After(Some(Pending(11)), Some(APPROVED), {10, 11}, 3);
    var e := After(Some(APPROVED), Some(APPROVED), {10, 11}, 4);
    t := Apply(e, USE);
    AdminIsIssued();
    EarlierIsApproved();
    LaterIsForgotten();
    EarlierIsUsed();
    ChainReaches([s, a, b, c, d, e, t], steps);
    assert t.log == EVENTS[..5];
  }

  // ---------------------------------------------------------------- the life of a grant

  ghost predicate ShortLived(m: Memory, gap: nat) {
    forall id :: id in m.grants ==> m.grants[id].expiresAt <= m.grants[id].createdAt + LongestLife(m.grants[id].scope) + gap
  }

  /** No two clock readings of one rotation are more than `gap` apart. */
  predicate WithinGap(step: Step, gap: nat) {
    step.Rotate? ==> step.now <= step.created + gap
  }

  lemma ShortLivedKept(s: System, step: Step, gap: nat)
    requires ShortLived(s.mem, gap) && ShortLived(s.disk, gap) && WithinGap(step, gap)
    ensures ShortLived(Apply(s, step).mem, gap) && ShortLived(Apply(s, step).disk, gap)
  {
  }

  /** Over every run no grant outlives the longest life of its scope, counted from
      its creation, by more than the time between the two readings of a rotation. */
  lemma {:induction false} GrantsAreShortLived(s: System, steps: seq<Step>, t: System, gap: nat)
    requires ShortLived(s.mem, gap) && ShortLived(s.disk, gap) && Reaches(s, steps, t)
    requires forall step <- steps :: WithinGap(step, gap)
    ensures ShortLived(t.mem, gap) && ShortLived(t.disk, gap)
    decreases |steps|
  {
    hide Apply, ShortLived;
    if steps != [] {
      ShortLivedKept(s, steps[0], gap);
      GrantsAreShortLived(Apply(s, steps[0]), steps[1..], t, gap);
    }
  }
}
