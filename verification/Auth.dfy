/** Grants, one-time pairings and Wi-Fi approvals (src/auth.rs). */
module Auth {
  import opened Options

  datatype Scope = Print | Admin

  predicate Allows(held: Scope, required: Scope) {
    held == Admin || required == Print
  }

  const ADMIN_GRANT_MAX_TTL: nat := 600
  const PRINT_GRANT_MAX_TTL: nat := 31_536_000
  const PAIRING_MAX_TTL: nat := 600
  const WIFI_APPROVAL_TTL: nat := 120
  const MAX_SECONDS: nat := 0xffff_ffff_ffff_ffff

  function SaturatingAdd(a: nat, b: nat): nat {
    if a + b <= MAX_SECONDS then a + b else MAX_SECONDS
  }

  function Min(a: nat, b: nat): nat {
    if a <= b then a else b
  }

  /** A year for printing, ten minutes for an administrator. */
  function LongestLife(scope: Scope): nat {
    if scope == Print then 365 * 24 * 60 * 60 else 10 * 60
  }

  /** `end` is the earliest of `ttl` and `most` after `start`, and the last time there is. */
  predicate EndsAfter(end: nat, start: nat, ttl: nat, most: nat) {
    && end <= start + ttl && end <= start + most && end <= MAX_SECONDS
    && end in {start + ttl, start + most, MAX_SECONDS}
  }

  function GrantTtl(scope: Scope, ttl: nat): nat {
    Min(ttl, if scope == Print then PRINT_GRANT_MAX_TTL else ADMIN_GRANT_MAX_TTL)
  }

  /** A salted digest.  Distinct salted secrets have distinct digests, so a
      digest stands for the pair it was made from. */
  datatype Digest = Digest(salt: nat, secret: nat)

  datatype Grant = Grant(
    id: nat,
    origin: string,
    scope: Scope,
    token: Digest,
    createdAt: nat,
    expiresAt: nat,
    revokedAt: Option<nat>)

  datatype Pairing = Pairing(secret: Digest, expiresAt: nat, scope: Scope)

  datatype Approval = Approval(
    id: nat,
    grant: nat,
    origin: string,
    connection: string,
    fingerprint: string,
    createdAt: nat,
    expiresAt: nat,
    approvedAt: Option<nat>,
    consumedAt: Option<nat>)

  /** What a process holds in memory. */
  datatype Memory = Memory(
    grants: map<nat, Grant>,
    pairing: Option<Pairing>,
    approval: Option<Approval>)

  /** What the file holds: the grants as a list. */
  datatype Stored = Stored(grants: seq<Grant>, pairing: Option<Pairing>, approval: Option<Approval>)

  const EMPTY: Memory := Memory(map[], None, None)

  predicate KeyedById(grants: map<nat, Grant>) {
    forall id :: id in grants ==> grants[id].id == id
  }

  function Collect(list: seq<Grant>): map<nat, Grant> {
    if list == [] then map[]
    else Collect(list[..|list| - 1])[list[|list| - 1].id := list[|list| - 1]]
  }

  function Restored(stored: Stored): Memory {
    Memory(Collect(stored.grants), stored.pairing, stored.approval)
  }

  ghost predicate SortedByCreation(list: seq<Grant>) {
    forall i, j :: 0 <= i < j < |list| ==> list[i].createdAt <= list[j].createdAt
  }

  function InsertByCreation(g: Grant, list: seq<Grant>): seq<Grant> {
    if list == [] then [g]
    else if g.createdAt < list[0].createdAt then [g] + list
    else [list[0]] + InsertByCreation(g, list[1..])
  }

  // ---------------------------------------------------------------- what each operation does to memory

  function GrantUsable(m: Memory, id: nat, origin: string, now: nat): bool {
    && id in m.grants
    && m.grants[id].origin == origin && m.grants[id].revokedAt == None && m.grants[id].expiresAt >= now
    && Allows(m.grants[id].scope, Admin)
  }

  /** The token is that of the grant, which is alive and may be used from this origin
      for what is required. */
  predicate Proves(g: Grant, token: nat, origin: string, required: Scope, now: nat) {
    && g.token.secret == token && g.origin == origin && g.revokedAt == None && now <= g.expiresAt
    && (required == Admin ==> g.scope == Admin)
  }

  function Begun(m: Memory, scope: Scope, ttl: nat, salt: nat, secret: nat, now: nat): Memory {
    m.(pairing := Some(Pairing(Digest(salt, secret), SaturatingAdd(now, Min(ttl, PAIRING_MAX_TTL)), scope)))
  }

  function Issued(m: Memory, id: nat, origin: string, scope: Scope, ttl: nat, salt: nat, token: nat, now: nat): Memory {
    m.(grants := m.grants[id := Grant(id, origin, scope, Digest(salt, token), now, SaturatingAdd(now, GrantTtl(scope, ttl)), None)])
  }

  predicate Matches(p: Pairing, secret: nat, scope: Scope, validOrigin: bool) {
    p.secret == Digest(p.secret.salt, secret) && p.scope == scope && validOrigin
  }

  predicate MayExchange(m: Memory, secret: nat, scope: Scope, validOrigin: bool, now: nat) {
    m.pairing.Some? && m.pairing.value.expiresAt >= now && Matches(m.pairing.value, secret, scope, validOrigin)
  }

  function Revoked(m: Memory, id: nat, now: nat): Memory
    requires id in m.grants
  {
    m.(grants := m.grants[id := m.grants[id].(revokedAt := Some(now))])
  }

  /** The clock is read once for the creation time and again for the expiry. */
  function Rotated(m: Memory, id: nat, ttl: nat, salt: nat, token: nat, created: nat, now: nat): Memory
    requires id in m.grants
  {
    var g := m.grants[id];
    m.(grants := m.grants[id := g.(token := Digest(salt, token), createdAt := created,
                                   expiresAt := SaturatingAdd(now, GrantTtl(g.scope, ttl)), revokedAt := None)])
  }

  function NewApproval(id: nat, grant: nat, origin: string, connection: string, fingerprint: string, now: nat): Approval {
    Approval(id, grant, origin, connection, fingerprint, now, SaturatingAdd(now, WIFI_APPROVAL_TTL), None, None)
  }

  predicate Approvable(m: Memory, id: nat, now: nat) {
    m.approval.Some? && m.approval.value.id == id && m.approval.value.expiresAt >= now && m.approval.value.consumedAt == None
  }

  function Approved(m: Memory, now: nat): Memory
    requires m.approval.Some?
  {
    m.(approval := Some(m.approval.value.(approvedAt := Some(now))))
  }

  predicate Consumable(m: Memory, id: nat, grant: nat, origin: string, connection: string, fingerprint: string, now: nat) {
    && m.approval.Some?
    && var a := m.approval.value;
       a.id == id && a.grant == grant && a.origin == origin && a.connection == connection && a.fingerprint == fingerprint
       && a.expiresAt >= now && a.approvedAt.Some? && a.consumedAt == None
  }

  function Consumed(m: Memory, now: nat): Memory
    requires m.approval.Some?
  {
    m.(approval := Some(m.approval.value.(consumedAt := Some(now))))
  }

  predicate ValidBinding(value: string) {
    value != "" && |value| <= 512 && '\0' !in value
  }

  // ---------------------------------------------------------------- what each operation does to memory and file

  /** The memory and the content of the file after an operation, and whether the
      file was replaced. */
  datatype Effect = Effect(mem: Memory, disk: Memory, saved: bool)

  function Untouched(m: Memory, disk: Memory): Effect {
    Effect(m, disk, false)
  }

  /** The memory becomes `m` and is written if the write succeeds. */
  function Saving(m: Memory, disk: Memory, ok: bool): Effect {
    Effect(m, if ok then m else disk, ok)
  }

  /** An exchange makes no grant, or it makes one after the cleared pairing was saved. */
  datatype Exchanged = Nothing(after: Effect) | Made(cleared: Effect, after: Effect)

  function Exchanging(m: Memory, disk: Memory, secret: nat, origin: string, validOrigin: bool, scope: Scope, ttl: nat,
                      id: nat, salt: nat, token: nat, t1: nat, t2: nat, ok1: bool, ok2: bool): Exchanged
  {
    var empty := m.(pairing := None);
    if m.pairing.None? then Nothing(Untouched(m, disk))
    else if m.pairing.value.expiresAt < t1 then Nothing(Saving(empty, disk, ok1))
    else if !Matches(m.pairing.value, secret, scope, validOrigin) then Nothing(Untouched(m, disk))
    else if !ok1 then Nothing(Saving(empty, disk, false))
    else
      var cleared := Saving(empty, disk, true);
      var granted := Saving(Issued(empty, id, origin, scope, ttl, salt, token, t2), cleared.disk, ok2);
      Made(cleared, granted.(saved := true))
  }

  predicate MayPrepare(m: Memory, grant: nat, origin: string, validOrigin: bool, connection: string,
                       fingerprint: string, now: nat)
  {
    validOrigin && ValidBinding(connection) && ValidBinding(fingerprint) && GrantUsable(m, grant, origin, now)
  }

  function Preparing(m: Memory, disk: Memory, id: nat, grant: nat, origin: string, validOrigin: bool,
                     connection: string, fingerprint: string, t1: nat, t2: nat, ok: bool): Effect
  {
    if MayPrepare(m, grant, origin, validOrigin, connection, fingerprint, t1)
    then Saving(m.(approval := Some(NewApproval(id, grant, origin, connection, fingerprint, t2))), disk, ok)
    else Untouched(m, disk)
  }

  function Approving(m: Memory, disk: Memory, id: nat, t1: nat, t2: nat, ok: bool): Effect {
    if Approvable(m, id, t1) then Saving(Approved(m, t2), disk, ok) else Untouched(m, disk)
  }

  predicate MayConsume(m: Memory, id: nat, grant: nat, origin: string, connection: string, fingerprint: string,
                       t1: nat, t2: nat)
  {
    GrantUsable(m, grant, origin, t1) && Consumable(m, id, grant, origin, connection, fingerprint, t2)
  }

  function Consuming(m: Memory, disk: Memory, id: nat, grant: nat, origin: string, connection: string,
                     fingerprint: string, t1: nat, t2: nat, t3: nat, ok: bool): Effect
  {
    if MayConsume(m, id, grant, origin, connection, fingerprint, t1, t2) then Saving(Consumed(m, t3), disk, ok)
    else Untouched(m, disk)
  }

  function Revoking(m: Memory, disk: Memory, id: nat, now: nat, ok: bool): Effect {
    if id in m.grants then Saving(Revoked(m, id, now), disk, ok) else Untouched(m, disk)
  }

  function Rotating(m: Memory, disk: Memory, id: nat, ttl: nat, salt: nat, token: nat, created: nat, now: nat, ok: bool)
    : Effect
  {
    if id in m.grants then Saving(Rotated(m, id, ttl, salt, token, created, now), disk, ok) else Untouched(m, disk)
  }

  // ---------------------------------------------------------------- saving and loading

  lemma {:induction false} CollectHas(list: seq<Grant>, id: nat)
    ensures id in Collect(list) <==> exists i :: 0 <= i < |list| && list[i].id == id
    ensures id in Collect(list) ==> Collect(list)[id] in list
    decreases |list|
  {
    if list != [] {
      CollectHas(list[..|list| - 1], id);
    }
  }

  lemma {:induction false} InsertKeepsSorted(g: Grant, list: seq<Grant>)
    requires SortedByCreation(list)
    ensures SortedByCreation(InsertByCreation(g, list))
    ensures forall x :: x in InsertByCreation(g, list) <==> x == g || x in list
    ensures |InsertByCreation(g, list)| == |list| + 1
  {
    if list != [] {
      assert list == [list[0]] + list[1..];
      if g.createdAt >= list[0].createdAt {
        InsertKeepsSorted(g, list[1..]);
        var tail := InsertByCreation(g, list[1..]);
        forall i | 0 <= i < |tail| ensures list[0].createdAt <= tail[i].createdAt {
          assert tail[i] in tail;
        }
      }
    }
  }

  ghost predicate ListsGrants(list: seq<Grant>, grants: map<nat, Grant>) {
    && (forall g {:trigger g in list} :: g in list ==> g.id in grants && grants[g.id] == g)
    && (forall id {:trigger id in grants} :: id in grants ==> grants[id] in list)
  }

  /** Loading what was saved gives back the same grants. */
  lemma CollectOfList(list: seq<Grant>, grants: map<nat, Grant>)
    requires KeyedById(grants) && ListsGrants(list, grants)
    ensures Collect(list) == grants
  {
    forall id | id in Collect(list) ensures id in grants && Collect(list)[id] == grants[id] {
      CollectHas(list, id);
      CollectIsKeyed(list);
      assert Collect(list)[id] in list;
    }
    forall id | id in grants ensures id in Collect(list) {
      CollectHas(list, id);
      assert grants[id] in list;
    }
  }

  lemma SomeGrant(grants: map<nat, Grant>)
    ensures grants == map[] || exists id: nat :: id in grants
  {
  }

  lemma CollectIsKeyed(list: seq<Grant>)
    ensures KeyedById(Collect(list))
  {
  }

  /** The file of the store, replaced as a whole or left as it was. */
  class Disk {
    var stored: Option<Stored>

    constructor ()
      ensures stored == None
    {
      stored := None;
    }
  }

  ghost function OnDisk(stored: Option<Stored>): Memory {
    if stored.Some? then Restored(stored.value) else EMPTY
  }

  class AuthStore {
    const disk: Disk
    var grants: map<nat, Grant>
    var pairing: Option<Pairing>
    var approval: Option<Approval>

    ghost function View(): Memory
      reads this
    {
      Memory(grants, pairing, approval)
    }

    ghost predicate Valid()
      reads this
    {
      KeyedById(grants)
    }

    /** The memory and the file are what `e` says, and the file is the same file
        unless it was replaced. */
    twostate predicate Became(e: Effect)
      reads this, disk
    {
      View() == e.mem && OnDisk(disk.stored) == e.disk && (!e.saved ==> disk.stored == old(disk.stored))
    }

    constructor (disk: Disk)
      ensures this.disk == disk && Valid() && View() == EMPTY
    {
      this.disk := disk;
      grants := map[];
      pairing := None;
      approval := None;
    }

    /** A store with what the file holds; none when there is a file that cannot be
        read or parsed. */
    static method Load(disk: Disk, readable: bool) returns (store: AuthStore?)
      ensures store == null <==> disk.stored.Some? && !readable
      ensures store != null ==>
        fresh(store) && store.disk == disk && store.Valid() && store.View() == OnDisk(disk.stored)
    {
      if disk.stored.Some? && !readable {
        return null;
      }
      var made := new AuthStore(disk);
      var _ := made.Reload(readable);
      store := made;
    }

    /** Replace the whole memory with what the file holds; when the file cannot be
        read or parsed the memory stays as it was. */
    method Reload(readable: bool) returns (ok: bool)
      modifies this
      ensures ok == (disk.stored.None? || readable)
      ensures ok ==> Valid() && View() == OnDisk(disk.stored)
      ensures !ok ==> View() == old(View())
    {
      if disk.stored.Some? && !readable {
        return false;
      }
      var loaded: map<nat, Grant> := map[];
      var stored := if disk.stored.Some? then disk.stored.value else Stored([], None, None);
      for i := 0 to |stored.grants|
        invariant loaded == Collect(stored.grants[..i])
      {
        assert stored.grants[..i + 1][..i] == stored.grants[..i];
        loaded := loaded[stored.grants[i].id := stored.grants[i]];
      }
      assert stored.grants[..|stored.grants|] == stored.grants;
      CollectIsKeyed(stored.grants);
      grants := loaded;
      pairing := stored.pairing;
      approval := stored.approval;
      return true;
    }

    /** The grants as they are written: oldest first. */
    method Grants() returns (list: seq<Grant>)
      requires Valid()
      ensures SortedByCreation(list) && |list| == |grants| && ListsGrants(list, grants)
    {
      list := [];
      var left := grants;
      while |left| != 0
        invariant left.Keys <= grants.Keys && forall id :: id in left ==> left[id] == grants[id]
        invariant SortedByCreation(list) && |list| + |left| == |grants|
        invariant ListsGrants(list, grants - left.Keys)
        decreases |left|
      {
        SomeGrant(left);
        var id :| id in left;
        InsertKeepsSorted(grants[id], list);
        list := InsertByCreation(grants[id], list);
        assert (left - {id}).Keys == left.Keys - {id};
        assert grants - (left - {id}).Keys == (grants - left.Keys)[id := grants[id]];
        left := left - {id};
      }
      assert grants - left.Keys == grants;
    }

    /** Write the memory to the file; when that fails the file is as it was. */
    method Persist(writable: bool) returns (ok: bool)
      requires Valid()
      modifies disk
      ensures ok == writable
      ensures !ok ==> disk.stored == old(disk.stored)
      ensures ok ==> disk.stored.Some? && OnDisk(disk.stored) == View() && SortedByCreation(disk.stored.value.grants)
    {
      if !writable {
        return false;
      }
      var list := Grants();
      CollectOfList(list, grants);
      disk.stored := Some(Stored(list, pairing, approval));
      return true;
    }

    method BeginPairing(scope: Scope, ttl: nat, salt: nat, secret: nat, now: nat, writable: bool) returns (ok: bool)
      requires Valid()
      modifies this, disk
      ensures Valid() && ok == writable
      ensures Became(Saving(Begun(old(View()), scope, ttl, salt, secret, now), OnDisk(old(disk.stored)), writable))
    {
      pairing := Some(Pairing(Digest(salt, secret), SaturatingAdd(now, Min(ttl, PAIRING_MAX_TTL)), scope));
      ok := Persist(writable);
    }

    method Issue(id: nat, origin: string, scope: Scope, ttl: nat, salt: nat, token: nat, now: nat, writable: bool)
      returns (ok: bool)
      requires Valid()
      modifies this, disk
      ensures Valid() && ok == writable
      ensures Became(Saving(Issued(old(View()), id, origin, scope, ttl, salt, token, now), OnDisk(old(disk.stored)), writable))
    {
      var grant := Grant(id, origin, scope, Digest(salt, token), now, SaturatingAdd(now, GrantTtl(scope, ttl)), None);
      grants := grants[id := grant];
      ok := Persist(writable);
    }

    /** Exchange a pairing secret for a grant.  The cleared pairing is written
        first; the grant is made only after that write succeeded. */
    method Exchange(secret: nat, origin: string, validOrigin: bool, scope: Scope, ttl: nat,
                    id: nat, salt: nat, token: nat, t1: nat, t2: nat, writable1: bool, writable2: bool)
      returns (ok: bool, issued: bool)
      requires Valid()
      modifies this, disk
      ensures Valid()
      ensures var e := Exchanging(old(View()), OnDisk(old(disk.stored)), secret, origin, validOrigin, scope, ttl,
                                  id, salt, token, t1, t2, writable1, writable2);
        && Became(e.after)
        && issued == (e.Made? && writable2)
        && ok == if e.Made? then writable2 else e.after == Untouched(old(View()), OnDisk(old(disk.stored))) || writable1
      ensures issued <==>
              && writable1 && writable2 && validOrigin && old(pairing).Some?
              && old(pairing).value.secret.secret == secret && old(pairing).value.scope == scope
              && t1 <= old(pairing).value.expiresAt
      ensures issued ==> pairing == None && id in grants && grants == old(grants)[id := grants[id]]
      ensures issued ==>
              && grants[id].origin == origin && grants[id].scope == scope && grants[id].token == Digest(salt, token)
              && grants[id].createdAt == t2 && grants[id].revokedAt == None
              && EndsAfter(grants[id].expiresAt, t2, ttl, LongestLife(scope))
      ensures old(pairing).Some? && old(pairing).value.expiresAt < t1 ==> pairing == None && grants == old(grants)
    {
      if pairing.None? {
        return true, false;
      }
      if pairing.value.expiresAt < t1 {
        pairing := None;
        ok := Persist(writable1);
        return ok, false;
      }
      if pairing.value.secret != Digest(pairing.value.secret.salt, secret) || pairing.value.scope != scope || !validOrigin {
        return true, false;
      }
      pairing := None;
      ok := Persist(writable1);
      if !ok {
        return false, false;
      }
      ok := Issue(id, origin, scope, ttl, salt, token, t2, writable2);
      issued := ok;
    }

    /** A grant that the token proves, if there is one. */
    method AuthenticateScoped(token: nat, origin: string, required: Scope, now: nat) returns (found: Option<Grant>)
      requires Valid()
      ensures found.Some? ==>
        found.value.id in grants && grants[found.value.id] == found.value && Proves(found.value, token, origin, required, now)
      ensures found.None? ==> forall id :: id in grants ==> !Proves(grants[id], token, origin, required, now)
    {
      var left := grants;
      while |left| != 0
        invariant left.Keys <= grants.Keys && forall id :: id in left ==> left[id] == grants[id]
        invariant forall id :: id in grants && id !in left ==> !Proves(grants[id], token, origin, required, now)
        decreases |left|
      {
        SomeGrant(left);
        var id :| id in left;
        var g := grants[id];
        if g.origin == origin && g.revokedAt == None && g.expiresAt >= now && Allows(g.scope, required)
          && g.token == Digest(g.token.salt, token) {
          return Some(g);
        }
        assert (left - {id}).Keys == left.Keys - {id};
        left := left - {id};
      }
      return None;
    }

    method GrantAllowsAdmin(id: nat, origin: string, now: nat) returns (allowed: bool)
      ensures allowed == GrantUsable(View(), id, origin, now)
    {
      allowed := id in grants && grants[id].origin == origin && grants[id].revokedAt == None
        && grants[id].expiresAt >= now && Allows(grants[id].scope, Admin);
    }

    method PrepareWifiApproval(id: nat, grant: nat, origin: string, validOrigin: bool, connection: string, fingerprint: string,
                               t1: nat, t2: nat, writable: bool)
      returns (ok: bool, prepared: Option<Approval>)
      requires Valid()
      modifies this, disk
      ensures Valid()
      ensures Became(Preparing(old(View()), OnDisk(old(disk.stored)), id, grant, origin, validOrigin, connection, fingerprint,
                               t1, t2, writable))
      ensures var may := MayPrepare(old(View()), grant, origin, validOrigin, connection, fingerprint, t1);
        && ok == (!may || writable)
        && prepared == if may && writable then Some(NewApproval(id, grant, origin, connection, fingerprint, t2)) else None
      ensures prepared.Some? <==>
              && writable && validOrigin
              && 0 < |connection| <= 512 && '\0' !in connection && 0 < |fingerprint| <= 512 && '\0' !in fingerprint
              && grant in grants && grants[grant].origin == origin && grants[grant].scope == Admin
              && grants[grant].revokedAt == None && t1 <= grants[grant].expiresAt
      ensures prepared.Some? ==>
              && approval == prepared && prepared.value.id == id && prepared.value.grant == grant
              && prepared.value.origin == origin && prepared.value.connection == connection
              && prepared.value.fingerprint == fingerprint && prepared.value.createdAt == t2
              && EndsAfter(prepared.value.expiresAt, t2, 120, 120)
              && prepared.value.approvedAt == None && prepared.value.consumedAt == None
    {
      var allowed := GrantAllowsAdmin(grant, origin, t1);
      if !validOrigin || !ValidBinding(connection) || !ValidBinding(fingerprint) || !allowed {
        return true, None;
      }
      var a := NewApproval(id, grant, origin, connection, fingerprint, t2);
      approval := Some(a);
      ok := Persist(writable);
      prepared := if ok then Some(a) else None;
    }

    method ApproveWifiApproval(id: nat, t1: nat, t2: nat, writable: bool) returns (ok: bool, approved: bool)
      requires Valid()
      modifies this, disk
      ensures Valid()
      ensures Became(Approving(old(View()), OnDisk(old(disk.stored)), id, t1, t2, writable))
      ensures var may := Approvable(old(View()), id, t1);
        ok == (!may || writable) && approved == (may && writable)
      ensures approved <==>
              && writable && old(approval).Some? && old(approval).value.id == id
              && t1 <= old(approval).value.expiresAt && old(approval).value.consumedAt == None
      ensures approved ==> approval == Some(old(approval).value.(approvedAt := Some(t2)))
    {
      if approval.None? {
        return true, false;
      }
      if approval.value.id != id || approval.value.expiresAt < t1 || approval.value.consumedAt.Some? {
        return true, false;
      }
      approval := Some(approval.value.(approvedAt := Some(t2)));
      ok := Persist(writable);
      approved := ok;
    }

    method ConsumeWifiApproval(id: nat, grant: nat, origin: string, connection: string, fingerprint: string,
                               t1: nat, t2: nat, t3: nat, writable: bool)
      returns (ok: bool, consumed: bool)
      requires Valid()
      modifies this, disk
      ensures Valid()
      ensures Became(Consuming(old(View()), OnDisk(old(disk.stored)), id, grant, origin, connection, fingerprint,
                               t1, t2, t3, writable))
      ensures var may := MayConsume(old(View()), id, grant, origin, connection, fingerprint, t1, t2);
        ok == (!may || writable) && consumed == (may && writable)
      ensures consumed <==>
              && writable && old(approval).Some? && old(approval).value.id == id && old(approval).value.grant == grant
              && old(approval).value.origin == origin && old(approval).value.connection == connection
              && old(approval).value.fingerprint == fingerprint && t2 <= old(approval).value.expiresAt
              && old(approval).value.approvedAt.Some? && old(approval).value.consumedAt == None
              && grant in grants && grants[grant].origin == origin && grants[grant].scope == Admin
              && grants[grant].revokedAt == None && t1 <= grants[grant].expiresAt
      ensures consumed ==> approval == Some(old(approval).value.(consumedAt := Some(t3))) && grants == old(grants)
    {
      var allowed := GrantAllowsAdmin(grant, origin, t1);
      if !allowed || approval.None? {
        return true, false;
      }
      var a := approval.value;
      if a.id != id || a.grant != grant || a.origin != origin || a.connection != connection || a.fingerprint != fingerprint
        || a.expiresAt < t2 || a.approvedAt.None? || a.consumedAt.Some? {
        return true, false;
      }
      approval := Some(a.(consumedAt := Some(t3)));
      ok := Persist(writable);
      consumed := ok;
    }

    method Revoke(id: nat, now: nat, writable: bool) returns (ok: bool, found: bool)
      requires Valid()
      modifies this, disk
      ensures Valid()
      ensures Became(Revoking(old(View()), OnDisk(old(disk.stored)), id, now, writable))
      ensures ok == (id !in old(grants) || writable) && found == (id in old(grants) && writable)
      ensures id in old(grants) ==>
              && grants == old(grants)[id := grants[id]] && grants[id].revokedAt == Some(now)
              && grants[id] == old(grants)[id].(revokedAt := grants[id].revokedAt)
    {
      if id !in grants {
        return true, false;
      }
      grants := grants[id := grants[id].(revokedAt := Some(now))];
      ok := Persist(writable);
      found := ok;
    }

    method Rotate(id: nat, ttl: nat, salt: nat, token: nat, created: nat, now: nat, writable: bool) returns (ok: bool, rotated: bool)
      requires Valid()
      modifies this, disk
      ensures Valid()
      ensures Became(Rotating(old(View()), OnDisk(old(disk.stored)), id, ttl, salt, token, created, now, writable))
      ensures ok == (id !in old(grants) || writable) && rotated == (id in old(grants) && writable)
      ensures id in old(grants) ==>
              && grants == old(grants)[id := grants[id]] && grants[id].token == Digest(salt, token)
              && grants[id].origin == old(grants)[id].origin && grants[id].scope == old(grants)[id].scope
              && grants[id].createdAt == created && grants[id].revokedAt == None
              && EndsAfter(grants[id].expiresAt, now, ttl, LongestLife(grants[id].scope))
    {
      if id !in grants {
        return true, false;
      }
      var g := grants[id];
      grants := grants[id := g.(token := Digest(salt, token), createdAt := created,
                                expiresAt := SaturatingAdd(now, GrantTtl(g.scope, ttl)), revokedAt := None)];
      ok := Persist(writable);
      rotated := ok;
    }
  }
}
