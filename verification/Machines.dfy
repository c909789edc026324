/**
Pairing rows and machine rows, and the transactions over them. A credential
stands for its hash, which is unique to it. Each transaction is one atomic step
with one reading of the clock.
*/
module Machines {
  import opened Common

  type UserId = string
  type PairingId = string
  type MachineId = string
  type Credential = string
  type Token = string

  datatype Status = Pending | Claimed | Approved | Rejected

  datatype Machine = Machine(user: UserId, name: string, credential: Credential, approved: bool, revoked: bool) {
    predicate Live() { approved && !revoked }
  }

  datatype Pairing = Pairing(user: UserId, token: Token, status: Status, machine: Option<MachineId>, expires: int)

  datatype Tables = Tables(machines: map<MachineId, Machine>, pairings: map<PairingId, Pairing>)

  datatype Error = Unavailable | BelongsToAnotherAccount | Conflict

  datatype Result<+T> = Ok(value: T) | Err(error: Error)

  // ---------------------------------------------------------------------------
  // the statements
  // ---------------------------------------------------------------------------

  // The guard of every change to a machine: it is the account's own, and not revoked.
  predicate Approvable(t: Tables, m: Option<MachineId>, u: UserId) {
    m.Some? && m.value in t.machines && t.machines[m.value].user == u && !t.machines[m.value].revoked
  }

  function ApproveMachine(t: Tables, m: MachineId): Tables
    requires m in t.machines
  {
    t.(machines := t.machines[m := t.machines[m].(approved := true)])
  }

  function Revoke(t: Tables, m: MachineId): Tables
    requires m in t.machines
  {
    t.(machines := t.machines[m := t.machines[m].(revoked := true)])
  }

  function SetPairing(t: Tables, p: PairingId, row: Pairing): Tables {
    t.(pairings := t.pairings[p := row])
  }

  // The row a machine was made with, if the credential is anyone's.
  predicate HoldsCredential(t: Tables, m: MachineId, c: Credential) {
    m in t.machines && t.machines[m].credential == c
  }

  ghost predicate Known(t: Tables, c: Credential) {
    exists m :: HoldsCredential(t, m, c)
  }

  // MachineByCredential: approved and not revoked.
  predicate AcceptedAs(t: Tables, m: MachineId, c: Credential) {
    HoldsCredential(t, m, c) && t.machines[m].Live()
  }

  ghost predicate Accepted(t: Tables, c: Credential) {
    exists m :: AcceptedAs(t, m, c)
  }

  ghost predicate WasApproved(t: Tables, c: Credential) {
    exists m :: HoldsCredential(t, m, c) && t.machines[m].approved
  }

  // A pairing that is claimed and has not expired still names the machine.
  predicate CanStillApprove(t: Tables, p: PairingId, m: MachineId, now: int) {
    p in t.pairings && t.pairings[p].machine == Some(m) && t.pairings[p].status == Claimed && t.pairings[p].expires > now
  }

  predicate RefusedAs(t: Tables, m: MachineId, c: Credential, now: int) {
    && HoldsCredential(t, m, c)
    && (t.machines[m].revoked || (!t.machines[m].approved && forall p :: p in t.pairings ==> !CanStillApprove(t, p, m, now)))
  }

  // CredentialRefused: it can never connect again. Unknown credentials are not refused.
  ghost predicate Refused(t: Tables, c: Credential, now: int) {
    exists m :: RefusedAs(t, m, c, now)
  }

  // The unique index on credential_hash.
  ghost predicate OneMachinePerCredential(t: Tables) {
    forall m, n :: m in t.machines && n in t.machines && t.machines[m].credential == t.machines[n].credential ==> m == n
  }

  // The unique index on token_hash.
  ghost predicate OnePairingPerToken(t: Tables) {
    forall p, q :: p in t.pairings && q in t.pairings && t.pairings[p].token == t.pairings[q].token ==> p == q
  }

  // A pairing names only a computer of its own account, and names one as soon as it is claimed.
  ghost predicate PairingsOwnTheirMachines(t: Tables) {
    forall p :: p in t.pairings ==> OwnsItsMachine(t, t.pairings[p])
  }

  predicate OwnsItsMachine(t: Tables, row: Pairing) {
    && (row.machine.Some? ==> row.machine.value in t.machines && t.machines[row.machine.value].user == row.user)
    && (row.status in {Claimed, Approved} ==> row.machine.Some?)
    && (row.status == Pending ==> row.machine.None?)
  }

  ghost predicate Valid(t: Tables) {
    OneMachinePerCredential(t) && OnePairingPerToken(t) && PairingsOwnTheirMachines(t)
  }

  predicate Claimable(t: Tables, p: PairingId, token: Token, now: int) {
    p in t.pairings && t.pairings[p].token == token && t.pairings[p].status == Pending && t.pairings[p].expires > now
  }

  // ---------------------------------------------------------------------------
  // the transactions
  // ---------------------------------------------------------------------------

  // A claim, given the row its token is in. The credential and the id of a new
  // machine are drawn at random; one that is taken fails the insert.
  function Claim(t: Tables, p: PairingId, credential: Credential, current: Option<MachineId>, name: string, newId: MachineId)
    : (Tables, Result<Option<Credential>>)
    requires p in t.pairings && (current.Some? ==> current.value in t.machines)
  {
    var row := t.pairings[p];
    if current.Some? && t.machines[current.value].Live() then
      if t.machines[current.value].user == row.user then
        (SetPairing(t, p, row.(status := Approved, machine := current)), Ok(None))
      else (t, Err(BelongsToAnotherAccount))
    else if newId in t.machines || exists m :: m in t.machines && HoldsCredential(t, m, credential) then (t, Err(Conflict))
    else
      var t1 := t.(machines := t.machines[newId := Machine(row.user, name, credential, false, false)]);
      (SetPairing(t1, p, row.(status := Claimed, machine := Some(newId))), Ok(Some(credential)))
  }

  predicate CanApprove(t: Tables, u: UserId, p: PairingId, now: int) {
    && p in t.pairings && t.pairings[p].user == u && t.pairings[p].status == Claimed && t.pairings[p].expires > now
    && Approvable(t, t.pairings[p].machine, u)
  }

  function Approve(t: Tables, u: UserId, p: PairingId, now: int): Tables {
    if CanApprove(t, u, p, now) then
      ApproveMachine(SetPairing(t, p, t.pairings[p].(status := Approved)), t.pairings[p].machine.value)
    else t
  }

  predicate CanDecline(t: Tables, u: UserId, p: PairingId) {
    p in t.pairings && t.pairings[p].user == u && t.pairings[p].status in {Pending, Claimed}
  }

  function Decline(t: Tables, u: UserId, p: PairingId): Tables {
    if !CanDecline(t, u, p) then t
    else
      var row := t.pairings[p];
      var t1 := SetPairing(t, p, row.(status := Rejected));
      if Approvable(t1, row.machine, u) && !t1.machines[row.machine.value].approved then Revoke(t1, row.machine.value) else t1
  }

  function RevokeBy(t: Tables, u: UserId, m: MachineId): Tables {
    if Approvable(t, Some(m), u) then Revoke(t, m) else t
  }

  function Create(t: Tables, p: PairingId, u: UserId, token: Token, expires: int): Tables {
    if p in t.pairings || (exists q :: q in t.pairings && t.pairings[q].token == token) then t
    else SetPairing(t, p, Pairing(u, token, Pending, None, expires))
  }

  class Store {
    var t: Tables

    constructor ()
      ensures t == Tables(map[], map[]) && Valid(t)
    {
      t := Tables(map[], map[]);
    }

    // The pending, unexpired pairing a token was made for.
    method FindClaimable(token: Token, now: int) returns (p: Option<PairingId>)
      ensures p.Some? ==> Claimable(t, p.value, token, now)
      ensures p.None? ==> forall q :: !Claimable(t, q, token, now)
    {
      var left := t.pairings.Keys;
      while left != {}
        invariant left <= t.pairings.Keys
        invariant forall q :: q in t.pairings.Keys - left ==> !Claimable(t, q, token, now)
        decreases left
      {
        var q :| q in left;
        if Claimable(t, q, token, now) {
          return Some(q);
        }
        left := left - {q};
      }
      p := None;
    }

    method FindCredential(c: Credential) returns (m: Option<MachineId>)
      ensures m.Some? ==> HoldsCredential(t, m.value, c)
      ensures m.None? ==> !Known(t, c)
    {
      var left := t.machines.Keys;
      while left != {}
        invariant left <= t.machines.Keys
        invariant forall n :: n in t.machines.Keys - left ==> !HoldsCredential(t, n, c)
        decreases left
      {
        var n :| n in left;
        if HoldsCredential(t, n, c) {
          return Some(n);
        }
        left := left - {n};
      }
      m := None;
    }

    method ClaimPairing(token: Token, credential: Credential, current: Option<Credential>, name: string, newId: MachineId, now: int)
      returns (r: Result<Option<Credential>>)
      requires Valid(t)
      modifies this
      ensures Valid(t)
      ensures (forall p :: !Claimable(old(t), p, token, now)) ==> t == old(t) && r == Err(Unavailable)
      ensures forall p :: Claimable(old(t), p, token, now) ==>
                exists holder :: HolderOf(old(t), current, holder) && (t, r) == Claim(old(t), p, credential, holder, name, newId)
    {
      var found := FindClaimable(token, now);
      if found.None? {
        return Err(Unavailable);
      }
      var p := found.value;
      assert forall q :: Claimable(t, q, token, now) ==> q == p;
      var holder: Option<MachineId> := None;
      if current.Some? {
        holder := FindCredential(current.value);
      }
      assert HolderOf(t, current, holder);
      ClaimKeepsValid(t, p, credential, holder, name, newId);
      if holder.Some? && t.machines[holder.value].Live() {
        if t.machines[holder.value].user != t.pairings[p].user {
          return Err(BelongsToAnotherAccount);
        }
        // MarkPairingAlreadyPaired
        t := SetPairing(t, p, t.pairings[p].(status := Approved, machine := holder));
        return Ok(None);
      }
      var taken := FindCredential(credential);
      if newId in t.machines || taken.Some? {
        return Err(Conflict);
      }
      // CreateMachine, then ClaimMachinePairing
      t := t.(machines := t.machines[newId := Machine(t.pairings[p].user, name, credential, false, false)]);
      t := SetPairing(t, p, t.pairings[p].(status := Claimed, machine := Some(newId)));
      return Ok(Some(credential));
    }

    method CreatePairing(u: UserId, token: Token, expires: int, newId: PairingId) returns (ok: bool)
      requires Valid(t)
      modifies this
      ensures Valid(t) && t == Create(old(t), newId, u, token, expires)
      ensures ok ==> t.pairings == old(t).pairings[newId := Pairing(u, token, Pending, None, expires)] && newId !in old(t).pairings
    {
      StepKeepsValid(t, CreateStep(newId, u, token, expires), 0);
      ok := newId !in t.pairings && forall q :: q in t.pairings ==> t.pairings[q].token != token;
      if ok {
        t := SetPairing(t, newId, Pairing(u, token, Pending, None, expires));
      }
    }

    method ApprovePairing(u: UserId, p: PairingId, now: int) returns (ok: bool)
      requires Valid(t)
      modifies this
      ensures Valid(t)
      ensures t == Approve(old(t), u, p, now) && (ok <==> CanApprove(old(t), u, p, now))
    {
      StepKeepsValid(t, ApproveStep(u, p), now);
      if !(p in t.pairings && t.pairings[p].user == u && t.pairings[p].status == Claimed && t.pairings[p].expires > now) {
        return false;
      }
      var before := t;
      var m := t.pairings[p].machine;
      t := SetPairing(t, p, t.pairings[p].(status := Approved));
      if !Approvable(t, m, u) {
        // The rollback.
        t := before;
        return false;
      }
      t := ApproveMachine(t, m.value);
      return true;
    }

    method DeclinePairing(u: UserId, p: PairingId) returns (ok: bool)
      requires Valid(t)
      modifies this
      ensures Valid(t)
      ensures t == Decline(old(t), u, p) && (ok <==> CanDecline(old(t), u, p))
    {
      StepKeepsValid(t, DeclineStep(u, p), 0);
      if !CanDecline(t, u, p) {
        return false;
      }
      var m := t.pairings[p].machine;
      t := SetPairing(t, p, t.pairings[p].(status := Rejected));
      if m.Some? {
        if Approvable(t, m, u) && !t.machines[m.value].approved {
          t := Revoke(t, m.value);
        }
      }
      return true;
    }

    method RevokeMachine(u: UserId, m: MachineId) returns (ok: bool)
      requires Valid(t)
      modifies this
      ensures Valid(t)
      ensures t == RevokeBy(old(t), u, m) && (ok <==> Approvable(old(t), Some(m), u))
    {
      StepKeepsValid(t, RevokeStep(u, m), 0);
      ok := Approvable(t, Some(m), u);
      if ok {
        t := Revoke(t, m);
      }
    }

    method MachineForCredential(c: Credential) returns (m: Option<MachineId>)
      requires Valid(t)
      ensures m.Some? <==> Accepted(t, c)
      ensures m.Some? ==> AcceptedAs(t, m.value, c)
    {
      m := FindCredential(c);
      if m.Some? && !t.machines[m.value].Live() {
        m := None;
      } else if m.Some? {
        assert AcceptedAs(t, m.value, c);
      }
    }

    method CredentialRefused(c: Credential, now: int) returns (refused: bool)
      requires Valid(t)
      ensures refused <==> Refused(t, c, now)
    {
      var m := FindCredential(c);
      if m.None? {
        return false;
      }
      refused := t.machines[m.value].revoked;
      if !refused && !t.machines[m.value].approved {
        refused := !exists p :: p in t.pairings && CanStillApprove(t, p, m.value, now);
      }
      assert refused <==> RefusedAs(t, m.value, c, now);
    }
  }

  // The machine that holds the credential a claim presents, if any does.
  ghost predicate HolderOf(t: Tables, current: Option<Credential>, holder: Option<MachineId>) {
    if current.Some? && Known(t, current.value) then holder.Some? && HoldsCredential(t, holder.value, current.value)
    else holder.None?
  }

  // ---------------------------------------------------------------------------
  // runs
  // ---------------------------------------------------------------------------

  datatype Step =
    | CreateStep(p: PairingId, u: UserId, token: Token, expires: int)
    | ClaimStep(p: PairingId, credential: Credential, current: Option<MachineId>, name: string, newId: MachineId)
    | ApproveStep(u: UserId, p: PairingId)
    | DeclineStep(u: UserId, p: PairingId)
    | RevokeStep(u: UserId, m: MachineId)

  datatype Event = Event(step: Step, now: int)

  function Stepped(t: Tables, s: Step, now: int): Tables {
    match s
    case CreateStep(p, u, token, expires) => Create(t, p, u, token, expires)
    case ClaimStep(p, credential, current, name, newId) =>
      if p in t.pairings && Claimable(t, p, t.pairings[p].token, now) && (current.Some? ==> current.value in t.machines) then
        Claim(t, p, credential, current, name, newId).0
      else t
    case ApproveStep(u, p) => Approve(t, u, p, now)
    case DeclineStep(u, p) => Decline(t, u, p)
    case RevokeStep(u, m) => RevokeBy(t, u, m)
  }

  // The tables after the first n events.
  function After(t: Tables, run: seq<Event>, n: nat): Tables
    requires n <= |run|
  {
    if n == 0 then t else Stepped(After(t, run, n - 1), run[n - 1].step, run[n - 1].now)
  }

  function ClockAt(start: int, run: seq<Event>, n: nat): int
    requires n <= |run|
  {
    if n == 0 then start else run[n - 1].now
  }

  ghost predicate ClockNeverGoesBack(start: int, run: seq<Event>) {
    forall i :: 0 <= i < |run| ==> ClockAt(start, run, i) <= run[i].now
  }

  lemma SetPairingKeepsValid(t: Tables, p: PairingId, row: Pairing)
    requires Valid(t) && OwnsItsMachine(t, row)
    requires if p in t.pairings then t.pairings[p].token == row.token else forall q :: q in t.pairings ==> t.pairings[q].token != row.token
    ensures Valid(SetPairing(t, p, row))
  {
  }

  lemma GrownMachineKeepsValid(t: Tables, m: MachineId, row: Machine)
    requires Valid(t) && m in t.machines && Grows(t.machines[m], row)
    ensures Valid(t.(machines := t.machines[m := row]))
  {
  }

  lemma StepKeepsValid(t: Tables, s: Step, now: int)
    requires Valid(t)
    ensures Valid(Stepped(t, s, now))
  {
    match s
    case CreateStep(p, u, token, expires) =>
      if Create(t, p, u, token, expires) != t {
        SetPairingKeepsValid(t, p, Pairing(u, token, Pending, None, expires));
      }
    case ClaimStep(p, credential, current, name, newId) =>
      if p in t.pairings && Claimable(t, p, t.pairings[p].token, now) && (current.Some? ==> current.value in t.machines) {
        ClaimKeepsValid(t, p, credential, current, name, newId);
      }
    case ApproveStep(u, p) =>
      if CanApprove(t, u, p, now) {
        var row := t.pairings[p].(status := Approved);
        SetPairingKeepsValid(t, p, row);
        GrownMachineKeepsValid(SetPairing(t, p, row), row.machine.value, t.machines[row.machine.value].(approved := true));
      }
    case DeclineStep(u, p) =>
      if CanDecline(t, u, p) {
        var row := t.pairings[p].(status := Rejected);
        SetPairingKeepsValid(t, p, row);
        if Approvable(t, row.machine, u) {
          GrownMachineKeepsValid(SetPairing(t, p, row), row.machine.value, t.machines[row.machine.value].(revoked := true));
        }
      }
    case RevokeStep(u, m) =>
      if Approvable(t, Some(m), u) {
        GrownMachineKeepsValid(t, m, t.machines[m].(revoked := true));
      }
  }

  lemma ClaimKeepsValid(t: Tables, p: PairingId, credential: Credential, current: Option<MachineId>, name: string, newId: MachineId)
    requires Valid(t) && p in t.pairings && (current.Some? ==> current.value in t.machines)
    ensures Valid(Claim(t, p, credential, current, name, newId).0)
  {
  }

  lemma {:induction false} RunKeepsValid(t: Tables, run: seq<Event>, n: nat)
    requires Valid(t) && n <= |run|
    ensures Valid(After(t, run, n))
  {
    if n > 0 {
      RunKeepsValid(t, run, n - 1);
      StepKeepsValid(After(t, run, n - 1), run[n - 1].step, run[n - 1].now);
    }
  }

  // A machine is never deleted, handed to another account, given another
  // credential, put back to unapproved or put back to unrevoked.
  predicate Grows(a: Machine, b: Machine) {
    a.user == b.user && a.credential == b.credential && (a.approved ==> b.approved) && (a.revoked ==> b.revoked)
  }

  lemma StepGrowsMachines(t: Tables, s: Step, now: int, m: MachineId)
    requires m in t.machines
    ensures m in Stepped(t, s, now).machines && Grows(t.machines[m], Stepped(t, s, now).machines[m])
  {
  }

  lemma StepKeepsRefused(t: Tables, s: Step, before: int, now: int, m: MachineId, c: Credential)
    requires before <= now && RefusedAs(t, m, c, before)
    ensures RefusedAs(Stepped(t, s, now), m, c, now)
  {
  }

  // ---------------------------------------------------------------------------
  // what each transaction is for
  // ---------------------------------------------------------------------------

  // A credential a claim hands out is neither accepted nor refused: it waits, and
  // is refused exactly from the time its pairing expires.
  lemma ClaimedWaitsUntilItExpires(t: Tables, p: PairingId, c: Credential, current: Option<MachineId>, name: string, newId: MachineId, at: int)
    requires Valid(t) && p in t.pairings && (current.Some? ==> current.value in t.machines)
    requires Claim(t, p, c, current, name, newId).1 == Ok(Some(c))
    ensures
      var t1 := Claim(t, p, c, current, name, newId).0;
      !Accepted(t1, c) && (Refused(t1, c, at) <==> at >= t.pairings[p].expires)
  {
    var t1 := Claim(t, p, c, current, name, newId).0;
    assert HoldsCredential(t1, newId, c);
    forall m | HoldsCredential(t1, m, c)
      ensures m == newId
    {
      assert m != newId ==> HoldsCredential(t, m, c);
    }
    forall q | q in t1.pairings && CanStillApprove(t1, q, newId, at)
      ensures q == p
    {
      assert q != p ==> OwnsItsMachine(t, t.pairings[q]);
    }
    if at >= t.pairings[p].expires {
      assert RefusedAs(t1, newId, c, at);
    } else {
      assert CanStillApprove(t1, p, newId, at);
    }
  }

  // A claim does something exactly to a request that is pending and has not expired.
  // From a computer that is connected it only settles the request, if the account
  // is the same; from any other it adds a machine that waits for approval.
  lemma ClaimTakesEffectIff(t: Tables, p: PairingId, c: Credential, current: Option<MachineId>, name: string, newId: MachineId, now: int)
    requires p in t.pairings && (current.Some? ==> current.value in t.machines) && newId !in t.machines && !Known(t, c)
    ensures
      var row, t1 := t.pairings[p], Stepped(t, ClaimStep(p, c, current, name, newId), now);
      if row.status != Pending || now >= row.expires then t1 == t
      else if current.Some? && t.machines[current.value].approved && !t.machines[current.value].revoked then
        if t.machines[current.value].user != row.user then t1 == t
        else t1 == Tables(t.machines, t.pairings[p := Pairing(row.user, row.token, Approved, current, row.expires)])
      else
        && t1.machines == t.machines[newId := Machine(row.user, name, c, false, false)]
        && t1.pairings == t.pairings[p := Pairing(row.user, row.token, Claimed, Some(newId), row.expires)]
  {
    assert forall m :: m in t.machines ==> !HoldsCredential(t, m, c);
  }

  // So no claim hands out a credential that is refused already.
  lemma ClaimedCredentialWaits(t: Tables, p: PairingId, token: Token, c: Credential, current: Option<MachineId>, name: string, newId: MachineId, now: int)
    requires Valid(t) && Claimable(t, p, token, now) && (current.Some? ==> current.value in t.machines)
    requires Claim(t, p, c, current, name, newId).1 == Ok(Some(c))
    ensures var t1 := Claim(t, p, c, current, name, newId).0; Known(t1, c) && !Accepted(t1, c) && !Refused(t1, c, now)
  {
    ClaimedWaitsUntilItExpires(t, p, c, current, name, newId, now);
    assert HoldsCredential(Claim(t, p, c, current, name, newId).0, newId, c);
  }

  // A claim by a computer already connected for that account makes nothing new
  // and issues nothing; by one of another account, it changes nothing at all.
  lemma ClaimByAConnectedComputer(t: Tables, p: PairingId, c: Credential, m: MachineId, name: string, newId: MachineId)
    requires p in t.pairings && m in t.machines && t.machines[m].Live()
    ensures
      var (t1, r) := Claim(t, p, c, Some(m), name, newId);
      if t.machines[m].user == t.pairings[p].user then r == Ok(None) && t1.machines == t.machines && t1.pairings[p].machine == Some(m)
      else r == Err(BelongsToAnotherAccount) && t1 == t
  {
  }

  lemma ApprovalAdmits(t: Tables, u: UserId, p: PairingId, now: int)
    requires CanApprove(t, u, p, now)
    ensures Accepted(Approve(t, u, p, now), t.machines[t.pairings[p].machine.value].credential)
  {
    var m := t.pairings[p].machine.value;
    assert AcceptedAs(Approve(t, u, p, now), m, t.machines[m].credential);
  }

  // Declining refuses the computer that claimed, for good, and no other.
  lemma DeclineRefusesWhoClaimed(t: Tables, u: UserId, p: PairingId, at: int)
    requires Valid(t) && CanDecline(t, u, p)
    ensures
      var m := t.pairings[p].machine;
      && (m.Some? && !t.machines[m.value].approved ==> Refused(Decline(t, u, p), t.machines[m.value].credential, at))
      && (forall n :: n in t.machines && Some(n) != m ==> Decline(t, u, p).machines[n] == t.machines[n])
      && (forall n :: n in t.machines && t.machines[n].Live() ==> Decline(t, u, p).machines[n].Live())
  {
    var m := t.pairings[p].machine;
    assert OwnsItsMachine(t, t.pairings[p]);
    if m.Some? && !t.machines[m.value].approved {
      assert RefusedAs(Decline(t, u, p), m.value, t.machines[m.value].credential, at);
    }
  }

  lemma RevocationRefuses(t: Tables, u: UserId, m: MachineId, at: int)
    requires Approvable(t, Some(m), u)
    ensures Refused(RevokeBy(t, u, m), t.machines[m].credential, at)
  {
    assert RefusedAs(RevokeBy(t, u, m), m, t.machines[m].credential, at);
  }

  // Main result: refusal is final. Once a known credential is refused, no run of
  // pairing steps ever lets it connect again.
  lemma {:induction false} RefusedForever(t: Tables, run: seq<Event>, n: nat, c: Credential, start: int)
    requires Valid(t) && Refused(t, c, start) && ClockNeverGoesBack(start, run) && n <= |run|
    ensures Refused(After(t, run, n), c, ClockAt(start, run, n))
    ensures !Accepted(After(t, run, n), c)
  {
    if n > 0 {
      RefusedForever(t, run, n - 1, c, start);
      var t0, s, now := After(t, run, n - 1), run[n - 1].step, run[n - 1].now;
      var m :| RefusedAs(t0, m, c, ClockAt(start, run, n - 1));
      StepKeepsRefused(t0, s, ClockAt(start, run, n - 1), now, m, c);
    }
    RunKeepsValid(t, run, n);
    RefusedIsNotAccepted(After(t, run, n), c, ClockAt(start, run, n));
  }

  lemma RefusedIsNotAccepted(t: Tables, c: Credential, now: int)
    requires Valid(t) && Refused(t, c, now)
    ensures !Accepted(t, c)
  {
  }

  // Main result: the answer is exact. Among the credentials of known computers,
  // the refused ones are those no later run can ever get accepted.
  lemma RefusedIffNeverAccepted(t: Tables, c: Credential, start: int)
    requires Valid(t) && Known(t, c)
    ensures Refused(t, c, start) <==> forall run :: ClockNeverGoesBack(start, run) ==> !Accepted(After(t, run, |run|), c)
  {
    if Refused(t, c, start) {
      forall run | ClockNeverGoesBack(start, run)
        ensures !Accepted(After(t, run, |run|), c)
      {
        RefusedForever(t, run, |run|, c, start);
      }
    } else {
      var m :| HoldsCredential(t, m, c);
      assert !RefusedAs(t, m, c, start);
      if t.machines[m].approved {
        assert AcceptedAs(After(t, [], 0), m, c);
        assert ClockNeverGoesBack(start, []);
      } else {
        var p :| p in t.pairings && CanStillApprove(t, p, m, start);
        var run := [Event(ApproveStep(t.machines[m].user, p), start)];
        assert After(t, run, 1) == Approve(After(t, run, 0), t.machines[m].user, p, start);
        assert AcceptedAs(After(t, run, |run|), m, c);
        assert ClockNeverGoesBack(start, run);
      }
    }
  }

  // Main result: a computer that may connect goes on being that account's, and
  // may connect, until that account revokes it, whatever anyone claims or declines.
  lemma {:induction false} LiveUntilItsAccountRevokesIt(t: Tables, run: seq<Event>, n: nat, m: MachineId)
    requires m in t.machines && t.machines[m].Live() && n <= |run|
    ensures m in After(t, run, n).machines
    ensures Grows(t.machines[m], After(t, run, n).machines[m])
    ensures After(t, run, n).machines[m].Live() <==> forall i :: 0 <= i < n ==> run[i].step != RevokeStep(t.machines[m].user, m)
  {
    if n > 0 {
      LiveUntilItsAccountRevokesIt(t, run, n - 1, m);
      StepGrowsMachines(After(t, run, n - 1), run[n - 1].step, run[n - 1].now, m);
    }
  }

  // Approved and rejected pairings are never changed again.
  lemma {:induction false} DecidedForGood(t: Tables, run: seq<Event>, n: nat, p: PairingId)
    requires p in t.pairings && t.pairings[p].status in {Approved, Rejected} && n <= |run|
    ensures p in After(t, run, n).pairings && After(t, run, n).pairings[p] == t.pairings[p]
  {
    if n > 0 {
      DecidedForGood(t, run, n - 1, p);
    }
  }
}
