/**
Which computers are connected, through which socket, and which of an account's
computers is its primary. A reconnecting computer replaces its own old socket,
whose teardown comes later.
*/
module HubRegistry {
  import opened Common

  type UserId = string
  type MachineId = string
  type Conn = nat // one socket

  datatype Registry = Registry(
    machines: map<UserId, Conn>, // the account-wide route
    paired: map<MachineId, Conn>,
    users: map<MachineId, UserId>,
    primary: map<UserId, MachineId>
  )

  // Where a workspace's work goes.
  datatype Target = Legacy | To(machine: MachineId) | Nowhere

  predicate Online(r: Registry, u: UserId, m: MachineId) {
    m in r.paired && m in r.users && r.users[m] == u
  }

  // An account has a primary exactly when it has a paired computer online, and
  // the primary is one of them.
  ghost predicate Valid(r: Registry) {
    && r.users.Keys == r.paired.Keys
    && (forall u :: u in r.primary ==> Online(r, u, r.primary[u]))
    && (forall u, m :: Online(r, u, m) ==> u in r.primary)
  }

  // ---------------------------------------------------------------------------
  // the changes
  // ---------------------------------------------------------------------------

  function Paired(r: Registry, u: UserId, m: MachineId, c: Conn): Registry {
    r.(paired := r.paired[m := c], users := r.users[m := u], primary := r.primary[u := m])
  }

  predicate IsCurrent(r: Registry, m: MachineId, c: Conn) {
    m in r.paired && r.paired[m] == c
  }

  function Without(r: Registry, m: MachineId): Registry {
    r.(paired := r.paired - {m}, users := r.users - {m})
  }

  predicate PassesTo(rest: Registry, u: UserId, n: MachineId, after: Registry) {
    Online(rest, u, n) && after == rest.(primary := rest.primary[u := n])
  }

  // Which computer takes over as primary depends on the order a map is walked in.
  ghost predicate Cleared(r: Registry, u: UserId, m: MachineId, c: Conn, after: Registry) {
    if !IsCurrent(r, m, c) then after == r
    else
      var rest := Without(r, m);
      if u !in r.primary || r.primary[u] != m then after == rest
      else if exists n :: Online(rest, u, n) then exists n :: PassesTo(rest, u, n, after)
      else after == rest.(primary := r.primary - {u})
  }

  class Hub {
    var machines: map<UserId, Conn>
    var paired: map<MachineId, Conn>
    var pairedUsers: map<MachineId, UserId>
    var primary: map<UserId, MachineId>

    ghost function State(): Registry
      reads this
    {
      Registry(machines, paired, pairedUsers, primary)
    }

    constructor ()
      ensures State() == Registry(map[], map[], map[], map[]) && Valid(State())
    {
      machines, paired, pairedUsers, primary := map[], map[], map[], map[];
    }

    // Returns the socket it replaces, which is then closed.
    method SetDaemon(u: UserId, c: Conn) returns (replaced: Option<Conn>)
      modifies this
      ensures State() == old(State()).(machines := old(machines)[u := c]) && Leads(old(State()), SetLegacy(u, c), State())
      ensures replaced == if u in old(machines) then Some(old(machines)[u]) else None
    {
      replaced := if u in machines then Some(machines[u]) else None;
      machines := machines[u := c];
    }

    method ClearDaemon(u: UserId, c: Conn) returns (current: bool)
      modifies this
      ensures current == (u in old(machines) && old(machines)[u] == c)
      ensures State() == if current then old(State()).(machines := old(machines) - {u}) else old(State())
      ensures Leads(old(State()), ClearLegacy(u, c), State())
    {
      current := u in machines && machines[u] == c;
      if current {
        machines := machines - {u};
      }
    }

    method SetPairedDaemon(u: UserId, m: MachineId, c: Conn) returns (replaced: Option<Conn>)
      modifies this
      ensures State() == Paired(old(State()), u, m, c) && Leads(old(State()), SetPaired(u, m, c), State())
      ensures replaced == if m in old(paired) then Some(old(paired)[m]) else None
    {
      replaced := if m in paired then Some(paired[m]) else None;
      paired := paired[m := c];
      pairedUsers := pairedUsers[m := u];
      primary := primary[u := m];
    }

    method ClearPairedDaemon(u: UserId, m: MachineId, c: Conn) returns (current: bool)
      modifies this
      ensures Cleared(old(State()), u, m, c, State()) && Leads(old(State()), ClearPaired(u, m, c), State())
      ensures current == IsCurrent(old(State()), m, c)
    {
      current := m in paired && paired[m] == c;
      ghost var rest := Without(State(), m);
      if current {
        paired := paired - {m};
        pairedUsers := pairedUsers - {m};
        if u in primary && primary[u] == m {
          var next := AnyOnline(u);
          assert forall n :: Online(rest, u, n) == Online(State(), u, n);
          primary := if next.Some? then primary[u := next.value] else primary - {u};
          assert next.Some? ==> PassesTo(rest, u, next.value, State());
        }
      }
    }

    method AnyOnline(u: UserId) returns (m: Option<MachineId>)
      ensures m.Some? ==> Online(State(), u, m.value)
      ensures m.None? ==> forall n :: !Online(State(), u, n)
    {
      var left := pairedUsers.Keys;
      while left != {}
        invariant left <= pairedUsers.Keys && forall n :: Online(State(), u, n) ==> n in left
        decreases left
      {
        var n :| n in left;
        if pairedUsers[n] == u && n in paired {
          return Some(n);
        }
        left := left - {n};
      }
      m := None;
    }

    // Main result: without the account-wide route a computer is found exactly
    // when an allowed one of the account is online; the primary, if it is
    // allowed, and otherwise the first that is.
    method Target(u: UserId, allowed: seq<MachineId>) returns (t: Target)
      requires Valid(State())
      ensures t == Legacy <==> u in machines
      ensures t == Nowhere <==> u !in machines && !AnyAllowed(State(), u, allowed)
      ensures t.To? ==> t.machine in allowed && Online(State(), u, t.machine)
      ensures t.To? && u in primary && primary[u] in allowed ==> t.machine == primary[u]
      ensures t.To? && !(u in primary && primary[u] in allowed) ==> IsFirst(State(), u, allowed, t.machine)
    {
      if u in machines {
        return Legacy;
      }
      if |allowed| == 0 {
        return Nowhere;
      }
      // An account without a primary reads as the empty id.
      var first := if u in primary then primary[u] else "";
      for i := 0 to |allowed|
        invariant forall j :: 0 <= j < i ==> !(allowed[j] == first && Online(State(), u, allowed[j]))
      {
        var id := allowed[i];
        if id == first && id in paired && id in pairedUsers && pairedUsers[id] == u {
          assert Online(State(), u, allowed[i]);
          return To(id);
        }
      }
      for i := 0 to |allowed|
        invariant forall j :: 0 <= j < i ==> !Online(State(), u, allowed[j])
      {
        var id := allowed[i];
        if id in paired && id in pairedUsers && pairedUsers[id] == u {
          assert IsFirst(State(), u, allowed, id);
          return To(id);
        }
      }
      return Nowhere;
    }
  }

  predicate AnyAllowed(r: Registry, u: UserId, allowed: seq<MachineId>) {
    exists i :: 0 <= i < |allowed| && Online(r, u, allowed[i])
  }

  ghost predicate IsFirst(r: Registry, u: UserId, allowed: seq<MachineId>, m: MachineId) {
    exists i :: 0 <= i < |allowed| && allowed[i] == m && forall j :: 0 <= j < i ==> !Online(r, u, allowed[j])
  }

  // ---------------------------------------------------------------------------
  // runs
  // ---------------------------------------------------------------------------

  datatype Op =
    | SetLegacy(u: UserId, c: Conn)
    | ClearLegacy(u: UserId, c: Conn)
    | SetPaired(u: UserId, m: MachineId, c: Conn)
    | ClearPaired(u: UserId, m: MachineId, c: Conn)

  ghost predicate Leads(r: Registry, op: Op, after: Registry) {
    match op
    case SetLegacy(u, c) => after == r.(machines := r.machines[u := c])
    case ClearLegacy(u, c) => after == if u in r.machines && r.machines[u] == c then r.(machines := r.machines - {u}) else r
    case SetPaired(u, m, c) => after == Paired(r, u, m, c)
    case ClearPaired(u, m, c) => Cleared(r, u, m, c, after)
  }

  ghost predicate IsRun(states: seq<Registry>, ops: seq<Op>) {
    |states| == |ops| + 1 && forall i :: 0 <= i < |ops| ==> Leads(states[i], ops[i], states[i + 1])
  }

  // A computer always connects for the same account.
  ghost predicate FixedOwners(ops: seq<Op>, owner: map<MachineId, UserId>) {
    forall i :: 0 <= i < |ops| && (ops[i].SetPaired? || ops[i].ClearPaired?) ==> ops[i].m in owner && owner[ops[i].m] == ops[i].u
  }

  predicate OwnedAs(r: Registry, owner: map<MachineId, UserId>) {
    forall m :: m in r.users ==> m in owner && owner[m] == r.users[m]
  }

  lemma ClearKeepsValid(r: Registry, u: UserId, m: MachineId, c: Conn, after: Registry)
    requires Valid(r) && Cleared(r, u, m, c, after) && (m in r.users ==> r.users[m] == u)
    ensures Valid(after)
  {
    if IsCurrent(r, m, c) {
      var rest := Without(r, m);
      assert forall v, n :: n != m ==> Online(rest, v, n) == Online(r, v, n);
      assert forall v, n :: Online(after, v, n) == Online(rest, v, n);
    }
  }

  predicate TakesAnothersPrimary(r: Registry, u: UserId, m: MachineId) {
    m in r.users && r.users[m] != u && r.users[m] in r.primary && r.primary[r.users[m]] == m
  }

  // Connecting keeps the registry right exactly when it does not take another
  // account's primary computer.
  lemma PairingKeepsValidIff(r: Registry, u: UserId, m: MachineId, c: Conn)
    requires Valid(r)
    ensures Valid(Paired(r, u, m, c)) <==> !TakesAnothersPrimary(r, u, m)
  {
    var after := Paired(r, u, m, c);
    assert Online(after, u, m);
    assert forall v, n :: n != m ==> Online(after, v, n) == Online(r, v, n);
    if m in r.users && r.users[m] != u {
      var v := r.users[m];
      assert Online(r, v, m);
      assert after.primary[v] == r.primary[v];
      assert !Online(after, v, m);
    }
  }

  lemma StepKeepsValid(r: Registry, op: Op, after: Registry, owner: map<MachineId, UserId>)
    requires Valid(r) && OwnedAs(r, owner) && Leads(r, op, after)
    requires op.SetPaired? || op.ClearPaired? ==> op.m in owner && owner[op.m] == op.u
    ensures Valid(after) && OwnedAs(after, owner)
  {
    match op
    case SetPaired(u, m, c) => PairingKeepsValidIff(r, u, m, c);
    case ClearPaired(u, m, c) => ClearKeepsValid(r, u, m, c, after);
    case _ => assert forall u, m :: Online(after, u, m) == Online(r, u, m);
  }

  // Main result: whatever connects and disconnects, in whatever order, an account
  // has a primary exactly when a paired computer of its is online, and the
  // primary is one of them.
  lemma {:induction false} PrimaryIsOnline(states: seq<Registry>, ops: seq<Op>, owner: map<MachineId, UserId>, n: nat)
    requires IsRun(states, ops) && FixedOwners(ops, owner) && n <= |ops|
    requires states[0] == Registry(map[], map[], map[], map[])
    ensures Valid(states[n]) && OwnedAs(states[n], owner)
  {
    if n > 0 {
      PrimaryIsOnline(states, ops, owner, n - 1);
      StepKeepsValid(states[n - 1], ops[n - 1], states[n], owner);
    }
  }

  // Main result: the socket a computer connected with last stays its current one
  // until it is itself cleared; the teardown of any socket it replaced changes nothing.
  lemma {:induction false} LatestSocketStays(states: seq<Registry>, ops: seq<Op>, i: nat, n: nat)
    requires IsRun(states, ops) && i < n <= |ops| && ops[i].SetPaired?
    requires forall k :: i < k < n ==> !(ops[k].SetPaired? && ops[k].m == ops[i].m)
    requires forall k :: i < k < n ==> !(ops[k].ClearPaired? && ops[k].m == ops[i].m && ops[k].c == ops[i].c)
    ensures IsCurrent(states[n], ops[i].m, ops[i].c) && Online(states[n], ops[i].u, ops[i].m)
  {
    assert Leads(states[n - 1], ops[n - 1], states[n]);
    if n > i + 1 {
      LatestSocketStays(states, ops, i, n - 1);
    }
  }

  lemma SupersededTeardownChangesNothing(r: Registry, u: UserId, m: MachineId, c: Conn, after: Registry)
    requires !IsCurrent(r, m, c) && Leads(r, ClearPaired(u, m, c), after)
    ensures after == r
  {
  }

  // The teardown of its current socket takes a computer offline, and no other; the
  // account-wide routes are as they were.
  lemma ClearedIsOffline(r: Registry, u: UserId, m: MachineId, c: Conn, after: Registry)
    requires IsCurrent(r, m, c) && Leads(r, ClearPaired(u, m, c), after)
    ensures m !in after.paired && m !in after.users && after.machines == r.machines
    ensures forall n :: n != m ==> (n in after.paired <==> n in r.paired) && (n in after.users <==> n in r.users)
    ensures forall n :: n != m && n in r.paired ==> after.paired[n] == r.paired[n]
    ensures forall n :: n != m && n in r.users ==> after.users[n] == r.users[n]
    ensures forall v :: v != u ==> (v in after.primary <==> v in r.primary) && (v in r.primary ==> after.primary[v] == r.primary[v])
  {
  }

  // The step takes the primary away: a computer of the account connects, or the
  // primary's own current socket is torn down.
  predicate MovesPrimary(r: Registry, op: Op, u: UserId, m: MachineId) {
    || (op.SetPaired? && op.u == u)
    || (op.ClearPaired? && op.u == u && op.m == m && IsCurrent(r, m, op.c))
  }

  lemma PrimaryStaysPut(r: Registry, op: Op, after: Registry, u: UserId, m: MachineId)
    requires Leads(r, op, after) && u in r.primary && r.primary[u] == m && !MovesPrimary(r, op, u, m)
    ensures u in after.primary && after.primary[u] == m
  {
  }

  // Main result: the computer an account connected last is its primary, and stays
  // so until another connects or its own current socket is torn down, whatever
  // else comes and goes.
  lemma {:induction false} NewestIsPrimary(states: seq<Registry>, ops: seq<Op>, i: nat, n: nat)
    requires IsRun(states, ops) && i < n <= |ops| && ops[i].SetPaired?
    requires forall k :: i < k < n ==> !MovesPrimary(states[k], ops[k], ops[i].u, ops[i].m)
    ensures ops[i].u in states[n].primary && states[n].primary[ops[i].u] == ops[i].m
  {
    assert Leads(states[n - 1], ops[n - 1], states[n]);
    if n > i + 1 {
      NewestIsPrimary(states, ops, i, n - 1);
      PrimaryStaysPut(states[n - 1], ops[n - 1], states[n], ops[i].u, ops[i].m);
    }
  }

  // The account-wide route is the last one set until that very one is cleared.
  lemma {:induction false} LatestRouteStays(states: seq<Registry>, ops: seq<Op>, i: nat, n: nat)
    requires IsRun(states, ops) && i < n <= |ops| && ops[i].SetLegacy?
    requires forall k :: i < k < n ==> !(ops[k].SetLegacy? && ops[k].u == ops[i].u)
    requires forall k :: i < k < n ==> ops[k] != ClearLegacy(ops[i].u, ops[i].c)
    ensures ops[i].u in states[n].machines && states[n].machines[ops[i].u] == ops[i].c
    ensures n < |ops| && ops[n] == ClearLegacy(ops[i].u, ops[i].c) ==> ops[i].u !in states[n + 1].machines
  {
    assert Leads(states[n - 1], ops[n - 1], states[n]);
    if n > i + 1 {
      LatestRouteStays(states, ops, i, n - 1);
    }
    assert n < |ops| ==> Leads(states[n], ops[n], states[n + 1]);
  }
}
