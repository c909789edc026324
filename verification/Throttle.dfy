/**
Slowing down guessing: the entries by client, and the calls that read and
change them. Times are nanoseconds of one clock that never runs backwards.
*/
module Throttle {
  import opened Common

  const SECOND: int := 1_000_000_000
  const MINUTE: int := 60 * SECOND

  const FREE_ATTEMPTS: nat := 5
  const FAILURE_WINDOW: int := 15 * MINUTE
  const BASE_DELAY: int := 2 * SECOND
  const MAX_DELAY: int := 5 * MINUTE
  const MAX_SHIFT: nat := 8
  const SWEEP_FROM: nat := 1024

  type Client = string

  datatype Attempts = Attempts(failures: nat, last: int)

  type Entries = map<Client, Attempts>

  predicate Expired(a: Attempts, now: int) {
    now - a.last > FAILURE_WINDOW
  }

  // Doubling, so many times over.
  function Doubled(d: int, times: nat): int {
    if times == 0 then d else 2 * Doubled(d, times - 1)
  }

  // The wait an entry asks for after its last attempt.
  function DelayFor(failures: nat): int
    requires failures >= FREE_ATTEMPTS
  {
    Min(Doubled(BASE_DELAY, Min(failures - FREE_ATTEMPTS, MAX_SHIFT)), MAX_DELAY)
  }

  // How long a client must still wait, of an entry that may not be there.
  function WaitOf(a: Option<Attempts>, now: int): int {
    if a.None? || Expired(a.value, now) || a.value.failures < FREE_ATTEMPTS then 0
    else Max(DelayFor(a.value.failures) - (now - a.value.last), 0)
  }

  function Entry(es: Entries, client: Client): Option<Attempts> {
    if client in es then Some(es[client]) else None
  }

  // ---------------------------------------------------------------------------
  // what each call does to the entries
  // ---------------------------------------------------------------------------

  // Asking drops an entry that has expired.
  function Waited(es: Entries, client: Client, now: int): Entries {
    if client in es && Expired(es[client], now) then es - {client} else es
  }

  function Swept(es: Entries, now: int): Entries {
    if |es| < SWEEP_FROM then es else map c | c in es && !Expired(es[c], now) :: es[c]
  }

  function Recorded(es: Entries, client: Client, now: int): Entries {
    var before := if client in es && !Expired(es[client], now) then es[client].failures else 0;
    Swept(es[client := Attempts(before + 1, now)], now)
  }

  datatype Op = Begin | Wait | Failed | Succeeded

  // One call by one client at one time.
  datatype Call = Call(op: Op, client: Client, now: int)

  function TimeToWait(es: Entries, client: Client, now: int): int {
    WaitOf(Entry(es, client), now)
  }

  predicate Admits(es: Entries, c: Call) {
    c.op.Begin? && TimeToWait(es, c.client, c.now) == 0
  }

  function Next(es: Entries, c: Call): Entries {
    match c.op
    case Begin =>
      var asked := Waited(es, c.client, c.now);
      if Admits(es, c) then Recorded(asked, c.client, c.now) else asked
    case Wait => Waited(es, c.client, c.now)
    case Failed => if c.client in es then es[c.client := es[c.client].(last := c.now)] else es
    case Succeeded => es - {c.client}
  }

  // What the caller is told: for Begin and Wait, how long to wait.
  function Answer(es: Entries, c: Call): Option<int> {
    if c.op.Begin? || c.op.Wait? then Some(TimeToWait(es, c.client, c.now)) else None
  }

  function After(es: Entries, calls: seq<Call>, n: nat): Entries
    requires n <= |calls|
  {
    if n == 0 then es else Next(After(es, calls, n - 1), calls[n - 1])
  }

  // ---------------------------------------------------------------------------
  // the throttle
  // ---------------------------------------------------------------------------

  class Throttle {
    var es: Entries

    constructor ()
      ensures es == map[]
    {
      es := map[];
    }

    // How long to wait, and whether the attempt may proceed now.
    method Begin(client: Client, now: int) returns (wait: int, ok: bool)
      modifies this
      ensures es == Next(old(es), Call(Op.Begin, client, now))
      ensures Answer(old(es), Call(Op.Begin, client, now)) == Some(wait) && (ok <==> wait == 0)
    {
      wait := WaitLocked(client, now);
      if wait > 0 {
        return wait, false;
      }
      RecordLocked(client, now);
      return 0, true;
    }

    method Wait(client: Client, now: int) returns (wait: int)
      modifies this
      ensures es == Next(old(es), Call(Op.Wait, client, now))
      ensures Answer(old(es), Call(Op.Wait, client, now)) == Some(wait)
    {
      wait := WaitLocked(client, now);
    }

    method WaitLocked(client: Client, now: int) returns (wait: int)
      modifies this
      ensures es == Waited(old(es), client, now) && wait == TimeToWait(old(es), client, now)
    {
      if client !in es {
        return 0;
      }
      var a := es[client];
      if now - a.last > FAILURE_WINDOW {
        es := es - {client};
        return 0;
      }
      if a.failures < FREE_ATTEMPTS {
        return 0;
      }
      var excess := a.failures - FREE_ATTEMPTS;
      if excess > MAX_SHIFT {
        excess := MAX_SHIFT;
      }
      var delay := Doubled(BASE_DELAY, excess);
      if delay > MAX_DELAY {
        delay := MAX_DELAY;
      }
      var waited := now - a.last;
      if waited < delay {
        return delay - waited;
      }
      return 0;
    }

    method Failed(client: Client, now: int)
      modifies this
      ensures es == Next(old(es), Call(Op.Failed, client, now))
    {
      if client in es {
        es := es[client := es[client].(last := now)];
      }
    }

    method RecordLocked(client: Client, now: int)
      modifies this
      ensures es == Recorded(old(es), client, now)
    {
      var a := Attempts(0, now);
      if client in es && now - es[client].last <= FAILURE_WINDOW {
        a := es[client];
      }
      es := es[client := Attempts(a.failures + 1, now)];
      Sweep(now);
    }

    method Succeeded(client: Client)
      modifies this
      ensures es == old(es) - {client}
    {
      es := es - {client};
    }

    method Sweep(now: int)
      modifies this
      ensures es == Swept(old(es), now)
    {
      if |es| < SWEEP_FROM {
        return;
      }
      var clients := es.Keys;
      while clients != {}
        invariant clients <= old(es).Keys
        invariant es == map c | c in old(es) && (c in clients || !Expired(old(es)[c], now)) :: old(es)[c]
        decreases clients
      {
        var client :| client in clients;
        clients := clients - {client};
        if now - es[client].last > FAILURE_WINDOW {
          es := es - {client};
        }
      }
    }
  }
}
