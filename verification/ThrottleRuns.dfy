/**
The throttle over whole runs: how often one client can be admitted, and that
nothing but its own calls decides what it is told.
*/
module ThrottleRuns {
  import opened Common
  import opened Throttle

  ghost predicate Ordered(calls: seq<Call>) {
    forall i, j :: 0 <= i <= j < |calls| ==> calls[i].now <= calls[j].now
  }

  // A run from any entries, with the entries before each call and after the last.
  ghost predicate IsRun(states: seq<Entries>, calls: seq<Call>) {
    |states| == |calls| + 1 && forall i :: 0 <= i < |calls| ==> states[i + 1] == Next(states[i], calls[i])
  }

  predicate AdmittedAt(states: seq<Entries>, calls: seq<Call>, k: nat, c: Client)
    requires k < |calls| < |states|
  {
    calls[k].client == c && Admits(states[k], calls[k])
  }

  // How many of the calls from the one place to the other admitted a client.
  function Admitted(states: seq<Entries>, calls: seq<Call>, from: nat, n: nat, c: Client): nat
    requires from <= n <= |calls| < |states|
    decreases n
  {
    if from == n then 0
    else Admitted(states, calls, from, n - 1, c) + (if AdmittedAt(states, calls, n - 1, c) then 1 else 0)
  }

  // ---------------------------------------------------------------------------
  // the bound
  // ---------------------------------------------------------------------------

  // The least time between the first and the k-th admission.
  function MinSpan(k: nat): int
    requires k >= 1
  {
    if k == 1 then 0 else MinSpan(k - 1) + GapAfter(k - 1)
  }

  function GapAfter(failures: nat): int {
    if failures < FREE_ATTEMPTS then 0 else DelayFor(failures)
  }

  lemma {:induction false} DoubledMonotone(d: int, m: nat, n: nat)
    requires d >= 0 && m <= n
    ensures 0 <= Doubled(d, m) <= Doubled(d, n)
    decreases n
  {
    if m < n {
      DoubledMonotone(d, m, n - 1);
    } else if n > 0 {
      DoubledMonotone(d, n - 1, n - 1);
    }
  }

  // Never less than none, never more for fewer, and never past the cap.
  lemma GapMonotone(m: nat, n: nat)
    requires m <= n
    ensures 0 <= GapAfter(m) <= GapAfter(n) <= MAX_DELAY
  {
    if n >= FREE_ATTEMPTS {
      DoubledMonotone(BASE_DELAY, 0, Min(n - FREE_ATTEMPTS, MAX_SHIFT));
      if m >= FREE_ATTEMPTS {
        DoubledMonotone(BASE_DELAY, Min(m - FREE_ATTEMPTS, MAX_SHIFT), Min(n - FREE_ATTEMPTS, MAX_SHIFT));
      }
    }
  }

  lemma {:induction false} MinSpanMonotone(m: nat, n: nat)
    requires 1 <= m <= n
    ensures 0 <= MinSpan(m) <= MinSpan(n)
    decreases n
  {
    if m < n {
      GapMonotone(n - 1, n - 1);
      MinSpanMonotone(m, n - 1);
    } else if n > 1 {
      GapMonotone(n - 1, n - 1);
      MinSpanMonotone(n - 1, n - 1);
    }
  }

  lemma Powers(d: int)
    ensures Doubled(d, 0) == d && Doubled(d, 1) == 2 * d && Doubled(d, 2) == 4 * d
    ensures Doubled(d, 3) == 8 * d && Doubled(d, 4) == 16 * d && Doubled(d, 5) == 32 * d
    ensures Doubled(d, 6) == 64 * d && Doubled(d, 7) == 128 * d && Doubled(d, 8) == 256 * d
  {
  }

  // The delays: 2, 4, ..., 256 seconds, and five minutes from then on.
  lemma Delays(excess: nat)
    ensures DelayFor(FREE_ATTEMPTS + excess) == if excess < 8 then Doubled(2 * SECOND, excess) else 300 * SECOND
    ensures Doubled(2 * SECOND, 7) == 256 * SECOND
  {
    Powers(2 * SECOND);
    if excess < 8 {
      DoubledMonotone(BASE_DELAY, excess, 7);
    }
  }

  lemma SpanOfFourteenAndFifteen()
    ensures MinSpan(14) == 810 * SECOND && MinSpan(15) == 1110 * SECOND
  {
  }

  // After the k-th admission since `since`: the count is at least k, and the
  // clock stands at least as late as k admissions take.
  predicate Charged(es: Entries, c: Client, k: nat, since: int, now: int) {
    k >= 1 ==> c in es && es[c].failures >= k && since + MinSpan(k) <= es[c].last <= now
  }

  lemma ChargedStep(es: Entries, call: Call, c: Client, k: nat, since: int, before: int)
    requires Charged(es, c, k, since, before)
    requires since <= before <= call.now <= since + FAILURE_WINDOW
    requires !(call.op.Succeeded? && call.client == c)
    ensures var k' := k + (if call.client == c && Admits(es, call) then 1 else 0);
            Charged(Next(es, call), c, k', since, call.now)
  {
    if k >= 1 {
      MinSpanMonotone(1, k);
      assert !Expired(es[c], call.now);
      GapMonotone(k, es[c].failures);
    }
  }

  // What holds of no admission at first, and goes on holding with each call and its
  // admission, holds of all there were.
  lemma {:induction false} HoldsOfAdmitted(holds: (nat, nat) -> bool, states: seq<Entries>, calls: seq<Call>, from: nat, n: nat, c: Client)
    requires from <= n <= |calls| < |states| && holds(from, 0)
    requires forall i: nat, k: nat :: from <= i < n && holds(i, k) ==> holds(i + 1, k + (if AdmittedAt(states, calls, i, c) then 1 else 0))
    ensures holds(n, Admitted(states, calls, from, n, c))
    decreases n
  {
    if n > from {
      HoldsOfAdmitted(holds, states, calls, from, n - 1, c);
      assert holds(n - 1 + 1, Admitted(states, calls, from, n - 1, c) + (if AdmittedAt(states, calls, n - 1, c) then 1 else 0));
    }
  }

  // The time of the call before, if there was one.
  function Clock(calls: seq<Call>, from: nat, n: nat): int
    requires from < |calls| && n <= |calls|
  {
    if n <= from then calls[from].now else calls[n - 1].now
  }

  ghost predicate ChargedAt(states: seq<Entries>, calls: seq<Call>, from: nat, c: Client, i: nat, k: nat) {
    from < |calls| < |states| && i <= |calls| && Charged(states[i], c, k, calls[from].now, Clock(calls, from, i))
  }

  lemma ChargedNext(states: seq<Entries>, calls: seq<Call>, from: nat, c: Client, i: nat, k: nat)
    requires IsRun(states, calls) && Ordered(calls) && from <= i < |calls|
    requires calls[i].now <= calls[from].now + FAILURE_WINDOW && !(calls[i].op.Succeeded? && calls[i].client == c)
    requires ChargedAt(states, calls, from, c, i, k)
    ensures ChargedAt(states, calls, from, c, i + 1, k + (if AdmittedAt(states, calls, i, c) then 1 else 0))
  {
    ChargedStep(states[i], calls[i], c, k, calls[from].now, Clock(calls, from, i));
  }

  lemma ChargedAfter(states: seq<Entries>, calls: seq<Call>, from: nat, n: nat, c: Client)
    requires IsRun(states, calls) && Ordered(calls) && from < n <= |calls|
    requires calls[n - 1].now <= calls[from].now + FAILURE_WINDOW
    requires forall k :: from <= k < n ==> !(calls[k].op.Succeeded? && calls[k].client == c)
    ensures ChargedAt(states, calls, from, c, n, Admitted(states, calls, from, n, c))
  {
    var holds := (i: nat, k: nat) => ChargedAt(states, calls, from, c, i, k);
    forall i: nat, k: nat | from <= i < n && holds(i, k)
      ensures holds(i + 1, k + (if AdmittedAt(states, calls, i, c) then 1 else 0))
    {
      assert calls[i].now <= calls[n - 1].now;
      ChargedNext(states, calls, from, c, i, k);
    }
    HoldsOfAdmitted(holds, states, calls, from, n, c);
    assert holds(n, Admitted(states, calls, from, n, c));
  }

  // Whatever everybody calls and from whatever entries, a client that has not
  // got in is admitted at most fourteen times in any fifteen minutes.
  lemma AtMostFourteen(states: seq<Entries>, calls: seq<Call>, from: nat, n: nat, c: Client)
    requires IsRun(states, calls) && Ordered(calls) && from < n <= |calls|
    requires calls[n - 1].now - calls[from].now <= FAILURE_WINDOW
    requires forall k :: from <= k < n ==> !(calls[k].op.Succeeded? && calls[k].client == c)
    ensures Admitted(states, calls, from, n, c) <= 14
  {
    ChargedAfter(states, calls, from, n, c);
    var k := Admitted(states, calls, from, n, c);
    if k >= 15 {
      MinSpanMonotone(15, k);
      SpanOfFourteenAndFifteen();
    }
  }

  // A client that waits exactly as long as it is told.
  function Patient(c: Client, k: nat): seq<Call> {
    seq(k, i requires 0 <= i => Call(Begin, c, MinSpan(i + 1)))
  }

  function PatientStates(c: Client, k: nat): seq<Entries> {
    seq(k + 1, i requires 0 <= i => PatientEntries(c, i))
  }

  lemma PatientRuns(c: Client, k: nat)
    ensures IsRun(PatientStates(c, k), Patient(c, k))
  {
    var states, calls := PatientStates(c, k), Patient(c, k);
    forall i | 0 <= i < k
      ensures states[i + 1] == Next(states[i], calls[i])
    {
      PatientStep(c, i + 1);
    }
  }

  lemma {:induction false} PatientIsAdmitted(c: Client, k: nat, n: nat)
    requires n <= k
    ensures Admitted(PatientStates(c, k), Patient(c, k), 0, n, c) == n
  {
    if n > 0 {
      PatientIsAdmitted(c, k, n - 1);
      PatientStep(c, n);
      assert AdmittedAt(PatientStates(c, k), Patient(c, k), n - 1, c);
    }
  }

  function PatientEntries(c: Client, n: nat): Entries {
    if n == 0 then map[] else map[c := Attempts(n, MinSpan(n))]
  }

  lemma PatientStep(c: Client, n: nat)
    requires n > 0
    ensures Admits(PatientEntries(c, n - 1), Call(Begin, c, MinSpan(n)))
    ensures Next(PatientEntries(c, n - 1), Call(Begin, c, MinSpan(n))) == PatientEntries(c, n)
  {
    var es := PatientEntries(c, n - 1);
    if n > 1 {
      GapMonotone(n - 1, n - 1);
      assert MinSpan(n) - es[c].last == GapAfter(n - 1);
    }
    assert Waited(es, c, MinSpan(n)) == es;
    assert es[c := Attempts(n, MinSpan(n))] == PatientEntries(c, n);
    assert |PatientEntries(c, n)| == 1;
  }

  lemma PatientIsOrdered(c: Client, k: nat)
    ensures Ordered(Patient(c, k))
  {
    var calls := Patient(c, k);
    forall i, j | 0 <= i <= j < |calls| ensures calls[i].now <= calls[j].now {
      MinSpanMonotone(i + 1, j + 1);
    }
  }

  // A run from no entries within fifteen minutes.
  ghost predicate WithinTheWindow(states: seq<Entries>, calls: seq<Call>) {
    && IsRun(states, calls) && states[0] == map[]
    && |calls| > 0 && Ordered(calls) && calls[|calls| - 1].now - calls[0].now <= FAILURE_WINDOW
  }

  lemma PatientFitsTheWindow(c: Client, k: nat)
    requires k == 14
    ensures WithinTheWindow(PatientStates(c, k), Patient(c, k))
  {
    PatientRuns(c, k);
    PatientIsOrdered(c, k);
    SpanOfFourteenAndFifteen();
  }

  // Fourteen is reached: the bound is exact.
  lemma FourteenIsReached(c: Client)
    ensures exists states, calls :: WithinTheWindow(states, calls) && Admitted(states, calls, 0, |calls|, c) == 14
  {
    var k: nat :| k == 14;
    var states, calls := PatientStates(c, k), Patient(c, k);
    PatientFitsTheWindow(c, k);
    PatientIsAdmitted(c, k, k);
  }

  // ---------------------------------------------------------------------------
  // one client on its own
  // ---------------------------------------------------------------------------

  // An entry, unless it has expired.
  function Alive(a: Option<Attempts>, now: int): Option<Attempts> {
    if a.Some? && Expired(a.value, now) then None else a
  }

  // What one client's calls alone come to: no other client, no sweeping.
  function OwnNext(a: Option<Attempts>, c: Call): Option<Attempts> {
    match c.op
    case Begin =>
      if WaitOf(a, c.now) > 0 then a
      else
        var live := Alive(a, c.now);
        Some(Attempts((if live.Some? then live.value.failures else 0) + 1, c.now))
    case Wait => a
    case Failed => if a.Some? then Some(a.value.(last := c.now)) else None
    case Succeeded => None
  }

  function OwnAfter(a: Option<Attempts>, calls: seq<Call>, n: nat, c: Client): Option<Attempts>
    requires n <= |calls|
  {
    if n == 0 then a
    else
      var b := OwnAfter(a, calls, n - 1, c);
      if calls[n - 1].client == c then OwnNext(b, calls[n - 1]) else b
  }

  // A wrong password reported more than fifteen minutes after the client's last attempt.
  predicate LateFailure(a: Option<Attempts>, call: Call) {
    call.op.Failed? && a.Some? && Expired(a.value, call.now)
  }

  ghost predicate NoLateFailure(a: Option<Attempts>, calls: seq<Call>, n: nat, c: Client)
    requires n <= |calls|
  {
    forall k :: 0 <= k < n && calls[k].client == c ==> !LateFailure(OwnAfter(a, calls, k, c), calls[k])
  }

  // The table holds the client's own state, or has dropped it once it expired.
  predicate Agree(es: Entries, a: Option<Attempts>, c: Client, now: int) {
    Entry(es, c) == a || (Entry(es, c).None? && Alive(a, now).None?)
  }

  // Another client's call leaves an entry alone, unless it has expired.
  lemma OthersLeaveEntry(es: Entries, call: Call, c: Client)
    requires call.client != c
    ensures var e, e' := Entry(es, c), Entry(Next(es, call), c);
            e' == e || (e'.None? && e.Some? && Expired(e.value, call.now))
  {
  }

  // The client's own call does to its entry what it does alone.
  lemma OwnStep(es: Entries, call: Call)
    ensures var e, e' := Entry(es, call.client), Entry(Next(es, call), call.client);
            e' == OwnNext(e, call) || (e'.None? && call.op.Wait? && e.Some? && Expired(e.value, call.now))
  {
  }

  lemma AgreeStep(es: Entries, a: Option<Attempts>, call: Call, c: Client, since: int)
    requires Agree(es, a, c, since) && since <= call.now
    requires call.client == c ==> !LateFailure(a, call)
    ensures Agree(Next(es, call), if call.client == c then OwnNext(a, call) else a, c, call.now)
  {
    if call.client == c {
      OwnStep(es, call);
    } else {
      OthersLeaveEntry(es, call, c);
    }
  }

  lemma {:induction false} AgreeAfter(es: Entries, calls: seq<Call>, n: nat, c: Client, start: int)
    requires Ordered(calls) && n <= |calls| && (|calls| > 0 ==> start <= calls[0].now)
    requires NoLateFailure(Entry(es, c), calls, n, c)
    ensures Agree(After(es, calls, n), OwnAfter(Entry(es, c), calls, n, c), c, if n == 0 then start else calls[n - 1].now)
  {
    if n > 0 {
      AgreeAfter(es, calls, n - 1, c, start);
      AgreeStep(After(es, calls, n - 1), OwnAfter(Entry(es, c), calls, n - 1, c), calls[n - 1], c,
                if n == 1 then start else calls[n - 2].now);
    }
  }

  // What a client is told depends on its own calls alone: no other client can
  // make it wait, and sweeping is never seen.
  lemma OnlyOwnCallsCount(es: Entries, calls: seq<Call>, k: nat, c: Client)
    requires Ordered(calls) && k < |calls| && calls[k].client == c
    requires NoLateFailure(Entry(es, c), calls, k, c)
    ensures TimeToWait(After(es, calls, k), c, calls[k].now) == WaitOf(OwnAfter(Entry(es, c), calls, k, c), calls[k].now)
  {
    AgreeAfter(es, calls, k, c, calls[0].now);
  }

  // ---------------------------------------------------------------------------
  // when sweeping is seen
  // ---------------------------------------------------------------------------

  ghost predicate SameAnswers(es: Entries, es': Entries, later: seq<Call>) {
    forall k :: 0 <= k < |later| ==> Answer(After(es, later, k), later[k]) == Answer(After(es', later, k), later[k])
  }

  function Begins(c: Client, now: int): seq<Call> {
    seq(5, i => Call(Begin, c, now))
  }

  // Five attempts at once: all of a fresh client's are admitted.
  lemma {:induction false} FiveBegins(es: Entries, c: Client, now: int, k: nat)
    requires k <= 4 && c !in es
    ensures Entry(After(es, Begins(c, now), k), c) == if k == 0 then None else Some(Attempts(k, now))
  {
    if k > 0 {
      FiveBegins(es, c, now, k - 1);
      assert Begins(c, now)[k - 1] == Call(Begin, c, now);
      OwnStep(After(es, Begins(c, now), k - 1), Call(Begin, c, now));
    }
  }

  // Whether an expired entry was swept before a call is seen by some later call
  // exactly when the call reports a wrong password.
  lemma SweepSeenIff(es: Entries, call: Call)
    requires call.client in es && Expired(es[call.client], call.now) && es[call.client].failures >= 1
    ensures var swept := es - {call.client};
            (forall later :: SameAnswers(Next(es, call), Next(swept, call), later)) <==> !call.op.Failed?
  {
    var c := call.client;
    var swept := es - {c};
    if call.op.Failed? {
      var kept, gone := Next(es, call), Next(swept, call);
      var later := Begins(c, call.now);
      assert later[4] == Call(Begin, c, call.now);
      FiveBegins(gone, c, call.now, 4);
      assert Answer(After(gone, later, 4), later[4]) == Some(0);
      LastOfFiveRefused(kept, c, call.now);
      assert !SameAnswers(kept, gone, later);
    } else {
      assert Next(es, call) == Next(swept, call);
    }
  }

  lemma LastOfFiveRefused(es: Entries, c: Client, now: int)
    requires c in es && es[c].last == now && es[c].failures >= 1
    ensures TimeToWait(After(es, Begins(c, now), 4), c, now) > 0
  {
    StillCharged(es, c, now, 4);
    GapMonotone(FREE_ATTEMPTS, After(es, Begins(c, now), 4)[c].failures);
    Delays(0);
  }

  lemma {:induction false} StillCharged(es: Entries, c: Client, now: int, k: nat)
    requires c in es && es[c].last == now && es[c].failures >= 1 && k <= 4
    ensures var e := After(es, Begins(c, now), k);
            c in e && e[c].last == now && e[c].failures >= Min(1 + k, FREE_ATTEMPTS)
  {
    if k > 0 {
      StillCharged(es, c, now, k - 1);
      assert Begins(c, now)[k - 1] == Call(Begin, c, now);
    }
  }

  // ---------------------------------------------------------------------------
  // each call on its own
  // ---------------------------------------------------------------------------

  // Two seconds, four, eight and on, up to five minutes.
  function DelayAfter(failures: nat): int {
    if failures >= 13 then 300_000_000_000
    else if failures == 5 then 2_000_000_000
    else if failures < 5 then 0
    else 2 * DelayAfter(failures - 1)
  }

  lemma {:induction false} DelayAfterIs(failures: nat)
    requires failures >= 5
    ensures DelayAfter(failures) == DelayFor(failures)
  {
    Powers(2 * SECOND);
    if 5 < failures < 13 {
      DelayAfterIs(failures - 1);
    }
    if failures >= 13 {
      Delays(failures - 5);
    } else {
      Delays(failures - 5);
    }
  }

  // An entry counts for fifteen minutes after its last attempt.
  predicate Remembered(es: Entries, c: Client, now: int) {
    c in es && now - es[c].last <= 900_000_000_000
  }

  lemma TimeToWaitIs(es: Entries, c: Client, now: int)
    ensures TimeToWait(es, c, now) ==
            if !Remembered(es, c, now) || es[c].failures < 5 then 0
            else Max(DelayAfter(es[c].failures) - (now - es[c].last), 0)
  {
    if c in es && es[c].failures >= 5 {
      DelayAfterIs(es[c].failures);
    }
  }

  // An admitted attempt counts one more, or the first after fifteen minutes; one
  // that is not admitted counts for nothing.
  lemma BeginLeavesItsOwn(es: Entries, c: Client, now: int)
    ensures Entry(Next(es, Call(Begin, c, now)), c) ==
            if TimeToWait(es, c, now) > 0 then Entry(es, c)
            else Some(Attempts((if Remembered(es, c, now) then es[c].failures else 0) + 1, now))
  {
    OwnStep(es, Call(Begin, c, now));
  }

  lemma SweptLeaves(es: Entries, now: int, d: Client)
    ensures Entry(Swept(es, now), d) == if |es.Keys| >= 1024 && !Remembered(es, d, now) then None else Entry(es, d)
  {
    assert |es| == |es.Keys|;
  }

  lemma RecordedLeaves(es: Entries, c: Client, now: int, d: Client)
    requires d != c
    ensures Entry(Recorded(es, c, now), d) == if |es.Keys + {c}| >= 1024 && !Remembered(es, d, now) then None else Entry(es, d)
  {
    var n := if c in es && !Expired(es[c], now) then es[c].failures else 0;
    var counted := es[c := Attempts(n + 1, now)];
    SweptLeaves(counted, now, d);
    assert counted.Keys == es.Keys + {c};
  }

  lemma AskedLeaves(es: Entries, c: Client, now: int, d: Client)
    requires d != c
    ensures Entry(Waited(es, c, now), d) == Entry(es, d) && (Remembered(Waited(es, c, now), d, now) <==> Remembered(es, d, now))
    ensures Waited(es, c, now).Keys + {c} == es.Keys + {c}
  {
  }

  // Nobody else's entry is touched, unless there are many and it has expired.
  lemma BeginLeavesOthers(es: Entries, c: Client, now: int, d: Client)
    requires d != c
    ensures Entry(Next(es, Call(Begin, c, now)), d) ==
            if TimeToWait(es, c, now) == 0 && |es.Keys + {c}| >= 1024 && !Remembered(es, d, now) then None else Entry(es, d)
  {
    var asked := Waited(es, c, now);
    AskedLeaves(es, c, now, d);
    RecordedLeaves(asked, c, now, d);
    assert Next(es, Call(Begin, c, now)) == if TimeToWait(es, c, now) == 0 then Recorded(asked, c, now) else asked;
  }

  // Asking forgets an expired entry of the client's own, a wrong password moves its
  // last attempt, and the right one forgets it. None of them touches another's.
  lemma OthersLeave(es: Entries, c: Client, now: int)
    ensures Next(es, Call(Wait, c, now)) == if c in es && !Remembered(es, c, now) then es - {c} else es
    ensures Next(es, Call(Failed, c, now)) == if c in es then es[c := Attempts(es[c].failures, now)] else es
    ensures Next(es, Call(Succeeded, c, now)) == es - {c}
  {
  }

  // Main result: who stops guessing for fifteen minutes, or gets in, starts anew:
  // the next five attempts are admitted at once.
  lemma {:induction false} StartsAnew(es: Entries, c: Client, now: int, k: nat)
    requires !Remembered(es, c, now) && k < 5
    ensures Admits(After(es, Begins(c, now), k), Begins(c, now)[k])
    ensures After(es, Begins(c, now), k + 1)[c] == Attempts(k + 1, now) && c in After(es, Begins(c, now), k + 1)
  {
    if k > 0 {
      StartsAnew(es, c, now, k - 1);
    }
    var before := After(es, Begins(c, now), k);
    assert Begins(c, now)[k] == Call(Begin, c, now);
    TimeToWaitIs(before, c, now);
    BeginLeavesItsOwn(before, c, now);
  }
}
