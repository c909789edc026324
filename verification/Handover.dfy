/**
The updater waits for running turns to end and then hands over to the updater
process. Any number of checks and applies begin activations, each a goroutine
of its own, while turns begin, stop and end and the automatic setting changes.
Every access to shared state is one step.
*/
module Handover {
  import opened RunningTurns

  type ActivationId = nat

  // Where an activation's goroutine is.
  datatype Place =
    | Looking      // about to look at the automatic setting
    | GivingUp     // turned off while waiting
    | Counting     // about to count the running turns
    | Closing      // about to close the register, if it is idle
    | Closed       // closed; about to call start
    | Started      // start has been called and has not returned
    | Reopening    // start failed
    | Clearing     // reopened; about to say that nothing is activating
    | HandedOver   // start succeeded: this copy exits
    | Gone
  {
    predicate HoldsClosed() { Closed? || Started? || Reopening? || HandedOver? }
  }

  datatype Activation = Activation(deliberate: bool, at: Place)

  datatype Updater = Updater(turns: Turns, automatic: bool, activating: bool, all: map<ActivationId, Activation>)

  datatype Step =
    | TurnOp(op: Op)
    | SetAutomatic(on: bool)
    | BeginActivation(a: ActivationId, deliberate: bool)
    | Advance(a: ActivationId)
    | StartReturns(a: ActivationId, ok: bool)

  function Goes(u: Updater, a: ActivationId, at: Place): Updater
    requires a in u.all
  {
    u.(all := u.all[a := u.all[a].(at := at)])
  }

  // The next thing an activation does by itself.
  function Advanced(u: Updater, a: ActivationId): Updater
    requires a in u.all
  {
    match u.all[a].at
    case Looking => Goes(u, a, if !u.all[a].deliberate && !u.automatic then GivingUp else Counting)
    case GivingUp => Goes(u, a, Gone).(activating := false)
    case Counting => Goes(u, a, if |u.turns.cancel| > 0 then Looking else Closing)
    case Closing =>
      if Answer(u.turns, CloseIfIdle) then Goes(u, a, Closed).(turns := Applied(u.turns, CloseIfIdle))
      else Goes(u, a, Looking)
    case Closed => Goes(u, a, Started)
    case Reopening => Goes(u, a, Clearing).(turns := Applied(u.turns, Reopen))
    case Clearing => Goes(u, a, Gone).(activating := false)
    case Started | HandedOver | Gone => u
  }

  function Next(u: Updater, s: Step): Updater {
    match s
    // Only an activation closes or reopens the register.
    case TurnOp(op) => if op.Begin? || op.Stop? || op.End? then u.(turns := Applied(u.turns, op)) else u
    case SetAutomatic(on) => u.(automatic := on)
    case BeginActivation(a, deliberate) =>
      if u.activating || a in u.all then u
      else u.(activating := true, all := u.all[a := Activation(deliberate, Looking)])
    case Advance(a) => if a in u.all then Advanced(u, a) else u
    case StartReturns(a, ok) =>
      if a in u.all && u.all[a].at.Started? then Goes(u, a, if ok then HandedOver else Reopening) else u
  }

  function After(u: Updater, run: seq<Step>, n: nat): Updater
    requires n <= |run|
  {
    if n == 0 then u else Next(After(u, run, n - 1), run[n - 1])
  }

  // ---------------------------------------------------------------------------
  // the invariant
  // ---------------------------------------------------------------------------

  predicate InProgress(u: Updater, a: ActivationId) {
    a in u.all && !u.all[a].at.Gone?
  }

  ghost predicate OneActivation(u: Updater) {
    && (forall a, b :: InProgress(u, a) && InProgress(u, b) ==> a == b)
    && (u.activating <==> exists a :: InProgress(u, a))
  }

  predicate ClosedBy(u: Updater, a: ActivationId) {
    a in u.all && u.all[a].at.HoldsClosed()
  }

  ghost predicate ClosedMeansIdle(u: Updater) {
    && (u.turns.closed <==> exists a :: ClosedBy(u, a))
    && (u.turns.closed ==> u.turns.cancel == map[])
  }

  ghost predicate Inv(u: Updater) {
    OneActivation(u) && ClosedMeansIdle(u)
  }

  // One activation moving on, among the others that stay where they are.
  lemma MoveKeepsInv(u: Updater, v: Updater, a: ActivationId)
    requires Inv(u) && InProgress(u, a) && a in v.all && v.all == u.all[a := v.all[a]]
    requires v.activating == !v.all[a].at.Gone?
    requires v.turns.closed == v.all[a].at.HoldsClosed() && (v.turns.closed ==> v.turns.cancel == map[])
    ensures Inv(v)
  {
    forall b | InProgress(v, b)
      ensures b == a
    {
      assert b != a ==> InProgress(u, b);
    }
    assert v.activating ==> InProgress(v, a);
    assert v.turns.closed ==> ClosedBy(v, a);
    forall b | ClosedBy(v, b)
      ensures b == a
    {
      assert InProgress(v, b);
    }
  }

  lemma ClosedByTheOne(u: Updater, a: ActivationId)
    requires Inv(u) && InProgress(u, a)
    ensures u.activating && (u.turns.closed <==> ClosedBy(u, a))
  {
    forall b | ClosedBy(u, b)
      ensures b == a
    {
      assert InProgress(u, b);
    }
  }

  lemma BeginKeepsInv(u: Updater, a: ActivationId, deliberate: bool)
    requires Inv(u) && !u.activating && a !in u.all
    ensures Inv(Next(u, BeginActivation(a, deliberate)))
  {
    var v := Next(u, BeginActivation(a, deliberate));
    forall b | InProgress(v, b)
      ensures b == a
    {
      assert b != a ==> InProgress(u, b);
    }
    assert InProgress(v, a);
    forall b | ClosedBy(v, b)
      ensures ClosedBy(u, b)
    {
    }
    forall b | ClosedBy(u, b)
      ensures false
    {
      assert InProgress(u, b);
    }
  }

  lemma SharedKeepsInv(u: Updater, v: Updater)
    requires Inv(u) && v.all == u.all && v.activating == u.activating && v.turns.closed == u.turns.closed
    requires u.turns.closed ==> v.turns.cancel == map[]
    ensures Inv(v)
  {
    assert forall a :: InProgress(v, a) == InProgress(u, a) && ClosedBy(v, a) == ClosedBy(u, a);
  }

  lemma StepKeepsInv(u: Updater, s: Step)
    requires Inv(u)
    ensures Inv(Next(u, s))
  {
    match s
    case TurnOp(_) => SharedKeepsInv(u, Next(u, s));
    case SetAutomatic(_) => SharedKeepsInv(u, Next(u, s));
    case BeginActivation(a, deliberate) =>
      if !u.activating && a !in u.all {
        BeginKeepsInv(u, a, deliberate);
      }
    case Advance(a) =>
      if InProgress(u, a) {
        ClosedByTheOne(u, a);
        MoveKeepsInv(u, Next(u, s), a);
      } else if a in u.all {
        assert Next(u, s) == u;
      }
    case StartReturns(a, _) =>
      if a in u.all && u.all[a].at.Started? {
        ClosedByTheOne(u, a);
        MoveKeepsInv(u, Next(u, s), a);
      }
  }

  // A copy that has just started: the register is open and nothing is activating.
  predicate Starting(u: Updater) {
    u.turns.cancel == map[] && !u.turns.closed && !u.activating && u.all == map[]
  }

  lemma {:induction false} RunKeepsInv(u: Updater, run: seq<Step>, n: nat)
    requires Starting(u) && n <= |run|
    ensures Inv(After(u, run, n))
  {
    if n > 0 {
      RunKeepsInv(u, run, n - 1);
      StepKeepsInv(After(u, run, n - 1), run[n - 1]);
    }
  }

  predicate StartIsCalled(u: Updater, s: Step) {
    s.Advance? && s.a in u.all && u.all[s.a].at.Closed?
  }

  ghost predicate IdleAndClosed(t: Turns) {
    t.closed && t.cancel == map[] && forall id, c :: !Answer(t, Begin(id, c))
  }

  // Main result: whenever the updater's start is called, no turn is registered
  // and none can register.
  lemma StartsOnlyWhenIdle(u: Updater, run: seq<Step>, n: nat)
    requires Starting(u) && n < |run| && StartIsCalled(After(u, run, n), run[n])
    ensures IdleAndClosed(After(u, run, n).turns)
  {
    RunKeepsInv(u, run, n);
    assert ClosedBy(After(u, run, n), run[n].a);
  }

  // Main result: at any moment at most one activation is in progress, and the
  // register is closed exactly while one holds it so.
  lemma ClosedOnlyDuringAnActivation(u: Updater, run: seq<Step>, n: nat)
    requires Starting(u) && n <= |run|
    ensures
      var v := After(u, run, n);
      && (forall a, b :: InProgress(v, a) && InProgress(v, b) ==> a == b)
      && (v.turns.closed <==> exists a :: ClosedBy(v, a))
      && (v.turns.closed ==> v.activating && v.turns.cancel == map[])
  {
    RunKeepsInv(u, run, n);
    var v := After(u, run, n);
    if v.turns.closed {
      var a :| ClosedBy(v, a);
      assert InProgress(v, a);
    }
  }

  predicate Reopens(u: Updater, s: Step, a: ActivationId) {
    s == Advance(a) && a in u.all && u.all[a].at.Reopening?
  }

  predicate HasHandedOver(u: Updater, a: ActivationId) {
    a in u.all && u.all[a].at.HandedOver?
  }

  lemma OnlyItsOwnReopenOpens(u: Updater, s: Step, a: ActivationId)
    requires ClosedBy(u, a)
    ensures !Reopens(u, s, a) ==> ClosedBy(Next(u, s), a)
    ensures HasHandedOver(u, a) ==> HasHandedOver(Next(u, s), a)
  {
  }

  // Main result: from the close until that activation reopens the register, and
  // for good once it has handed over, nothing runs whatever else happens.
  lemma {:induction false} NothingRunsUntilReopened(u: Updater, run: seq<Step>, a: ActivationId, i: nat, j: nat)
    requires Starting(u) && i <= j <= |run| && ClosedBy(After(u, run, i), a)
    requires forall k :: i <= k < j ==> !Reopens(After(u, run, k), run[k], a)
    ensures ClosedBy(After(u, run, j), a) && IdleAndClosed(After(u, run, j).turns)
    decreases j
  {
    RunKeepsInv(u, run, j);
    if j > i {
      NothingRunsUntilReopened(u, run, a, i, j - 1);
      OnlyItsOwnReopenOpens(After(u, run, j - 1), run[j - 1], a);
    }
  }

  lemma {:induction false} HandedOverForGood(u: Updater, run: seq<Step>, a: ActivationId, i: nat, j: nat)
    requires Starting(u) && i <= j <= |run| && HasHandedOver(After(u, run, i), a)
    ensures HasHandedOver(After(u, run, j), a) && IdleAndClosed(After(u, run, j).turns)
    decreases j
  {
    RunKeepsInv(u, run, j);
    if j > i {
      HandedOverForGood(u, run, a, i, j - 1);
      OnlyItsOwnReopenOpens(After(u, run, j - 1), run[j - 1], a);
    }
    assert ClosedBy(After(u, run, j), a);
  }

  predicate NotClosing(u: Updater, a: ActivationId) {
    a in u.all && !u.all[a].deliberate && (u.all[a].at.Looking? || u.all[a].at.GivingUp? || u.all[a].at.Gone?)
  }

  // Turned off while it waits, an automatic activation gives up: as long as the
  // setting stays off it never closes the register, let alone hands over.
  lemma {:induction false} OffMeansItNeverCloses(u: Updater, run: seq<Step>, a: ActivationId, i: nat, j: nat)
    requires i <= j <= |run| && NotClosing(After(u, run, i), a)
    requires forall k :: i <= k < j ==> !After(u, run, k).automatic
    ensures NotClosing(After(u, run, j), a) && !ClosedBy(After(u, run, j), a)
    decreases j
  {
    if j > i {
      OffMeansItNeverCloses(u, run, a, i, j - 1);
      OffStep(After(u, run, j - 1), run[j - 1], a);
    }
  }

  lemma OffStep(u: Updater, s: Step, a: ActivationId)
    requires NotClosing(u, a) && !u.automatic
    ensures NotClosing(Next(u, s), a)
  {
  }

  // ---------------------------------------------------------------------------
  // what an activation does when nothing comes between
  // ---------------------------------------------------------------------------

  lemma StepAt(u: Updater, run: seq<Step>, n: nat)
    requires n < |run|
    ensures After(u, run, n + 1) == Next(After(u, run, n), run[n])
  {
  }

  predicate WantsToGoOn(u: Updater, a: ActivationId) {
    a in u.all && (u.all[a].deliberate || u.automatic)
  }

  // One look at the setting and the register: an automatic activation that has been
  // turned off gives up and makes way for another, and one that finds a turn
  // running looks again.
  lemma LooksAgainUntilIdle(u: Updater, a: ActivationId)
    requires a in u.all && u.all[a].at.Looking? && (WantsToGoOn(u, a) ==> u.turns.cancel != map[])
    ensures After(u, [Advance(a), Advance(a)], 2) == if WantsToGoOn(u, a) then u else Goes(u, a, Gone).(activating := false)
  {
    var run := [Advance(a), Advance(a)];
    StepAt(u, run, 0);
    assert After(u, run, 1) == Goes(u, a, if WantsToGoOn(u, a) then Counting else GivingUp);
    StepAt(u, run, 1);
    assert u.turns.cancel != map[] ==> |u.turns.cancel| > 0;
  }

  // One that finds none closes the register and calls start.
  lemma StartsWhenIdle(u: Updater, a: ActivationId)
    requires a in u.all && u.all[a].at.Looking? && WantsToGoOn(u, a) && u.turns.cancel == map[]
    ensures
      var run := [Advance(a), Advance(a), Advance(a), Advance(a)];
      && StartIsCalled(After(u, run, 3), run[3])
      && After(u, run, 4) == Goes(u, a, Started).(turns := u.turns.(closed := true))
  {
    var run := [Advance(a), Advance(a), Advance(a), Advance(a)];
    StepAt(u, run, 0);
    assert After(u, run, 1) == Goes(u, a, Counting);
    StepAt(u, run, 1);
    assert After(u, run, 2) == Goes(u, a, Closing);
    StepAt(u, run, 2);
    assert After(u, run, 3) == Goes(u, a, Closed).(turns := u.turns.(closed := true));
    StepAt(u, run, 3);
  }

  // A turn that begins between the count and the close sends it back to look again.
  lemma TurnInBetweenIsLetRun(u: Updater, a: ActivationId, id: TurnId, c: Cancel)
    requires a in u.all && u.all[a].at.Closing? && !u.turns.closed && id !in u.turns.asked
    ensures
      var e := After(u, [TurnOp(Begin(id, c)), Advance(a)], 2);
      e == Goes(u, a, Looking).(turns := u.turns.(cancel := u.turns.cancel[id := c]))
  {
    var run := [TurnOp(Begin(id, c)), Advance(a)];
    StepAt(u, run, 0);
    StepAt(u, run, 1);
    assert id in u.turns.cancel[id := c];
  }

  // Start succeeds and the copy hands over, with nothing more to do.
  lemma HandsOverWhenStartSucceeds(u: Updater, a: ActivationId)
    requires a in u.all && u.all[a].at.Started?
    ensures After(u, [StartReturns(a, true), Advance(a)], 2) == Goes(u, a, HandedOver)
  {
    var run := [StartReturns(a, true), Advance(a)];
    StepAt(u, run, 0);
    assert After(u, run, 1) == Goes(u, a, HandedOver);
    StepAt(u, run, 1);
  }

  lemma ReopensAndClears(u: Updater, a: ActivationId)
    requires a in u.all && u.all[a].at.Reopening?
    ensures Next(Next(u, Advance(a)), Advance(a)) == Goes(u, a, Gone).(turns := u.turns.(closed := false), activating := false)
  {
    assert Next(u, Advance(a)) == Goes(u, a, Clearing).(turns := u.turns.(closed := false));
  }

  // Or it fails, the register is opened again and another activation may begin.
  lemma ReopensWhenStartFails(u: Updater, a: ActivationId)
    requires a in u.all && u.all[a].at.Started?
    ensures After(u, [StartReturns(a, false), Advance(a), Advance(a)], 3) ==
            Goes(u, a, Gone).(turns := u.turns.(closed := false), activating := false)
  {
    var run := [StartReturns(a, false), Advance(a), Advance(a)];
    StepAt(u, run, 0);
    StepAt(u, run, 1);
    StepAt(u, run, 2);
    var v := Goes(u, a, Reopening);
    assert Next(u, run[0]) == v;
    ReopensAndClears(v, a);
    assert Goes(v, a, Gone) == Goes(u, a, Gone);
  }

  // An activation begins exactly when none is under way, and looks first.
  lemma BeginsUnlessOneIsUnderWay(u: Updater, a: ActivationId, deliberate: bool)
    requires Inv(u) && a !in u.all
    ensures
      var e := Next(u, BeginActivation(a, deliberate));
      if exists b :: InProgress(u, b) then e == u
      else e == u.(activating := true, all := u.all[a := Activation(deliberate, Looking)])
  {
  }

  // Turns and the setting change as they are told to whatever the activations do.
  lemma OthersAreNotHeldUp(u: Updater, id: TurnId, c: Cancel, on: bool)
    ensures Next(u, TurnOp(Begin(id, c))) == u.(turns := Applied(u.turns, Begin(id, c)))
    ensures Next(u, TurnOp(Stop(id))) == u.(turns := Applied(u.turns, Stop(id)))
    ensures Next(u, TurnOp(End(id))) == u.(turns := Applied(u.turns, End(id)))
    ensures Next(u, SetAutomatic(on)) == u.(automatic := on)
  {
  }
}
