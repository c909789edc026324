/**
Which turns the daemon is running. A stop may arrive before the start it names,
so it is remembered; an update closes the register, but only while it is empty.
*/
module RunningTurns {
  import opened Common

  type TurnId = string
  type Cancel = nat // one turn's cancel function

  datatype Turns = Turns(cancel: map<TurnId, Cancel>, asked: set<TurnId>, closed: bool)

  datatype Op =
    | Begin(id: TurnId, c: Cancel)
    | Stop(id: TurnId)
    | End(id: TurnId)
    | CloseIfIdle
    | Reopen

  function Applied(t: Turns, op: Op): Turns {
    match op
    case Begin(id, c) =>
      if t.closed || id in t.asked then t.(asked := t.asked - {id}) else t.(cancel := t.cancel[id := c])
    case Stop(id) => t.(asked := t.asked + {id})
    case End(id) => t.(cancel := t.cancel - {id}, asked := t.asked - {id})
    case CloseIfIdle => if |t.cancel| > 0 then t else t.(closed := true)
    case Reopen => t.(closed := false)
  }

  // What the call answers.
  predicate Answer(t: Turns, op: Op) {
    match op
    case Begin(id, _) => !t.closed && id !in t.asked
    case Stop(id) => id in t.cancel
    case End(id) => id in t.asked
    case CloseIfIdle => |t.cancel| == 0
    case Reopen => true
  }

  class RunningTurns {
    var cancel: map<TurnId, Cancel>
    var asked: set<TurnId>
    var closed: bool

    ghost function State(): Turns
      reads this
    {
      Turns(cancel, asked, closed)
    }

    constructor ()
      ensures State() == Turns(map[], {}, false)
    {
      cancel, asked, closed := map[], {}, false;
    }

    method Count() returns (n: nat)
      ensures n == |State().cancel.Keys|
    {
      n := |cancel.Keys|;
    }

    method TryClose() returns (ok: bool)
      modifies this
      ensures State() == Applied(old(State()), CloseIfIdle) && ok == Answer(old(State()), CloseIfIdle)
    {
      if |cancel| > 0 {
        return false;
      }
      closed := true;
      return true;
    }

    method Undo()
      modifies this
      ensures State() == Applied(old(State()), Reopen)
    {
      closed := false;
    }

    method Begin(id: TurnId, c: Cancel) returns (ok: bool)
      modifies this
      ensures State() == Applied(old(State()), Op.Begin(id, c)) && ok == Answer(old(State()), Op.Begin(id, c))
    {
      if closed {
        asked := asked - {id};
        return false;
      }
      if id in asked {
        asked := asked - {id};
        return false;
      }
      cancel := cancel[id := c];
      return true;
    }

    // Returns the cancel function to call once the lock is released.
    method Stop(id: TurnId) returns (running: bool, call: Option<Cancel>)
      modifies this
      ensures State() == Applied(old(State()), Op.Stop(id)) && running == Answer(old(State()), Op.Stop(id))
      ensures call == if id in old(cancel) then Some(old(cancel)[id]) else None
    {
      running := id in cancel;
      call := if running then Some(cancel[id]) else None;
      asked := asked + {id};
    }

    method End(id: TurnId) returns (wasAsked: bool)
      modifies this
      ensures State() == Applied(old(State()), Op.End(id)) && wasAsked == Answer(old(State()), Op.End(id))
    {
      wasAsked := id in asked;
      cancel := cancel - {id};
      asked := asked - {id};
    }

    // Whichever call another goroutine makes.
    method Do(op: Op) returns (answer: bool)
      modifies this
      ensures State() == Applied(old(State()), op) && answer == Answer(old(State()), op)
    {
      match op
      case Begin(id, c) => answer := Begin(id, c);
      case Stop(id) => var running, _ := Stop(id); answer := running;
      case End(id) => answer := End(id);
      case CloseIfIdle => answer := TryClose();
      case Reopen => Undo(); answer := true;
    }

    // Every running turn's cancel function, and nothing is marked as asked.
    method CancelAll() returns (calls: seq<Cancel>)
      ensures |calls| == |cancel.Keys|
      ensures forall id :: id in cancel ==> cancel[id] in calls
      ensures forall c :: c in calls ==> exists id :: id in cancel && cancel[id] == c
    {
      calls := [];
      var left := cancel.Keys;
      while left != {}
        invariant left <= cancel.Keys && |calls| + |left| == |cancel.Keys|
        invariant forall id :: id in cancel.Keys - left ==> cancel[id] in calls
        invariant forall c :: c in calls ==> exists id :: id in cancel && cancel[id] == c
        decreases left
      {
        var id :| id in left;
        calls := calls + [cancel[id]];
        left := left - {id};
      }
    }
  }

  // ---------------------------------------------------------------------------
  // runs
  // ---------------------------------------------------------------------------

  function After(t: Turns, ops: seq<Op>, n: nat): Turns
    requires n <= |ops|
  {
    if n == 0 then t else Applied(After(t, ops, n - 1), ops[n - 1])
  }

  predicate Answered(t: Turns, ops: seq<Op>, i: nat)
    requires i < |ops|
  {
    Answer(After(t, ops, i), ops[i])
  }

  // Between two calls this turn is neither started nor ended.
  predicate OnlyStops(ops: seq<Op>, id: TurnId, i: nat, j: nat)
    requires i <= j <= |ops|
  {
    forall k :: i <= k < j ==> StopsOrIsElsewhere(ops[k], id)
  }

  predicate StopsOrIsElsewhere(op: Op, id: TurnId) {
    op == Op.Stop(id) || op.CloseIfIdle? || op.Reopen? || op.id != id
  }

  predicate Stopped(ops: seq<Op>, id: TurnId, i: nat, j: nat)
    requires i <= j <= |ops|
  {
    exists k :: i <= k < j && ops[k] == Op.Stop(id)
  }

  lemma StoppedOneMore(ops: seq<Op>, id: TurnId, i: nat, j: nat)
    requires i < j <= |ops|
    ensures Stopped(ops, id, i, j) <==> Stopped(ops, id, i, j - 1) || ops[j - 1] == Op.Stop(id)
  {
  }

  // What a run up to some point means for one turn.
  datatype Entry = Entry(cancel: Option<Cancel>, asked: bool)

  function Of(t: Turns, id: TurnId): Entry {
    Entry(if id in t.cancel then Some(t.cancel[id]) else None, id in t.asked)
  }

  lemma OneStep(t: Turns, op: Op, id: TurnId)
    requires StopsOrIsElsewhere(op, id)
    ensures Of(Applied(t, op), id) == Entry(Of(t, id).cancel, Of(t, id).asked || op == Op.Stop(id))
  {
  }

  lemma {:induction false} AskedSince(t: Turns, ops: seq<Op>, id: TurnId, i: nat, j: nat)
    requires i <= j <= |ops| && id !in After(t, ops, i).asked && OnlyStops(ops, id, i, j)
    ensures Of(After(t, ops, j), id) == Entry(Of(After(t, ops, i), id).cancel, Stopped(ops, id, i, j))
  {
    if j > i {
      AskedSince(t, ops, id, i, j - 1);
      StoppedOneMore(ops, id, i, j);
      OneStep(After(t, ops, j - 1), ops[j - 1], id);
    }
  }

  // Main result: a turn that did start stays registered until its end, and its
  // end reports a stop exactly when one was applied meanwhile.
  lemma EndReportsStopIff(t: Turns, ops: seq<Op>, id: TurnId, i: nat, j: nat)
    requires i < j < |ops| && ops[i].Begin? && ops[i].id == id && Answered(t, ops, i)
    requires OnlyStops(ops, id, i + 1, j) && ops[j] == Op.End(id)
    ensures id in After(t, ops, j).cancel && After(t, ops, j).cancel[id] == ops[i].c
    ensures Answered(t, ops, j) <==> Stopped(ops, id, i + 1, j)
    ensures id !in After(t, ops, j + 1).cancel && id !in After(t, ops, j + 1).asked
  {
    AskedSince(t, ops, id, i + 1, j);
  }

  // A stop that overtook its start refuses that start, once.
  lemma StopOvertakesStart(t: Turns, ops: seq<Op>, id: TurnId, i: nat, j: nat)
    requires i <= j < |ops| && id !in After(t, ops, i).asked && ops[j].Begin? && ops[j].id == id
    requires OnlyStops(ops, id, i, j)
    ensures Answered(t, ops, j) <==> !After(t, ops, j).closed && !Stopped(ops, id, i, j)
    ensures id !in After(t, ops, j + 1).asked
  {
    AskedSince(t, ops, id, i, j);
  }
}
