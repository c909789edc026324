/**
One turn, as the daemon runs it: the checks before it, its registration, the
agent's output drained into messages and the record, and the one message that
ends it. Stops, other turns and the updater use the register at the same time;
what they do between two of this turn's own calls is part of its script.
*/
module TurnLifecycle {
  import opened RunningTurns
  import Splitter
  import ExchangeRecord

  datatype Message =
    | RecordSent
    | RecordBatch(batch: ExchangeRecord.Batch)
    | RecordContext
    | Started
    | Delta
    | Limit
    | Done
    | Failed
    | SaysStopped
  {
    predicate Ends() { Done? || Failed? || SaysStopped? }
  }

  // What reaches the draining loop.
  datatype Event =
    | AgentLine(line: Splitter.Line)
    | AgentStarted
    | AgentDelta
    | AgentLimit
    | FlushTick
    | WentQuiet

  datatype Script = Script(
    filesReady: bool,
    hasBackend: bool,
    folderUsable: bool,
    launches: bool,
    events: seq<Event>,
    resultFails: bool,
    // what others do with the register meanwhile
    before: seq<Op>,  // until this turn begins
    refused: seq<Op>, // from a refused begin until it looks why
    running: seq<Op>  // from its begin to its end
  )

  // A turn id is started once, and only its own run ends it.
  predicate OthersLeaveItAlone(s: Script, id: TurnId) {
    && OnlyStops(s.before, id, 0, |s.before|)
    && OnlyStops(s.refused, id, 0, |s.refused|)
    && OnlyStops(s.running, id, 0, |s.running|)
  }

  predicate NoEnding(out: seq<Message>) {
    forall i :: 0 <= i < |out| ==> !out[i].Ends()
  }

  // Exactly one message ends the turn, and it is the last.
  predicate EndsOnce(out: seq<Message>) {
    |out| > 0 && out[|out| - 1].Ends() && NoEnding(out[..|out| - 1])
  }

  function Batches(out: seq<Message>, n: nat): seq<ExchangeRecord.Batch>
    requires n <= |out|
  {
    if n == 0 then []
    else if out[n - 1].RecordBatch? then Batches(out, n - 1) + [out[n - 1].batch]
    else Batches(out, n - 1)
  }

  // The other messages.
  function Plain(out: seq<Message>, n: nat): seq<Message>
    requires n <= |out|
  {
    if n == 0 then []
    else if out[n - 1].RecordBatch? then Plain(out, n - 1)
    else Plain(out, n - 1) + [out[n - 1]]
  }

  lemma {:induction false} BatchesPrefix(out: seq<Message>, m: Message, n: nat)
    requires n <= |out|
    ensures Batches(out + [m], n) == Batches(out, n) && Plain(out + [m], n) == Plain(out, n)
  {
    if n > 0 {
      BatchesPrefix(out, m, n - 1);
    }
  }

  function LinesIn(events: seq<Event>, n: nat): seq<Splitter.Line>
    requires n <= |events|
  {
    if n == 0 then []
    else if events[n - 1].AgentLine? then LinesIn(events, n - 1) + [events[n - 1].line]
    else LinesIn(events, n - 1)
  }

  // What the agent reports as it goes, in order.
  function Reports(events: seq<Event>, n: nat): seq<Message>
    requires n <= |events|
  {
    if n == 0 then []
    else
      match events[n - 1]
      case AgentStarted => Reports(events, n - 1) + [Started]
      case AgentDelta => Reports(events, n - 1) + [Delta]
      case AgentLimit => Reports(events, n - 1) + [Limit]
      case _ => Reports(events, n - 1)
  }

  lemma OneMoreReport(before: seq<Message>, events: seq<Event>, i: nat)
    requires i < |events|
    ensures before + Reports(events, i + 1) == before + Reports(events, i) + Reports(events[i..i + 1], 1)
  {
    assert events[i..i + 1] == [events[i]];
    assert Reports([events[i]], 0) == [];
    assert Reports(events, i + 1) == Reports(events, i) + Reports([events[i]], 1);
  }

  // Every line the agent prints reaches the record, and every report the server, in
  // the order of the events, and nothing else does.
  lemma {:induction false} NothingGoesUnsaid(events: seq<Event>, n: nat, i: nat)
    requires i < n <= |events|
    ensures LinesIn(events, i) <= LinesIn(events, i + 1) <= LinesIn(events, n)
    ensures LinesIn(events, i + 1)[|LinesIn(events, i)|..] == if events[i].AgentLine? then [events[i].line] else []
    ensures Reports(events, i) <= Reports(events, i + 1) <= Reports(events, n)
    ensures Reports(events, i + 1)[|Reports(events, i)|..] ==
            if events[i].AgentStarted? then [Started]
            else if events[i].AgentDelta? then [Delta]
            else if events[i].AgentLimit? then [Limit]
            else []
  {
    if i < n - 1 {
      NothingGoesUnsaid(events, n - 1, i);
    }
  }

  predicate Quiet(events: seq<Event>, n: nat)
    requires n <= |events|
  {
    exists i :: 0 <= i < n && events[i].WentQuiet?
  }

  predicate Ready(s: Script) {
    s.filesReady && s.hasBackend && s.folderUsable
  }

  // What is said besides the record's batches from the launch on, but for the end.
  function WhileRunning(s: Script): seq<Message> {
    if s.launches then [RecordSent] + Reports(s.events, |s.events|) + [RecordContext] else [RecordSent]
  }

  // Besides the record's batches: that it was sent, what the agent reports and its
  // context if it was launched, and how it ended.
  predicate SaysInOrder(out: seq<Message>, s: Script, launched: bool) {
    && |out| > 0
    && Plain(out, |out|) ==
       [RecordSent] + (if launched then Reports(s.events, |s.events|) + [RecordContext] else []) + [out[|out| - 1]]
  }

  lemma SaidInOrder(s: Script, m: Message)
    ensures [] + WhileRunning(s) + [m] ==
            [RecordSent] + (if s.launches then Reports(s.events, |s.events|) + [RecordContext] else []) + [m]
  {
  }

  lemma MovedOver(before: seq<Message>, reports: seq<Message>)
    ensures before + [RecordSent] + reports + [RecordContext] == before + ([RecordSent] + reports + [RecordContext])
  {
  }

  // All that a record keeps of these lines, and the count of what it does not, was sent.
  predicate Told(batches: seq<ExchangeRecord.Batch>, lines: seq<Splitter.Line>) {
    && ExchangeRecord.Sent(batches, |batches|) == ExchangeRecord.Recorded(lines, |lines|).lines
    && ExchangeRecord.LastTold(batches, |batches|) == ExchangeRecord.Recorded(lines, |lines|).counted
  }

  // ---------------------------------------------------------------------------
  // what a run should come to
  // ---------------------------------------------------------------------------

  // The register when this turn's begin reaches it.
  function AtBegin(s: Script, t: Turns): Turns {
    After(t, s.before, |s.before|)
  }

  predicate Begins(s: Script, t: Turns, id: TurnId, c: Cancel) {
    Ready(s) && Answer(AtBegin(s, t), Op.Begin(id, c))
  }

  // And when a refused turn looks why it was refused.
  function AtLook(s: Script, t: Turns, id: TurnId, c: Cancel): Turns {
    Looked(s, AtBegin(s, t), id, c)
  }

  function Looked(s: Script, t1: Turns, id: TurnId, c: Cancel): Turns {
    After(Applied(t1, Op.Begin(id, c)), s.refused, |s.refused|)
  }

  function Ended(s: Script, t1: Turns, id: TurnId, c: Cancel): Turns {
    Applied(After(Applied(t1, Op.Begin(id, c)), s.running, |s.running|), Op.End(id))
  }

  // A turn that was let begin ends once, after everything; one that was not never does.
  function Leaves(s: Script, t: Turns, id: TurnId, c: Cancel): Turns {
    if !Ready(s) then t
    else if Begins(s, t, id, c) then Ended(s, AtBegin(s, t), id, c)
    else AtLook(s, t, id, c)
  }

  function Ending(s: Script, stopped: bool): Message {
    if stopped then SaysStopped
    else if !s.launches || Quiet(s.events, |s.events|) || s.resultFails then Failed
    else Done
  }

  function LastMessage(s: Script, t: Turns, id: TurnId, c: Cancel): Message {
    if !Ready(s) then Failed
    else if Begins(s, t, id, c) then Ending(s, Stopped(s.running, id, 0, |s.running|))
    else if AtLook(s, t, id, c).closed then Failed
    else SaysStopped
  }

  // How a turn ended, from the script and the register alone.
  ghost predicate EndsRightly(s: Script, t: Turns, id: TurnId, m: Message) {
    var t1 := After(t, s.before, |s.before|);
    var ready := s.filesReady && s.hasBackend && s.folderUsable;
    var begun := ready && !t1.closed && id !in t1.asked;
    var stopped := exists i :: 0 <= i < |s.running| && s.running[i] == Op.Stop(id);
    var well := s.launches && !s.resultFails && forall i :: 0 <= i < |s.events| ==> !s.events[i].WentQuiet?;
    var stillClosed := After(t1.(asked := t1.asked - {id}), s.refused, |s.refused|).closed;
    && (m == Done <==> begun && !stopped && well)
    && (m == SaysStopped <==> (begun && stopped) || (ready && !begun && !stillClosed))
    && (m == Failed <==> !ready || (begun && !stopped && !well) || (ready && !begun && stillClosed))
  }

  lemma LastMessageEndsRightly(s: Script, t: Turns, id: TurnId, c: Cancel)
    ensures EndsRightly(s, t, id, LastMessage(s, t, id, c))
  {
  }

  // And what becomes of the register.
  function RegisterAfter(s: Script, t: Turns, id: TurnId, c: Cancel): Turns {
    var t1 := After(t, s.before, |s.before|);
    if !(s.filesReady && s.hasBackend && s.folderUsable) then t
    else if t1.closed || id in t1.asked then After(t1.(asked := t1.asked - {id}), s.refused, |s.refused|)
    else
      var t2 := After(t1.(cancel := t1.cancel[id := c]), s.running, |s.running|);
      t2.(cancel := t2.cancel - {id}, asked := t2.asked - {id})
  }

  lemma LeavesIs(s: Script, t: Turns, id: TurnId, c: Cancel)
    ensures Leaves(s, t, id, c) == RegisterAfter(s, t, id, c)
  {
  }

  // ---------------------------------------------------------------------------
  // the run
  // ---------------------------------------------------------------------------

  class Turn {
    const id: TurnId
    const s: Script
    const turns: RunningTurns
    const rec: ExchangeRecord.ExchangeRecord
    var out: seq<Message>

    constructor (id: TurnId, s: Script, turns: RunningTurns)
      ensures this.id == id && this.s == s && this.turns == turns && fresh(rec)
      ensures Recording() && rec.Batched() && out == [] && rec.given == []
    {
      this.id, this.s, this.turns := id, s, turns;
      rec := new ExchangeRecord.ExchangeRecord();
      out := [];
    }

    // The messages so far carry the record's batches and none ends the turn.
    ghost predicate Recording()
      reads this, rec
    {
      rec.Valid() && Batches(out, |out|) == rec.sent && NoEnding(out)
    }

    method Say(m: Message)
      requires Recording() && !m.RecordBatch?
      modifies this`out
      ensures out == old(out) + [m] && Batches(out, |out|) == rec.sent
      ensures Plain(out, |out|) == Plain(old(out), |old(out)|) + [m]
      ensures !m.Ends() ==> Recording()
    {
      BatchesPrefix(out, m, |out|);
      out := out + [m];
    }

    method Flush()
      requires Recording() && ExchangeRecord.AllSmall(rec.sent) && ExchangeRecord.Small(rec.pending)
      modifies this`out, rec
      ensures Recording() && rec.Batched() && rec.given == old(rec.given) && rec.pending == []
      ensures Plain(out, |out|) == Plain(old(out), |old(out)|)
      ensures rec.sent == old(rec.sent) || (exists d :: rec.sent == old(rec.sent) + [ExchangeRecord.Batch(old(rec.pending), d)])
      ensures Told(rec.sent, rec.given)
    {
      var n := |rec.sent|;
      rec.Flush();
      if |rec.sent| > n {
        BatchesPrefix(out, RecordBatch(rec.sent[n]), |out|);
        out := out + [RecordBatch(rec.sent[n])];
      }
    }

    // What others do with the register while this turn does not.
    method Others(ops: seq<Op>)
      modifies turns
      ensures turns.State() == After(old(turns.State()), ops, |ops|)
    {
      for i := 0 to |ops|
        invariant turns.State() == After(old(turns.State()), ops, i)
      {
        var _ := turns.Do(ops[i]);
      }
    }

    // What one thing the loop receives comes to.
    method Handle(i: nat)
      requires Recording() && rec.Batched() && i < |s.events| && rec.given == LinesIn(s.events, i)
      modifies this`out, rec
      ensures Recording() && rec.Batched() && rec.given == LinesIn(s.events, i + 1)
      ensures Plain(out, |out|) == Plain(old(out), |old(out)|) + Reports(s.events[i..i + 1], 1)
      ensures s.events[i].FlushTick? ==> rec.pending == []
      ensures !s.events[i].FlushTick? ==> ExchangeRecord.SentWhenBig(old(rec.sent), rec.sent)
    {
      match s.events[i] {
        case AgentLine(line) =>
          var big := rec.Add(line);
          if big {
            Flush();
          }
        case AgentStarted => Say(Started);
        case AgentDelta => Say(Delta);
        case AgentLimit => Say(Limit);
        case FlushTick => Flush();
        case WentQuiet =>
      }
    }

    // Drains the agent's output until it closes the channel.
    method Drain() returns (wentQuiet: bool)
      requires Recording() && rec.Batched() && rec.given == []
      modifies this`out, rec
      ensures Recording() && rec.Batched() && wentQuiet == Quiet(s.events, |s.events|) && rec.given == LinesIn(s.events, |s.events|)
      ensures Plain(out, |out|) == Plain(old(out), |old(out)|) + Reports(s.events, |s.events|)
    {
      wentQuiet := false;
      for i := 0 to |s.events|
        invariant Recording() && rec.Batched() && wentQuiet == Quiet(s.events, i) && rec.given == LinesIn(s.events, i)
        invariant Plain(out, |out|) == Plain(old(out), |old(out)|) + Reports(s.events, i)
      {
        OneMoreReport(Plain(old(out), |old(out)|), s.events, i);
        Handle(i);
        wentQuiet := wentQuiet || s.events[i].WentQuiet?;
      }
    }

    // The turn's last message.
    method EndWith(m: Message)
      requires Recording() && m.Ends()
      modifies this`out
      ensures EndsOnce(out) && out[|out| - 1] == m && Batches(out, |out|) == rec.sent
      ensures Plain(out, |out|) == Plain(old(out), |old(out)|) + [m]
    {
      Say(m);
      assert out[..|out| - 1] == old(out);
    }

    // What would have been sent is recorded, and the turn is over.
    method NotLaunched(m: Message)
      requires Recording() && m.Ends()
      modifies this`out
      ensures EndsOnce(out) && out[|out| - 1] == m && Batches(out, |out|) == rec.sent
      ensures Plain(out, |out|) == Plain(old(out), |old(out)|) + [RecordSent, m]
      ensures old(out) == [] ==> SaysInOrder(out, s, false)
    {
      Say(RecordSent);
      EndWith(m);
    }

    // Its begin was refused: why is asked in a second call.
    method Refuse()
      requires Recording()
      modifies this`out, turns
      ensures turns.State() == After(old(turns.State()), s.refused, |s.refused|)
      ensures EndsOnce(out) && out[|out| - 1] == if turns.closed then Failed else SaysStopped
      ensures Batches(out, |out|) == rec.sent && (old(out) == [] ==> SaysInOrder(out, s, false))
    {
      Others(s.refused);
      NotLaunched(if turns.closed then Failed else SaysStopped);
    }

    // Launches the agent and drains it, if it will launch.
    method Launch() returns (wentQuiet: bool)
      requires Recording() && rec.Batched() && rec.given == []
      modifies this`out, rec
      ensures Plain(out, |out|) == Plain(old(out), |old(out)|) + WhileRunning(s)
      ensures Recording() && rec.Batched() && wentQuiet == (s.launches && Quiet(s.events, |s.events|))
      ensures s.launches ==> Told(rec.sent, LinesIn(s.events, |s.events|))
    {
      ghost var before := Plain(out, |out|);
      Say(RecordSent);
      wentQuiet := false;
      if s.launches {
        wentQuiet := Drain();
        Flush();
        Say(RecordContext);
        MovedOver(before, Reports(s.events, |s.events|));
      }
    }

    // One place decides how the turn ended: asked to stop wins.
    method Finish(stopped: bool, wentQuiet: bool)
      requires Recording() && wentQuiet == (s.launches && Quiet(s.events, |s.events|))
      modifies this`out
      ensures EndsOnce(out) && out[|out| - 1] == Ending(s, stopped) && Batches(out, |out|) == rec.sent
      ensures Plain(out, |out|) == Plain(old(out), |old(out)|) + [out[|out| - 1]]
      ensures out[|out| - 1] == SaysStopped <==> stopped
      ensures out[|out| - 1] == Done <==> !stopped && s.launches && !s.resultFails && forall i :: 0 <= i < |s.events| ==> !s.events[i].WentQuiet?
    {
      if stopped {
        EndWith(SaysStopped);
      } else if !s.launches || wentQuiet || s.resultFails {
        EndWith(Failed);
      } else {
        EndWith(Done);
      }
    }

    // It has begun: launch, drain, and end.
    method Execute()
      requires Recording() && rec.Batched() && rec.given == [] && id !in turns.asked && OthersLeaveItAlone(s, id)
      modifies this`out, turns, rec
      ensures turns.State() == Applied(After(old(turns.State()), s.running, |s.running|), Op.End(id))
      ensures EndsOnce(out) && out[|out| - 1] == Ending(s, Stopped(s.running, id, 0, |s.running|))
      ensures s.launches ==> Told(Batches(out, |out|), LinesIn(s.events, |s.events|))
      ensures ExchangeRecord.AllSmall(Batches(out, |out|))
      ensures old(out) == [] ==> SaysInOrder(out, s, s.launches)
    {
      ghost var begun := turns.State();
      var wentQuiet := Launch();
      Others(s.running);
      AskedSince(begun, s.running, id, 0, |s.running|);
      var stopped := turns.End(id);
      Finish(stopped, wentQuiet);
      SaidInOrder(s, out[|out| - 1]);
    }

    // Main result: every run of a turn ends with exactly one message, after all
    // the others, and when it was launched they carry all that its record keeps.
    // It begins at most once, ends exactly when it did begin, and its last
    // message says stopped exactly when a stop fell in between.
    method Run(c: Cancel)
      requires Recording() && rec.Batched() && out == [] && rec.given == [] && OthersLeaveItAlone(s, id)
      modifies this`out, turns, rec
      ensures turns.State() == Leaves(s, old(turns.State()), id, c)
      ensures EndsOnce(out) && out[|out| - 1] == LastMessage(s, old(turns.State()), id, c)
      ensures Begins(s, old(turns.State()), id, c) && s.launches ==> Told(Batches(out, |out|), LinesIn(s.events, |s.events|))
      ensures ExchangeRecord.AllSmall(Batches(out, |out|))
      ensures SaysInOrder(out, s, Begins(s, old(turns.State()), id, c) && s.launches)
      ensures EndsRightly(s, old(turns.State()), id, out[|out| - 1])
      ensures turns.State() == RegisterAfter(s, old(turns.State()), id, c)
    {
      LastMessageEndsRightly(s, turns.State(), id, c);
      LeavesIs(s, turns.State(), id, c);
      if !s.filesReady || !s.hasBackend || !s.folderUsable {
        NotLaunched(Failed);
        return;
      }
      Others(s.before);
      BeginAndRun(c);
    }

    method BeginAndRun(c: Cancel)
      requires Recording() && rec.Batched() && out == [] && rec.given == [] && OthersLeaveItAlone(s, id)
      modifies this`out, turns, rec
      ensures ExchangeRecord.AllSmall(Batches(out, |out|))
      ensures
        var t1 := old(turns.State());
        if Answer(t1, Op.Begin(id, c)) then
          && turns.State() == Ended(s, t1, id, c)
          && EndsOnce(out) && out[|out| - 1] == Ending(s, Stopped(s.running, id, 0, |s.running|))
          && (s.launches ==> Told(Batches(out, |out|), LinesIn(s.events, |s.events|)))
        else
          && turns.State() == Looked(s, t1, id, c)
          && EndsOnce(out) && out[|out| - 1] == if turns.closed then Failed else SaysStopped
      ensures SaysInOrder(out, s, Answer(old(turns.State()), Op.Begin(id, c)) && s.launches)
    {
      var ok := turns.Begin(id, c);
      if ok {
        Execute();
      } else {
        Refuse();
      }
    }
  }

  // A turn that ran is gone from the register, and leaves no stop behind.
  lemma NothingIsLeftBehind(s: Script, t: Turns, id: TurnId, c: Cancel)
    requires Begins(s, t, id, c)
    ensures id !in Leaves(s, t, id, c).cancel && id !in Leaves(s, t, id, c).asked
  {
  }

  // ---------------------------------------------------------------------------
  // why a begin was refused is looked up in a second call
  // ---------------------------------------------------------------------------

  predicate ReopenedBetween(ops: seq<Op>, i: nat, j: nat)
    requires j <= |ops|
  {
    exists k :: i <= k < j && ops[k] == Reopen
  }

  lemma {:induction false} ClosedUntilReopened(t0: Turns, ops: seq<Op>, i: nat, j: nat)
    requires i <= j <= |ops| && After(t0, ops, i).closed && !ReopenedBetween(ops, i, j)
    ensures After(t0, ops, j).closed
    decreases j
  {
    if j > i {
      assert !ReopenedBetween(ops, i, j - 1);
      ClosedUntilReopened(t0, ops, i, j - 1);
      assert ops[j - 1] != Reopen;
    }
  }

  // A refused turn that nobody asked to stop was refused for an update. It is
  // told so exactly when the register is still closed at the second call; told
  // that it was stopped only if the update failed to start in between.
  lemma RefusedButToldStoppedIff(s: Script, t: Turns, id: TurnId, c: Cancel)
    requires Ready(s) && !Begins(s, t, id, c) && id !in t.asked && OnlyStops(s.before, id, 0, |s.before|)
    requires !Stopped(s.before, id, 0, |s.before|)
    ensures AtBegin(s, t).closed
    ensures LastMessage(s, t, id, c) == SaysStopped <==> !AtLook(s, t, id, c).closed
    ensures LastMessage(s, t, id, c) == SaysStopped ==> ReopenedBetween(s.refused, 0, |s.refused|)
  {
    AskedSince(t, s.before, id, 0, |s.before|);
    if !ReopenedBetween(s.refused, 0, |s.refused|) {
      ClosedUntilReopened(Applied(AtBegin(s, t), Op.Begin(id, c)), s.refused, 0, |s.refused|);
    }
  }

  // Nobody asks, and the update that had the register closed fails to start just
  // after the begin is refused: the turn is reported as stopped.
  lemma ToldStoppedThoughNobodyAsked(id: TurnId, c: Cancel)
    ensures
      var t := Turns(map[], {}, true);
      var s := Script(true, true, true, true, [], false, [], [Reopen], []);
      Ready(s) && !Begins(s, t, id, c) && LastMessage(s, t, id, c) == SaysStopped
  {
    var t := Turns(map[], {}, true);
    assert After(t, [Reopen], 1) == Applied(After(t, [Reopen], 0), Reopen);
  }
}
