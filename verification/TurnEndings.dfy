/**
How the server ends turns. Messages from the computer, failed sends and a
computer that goes away all finish turns at the same time; each looks a turn up
and takes it from the map in separate steps, and then writes to the store.
*/
module TurnEndings {
  type TurnId = string
  type UserId = string
  type CallId = nat

  datatype Place = Looked | Taken | Finished | Returned

  // One call of finishTurn, with what it was told.
  datatype Call = Call(turn: TurnId, user: UserId, usage: bool, at: Place)

  // known is every turn there has been; a turn's id is its entry's, made anew.
  // finished and used are the store's writes, in order.
  datatype Server = Server(turns: map<TurnId, UserId>, known: map<TurnId, UserId>, calls: map<CallId, Call>, finished: seq<TurnId>, used: seq<TurnId>)

  datatype Step =
    | Open(turn: TurnId, user: UserId)
    | Look(c: CallId, turn: TurnId, user: UserId, usage: bool) // handleDaemonMessage, abandonTurns: is it there, and whose is it
    | Take(c: CallId)                 // finishTurn: read and delete under the lock
    | Finish(c: CallId, ok: bool)     // the store's transaction
    | AddUsage(c: CallId)

  function Goes(v: Server, c: CallId, at: Place): Server
    requires c in v.calls
  {
    v.(calls := v.calls[c := v.calls[c].(at := at)])
  }

  function Next(v: Server, s: Step): Server {
    match s
    case Open(turn, user) =>
      if turn in v.known then v else v.(turns := v.turns[turn := user], known := v.known[turn := user])
    case Look(c, turn, user, usage) =>
      if c in v.calls || turn !in v.turns || v.turns[turn] != user then v
      else v.(calls := v.calls[c := Call(turn, user, usage, Looked)])
    case Take(c) =>
      if c !in v.calls || !v.calls[c].at.Looked? then v
      else if v.calls[c].turn !in v.turns then Goes(v, c, Returned)
      else Goes(v, c, Taken).(turns := v.turns - {v.calls[c].turn})
    case Finish(c, ok) =>
      if c !in v.calls || !v.calls[c].at.Taken? then v
      else if !ok then Goes(v, c, Returned)
      else Goes(v, c, if v.calls[c].usage then Finished else Returned).(finished := v.finished + [v.calls[c].turn])
    case AddUsage(c) =>
      if c !in v.calls || !v.calls[c].at.Finished? then v
      else Goes(v, c, Returned).(used := v.used + [v.calls[c].turn])
  }

  function After(v: Server, run: seq<Step>, n: nat): Server
    requires n <= |run|
  {
    if n == 0 then v else Next(After(v, run, n - 1), run[n - 1])
  }

  predicate Holds(v: Server, c: CallId) {
    c in v.calls && (v.calls[c].at.Taken? || v.calls[c].at.Finished?)
  }

  predicate Once(s: seq<TurnId>) {
    forall i, j :: 0 <= i < j < |s| ==> s[i] != s[j]
  }

  ghost predicate Owned(v: Server) {
    && (forall t :: t in v.turns ==> t in v.known && v.known[t] == v.turns[t])
    && (forall t :: t in v.finished ==> t in v.known)
    && (forall c :: c in v.calls ==> v.calls[c].turn in v.known && v.known[v.calls[c].turn] == v.calls[c].user)
  }

  // A turn is in the map, or held by one call, or done with.
  ghost predicate OneHolder(v: Server) {
    && (forall a, b :: Holds(v, a) && Holds(v, b) && v.calls[a].turn == v.calls[b].turn ==> a == b)
    && (forall c :: Holds(v, c) ==> v.calls[c].turn !in v.turns && v.calls[c].turn !in v.used)
    && (forall c :: Holds(v, c) ==> (v.calls[c].at.Finished? <==> v.calls[c].turn in v.finished))
    && (forall t :: t in v.turns ==> t !in v.finished)
    && (forall t :: t in v.used ==> t in v.finished)
  }

  ghost predicate Inv(v: Server) {
    Owned(v) && OneHolder(v) && Once(v.finished) && Once(v.used)
  }

  // One call moves on; the others are where they were.
  predicate OnlyMoves(v: Server, w: Server, c: CallId) {
    && c in v.calls && c in w.calls && w.calls == v.calls[c := v.calls[c].(at := w.calls[c].at)]
    && w.known == v.known
  }

  lemma TakeKeepsInv(v: Server, c: CallId)
    requires Inv(v) && c in v.calls && v.calls[c].at.Looked?
    ensures Inv(Next(v, Take(c)))
  {
    var w := Next(v, Take(c));
    assert OnlyMoves(v, w, c);
    assert forall a :: a != c ==> Holds(v, a) == Holds(w, a);
  }

  lemma FinishKeepsInv(v: Server, c: CallId, ok: bool)
    requires Inv(v) && c in v.calls && v.calls[c].at.Taken?
    ensures Inv(Next(v, Finish(c, ok)))
  {
  }

  lemma AddUsageKeepsInv(v: Server, c: CallId)
    requires Inv(v) && c in v.calls && v.calls[c].at.Finished?
    ensures Inv(Next(v, AddUsage(c)))
  {
  }

  lemma StepKeepsInv(v: Server, s: Step)
    requires Inv(v)
    ensures Inv(Next(v, s))
  {
    if Next(v, s) != v {
      match s
      case Take(c) => TakeKeepsInv(v, c);
      case Finish(c, ok) => FinishKeepsInv(v, c, ok);
      case AddUsage(c) => AddUsageKeepsInv(v, c);
      case _ => assert forall c :: Holds(Next(v, s), c) == Holds(v, c);
    }
  }

  predicate Empty(v: Server) {
    v.turns == map[] && v.known == map[] && v.calls == map[] && v.finished == [] && v.used == []
  }

  lemma {:induction false} RunKeepsInv(v: Server, run: seq<Step>, n: nat)
    requires Empty(v) && n <= |run|
    ensures Inv(After(v, run, n))
  {
    if n > 0 {
      RunKeepsInv(v, run, n - 1);
      StepKeepsInv(After(v, run, n - 1), run[n - 1]);
    }
  }

  // Main result: however its endings race, a turn is finished at most once and
  // its usage is added at most once and only if it was finished.
  lemma EndsAtMostOnce(v: Server, run: seq<Step>, n: nat)
    requires Empty(v) && n <= |run|
    ensures
      var w := After(v, run, n);
      Once(w.finished) && Once(w.used) && forall t :: t in w.used ==> t in w.finished
  {
    RunKeepsInv(v, run, n);
  }

  // Only a computer of the turn's own account gets past the look-up.
  lemma OnlyItsOwnAccountEndsIt(v: Server, run: seq<Step>, n: nat, c: CallId)
    requires Empty(v) && n <= |run| && c in After(v, run, n).calls
    ensures
      var w := After(v, run, n);
      w.calls[c].turn in w.known && w.known[w.calls[c].turn] == w.calls[c].user
  {
    RunKeepsInv(v, run, n);
  }

  // A call that looked before the turn was taken finishes it; one that takes it
  // later finds nothing and changes nothing.
  lemma FirstTakerFinishes(v: Server, c: CallId)
    requires c in v.calls && v.calls[c].at.Looked?
    ensures
      var w := Next(Next(Next(v, Take(c)), Finish(c, true)), AddUsage(c));
      if v.calls[c].turn in v.turns then
        && w.finished == v.finished + [v.calls[c].turn]
        && w.used == (if v.calls[c].usage then v.used + [v.calls[c].turn] else v.used)
        && v.calls[c].turn !in w.turns
      else w.finished == v.finished && w.used == v.used && w.turns == v.turns
  {
  }

  // A new turn is found by a computer of its own account and by no other.
  lemma OnlyItsOwnAccountFindsIt(v: Server, turn: TurnId, user: UserId, c: CallId, sender: UserId, usage: bool)
    requires turn !in v.known && c !in v.calls
    ensures
      var w := After(v, [Open(turn, user), Look(c, turn, sender, usage)], 2);
      && w.turns == v.turns[turn := user] && w.known == v.known[turn := user]
      && w.calls == (if sender == user then v.calls[c := Call(turn, user, usage, Looked)] else v.calls)
      && w.finished == v.finished && w.used == v.used
  {
    var run := [Open(turn, user), Look(c, turn, sender, usage)];
    StepAt(v, run, 0);
    StepAt(v, run, 1);
  }

  // The call that takes it writes it to the store once, or not at all if the store
  // refuses, and returns; the turn is in the map no more either way.
  lemma TakerEndsIt(v: Server, c: CallId, ok: bool)
    requires c in v.calls && v.calls[c].at.Looked? && v.calls[c].turn in v.turns
    ensures
      var call, w := v.calls[c], After(v, [Take(c), Finish(c, ok), AddUsage(c)], 3);
      w == Server(v.turns - {call.turn}, v.known, v.calls[c := call.(at := Returned)],
                  if ok then v.finished + [call.turn] else v.finished, if ok && call.usage then v.used + [call.turn] else v.used)
  {
    var run := [Take(c), Finish(c, ok), AddUsage(c)];
    StepAt(v, run, 0);
    assert After(v, run, 1) == Goes(v, c, Taken).(turns := v.turns - {v.calls[c].turn});
    StepAt(v, run, 1);
    StepAt(v, run, 2);
  }

  lemma StepAt(v: Server, run: seq<Step>, n: nat)
    requires n < |run|
    ensures After(v, run, n + 1) == Next(After(v, run, n), run[n])
  {
  }

  // A turn that was opened is not opened again, and a turn nobody opened is not found.
  lemma OnlyOpenTurnsAreFound(v: Server, turn: TurnId, user: UserId, c: CallId, usage: bool)
    ensures turn in v.known ==> Next(v, Open(turn, user)) == v
    ensures turn !in v.turns ==> Next(v, Look(c, turn, user, usage)) == v
  {
  }
}
