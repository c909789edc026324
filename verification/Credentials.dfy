/**
Both ends together: the server's tables, and the two credential files of one
computer whose daemon dials, promotes and forgets while pairing requests are
claimed beside it. Every read and write of a file is a step of its own, so is
each of the server's two questions about a credential, and anything may happen
between two steps.
*/
module Credentials {
  import opened Common
  import opened Machines

  datatype File = MainFile | PendingFile

  datatype Dial =
    | Idle
    | Dialing(token: Credential, from: File)
    | NotAccepted(token: Credential, from: File)
    | Granted(token: Credential, from: File)
    | Forbidden(token: Credential, from: File)
    | Promoting(token: Credential)
    | Forgetting(token: Credential, from: File)

  // A claim of this computer: sent with the credential that was in the main file,
  // or answered with a new credential that is not saved yet.
  datatype ClaimState = Asked(current: Option<Credential>) | Answered(credential: Credential)

  type ClaimId = nat

  datatype World = World(
    t: Tables,
    now: int,
    main: Option<Credential>,
    pending: Option<Credential>,
    dial: Dial,
    claims: map<ClaimId, ClaimState>
  ) {
    function Read(f: File): Option<Credential> {
      if f.MainFile? then main else pending
    }

    function With(f: File, c: Option<Credential>): World {
      if f.MainFile? then this.(main := c) else this.(pending := c)
    }
  }

  datatype Action =
    | Server(step: Step, at: int) // whatever accounts and other computers ask for
    | SendClaim(k: ClaimId, readable: bool)
    | ServeClaim(k: ClaimId, p: PairingId, credential: Credential, holder: Option<MachineId>, name: string, newId: MachineId, at: int)
    | SaveClaim(k: ClaimId)
    | LoseClaim(k: ClaimId)
    | StartDial(pendingReadable: bool)
    | AskAccepted
    | AskRefused
    | OnAnswer
    | Rename
    | Remove
    | Restart // The daemon stops, loses its connection, or fails to read or change a file.

  function ClaimAnswer(t: Tables, s: Step, now: int): Result<Option<Credential>>
    requires s.ClaimStep? && (s.current.Some? ==> s.current.value in t.machines)
  {
    if s.p in t.pairings && Claimable(t, s.p, t.pairings[s.p].token, now) then
      Claim(t, s.p, s.credential, s.current, s.name, s.newId).1
    else Err(Unavailable)
  }

  // The server looks the sent credential up and answers the claim.
  ghost function Served(w: World, k: ClaimId, s: Step, at: int): World
    requires s.ClaimStep? && k in w.claims && w.claims[k].Asked?
  {
    if at < w.now || !HolderOf(w.t, w.claims[k].current, s.current) then w
    else if ClaimAnswer(w.t, s, at) == Ok(Some(s.credential)) then
      w.(t := Stepped(w.t, s, at), now := at, claims := w.claims[k := Answered(s.credential)])
    else
      w.(t := Stepped(w.t, s, at), now := at, claims := w.claims - {k})
  }

  // Whether a claim's answer is saved now.
  predicate Saves(w: World, a: Action) {
    a.SaveClaim? && a.k in w.claims && w.claims[a.k].Answered?
  }

  ghost function Act(w: World, a: Action): World {
    match a
    case Server(s, at) => if at < w.now then w else w.(t := Stepped(w.t, s, at), now := at)
    case SendClaim(k, readable) =>
      if k in w.claims then w else w.(claims := w.claims[k := Asked(if readable then w.main else None)])
    case ServeClaim(k, p, credential, holder, name, newId, at) =>
      if k in w.claims && w.claims[k].Asked? then Served(w, k, ClaimStep(p, credential, holder, name, newId), at) else w
    case SaveClaim(k) =>
      if Saves(w, a) then w.(pending := Some(w.claims[k].credential), claims := w.claims - {k}) else w
    case LoseClaim(k) => w.(claims := w.claims - {k})
    case StartDial(readable) =>
      if !w.dial.Idle? then w
      else if readable && w.pending.Some? then w.(dial := Dialing(w.pending.value, PendingFile))
      else if w.main.Some? then w.(dial := Dialing(w.main.value, MainFile))
      else w
    case AskAccepted =>
      if !w.dial.Dialing? then w
      else if Accepted(w.t, w.dial.token) then w.(dial := Granted(w.dial.token, w.dial.from))
      else w.(dial := NotAccepted(w.dial.token, w.dial.from))
    case AskRefused =>
      if !w.dial.NotAccepted? then w
      else if Refused(w.t, w.dial.token, w.now) then w.(dial := Forbidden(w.dial.token, w.dial.from))
      else w.(dial := Idle)
    case OnAnswer =>
      if w.dial.Granted? && w.dial.from.PendingFile? && w.pending == Some(w.dial.token) then w.(dial := Promoting(w.dial.token))
      else if w.dial.Forbidden? && w.Read(w.dial.from) == Some(w.dial.token) then w.(dial := Forgetting(w.dial.token, w.dial.from))
      else if w.dial.Granted? || w.dial.Forbidden? then w.(dial := Idle)
      else w
    case Rename =>
      if !w.dial.Promoting? then w
      else if w.pending.Some? then w.(main := w.pending, pending := None, dial := Idle)
      else w.(dial := Idle)
    case Remove =>
      if w.dial.Forgetting? then w.With(w.dial.from, None).(dial := Idle) else w
    case Restart => w.(dial := Idle)
  }

  // A run, with the world before each step and after the last.
  ghost predicate IsRun(states: seq<World>, run: seq<Action>) {
    |states| == |run| + 1 && forall i :: 0 <= i < |run| ==> states[i + 1] == Act(states[i], run[i])
  }

  // The two files as the daemon's own functions change them, nothing else
  // running: what each does is its read step followed by its write step.
  class Files {
    var main: Option<Credential>
    var pending: Option<Credential>

    ghost predicate Shows(w: World)
      reads this
    {
      main == w.main && pending == w.pending
    }

    // machineToken: a pairing that waits for approval goes first.
    method MachineToken() returns (token: Option<(Credential, File)>)
      ensures token == if pending.Some? then Some((pending.value, PendingFile))
                       else if main.Some? then Some((main.value, MainFile))
                       else None
      ensures forall w: World :: Shows(w) && w.dial.Idle? ==>
                Act(w, StartDial(true)).dial == if token.Some? then Dialing(token.value.0, token.value.1) else Idle
    {
      if pending.Some? {
        return Some((pending.value, PendingFile));
      }
      if main.Some? {
        return Some((main.value, MainFile));
      }
      token := None;
    }

    method PromotePending(credential: Credential)
      modifies this
      ensures forall w: World :: old(Shows(w)) && w.dial == Granted(credential, PendingFile) ==> Shows(Act(Act(w, OnAnswer), Rename))
    {
      if pending != Some(credential) {
        return;
      }
      main, pending := pending, None;
    }

    method ForgetCredential(name: File, refused: Credential)
      modifies this
      ensures forall w: World :: old(Shows(w)) && w.dial == Forbidden(refused, name) ==> Shows(Act(Act(w, OnAnswer), Remove))
    {
      if (if name.MainFile? then main else pending) != Some(refused) {
        return;
      }
      if name.MainFile? {
        main := None;
      } else {
        pending := None;
      }
    }

    method SaveClaimed(credential: Credential)
      modifies this
      ensures forall w: World, k: ClaimId :: old(Shows(w)) && k in w.claims && w.claims[k] == Answered(credential) ==>
                Shows(Act(w, SaveClaim(k)))
    {
      pending := Some(credential);
    }
  }

  // ---------------------------------------------------------------------------
  // what holds of every run
  // ---------------------------------------------------------------------------

  // What the daemon was told stays true while it acts on it.
  ghost predicate ToldTheTruth(w: World) {
    && (w.dial.Granted? || w.dial.Promoting? ==> WasApproved(w.t, w.dial.token))
    && (w.dial.Forbidden? || w.dial.Forgetting? ==> Refused(w.t, w.dial.token, w.now))
  }

  ghost predicate Inv(w: World) {
    && Valid(w.t) && ToldTheTruth(w)
    && (w.dial.Forgetting? && w.dial.from.MainFile? ==> w.main == Some(w.dial.token))
  }

  // The main file holds only what was approved.
  ghost predicate MainGood(w: World) {
    w.main.Some? ==> WasApproved(w.t, w.main.value)
  }

  lemma ApprovalLasts(t: Tables, s: Step, now: int, c: Credential)
    requires WasApproved(t, c)
    ensures WasApproved(Stepped(t, s, now), c)
  {
    var m :| HoldsCredential(t, m, c) && t.machines[m].approved;
    StepGrowsMachines(t, s, now, m);
  }

  lemma RefusalLasts(t: Tables, s: Step, before: int, now: int, c: Credential)
    requires before <= now && Refused(t, c, before)
    ensures Refused(Stepped(t, s, now), c, now)
  {
    var m :| RefusedAs(t, m, c, before);
    StepKeepsRefused(t, s, before, now, m, c);
  }

  lemma AcceptedWasApproved(t: Tables, c: Credential)
    requires Accepted(t, c)
    ensures WasApproved(t, c)
  {
  }

  // A step of the server, whoever asked for it.
  lemma ServerKeepsInv(w: World, s: Step, at: int, claims: map<ClaimId, ClaimState>)
    requires Inv(w) && at >= w.now
    ensures Inv(w.(t := Stepped(w.t, s, at), now := at, claims := claims))
    ensures MainGood(w) ==> MainGood(w.(t := Stepped(w.t, s, at), now := at, claims := claims))
  {
    StepKeepsValid(w.t, s, at);
    if w.main.Some? && MainGood(w) {
      ApprovalLasts(w.t, s, at, w.main.value);
    }
    if w.dial.Granted? || w.dial.Promoting? {
      ApprovalLasts(w.t, s, at, w.dial.token);
    }
    if w.dial.Forbidden? || w.dial.Forgetting? {
      RefusalLasts(w.t, s, w.now, at, w.dial.token);
    }
  }

  lemma ActKeepsInv(w: World, a: Action)
    requires Inv(w)
    ensures Inv(Act(w, a))
    ensures MainGood(w) && a != Rename ==> MainGood(Act(w, a))
  {
    match a
    case Server(s, at) =>
      if at >= w.now {
        ServerKeepsInv(w, s, at, w.claims);
      }
    case ServeClaim(k, p, credential, holder, name, newId, at) =>
      if Act(w, a) != w {
        ServerKeepsInv(w, ClaimStep(p, credential, holder, name, newId), at, Act(w, a).claims);
      }
    case AskAccepted =>
      if w.dial.Dialing? && Accepted(w.t, w.dial.token) {
        AcceptedWasApproved(w.t, w.dial.token);
      }
    case _ =>
  }

  // The daemon is between two dials.
  ghost predicate AtRest(w: World) {
    Valid(w.t) && w.dial.Idle?
  }

  lemma {:induction false} RunKeepsInv(states: seq<World>, run: seq<Action>, n: nat)
    requires IsRun(states, run) && AtRest(states[0]) && n <= |run|
    ensures Inv(states[n])
  {
    if n > 0 {
      RunKeepsInv(states, run, n - 1);
      ActKeepsInv(states[n - 1], run[n - 1]);
    }
  }

  // ---------------------------------------------------------------------------
  // claims saved between a comparison and what follows it
  // ---------------------------------------------------------------------------

  // The daemon has compared the pending file and is about to rename or remove it.
  predicate ActsOnPending(w: World) {
    w.dial.Promoting? || (w.dial.Forgetting? && w.dial.from.PendingFile?)
  }

  predicate EndsAct(w: World, a: Action) {
    (a.Rename? && w.dial.Promoting?) || (a.Remove? && w.dial.Forgetting?) || a.Restart?
  }

  // The claim saved at k came after the comparison and is the last before i.
  ghost predicate Overtakes(states: seq<World>, run: seq<Action>, k: nat, i: nat)
    requires IsRun(states, run) && i <= |run|
  {
    && k < i && ActsOnPending(states[k]) && Saves(states[k], run[k])
    && forall l :: k < l < i ==> !Saves(states[l], run[l]) && !EndsAct(states[l], run[l])
  }

  function SavedAt(states: seq<World>, run: seq<Action>, k: nat): Credential
    requires k < |states| && k < |run| && Saves(states[k], run[k])
  {
    states[k].claims[run[k].k].credential
  }

  lemma {:induction false} OvertakenHoldsTheClaim(states: seq<World>, run: seq<Action>, k: nat, i: nat)
    requires IsRun(states, run) && i <= |run| && Overtakes(states, run, k, i)
    ensures states[i].dial == states[k].dial && states[i].pending == Some(SavedAt(states, run, k))
    decreases i
  {
    assert states[i] == Act(states[i - 1], run[i - 1]);
    if k < i - 1 {
      OvertakenHoldsTheClaim(states, run, k, i - 1);
    }
  }

  lemma SameClaimSaved(states: seq<World>, run: seq<Action>, k: nat, i: nat)
    requires IsRun(states, run) && i <= |run| && Overtakes(states, run, k, i)
    ensures forall l :: Overtakes(states, run, l, i) ==> SavedAt(states, run, l) == SavedAt(states, run, k)
  {
    forall l | Overtakes(states, run, l, i)
      ensures SavedAt(states, run, l) == SavedAt(states, run, k)
    {
      OvertakenHoldsTheClaim(states, run, k, i);
      OvertakenHoldsTheClaim(states, run, l, i);
    }
  }

  lemma StillOvertaken(states: seq<World>, run: seq<Action>, k: nat, i: nat)
    requires IsRun(states, run) && 0 < i <= |run| && !Saves(states[i - 1], run[i - 1]) && !EndsAct(states[i - 1], run[i - 1])
    ensures Overtakes(states, run, k, i - 1) ==> Overtakes(states, run, k, i)
  {
  }

  lemma {:induction false} OtherwiseHoldsTheToken(states: seq<World>, run: seq<Action>, i: nat)
    requires IsRun(states, run) && states[0].dial.Idle? && i <= |run| && ActsOnPending(states[i])
    requires forall k :: !Overtakes(states, run, k, i)
    ensures states[i].pending == Some(states[i].dial.token)
  {
    if i > 0 {
      assert states[i] == Act(states[i - 1], run[i - 1]);
      if ActsOnPending(states[i - 1]) {
        assert !Overtakes(states, run, i - 1, i);
        assert !Saves(states[i - 1], run[i - 1]) && !EndsAct(states[i - 1], run[i - 1]);
        var before := i - 1;
        forall k: nat
          ensures !Overtakes(states, run, k, before)
        {
          StillOvertaken(states, run, k, i);
          assert !Overtakes(states, run, k, i);
        }
        OtherwiseHoldsTheToken(states, run, before);
      }
    }
  }

  // A rename that moves a claim saved since the comparison, not yet approved.
  ghost predicate RenamesUnapproved(states: seq<World>, run: seq<Action>, k: nat, i: nat)
    requires IsRun(states, run) && i < |run|
  {
    run[i] == Rename && states[i].dial.Promoting? && Overtakes(states, run, k, i) && !WasApproved(states[i].t, SavedAt(states, run, k))
  }

  lemma RenameIsGoodIff(states: seq<World>, run: seq<Action>, i: nat)
    requires IsRun(states, run) && AtRest(states[0]) && i < |run| && MainGood(states[i])
    ensures MainGood(states[i + 1]) <==> forall k :: !RenamesUnapproved(states, run, k, i)
  {
    RunKeepsInv(states, run, i);
    ActKeepsInv(states[i], run[i]);
    if run[i] == Rename && states[i].dial.Promoting? {
      if k :| Overtakes(states, run, k, i) {
        OvertakenHoldsTheClaim(states, run, k, i);
        SameClaimSaved(states, run, k, i);
        assert RenamesUnapproved(states, run, k, i) <==> !WasApproved(states[i].t, SavedAt(states, run, k));
      } else {
        OtherwiseHoldsTheToken(states, run, i);
      }
    }
  }

  // Main result: over a whole run, whatever is claimed, decided, dialled and
  // answered, the main file never holds an unapproved credential exactly when
  // each claim saved between a comparison and its rename was approved by then.
  lemma {:induction false} MainIsGoodIff(states: seq<World>, run: seq<Action>, n: nat)
    requires IsRun(states, run) && AtRest(states[0]) && MainGood(states[0]) && n <= |run|
    ensures (forall i :: 0 <= i <= n ==> MainGood(states[i])) <==> (forall k, i :: 0 <= i < n ==> !RenamesUnapproved(states, run, k, i))
  {
    if n > 0 {
      MainIsGoodIff(states, run, n - 1);
      if forall i :: 0 <= i < n ==> MainGood(states[i]) {
        RenameIsGoodIff(states, run, n - 1);
      }
    }
  }

  ghost predicate RevokedCredential(t: Tables, c: Credential) {
    exists m :: HoldsCredential(t, m, c) && t.machines[m].revoked
  }

  // A refused credential that was once approved can only have been revoked.
  lemma ApprovedAndRefusedIsRevoked(t: Tables, c: Credential, now: int)
    requires Valid(t) && WasApproved(t, c) && Refused(t, c, now)
    ensures RevokedCredential(t, c) && !Accepted(t, c)
  {
  }

  // Main result: the main file changes only at a rename, to what the server has
  // approved or to a claim saved since the comparison; and an approved credential
  // is removed from it only once it is revoked.
  lemma MainChangesOnlyForGoodReason(states: seq<World>, run: seq<Action>, i: nat)
    requires IsRun(states, run) && AtRest(states[0]) && i < |run| && MainGood(states[i])
    ensures
      var before, after := states[i], states[i + 1];
      before.main != after.main ==>
        if after.main.Some? then
          && run[i] == Rename
          && (WasApproved(after.t, after.main.value)
              || exists k :: Overtakes(states, run, k, i) && after.main.value == SavedAt(states, run, k))
        else run[i] == Remove && RevokedCredential(after.t, before.main.value) && !Accepted(after.t, before.main.value)
  {
    RunKeepsInv(states, run, i);
    var before := states[i];
    if run[i] == Rename && before.dial.Promoting? {
      if k :| Overtakes(states, run, k, i) {
        OvertakenHoldsTheClaim(states, run, k, i);
      } else {
        OtherwiseHoldsTheToken(states, run, i);
      }
    } else if before.main.Some? && run[i] == Remove && before.dial.Forgetting? && before.dial.from.MainFile? {
      ApprovedAndRefusedIsRevoked(before.t, before.main.value, before.now);
    }
  }

  // A removal that takes a claim saved since the comparison, not itself refused.
  ghost predicate RemovesUnrefused(states: seq<World>, run: seq<Action>, k: nat, i: nat)
    requires IsRun(states, run) && i < |run|
  {
    && run[i] == Remove && states[i].dial.Forgetting? && Overtakes(states, run, k, i)
    && !Refused(states[i].t, SavedAt(states, run, k), states[i].now)
  }

  ghost predicate KeepsPending(states: seq<World>, run: seq<Action>, i: nat)
    requires IsRun(states, run) && i < |run|
  {
    states[i].pending.Some? && states[i].pending != states[i + 1].pending ==>
      || Saves(states[i], run[i])
      || (run[i] == Rename && states[i + 1].main == states[i].pending)
      || Refused(states[i].t, states[i].pending.value, states[i].now)
  }

  // A pending credential that no newer claim replaces leaves its file only when it
  // becomes the main one or is refused, exactly when no claim saved since a
  // comparison is removed in place of the one that was compared.
  lemma PendingIsKeptIff(states: seq<World>, run: seq<Action>, i: nat)
    requires IsRun(states, run) && AtRest(states[0]) && i < |run|
    ensures KeepsPending(states, run, i) <==> forall k :: !RemovesUnrefused(states, run, k, i)
  {
    RunKeepsInv(states, run, i);
    assert states[i + 1] == Act(states[i], run[i]);
    if run[i] == Remove && states[i].dial.Forgetting? && states[i].dial.from.PendingFile? {
      if k :| Overtakes(states, run, k, i) {
        OvertakenHoldsTheClaim(states, run, k, i);
        SameClaimSaved(states, run, k, i);
        assert RemovesUnrefused(states, run, k, i) <==> !Refused(states[i].t, SavedAt(states, run, k), states[i].now);
      } else {
        OtherwiseHoldsTheToken(states, run, i);
      }
    } else {
      forall k | run[i] == Remove && Overtakes(states, run, k, i)
        ensures !states[i].dial.Forgetting?
      {
        OvertakenHoldsTheClaim(states, run, k, i);
      }
    }
  }

  // ---------------------------------------------------------------------------
  // a working computer
  // ---------------------------------------------------------------------------

  // The credentials a computer has in its main file, presents at a dial, or has
  // sent with a claim under way.
  predicate InHand(w: World, c: Credential) {
    || w.main == Some(c)
    || (!w.dial.Idle? && w.dial.token == c)
    || exists k :: k in w.claims && w.claims[k] == Asked(Some(c))
  }

  // No account revokes a computer while this one holds or presents its credential.
  predicate KeepsWhatIsInHand(w: World, a: Action) {
    a.Server? && a.step.RevokeStep? && a.step.m in w.t.machines ==> !InHand(w, w.t.machines[a.step.m].credential)
  }

  // A claim finds the main file readable.
  predicate ReadsMain(a: Action) {
    a.SendClaim? ==> a.readable
  }

  ghost predicate Undisturbed(states: seq<World>, run: seq<Action>)
    requires IsRun(states, run)
  {
    forall i :: 0 <= i < |run| ==> KeepsWhatIsInHand(states[i], run[i]) && ReadsMain(run[i])
  }

  ghost predicate Connectable(w: World) {
    w.main.Some? && Accepted(w.t, w.main.value)
  }

  // Every claim under way was sent with a credential the server accepts.
  ghost predicate ClaimsAreConnected(w: World) {
    forall k :: k in w.claims ==> IsConnectedClaim(w, w.claims[k])
  }

  ghost predicate IsConnectedClaim(w: World, c: ClaimState) {
    c.Asked? && c.current.Some? && Accepted(w.t, c.current.value)
  }

  ghost predicate Working(w: World) {
    && Connectable(w) && ClaimsAreConnected(w)
    && (w.dial.Granted? || w.dial.Promoting? ==> Accepted(w.t, w.dial.token))
    && (ActsOnPending(w) ==> w.pending == Some(w.dial.token))
  }

  lemma AcceptanceLasts(t: Tables, s: Step, at: int, c: Credential)
    requires Accepted(t, c)
    requires s.RevokeStep? && s.m in t.machines ==> t.machines[s.m].credential != c
    ensures Accepted(Stepped(t, s, at), c)
  {
    var m :| AcceptedAs(t, m, c);
    StepGrowsMachines(t, s, at, m);
    assert AcceptedAs(Stepped(t, s, at), m, c);
  }

  lemma ServerKeepsWorking(w: World, s: Step, at: int)
    requires Working(w)
    requires s.RevokeStep? && s.m in w.t.machines ==> !InHand(w, w.t.machines[s.m].credential)
    ensures Working(w.(t := Stepped(w.t, s, at), now := at))
  {
    AcceptanceLasts(w.t, s, at, w.main.value);
    if w.dial.Granted? || w.dial.Promoting? {
      AcceptanceLasts(w.t, s, at, w.dial.token);
    }
    forall k | k in w.claims
      ensures Accepted(Stepped(w.t, s, at), w.claims[k].current.value)
    {
      assert IsConnectedClaim(w, w.claims[k]);
      AcceptanceLasts(w.t, s, at, w.claims[k].current.value);
    }
  }

  // A claim sent with a credential the server accepts is never answered with a new one.
  lemma ConnectedClaimIssuesNothing(t: Tables, s: Step, current: Credential, at: int)
    requires Valid(t) && s.ClaimStep? && Accepted(t, current) && HolderOf(t, Some(current), s.current)
    ensures !ClaimAnswer(t, s, at).Ok? || ClaimAnswer(t, s, at).value.None?
  {
    var m :| AcceptedAs(t, m, current);
    assert Known(t, current);
    assert s.current == Some(m);
  }

  lemma ActKeepsWorking(w: World, a: Action)
    requires Inv(w) && Working(w) && KeepsWhatIsInHand(w, a) && ReadsMain(a)
    ensures Working(Act(w, a))
  {
    match a
    case Server(s, at) => ServerKeepsWorking(w, s, at);
    case ServeClaim(k, p, credential, holder, name, newId, at) =>
      if Act(w, a) != w {
        var s := ClaimStep(p, credential, holder, name, newId);
        assert IsConnectedClaim(w, w.claims[k]);
        ConnectedClaimIssuesNothing(w.t, s, w.claims[k].current.value, at);
        ServerKeepsWorking(w, s, at);
      }
    case SaveClaim(k) =>
      if k in w.claims {
        assert IsConnectedClaim(w, w.claims[k]);
      }
    case Remove => AcceptedIsNotRefused(w.t, w.main.value, w.now);
    case _ =>
  }

  lemma AcceptedIsNotRefused(t: Tables, c: Credential, now: int)
    requires Valid(t) && Accepted(t, c)
    ensures !Refused(t, c, now)
  {
  }

  // Main result: from a computer that can connect and has no claim under way, no
  // run of claims by anyone, approvals, declines, expiries, reconnects, losses and
  // stale answers takes that from it, in any order. As long as no credential it
  // holds or presents is revoked, its main file holds one the server accepts, and
  // no claim it makes is ever answered with a new one.
  lemma {:induction false} WorkingComputerStaysConnectable(states: seq<World>, run: seq<Action>, n: nat)
    requires IsRun(states, run) && AtRest(states[0]) && Connectable(states[0]) && states[0].claims == map[]
    requires Undisturbed(states, run) && n <= |run|
    ensures Inv(states[n]) && Working(states[n])
  {
    if n > 0 {
      WorkingComputerStaysConnectable(states, run, n - 1);
      ActKeepsInv(states[n - 1], run[n - 1]);
      ActKeepsWorking(states[n - 1], run[n - 1]);
    }
  }

  // The answer to a dial that nothing disturbs, and what the daemon does about it.
  ghost function Told(w: World): World {
    Act(Act(w, AskAccepted), AskRefused)
  }

  ghost function Settled(w: World): World {
    Act(Act(Act(Told(w), OnAnswer), Rename), Remove)
  }

  // Undisturbed, an approved pairing becomes the computer's credential at the next
  // dial; a refused one is forgotten and leaves an earlier credential as it was;
  // and one that waits is left to wait.
  lemma NextDialSettlesThePairing(w: World, c: Credential)
    requires Valid(w.t) && w.dial.Idle? && w.pending == Some(c)
    ensures
      var dialled := Act(w, StartDial(true));
      && dialled.dial == Dialing(c, PendingFile)
      && Settled(dialled) == if Accepted(w.t, c) then w.(main := Some(c), pending := None)
                             else if Refused(w.t, c, w.now) then w.(pending := None)
                             else w
  {
    if Accepted(w.t, c) {
      AcceptedIsNotRefused(w.t, c, w.now);
    }
  }

  // With nothing pending, or nothing that can be read, the main credential is
  // dialled with. It is granted exactly when the server accepts it and changes
  // nothing then; one that is refused is removed, and only that.
  lemma NextDialUsesTheMainCredential(w: World, c: Credential, readable: bool)
    requires Valid(w.t) && w.dial.Idle? && w.main == Some(c) && (readable ==> w.pending.None?)
    ensures
      var dialled := Act(w, StartDial(readable));
      && dialled.dial == Dialing(c, MainFile)
      && (Told(dialled).dial == Granted(c, MainFile) <==> Accepted(w.t, c))
      && (Told(dialled).dial == Forbidden(c, MainFile) <==> Refused(w.t, c, w.now))
      && Settled(dialled) == if Refused(w.t, c, w.now) then w.(main := None) else w
  {
    if Accepted(w.t, c) {
      AcceptedIsNotRefused(w.t, c, w.now);
    }
  }

  // A computer with no credential at all does not dial.
  lemma NothingToDialWith(w: World, readable: bool)
    requires w.dial.Idle? && w.main.None? && (readable ==> w.pending.None?)
    ensures Act(w, StartDial(readable)) == w
  {
  }

  // An answer about a credential that is no longer in its file changes no file.
  lemma StaleAnswerChangesNothing(w: World)
    requires w.dial.Granted? || w.dial.Forbidden?
    requires w.Read(w.dial.from) != Some(w.dial.token)
    ensures Act(w, OnAnswer) == w.(dial := Idle)
  {
  }

  // A rename that finds no pending file leaves the main one, and a claim that is lost
  // or sent twice changes nothing but itself.
  lemma NothingElseIsTouched(w: World, k: ClaimId, readable: bool)
    ensures w.dial.Promoting? && w.pending.None? ==> Act(w, Rename) == w.(dial := Idle)
    ensures Act(w, LoseClaim(k)) == w.(claims := w.claims - {k})
    ensures k in w.claims ==> Act(w, SendClaim(k, readable)) == w
  {
  }

  // A claim is answered with a new credential exactly when it is for a request that
  // is open, and not made by a computer that can connect.
  lemma AnsweredWithNewIff(t: Tables, p: PairingId, c: Credential, current: Option<Credential>, holder: Option<MachineId>, name: string, newId: MachineId, at: int)
    requires Valid(t) && p in t.pairings && newId !in t.machines && !Known(t, c) && HolderOf(t, current, holder)
    ensures
      var s, row := ClaimStep(p, c, holder, name, newId), t.pairings[p];
      var isNew := row.status == Pending && at < row.expires && !(current.Some? && Accepted(t, current.value));
      && (ClaimAnswer(t, s, at) == Ok(Some(c)) <==> isNew)
      && (isNew ==> Known(Stepped(t, s, at), c) && !Accepted(Stepped(t, s, at), c) && !Refused(Stepped(t, s, at), c, at))
  {
    if holder.Some? && t.machines[holder.value].Live() {
      assert AcceptedAs(t, holder.value, current.value);
    }
    assert forall m :: m in t.machines ==> !HoldsCredential(t, m, c);
    var token := t.pairings[p].token;
    if Claimable(t, p, token, at) && Claim(t, p, c, holder, name, newId).1 == Ok(Some(c)) {
      ClaimedCredentialWaits(t, p, token, c, holder, name, newId, at);
    }
  }

  // A claim from sending to saving. The credential it brings is kept apart from the
  // main one and waits for approval; a claim that brings none leaves no trace here.
  lemma ClaimIsSavedAsPendingIff(w: World, k: ClaimId, readable: bool, p: PairingId, c: Credential, holder: Option<MachineId>, name: string, newId: MachineId, at: int)
    requires Valid(w.t) && k !in w.claims && p in w.t.pairings && at >= w.now && newId !in w.t.machines && !Known(w.t, c)
    requires HolderOf(w.t, if readable then w.main else None, holder)
    ensures
      var row := w.t.pairings[p];
      var served := Act(Act(w, SendClaim(k, readable)), ServeClaim(k, p, c, holder, name, newId, at));
      var saved := Act(served, SaveClaim(k));
      var isNew := row.status == Pending && at < row.expires && !(readable && w.main.Some? && Accepted(w.t, w.main.value));
      && saved.pending == (if isNew then Some(c) else w.pending)
      && saved.main == w.main && saved.dial == w.dial && saved.claims == w.claims && saved.now == at
      && (k in served.claims <==> isNew)
      && (isNew ==> Known(saved.t, c) && !Accepted(saved.t, c) && !Refused(saved.t, c, at))
  {
    var current := if readable then w.main else None;
    var step := ClaimStep(p, c, holder, name, newId);
    AnsweredWithNewIff(w.t, p, c, current, holder, name, newId, at);
    var sent := w.(claims := w.claims[k := Asked(current)]);
    assert Act(w, SendClaim(k, readable)) == sent;
    assert Act(sent, ServeClaim(k, p, c, holder, name, newId, at)) == Served(sent, k, step, at);
    assert sent.claims - {k} == w.claims;
    assert sent.claims[k := Answered(c)] - {k} == w.claims;
  }

  // ---------------------------------------------------------------------------
  // a run that unpairs a working computer
  // ---------------------------------------------------------------------------

  const EMPTY := World(Tables(map[], map[]), 0, None, None, Idle, map[])

  predicate NobodyRevokes(run: seq<Action>) {
    forall i :: 0 <= i < |run| ==> !(run[i].Server? && run[i].step.RevokeStep?)
  }

  ghost predicate EndsRefused(w: World) {
    w.main.Some? && Refused(w.t, w.main.value, w.now) && w.pending.None? && w.claims == map[]
  }

  ghost predicate Leads(states: seq<World>, run: seq<Action>, w: World, v: World) {
    IsRun(states, run) && states[0] == w && states[|run|] == v && NobodyRevokes(run)
  }

  // Some run leads from one to the other, and no account revokes anything in it.
  ghost predicate Reaches(w: World, v: World) {
    exists states, run :: Leads(states, run, w, v)
  }

  lemma ReachesFurther(w: World, v: World, u: World)
    requires Reaches(w, v) && Reaches(v, u)
    ensures Reaches(w, u)
  {
    var a, first :| Leads(a, first, w, v);
    var b, second :| Leads(b, second, v, u);
    var states, run := a + b[1..], first + second;
    forall i | 0 <= i < |run|
      ensures states[i + 1] == Act(states[i], run[i])
    {
      if i < |first| {
        assert states[i] == a[i] && states[i + 1] == a[i + 1];
      } else {
        assert states[i] == b[i - |first|] && states[i + 1] == b[i + 1 - |first|];
      }
    }
    assert Leads(states, run, w, u);
  }

  lemma ReachesInOne(w: World, a: Action)
    requires !(a.Server? && a.step.RevokeStep?)
    ensures Reaches(w, Act(w, a))
  {
    assert Leads([w, Act(w, a)], [a], w, Act(w, a));
  }

  lemma ServerReaches(w: World, s: Step, t: Tables)
    requires !s.RevokeStep? && Stepped(w.t, s, w.now) == t
    ensures Reaches(w, w.(t := t))
  {
    ReachesInOne(w, Server(s, w.now));
  }

  lemma SendReaches(w: World, k: ClaimId)
    requires k !in w.claims
    ensures Reaches(w, w.(claims := w.claims[k := Asked(w.main)]))
  {
    ReachesInOne(w, SendClaim(k, true));
  }

  // A claim without a credential, answered with one.
  lemma ServeReaches(w: World, k: ClaimId, p: PairingId, c: Credential, newId: MachineId, t: Tables)
    requires k in w.claims && w.claims[k] == Asked(None)
    requires p in w.t.pairings && Claimable(w.t, p, w.t.pairings[p].token, w.now)
    requires Claim(w.t, p, c, None, "desk", newId) == (t, Ok(Some(c)))
    ensures Reaches(w, w.(t := t, claims := w.claims[k := Answered(c)]))
  {
    ReachesInOne(w, ServeClaim(k, p, c, None, "desk", newId, w.now));
  }

  lemma SaveReaches(w: World, k: ClaimId)
    requires k in w.claims && w.claims[k].Answered?
    ensures Reaches(w, w.(pending := Some(w.claims[k].credential), claims := w.claims - {k}))
  {
    ReachesInOne(w, SaveClaim(k));
  }

  // A dial with a pending credential the server accepts.
  lemma CompareReaches(w: World, c: Credential)
    requires w.dial.Idle? && w.pending == Some(c) && Accepted(w.t, c)
    ensures Reaches(w, w.(dial := Promoting(c)))
  {
    var w1, w2 := w.(dial := Dialing(c, PendingFile)), w.(dial := Granted(c, PendingFile));
    ReachesInOne(w, StartDial(true));
    ReachesInOne(w1, AskAccepted);
    ReachesInOne(w2, OnAnswer);
    ReachesFurther(w, w1, w2);
    ReachesFurther(w, w2, w.(dial := Promoting(c)));
  }

  lemma RenameReaches(w: World)
    requires w.dial.Promoting? && w.pending.Some?
    ensures Reaches(w, w.(main := w.pending, pending := None, dial := Idle))
  {
    ReachesInOne(w, Rename);
  }

  function Desk(user: UserId, c: Credential, approved: bool, revoked: bool): Machine {
    Machine(user, "desk", c, approved, revoked)
  }

  // The tables once every link has been claimed, some machines since approved or declined.
  function AllClaimed(one: bool, two: bool, declined: bool): Tables {
    Tables(
      map["a" := Desk("ann", "one", one, false), "b" := Desk("ann", "two", two, false), "c" := Desk("bob", "three", false, declined)],
      map["p" := Pairing("ann", "first", if one then Approved else Status.Claimed, Some("a"), 9),
          "q" := Pairing("ann", "second", if two then Approved else Status.Claimed, Some("b"), 9),
          "r" := Pairing("bob", "third", if declined then Rejected else Status.Claimed, Some("c"), 9)])
  }

  const ONE_LINK := map["p" := Pairing("ann", "first", Pending, None, 9)]
  const TWO_LINKS := ONE_LINK["q" := Pairing("ann", "second", Pending, None, 9)]
  const LINKS := TWO_LINKS["r" := Pairing("bob", "third", Pending, None, 9)]

  // Three links are made.
  lemma LinksAreMade()
    ensures Reaches(EMPTY, EMPTY.(t := Tables(map[], LINKS)))
  {
    var w1, w2 := EMPTY.(t := Tables(map[], ONE_LINK)), EMPTY.(t := Tables(map[], TWO_LINKS));
    ServerReaches(EMPTY, CreateStep("p", "ann", "first", 9), w1.t);
    ServerReaches(w1, CreateStep("q", "ann", "second", 9), w2.t);
    ServerReaches(w2, CreateStep("r", "bob", "third", 9), Tables(map[], LINKS));
    ReachesFurther(EMPTY, w1, w2);
    ReachesFurther(EMPTY, w2, EMPTY.(t := Tables(map[], LINKS)));
  }

  const OPENED := EMPTY.(t := Tables(map[], LINKS))
  const SENT := OPENED.(claims := map[1 := Asked(None), 2 := Asked(None), 3 := Asked(None)])
  const ANSWERED := World(AllClaimed(false, false, false), 0, None, None, Idle,
                          map[1 := Answered("one"), 2 := Answered("two"), 3 := Answered("three")])

  // They are opened on a computer that is not paired yet: no claim finds a
  // credential to send,
  lemma ClaimsAreSent()
    ensures Reaches(OPENED, SENT)
  {
    var w1 := OPENED.(claims := map[1 := Asked(None)]);
    var w2 := OPENED.(claims := map[1 := Asked(None), 2 := Asked(None)]);
    SendReaches(OPENED, 1);
    SendReaches(w1, 2);
    SendReaches(w2, 3);
    ReachesFurther(OPENED, w1, w2);
    assert w2.claims[3 := Asked(None)] == SENT.claims;
    ReachesFurther(OPENED, w2, SENT);
  }

  function FirstClaimed(): Tables {
    Tables(map["a" := Desk("ann", "one", false, false)], LINKS["p" := Pairing("ann", "first", Status.Claimed, Some("a"), 9)])
  }

  function SecondClaimed(): Tables {
    Tables(FirstClaimed().machines["b" := Desk("ann", "two", false, false)],
           FirstClaimed().pairings["q" := Pairing("ann", "second", Status.Claimed, Some("b"), 9)])
  }

  lemma ThirdClaim()
    ensures Claim(SecondClaimed(), "r", "three", None, "desk", "c").0 == AllClaimed(false, false, false)
  {
    var t := Claim(SecondClaimed(), "r", "three", None, "desk", "c").0;
    assert t.machines == AllClaimed(false, false, false).machines;
    assert t.pairings == AllClaimed(false, false, false).pairings;
  }

  // and each is answered with a new one.
  lemma ClaimsAreAnswered()
    ensures Reaches(SENT, ANSWERED)
  {
    var w1 := SENT.(t := FirstClaimed(), claims := SENT.claims[1 := Answered("one")]);
    var w2 := w1.(t := SecondClaimed(), claims := w1.claims[2 := Answered("two")]);
    ThirdClaim();
    ServeReaches(SENT, 1, "p", "one", "a", w1.t);
    ServeReaches(w1, 2, "q", "two", "b", w2.t);
    ServeReaches(w2, 3, "r", "three", "c", AllClaimed(false, false, false));
    ReachesFurther(SENT, w1, w2);
    assert w2.claims[3 := Answered("three")] == ANSWERED.claims;
    ReachesFurther(SENT, w2, ANSWERED);
  }

  const WORKING := World(AllClaimed(true, false, false), 0, Some("one"), None, Idle, map[2 := Answered("two"), 3 := Answered("three")])
  const COMPARED := World(AllClaimed(true, true, false), 0, Some("one"), Some("two"), Promoting("two"), map[3 := Answered("three")])
  const UNPAIRED := World(AllClaimed(true, true, true), 0, Some("three"), None, Idle, map[])

  lemma FirstApproved()
    ensures Approve(AllClaimed(false, false, false), "ann", "p", 0) == AllClaimed(true, false, false)
    ensures Accepted(AllClaimed(true, false, false), "one")
  {
    assert AcceptedAs(AllClaimed(true, false, false), "a", "one");
  }

  lemma SecondApproved()
    ensures Approve(AllClaimed(true, false, false), "ann", "q", 0) == AllClaimed(true, true, false)
    ensures Accepted(AllClaimed(true, true, false), "two")
  {
    assert AcceptedAs(AllClaimed(true, true, false), "b", "two");
  }

  lemma ThirdDeclined()
    ensures Decline(AllClaimed(true, true, false), "bob", "r") == AllClaimed(true, true, true)
    ensures Refused(AllClaimed(true, true, true), "three", 0)
  {
    assert RefusedAs(AllClaimed(true, true, true), "c", "three", 0);
  }

  // An answer is saved, its pairing is decided, and the daemon compares it.
  lemma SettledReaches(w: World, k: ClaimId, c: Credential, s: Step, t: Tables)
    requires w.dial.Idle? && k in w.claims && w.claims[k] == Answered(c)
    requires !s.RevokeStep? && Stepped(w.t, s, w.now) == t && Accepted(t, c)
    ensures Reaches(w, w.(t := t, pending := Some(c), claims := w.claims - {k}, dial := Promoting(c)))
  {
    var w1 := w.(pending := Some(c), claims := w.claims - {k});
    SaveReaches(w, k);
    ServerReaches(w1, s, t);
    CompareReaches(w1.(t := t), c);
    ReachesFurther(w, w1, w1.(t := t));
    ReachesFurther(w, w1.(t := t), w1.(t := t, dial := Promoting(c)));
  }

  // The first is saved, approved and promoted: the computer works.
  lemma TheFirstIsPaired()
    ensures Reaches(ANSWERED, WORKING) && Connectable(WORKING)
  {
    FirstApproved();
    var w := World(AllClaimed(true, false, false), 0, None, Some("one"), Promoting("one"), WORKING.claims);
    assert ANSWERED.claims - {1} == WORKING.claims;
    SettledReaches(ANSWERED, 1, "one", ApproveStep("ann", "p"), w.t);
    RenameReaches(w);
    ReachesFurther(ANSWERED, w, WORKING);
  }

  // The second is saved and approved, and the daemon compares it.
  lemma TheSecondIsCompared()
    ensures Reaches(WORKING, COMPARED)
  {
    SecondApproved();
    assert WORKING.claims - {2} == COMPARED.claims;
    SettledReaches(WORKING, 2, "two", ApproveStep("ann", "q"), COMPARED.t);
  }

  // The third is saved before the rename, and then declined.
  lemma TheThirdOvertakesIt()
    ensures Reaches(COMPARED, UNPAIRED) && EndsRefused(UNPAIRED)
  {
    ThirdDeclined();
    var w1 := COMPARED.(pending := Some("three"), claims := map[]);
    var w2 := w1.(main := Some("three"), pending := None, dial := Idle);
    assert COMPARED.claims - {3} == map[];
    SaveReaches(COMPARED, 3);
    RenameReaches(w1);
    ServerReaches(w2, DeclineStep("bob", "r"), UNPAIRED.t);
    ReachesFurther(COMPARED, w1, w2);
    ReachesFurther(COMPARED, w2, UNPAIRED);
  }

  // From empty tables and empty files, with nobody revoking anything: a computer
  // that works ends with only a credential that is refused for good.
  lemma ClaimSavedBeforeTheRenameUnpairs()
    ensures exists w, v :: Reaches(EMPTY, w) && Connectable(w) && Reaches(w, v) && EndsRefused(v)
  {
    LinksAreMade();
    ClaimsAreSent();
    ClaimsAreAnswered();
    TheFirstIsPaired();
    TheSecondIsCompared();
    TheThirdOvertakesIt();
    ReachesFurther(EMPTY, OPENED, SENT);
    ReachesFurther(EMPTY, SENT, ANSWERED);
    ReachesFurther(EMPTY, ANSWERED, WORKING);
    ReachesFurther(WORKING, COMPARED, UNPAIRED);
  }
}
