/**
Signing in against changing the password of one account. Every transaction is
taken apart: waiting for the row lock, reading the row, checking the password,
writing, deleting the sessions, inserting one, committing. Any number of them
interleave, none sees what another has not committed, and each keeps its lock
until it commits or rolls back.
*/
module SignIn {
  import opened Common

  type Password = string
  type TxId = nat
  type SessionId = nat

  // What argon2 makes of a password and a salt: it verifies that password only.
  datatype Hash = Hash(password: Password, salt: nat)

  datatype Purpose =
    | SigningIn(password: Password)
    | Changing(current: Password, next: Hash)
    | Resetting(next: Hash)
    | Registering(next: Hash)
    | Starting // StartSession: no lock, no check.
  {
    predicate SetsPassword() { Changing? || Resetting? }
    predicate TakesLock() { SigningIn? || SetsPassword() }
  }

  // A session, how it came about, and the password hash it was made under.
  datatype Session = Session(origin: Purpose, under: Option<Hash>)

  datatype Progress = Waiting | Locked | HasRead | Verified | Written | Deleted | Inserted | Over(committed: bool)

  datatype Tx = Tx(purpose: Purpose, at: Progress, read: Option<Hash>, doomed: set<SessionId>, mine: Option<(SessionId, Session)>) {
    // A lock is held from the locking read to the end of the transaction.
    predicate HoldsLock() { purpose.TakesLock() && !at.Waiting? && !at.Over? }
    predicate Excludes() { HoldsLock() && purpose.SetsPassword() }
  }

  // One password set by a committed transaction, and the one its own current
  // password was checked against, if it checked.
  datatype Setting = Setting(checked: Option<Hash>, to: Hash)

  datatype Database = Database(account: Option<Hash>, sessions: map<SessionId, Session>, txs: map<TxId, Tx>, history: seq<Setting>)

  datatype Step =
    | Begin(id: TxId, purpose: Purpose)
    | Lock(id: TxId)
    | Read(id: TxId)
    | Verify(id: TxId)
    | Write(id: TxId)
    | DeleteSessions(id: TxId)
    | Insert(id: TxId, session: SessionId)
    | Commit(id: TxId)
    | Rollback(id: TxId)

  function At(d: Database, id: TxId, tx: Tx): Database {
    d.(txs := d.txs[id := tx])
  }

  // FOR SHARE waits for a FOR UPDATE holder; FOR UPDATE waits for any holder.
  predicate LockIsFree(d: Database, purpose: Purpose) {
    forall other :: other in d.txs && d.txs[other].HoldsLock() ==> !purpose.SetsPassword() && !d.txs[other].Excludes()
  }

  // A session token is drawn at random: no other session has or will have it.
  predicate FreshSession(d: Database, s: SessionId) {
    && s !in d.sessions
    && forall other :: other in d.txs ==> s !in d.txs[other].doomed && (d.txs[other].mine.Some? ==> d.txs[other].mine.value.0 != s)
  }

  function Begun(d: Database, id: TxId, purpose: Purpose): Database {
    if id in d.txs then d else At(d, id, Tx(purpose, Waiting, None, {}, None))
  }

  function LockedBy(d: Database, id: TxId, tx: Tx): Database {
    if !tx.at.Waiting? || !tx.purpose.TakesLock() || !LockIsFree(d, tx.purpose) then d
    else if d.account.None? then At(d, id, tx.(at := Over(false)))
    else At(d, id, tx.(at := Locked))
  }

  function VerifiedBy(d: Database, id: TxId, tx: Tx): Database {
    if !tx.at.HasRead? || tx.read.None? then d
    else
      var ok := match tx.purpose
        case SigningIn(p) => tx.read.value.password == p
        case Changing(p, _) => tx.read.value.password == p
        case _ => true;
      At(d, id, tx.(at := if ok then Verified else Over(false)))
  }

  // The session a transaction inserts, when it has come to inserting one.
  function NewSession(d: Database, tx: Tx): Option<Session> {
    match tx.purpose
    case SigningIn(_) => if tx.at.Verified? then Some(Session(tx.purpose, tx.read)) else None
    case Resetting(next) => if tx.at.Deleted? then Some(Session(tx.purpose, Some(next))) else None
    case Registering(next) => if tx.at.Waiting? then Some(Session(tx.purpose, Some(next))) else None
    case Starting => if tx.at.Waiting? then Some(Session(tx.purpose, d.account)) else None
    case Changing(_, _) => None
  }

  function InsertedBy(d: Database, id: TxId, tx: Tx, s: SessionId): Database {
    var session := NewSession(d, tx);
    if session.None? || !FreshSession(d, s) then d
    else At(d, id, tx.(at := Inserted, mine := Some((s, session.value))))
  }

  predicate ReadyToCommit(tx: Tx) {
    if tx.purpose.Changing? then tx.at.Deleted? else tx.at.Inserted?
  }

  function SessionsAfter(d: Database, tx: Tx): map<SessionId, Session> {
    var kept := map s | s in d.sessions && s !in tx.doomed :: d.sessions[s];
    if tx.mine.Some? then kept[tx.mine.value.0 := tx.mine.value.1] else kept
  }

  function CommittedBy(d: Database, id: TxId, tx: Tx): Database {
    if !ReadyToCommit(tx) then d
    else if tx.purpose.Registering? && d.account.Some? then At(d, id, tx.(at := Over(false)))
    else
      var d1 := At(d, id, tx.(at := Over(true))).(sessions := SessionsAfter(d, tx));
      if tx.purpose.SetsPassword() || tx.purpose.Registering? then
        d1.(account := Some(tx.purpose.next), history := d.history + [Setting(if tx.purpose.Changing? then tx.read else None, tx.purpose.next)])
      else d1
  }

  function Next(d: Database, s: Step): Database {
    if s.Begin? then Begun(d, s.id, s.purpose)
    else if s.id !in d.txs then d
    else
      var tx := d.txs[s.id];
      match s
      case Begin(_, _) => d
      case Lock(id) => LockedBy(d, id, tx)
      case Read(id) => if tx.at.Locked? then At(d, id, tx.(at := HasRead, read := d.account)) else d
      case Verify(id) => VerifiedBy(d, id, tx)
      case Write(id) => if tx.at.Verified? && tx.purpose.SetsPassword() then At(d, id, tx.(at := Written)) else d
      case DeleteSessions(id) => if tx.at.Written? then At(d, id, tx.(at := Deleted, doomed := d.sessions.Keys)) else d
      case Insert(id, session) => InsertedBy(d, id, tx, session)
      case Commit(id) => CommittedBy(d, id, tx)
      case Rollback(id) => if tx.at.Over? then d else At(d, id, tx.(at := Over(false)))
  }

  function After(d: Database, run: seq<Step>, n: nat): Database
    requires n <= |run|
  {
    if n == 0 then d else Next(After(d, run, n - 1), run[n - 1])
  }

  // ---------------------------------------------------------------------------
  // the invariant
  // ---------------------------------------------------------------------------

  ghost predicate OneWriter(d: Database) {
    forall a, b :: a in d.txs && b in d.txs && a != b && d.txs[a].Excludes() ==> !d.txs[b].HoldsLock()
  }

  // What a transaction has done so far, and what its lock keeps true meanwhile.
  predicate Sound(d: Database, tx: Tx) {
    && (tx.HoldsLock() ==> d.account.Some?)
    && (tx.HoldsLock() && !tx.at.Locked? ==> tx.read == d.account)
    && (tx.HoldsLock() && tx.purpose.SigningIn? && tx.at in {Verified, Inserted} ==> tx.read.Some? && tx.read.value.password == tx.purpose.password)
    && (tx.HoldsLock() && tx.purpose.Changing? && tx.at in {Verified, Written, Deleted, Inserted}
        ==> tx.read.Some? && tx.read.value.password == tx.purpose.current)
    && (tx.at in {Written, Deleted} ==> tx.purpose.SetsPassword())
    && (tx.at in {Locked, HasRead, Verified} ==> tx.purpose.TakesLock())
    && (tx.purpose.Changing? ==> tx.mine.None?)
    && (tx.at.Inserted? ==> tx.mine.Some? && tx.mine.value.1.origin == tx.purpose)
    && (tx.at.Inserted? && tx.purpose.SigningIn? ==> tx.mine.value.1.under == tx.read)
    && (tx.at.Inserted? && (tx.purpose.Resetting? || tx.purpose.Registering?) ==> tx.mine.value.1.under == Some(tx.purpose.next))
    && (!tx.purpose.SetsPassword() ==> tx.doomed == {})
    && (!tx.at.Inserted? && !tx.at.Over? ==> tx.mine.None?)
  }

  // Between its delete and its commit, a change has every session it must end.
  predicate DeletesAll(d: Database, tx: Tx) {
    tx.Excludes() && tx.at in {Deleted, Inserted} ==> forall s :: s in d.sessions && !d.sessions[s].origin.Starting? ==> s in tx.doomed
  }

  ghost predicate AllSound(d: Database) {
    forall id :: id in d.txs ==> Sound(d, d.txs[id]) && DeletesAll(d, d.txs[id])
  }

  // A session made by proving or setting a password was made under the current one.
  predicate Current(d: Database, s: Session) {
    && (!s.origin.Starting? ==> d.account.Some? && s.under == d.account)
    && (s.origin.SigningIn? ==> d.account.Some? && d.account.value.password == s.origin.password)
  }

  ghost predicate AllCurrent(d: Database) {
    forall s :: s in d.sessions ==> Current(d, d.sessions[s])
  }

  function HashBefore(start: Option<Hash>, history: seq<Setting>, i: nat): Option<Hash>
    requires i <= |history|
  {
    if i == 0 then start else Some(history[i - 1].to)
  }

  // Every change was checked against the very password it replaced.
  ghost predicate NoLostChange(start: Option<Hash>, d: Database) {
    && d.account == HashBefore(start, d.history, |d.history|)
    && forall i :: 0 <= i < |d.history| ==> d.history[i].checked.None? || d.history[i].checked == HashBefore(start, d.history, i)
  }

  ghost predicate Inv(start: Option<Hash>, d: Database) {
    OneWriter(d) && AllSound(d) && AllCurrent(d) && NoLostChange(start, d)
  }

  // ---------------------------------------------------------------------------
  // every step keeps it
  // ---------------------------------------------------------------------------

  // A step of one transaction that changes nothing another can see.
  lemma PrivateStep(start: Option<Hash>, d: Database, id: TxId, tx: Tx)
    requires Inv(start, d)
    requires Sound(d, tx) && DeletesAll(d, tx)
    requires tx.HoldsLock() ==> id in d.txs && d.txs[id].HoldsLock() && d.txs[id].purpose == tx.purpose
    ensures Inv(start, At(d, id, tx))
  {
  }

  lemma LockStep(start: Option<Hash>, d: Database, id: TxId)
    requires Inv(start, d) && id in d.txs
    ensures Inv(start, LockedBy(d, id, d.txs[id]))
  {
  }

  // A commit of a sign-in or a plain session start: the account is as it was.
  lemma SessionCommit(start: Option<Hash>, d: Database, id: TxId)
    requires Inv(start, d) && id in d.txs && ReadyToCommit(d.txs[id])
    requires d.txs[id].purpose.SigningIn? || d.txs[id].purpose.Starting?
    ensures Inv(start, CommittedBy(d, id, d.txs[id]))
  {
  }

  // A commit that sets the password: no other transaction holds the lock, and
  // every session but its own and the unchecked ones is gone.
  lemma PasswordCommit(start: Option<Hash>, d: Database, id: TxId)
    requires Inv(start, d) && id in d.txs && ReadyToCommit(d.txs[id])
    requires d.txs[id].purpose.SetsPassword() || (d.txs[id].purpose.Registering? && d.account.None?)
    ensures Inv(start, CommittedBy(d, id, d.txs[id]))
  {
  }

  lemma StepKeepsInv(start: Option<Hash>, d: Database, s: Step)
    requires Inv(start, d)
    ensures Inv(start, Next(d, s))
  {
    if s.Begin? {
      if s.id !in d.txs {
        PrivateStep(start, d, s.id, Tx(s.purpose, Waiting, None, {}, None));
      }
    } else if s.id in d.txs {
      var tx := d.txs[s.id];
      assert Sound(d, tx) && DeletesAll(d, tx);
      if s.Lock? {
        LockStep(start, d, s.id);
      } else if s.Commit? && ReadyToCommit(tx) && tx.purpose.Registering? && d.account.Some? {
        PrivateStep(start, d, s.id, tx.(at := Over(false)));
      } else if s.Commit? && ReadyToCommit(tx) {
        if tx.purpose.SigningIn? || tx.purpose.Starting? {
          SessionCommit(start, d, s.id);
        } else {
          PasswordCommit(start, d, s.id);
        }
      } else if Next(d, s) != d {
        PrivateStep(start, d, s.id, Next(d, s).txs[s.id]);
        assert Next(d, s) == At(d, s.id, Next(d, s).txs[s.id]);
      }
    }
  }

  ghost predicate Fresh(d: Database) {
    d.sessions == map[] && d.txs == map[] && d.history == []
  }

  lemma {:induction false} RunKeepsInv(d: Database, run: seq<Step>, n: nat)
    requires Fresh(d) && n <= |run|
    ensures Inv(d.account, After(d, run, n))
  {
    if n > 0 {
      RunKeepsInv(d, run, n - 1);
      StepKeepsInv(d.account, After(d, run, n - 1), run[n - 1]);
    }
  }

  // Main result: however sign-ins, changes and resets interleave, a live session
  // made by signing in is one made with the account's present password, under
  // the hash the account has now; so are those of resets and registrations.
  lemma RevokedPasswordLeavesNoSession(d: Database, run: seq<Step>, n: nat, s: SessionId)
    requires Fresh(d) && n <= |run| && s in After(d, run, n).sessions
    ensures
      var e := After(d, run, n);
      && (!e.sessions[s].origin.Starting? ==> e.account.Some? && e.sessions[s].under == e.account)
      && (e.sessions[s].origin.SigningIn? ==> e.account.value.password == e.sessions[s].origin.password)
  {
    RunKeepsInv(d, run, n);
  }

  // Main result: simultaneous changes are serialised. Each proved the very
  // password it replaced, so none is silently overwritten.
  lemma ChangesAreSerialised(d: Database, run: seq<Step>, n: nat, i: nat)
    requires Fresh(d) && n <= |run| && i < |After(d, run, n).history|
    ensures
      var e := After(d, run, n);
      && e.account == Some(e.history[|e.history| - 1].to)
      && (e.history[i].checked.Some? ==> e.history[i].checked == HashBefore(d.account, e.history, i))
  {
    RunKeepsInv(d, run, n);
  }

  // ---------------------------------------------------------------------------
  // no session takes another's place
  // ---------------------------------------------------------------------------

  predicate Inserting(d: Database, id: TxId) {
    id in d.txs && !d.txs[id].at.Over? && d.txs[id].mine.Some?
  }

  ghost predicate OwnIds(d: Database) {
    && (forall id :: Inserting(d, id) ==> d.txs[id].mine.value.0 !in d.sessions)
    && (forall a, b :: Inserting(d, a) && Inserting(d, b) && d.txs[a].mine.value.0 == d.txs[b].mine.value.0 ==> a == b)
  }

  lemma CommitKeepsOwnIds(d: Database, id: TxId)
    requires OwnIds(d) && id in d.txs
    ensures OwnIds(CommittedBy(d, id, d.txs[id]))
    ensures forall s :: s in d.sessions && s in CommittedBy(d, id, d.txs[id]).sessions ==>
              CommittedBy(d, id, d.txs[id]).sessions[s] == d.sessions[s]
  {
    var e := CommittedBy(d, id, d.txs[id]);
    if e != d {
      assert d.txs[id].mine.Some? && !d.txs[id].at.Over? ==> Inserting(d, id);
      forall other | Inserting(e, other)
        ensures other != id && Inserting(d, other)
      {
      }
    }
  }

  lemma InsertKeepsOwnIds(d: Database, id: TxId, s: SessionId)
    requires OwnIds(d) && id in d.txs
    ensures OwnIds(InsertedBy(d, id, d.txs[id], s)) && InsertedBy(d, id, d.txs[id], s).sessions == d.sessions
  {
    var e := InsertedBy(d, id, d.txs[id], s);
    assert forall other :: Inserting(e, other) && other != id ==> Inserting(d, other) && e.txs[other] == d.txs[other];
  }

  lemma StepKeepsOwnIds(d: Database, s: Step)
    requires OwnIds(d)
    ensures OwnIds(Next(d, s))
    ensures forall k :: k in d.sessions && k in Next(d, s).sessions ==> Next(d, s).sessions[k] == d.sessions[k]
  {
    if s.Commit? && s.id in d.txs {
      CommitKeepsOwnIds(d, s.id);
    } else if s.Insert? && s.id in d.txs {
      InsertKeepsOwnIds(d, s.id, s.session);
    } else {
      var e := Next(d, s);
      assert e.sessions == d.sessions;
      assert forall id :: Inserting(e, id) ==> Inserting(d, id) && e.txs[id].mine == d.txs[id].mine;
    }
  }

  // A session is only ever made or ended, never replaced by another under its id.
  lemma {:induction false} SessionsAreNeverReplaced(d: Database, run: seq<Step>, n: nat)
    requires Fresh(d) && n <= |run|
    ensures OwnIds(After(d, run, n))
    ensures n < |run| ==> forall s :: s in After(d, run, n).sessions && s in After(d, run, n + 1).sessions ==>
              After(d, run, n + 1).sessions[s] == After(d, run, n).sessions[s]
  {
    if n > 0 {
      SessionsAreNeverReplaced(d, run, n - 1);
      StepKeepsOwnIds(After(d, run, n - 1), run[n - 1]);
    }
    if n < |run| {
      StepKeepsOwnIds(After(d, run, n), run[n]);
    }
  }

  // ---------------------------------------------------------------------------
  // and what should happen does, when nothing interferes
  // ---------------------------------------------------------------------------

  lemma StepAt(d: Database, run: seq<Step>, n: nat)
    requires n < |run|
    ensures After(d, run, n + 1) == Next(After(d, run, n), run[n])
  {
  }

  // Over is over: nothing moves a transaction that has committed or rolled back.
  lemma {:induction false} OverForGood(d: Database, run: seq<Step>, i: nat, n: nat, id: TxId)
    requires i <= n <= |run| && id in After(d, run, i).txs && After(d, run, i).txs[id].at.Over?
    ensures id in After(d, run, n).txs && After(d, run, n).txs[id] == After(d, run, i).txs[id]
    decreases n
  {
    if n > i {
      OverForGood(d, run, i, n - 1, id);
      OverStays(After(d, run, n - 1), run[n - 1], id);
    }
  }

  lemma OverStays(d: Database, s: Step, id: TxId)
    requires id in d.txs && d.txs[id].at.Over?
    ensures id in Next(d, s).txs && Next(d, s).txs[id] == d.txs[id]
    ensures s.id == id ==> Next(d, s) == d
  {
  }

  // Nor do its own further steps do anything.
  lemma {:induction false} StaysAsItWas(d: Database, run: seq<Step>, i: nat, n: nat, id: TxId)
    requires i <= n <= |run| && id in After(d, run, i).txs && After(d, run, i).txs[id].at.Over?
    requires forall k :: i <= k < n ==> run[k].id == id
    ensures After(d, run, n) == After(d, run, i)
    decreases n
  {
    if n > i {
      StaysAsItWas(d, run, i, n - 1, id);
      OverStays(After(d, run, n - 1), run[n - 1], id);
    }
  }

  // A sign-in takes the lock along with other sign-ins, a change or reset only alone.
  lemma WhoMayLock(d: Database, purpose: Purpose)
    ensures LockIsFree(d, purpose) <==>
            forall other :: other in d.txs && d.txs[other].HoldsLock() ==>
              !(purpose.Changing? || purpose.Resetting?) && !(d.txs[other].purpose.Changing? || d.txs[other].purpose.Resetting?)
  {
    forall other | other in d.txs && d.txs[other].HoldsLock()
      ensures d.txs[other].Excludes() <==> d.txs[other].purpose.Changing? || d.txs[other].purpose.Resetting?
    {
    }
  }

  // A transaction that locks the account gets as far as reading it, if it is there.
  lemma LocksAndReads(d: Database, run: seq<Step>, id: TxId, purpose: Purpose)
    requires id !in d.txs && LockIsFree(d, purpose) && purpose.TakesLock()
    requires |run| >= 3 && run[0] == Begin(id, purpose) && run[1] == Lock(id) && run[2] == Read(id)
    ensures After(d, run, 3) == At(d, id, Tx(purpose, if d.account.Some? then HasRead else Over(false), d.account, {}, None))
  {
    assert After(d, run, 1) == Next(After(d, run, 0), run[0]);
    var e1 := At(d, id, Tx(purpose, Waiting, None, {}, None));
    assert After(d, run, 1) == e1;
    assert LockIsFree(e1, purpose);
    assert After(d, run, 2) == Next(e1, run[1]);
    assert After(d, run, 2) == At(d, id, Tx(purpose, if d.account.Some? then Locked else Over(false), None, {}, None));
    assert After(d, run, 3) == Next(After(d, run, 2), run[2]);
  }

  // And a sign-in or change checks the password it was given.
  lemma LocksReadsAndVerifies(d: Database, run: seq<Step>, id: TxId, purpose: Purpose, given: Password)
    requires id !in d.txs && LockIsFree(d, purpose) && d.account.Some?
    requires purpose == SigningIn(given) || (purpose.Changing? && purpose.current == given)
    requires |run| >= 4 && run[0] == Begin(id, purpose) && run[1] == Lock(id) && run[2] == Read(id) && run[3] == Verify(id)
    ensures After(d, run, 4) ==
            At(d, id, Tx(purpose, if d.account.value.password == given then Verified else Over(false), d.account, {}, None))
  {
    LocksAndReads(d, run, id, purpose);
    StepAt(d, run, 3);
  }

  // The rest of a sign-in, from the right password on.
  lemma SignInEnds(d: Database, id: TxId, p: Password, s: SessionId, e: Database)
    requires id !in d.txs && d.account.Some? && FreshSession(d, s)
    requires e == At(d, id, Tx(SigningIn(p), Verified, d.account, {}, None))
    ensures
      var f := Next(Next(e, Insert(id, s)), Commit(id));
      && id in f.txs && f.txs[id].at == Over(true)
      && f.sessions == d.sessions[s := Session(SigningIn(p), d.account)] && f.account == d.account && f.history == d.history
  {
    assert FreshSession(e, s);
    NothingDoomed(d, Next(e, Insert(id, s)), id);
  }

  function Signed(d: Database, id: TxId, p: Password, s: SessionId): Database {
    var run := [Begin(id, SigningIn(p)), Lock(id), Read(id), Verify(id), Insert(id, s), Commit(id)];
    After(d, run, |run|)
  }

  // With the lock free, a sign-in makes a session exactly with the right password,
  // and is over either way, leaving all other sessions and the account as they were.
  lemma RightPasswordSignsInIff(d: Database, id: TxId, p: Password, s: SessionId)
    requires d.account.Some? && id !in d.txs && LockIsFree(d, SigningIn(p)) && FreshSession(d, s)
    ensures
      var e, right := Signed(d, id, p, s), d.account.value.password == p;
      && e.sessions == (if right then d.sessions[s := Session(SigningIn(p), d.account)] else d.sessions)
      && e.account == d.account && e.history == d.history
      && id in e.txs && e.txs[id].at == Over(right)
  {
    var run := [Begin(id, SigningIn(p)), Lock(id), Read(id), Verify(id), Insert(id, s), Commit(id)];
    LocksReadsAndVerifies(d, run, id, SigningIn(p), p);
    if d.account.value.password == p {
      StepAt(d, run, 4);
      StepAt(d, run, 5);
      SignInEnds(d, id, p, s, After(d, run, 4));
    } else {
      StaysAsItWas(d, run, 4, 6, id);
    }
  }

  // The rest of a change, from the right password on.
  lemma ChangeEnds(d: Database, id: TxId, current: Password, next: Hash, e: Database)
    requires id !in d.txs && d.account.Some?
    requires e == At(d, id, Tx(Changing(current, next), Verified, d.account, {}, None))
    ensures
      var f := Next(Next(Next(e, Write(id)), DeleteSessions(id)), Commit(id));
      && id in f.txs && f.txs[id].at == Over(true)
      && f.account == Some(next) && f.sessions == map[] && f.history == d.history + [Setting(d.account, next)]
  {
    var g := Next(Next(e, Write(id)), DeleteSessions(id));
    assert g == At(d, id, Tx(Changing(current, next), Deleted, d.account, d.sessions.Keys, None));
  }

  function Changed(d: Database, id: TxId, current: Password, next: Hash): Database {
    var run := [Begin(id, Changing(current, next)), Lock(id), Read(id), Verify(id), Write(id), DeleteSessions(id), Commit(id)];
    After(d, run, |run|)
  }

  // With the lock free, a change with the right password replaces it and ends
  // every session; with a wrong one it changes nothing.
  lemma ChangeTakesEffectIff(d: Database, id: TxId, current: Password, next: Hash)
    requires d.account.Some? && id !in d.txs && LockIsFree(d, Changing(current, next))
    ensures
      var e, right := Changed(d, id, current, next), d.account.value.password == current;
      && id in e.txs && e.txs[id].at == Over(right)
      && if right then e.account == Some(next) && e.sessions == map[] && e.history == d.history + [Setting(d.account, next)]
         else e.account == d.account && e.sessions == d.sessions && e.history == d.history
  {
    var run := [Begin(id, Changing(current, next)), Lock(id), Read(id), Verify(id), Write(id), DeleteSessions(id), Commit(id)];
    LocksReadsAndVerifies(d, run, id, Changing(current, next), current);
    if d.account.value.password == current {
      StepAt(d, run, 4);
      StepAt(d, run, 5);
      StepAt(d, run, 6);
      ChangeEnds(d, id, current, next, After(d, run, 4));
    } else {
      StaysAsItWas(d, run, 4, 7, id);
    }
  }

  // The rest of a reset, from its new password on.
  lemma ResetEnds(d: Database, id: TxId, next: Hash, s: SessionId, e: Database)
    requires FreshSession(d, s) && id !in d.txs && d.account.Some?
    requires e == At(d, id, Tx(Resetting(next), Written, d.account, {}, None))
    ensures
      var f := Next(Next(Next(e, DeleteSessions(id)), Insert(id, s)), Commit(id));
      && id in f.txs && f.txs[id].at == Over(true)
      && f.account == Some(next) && f.sessions == map[s := Session(Resetting(next), Some(next))]
      && f.history == d.history + [Setting(None, next)]
  {
    var g := Next(e, DeleteSessions(id));
    assert g == At(d, id, Tx(Resetting(next), Deleted, d.account, d.sessions.Keys, None));
    assert FreshSession(g, s);
    assert Next(g, Insert(id, s)) ==
           At(d, id, Tx(Resetting(next), Inserted, d.account, d.sessions.Keys, Some((s, Session(Resetting(next), Some(next))))));
  }

  // A commit that ends no session keeps them all.
  lemma NothingDoomed(d: Database, e: Database, id: TxId)
    requires id in e.txs && e.txs[id].doomed == {} && e.sessions == d.sessions
    ensures SessionsAfter(e, e.txs[id]) ==
            if e.txs[id].mine.Some? then d.sessions[e.txs[id].mine.value.0 := e.txs[id].mine.value.1] else d.sessions
  {
    assert (map k | k in e.sessions && k !in e.txs[id].doomed :: e.sessions[k]) == d.sessions;
  }

  lemma ResetWrites(d: Database, run: seq<Step>, id: TxId, next: Hash)
    requires id !in d.txs && LockIsFree(d, Resetting(next)) && |run| >= 5
    requires run[0] == Begin(id, Resetting(next)) && run[1] == Lock(id) && run[2] == Read(id) && run[3] == Verify(id) && run[4] == Write(id)
    ensures After(d, run, 5) == At(d, id, Tx(Resetting(next), if d.account.Some? then Written else Over(false), d.account, {}, None))
  {
    LocksAndReads(d, run, id, Resetting(next));
    StepAt(d, run, 3);
    StepAt(d, run, 4);
    assert After(d, run, 4) == At(d, id, Tx(Resetting(next), if d.account.Some? then Verified else Over(false), d.account, {}, None));
  }

  function Reset(d: Database, id: TxId, next: Hash, s: SessionId): Database {
    var run := [Begin(id, Resetting(next)), Lock(id), Read(id), Verify(id), Write(id), DeleteSessions(id), Insert(id, s), Commit(id)];
    After(d, run, |run|)
  }

  // With the lock free, a reset sets the password, ends every session and starts
  // one of its own; without an account it changes nothing.
  lemma ResetTakesEffectIff(d: Database, id: TxId, next: Hash, s: SessionId)
    requires id !in d.txs && LockIsFree(d, Resetting(next)) && FreshSession(d, s)
    ensures
      var e := Reset(d, id, next, s);
      && id in e.txs && e.txs[id].at == Over(d.account.Some?)
      && if d.account.Some? then
           && e.account == Some(next) && e.sessions == map[s := Session(Resetting(next), Some(next))]
           && e.history == d.history + [Setting(None, next)]
         else e.account == None && e.sessions == d.sessions && e.history == d.history
  {
    var run := [Begin(id, Resetting(next)), Lock(id), Read(id), Verify(id), Write(id), DeleteSessions(id), Insert(id, s), Commit(id)];
    ResetWrites(d, run, id, next);
    if d.account.Some? {
      StepAt(d, run, 5);
      StepAt(d, run, 6);
      StepAt(d, run, 7);
      ResetEnds(d, id, next, s, After(d, run, 5));
    } else {
      StaysAsItWas(d, run, 5, 8, id);
    }
  }

  function Registered(d: Database, id: TxId, next: Hash, s: SessionId): Database {
    var run := [Begin(id, Registering(next)), Insert(id, s), Commit(id)];
    After(d, run, |run|)
  }

  // A registration makes the account and its first session, unless the account is there.
  lemma RegistrationTakesEffectIff(d: Database, id: TxId, next: Hash, s: SessionId)
    requires id !in d.txs && FreshSession(d, s)
    ensures
      var e := Registered(d, id, next, s);
      && id in e.txs && e.txs[id].at == Over(d.account.None?)
      && if d.account.None? then
           e.account == Some(next) && e.sessions == d.sessions[s := Session(Registering(next), Some(next))]
         else e.account == d.account && e.sessions == d.sessions && e.history == d.history
  {
    var run := [Begin(id, Registering(next)), Insert(id, s), Commit(id)];
    StepAt(d, run, 0);
    StepAt(d, run, 1);
    StepAt(d, run, 2);
    assert FreshSession(After(d, run, 1), s);
    NothingDoomed(d, After(d, run, 2), id);
  }

  // A session started by itself is made whatever locks are held, and ends nothing.
  lemma StartingTakesEffect(d: Database, id: TxId, s: SessionId)
    requires id !in d.txs && FreshSession(d, s)
    ensures
      var e := After(d, [Begin(id, Starting), Insert(id, s), Commit(id)], 3);
      && e.sessions == d.sessions[s := Session(Starting, d.account)] && e.account == d.account
      && id in e.txs && e.txs[id].at == Over(true)
  {
    var run := [Begin(id, Starting), Insert(id, s), Commit(id)];
    StepAt(d, run, 0);
    StepAt(d, run, 1);
    StepAt(d, run, 2);
    assert FreshSession(After(d, run, 1), s);
    NothingDoomed(d, After(d, run, 2), id);
  }

  // A transaction rolled back at any point leaves no trace but that it is over,
  // and holds no lock.
  lemma RollbackChangesNothing(d: Database, id: TxId)
    requires id in d.txs && !d.txs[id].at.Over?
    ensures
      var e := Next(d, Rollback(id));
      && e.account == d.account && e.sessions == d.sessions && e.history == d.history
      && e.txs.Keys == d.txs.Keys && (forall other :: other in d.txs && other != id ==> e.txs[other] == d.txs[other])
      && e.txs[id].at == Over(false) && !e.txs[id].HoldsLock()
  {
  }
}
