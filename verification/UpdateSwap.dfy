/**
The updater process: it puts the new version in place and keeps it only if that
version reaches the server in time. What every call outside it comes to - each
file operation, each start, each look at the connected file - is a script; the
results hold for every script. The two files are kept as all the states they have
been in, the last being the present one, so that what holds of every state holds
wherever the computer might lose power.
*/
module UpdateSwap {
  import opened Common

  datatype Exe = Old | New | Partial

  // What a copy that fails leaves at the target.
  datatype Leftover = Nothing | Part | All {
    function AsTarget(): Option<Exe> {
      match this
      case Nothing => None
      case Part => Some(Partial)
      case All => Some(New)
    }
  }

  const SECOND := 1000
  const PUT_BACK_TRIES := 20

  // While the updater waits: whether the new copy records a connection, whether
  // it exits, and how much longer than a second the sleep takes.
  datatype Poll = Poll(connects: bool, exits: bool, late: nat)

  datatype Script = Script(
    stops: bool,               // the running copy stops
    moves: bool,               // the executable is renamed to the backup
    copies: bool,              // the new one is copied into place
    leaves: Leftover,          // and if it is not
    saysNew: bool,             // an old connected file names the new version
    clears: bool,              // that file is removed
    starts: bool,              // the new copy is started
    polls: nat -> Poll,
    wait: nat,
    removesBackup: bool,
    removesTarget: nat -> bool, // at each try to put the old one back
    putsBack: nat -> bool
  )

  // What the two files hold.
  datatype Disk = Disk(target: Option<Exe>, backup: Option<Exe>) {
    predicate HasOld() { target == Some(Old) || backup == Some(Old) }
  }

  // A connected file left from before that could not be removed.
  predicate Stale(s: Script) {
    s.saysNew && !s.clears
  }

  predicate Swapped(s: Script) {
    s.stops && s.moves
  }

  // The time since the start, at poll i.
  function Elapsed(s: Script, i: nat): (t: nat)
    ensures t >= i * SECOND
  {
    if i == 0 then 0 else Elapsed(s, i - 1) + SECOND + s.polls(i - 1).late
  }

  predicate Reached(s: Script, i: nat) {
    Elapsed(s, i) < s.wait && forall j :: 0 <= j < i ==> !s.polls(j).exits
  }

  predicate ConnectedBy(s: Script, i: nat) {
    exists j :: 0 <= j <= i && s.polls(j).connects
  }

  predicate SaysNew(s: Script, i: nat) {
    Stale(s) || ConnectedBy(s, i)
  }

  // The connected file names the new version at a poll that is reached.
  ghost predicate SeenInTime(s: Script) {
    exists i: nat :: Reached(s, i) && SaysNew(s, i)
  }

  ghost predicate Succeeds(s: Script) {
    Swapped(s) && s.copies && s.starts && SeenInTime(s)
  }

  predicate PutsBackWithin(s: Script, n: nat) {
    exists k :: 0 <= k < n && s.putsBack(k)
  }

  // ---------------------------------------------------------------------------
  // every state of the files, in order
  // ---------------------------------------------------------------------------

  type Disks = ds: seq<Disk> | |ds| > 0 witness [Disk(None, None)]

  function Last(ds: Disks): Disk {
    ds[|ds| - 1]
  }

  const INSTALLED: Disks := [Disk(Some(Old), None)]

  // The executable is renamed to the backup.
  const MOVED: Disks := INSTALLED + [Disk(None, Some(Old))]

  // The new one is copied into place.
  const COPIED: Disks := MOVED + [Disk(Some(Partial), Some(Old)), Disk(Some(New), Some(Old))]

  // A try to put the backup back: the target is removed, if it can be, and the
  // backup renamed over it, if it can be.
  function Tried(s: Script, ds: Disks, k: nat): Disks {
    var ds1 := if s.removesTarget(k) then ds + [Disk(None, Last(ds).backup)] else ds;
    if s.putsBack(k) then ds1 + [Disk(Last(ds1).backup, None)] else ds1
  }

  // The first n tries, up to one that works.
  function TriedUntil(s: Script, ds: Disks, n: nat): Disks {
    if n == 0 then ds
    else if PutsBackWithin(s, n - 1) then TriedUntil(s, ds, n - 1)
    else Tried(s, TriedUntil(s, ds, n - 1), n - 1)
  }

  ghost function AllDisks(s: Script): Disks {
    if !Swapped(s) then INSTALLED
    else if !s.copies then Tried(s, MOVED + [Disk(s.leaves.AsTarget(), Some(Old))], 0)
    else if !s.starts || !SeenInTime(s) then TriedUntil(s, COPIED, PUT_BACK_TRIES)
    else if s.removesBackup then COPIED + [Disk(Some(New), None)]
    else COPIED
  }

  class Updater {
    const s: Script
    var disks: Disks
    var recorded: bool
    ghost var started: seq<Option<Exe>>

    constructor (s: Script)
      ensures this.s == s && disks == INSTALLED && !recorded && started == []
    {
      this.s := s;
      disks, recorded, started := INSTALLED, false, [];
    }

    // giveUp: recorded before starting anything, because the copy started here
    // reads it.
    method GiveUp()
      modifies this`recorded, this`started
      ensures recorded && started == old(started) + [Last(disks).target]
    {
      recorded := true;
      started := started + [Last(disks).target];
    }

    method TryPutBack(k: nat) returns (ok: bool)
      modifies this`disks
      ensures disks == Tried(s, old(disks), k) && ok == s.putsBack(k)
      ensures var backup := Last(old(disks)).backup;
              disks == old(disks) + (if s.removesTarget(k) then [Disk(None, backup)] else []) + (if ok then [Disk(backup, None)] else [])
    {
      if s.removesTarget(k) {
        disks := disks + [Disk(None, Last(disks).backup)];
      }
      ok := s.putsBack(k);
      if ok {
        disks := disks + [Disk(Last(disks).backup, None)];
      }
    }

    // The retries: a killed copy's file is released a moment after it ends.
    method PutBackAtLast() returns (ok: bool)
      modifies this`disks
      ensures disks == TriedUntil(s, old(disks), PUT_BACK_TRIES) && ok == PutsBackWithin(s, PUT_BACK_TRIES)
    {
      ok := false;
      var i := 0;
      while i < PUT_BACK_TRIES && !ok
        invariant 0 <= i <= PUT_BACK_TRIES
        invariant disks == TriedUntil(s, old(disks), i) && ok == PutsBackWithin(s, i)
      {
        ok := TryPutBack(i);
        i := i + 1;
      }
      NoTriesAfterSuccess(s, old(disks), i, PUT_BACK_TRIES);
    }

    // Reads the connected file once a second until it names the new version,
    // the new copy exits, or the time is up.
    method AwaitConnection() returns (found: bool, ghost polls: nat)
      ensures found == SeenInTime(s)
      ensures found ==> Reached(s, polls) && SaysNew(s, polls)
    {
      var clock, deadline := 0, s.wait;
      var connected := Stale(s);
      polls := 0;
      var i := 0;
      while clock < deadline
        invariant polls == i && deadline <= s.wait
        invariant deadline == s.wait ==> clock == Elapsed(s, i)
        invariant forall j :: 0 <= j < i && clock < deadline ==> !s.polls(j).exits
        invariant connected == (Stale(s) || exists j :: 0 <= j < i && s.polls(j).connects)
        invariant forall n: nat :: n < i ==> !(Reached(s, n) && SaysNew(s, n))
        invariant deadline < s.wait ==> clock >= deadline && exists j :: 0 <= j < i && s.polls(j).exits
        decreases deadline - clock
      {
        var poll := s.polls(i);
        if poll.connects {
          connected := true;
        }
        if connected {
          assert Reached(s, i) && SaysNew(s, i);
          return true, i;
        }
        if poll.exits {
          deadline := clock;
        } else {
          clock := clock + SECOND + poll.late;
        }
        i := i + 1;
        polls := i;
      }
      NeverReachedAgain(s, i, deadline, clock);
      found := false;
    }

    method Run() returns (ok: bool)
      requires disks == INSTALLED && !recorded && started == []
      modifies this
      ensures disks == AllDisks(s) && ok == Succeeds(s)
      ensures ok ==> started == [Some(New)] && !recorded
      ensures !ok ==> recorded && |started| > 0 && started[|started| - 1] == Last(disks).target
    {
      if !s.stops {
        GiveUp();
        return false;
      }
      if !s.moves {
        GiveUp();
        return false;
      }
      disks := disks + [Disk(None, Last(disks).target)];
      assert disks == MOVED;
      if !s.copies {
        disks := disks + [Disk(s.leaves.AsTarget(), Last(disks).backup)];
        var _ := TryPutBack(0);
        GiveUp();
        return false;
      }
      disks := disks + [Disk(Some(Partial), Last(disks).backup)];
      disks := disks + [Disk(Some(New), Last(disks).backup)];
      assert disks == COPIED;
      if s.starts {
        started := started + [Last(disks).target];
        var found, polls := AwaitConnection();
        if found {
          if s.removesBackup {
            disks := disks + [Disk(Last(disks).target, None)];
          }
          return true;
        }
      }
      var _ := PutBackAtLast();
      GiveUp();
      return false;
    }
  }

  lemma {:induction false} NoTriesAfterSuccess(s: Script, ds: Disks, i: nat, n: nat)
    requires i <= n && (i < n ==> PutsBackWithin(s, i))
    ensures TriedUntil(s, ds, n) == TriedUntil(s, ds, i) && PutsBackWithin(s, n) == PutsBackWithin(s, i)
  {
    if i < n {
      NoTriesAfterSuccess(s, ds, i, n - 1);
    }
  }

  lemma {:induction false} ElapsedGrows(s: Script, i: nat, j: nat)
    requires i <= j
    ensures Elapsed(s, i) <= Elapsed(s, j)
  {
    if i < j {
      ElapsedGrows(s, i, j - 1);
    }
  }

  lemma NeverReachedAgain(s: Script, i: nat, deadline: int, clock: int)
    requires clock >= deadline
    requires deadline == s.wait ==> clock == Elapsed(s, i)
    requires deadline <= s.wait && (deadline < s.wait ==> exists j :: 0 <= j < i && s.polls(j).exits)
    requires forall n: nat :: n < i ==> !(Reached(s, n) && SaysNew(s, n))
    ensures !SeenInTime(s)
  {
    forall n: nat | n >= i
      ensures !Reached(s, n)
    {
      ElapsedGrows(s, i, n);
    }
  }

  // The new copy has connected by a poll that is reached.
  ghost predicate ConnectedInTime(s: Script) {
    exists i: nat, j: nat :: Reached(s, i) && j <= i && s.polls(j).connects
  }

  // The first look comes at once, and each other after a sleep, unless the new copy
  // has exited or the time is up.
  lemma ReachedIff(s: Script, i: nat)
    ensures Reached(s, 0) <==> s.wait > 0
    ensures Reached(s, i + 1) <==> Reached(s, i) && !s.polls(i).exits && Elapsed(s, i) + 1000 + s.polls(i).late < s.wait
    ensures Elapsed(s, 0) == 0 && Elapsed(s, i + 1) == Elapsed(s, i) + 1000 + s.polls(i).late
  {
  }

  // Main result: an update succeeds exactly when the new copy reached the server
  // in time, or a connected file left from before names the new version and could
  // not be removed: that file is taken for a connection at the first look.
  lemma SucceedsIff(s: Script)
    ensures Succeeds(s) <==>
            s.stops && s.moves && s.copies && s.starts && (ConnectedInTime(s) || (s.saysNew && !s.clears && s.wait > 0))
  {
    if Stale(s) && s.wait > 0 {
      assert Elapsed(s, 0) == 0;
      assert Reached(s, 0) && SaysNew(s, 0);
    }
    if ConnectedInTime(s) {
      var i: nat, j: nat :| Reached(s, i) && j <= i && s.polls(j).connects;
      assert ConnectedBy(s, i) && SaysNew(s, i);
    }
    if SeenInTime(s) && !Stale(s) {
      var i: nat :| Reached(s, i) && SaysNew(s, i);
      var j :| 0 <= j <= i && s.polls(j).connects;
    }
  }

  // What the files go through on the way in: the rename, then a copy that fails and
  // leaves what it leaves, or one that is seen half done and then whole.
  lemma PassesThrough(s: Script)
    ensures
      var ds := AllDisks(s);
      && ds[0] == Disk(Some(Old), None)
      && (|ds| > 1 <==> s.stops && s.moves)
      && (|ds| > 1 ==> |ds| > 2 && ds[1] == Disk(None, Some(Old)))
      && (|ds| > 1 && s.copies ==> |ds| > 3 && ds[2] == Disk(Some(Partial), Some(Old)) && ds[3] == Disk(Some(New), Some(Old)))
      && (|ds| > 1 && !s.copies ==>
            ds[2] == Disk(match s.leaves case Nothing => None case Part => Some(Partial) case All => Some(New), Some(Old)))
  {
    if Swapped(s) && s.copies && !Succeeds(s) {
      TriesExtend(s, COPIED, PUT_BACK_TRIES);
    }
  }

  lemma {:induction false} TriesExtend(s: Script, ds: Disks, n: nat)
    ensures ds <= TriedUntil(s, ds, n)
  {
    if n > 0 {
      TriesExtend(s, ds, n - 1);
    }
  }

  ghost predicate AllHaveOld(ds: Disks) {
    forall i :: 0 <= i < |ds| ==> ds[i].HasOld()
  }

  // The tries leave the old executable at the target when one works and at the
  // backup when none does, and never lose it.
  lemma {:induction false} TriesKeepOld(s: Script, ds: Disks, n: nat)
    requires AllHaveOld(ds) && Last(ds).backup == Some(Old)
    ensures
      var after := TriedUntil(s, ds, n);
      && AllHaveOld(after)
      && if PutsBackWithin(s, n) then Last(after) == Disk(Some(Old), None)
         else Last(after).backup == Some(Old) && Last(after).target in {Last(ds).target, None}
  {
    if n > 0 {
      TriesKeepOld(s, ds, n - 1);
      if !PutsBackWithin(s, n - 1) {
        TryKeepsOld(s, TriedUntil(s, ds, n - 1), n - 1);
      }
    }
  }

  lemma TryKeepsOld(s: Script, ds: Disks, k: nat)
    requires AllHaveOld(ds) && Last(ds).backup == Some(Old)
    ensures
      var after := Tried(s, ds, k);
      && AllHaveOld(after)
      && if s.putsBack(k) then Last(after) == Disk(Some(Old), None)
         else Last(after).backup == Some(Old) && Last(after).target in {Last(ds).target, None}
  {
  }

  // Main result: wherever the update is cut short the old executable is at the
  // target or the backup, but for the last state of an update that succeeded and
  // removed the backup; it is so in every state of one that did not succeed.
  lemma OldIsKeptUntilSuccess(s: Script, i: nat)
    requires i < |AllDisks(s)|
    ensures !AllDisks(s)[i].HasOld() <==> Succeeds(s) && s.removesBackup && i == |AllDisks(s)| - 1
  {
    assert AllHaveOld(MOVED) && AllHaveOld(COPIED);
    if Swapped(s) && !s.copies {
      TryKeepsOld(s, MOVED + [Disk(s.leaves.AsTarget(), Some(Old))], 0);
    } else if Swapped(s) && !Succeeds(s) {
      TriesKeepOld(s, COPIED, PUT_BACK_TRIES);
    }
  }

  // Main result: a success ends with the new executable in place; a failure ends
  // with the old one there exactly when the swap never began or a try to put it
  // back worked, and otherwise with it at the backup.
  lemma EndsWithAWorkingCopyIff(s: Script)
    ensures
      var end := Last(AllDisks(s));
      if Succeeds(s) then end.target == Some(New)
      else
        var back := if s.copies then exists k :: 0 <= k < 20 && s.putsBack(k) else s.putsBack(0);
        (end.target == Some(Old) <==> !(s.stops && s.moves) || back) && end.HasOld()
  {
    OldIsKeptUntilSuccess(s, |AllDisks(s)| - 1);
    if Swapped(s) && !s.copies {
      TryKeepsOld(s, MOVED + [Disk(s.leaves.AsTarget(), Some(Old))], 0);
    } else if Swapped(s) && !Succeeds(s) {
      TriesKeepOld(s, COPIED, PUT_BACK_TRIES);
    }
  }

  // Main result: the old executable goes without the new one having connected
  // exactly when an old connected file that names the new version could not be
  // removed, and the backup then is; never when that file was removed.
  lemma LostUnconnectedIff(s: Script)
    ensures
      (exists i :: 0 <= i < |AllDisks(s)| && !AllDisks(s)[i].HasOld()) && !ConnectedInTime(s)
      <==> s.stops && s.moves && s.copies && s.starts && s.saysNew && !s.clears && s.wait > 0 && s.removesBackup && !ConnectedInTime(s)
    ensures Succeeds(s) && !(s.saysNew && !s.clears) ==> ConnectedInTime(s)
  {
    SucceedsIff(s);
    OldIsKeptUntilSuccess(s, |AllDisks(s)| - 1);
    forall i | 0 <= i < |AllDisks(s)| && !AllDisks(s)[i].HasOld()
      ensures Succeeds(s) && s.removesBackup
    {
      OldIsKeptUntilSuccess(s, i);
    }
  }

  // The wait is bounded: however the clock runs, the file is read at most once
  // for each whole second of it, and once more.
  lemma PollsAreBounded(s: Script, i: nat)
    requires Reached(s, i)
    ensures i * SECOND < s.wait
  {
  }
}
