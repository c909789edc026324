/**
The record on the server and in a browser. The server stores a batch before it
tells the browsers of it. Batches, events and answers may each be lost, late or
repeated, and an answer may describe a store that has since grown.
*/
module RawView {
  import opened Common
  import opened Splitter
  import opened ExchangeRecord

  type Lines = seq<Numbered>

  // The stored lines by number.
  type Table = map<int, Bytes>

  const NUL: byte := 0
  const REPLACEMENT: Bytes := [0xEF, 0xBF, 0xBD]

  // Postgres text refuses NUL, so it becomes U+FFFD.
  function Storable(b: Bytes): Bytes {
    if |b| == 0 then [] else (if b[0] == NUL then REPLACEMENT else [b[0]]) + Storable(b[1..])
  }

  lemma {:induction false} StorableIsSameIff(b: Bytes)
    ensures |Storable(b)| >= |b|
    ensures Storable(b) == b <==> NUL !in b
    ensures NUL !in Storable(b)
  {
    if |b| > 0 {
      StorableIsSameIff(b[1..]);
      assert b == [b[0]] + b[1..];
      assert b[0] != NUL ==> Storable(b)[1..] == Storable(b[1..]);
    }
  }

  // ---------------------------------------------------------------------------
  // the store
  // ---------------------------------------------------------------------------

  // A number already there keeps its line.
  function Stored(m: Table, batch: Lines, n: nat): Table
    requires n <= |batch|
  {
    if n == 0 then m
    else
      var m1 := Stored(m, batch, n - 1);
      if batch[n - 1].seqNo in m1 then m1 else m1[batch[n - 1].seqNo := Storable(batch[n - 1].text)]
  }

  class ExchangeTable {
    var lines: Table
    var lineCount: nat
    var byteCount: nat
    ghost var order: Lines // the lines in the order they were stored

    ghost predicate Valid()
      reads this
    {
      && lineCount == |lines| == |order|
      && byteCount == Sizes(order, |order|)
      && (forall i :: 0 <= i < |order| ==> order[i].seqNo in lines && lines[order[i].seqNo] == order[i].text)
      && (forall i, j :: 0 <= i < j < |order| ==> order[i].seqNo != order[j].seqNo)
    }

    constructor ()
      ensures Valid() && lines == map[]
    {
      lines, lineCount, byteCount, order := map[], 0, 0, [];
    }

    method Insert(l: Numbered)
      requires Valid() && l.seqNo !in lines
      modifies this
      ensures Valid() && lines == old(lines)[l.seqNo := Storable(l.text)]
    {
      var body := Storable(l.text);
      SizesSnoc(order, Numbered(l.seqNo, body));
      lines := lines[l.seqNo := body];
      lineCount, byteCount := lineCount + 1, byteCount + |body|;
      order := order + [Numbered(l.seqNo, body)];
    }

    // Only the lines actually stored move the totals.
    method AppendLines(batch: Lines)
      requires Valid()
      modifies this
      ensures Valid() && lines == Stored(old(lines), batch, |batch|)
    {
      for i := 0 to |batch|
        invariant Valid() && lines == Stored(old(lines), batch, i)
      {
        if batch[i].seqNo !in lines {
          Insert(batch[i]);
        }
      }
    }
  }

  lemma {:induction false} StoredHas(m: Table, batch: Lines, n: nat, k: int)
    requires n <= |batch|
    ensures k in Stored(m, batch, n) <==> k in m || exists i :: 0 <= i < n && batch[i].seqNo == k
    ensures k in m ==> Stored(m, batch, n)[k] == m[k]
  {
    if n > 0 {
      StoredHas(m, batch, n - 1, k);
    }
  }

  // Storing a batch again changes nothing.
  lemma StoringAgainChangesNothing(m: Table, batch: Lines, n: nat)
    requires n <= |batch|
    ensures Stored(Stored(m, batch, |batch|), batch, n) == Stored(m, batch, |batch|)
  {
    if n > 0 {
      StoringAgainChangesNothing(m, batch, n - 1);
      StoredHas(m, batch, |batch|, batch[n - 1].seqNo);
    }
  }

  // The stored lines by number, up to one.
  function Listing(m: Table, upTo: nat): Lines {
    if upTo == 0 then []
    else if upTo in m then Listing(m, upTo - 1) + [Numbered(upTo, m[upTo])]
    else Listing(m, upTo - 1)
  }

  // ---------------------------------------------------------------------------
  // the browser
  // ---------------------------------------------------------------------------

  function Last(lines: Lines): int {
    if |lines| == 0 then 0 else lines[|lines| - 1].seqNo
  }

  // Of the first n lines of an event, those past a number.
  function After(part: Lines, last: int, n: nat): Lines
    requires n <= |part|
  {
    if n == 0 then []
    else if part[n - 1].seqNo > last then After(part, last, n - 1) + [part[n - 1]]
    else After(part, last, n - 1)
  }

  predicate Gap(prev: Lines, part: Lines) {
    var more := After(part, Last(prev), |part|);
    |more| > 0 && more[0].seqNo != Last(prev) + 1
  }

  function Patched(prev: Lines, part: Lines): Lines {
    if Gap(prev, part) then prev else prev + After(part, Last(prev), |part|)
  }

  class Cache {
    var lines: Option<Lines> // None while the record is not open anywhere

    method PatchExchange(part: Lines) returns (gap: bool)
      modifies this
      ensures old(lines).None? ==> lines.None? && !gap
      ensures old(lines).Some? ==> lines == Some(Patched(old(lines).value, part)) && gap == Gap(old(lines).value, part)
    {
      if lines.None? {
        return false;
      }
      var last, more := Last(lines.value), [];
      for i := 0 to |part|
        invariant more == After(part, last, i)
      {
        if part[i].seqNo > last {
          more := more + [part[i]];
        }
      }
      if |more| > 0 && more[0].seqNo != last + 1 {
        return true;
      }
      lines := Some(lines.value + more);
      return false;
    }
  }

  // ---------------------------------------------------------------------------
  // the run
  // ---------------------------------------------------------------------------

  // What a browser shows, made from one read of the store and the events since.
  // missed holds the numbers that were stored after that read although the view
  // had passed them.
  datatype View = View(lines: Lines, missed: set<int>)

  // printed is the turn's lines by number. events holds what the browsers are
  // being told, answers what reads of the store found; either may be used late,
  // again, or never.
  datatype World = World(
    printed: int -> Bytes,
    table: Table,
    top: nat,
    events: seq<Lines>,
    answers: seq<View>,
    cache: Option<View>
  )

  datatype Step =
    | Arrive(batch: Lines, told: bool) // lost batches do not arrive
    | Fetch
    | Event(i: nat)
    | Answer(i: nat)
    | Close

  predicate Consecutive(b: Lines) {
    forall i :: 0 <= i < |b| ==> b[i].seqNo == b[0].seqNo + i
  }

  // Batches are stretches of the turn's lines; they may arrive in any order, and again.
  predicate IsBatch(printed: int -> Bytes, b: Lines) {
    && |b| > 0 && b[0].seqNo > 0 && Consecutive(b)
    && forall i :: 0 <= i < |b| ==> b[i].text == printed(b[i].seqNo)
  }

  function Numbers(b: Lines): set<int> {
    set i | 0 <= i < |b| :: b[i].seqNo
  }

  // What a batch adds at or below a number.
  function NewBelow(m: Table, b: Lines, last: int): set<int> {
    set k | k in Numbers(b) && k !in m && k <= last
  }

  function Passed(v: View, m: Table, b: Lines): View {
    v.(missed := v.missed + NewBelow(m, b, Last(v.lines)))
  }

  function Arrived(w: World, b: Lines, told: bool): World {
    World(w.printed, Stored(w.table, b, |b|), Max(w.top, Last(b)), if told then w.events + [b] else w.events,
          seq(|w.answers|, i requires 0 <= i < |w.answers| => Passed(w.answers[i], w.table, b)),
          if w.cache.Some? then Some(Passed(w.cache.value, w.table, b)) else None)
  }

  function Next(w: World, s: Step): World {
    match s
    case Arrive(b, told) => if IsBatch(w.printed, b) then Arrived(w, b, told) else w
    case Fetch => w.(answers := w.answers + [View(Listing(w.table, w.top), {})])
    case Event(i) =>
      if i < |w.events| && w.cache.Some? then w.(cache := Some(w.cache.value.(lines := Patched(w.cache.value.lines, w.events[i]))))
      else w
    case Answer(i) => if i < |w.answers| then w.(cache := Some(w.answers[i])) else w
    case Close => w.(cache := None)
  }

  // A run from nothing stored and nothing open, with the world before each step
  // and after the last.
  ghost predicate IsRun(worlds: seq<World>, run: seq<Step>) {
    && |worlds| == |run| + 1 && worlds[0] == World(worlds[0].printed, map[], 0, [], [], None)
    && forall i :: 0 <= i < |run| ==> worlds[i + 1] == Next(worlds[i], run[i])
  }

  predicate SameLine(a: Numbered, b: Numbered) {
    a.seqNo == b.seqNo && Storable(a.text) == b.text
  }

  // The lines of a view are the stored ones up to its last, but for NULs.
  predicate Shows(m: Table, view: Lines) {
    && Last(view) >= 0
    && |view| == |Listing(m, Last(view))|
    && forall i :: 0 <= i < |view| ==> SameLine(view[i], Listing(m, Last(view))[i])
  }

  predicate Holds(m: Table, b: Lines) {
    Consecutive(b) && forall i :: 0 <= i < |b| ==> b[i].seqNo > 0 && b[i].seqNo in m && m[b[i].seqNo] == Storable(b[i].text)
  }

  // The store holds lines of the turn, none past the highest number.
  ghost predicate OfTheTurn(w: World) {
    forall k :: k in w.table ==> 0 < k <= w.top && w.table[k] == Storable(w.printed(k))
  }

  // A view shows the store but for what it missed, and missed only what it had passed.
  predicate ShowsButMissed(m: Table, top: nat, v: View) {
    && Shows(m - v.missed, v.lines) && Last(v.lines) <= top
    && forall k :: k in v.missed ==> k in m && 0 < k <= Last(v.lines)
  }

  ghost predicate Inv(w: World) {
    && OfTheTurn(w)
    && (forall i :: 0 <= i < |w.events| ==> Holds(w.table, w.events[i]))
    && (forall i :: 0 <= i < |w.answers| ==> ShowsButMissed(w.table, w.top, w.answers[i]))
    && (w.cache.Some? ==> ShowsButMissed(w.table, w.top, w.cache.value))
  }

  // ---------------------------------------------------------------------------
  // what is stored
  // ---------------------------------------------------------------------------

  lemma {:induction false} ListingOnlyLooksBelow(m: Table, n: Table, upTo: nat)
    requires forall k :: 0 < k <= upTo ==> (k in m <==> k in n) && (k in m ==> m[k] == n[k])
    ensures Listing(m, upTo) == Listing(n, upTo)
  {
    if upTo > 0 {
      ListingOnlyLooksBelow(m, n, upTo - 1);
    }
  }

  lemma {:induction false} ListingOfItsLast(m: Table, upTo: nat)
    ensures 0 <= Last(Listing(m, upTo)) <= upTo
    ensures Listing(m, Last(Listing(m, upTo))) == Listing(m, upTo)
  {
    if upTo > 0 && upTo !in m {
      ListingOfItsLast(m, upTo - 1);
    }
  }

  lemma {:induction false} ListingIsStored(m: Table, upTo: nat, i: nat)
    requires i < |Listing(m, upTo)|
    ensures var l := Listing(m, upTo)[i]; l.seqNo in m && m[l.seqNo] == l.text && 0 < l.seqNo <= upTo
  {
    if i < |Listing(m, upTo - 1)| {
      ListingIsStored(m, upTo - 1, i);
    }
  }

  // Without some of its lines a listing is shorter.
  lemma {:induction false} ListingWithout(m: Table, gone: set<int>, upTo: nat, k: int)
    ensures |Listing(m - gone, upTo)| <= |Listing(m, upTo)|
    ensures k in gone && k in m && 0 < k <= upTo ==> |Listing(m - gone, upTo)| < |Listing(m, upTo)|
  {
    if upTo > 0 {
      ListingWithout(m, gone, upTo - 1, k);
    }
  }

  // What one read finds is a view of the store.
  lemma ReadShows(w: World)
    requires OfTheTurn(w)
    ensures ShowsButMissed(w.table, w.top, View(Listing(w.table, w.top), {}))
  {
    var view := Listing(w.table, w.top);
    ListingOfItsLast(w.table, w.top);
    assert w.table - {} == w.table;
    forall i | 0 <= i < |view|
      ensures SameLine(view[i], view[i])
    {
      ListingIsStored(w.table, w.top, i);
      StorableIsSameIff(w.printed(view[i].seqNo));
      StorableIsSameIff(view[i].text);
    }
  }

  lemma {:induction false} StoredOfTheTurn(w: World, b: Lines, n: nat, k: int)
    requires OfTheTurn(w) && IsBatch(w.printed, b) && n <= |b| && k in Stored(w.table, b, n)
    ensures 0 < k <= Max(w.top, Last(b)) && Stored(w.table, b, n)[k] == Storable(w.printed(k))
  {
    if n > 0 {
      if k in Stored(w.table, b, n - 1) {
        StoredOfTheTurn(w, b, n - 1, k);
      } else {
        assert k == b[n - 1].seqNo == b[0].seqNo + (n - 1) && Last(b) == b[0].seqNo + (|b| - 1);
      }
    }
  }

  // A view goes on showing the store but for what is stored behind it.
  lemma ArrivalPassesViews(w: World, b: Lines, v: View)
    requires OfTheTurn(w) && IsBatch(w.printed, b) && ShowsButMissed(w.table, w.top, v)
    ensures ShowsButMissed(Stored(w.table, b, |b|), Max(w.top, Last(b)), Passed(v, w.table, b))
  {
    var m := Stored(w.table, b, |b|);
    var p := Passed(v, w.table, b);
    forall k | 0 < k <= Last(v.lines)
      ensures k in m - p.missed <==> k in w.table - v.missed
      ensures k in w.table ==> k in m && m[k] == w.table[k]
    {
      StoredHas(w.table, b, |b|, k);
    }
    forall k | k in p.missed
      ensures k in m && 0 < k
    {
      StoredHas(w.table, b, |b|, k);
      if k in m {
        StoredOfTheTurn(w, b, |b|, k);
      }
    }
    ListingOnlyLooksBelow(w.table - v.missed, m - p.missed, Last(v.lines));
  }

  lemma EventStaysStored(m: Table, b: Lines, event: Lines)
    requires Holds(m, event)
    ensures Holds(Stored(m, b, |b|), event)
  {
    forall i | 0 <= i < |event|
      ensures event[i].seqNo in Stored(m, b, |b|) && Stored(m, b, |b|)[event[i].seqNo] == m[event[i].seqNo]
    {
      StoredHas(m, b, |b|, event[i].seqNo);
    }
  }

  lemma BatchIsStored(w: World, b: Lines)
    requires OfTheTurn(w) && IsBatch(w.printed, b)
    ensures Holds(Stored(w.table, b, |b|), b)
  {
    forall i | 0 <= i < |b|
      ensures b[i].seqNo in Stored(w.table, b, |b|) && Stored(w.table, b, |b|)[b[i].seqNo] == Storable(b[i].text)
    {
      StoredHas(w.table, b, |b|, b[i].seqNo);
      StoredOfTheTurn(w, b, |b|, b[i].seqNo);
    }
  }

  lemma ArriveKeepsInv(w: World, b: Lines, told: bool)
    requires Inv(w) && IsBatch(w.printed, b)
    ensures Inv(Arrived(w, b, told))
  {
    var v := Arrived(w, b, told);
    forall k | k in v.table
      ensures 0 < k <= v.top && v.table[k] == Storable(w.printed(k))
    {
      StoredOfTheTurn(w, b, |b|, k);
    }
    BatchIsStored(w, b);
    forall i | 0 <= i < |v.events|
      ensures Holds(v.table, v.events[i])
    {
      if i < |w.events| {
        EventStaysStored(w.table, b, w.events[i]);
      }
    }
    forall i | 0 <= i < |v.answers|
      ensures ShowsButMissed(v.table, v.top, v.answers[i])
    {
      ArrivalPassesViews(w, b, w.answers[i]);
    }
    if w.cache.Some? {
      ArrivalPassesViews(w, b, w.cache.value);
    }
  }

  // ---------------------------------------------------------------------------
  // what an event changes
  // ---------------------------------------------------------------------------

  // How many lines of an event a view already has.
  function Had(part: Lines, last: int): (n: nat)
    ensures n <= |part|
  {
    if |part| == 0 || part[0].seqNo > last then 0 else Min(last + 1 - part[0].seqNo, |part|)
  }

  lemma SliceOneMore(part: Lines, i: nat, n: nat)
    requires i < n <= |part|
    ensures part[i..n - 1] + [part[n - 1]] == part[i..n]
  {
  }

  // The new lines of an event are its last ones.
  lemma {:induction false} AfterIsTheEnd(part: Lines, last: int, n: nat)
    requires Consecutive(part) && n <= |part|
    ensures After(part, last, n) == if Had(part, last) < n then part[Had(part, last)..n] else []
  {
    if n > 0 {
      AfterIsTheEnd(part, last, n - 1);
      assert part[n - 1].seqNo > last <==> Had(part, last) <= n - 1;
      if Had(part, last) <= n - 1 {
        SliceOneMore(part, Had(part, last), n);
      }
    }
  }

  // Nothing if the view has its last line, the lines the view lacks if they
  // follow on, and otherwise only that the caller reads again.
  lemma PatchedIff(view: Lines, part: Lines)
    requires Consecutive(part) && |part| > 0 && part[0].seqNo > 0 && Last(view) >= 0
    ensures Gap(view, part) <==> part[0].seqNo > Last(view) + 1
    ensures !Gap(view, part) ==> Patched(view, part) == view + part[Had(part, Last(view))..]
    ensures Had(part, Last(view)) == |part| <==> Last(part) <= Last(view)
    ensures !Gap(view, part) && Last(part) > Last(view) ==> part[Had(part, Last(view))].seqNo == Last(view) + 1
  {
    var had := Had(part, Last(view));
    AfterIsTheEnd(part, Last(view), |part|);
    assert Last(part) == part[0].seqNo + (|part| - 1);
    if had < |part| {
      assert part[had].seqNo == part[0].seqNo + had;
      assert After(part, Last(view), |part|)[0] == part[had];
    }
  }

  // Adding, one after another, lines the store has right after the last one.
  lemma {:induction false} ExtendingShows(m: Table, view: Lines, more: Lines, n: nat)
    requires Shows(m, view) && Holds(m, more) && n <= |more|
    requires |more| > 0 ==> more[0].seqNo == Last(view) + 1
    ensures Shows(m, view + more[..n])
    ensures Last(view + more[..n]) == Last(view) + n
  {
    if n == 0 {
      assert view + more[..0] == view;
    } else {
      ExtendingShows(m, view, more, n - 1);
      OneMoreShows(m, view + more[..n - 1], more[n - 1]);
      assert view + more[..n] == view + more[..n - 1] + [more[n - 1]];
    }
  }

  lemma OneMoreShows(m: Table, view: Lines, l: Numbered)
    requires Shows(m, view) && l.seqNo == Last(view) + 1 && l.seqNo in m && m[l.seqNo] == Storable(l.text)
    ensures Shows(m, view + [l])
  {
    assert Listing(m, l.seqNo) == Listing(m, Last(view)) + [Numbered(l.seqNo, m[l.seqNo])];
  }

  lemma PatchKeepsView(m: Table, top: nat, v: View, part: Lines)
    requires ShowsButMissed(m, top, v) && Holds(m, part) && (|part| > 0 ==> Last(part) <= top)
    ensures ShowsButMissed(m, top, v.(lines := Patched(v.lines, part)))
  {
    if |part| == 0 {
      assert Patched(v.lines, part) == v.lines;
    } else {
      PatchedIff(v.lines, part);
      var had := Had(part, Last(v.lines));
      var more := part[had..];
      if !Gap(v.lines, part) {
        forall i | 0 <= i < |more|
          ensures more[i].seqNo == more[0].seqNo + i && more[i].seqNo in m - v.missed
        {
          assert more[i] == part[had + i];
        }
        ExtendingShows(m - v.missed, v.lines, more, |more|);
        assert more[..|more|] == more;
      }
    }
  }

  lemma StepKeepsInv(w: World, s: Step)
    requires Inv(w)
    ensures Inv(Next(w, s))
  {
    match s
    case Arrive(b, told) =>
      if IsBatch(w.printed, b) {
        ArriveKeepsInv(w, b, told);
      }
    case Fetch => ReadShows(w);
    case Event(i) =>
      if i < |w.events| && w.cache.Some? {
        var e := w.events[i];
        assert |e| > 0 ==> e[|e| - 1].seqNo in w.table;
        PatchKeepsView(w.table, w.top, w.cache.value, e);
      }
    case _ =>
  }

  lemma {:induction false} RunKeepsInv(worlds: seq<World>, run: seq<Step>, n: nat)
    requires IsRun(worlds, run) && n <= |run|
    ensures Inv(worlds[n])
  {
    if n > 0 {
      RunKeepsInv(worlds, run, n - 1);
      StepKeepsInv(worlds[n - 1], run[n - 1]);
    }
  }

  // ---------------------------------------------------------------------------
  // results
  // ---------------------------------------------------------------------------

  lemma ShowsIffNothingMissed(m: Table, top: nat, v: View)
    requires ShowsButMissed(m, top, v)
    ensures Shows(m, v.lines) <==> v.missed == {}
  {
    if v.missed == {} {
      assert m - v.missed == m;
    }
    if Shows(m, v.lines) {
      forall k: int
        ensures k !in v.missed
      {
        ListingWithout(m, v.missed, Last(v.lines), k);
      }
      assert v.missed == {};
    }
  }

  // Main result: in every run, with batches, events and answers lost, late and
  // repeated, an open view shows every stored line up to its last one and no
  // other, so no hole the store does not have, exactly when no line was stored
  // behind it since the read it was made from.
  lemma ViewAgreesWithStoreIff(worlds: seq<World>, run: seq<Step>, n: nat)
    requires IsRun(worlds, run) && n <= |run| && worlds[n].cache.Some?
    ensures Shows(worlds[n].table, worlds[n].cache.value.lines) <==> worlds[n].cache.value.missed == {}
  {
    RunKeepsInv(worlds, run, n);
    ShowsIffNothingMissed(worlds[n].table, worlds[n].top, worlds[n].cache.value);
  }

  // A batch that adds nothing below the highest number stored: one in order, or
  // a repeat of lines already there.
  predicate NotLate(w: World, s: Step) {
    s.Arrive? && IsBatch(w.printed, s.batch) ==> NewBelow(w.table, s.batch, w.top) == {}
  }

  ghost predicate NothingMissed(w: World) {
    (forall i :: 0 <= i < |w.answers| ==> w.answers[i].missed == {}) && (w.cache.Some? ==> w.cache.value.missed == {})
  }

  lemma StepMissesNothing(w: World, s: Step)
    requires Inv(w) && NothingMissed(w) && NotLate(w, s)
    ensures NothingMissed(Next(w, s))
  {
    if s.Arrive? && IsBatch(w.printed, s.batch) {
      forall v: View | Last(v.lines) <= w.top
        ensures NewBelow(w.table, s.batch, Last(v.lines)) == {}
      {
        assert NewBelow(w.table, s.batch, Last(v.lines)) <= NewBelow(w.table, s.batch, w.top);
      }
    }
  }

  lemma {:induction false} RunMissesNothing(worlds: seq<World>, run: seq<Step>, n: nat)
    requires IsRun(worlds, run) && n <= |run| && forall i :: 0 <= i < n ==> NotLate(worlds[i], run[i])
    ensures NothingMissed(worlds[n])
  {
    if n > 0 {
      RunMissesNothing(worlds, run, n - 1);
      RunKeepsInv(worlds, run, n - 1);
      StepMissesNothing(worlds[n - 1], run[n - 1]);
    }
  }

  // Main result: as long as the batches that do arrive bring their new lines in
  // order, whatever is lost and whatever is repeated, the view agrees.
  lemma ViewAgreesWithStore(worlds: seq<World>, run: seq<Step>, n: nat)
    requires IsRun(worlds, run) && n <= |run| && worlds[n].cache.Some?
    requires forall i :: 0 <= i < n ==> NotLate(worlds[i], run[i])
    ensures Shows(worlds[n].table, worlds[n].cache.value.lines)
  {
    RunMissesNothing(worlds, run, n);
    ViewAgreesWithStoreIff(worlds, run, n);
  }

  ghost predicate Reachable(w: World) {
    exists worlds, run :: IsRun(worlds, run) && worlds[|run|] == w
  }

  lemma ReachableNext(w: World, s: Step)
    requires Reachable(w)
    ensures Reachable(Next(w, s))
  {
    var worlds, run :| IsRun(worlds, run) && worlds[|run|] == w;
    var more, longer := worlds + [Next(w, s)], run + [s];
    forall i | 0 <= i < |longer|
      ensures more[i + 1] == Next(more[i], longer[i])
    {
      if i < |run| {
        assert more[i] == worlds[i] && more[i + 1] == worlds[i + 1];
      }
    }
    assert IsRun(more, longer) && more[|longer|] == Next(w, s);
  }

  // The second line is stored and shown; the first comes late and is told as well.
  lemma LateBatchLeavesAHole(printed: int -> Bytes)
    ensures exists w :: Reachable(w) && w.cache.Some? && !Shows(w.table, w.cache.value.lines)
  {
    var w0 := World(printed, map[], 0, [], [], None);
    assert IsRun([w0], []) && [w0][0] == w0;
    SecondArrives(printed);
    ReachableNext(w0, Arrive([Numbered(2, printed(2))], true));
    SecondIsShown(printed);
    FirstArrives(printed);
    ReachableNext(SecondShown(printed), Arrive([Numbered(1, printed(1))], true));
    var w := FirstStoredLate(printed);
    FirstIsOld(printed);
    ReachableNext(w, Event(1));
    HoleRemains(w);
  }

  lemma HoleRemains(w: World)
    requires Reachable(w) && w.cache.Some? && w.cache.value.missed != {}
    ensures !Shows(w.table, w.cache.value.lines)
  {
    var worlds, run :| IsRun(worlds, run) && worlds[|run|] == w;
    ViewAgreesWithStoreIff(worlds, run, |run|);
  }

  function OnlySecond(printed: int -> Bytes): View {
    View([Numbered(2, Storable(printed(2)))], {})
  }

  function SecondStored(printed: int -> Bytes): World {
    World(printed, map[2 := Storable(printed(2))], 2, [[Numbered(2, printed(2))]], [], None)
  }

  function FirstStoredLate(printed: int -> Bytes): World {
    var behind := OnlySecond(printed).(missed := {1});
    World(printed, map[2 := Storable(printed(2)), 1 := Storable(printed(1))], 2,
          [[Numbered(2, printed(2))], [Numbered(1, printed(1))]], [behind], Some(behind))
  }

  lemma SecondArrives(printed: int -> Bytes)
    ensures Next(World(printed, map[], 0, [], [], None), Arrive([Numbered(2, printed(2))], true)) == SecondStored(printed)
  {
    var b := [Numbered(2, printed(2))];
    assert Stored(map[], b, 1) == map[2 := Storable(printed(2))];
  }

  function SecondShown(printed: int -> Bytes): World {
    SecondStored(printed).(answers := [OnlySecond(printed)], cache := Some(OnlySecond(printed)))
  }

  lemma SecondIsShown(printed: int -> Bytes)
    requires Reachable(SecondStored(printed))
    ensures Reachable(SecondShown(printed))
  {
    SecondIsRead(printed);
    ReachableNext(SecondStored(printed), Fetch);
    ReachableNext(SecondStored(printed).(answers := [OnlySecond(printed)]), Answer(0));
  }

  lemma SecondIsRead(printed: int -> Bytes)
    ensures Listing(SecondStored(printed).table, 2) == OnlySecond(printed).lines
  {
    var m := SecondStored(printed).table;
    assert Listing(m, 1) == Listing(m, 0) == [];
    assert Listing(m, 2) == Listing(m, 1) + [Numbered(2, m[2])];
  }

  lemma FirstArrives(printed: int -> Bytes)
    ensures Next(SecondShown(printed), Arrive([Numbered(1, printed(1))], true)) == FirstStoredLate(printed)
  {
    var v, b, m := OnlySecond(printed), [Numbered(1, printed(1))], SecondStored(printed).table;
    assert Stored(m, b, 1) == FirstStoredLate(printed).table by {
      assert Stored(m, b, 0) == m;
    }
    assert Numbers(b) == {1} by {
      assert b[0].seqNo == 1;
    }
    assert NewBelow(m, b, 2) == {1};
    assert Passed(v, m, b) == v.(missed := {1});
  }

  lemma FirstIsOld(printed: int -> Bytes)
    ensures Patched(OnlySecond(printed).lines, [Numbered(1, printed(1))]) == OnlySecond(printed).lines
  {
    PatchedIff(OnlySecond(printed).lines, [Numbered(1, printed(1))]);
  }

  // A view with just the lines of a batch that it lacks; one that starts past the
  // next line adds none.
  function Extended(view: Lines, b: Lines): Lines {
    if |b| == 0 || b[0].seqNo > Last(view) + 1 || Last(b) <= Last(view) || Last(view) + 1 - b[0].seqNo > |b| then view
    else view + b[Last(view) + 1 - b[0].seqNo..]
  }

  // Main result: a batch that reaches an open view extends it by just the lines the
  // view lacks, however much of it the view has; if it starts past the next line
  // the view stays as it was.
  lemma ToldBatchExtendsTheView(w: World, b: Lines)
    requires w.cache.Some? && Last(w.cache.value.lines) >= 0 && IsBatch(w.printed, b)
    ensures
      var e := Next(Next(w, Arrive(b, true)), Event(|w.events|));
      e.cache.Some? && e.table == Stored(w.table, b, |b|) && e.cache.value.lines == Extended(w.cache.value.lines, b)
  {
    PatchedBy(w.cache.value.lines, b);
    EventIsShown(w, b);
  }

  lemma EventIsShown(w: World, b: Lines)
    requires w.cache.Some? && IsBatch(w.printed, b)
    ensures
      var e := Next(Next(w, Arrive(b, true)), Event(|w.events|));
      e.cache.Some? && e.table == Stored(w.table, b, |b|) && e.cache.value.lines == Patched(w.cache.value.lines, b)
  {
    var arrived := Arrived(w, b, true);
    assert Next(w, Arrive(b, true)) == arrived;
    assert arrived.events[|w.events|] == b && arrived.cache.value.lines == w.cache.value.lines;
  }

  lemma PatchedBy(view: Lines, b: Lines)
    requires Consecutive(b) && |b| > 0 && b[0].seqNo > 0 && Last(view) >= 0
    ensures Patched(view, b) == Extended(view, b)
    ensures Last(Extended(view, b)) == if b[0].seqNo > Last(view) + 1 then Last(view) else Max(Last(view), Last(b))
  {
    PatchedIff(view, b);
    var had := Had(b, Last(view));
    assert Last(b) == b[0].seqNo + (|b| - 1);
    if had == |b| {
      assert view + b[had..] == view;
    } else if !Gap(view, b) {
      EndsWith(view, b[had..]);
      assert b[had..][|b| - had - 1] == b[|b| - 1];
    }
  }

  lemma EndsWith(view: Lines, more: Lines)
    requires |more| > 0
    ensures Last(view + more) == Last(more)
  {
  }

  // A batch that is stored but whose event is lost leaves every view and event as it was.
  lemma LostEventIsNotShown(w: World, b: Lines)
    requires IsBatch(w.printed, b)
    ensures
      var e := Next(w, Arrive(b, false));
      && e.table == Stored(w.table, b, |b|) && e.events == w.events
      && (e.cache.Some? <==> w.cache.Some?) && (w.cache.Some? ==> e.cache.value.lines == w.cache.value.lines)
  {
  }

  lemma {:induction false} ListingHas(m: Table, upTo: nat, k: int)
    requires k in m && 0 < k <= upTo
    ensures Numbered(k, m[k]) in Listing(m, upTo)
  {
    if k < upTo {
      ListingHas(m, upTo - 1, k);
    }
  }

  // Reading again shows every line stored by then, whatever was shown before.
  lemma ReadingAgainShowsTheStore(w: World, k: int)
    requires Inv(w)
    ensures
      var e := Next(Next(w, Fetch), Answer(|w.answers|));
      && e.table == w.table && e.cache.Some? && Shows(e.table, e.cache.value.lines) && e.cache.value.missed == {}
      && (k in w.table ==> Numbered(k, w.table[k]) in e.cache.value.lines)
  {
    ReadShows(w);
    ShowsIffNothingMissed(w.table, w.top, View(Listing(w.table, w.top), {}));
    if k in w.table {
      ListingHas(w.table, w.top, k);
    }
  }

  // What nobody has open no event opens.
  lemma ClosedStaysClosed(w: World, i: nat)
    ensures Next(w, Close).cache.None? && Next(Next(w, Close), Event(i)) == Next(w, Close)
  {
  }

  // Main result: a view that agrees shows the store to the byte exactly when none
  // of its lines holds a NUL, which the store has as U+FFFD.
  lemma ViewIsExactIff(m: Table, view: Lines)
    requires Shows(m, view)
    ensures view == Listing(m, Last(view)) <==> forall i :: 0 <= i < |view| ==> NUL !in view[i].text
  {
    var stored := Listing(m, Last(view));
    forall i | 0 <= i < |view|
      ensures view[i] == stored[i] <==> NUL !in view[i].text
    {
      assert SameLine(view[i], stored[i]);
      StorableIsSameIff(view[i].text);
    }
    if forall i :: 0 <= i < |view| ==> NUL !in view[i].text {
      assert forall i :: 0 <= i < |view| ==> view[i] == stored[i];
    }
  }

  // ---------------------------------------------------------------------------
  // the daemon's batches are such batches
  // ---------------------------------------------------------------------------

  lemma {:induction false} SentAt(batches: seq<Batch>, n: nat, i: nat, j: nat)
    requires i < n <= |batches| && j < |batches[i].lines|
    ensures |Sent(batches, i)| + j < |Sent(batches, n)| && Sent(batches, n)[|Sent(batches, i)| + j] == batches[i].lines[j]
  {
    if i < n - 1 {
      SentAt(batches, n - 1, i, j);
    }
  }

  lemma BatchesFollowOneAnother(given: seq<Line>, batches: seq<Batch>, pending: Lines, i: nat)
    requires Sent(batches, |batches|) + pending == Recorded(given, |given|).lines && |Recorded(given, |given|).lines| <= MAX_SEQ
    requires i < |batches| && |batches[i].lines| > 0
    ensures
      var lines := Recorded(given, |given|).lines;
      IsBatch((k: int) => if 1 <= k <= |lines| then lines[k - 1].text else [], batches[i].lines)
    ensures batches[i].lines[0].seqNo == |Sent(batches, i)| + 1 && Last(batches[i].lines) == |Sent(batches, i + 1)|
  {
    var b, lines := batches[i].lines, Recorded(given, |given|).lines;
    NoHoleIff(given);
    forall j | 0 <= j < |b|
      ensures |Sent(batches, i)| + j < |lines| && b[j] == lines[|Sent(batches, i)| + j] && b[j].seqNo == |Sent(batches, i)| + j + 1
    {
      SentAt(batches, |batches|, i, j);
    }
  }
}
