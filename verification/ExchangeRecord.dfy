/**
A turn's record on its way to the server: lines are numbered and sent in
batches, up to a budget of bytes; past it they are only counted.
*/
module ExchangeRecord {
  import opened Common
  import opened Splitter

  const BUDGET := 16 * 1024 * 1024
  const FLUSH_LINES := 200
  const FLUSH_BYTES := 256 * 1024
  const INT32 := 0x1_0000_0000
  const MAX_SEQ := 0x7FFF_FFFF

  datatype Numbered = Numbered(seqNo: int, text: Bytes)

  datatype Dropped = Dropped(lines: nat, bytes: nat)

  datatype Batch = Batch(lines: seq<Numbered>, dropped: Option<Dropped>)

  // The line number is a 32-bit integer.
  function Wrap(n: int): int {
    (n + MAX_SEQ + 1) % INT32 - MAX_SEQ - 1
  }

  // ---------------------------------------------------------------------------
  // what the record should come to, over the first n lines
  // ---------------------------------------------------------------------------

  datatype Record = Record(bytes: nat, lines: seq<Numbered>, counted: Dropped)

  predicate Fits(r: Record, l: Line) {
    r.bytes + |l.text| <= BUDGET
  }

  function Uncut(r: Record, l: Line): Record {
    r.(counted := Dropped(r.counted.lines, r.counted.bytes + l.cut))
  }

  // Kept lines are numbered from 1 in the order they were printed.
  function Keep(r: Record, l: Line): Record {
    Record(r.bytes + |l.text|, r.lines + [Numbered(Wrap(|r.lines| + 1), l.text)], r.counted)
  }

  function Drop(r: Record, l: Line): Record {
    r.(counted := Dropped(r.counted.lines + 1, r.counted.bytes + |l.text|))
  }

  function With(r: Record, l: Line): Record {
    if Fits(r, l) then Keep(Uncut(r, l), l) else Drop(Uncut(r, l), l)
  }

  function Recorded(given: seq<Line>, n: nat): Record
    requires n <= |given|
  {
    if n == 0 then Record(0, [], Dropped(0, 0)) else With(Recorded(given, n - 1), given[n - 1])
  }

  function Sizes(lines: seq<Numbered>, n: nat): nat
    requires n <= |lines|
  {
    if n == 0 then 0 else Sizes(lines, n - 1) + |lines[n - 1].text|
  }

  function Printed(given: seq<Line>, n: nat): nat
    requires n <= |given|
  {
    if n == 0 then 0 else Printed(given, n - 1) + |given[n - 1].text| + given[n - 1].cut
  }

  // The lines of the first n batches.
  function Sent(batches: seq<Batch>, n: nat): seq<Numbered>
    requires n <= |batches|
  {
    if n == 0 then [] else Sent(batches, n - 1) + batches[n - 1].lines
  }

  // The last count the server was told.
  function LastTold(batches: seq<Batch>, n: nat): Dropped
    requires n <= |batches|
  {
    if n == 0 then Dropped(0, 0)
    else if batches[n - 1].dropped.Some? then batches[n - 1].dropped.value
    else LastTold(batches, n - 1)
  }

  // At most 200 lines, and without the last of them less than 256 KiB.
  predicate Small(lines: seq<Numbered>) {
    && |lines| <= 200
    && (|lines| > 0 ==> Sizes(lines, |lines| - 1) < 262144)
  }

  // At least so many lines, or so many bytes.
  predicate Big(lines: seq<Numbered>) {
    |lines| >= 200 || Sizes(lines, |lines|) >= 262144
  }

  ghost predicate AllSmall(batches: seq<Batch>) {
    forall i :: 0 <= i < |batches| ==> Small(batches[i].lines)
  }

  // Nothing more was sent, or one batch that was big enough to go.
  predicate SentWhenBig(before: seq<Batch>, after: seq<Batch>) {
    || after == before
    || (|after| == |before| + 1 && after[..|before|] == before && Big(after[|before|].lines))
  }

  // ---------------------------------------------------------------------------
  // the record
  // ---------------------------------------------------------------------------

  class ExchangeRecord {
    var seqNo: int
    var kept: nat
    var pending: seq<Numbered>
    var pendingBytes: nat
    var dropped: Dropped
    var droppedNew: bool
    var sent: seq<Batch> // what send was given
    ghost var given: seq<Line>

    ghost predicate Valid()
      reads this
    {
      Holds(Recorded(given, |given|))
    }

    ghost predicate Holds(r: Record)
      reads this
    {
      && kept == r.bytes
      && Sent(sent, |sent|) + pending == r.lines
      && seqNo == Wrap(|r.lines|)
      && pendingBytes == Sizes(pending, |pending|)
      && dropped == r.counted
      && (!droppedNew ==> LastTold(sent, |sent|) == dropped)
    }

    // A batch goes as soon as it is big enough.
    ghost predicate Batched()
      reads this
    {
      pendingBytes == Sizes(pending, |pending|) && !Big(pending) && AllSmall(sent)
    }

    constructor ()
      ensures Valid() && Batched() && given == [] && sent == []
    {
      seqNo, kept, pending, pendingBytes, dropped, droppedNew := 0, 0, [], 0, Dropped(0, 0), false;
      sent, given := [], [];
    }

    method Add(l: Line) returns (big: bool)
      requires Valid()
      modifies this
      ensures Valid() && given == old(given) + [l] && sent == old(sent)
      ensures pending == old(pending) || (|pending| == |old(pending)| + 1 && Sizes(pending, |old(pending)|) == old(pendingBytes))
      ensures big <==> pending != old(pending) && Big(pending)
    {
      ghost var r := Recorded(given, |given|);
      OneMoreLine(given, l);
      given := given + [l];
      if l.cut > 0 {
        dropped := dropped.(bytes := dropped.bytes + l.cut);
        droppedNew := true;
      }
      r := Uncut(r, l);
      assert Holds(r);
      if kept + |l.text| > BUDGET {
        dropped := Dropped(dropped.lines + 1, dropped.bytes + |l.text|);
        droppedNew := true;
        return false;
      }
      Append(l, r);
      return |pending| >= FLUSH_LINES || pendingBytes >= FLUSH_BYTES;
    }

    method Append(l: Line, ghost r: Record)
      requires Holds(r)
      modifies this`seqNo, this`kept, this`pending, this`pendingBytes
      ensures Holds(Keep(r, l)) && |pending| == |old(pending)| + 1 && Sizes(pending, |old(pending)|) == old(pendingBytes)
    {
      WrapStep(|r.lines|);
      seqNo := Wrap(seqNo + 1);
      kept := kept + |l.text|;
      SizesSnoc(pending, Numbered(seqNo, l.text));
      PendingSnoc(sent, pending, Numbered(seqNo, l.text));
      pending := pending + [Numbered(seqNo, l.text)];
      pendingBytes := pendingBytes + |l.text|;
    }

    method Flush()
      requires Valid()
      modifies this
      ensures Valid() && given == old(given) && pending == []
      ensures Sent(sent, |sent|) == Recorded(given, |given|).lines
      ensures LastTold(sent, |sent|) == Recorded(given, |given|).counted
      ensures sent == old(sent) + (if |old(pending)| == 0 && !old(droppedNew) then []
                                   else [Batch(old(pending), if old(droppedNew) then Some(old(dropped)) else None)])
    {
      if |pending| == 0 && !droppedNew {
        return;
      }
      var batch := Batch(pending, if droppedNew then Some(dropped) else None);
      OneMoreBatch(sent, batch);
      sent := sent + [batch];
      pending, pendingBytes, droppedNew := [], 0, false;
    }

    // A line as the turn's loop hands it on.
    method Take(l: Line)
      requires Valid() && Batched()
      modifies this
      ensures Valid() && Batched() && given == old(given) + [l]
      ensures SentWhenBig(old(sent), sent)
    {
      var big := Add(l);
      if big {
        Flush();
      }
    }
  }

  lemma {:induction false} SamePrefix(given: seq<Line>, l: Line, n: nat)
    requires n <= |given|
    ensures Recorded(given + [l], n) == Recorded(given, n)
  {
    if n > 0 {
      SamePrefix(given, l, n - 1);
    }
  }

  lemma OneMoreLine(given: seq<Line>, l: Line)
    ensures Recorded(given + [l], |given| + 1) == With(Recorded(given, |given|), l)
  {
    SamePrefix(given, l, |given|);
  }

  lemma WrapStep(n: int)
    ensures Wrap(Wrap(n) + 1) == Wrap(n + 1)
  {
  }

  lemma {:induction false} SizesPrefix(lines: seq<Numbered>, l: Numbered, n: nat)
    requires n <= |lines|
    ensures Sizes(lines + [l], n) == Sizes(lines, n)
  {
    if n > 0 {
      SizesPrefix(lines, l, n - 1);
    }
  }

  lemma SizesSnoc(lines: seq<Numbered>, l: Numbered)
    ensures Sizes(lines + [l], |lines|) == Sizes(lines, |lines|)
    ensures Sizes(lines + [l], |lines| + 1) == Sizes(lines, |lines|) + |l.text|
  {
    SizesPrefix(lines, l, |lines|);
  }

  lemma PendingSnoc(batches: seq<Batch>, pending: seq<Numbered>, l: Numbered)
    ensures Sent(batches, |batches|) + (pending + [l]) == Sent(batches, |batches|) + pending + [l]
  {
  }

  lemma {:induction false} SentPrefix(batches: seq<Batch>, b: Batch, n: nat)
    requires n <= |batches|
    ensures Sent(batches + [b], n) == Sent(batches, n) && LastTold(batches + [b], n) == LastTold(batches, n)
  {
    if n > 0 {
      SentPrefix(batches, b, n - 1);
    }
  }

  lemma OneMoreBatch(batches: seq<Batch>, b: Batch)
    ensures Sent(batches + [b], |batches| + 1) == Sent(batches, |batches|) + b.lines
    ensures LastTold(batches + [b], |batches| + 1) == if b.dropped.Some? then b.dropped.value else LastTold(batches, |batches|)
  {
    SentPrefix(batches, b, |batches|);
  }

  // ---------------------------------------------------------------------------
  // what that record amounts to
  // ---------------------------------------------------------------------------

  // Main result: nothing is lost uncounted. Kept and dropped lines are all the
  // lines, kept and dropped bytes all the bytes, and what is kept is within budget.
  lemma {:induction false} NothingIsLostUncounted(given: seq<Line>, n: nat)
    requires n <= |given|
    ensures
      var r := Recorded(given, n);
      && |r.lines| + r.counted.lines == n
      && Sizes(r.lines, |r.lines|) == r.bytes <= BUDGET
      && r.bytes + r.counted.bytes == Printed(given, n)
  {
    if n > 0 {
      NothingIsLostUncounted(given, n - 1);
      var r, l := Recorded(given, n - 1), given[n - 1];
      SizesSnoc(r.lines, Numbered(Wrap(|r.lines| + 1), l.text));
    }
  }

  lemma WrapIsExactIff(n: nat)
    ensures Wrap(n) == n <==> n <= MAX_SEQ
  {
  }

  lemma {:induction false} NumberedInOrder(given: seq<Line>, n: nat, i: nat)
    requires n <= |given| && i < |Recorded(given, n).lines|
    ensures Recorded(given, n).lines[i].seqNo == Wrap(i + 1)
  {
    if i < |Recorded(given, n - 1).lines| {
      NumberedInOrder(given, n - 1, i);
    }
  }

  // Main result: the kept lines are numbered 1, 2, 3 and so on with no hole, up
  // to the largest 32-bit number and not past it.
  lemma NoHoleIff(given: seq<Line>)
    ensures
      var lines := Recorded(given, |given|).lines;
      (forall i :: 0 <= i < |lines| ==> lines[i].seqNo == i + 1) <==> |lines| <= MAX_SEQ
  {
    var lines := Recorded(given, |given|).lines;
    forall i | 0 <= i < |lines|
      ensures lines[i].seqNo == i + 1 <==> i + 1 <= MAX_SEQ
    {
      NumberedInOrder(given, |given|, i);
      WrapIsExactIff(i + 1);
    }
    if |lines| > MAX_SEQ {
      assert lines[|lines| - 1].seqNo != |lines|;
    }
  }

  // The lines that were kept: each fitted when it came, and they are recorded
  // in order.
  function Fitting(given: seq<Line>, n: nat): (r: seq<Bytes>)
    requires n <= |given|
  {
    if n == 0 then [] else if Fits(Recorded(given, n - 1), given[n - 1]) then Fitting(given, n - 1) + [given[n - 1].text] else Fitting(given, n - 1)
  }

  lemma {:induction false} KeepsWhatFits(given: seq<Line>, n: nat, i: nat)
    requires n <= |given|
    ensures |Fitting(given, n)| == |Recorded(given, n).lines|
    ensures i < |Fitting(given, n)| ==> Recorded(given, n).lines[i].text == Fitting(given, n)[i]
  {
    if n > 0 {
      KeepsWhatFits(given, n - 1, i);
    }
  }
}
