/**
A command's output, byte stream to lines. The stream arrives in writes of any
size; a line keeps its first MAX_LINE bytes and counts the rest.
*/
module Splitter {
  type byte = bv8
  type Bytes = seq<byte>

  const NEWLINE: byte := 10
  const RETURN: byte := 13
  const MAX_LINE: nat := 16 * 1024 * 1024

  datatype Line = Line(text: Bytes, cut: nat)

  // ---------------------------------------------------------------------------
  // the stream read at once
  // ---------------------------------------------------------------------------

  // What follows the last newline.
  function Rest(s: Bytes): Bytes {
    if |s| == 0 || s[|s| - 1] == NEWLINE then [] else Rest(s[..|s| - 1]) + [s[|s| - 1]]
  }

  // The stretches that a newline ends.
  function Ended(s: Bytes): seq<Bytes> {
    if |s| == 0 then []
    else if s[|s| - 1] == NEWLINE then Ended(s[..|s| - 1]) + [Rest(s[..|s| - 1])]
    else Ended(s[..|s| - 1])
  }

  function Kept(raw: Bytes): Bytes {
    if |raw| <= MAX_LINE then raw else raw[..MAX_LINE]
  }

  function Over(raw: Bytes): nat {
    if |raw| <= MAX_LINE then 0 else |raw| - MAX_LINE
  }

  predicate EndsInReturn(b: Bytes) {
    |b| > 0 && b[|b| - 1] == RETURN
  }

  function Trimmed(b: Bytes): Bytes {
    if EndsInReturn(b) then b[..|b| - 1] else b
  }

  // The cut comes before the trim: a return that ends the kept part goes too.
  function LineOf(raw: Bytes): Line {
    Line(Trimmed(Kept(raw)), Over(raw))
  }

  function LinesOf(raws: seq<Bytes>, n: nat): (r: seq<Line>)
    requires n <= |raws|
    ensures |r| == n
  {
    if n == 0 then [] else LinesOf(raws, n - 1) + [LineOf(raws[n - 1])]
  }

  // Every line of a whole stream; a last one without a newline counts unless it is empty.
  function Raws(s: Bytes): seq<Bytes> {
    if Rest(s) == [] then Ended(s) else Ended(s) + [Rest(s)]
  }

  function AllLines(s: Bytes): seq<Line> {
    LinesOf(Raws(s), |Raws(s)|)
  }

  // ---------------------------------------------------------------------------
  // one write at a time
  // ---------------------------------------------------------------------------

  class Splitter {
    var buf: Bytes
    var cut: nat
    var lines: seq<Line> // what emit was given
    ghost var stream: Bytes

    ghost predicate Valid()
      reads this
    {
      && buf == Kept(Rest(stream)) && cut == Over(Rest(stream))
      && lines == LinesOf(Ended(stream), |Ended(stream)|)
    }

    constructor ()
      ensures Valid() && stream == []
    {
      buf, cut, lines, stream := [], 0, [], [];
    }

    method IndexNewline(p: Bytes) returns (i: int)
      ensures if i < 0 then NEWLINE !in p else i < |p| && p[i] == NEWLINE && NEWLINE !in p[..i]
    {
      i := 0;
      while i < |p|
        invariant 0 <= i <= |p| && NEWLINE !in p[..i]
      {
        if p[i] == NEWLINE {
          return;
        }
        i := i + 1;
      }
      i := -1;
    }

    // Bytes of the current line.
    method Append(chunk: Bytes)
      requires Valid() && NEWLINE !in chunk
      modifies this`buf, this`cut, this`stream
      ensures Valid() && stream == old(stream) + chunk
    {
      var room := MAX_LINE - |buf|;
      ghost var rest := Rest(stream);
      if room >= |chunk| {
        buf := buf + chunk;
      } else {
        if room > 0 {
          buf := buf + chunk[..room];
          cut := cut + |chunk[room..]|;
        } else {
          cut := cut + |chunk|;
        }
      }
      PlainBytes(stream, chunk);
      KeptMore(rest, chunk);
      stream := stream + chunk;
    }

    // The newline itself: the line goes out.
    method Flush()
      requires Valid()
      modifies this
      ensures Valid() && stream == old(stream) + [NEWLINE]
    {
      EndOfLine(stream);
      stream := stream + [NEWLINE];
      lines := lines + [Line(Trimmed(buf), cut)];
      buf, cut := [], 0;
    }

    method Write(data: Bytes)
      requires Valid()
      modifies this
      ensures Valid() && stream == old(stream) + data
    {
      var p := data;
      while |p| > 0
        invariant Valid() && old(stream) + data == stream + p
        decreases |p|
      {
        var i := IndexNewline(p);
        if i < 0 {
          Append(p);
          return;
        }
        LineConsumed(stream, p, i);
        Append(p[..i]);
        Flush();
        p := p[i + 1..];
      }
      assert stream + p == stream;
    }

    method End()
      requires Valid()
      modifies this`buf, this`cut, this`lines
      ensures lines == AllLines(stream)
    {
      if |buf| > 0 || cut > 0 {
        LinesSnoc(Ended(stream), Rest(stream));
        lines := lines + [Line(Trimmed(buf), cut)];
        buf, cut := [], 0;
      }
    }
  }

  function Concat(chunks: seq<Bytes>, n: nat): Bytes
    requires n <= |chunks|
  {
    if n == 0 then [] else Concat(chunks, n - 1) + chunks[n - 1]
  }

  // Every write is in the stream, right after those before it.
  lemma {:induction false} ConcatHas(chunks: seq<Bytes>, n: nat, i: nat)
    requires i < n <= |chunks|
    ensures Concat(chunks, 0) == [] && Concat(chunks, i) + chunks[i] == Concat(chunks, i + 1) <= Concat(chunks, n)
  {
    if i < n - 1 {
      ConcatHas(chunks, n - 1, i);
    }
  }

  // Main result: how the stream is cut into writes does not matter. The lines
  // are those of the stream read at once.
  method Split(chunks: seq<Bytes>) returns (lines: seq<Line>)
    ensures lines == AllLines(Concat(chunks, |chunks|))
  {
    var s := new Splitter();
    for i := 0 to |chunks|
      invariant s.Valid() && s.stream == Concat(chunks, i)
    {
      s.Write(chunks[i]);
    }
    s.End();
    lines := s.lines;
  }

  // A line keeps what there is room for, and counts the rest.
  lemma KeptMore(rest: Bytes, chunk: Bytes)
    ensures
      var room := MAX_LINE - |Kept(rest)|;
      if room >= |chunk| then Kept(rest + chunk) == Kept(rest) + chunk && Over(rest + chunk) == (if |chunk| == 0 then Over(rest) else 0)
      else Kept(rest + chunk) == Kept(rest) + chunk[..room] && Over(rest + chunk) == Over(rest) + (|chunk| - room)
  {
  }

  lemma {:induction false} PlainBytes(s: Bytes, chunk: Bytes)
    requires NEWLINE !in chunk
    ensures Rest(s + chunk) == Rest(s) + chunk && Ended(s + chunk) == Ended(s)
    decreases |chunk|
  {
    if |chunk| == 0 {
      assert s + chunk == s;
    } else {
      var b, more := chunk[0], chunk[1..];
      PlainByte(s, b);
      PlainBytes(s + [b], more);
      MoveOver(s, b, more);
      MoveOver(Rest(s), b, more);
      assert chunk == [b] + more;
    }
  }

  lemma MoveOver(s: Bytes, b: byte, more: Bytes)
    ensures s + [b] + more == s + ([b] + more)
  {
  }

  lemma PlainByte(s: Bytes, b: byte)
    requires b != NEWLINE
    ensures Rest(s + [b]) == Rest(s) + [b] && Ended(s + [b]) == Ended(s)
  {
  }

  lemma LineConsumed(stream: Bytes, p: Bytes, i: nat)
    requires i < |p| && p[i] == NEWLINE
    ensures stream + p == stream + p[..i] + [NEWLINE] + p[i + 1..]
  {
  }

  lemma EndOfLine(s: Bytes)
    ensures Rest(s + [NEWLINE]) == []
    ensures Ended(s + [NEWLINE]) == Ended(s) + [Rest(s)]
    ensures LinesOf(Ended(s + [NEWLINE]), |Ended(s)| + 1) == LinesOf(Ended(s), |Ended(s)|) + [LineOf(Rest(s))]
  {
    assert (s + [NEWLINE])[..|s|] == s;
    LinesSnoc(Ended(s), Rest(s));
  }

  lemma LinesSnoc(raws: seq<Bytes>, raw: Bytes)
    ensures LinesOf(raws + [raw], |raws| + 1) == LinesOf(raws, |raws|) + [LineOf(raw)]
  {
    LinesPrefix(raws, raw, |raws|);
  }

  lemma {:induction false} LinesPrefix(raws: seq<Bytes>, raw: Bytes, n: nat)
    requires n <= |raws|
    ensures LinesOf(raws + [raw], n) == LinesOf(raws, n)
  {
    if n > 0 {
      LinesPrefix(raws, raw, n - 1);
    }
  }

  // ---------------------------------------------------------------------------
  // nothing is lost but what is counted and the line endings
  // ---------------------------------------------------------------------------

  lemma {:induction false} LineAt(raws: seq<Bytes>, n: nat, i: nat)
    requires i < n <= |raws|
    ensures LinesOf(raws, n)[i] == LineOf(raws[i])
  {
    if i < n - 1 {
      LineAt(raws, n - 1, i);
    }
  }

  // A line keeps its first MAX_LINE bytes, less a return at the end of them, and
  // counts exactly the others.
  lemma LineKeeps(raw: Bytes)
    ensures
      var first := if |raw| <= 16777216 then raw else raw[..16777216];
      var text := if |first| > 0 && first[|first| - 1] == 13 then first[..|first| - 1] else first;
      LineOf(raw) == Line(text, |raw| - |first|)
    ensures LineOf(raw).text <= raw && |raw| - 1 <= |LineOf(raw).text| + LineOf(raw).cut <= |raw|
    ensures LineOf(raw).text == raw <==> |raw| <= 16777216 && !(|raw| > 0 && raw[|raw| - 1] == 13)
  {
  }

  // Texts with a newline after each.
  function Joined(texts: seq<Bytes>, n: nat): Bytes
    requires n <= |texts|
  {
    if n == 0 then [] else Joined(texts, n - 1) + texts[n - 1] + [NEWLINE]
  }

  function Texts(lines: seq<Line>): (r: seq<Bytes>)
    ensures |r| == |lines| && forall i :: 0 <= i < |r| ==> r[i] == lines[i].text
  {
    seq(|lines|, i requires 0 <= i < |lines| => lines[i].text)
  }

  // The stream as its lines tell it: the last newline is there unless the last
  // line never got one.
  function Rejoined(lines: seq<Line>, unended: bool): Bytes
    requires unended ==> |lines| > 0
  {
    if unended then Joined(Texts(lines), |lines| - 1) + lines[|lines| - 1].text
    else Joined(Texts(lines), |lines|)
  }

  lemma {:induction false} RawsTellTheStream(s: Bytes)
    ensures Joined(Ended(s), |Ended(s)|) + Rest(s) == s
    decreases |s|
  {
    if |s| > 0 {
      var front := s[..|s| - 1];
      RawsTellTheStream(front);
      assert s == front + [s[|s| - 1]];
      if s[|s| - 1] == NEWLINE {
        JoinedPrefix(Ended(front), Ended(s), |Ended(front)|);
      }
    }
  }

  // And no stretch has a newline in it, so they are the only ones that do.
  lemma {:induction false} NoNewlineInside(s: Bytes)
    ensures 10 !in Rest(s) && forall i :: 0 <= i < |Ended(s)| ==> 10 !in Ended(s)[i]
    decreases |s|
  {
    if |s| > 0 {
      NoNewlineInside(s[..|s| - 1]);
    }
  }

  lemma {:induction false} JoinedPrefix(a: seq<Bytes>, b: seq<Bytes>, n: nat)
    requires n <= |a| && n <= |b| && forall i :: 0 <= i < n ==> a[i] == b[i]
    ensures Joined(a, n) == Joined(b, n)
  {
    if n > 0 {
      JoinedPrefix(a, b, n - 1);
    }
  }

  lemma {:induction false} ShorterTextsJoinShorter(a: seq<Bytes>, b: seq<Bytes>, n: nat)
    requires n <= |a| && n <= |b| && forall i :: 0 <= i < n ==> |a[i]| <= |b[i]|
    ensures |Joined(a, n)| <= |Joined(b, n)|
    ensures (exists i :: 0 <= i < n && |a[i]| < |b[i]|) ==> |Joined(a, n)| < |Joined(b, n)|
  {
    if n > 0 {
      ShorterTextsJoinShorter(a, b, n - 1);
    }
  }

  predicate Whole(raw: Bytes) {
    |raw| <= 16777216 && !(|raw| > 0 && raw[|raw| - 1] == 13)
  }

  lemma TextsOfRaws(s: Bytes)
    ensures |Texts(AllLines(s))| == |Raws(s)|
    ensures forall i :: 0 <= i < |Raws(s)| ==> |Texts(AllLines(s))[i]| <= |Raws(s)[i]|
    ensures forall i :: 0 <= i < |Raws(s)| ==> (Whole(Raws(s)[i]) <==> Texts(AllLines(s))[i] == Raws(s)[i])
    ensures forall i :: 0 <= i < |Raws(s)| && !Whole(Raws(s)[i]) ==> |Texts(AllLines(s))[i]| < |Raws(s)[i]|
  {
    var raws, texts := Raws(s), Texts(AllLines(s));
    forall i | 0 <= i < |raws|
      ensures |texts[i]| <= |raws[i]| && (Whole(raws[i]) <==> texts[i] == raws[i]) && (!Whole(raws[i]) ==> |texts[i]| < |raws[i]|)
    {
      LineAt(raws, |raws|, i);
      LineKeeps(raws[i]);
    }
  }

  // The stretches rejoin to the stream.
  lemma RawsRejoin(s: Bytes)
    ensures s == Joined(Raws(s), |Ended(s)|) + Rest(s)
    ensures |Raws(s)| == if Rest(s) == [] then |Ended(s)| else |Ended(s)| + 1
    ensures Rest(s) != [] ==> Raws(s)[|Ended(s)|] == Rest(s)
  {
    RawsTellTheStream(s);
    JoinedPrefix(Ended(s), Raws(s), |Ended(s)|);
  }

  lemma WholeRejoins(s: Bytes)
    requires forall i :: 0 <= i < |Raws(s)| ==> Whole(Raws(s)[i])
    ensures Rejoined(AllLines(s), Rest(s) != []) == s
  {
    TextsOfRaws(s);
    RawsRejoin(s);
    var texts := Texts(AllLines(s));
    assert texts == Raws(s);
  }

  lemma RejoinedIs(s: Bytes)
    ensures
      var texts, n := Texts(AllLines(s)), |Ended(s)|;
      && |texts| == |Raws(s)|
      && Rejoined(AllLines(s), Rest(s) != []) == if Rest(s) == [] then Joined(texts, n) else Joined(texts, n) + texts[n]
  {
    TextsOfRaws(s);
    RawsRejoin(s);
  }

  lemma LossIsSeen(s: Bytes, i: nat)
    requires i < |Raws(s)| && !Whole(Raws(s)[i])
    ensures |Rejoined(AllLines(s), Rest(s) != [])| < |s|
  {
    var raws, texts, n := Raws(s), Texts(AllLines(s)), |Ended(s)|;
    RejoinedIs(s);
    TextsOfRaws(s);
    RawsRejoin(s);
    ShorterTextsJoinShorter(texts, raws, n);
    assert |texts[i]| < |raws[i]|;
  }

  // Main result: the lines rejoin to the very stream exactly when no line was
  // cut and none had a return trimmed.
  lemma RejoinsIffNothingLost(s: Bytes)
    ensures Rejoined(AllLines(s), Rest(s) != []) == s <==> forall i :: 0 <= i < |Raws(s)| ==> Whole(Raws(s)[i])
  {
    if forall i :: 0 <= i < |Raws(s)| ==> Whole(Raws(s)[i]) {
      WholeRejoins(s);
    } else {
      var i :| 0 <= i < |Raws(s)| && !Whole(Raws(s)[i]);
      LossIsSeen(s, i);
    }
  }
}
