/**
The reader of the protobuf wire format that agy's records need: base-128
varints, and messages as a list of numbered fields ("Base 128 Varints" and
"Message Structure" in the Protocol Buffers Encoding guide).

Go's int is 64 bits wide here. A position plus a declared length is computed in
it and can wrap, which is modelled as it happens.
*/
module Wire {
  import opened Common

  type Bytes = seq<bv8>

  // ---------------------------------------------------------------------------
  // varints
  // ---------------------------------------------------------------------------

  // A value and the position after it, or the error.
  datatype Varint = Value(v: bv64, next: nat) | NotProtobuf

  // The bit operations of both directions, each by name.
  function Or(v: bv64, w: bv64): bv64 { v | w }

  function Low(c: bv8): bv64 { (c & 0x7f) as bv64 }

  predicate IsLast(c: bv8) { c < 0x80 }

  predicate FitsOneByte(v: bv64) { v < 0x80 }

  function LastByte(v: bv64): bv8
    requires FitsOneByte(v)
  {
    v as bv8
  }

  function MoreByte(v: bv64): bv8 { ((v & 0x7f) | 0x80) as bv8 }

  function LowGroup(v: bv64): bv64 { v & 0x7f }

  function HighGroups(v: bv64): bv64 { v >> 7 }

  function Up(v: bv64): bv64 { v << 7 }

  // A shift to the left by seven places, so many times over. The source's shift
  // is always a multiple of seven; it is counted here in sevens.
  function Shifted(x: bv64, sevens: nat): bv64 {
    if sevens == 0 then x else Up(Shifted(x, sevens - 1))
  }

  // The loop of pbVarintAt from one of its turns on.
  function VarintFrom(b: Bytes, i: nat, sevens: nat, v: bv64): Varint
    decreases |b| - i
  {
    if 7 * sevens >= 64 || i >= |b| then NotProtobuf
    else
      var w := Or(v, Shifted(Low(b[i]), sevens));
      if IsLast(b[i]) then Value(w, i + 1) else VarintFrom(b, i + 1, sevens + 1, w)
  }

  // The varint at a position.
  function VarintOf(b: Bytes, i: nat): Varint {
    VarintFrom(b, i, 0, 0)
  }

  method VarintAt(b: Bytes, start: nat) returns (r: Varint)
    ensures r == VarintOf(b, start)
  {
    var v: bv64 := 0;
    var i: nat := start;
    var sevens: nat := 0;
    while 7 * sevens < 64
      invariant VarintFrom(b, start, 0, 0) == VarintFrom(b, i, sevens, v)
      decreases 10 - sevens
    {
      if i >= |b| {
        return NotProtobuf;
      }
      var c := b[i];
      i := i + 1;
      v := Or(v, Shifted(Low(c), sevens));
      if IsLast(c) {
        return Value(v, i);
      }
      sevens := sevens + 1;
    }
    r := NotProtobuf;
  }

  // Base-128 encoding: seven bits a byte, least significant first, the high bit
  // set on all but the last.
  function Encode(v: bv64): Bytes
    decreases v
  {
    if FitsOneByte(v) then [LastByte(v)]
    else
      HighGroupsSmaller(v);
      [MoreByte(v)] + Encode(HighGroups(v))
  }

  lemma HighGroupsSmaller(v: bv64)
    requires !FitsOneByte(v)
    ensures HighGroups(v) < v
  {
  }

  // ---- the facts about the bits ----

  lemma BytesCarryGroups(v: bv64)
    ensures Low(MoreByte(v)) == LowGroup(v) && !IsLast(MoreByte(v))
    ensures FitsOneByte(v) ==> Low(LastByte(v)) == v && IsLast(LastByte(v))
  {
  }

  lemma LowAndHigh(v: bv64)
    ensures Or(LowGroup(v), Up(HighGroups(v))) == v
  {
  }

  lemma UpOfOr(a: bv64, b: bv64)
    ensures Or(Up(a), Up(b)) == Up(Or(a, b))
  {
  }

  lemma OrAssociates(a: bv64, b: bv64, c: bv64)
    ensures Or(Or(a, b), c) == Or(a, Or(b, c))
  {
  }

  lemma OrZero(v: bv64)
    ensures Or(0, v) == v
  {
  }

  // The group at one place and all the groups above it are the whole.
  lemma {:induction false} GroupsAtShift(v: bv64, sevens: nat)
    ensures Or(Shifted(LowGroup(v), sevens), Shifted(HighGroups(v), sevens + 1)) == Shifted(v, sevens)
  {
    if sevens == 0 {
      LowAndHigh(v);
      assert Shifted(HighGroups(v), 1) == Up(Shifted(HighGroups(v), 0));
    } else {
      GroupsAtShift(v, sevens - 1);
      UpOfOr(Shifted(LowGroup(v), sevens - 1), Shifted(HighGroups(v), sevens));
    }
  }

  // Counting in sevens is the machine's shift, bits off the end included.
  lemma ShiftedIsShift(x: bv64)
    ensures Shifted(x, 0) == x << 0 && Shifted(x, 1) == x << 7 && Shifted(x, 2) == x << 14
    ensures Shifted(x, 3) == x << 21 && Shifted(x, 4) == x << 28 && Shifted(x, 5) == x << 35
    ensures Shifted(x, 6) == x << 42 && Shifted(x, 7) == x << 49 && Shifted(x, 8) == x << 56
    ensures Shifted(x, 9) == x << 63
  {
    LiteralShifts(x);
    ShiftedOnce(x, 0);
    ShiftedOnce(x, 1);
    ShiftedOnce(x, 2);
    ShiftedOnce(x, 3);
    ShiftedOnce(x, 4);
    ShiftedOnce(x, 5);
    ShiftedOnce(x, 6);
    ShiftedOnce(x, 7);
    ShiftedOnce(x, 8);
  }

  lemma ShiftedOnce(x: bv64, k: nat)
    ensures Shifted(x, k + 1) == Up(Shifted(x, k))
  {
  }

  lemma LiteralShifts(x: bv64)
    ensures x == x << 0 && Up(x << 0) == x << 7 && Up(x << 7) == x << 14
    ensures Up(x << 14) == x << 21 && Up(x << 21) == x << 28 && Up(x << 28) == x << 35
    ensures Up(x << 35) == x << 42 && Up(x << 42) == x << 49 && Up(x << 49) == x << 56 && Up(x << 56) == x << 63
  {
  }

  // Nine groups taken away, what is left of sixty-four bits fits one byte.
  function HighAfter(v: bv64, k: nat): bv64 {
    if k == 0 then v else HighGroups(HighAfter(v, k - 1))
  }

  lemma NineGroupsLeaveOneByte(v: bv64)
    ensures FitsOneByte(HighGroups(HighGroups(HighGroups(HighGroups(HighGroups(HighGroups(HighGroups(HighGroups(HighGroups(v))))))))))
  {
  }

  lemma HighAfterNine(v: bv64)
    ensures FitsOneByte(HighAfter(v, 9))
  {
    NineGroupsLeaveOneByte(v);
    assert HighAfter(v, 3) == HighGroups(HighAfter(v, 2));
    assert HighAfter(v, 5) == HighGroups(HighAfter(v, 4));
    assert HighAfter(v, 7) == HighGroups(HighAfter(v, 6));
    assert HighAfter(v, 9) == HighGroups(HighAfter(v, 8));
  }

  // A stretch of bytes stands at a position.
  predicate StandsAt(b: Bytes, i: nat, e: Bytes) {
    i + |e| <= |b| && b[i..i + |e|] == e
  }

  lemma StandsFrom(b: Bytes, i: nat, first: bv8, rest: Bytes)
    requires StandsAt(b, i, [first] + rest)
    ensures b[i] == first && StandsAt(b, i + 1, rest)
  {
    assert b[i] == b[i..i + 1 + |rest|][0];
    assert b[i + 1..i + 1 + |rest|] == b[i..i + 1 + |rest|][1..] == rest;
  }

  // Reading the groups of a value back from its s-th on. There are at most ten.
  lemma {:induction false} DecodeEncodeAt(b: Bytes, i: nat, whole: bv64, v: bv64, s: nat, acc: bv64)
    requires s <= 9 && v == HighAfter(whole, s) && StandsAt(b, i, Encode(v))
    ensures VarintFrom(b, i, s, acc) == Value(Or(acc, Shifted(v, s)), i + |Encode(v)|)
    decreases 10 - s
  {
    BytesCarryGroups(v);
    if FitsOneByte(v) {
      StandsFrom(b, i, LastByte(v), []);
    } else {
      var rest := HighGroups(v);
      StandsFrom(b, i, MoreByte(v), Encode(rest));
      HighAfterNine(whole);
      GroupsAtShift(v, s);
      OrAssociates(acc, Shifted(LowGroup(v), s), Shifted(rest, s + 1));
      DecodeEncodeAt(b, i + 1, whole, rest, s + 1, Or(acc, Shifted(LowGroup(v), s)));
    }
  }

  // Every 64-bit value is read back from its encoding, wherever it stands.
  lemma VarintRoundTrip(pre: Bytes, v: bv64, post: Bytes)
    ensures VarintOf(pre + Encode(v) + post, |pre|) == Value(v, |pre| + |Encode(v)|)
  {
    var b := pre + Encode(v) + post;
    assert b[|pre|..|pre| + |Encode(v)|] == Encode(v);
    assert HighAfter(v, 0) == v && Shifted(v, 0) == v;
    DecodeEncodeAt(b, |pre|, v, v, 0, 0);
    OrZero(v);
  }

  // A reading succeeds exactly when one of the next ten bytes is below 128, and
  // it ends after the first of them.
  lemma VarintEnds(b: Bytes, i: nat)
    ensures var r := VarintOf(b, i);
            r.Value? <==> exists n :: i < n <= i + 10 && LastByteAt(b, i, n)
    ensures var r := VarintOf(b, i);
            r.Value? ==> i < r.next <= i + 10 && LastByteAt(b, i, r.next)
  {
    EndsFrom(b, i, i, 0, 0);
  }

  // The bytes from i up to n are one varint: only the last is below 128.
  predicate LastByteAt(b: Bytes, i: nat, n: nat) {
    i < n <= |b| && IsLast(b[n - 1]) && forall j :: i <= j < n - 1 ==> !IsLast(b[j])
  }

  lemma {:induction false} EndsFrom(b: Bytes, start: nat, i: nat, s: nat, acc: bv64)
    requires start <= i && s == i - start && s <= 10
    requires i <= |b| || s == 0
    requires forall j :: start <= j < i && j < |b| ==> !IsLast(b[j])
    ensures var r := VarintFrom(b, i, s, acc);
            && (r.Value? ==> start < r.next <= start + 10 && LastByteAt(b, start, r.next))
            && (r.NotProtobuf? ==> forall n :: start < n <= start + 10 ==> !LastByteAt(b, start, n))
    decreases 10 - s
  {
    if s < 10 && i < |b| && !IsLast(b[i]) {
      EndsFrom(b, start, i + 1, s + 1, Or(acc, Shifted(Low(b[i]), s)));
    }
  }

  // ---------------------------------------------------------------------------
  // fields
  // ---------------------------------------------------------------------------

  datatype WireType = VarintType | Fixed64Type | LengthType | Fixed32Type | UnknownType

  datatype PbField = PbField(num: bv64, wire: WireType, varint: bv64, bytes: Bytes)

  // The fields, the error, or an index out of range while slicing.
  datatype Outcome<+T> = Fields(value: T) | Malformed | OutOfRange

  const TWO_63: int := 0x8000_0000_0000_0000
  const TWO_64: int := 0x1_0000_0000_0000_0000

  // No buffer comes within eight bytes of what an int can count.
  const LIMIT: int := TWO_63 - 8

  // An integer as Go's 64-bit int holds it.
  function Int64(x: int): int {
    (x + TWO_63) % TWO_64 - TWO_63
  }

  function NumberOf(tag: bv64): bv64 { tag >> 3 }

  function WireOf(tag: bv64): WireType {
    if tag & 7 == 0 then VarintType
    else if tag & 7 == 1 then Fixed64Type
    else if tag & 7 == 2 then LengthType
    else if tag & 7 == 5 then Fixed32Type
    else UnknownType
  }

  // A varint as Go's int.
  function AsInt(l: bv64): int { Int64(l as int) }

  // One field at position i: the field and the position after it.
  function FieldAt(b: Bytes, i: nat): Outcome<(PbField, nat)> {
    var tag := VarintOf(b, i);
    if tag.NotProtobuf? then Malformed
    else ValueAt(b, tag.next, NumberOf(tag.v), WireOf(tag.v), VarintOf(b, tag.next))
  }

  // Its value, once the tag is read; `here` is what a varint at n would be.
  function ValueAt(b: Bytes, n: nat, num: bv64, wire: WireType, here: Varint): Outcome<(PbField, nat)> {
    match wire
    case VarintType =>
      if here.NotProtobuf? then Malformed else Fields((PbField(num, wire, here.v, []), here.next))
    case Fixed64Type => SkipAt(b, n, num, wire, 8)
    case Fixed32Type => SkipAt(b, n, num, wire, 4)
    case LengthType =>
      if here.NotProtobuf? then Malformed else SliceAt(b, here.next, num, wire, AsInt(here.v))
    case UnknownType => Malformed
  }

  function SkipAt(b: Bytes, n: nat, num: bv64, wire: WireType, width: nat): Outcome<(PbField, nat)> {
    if Int64(n + width) > |b| then Malformed else Fields((PbField(num, wire, 0, []), n + width))
  }

  function SliceAt(b: Bytes, m: nat, num: bv64, wire: WireType, length: int): Outcome<(PbField, nat)> {
    var end := Int64(m + length);
    if end > |b| || length < 0 then Malformed
    else if end < m then OutOfRange
    else Fields((PbField(num, wire, 0, b[m..end]), end))
  }

  // A field read whole is never empty and never past the end: reading goes on.
  lemma FieldAdvances(b: Bytes, i: nat)
    requires |b| < LIMIT
    ensures FieldAt(b, i).Fields? ==> i < FieldAt(b, i).value.1 <= |b|
  {
    VarintEnds(b, i);
    var tag := VarintOf(b, i);
    if tag.Value? {
      VarintEnds(b, tag.next);
      ValueAdvances(b, tag.next, NumberOf(tag.v), WireOf(tag.v), VarintOf(b, tag.next));
    }
  }

  lemma ValueAdvances(b: Bytes, n: nat, num: bv64, wire: WireType, here: Varint)
    requires n <= |b| < LIMIT && (here.Value? ==> n < here.next <= |b|)
    ensures ValueAt(b, n, num, wire, here).Fields? ==> n <= ValueAt(b, n, num, wire, here).value.1 <= |b|
  {
  }

  // What stands where a value is expected, by the last three bits of the tag.
  predicate ValueStands(b: Bytes, n: nat, kind: bv64) {
    var here := VarintOf(b, n);
    || (kind == 0 && here.Value?)
    || (kind == 1 && n + 8 <= |b|)
    || (kind == 5 && n + 4 <= |b|)
    || (kind == 2 && here.Value? && (here.v as int) < TWO_63 && here.next + (here.v as int) <= |b|)
  }

  lemma Int64OfBig(x: int)
    requires TWO_63 <= x < TWO_64
    ensures Int64(x) == x - TWO_64
  {
  }

  lemma SliceStandsIff(b: Bytes, num: bv64, m: nat, x: int)
    requires m <= |b| < LIMIT && 0 <= x < TWO_64
    ensures SliceAt(b, m, num, LengthType, Int64(x)).Fields? <==> x < TWO_63 && m + x <= |b|
  {
    if x >= TWO_63 {
      Int64OfBig(x);
    } else {
      Int64OfSmall(x);
      if m + x < TWO_63 {
        Int64OfSmall(m + x);
      } else {
        Int64OfBig(m + x);
      }
    }
  }

  // Main result: a field is read exactly when its tag is a varint, its type is one of
  // the four known ones, and its value stands whole in the buffer.
  lemma FieldIsReadIff(b: Bytes, i: nat)
    requires |b| < LIMIT
    ensures FieldAt(b, i).Fields? <==> VarintOf(b, i).Value? && ValueStands(b, VarintOf(b, i).next, VarintOf(b, i).v & 7)
  {
    VarintEnds(b, i);
    var tag := VarintOf(b, i);
    if tag.Value? {
      VarintEnds(b, tag.next);
      var here := VarintOf(b, tag.next);
      if here.Value? {
        SliceStandsIff(b, NumberOf(tag.v), here.next, here.v as int);
      }
    }
  }

  // Everything from position i on.
  function FieldsFrom(b: Bytes, i: nat): Outcome<seq<PbField>>
    requires |b| < LIMIT
    decreases |b| - i
  {
    if i >= |b| then Fields([])
    else
      FieldAdvances(b, i);
      match FieldAt(b, i)
      case Malformed => Malformed
      case OutOfRange => OutOfRange
      case Fields((f, next)) =>
        match FieldsFrom(b, next)
        case Fields(rest) => Fields([f] + rest)
        case other => other
  }

  // What is still to come after the fields already read.
  function After(out: seq<PbField>, rest: Outcome<seq<PbField>>): Outcome<seq<PbField>> {
    if rest.Fields? then Fields(out + rest.value) else rest
  }

  lemma AfterOne(out: seq<PbField>, b: Bytes, i: nat)
    requires |b| < LIMIT && i < |b| && FieldAt(b, i).Fields?
    ensures var (f, next) := FieldAt(b, i).value;
            After(out, FieldsFrom(b, i)) == After(out + [f], FieldsFrom(b, next))
  {
    var (f, next) := FieldAt(b, i).value;
    var rest := FieldsFrom(b, next);
    if rest.Fields? {
      assert out + ([f] + rest.value) == (out + [f]) + rest.value;
    }
  }

  lemma AfterNone(rest: Outcome<seq<PbField>>)
    ensures After([], rest) == rest
  {
    if rest.Fields? {
      assert [] + rest.value == rest.value;
    }
  }

  method PbFields(b: Bytes) returns (r: Outcome<seq<PbField>>)
    requires |b| < LIMIT
    ensures r == FieldsFrom(b, 0)
  {
    var out: seq<PbField> := [];
    var i: nat := 0;
    AfterNone(FieldsFrom(b, 0));
    while i < |b|
      invariant i <= |b|
      invariant FieldsFrom(b, 0) == After(out, FieldsFrom(b, i))
      decreases |b| - i
    {
      FieldAdvances(b, i);
      var field := PbFieldAt(b, i);
      if !field.Fields? {
        return if field.Malformed? then Malformed else OutOfRange;
      }
      AfterOne(out, b, i);
      out, i := out + [field.value.0], field.value.1;
    }
    assert FieldsFrom(b, i) == Fields([]) && out + [] == out;
    r := Fields(out);
  }

  // One turn of the loop of PbFields.
  method PbFieldAt(b: Bytes, start: nat) returns (r: Outcome<(PbField, nat)>)
    ensures r == FieldAt(b, start)
  {
    var tag := VarintAt(b, start);
    if tag.NotProtobuf? {
      return Malformed;
    }
    r := PbValueAt(b, tag.next, NumberOf(tag.v), WireOf(tag.v));
  }

  method PbValueAt(b: Bytes, n: nat, num: bv64, wire: WireType) returns (r: Outcome<(PbField, nat)>)
    ensures r == ValueAt(b, n, num, wire, VarintOf(b, n))
  {
    match wire {
      case VarintType =>
        var v := VarintAt(b, n);
        if v.NotProtobuf? {
          return Malformed;
        }
        r := Fields((PbField(num, wire, v.v, []), v.next));
      case Fixed64Type =>
        if Int64(n + 8) > |b| {
          return Malformed;
        }
        r := Fields((PbField(num, wire, 0, []), n + 8));
      case Fixed32Type =>
        if Int64(n + 4) > |b| {
          return Malformed;
        }
        r := Fields((PbField(num, wire, 0, []), n + 4));
      case LengthType =>
        var l := VarintAt(b, n);
        if l.NotProtobuf? {
          return Malformed;
        }
        r := PbSlice(b, l.next, num, AsInt(l.v));
      case UnknownType =>
        return Malformed;
    }
  }

  method PbSlice(b: Bytes, n: nat, num: bv64, length: int) returns (r: Outcome<(PbField, nat)>)
    ensures r == SliceAt(b, n, num, LengthType, length)
  {
    if Int64(n + length) > |b| || length < 0 {
      return Malformed;
    }
    var end := Int64(n + length);
    if end < n {
      return OutOfRange;
    }
    r := Fields((PbField(num, LengthType, 0, b[n..end]), end));
  }

  // The slice is out of range exactly where a position and a length, each an
  // int, have a sum that is none.
  lemma OutOfRangeIffOverflow(b: Bytes, i: nat)
    requires |b| < LIMIT
    ensures FieldAt(b, i) == OutOfRange <==> LengthOverflows(b, i)
  {
    VarintEnds(b, i);
    var tag := VarintOf(b, i);
    if tag.Value? && WireOf(tag.v).LengthType? {
      VarintEnds(b, tag.next);
      var l := VarintOf(b, tag.next);
      if l.Value? {
        SliceOutOfRange(b, l.next, NumberOf(tag.v), AsInt(l.v));
      }
    }
  }

  lemma SliceOutOfRange(b: Bytes, m: nat, num: bv64, length: int)
    requires m <= |b| < LIMIT && length < TWO_63
    ensures SliceAt(b, m, num, LengthType, length) == OutOfRange <==> length >= 0 && m + length >= TWO_63
  {
  }

  predicate LengthOverflows(b: Bytes, i: nat) {
    var tag := VarintOf(b, i);
    tag.Value? && WireOf(tag.v).LengthType? &&
    var l := VarintOf(b, tag.next);
    l.Value? && AsInt(l.v) >= 0 && l.next + AsInt(l.v) >= TWO_63
  }

  // Where reading stopped: the end, or the field it could not read.
  function StoppedAt(b: Bytes, i: nat): nat
    requires |b| < LIMIT
    decreases |b| - i
  {
    FieldAdvances(b, i);
    if i < |b| && FieldAt(b, i).Fields? then StoppedAt(b, FieldAt(b, i).value.1) else i
  }

  // A length of 2^63 - 1 is an int, and a position plus it is not.
  lemma HugeLengthOverflows()
    ensures LengthOverflows(Encode(MakeTag(1, 2)) + Encode(0x7fff_ffff_ffff_ffff), 0)
  {
    var tag, l := Encode(MakeTag(1, 2)), Encode(0x7fff_ffff_ffff_ffff);
    TagWire(1);
    assert [] + tag + l == tag + l && tag + l + [] == tag + l;
    VarintRoundTrip([], MakeTag(1, 2), l);
    VarintRoundTrip(tag, 0x7fff_ffff_ffff_ffff, []);
    VarintEnds(tag + l, 0);
    VarintEnds(tag + l, |tag|);
    assert AsInt(0x7fff_ffff_ffff_ffff) == TWO_63 - 1;
  }

  // A whole buffer is read to its end, or up to the one field that stops it.
  lemma {:induction false} ReadToTheEnd(b: Bytes, i: nat)
    requires i <= |b| < LIMIT
    ensures FieldsFrom(b, i).Fields? <==> StoppedAt(b, i) == |b|
    ensures FieldsFrom(b, i) == OutOfRange <==> StoppedAt(b, i) < |b| && LengthOverflows(b, StoppedAt(b, i))
    decreases |b| - i
  {
    FieldAdvances(b, i);
    OutOfRangeIffOverflow(b, i);
    if i < |b| && FieldAt(b, i).Fields? {
      ReadToTheEnd(b, FieldAt(b, i).value.1);
    } else if i == |b| {
      assert FieldsFrom(b, i) == Fields([]);
    }
  }

  // ---------------------------------------------------------------------------
  // messages are read back
  // ---------------------------------------------------------------------------

  function MakeTag(num: bv64, wire: bv64): bv64 { (num << 3) | wire }

  // A field number leaves the tag room for the wire type.
  predicate NumberFits(num: bv64) { num < 0x2000_0000_0000_0000 }

  // A field as a writer means it. The reader skips over fixed-width values.
  datatype Field =
    | VarintField(num: bv64, value: bv64)
    | Fixed64Field(num: bv64, eight: Bytes)
    | LengthField(num: bv64, length: bv64, payload: Bytes)
    | Fixed32Field(num: bv64, four: Bytes)
  {
    predicate Valid() {
      && NumberFits(num)
      && (Fixed64Field? ==> |eight| == 8)
      && (Fixed32Field? ==> |four| == 4)
      && (LengthField? ==> length as int == |payload|)
    }

    function Wire(): WireType {
      match this
      case VarintField(_, _) => VarintType
      case Fixed64Field(_, _) => Fixed64Type
      case LengthField(_, _, _) => LengthType
      case Fixed32Field(_, _) => Fixed32Type
    }

    function Tag(): bv64 {
      match this
      case VarintField(n, _) => MakeTag(n, 0)
      case Fixed64Field(n, _) => MakeTag(n, 1)
      case LengthField(n, _, _) => MakeTag(n, 2)
      case Fixed32Field(n, _) => MakeTag(n, 5)
    }

    function Value(): Bytes {
      match this
      case VarintField(_, v) => Encode(v)
      case Fixed64Field(_, bs) => bs
      case LengthField(_, l, bs) => Encode(l) + bs
      case Fixed32Field(_, bs) => bs
    }

    function Encoded(): Bytes {
      Encode(Tag()) + Value()
    }

    // What the reader is to make of it.
    function Read(): PbField {
      match this
      case VarintField(n, v) => PbField(n, VarintType, v, [])
      case Fixed64Field(n, _) => PbField(n, Fixed64Type, 0, [])
      case LengthField(n, _, bs) => PbField(n, LengthType, 0, bs)
      case Fixed32Field(n, _) => PbField(n, Fixed32Type, 0, [])
    }
  }

  predicate AllValid(fs: seq<Field>) {
    forall i :: 0 <= i < |fs| ==> fs[i].Valid()
  }

  function Message(fs: seq<Field>): Bytes {
    if fs == [] then [] else fs[0].Encoded() + Message(fs[1..])
  }

  function ReadAll(fs: seq<Field>): seq<PbField> {
    seq(|fs|, i requires 0 <= i < |fs| => fs[i].Read())
  }

  lemma TagParts(f: Field)
    requires f.Valid()
    ensures NumberOf(f.Tag()) == f.num && WireOf(f.Tag()) == f.Wire()
  {
  }

  lemma TagWire(num: bv64)
    ensures WireOf(MakeTag(num, 0)) == VarintType && WireOf(MakeTag(num, 1)) == Fixed64Type
    ensures WireOf(MakeTag(num, 2)) == LengthType && WireOf(MakeTag(num, 5)) == Fixed32Type
  {
  }

  lemma Regroup(a: Bytes, b: Bytes, c: Bytes, d: Bytes)
    ensures a + (b + c) + d == a + b + (c + d)
    ensures a + (b + c) + d == (a + b) + c + d
  {
  }

  // The value of a field written after n bytes, read given the varint found there.
  function ReadValue(pre: Bytes, f: Field, post: Bytes, here: Varint): Outcome<(PbField, nat)> {
    ValueAt(pre + f.Value() + post, |pre|, f.num, f.Wire(), here)
  }

  function Expected(pre: Bytes, f: Field): Outcome<(PbField, nat)> {
    Fields((f.Read(), |pre| + |f.Value()|))
  }

  lemma VarintValue(pre: Bytes, f: Field, post: Bytes)
    requires f.VarintField?
    ensures ReadValue(pre, f, post, Value(f.value, |pre| + |f.Value()|)) == Expected(pre, f)
  {
  }

  lemma FixedValue(pre: Bytes, f: Field, post: Bytes, here: Varint)
    requires f.Valid() && |pre + f.Value() + post| < LIMIT && (f.Fixed64Field? || f.Fixed32Field?)
    ensures ReadValue(pre, f, post, here) == Expected(pre, f)
  {
    SkipInside(pre + f.Value() + post, |pre|, f.num, f.Wire(), |f.Value()|);
  }

  lemma LengthValue(pre: Bytes, f: Field, post: Bytes)
    requires f.LengthField? && f.Valid() && |pre + f.Value() + post| < LIMIT
    ensures ReadValue(pre, f, post, Value(f.length, |pre| + |f.Value()| - |f.payload|)) == Expected(pre, f)
  {
    LengthParts(f);
    LengthAt(pre, Encode(f.length), f.num, f.length, f.payload, post);
  }

  lemma LengthAt(pre: Bytes, e: Bytes, num: bv64, l: bv64, bs: Bytes, post: Bytes)
    requires l as int == |bs| && |pre + (e + bs) + post| < LIMIT
    ensures ValueAt(pre + (e + bs) + post, |pre|, num, LengthType, Value(l, |pre| + |e|)) ==
            Fields((PbField(num, LengthType, 0, bs), |pre| + |e + bs|))
  {
    SliceOfLength(pre + (e + bs) + post, |pre|, num, l, |pre| + |e|, |bs|);
    LengthSlice(pre, e, num, bs, post);
  }

  lemma LengthParts(f: Field)
    requires f.LengthField? && f.Valid()
    ensures f.Value() == Encode(f.length) + f.payload && f.length as int == |f.payload|
    ensures f.Read() == PbField(f.num, LengthType, 0, f.payload) && f.Wire() == LengthType
  {
  }

  lemma LengthSlice(pre: Bytes, e: Bytes, num: bv64, bs: Bytes, post: Bytes)
    requires |pre + (e + bs) + post| < LIMIT
    ensures SliceAt(pre + (e + bs) + post, |pre| + |e|, num, LengthType, |bs|) ==
            Fields((PbField(num, LengthType, 0, bs), |pre| + |e + bs|))
  {
    Regroup(pre, e, bs, post);
    LengthRoundTrip(pre + e, num, bs, post);
  }

  lemma SliceOfLength(b: Bytes, n: nat, num: bv64, l: bv64, m: nat, length: int)
    requires n <= m && l as int == length < TWO_63
    ensures ValueAt(b, n, num, LengthType, Value(l, m)) == SliceAt(b, m, num, LengthType, length)
  {
    LengthIs(l, length);
  }

  // A value is read back, whatever its type.
  lemma ValueRoundTrip(pre: Bytes, f: Field, post: Bytes, here: Varint)
    requires f.Valid() && |pre + f.Value() + post| < LIMIT
    requires f.VarintField? ==> here == Value(f.value, |pre| + |f.Value()|)
    requires f.LengthField? ==> here == Value(f.length, |pre| + |f.Value()| - |f.payload|)
    ensures ReadValue(pre, f, post, here) == Expected(pre, f)
  {
    match f
    case VarintField(_, _) => VarintValue(pre, f, post);
    case LengthField(_, _, _) => LengthValue(pre, f, post);
    case _ => FixedValue(pre, f, post, here);
  }

  lemma SkipInside(b: Bytes, n: nat, num: bv64, wire: WireType, width: nat)
    requires n + width <= |b| < LIMIT
    ensures SkipAt(b, n, num, wire, width) == Fields((PbField(num, wire, 0, []), n + width))
  {
  }

  lemma VarintOfValue(pre: Bytes, f: Field, post: Bytes)
    ensures var here := VarintOf(pre + f.Value() + post, |pre|);
            && (f.VarintField? ==> here == Value(f.value, |pre| + |f.Value()|))
            && (f.LengthField? ==> here == Value(f.length, |pre| + |f.Value()| - |f.payload|))
  {
    match f
    case VarintField(_, v) => VarintRoundTrip(pre, v, post);
    case LengthField(_, l, bs) =>
      Regroup(pre, Encode(l), bs, post);
      VarintRoundTrip(pre, l, bs + post);
    case _ =>
  }

  lemma LengthIs(l: bv64, n: nat)
    requires l as int == n < TWO_63
    ensures AsInt(l) == n
  {
    Int64OfSmall(l as int);
  }

  lemma Int64OfSmall(x: int)
    requires 0 <= x < TWO_63
    ensures Int64(x) == x
  {
  }

  lemma LengthRoundTrip(pre: Bytes, n: bv64, bs: Bytes, post: Bytes)
    requires |pre + bs + post| < LIMIT
    ensures SliceAt(pre + bs + post, |pre|, n, LengthType, |bs|) == Fields((PbField(n, LengthType, 0, bs), |pre| + |bs|))
  {
  }

  lemma FieldRoundTrip(pre: Bytes, f: Field, post: Bytes)
    requires f.Valid() && |pre + f.Encoded() + post| < LIMIT
    ensures FieldAt(pre + f.Encoded() + post, |pre|) == Fields((f.Read(), |pre| + |f.Encoded()|))
  {
    var tag, value := Encode(f.Tag()), f.Value();
    TagParts(f);
    VarintRoundTrip(pre, f.Tag(), value + post);
    Regroup(pre, tag, value, post);
    var b := (pre + tag) + value + post;
    VarintOfValue(pre + tag, f, post);
    ValueRoundTrip(pre + tag, f, post, VarintOf(b, |pre + tag|));
    FieldFromParts(b, |pre|, f.Tag(), |pre + tag|);
  }

  lemma FieldFromParts(b: Bytes, i: nat, tag: bv64, n: nat)
    requires VarintOf(b, i) == Value(tag, n)
    ensures FieldAt(b, i) == ValueAt(b, n, NumberOf(tag), WireOf(tag), VarintOf(b, n))
  {
  }

  lemma MessageStep(pre: Bytes, f: Field, tail: Bytes, rest: seq<PbField>)
    requires f.Valid() && |pre + f.Encoded() + tail| < LIMIT
    requires FieldsFrom(pre + f.Encoded() + tail, |pre + f.Encoded()|) == Fields(rest)
    ensures FieldsFrom(pre + f.Encoded() + tail, |pre|) == Fields([f.Read()] + rest)
  {
    FieldRoundTrip(pre, f, tail);
    FieldsAfter(pre, f.Encoded(), tail, f.Read(), rest);
  }

  lemma FieldsAfter(pre: Bytes, e: Bytes, tail: Bytes, f: PbField, rest: seq<PbField>)
    requires |pre + e + tail| < LIMIT && FieldAt(pre + e + tail, |pre|) == Fields((f, |pre| + |e|))
    requires FieldsFrom(pre + e + tail, |pre + e|) == Fields(rest)
    ensures FieldsFrom(pre + e + tail, |pre|) == Fields([f] + rest)
  {
    FieldsNext(pre + e + tail, |pre|, f, |pre + e|, rest);
  }

  lemma FieldsNext(b: Bytes, i: nat, f: PbField, next: nat, rest: seq<PbField>)
    requires |b| < LIMIT && FieldAt(b, i) == Fields((f, next)) && FieldsFrom(b, next) == Fields(rest)
    ensures FieldsFrom(b, i) == Fields([f] + rest)
  {
  }

  lemma {:induction false} MessageFrom(pre: Bytes, fs: seq<Field>)
    requires AllValid(fs) && |pre + Message(fs)| < LIMIT
    ensures FieldsFrom(pre + Message(fs), |pre|) == Fields(ReadAll(fs))
    decreases |fs|
  {
    if fs == [] {
      assert pre + Message(fs) == pre && ReadAll(fs) == [];
    } else {
      var f, rest := fs[0], fs[1..];
      var code, tail := f.Encoded(), Message(rest);
      assert pre + Message(fs) == (pre + code) + tail;
      assert ReadAll(fs) == [f.Read()] + ReadAll(rest);
      MessageFrom(pre + code, rest);
      MessageStep(pre, f, tail, ReadAll(rest));
    }
  }

  // Every list of fields is read back whole from its encoding.
  lemma MessageRoundTrip(fs: seq<Field>)
    requires AllValid(fs) && |Message(fs)| < LIMIT
    ensures FieldsFrom(Message(fs), 0) == Fields(ReadAll(fs))
  {
    assert [] + Message(fs) == Message(fs);
    MessageFrom([], fs);
  }

  // ---------------------------------------------------------------------------
  // fields by number
  // ---------------------------------------------------------------------------

  // The payloads of the first n fields that carry a number.
  function PayloadsOf(fs: seq<PbField>, n: nat, num: bv64): seq<Bytes>
    requires n <= |fs|
  {
    if n == 0 then []
    else if fs[n - 1].num == num && fs[n - 1].wire.LengthType? then PayloadsOf(fs, n - 1, num) + [fs[n - 1].bytes]
    else PayloadsOf(fs, n - 1, num)
  }

  // Go's panic on a bad slice ends the caller too, so it is passed on.
  method PbAll(b: Bytes, num: bv64) returns (r: Outcome<seq<Bytes>>)
    requires |b| < LIMIT
    ensures FieldsFrom(b, 0).Fields? ==>
              r == Fields(PayloadsOf(FieldsFrom(b, 0).value, |FieldsFrom(b, 0).value|, num))
    ensures FieldsFrom(b, 0).Malformed? ==> r == Fields([])
    ensures FieldsFrom(b, 0).OutOfRange? ==> r == OutOfRange
  {
    var fields := PbFields(b);
    match fields
    case Malformed => return Fields([]);
    case OutOfRange => return OutOfRange;
    case Fields(fs) =>
      var out: seq<Bytes> := [];
      for i := 0 to |fs|
        invariant out == PayloadsOf(fs, i, num)
      {
        if fs[i].num == num && fs[i].wire.LengthType? {
          out := out + [fs[i].bytes];
        }
      }
      return Fields(out);
  }

  // The payloads a writer put under a number, in order.
  function Written(fs: seq<Field>, n: nat, num: bv64): seq<Bytes>
    requires n <= |fs|
  {
    if n == 0 then []
    else if fs[n - 1].LengthField? && fs[n - 1].num == num then Written(fs, n - 1, num) + [fs[n - 1].payload]
    else Written(fs, n - 1, num)
  }

  lemma {:induction false} PayloadsRoundTrip(fs: seq<Field>, n: nat, num: bv64)
    requires n <= |fs|
    ensures PayloadsOf(ReadAll(fs), n, num) == Written(fs, n, num)
  {
    if n > 0 {
      PayloadsRoundTrip(fs, n - 1, num);
    }
  }

  // The place of the first of the fields that is a varint with a number.
  predicate FirstVarintAt(fs: seq<PbField>, num: bv64, i: nat) {
    i < |fs| && IsVarint(fs[i], num) && forall j :: 0 <= j < i ==> !IsVarint(fs[j], num)
  }

  predicate IsVarint(f: PbField, num: bv64) {
    f.num == num && f.wire.VarintType?
  }

  method PbVarint(b: Bytes, num: bv64) returns (r: Outcome<bv64>)
    requires |b| < LIMIT
    ensures FieldsFrom(b, 0).OutOfRange? <==> r == OutOfRange
    ensures r.Fields? ==> FieldsFrom(b, 0).Fields? && exists i: nat ::
              FirstVarintAt(FieldsFrom(b, 0).value, num, i) && FieldsFrom(b, 0).value[i].varint == r.value
    ensures r == Malformed && FieldsFrom(b, 0).Fields? ==> forall i ::
              0 <= i < |FieldsFrom(b, 0).value| ==> !IsVarint(FieldsFrom(b, 0).value[i], num)
  {
    var fields := PbFields(b);
    match fields
    case Malformed => return Malformed;
    case OutOfRange => return OutOfRange;
    case Fields(fs) =>
      for i := 0 to |fs|
        invariant forall j :: 0 <= j < i ==> !IsVarint(fs[j], num)
      {
        if fs[i].num == num && fs[i].wire.VarintType? {
          assert FirstVarintAt(fs, num, i);
          return Fields(fs[i].varint);
        }
      }
      return Malformed;
  }
}
