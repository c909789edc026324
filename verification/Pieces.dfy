/**
The pieces a CLI fed its model, as an insertion-ordered dictionary.

A dictionary is the sequence of its live pieces, oldest first. The concrete
list, key index and tombstones of Fed.dfy refine it.
*/
module Pieces {
  import opened Common

  datatype Kind =
    | Instructions
    | File
    | Skill
    | Tool
    | Deferred
    | Server
    | Agent
    | Environment
    | Other

  // The order the kinds are shown in.
  const KIND_ORDER: seq<Kind> :=
    [Instructions, File, Skill, Tool, Deferred, Server, Agent, Environment, Other]

  function KindText(kind: Kind): string {
    match kind
    case Instructions => "instructions"
    case File => "file"
    case Skill => "skill"
    case Tool => "tool"
    case Deferred => "deferred"
    case Server => "server"
    case Agent => "agent"
    case Environment => "environment"
    case Other => "other"
  }

  // A piece is known by its file where it has one, and otherwise by its name.
  datatype Key = Key(kind: Kind, id: string) {
    function Text(): string {
      KindText(kind) + ['\0'] + id
    }
  }

  datatype Piece = Piece(kind: Kind, name: string, source: string, text: string, chars: nat, tokens: Option<int>) {
    function Key(): Key {
      KeyOf(kind, name, source)
    }
  }

  function KeyOf(kind: Kind, name: string, source: string): Key {
    Key(kind, if source != "" then source else name)
  }

  function MakePiece(kind: Kind, name: string, source: string, text: string, tokens: Option<int>): Piece {
    Piece(kind, name, source, text, |text|, tokens)
  }

  // The text used as a map key in the source stands for exactly one kind and name.
  lemma KeyTextInjective(a: Key, b: Key)
    requires a.Text() == b.Text()
    ensures a == b
  {
    var i, j := |KindText(a.kind)|, |KindText(b.kind)|;
    assert a.Text()[i] == '\0' && b.Text()[j] == '\0';
    assert forall k :: 0 <= k < i ==> a.Text()[k] == KindText(a.kind)[k];
    assert forall k :: 0 <= k < j ==> b.Text()[k] == KindText(b.kind)[k];
    NoNul(a.kind);
    NoNul(b.kind);
    assert i == j;
    assert KindText(a.kind) == a.Text()[..i] == b.Text()[..i] == KindText(b.kind);
    assert KindText(a.kind)[0] == KindText(b.kind)[0];
    assert a.id == a.Text()[i + 1..] == b.Text()[i + 1..] == b.id;
  }

  lemma NoNul(kind: Kind)
    ensures '\0' !in KindText(kind)
  {
  }

  // ---------------------------------------------------------------------------
  // the dictionary
  // ---------------------------------------------------------------------------

  predicate Has(d: seq<Piece>, k: Key) {
    exists i :: 0 <= i < |d| && d[i].Key() == k
  }

  // At most one live piece per key.
  ghost predicate Distinct(d: seq<Piece>) {
    forall i, j :: 0 <= i < j < |d| ==> d[i].Key() != d[j].Key()
  }

  // Replaces the piece with the same key where it stands, or adds at the end.
  function DictPut(d: seq<Piece>, p: Piece): seq<Piece> {
    if d == [] then [p]
    else if d[0].Key() == p.Key() then [p] + d[1..]
    else [d[0]] + DictPut(d[1..], p)
  }

  function DictRemove(d: seq<Piece>, k: Key): seq<Piece> {
    if d == [] then []
    else if d[0].Key() == k then d[1..]
    else [d[0]] + DictRemove(d[1..], k)
  }

  // The pieces of one kind, oldest first.
  function Of(d: seq<Piece>, kind: Kind): seq<Piece> {
    if d == [] then []
    else if d[0].kind == kind then [d[0]] + Of(d[1..], kind)
    else Of(d[1..], kind)
  }

  // Every piece but those of one kind.
  function Without(d: seq<Piece>, kind: Kind): seq<Piece> {
    if d == [] then []
    else if d[0].kind != kind then [d[0]] + Without(d[1..], kind)
    else Without(d[1..], kind)
  }

  // The pieces of the first n kinds, one kind after another.
  function ByKinds(d: seq<Piece>, kinds: seq<Kind>, n: nat): seq<Piece>
    requires n <= |kinds|
  {
    if n == 0 then [] else ByKinds(d, kinds, n - 1) + Of(d, kinds[n - 1])
  }

  // What is shown: by kind, and oldest first within one.
  function SortedByKind(d: seq<Piece>): seq<Piece> {
    ByKinds(d, KIND_ORDER, |KIND_ORDER|)
  }

  // ---------------------------------------------------------------------------
  // a replacement keeps its place, and a re-added piece goes to the end
  // ---------------------------------------------------------------------------

  lemma {:induction false} PutReplaces(d: seq<Piece>, i: nat, p: Piece)
    requires Distinct(d) && i < |d| && d[i].Key() == p.Key()
    ensures DictPut(d, p) == d[i := p]
  {
    if i > 0 {
      PutReplaces(d[1..], i - 1, p);
      assert d[i := p] == [d[0]] + d[1..][i - 1 := p];
    }
  }

  lemma {:induction false} PutAppends(d: seq<Piece>, p: Piece)
    requires !Has(d, p.Key())
    ensures DictPut(d, p) == d + [p]
  {
    if d != [] {
      assert d[0].Key() != p.Key();
      forall i | 0 <= i < |d[1..]| ensures d[1..][i].Key() != p.Key() {
        assert d[1..][i] == d[i + 1];
      }
      PutAppends(d[1..], p);
    }
  }

  lemma {:induction false} RemoveAt(d: seq<Piece>, i: nat)
    requires Distinct(d) && i < |d|
    ensures DictRemove(d, d[i].Key()) == d[..i] + d[i + 1..]
  {
    if i > 0 {
      RemoveAt(d[1..], i - 1);
      assert d[..i] + d[i + 1..] == [d[0]] + (d[1..][..i - 1] + d[1..][i..]);
    }
  }

  lemma {:induction false} RemoveAbsent(d: seq<Piece>, k: Key)
    requires !Has(d, k)
    ensures DictRemove(d, k) == d
  {
    if d != [] {
      assert d[0].Key() != k;
      forall i | 0 <= i < |d[1..]| ensures d[1..][i].Key() != k {
        assert d[1..][i] == d[i + 1];
      }
      RemoveAbsent(d[1..], k);
    }
  }

  lemma PutKeepsDistinct(d: seq<Piece>, p: Piece)
    requires Distinct(d)
    ensures Distinct(DictPut(d, p)) && Has(DictPut(d, p), p.Key())
  {
    if Has(d, p.Key()) {
      var i :| 0 <= i < |d| && d[i].Key() == p.Key();
      PutReplaces(d, i, p);
      assert d[i := p][i].Key() == p.Key();
    } else {
      PutAppends(d, p);
      assert (d + [p])[|d|].Key() == p.Key();
    }
  }

  lemma RemoveKeepsDistinct(d: seq<Piece>, k: Key)
    requires Distinct(d)
    ensures Distinct(DictRemove(d, k)) && !Has(DictRemove(d, k), k)
  {
    if Has(d, k) {
      var i :| 0 <= i < |d| && d[i].Key() == k;
      RemoveAt(d, i);
      DistinctWithout(d, i);
    } else {
      RemoveAbsent(d, k);
    }
  }

  lemma DistinctWithout(d: seq<Piece>, i: nat)
    requires Distinct(d) && i < |d|
    ensures Distinct(d[..i] + d[i + 1..]) && !Has(d[..i] + d[i + 1..], d[i].Key())
  {
  }

  // Removed and put again, a piece is the newest of all.
  lemma ReAddedGoesLast(d: seq<Piece>, p: Piece)
    requires Distinct(d)
    ensures DictPut(DictRemove(d, p.Key()), p) == DictRemove(d, p.Key()) + [p]
  {
    RemoveKeepsDistinct(d, p.Key());
    PutAppends(DictRemove(d, p.Key()), p);
  }

  // ---------------------------------------------------------------------------
  // each kind is a dictionary of its own
  // ---------------------------------------------------------------------------

  lemma {:induction false} OfPut(d: seq<Piece>, p: Piece, kind: Kind)
    ensures Of(DictPut(d, p), kind) == if p.kind == kind then DictPut(Of(d, kind), p) else Of(d, kind)
  {
    if d != [] {
      var rest := d[1..];
      if d[0].Key() == p.Key() {
        assert DictPut(d, p)[1..] == rest;
      } else {
        OfPut(rest, p, kind);
        assert DictPut(d, p)[1..] == DictPut(rest, p);
        if d[0].kind == kind {
          assert Of(d, kind)[1..] == Of(rest, kind);
        }
      }
    }
  }

  lemma {:induction false} OfRemove(d: seq<Piece>, k: Key, kind: Kind)
    ensures Of(DictRemove(d, k), kind) == if k.kind == kind then DictRemove(Of(d, kind), k) else Of(d, kind)
  {
    if d != [] {
      var rest := d[1..];
      if d[0].Key() == k {
        if d[0].kind == kind {
          assert Of(d, kind)[1..] == Of(rest, kind);
        }
      } else {
        OfRemove(rest, k, kind);
        assert DictRemove(d, k)[1..] == DictRemove(rest, k);
        if d[0].kind == kind {
          assert Of(d, kind)[1..] == Of(rest, kind);
        }
      }
    }
  }

  lemma {:induction false} OfWithout(d: seq<Piece>, cleared: Kind, kind: Kind)
    ensures Of(Without(d, cleared), kind) == if cleared == kind then [] else Of(d, kind)
  {
    if d != [] {
      OfWithout(d[1..], cleared, kind);
      if d[0].kind != cleared {
        assert Without(d, cleared)[1..] == Without(d[1..], cleared);
      }
    }
  }

  lemma {:induction false} OfAt(d: seq<Piece>, kind: Kind, i: nat)
    requires i < |d| && d[i].kind == kind
    ensures d[i] in Of(d, kind)
  {
    if i > 0 {
      OfAt(d[1..], kind, i - 1);
    }
  }

  lemma {:induction false} OfFrom(d: seq<Piece>, kind: Kind, p: Piece)
    requires p in Of(d, kind)
    ensures p.kind == kind && p in d
  {
    if !(d[0].kind == kind && d[0] == p) {
      OfFrom(d[1..], kind, p);
    }
  }

  // Whether a key is live is decided by its own kind's pieces.
  lemma HasInOf(d: seq<Piece>, k: Key)
    ensures Has(d, k) <==> Has(Of(d, k.kind), k)
  {
    var e := Of(d, k.kind);
    if Has(d, k) {
      var i :| 0 <= i < |d| && d[i].Key() == k;
      OfAt(d, k.kind, i);
      var j :| 0 <= j < |e| && e[j] == d[i];
      assert e[j].Key() == k;
    }
    if Has(e, k) {
      var j :| 0 <= j < |e| && e[j].Key() == k;
      OfFrom(d, k.kind, e[j]);
      var i :| 0 <= i < |d| && d[i] == e[j];
      assert d[i].Key() == k;
    }
  }

  // ---------------------------------------------------------------------------
  // sorting loses nothing and keeps each kind's order
  // ---------------------------------------------------------------------------

  lemma {:induction false} OfConcat(a: seq<Piece>, b: seq<Piece>, kind: Kind)
    ensures Of(a + b, kind) == Of(a, kind) + Of(b, kind)
  {
    if a == [] {
      assert a + b == b;
    } else {
      OfConcat(a[1..], b, kind);
      assert (a + b)[1..] == a[1..] + b;
    }
  }

  lemma {:induction false} OfOf(d: seq<Piece>, k1: Kind, k2: Kind)
    ensures Of(Of(d, k1), k2) == if k1 == k2 then Of(d, k1) else []
  {
    if d != [] {
      OfOf(d[1..], k1, k2);
      if d[0].kind == k1 {
        assert Of(d, k1)[1..] == Of(d[1..], k1);
      }
    }
  }

  lemma OfOneKind(d: seq<Piece>, shown: seq<Piece>, k: Kind, kind: Kind)
    ensures Of(shown + Of(d, k), kind) == Of(shown, kind) + (if k == kind then Of(d, k) else [])
  {
    OfConcat(shown, Of(d, k), kind);
    OfOf(d, k, kind);
  }

  lemma {:induction false} OfKindNotShown(d: seq<Piece>, kinds: seq<Kind>, n: nat, kind: Kind)
    requires n <= |kinds| && forall i :: 0 <= i < n ==> kinds[i] != kind
    ensures Of(ByKinds(d, kinds, n), kind) == []
  {
    if n > 0 {
      OfKindNotShown(d, kinds, n - 1, kind);
      OfOneKind(d, ByKinds(d, kinds, n - 1), kinds[n - 1], kind);
    }
  }

  lemma {:induction false} OfKindShown(d: seq<Piece>, kinds: seq<Kind>, n: nat, at: nat)
    requires at < n <= |kinds| && forall i, j :: 0 <= i < j < n ==> kinds[i] != kinds[j]
    ensures Of(ByKinds(d, kinds, n), kinds[at]) == Of(d, kinds[at])
  {
    OfOneKind(d, ByKinds(d, kinds, n - 1), kinds[n - 1], kinds[at]);
    if at < n - 1 {
      OfKindShown(d, kinds, n - 1, at);
    } else {
      OfKindNotShown(d, kinds, n - 1, kinds[at]);
    }
  }

  // Each kind's pieces are shown in the order they were added, whatever else is there.
  lemma SortedKeepsEachKind(d: seq<Piece>, kind: Kind)
    ensures Of(SortedByKind(d), kind) == Of(d, kind)
  {
    assert KIND_ORDER[Rank(kind)] == kind;
    OfKindShown(d, KIND_ORDER, |KIND_ORDER|, Rank(kind));
  }

  ghost predicate SameByKind(d: seq<Piece>, e: seq<Piece>) {
    forall kind: Kind :: Of(d, kind) == Of(e, kind)
  }

  // Two dictionaries are shown alike exactly when they agree kind by kind.
  lemma SortedEqualIff(d: seq<Piece>, e: seq<Piece>)
    ensures SortedByKind(d) == SortedByKind(e) <==> SameByKind(d, e)
  {
    if SortedByKind(d) == SortedByKind(e) {
      forall kind: Kind ensures Of(d, kind) == Of(e, kind) {
        SortedKeepsEachKind(d, kind);
        SortedKeepsEachKind(e, kind);
      }
    }
    if SameByKind(d, e) {
      ByKindsCongruent(d, e, KIND_ORDER, |KIND_ORDER|);
    }
  }

  lemma {:induction false} ByKindsCongruent(d: seq<Piece>, e: seq<Piece>, kinds: seq<Kind>, n: nat)
    requires n <= |kinds| && SameByKind(d, e)
    ensures ByKinds(d, kinds, n) == ByKinds(e, kinds, n)
  {
    if n > 0 {
      ByKindsCongruent(d, e, kinds, n - 1);
    }
  }

  // Shown exactly once each: the sorted pieces are the live pieces, rearranged.
  lemma SortedIsPermutation(d: seq<Piece>)
    ensures multiset(SortedByKind(d)) == multiset(d)
  {
    forall p: Piece ensures multiset(SortedByKind(d))[p] == multiset(d)[p] {
      CountInOf(d, p);
      CountInOf(SortedByKind(d), p);
      SortedKeepsEachKind(d, p.kind);
    }
  }

  lemma {:induction false} CountInOf(d: seq<Piece>, p: Piece)
    ensures multiset(Of(d, p.kind))[p] == multiset(d)[p]
  {
    if d != [] {
      CountInOf(d[1..], p);
      assert d == [d[0]] + d[1..];
    }
  }

  function Rank(kind: Kind): nat {
    match kind
    case Instructions => 0
    case File => 1
    case Skill => 2
    case Tool => 3
    case Deferred => 4
    case Server => 5
    case Agent => 6
    case Environment => 7
    case Other => 8
  }

  // The kinds come in their fixed order.
  lemma SortedIsByRank(d: seq<Piece>)
    ensures forall i, j :: 0 <= i < j < |SortedByKind(d)| ==> Rank(SortedByKind(d)[i].kind) <= Rank(SortedByKind(d)[j].kind)
  {
    ByKindsRanked(d, KIND_ORDER, |KIND_ORDER|);
  }

  lemma {:induction false} ByKindsRanked(d: seq<Piece>, kinds: seq<Kind>, n: nat)
    requires n <= |kinds| && forall i :: 0 <= i < n ==> Rank(kinds[i]) == i
    ensures forall i :: 0 <= i < |ByKinds(d, kinds, n)| ==> Rank(ByKinds(d, kinds, n)[i].kind) < n
    ensures forall i, j :: 0 <= i < j < |ByKinds(d, kinds, n)| ==> Rank(ByKinds(d, kinds, n)[i].kind) <= Rank(ByKinds(d, kinds, n)[j].kind)
  {
    if n > 0 {
      ByKindsRanked(d, kinds, n - 1);
      var last := Of(d, kinds[n - 1]);
      forall i | 0 <= i < |last| ensures last[i].kind == kinds[n - 1] {
        OfFrom(d, kinds[n - 1], last[i]);
      }
    }
  }
}
