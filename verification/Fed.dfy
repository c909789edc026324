/**
The reader's own state: a list that only grows, an index by key, and the
positions whose pieces are gone. Every operation is proved to do to the live
pieces what the dictionary of Pieces.dfy says.
*/
module FedContext {
  import opened Common
  import opened Pieces
  import opened Attachments
  import opened Effects

  // Of the first n pieces, those that are not gone, oldest first.
  function LivePieces(list: seq<Piece>, gone: set<nat>, n: nat): seq<Piece>
    requires n <= |list|
  {
    if n == 0 then []
    else if n - 1 in gone then LivePieces(list, gone, n - 1)
    else LivePieces(list, gone, n - 1) + [list[n - 1]]
  }

  // Only the first n positions count.
  lemma {:induction false} LiveSame(list: seq<Piece>, gone: set<nat>, list': seq<Piece>, gone': set<nat>, n: nat)
    requires n <= |list| && n <= |list'|
    requires forall i :: 0 <= i < n ==> list[i] == list'[i] && (i in gone <==> i in gone')
    ensures LivePieces(list, gone, n) == LivePieces(list', gone', n)
  {
    if n > 0 {
      LiveSame(list, gone, list', gone', n - 1);
    }
  }

  lemma LiveAppend(list: seq<Piece>, gone: set<nat>, p: Piece)
    requires |list| !in gone
    ensures LivePieces(list + [p], gone, |list| + 1) == LivePieces(list, gone, |list|) + [p]
  {
    LiveSame(list, gone, list + [p], gone, |list|);
  }

  // Where a live position stands among the live pieces.
  lemma {:induction false} LiveAt(list: seq<Piece>, gone: set<nat>, n: nat, i: nat)
    requires i < n <= |list| && i !in gone
    ensures var at := |LivePieces(list, gone, i)|;
            at < |LivePieces(list, gone, n)| && LivePieces(list, gone, n)[at] == list[i]
  {
    if i < n - 1 {
      LiveAt(list, gone, n - 1, i);
    }
  }

  lemma {:induction false} LiveReplaced(list: seq<Piece>, gone: set<nat>, n: nat, i: nat, p: Piece)
    requires i < n <= |list| && i !in gone
    ensures |LivePieces(list, gone, i)| < |LivePieces(list, gone, n)|
    ensures LivePieces(list[i := p], gone, n) == LivePieces(list, gone, n)[|LivePieces(list, gone, i)| := p]
  {
    if i < n - 1 {
      LiveReplaced(list, gone, n - 1, i, p);
    } else {
      LiveSame(list, gone, list[i := p], gone, i);
    }
  }

  lemma SliceSnoc(d: seq<Piece>, at: nat, p: Piece)
    requires at < |d|
    ensures (d + [p])[..at] + (d + [p])[at + 1..] == d[..at] + d[at + 1..] + [p]
  {
  }

  lemma {:induction false} LiveDropped(list: seq<Piece>, gone: set<nat>, n: nat, i: nat)
    requires i < n <= |list| && i !in gone
    ensures var at, live := |LivePieces(list, gone, i)|, LivePieces(list, gone, n);
            at < |live| && LivePieces(list, gone + {i}, n) == live[..at] + live[at + 1..]
  {
    var at, live := |LivePieces(list, gone, i)|, LivePieces(list, gone, n);
    if i < n - 1 {
      LiveDropped(list, gone, n - 1, i);
      var before := LivePieces(list, gone, n - 1);
      if n - 1 !in gone {
        SliceSnoc(before, at, list[n - 1]);
      }
    } else {
      LiveSame(list, gone, list, gone + {i}, i);
      assert live[..at] + live[at + 1..] == LivePieces(list, gone, i);
    }
  }

  lemma {:induction false} LiveFrom(list: seq<Piece>, gone: set<nat>, n: nat, p: Piece) returns (i: nat)
    requires n <= |list| && p in LivePieces(list, gone, n)
    ensures i < n && i !in gone && list[i] == p
  {
    if n - 1 !in gone && list[n - 1] == p {
      i := n - 1;
    } else {
      i := LiveFrom(list, gone, n - 1, p);
    }
  }

  lemma {:induction false} LiveDistinct(list: seq<Piece>, gone: set<nat>, n: nat)
    requires n <= |list|
    requires forall i, j :: 0 <= i < j < n && i !in gone && j !in gone ==> list[i].Key() != list[j].Key()
    ensures Distinct(LivePieces(list, gone, n))
  {
    if n > 0 {
      LiveDistinct(list, gone, n - 1);
      if n - 1 !in gone {
        var init := LivePieces(list, gone, n - 1);
        forall k | 0 <= k < |init| ensures init[k].Key() != list[n - 1].Key() {
          var i := LiveFrom(list, gone, n - 1, init[k]);
        }
      }
    }
  }

  // Tombstoning every position of a kind leaves the other kinds.
  lemma {:induction false} LiveWithout(list: seq<Piece>, gone: set<nat>, gone': set<nat>, kind: Kind, n: nat)
    requires n <= |list|
    requires forall i :: 0 <= i < n ==> (i in gone' <==> i in gone || list[i].kind == kind)
    ensures LivePieces(list, gone', n) == Without(LivePieces(list, gone, n), kind)
  {
    if n > 0 {
      LiveWithout(list, gone, gone', kind, n - 1);
      WithoutSnoc(LivePieces(list, gone, n - 1), list[n - 1], kind);
    }
  }

  lemma {:induction false} WithoutSnoc(d: seq<Piece>, p: Piece, kind: Kind)
    ensures Without(d + [p], kind) == Without(d, kind) + (if p.kind == kind then [] else [p])
  {
    if d == [] {
      assert d + [p] == [p] && [p][1..] == [];
    } else {
      assert (d + [p])[1..] == d[1..] + [p];
      WithoutSnoc(d[1..], p, kind);
    }
  }

  lemma {:induction false} OfSnoc(d: seq<Piece>, p: Piece, kind: Kind)
    ensures Of(d + [p], kind) == Of(d, kind) + (if p.kind == kind then [p] else [])
  {
    if d == [] {
      assert d + [p] == [p] && [p][1..] == [];
    } else {
      assert (d + [p])[1..] == d[1..] + [p];
      OfSnoc(d[1..], p, kind);
    }
  }

  // The index names exactly the live positions, each under its key.
  ghost predicate Indexed(list: seq<Piece>, byKey: map<Key, nat>, gone: set<nat>) {
    && (forall i :: i in gone ==> i < |list|)
    && (forall k :: k in byKey ==> byKey[k] < |list| && byKey[k] !in gone && list[byKey[k]].Key() == k)
    && (forall i :: 0 <= i < |list| && i !in gone ==> list[i].Key() in byKey && byKey[list[i].Key()] == i)
  }

  lemma ReplacedStaysIndexed(list: seq<Piece>, byKey: map<Key, nat>, gone: set<nat>, p: Piece)
    requires Indexed(list, byKey, gone) && p.Key() in byKey
    ensures Indexed(list[byKey[p.Key()] := p], byKey, gone)
  {
  }

  lemma AddedStaysIndexed(list: seq<Piece>, byKey: map<Key, nat>, gone: set<nat>, p: Piece)
    requires Indexed(list, byKey, gone) && p.Key() !in byKey
    ensures Indexed(list + [p], byKey[p.Key() := |list|], gone)
  {
  }

  lemma DroppedStaysIndexed(list: seq<Piece>, byKey: map<Key, nat>, gone: set<nat>, k: Key)
    requires Indexed(list, byKey, gone) && k in byKey
    ensures Indexed(list, byKey - {k}, gone + {byKey[k]})
  {
  }

  class Fed {
    var list: seq<Piece>
    var byKey: map<Key, nat>
    var gone: set<nat>

    ghost predicate Valid()
      reads this
    {
      Indexed(list, byKey, gone)
    }

    // The dictionary this state stands for.
    ghost function Live(): seq<Piece>
      reads this
    {
      LivePieces(list, gone, |list|)
    }

    constructor ()
      ensures Valid() && Live() == []
    {
      list, byKey, gone := [], map[], {};
    }

    lemma ValidDistinct()
      requires Valid()
      ensures Distinct(Live())
    {
      LiveDistinct(list, gone, |list|);
    }

    lemma IndexedIffLive(k: Key)
      requires Valid()
      ensures k in byKey <==> Has(Live(), k)
    {
      if k in byKey {
        LiveAt(list, gone, |list|, byKey[k]);
        assert Live()[|LivePieces(list, gone, byKey[k])|].Key() == k;
      }
      if Has(Live(), k) {
        var at :| 0 <= at < |Live()| && Live()[at].Key() == k;
        var i := LiveFrom(list, gone, |list|, Live()[at]);
      }
    }

    lemma ReplacedInPlace(k: Key, p: Piece)
      requires Valid() && k in byKey && p.Key() == k
      ensures LivePieces(list[byKey[k] := p], gone, |list|) == DictPut(Live(), p)
    {
      var i := byKey[k];
      ValidDistinct();
      LiveAt(list, gone, |list|, i);
      LiveReplaced(list, gone, |list|, i, p);
      PutReplaces(Live(), |LivePieces(list, gone, i)|, p);
    }

    lemma AddedAtEnd(p: Piece)
      requires Valid() && p.Key() !in byKey
      ensures LivePieces(list + [p], gone, |list| + 1) == DictPut(Live(), p)
    {
      IndexedIffLive(p.Key());
      PutAppends(Live(), p);
      LiveAppend(list, gone, p);
    }

    lemma DroppedAt(k: Key)
      requires Valid() && k in byKey
      ensures LivePieces(list, gone + {byKey[k]}, |list|) == DictRemove(Live(), k)
    {
      var i := byKey[k];
      ValidDistinct();
      LiveAt(list, gone, |list|, i);
      LiveDropped(list, gone, |list|, i);
      RemoveAt(Live(), |LivePieces(list, gone, i)|);
    }

    method Put(kind: Kind, name: string, source: string, text: string, tokens: Option<int>)
      requires Valid()
      modifies this
      ensures Valid() && Live() == DictPut(old(Live()), MakePiece(kind, name, source, text, tokens))
    {
      var p := MakePiece(kind, name, source, text, tokens);
      var k := KeyOf(kind, name, source);
      if k in byKey && byKey[k] !in gone {
        ReplacedInPlace(k, p);
        ReplacedStaysIndexed(list, byKey, gone, p);
        list := list[byKey[k] := p];
        return;
      }
      AddedAtEnd(p);
      AddedStaysIndexed(list, byKey, gone, p);
      byKey := byKey[k := |list|];
      list := list + [p];
    }

    method Remove(kind: Kind, name: string)
      requires Valid()
      modifies this
      ensures Valid() && Live() == DictRemove(old(Live()), KeyOf(kind, name, ""))
    {
      Drop(KeyOf(kind, name, ""));
    }

    method Drop(k: Key)
      requires Valid()
      modifies this
      ensures Valid() && list == old(list) && Live() == DictRemove(old(Live()), k)
      ensures gone == old(gone) + (if k in old(byKey) then {old(byKey)[k]} else {})
    {
      if k in byKey {
        DroppedAt(k);
        DroppedStaysIndexed(list, byKey, gone, k);
        gone := gone + {byKey[k]};
        byKey := byKey - {k};
      } else {
        IndexedIffLive(k);
        RemoveAbsent(Live(), k);
      }
    }

    // A new whole snapshot replaces the last: every piece of a kind goes.
    method Clear(kind: Kind)
      requires Valid()
      modifies this
      ensures Valid() && Live() == Without(old(Live()), kind)
    {
      for j := 0 to |list|
        invariant Valid() && list == old(list)
        invariant Between(kind, j, old(gone))
      {
        ClearAt(kind, j, old(gone));
      }
      LiveWithout(list, old(gone), gone, kind, |list|);
    }

    // One turn of Clear's loop.
    method ClearAt(kind: Kind, j: nat, ghost before: set<nat>)
      requires Valid() && j < |list| && Between(kind, j, before)
      modifies this
      ensures Valid() && list == old(list) && Between(kind, j + 1, before)
    {
      var p := list[j];
      if p.kind == kind {
        Drop(KeyOf(kind, p.name, p.source));
        assert j in gone;
      }
    }

    // Of the kind, everything before j is gone; of the rest, only what was.
    ghost predicate Between(kind: Kind, j: nat, before: set<nat>)
      reads this
    {
      && before <= gone
      && (forall i :: i in gone && i !in before ==> i < |list| && list[i].kind == kind)
      && (forall i :: 0 <= i < j && i < |list| && list[i].kind == kind ==> i in gone)
    }

    method Count(kind: Kind) returns (n: nat)
      requires Valid()
      ensures n == |Of(Live(), kind)|
    {
      n := 0;
      for i := 0 to |list|
        invariant n == |Of(LivePieces(list, gone, i), kind)|
      {
        OfSnoc(LivePieces(list, gone, i), list[i], kind);
        if list[i].kind == kind && i !in gone {
          n := n + 1;
        }
      }
    }

    method HasName(kind: Kind, name: string) returns (found: bool)
      requires Valid()
      ensures found <==> Has(Live(), KeyOf(kind, name, ""))
    {
      var k := KeyOf(kind, name, "");
      IndexedIffLive(k);
      found := k in byKey && byKey[k] !in gone;
    }

    method Sorted() returns (out: seq<Piece>)
      requires Valid()
      ensures out == SortedByKind(Live())
    {
      out := SortedBy(KIND_ORDER);
    }

    method SortedBy(kinds: seq<Kind>) returns (out: seq<Piece>)
      requires Valid()
      ensures out == ByKinds(Live(), kinds, |kinds|)
    {
      out := [];
      for k := 0 to |kinds|
        invariant out == ByKinds(Live(), kinds, k)
      {
        var ofKind := SortedOf(kinds[k]);
        out := out + ofKind;
      }
    }

    // The inner loop: one kind's pieces.
    method SortedOf(kind: Kind) returns (out: seq<Piece>)
      requires Valid()
      ensures out == Of(Live(), kind)
    {
      out := [];
      for i := 0 to |list|
        invariant out == Of(LivePieces(list, gone, i), kind)
      {
        OfSnoc(LivePieces(list, gone, i), list[i], kind);
        if list[i].kind == kind && i !in gone {
          out := out + [list[i]];
        }
      }
    }

    // The loops that put or remove one piece after another.
    method PutEach(ps: seq<Piece>)
      requires Valid() && forall i :: 0 <= i < |ps| ==> ps[i].chars == |ps[i].text|
      modifies this
      ensures Valid() && Live() == PutAll(old(Live()), ps)
    {
      for i := 0 to |ps|
        invariant Valid() && Live() == PutAll(old(Live()), ps[..i])
      {
        PutAllSnoc(old(Live()), ps[..i], ps[i]);
        assert ps[..i + 1] == ps[..i] + [ps[i]];
        Put(ps[i].kind, ps[i].name, ps[i].source, ps[i].text, ps[i].tokens);
      }
      assert ps[..|ps|] == ps;
    }

    method RemoveEach(kind: Kind, names: seq<string>)
      requires Valid()
      modifies this
      ensures Valid() && Live() == RemoveAll(old(Live()), kind, names)
    {
      for i := 0 to |names|
        invariant Valid() && Live() == RemoveAll(old(Live()), kind, names[..i])
      {
        RemoveAllSnoc(old(Live()), kind, names[..i], names[i]);
        assert names[..i + 1] == names[..i] + [names[i]];
        Remove(kind, names[i]);
      }
      assert names[..|names|] == names;
    }

    method Snapshot(prefix: string, sections: seq<Section>, tools: seq<ToolDef>)
      requires Valid()
      modifies this
      ensures Valid() && Live() == Applied(old(Live()), PromptSnapshot(prefix, sections, tools))
    {
      Clear(Instructions);
      PutEach(PrefixPieces(prefix));
      ghost var start := Live();
      for i := 0 to |sections|
        invariant Valid() && Live() == PutSections(start, sections, i)
      {
        var name := sections[i].title;
        var taken := HasName(Instructions, name);
        if taken {
          name := name + " (" + Decimal(i + 1) + ")";
        }
        Put(Instructions, name, "", sections[i].text, None);
      }
      if |tools| > 0 {
        Clear(Tool);
        PutEach(ToolPieces(tools));
      }
    }

    // What is added is put first, and then what is removed goes.
    method Delta(kind: Kind, added: seq<Piece>, removed: seq<string>)
      requires Valid() && forall i :: 0 <= i < |added| ==> added[i].chars == |added[i].text|
      modifies this
      ensures Valid() && Live() == RemoveAll(PutAll(old(Live()), added), kind, removed)
    {
      PutEach(added);
      RemoveEach(kind, removed);
    }

    method Nested(file: Option<ClaudeFile>, path: string, shown: string)
      requires Valid()
      modifies this
      ensures Valid() && Live() == Applied(old(Live()), NestedMemory(file, path, shown))
    {
      if file.Some? && file.value.content != "" {
        PutEach([FilePiece(file.value)]);
        assert [FilePiece(file.value)][1..] == [];
      } else {
        Put(File, FileName(path), path, shown, None);
      }
    }

    method Skills(isInitial: bool, skills: seq<SkillLine>)
      requires Valid()
      modifies this
      ensures Valid() && Live() == Applied(old(Live()), SkillListing(isInitial, skills))
    {
      if isInitial {
        Clear(Skill);
      }
      PutEach(SkillPieces(skills));
    }

    // The attachments that are one piece.
    method Note(a: Attachment)
      requires Valid() && (a.InvokedSkills? || a.EnvironmentNote? || a.HookContext? || a.Unrecognised?)
      modifies this
      ensures Valid() && Live() == Applied(old(Live()), a)
    {
      match a
      case InvokedSkills(shown) =>
        Put(Skill, "skills loaded in full", "", shown, None);
      case EnvironmentNote(name, shown) =>
        Put(Environment, name, "", shown, None);
      case HookContext(shown) =>
        Put(Other, "added by a hook", "", shown, None);
      case Unrecognised(typ, shown) =>
        Put(Other, typ, "", shown, None);
    }

    // What claude does not record of what is live.
    method Missing() returns (missing: seq<string>)
      requires Valid()
      ensures missing == MissingFrom(Live())
    {
      missing := [];
      var n := Count(Skill);
      if n > 0 {
        missing := missing + ["claude does not record which file each skill comes from."];
      }
    }

    // One attachment, whatever it is.
    method Claude(a: Attachment)
      requires Valid()
      modifies this
      ensures Valid() && Live() == Applied(old(Live()), a)
    {
      match a
      case PromptSnapshot(prefix, sections, tools) =>
        Snapshot(prefix, sections, tools);
      case InstructionFiles(files) =>
        PutEach(FilePieces(files));
      case NestedMemory(file, path, shown) =>
        Nested(file, path, shown);
      case SkillListing(isInitial, skills) =>
        Skills(isInitial, skills);
      case InvokedSkills(_) =>
        Note(a);
      case ServerDelta(names, blocks, removed) =>
        Delta(Server, ServerPieces(names, blocks), removed);
      case DeferredDelta(names, lines, removed) =>
        Delta(Deferred, DeferredPieces(names, lines), removed);
      case AgentDelta(names, lines, removed) =>
        Delta(Agent, AgentPieces(names, lines), removed);
      case EnvironmentNote(_, _) =>
        Note(a);
      case HookContext(_) =>
        Note(a);
      case Unrecognised(_, _) =>
        Note(a);
    }
  }

  // A turn's claude records, read into the pieces shown and what claude does not record.
  method Read(readings: seq<Option<Attachment>>) returns (pieces: seq<Piece>, missing: seq<string>)
    ensures pieces == SortedByKind(Replay(readings, |readings|)) && missing == MissingFrom(Replay(readings, |readings|))
    ensures missing == MissingOf(pieces)
    ensures ShowsLastTouches(pieces, readings)
  {
    var f := new Fed();
    for i := 0 to |readings|
      invariant f.Valid() && f.Live() == Replay(readings, i)
    {
      if readings[i].Some? {
        f.Claude(readings[i].value);
      }
    }
    missing := f.Missing();
    pieces := f.Sorted();
    ReadShows(readings);
  }

  // Under each key stands what the last attachment that touches it leaves.
  ghost predicate ShowsLastTouches(pieces: seq<Piece>, readings: seq<Option<Attachment>>) {
    forall k :: Find(pieces, k) == LeftByLastTouch(readings, k)
  }

  // What is read, said of the pieces shown.
  lemma ReadShows(readings: seq<Option<Attachment>>)
    ensures
      var d := Replay(readings, |readings|);
      var shown := SortedByKind(d);
      MissingFrom(d) == MissingOf(shown) && ShowsLastTouches(shown, readings)
  {
    var d := Replay(readings, |readings|);
    MissingIff(d);
    forall k
      ensures Find(SortedByKind(d), k) == LeftByLastTouch(readings, k)
    {
      LastTouchDecides(readings, |readings|, k);
      FindSorted(d, k);
    }
  }
}
