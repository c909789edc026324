/**
What the daemon hands on of a claude session: every attachment, except that of
the prompt snapshots only the last goes, and the last that carried tools.

The claim is that the reader then shows the same. It is proved here to hold
exactly when the snapshot that really brought the tools is one of the two kept,
and the last one that can be decoded is too, or brings what the kept one brings.
*/
module SessionStore {
  import opened Common
  import opened Pieces
  import opened Attachments

  // One attachment line as the daemon found it. It looks at the type and at the
  // length of the raw tools text; the reading is what the server decodes later.
  datatype Line = Line(snapshot: bool, rawToolsLength: nat, reading: Option<Attachment>) {
    predicate Flagged() {
      snapshot && rawToolsLength > 2
    }

    predicate Carries() {
      reading.Some? && reading.value.PromptSnapshot? && reading.value.tools != []
    }

    predicate Decoded() {
      snapshot && reading.Some?
    }

    // The line is what it says it is, and a list with anything in it is written
    // in more than two characters. The converse is not so: null and "[ ]" are
    // longer than two and hold no tool.
    predicate Consistent() {
      && (reading.Some? ==> (snapshot <==> reading.value.PromptSnapshot?))
      && (Carries() ==> rawToolsLength > 2)
    }
  }

  function LastWhere(found: seq<Line>, p: Line -> bool): (last: int)
    ensures -1 <= last < |found|
    ensures last >= 0 ==> p(found[last])
    ensures forall i :: last < i < |found| ==> !p(found[i])
  {
    if found == [] then -1
    else if p(found[|found| - 1]) then |found| - 1
    else LastWhere(found[..|found| - 1], p)
  }

  function LastSnapshot(found: seq<Line>): int {
    LastWhere(found, (l: Line) => l.snapshot)
  }

  function LastFlagged(found: seq<Line>): int {
    LastWhere(found, (l: Line) => l.Flagged())
  }

  function LastCarrying(found: seq<Line>): int {
    LastWhere(found, (l: Line) => l.Carries())
  }

  // The first n lines, without the snapshots that are neither of two places.
  function Kept(found: seq<Line>, n: nat, last: int, lastTools: int): seq<Line>
    requires n <= |found|
  {
    if n == 0 then []
    else
      var i := n - 1;
      Kept(found, i, last, lastTools) + (if found[i].snapshot && i != last && i != lastTools then [] else [found[i]])
  }

  function Pruned(found: seq<Line>): seq<Line> {
    Kept(found, |found|, LastSnapshot(found), LastFlagged(found))
  }

  // A snapshot is kept if none comes after it, or if its tools are written in more
  // than two characters and those of none after it are. Everything else is kept.
  ghost predicate IsKept(found: seq<Line>, i: nat)
    requires i < |found|
  {
    || !found[i].snapshot
    || (forall j :: i < j < |found| ==> !found[j].snapshot)
    || (found[i].rawToolsLength > 2 && forall j :: i < j < |found| && found[j].snapshot ==> found[j].rawToolsLength <= 2)
  }

  ghost function KeptLines(found: seq<Line>, n: nat): seq<Line>
    requires n <= |found|
  {
    if n == 0 then [] else KeptLines(found, n - 1) + (if IsKept(found, n - 1) then [found[n - 1]] else [])
  }

  lemma {:induction false} PrunedAreKept(found: seq<Line>, n: nat)
    requires n <= |found|
    ensures Kept(found, n, LastSnapshot(found), LastFlagged(found)) == KeptLines(found, n)
  {
    if n > 0 {
      PrunedAreKept(found, n - 1);
      var i, last, flagged := n - 1, LastSnapshot(found), LastFlagged(found);
      assert found[i].snapshot ==> i <= last && found[last].snapshot;
      assert found[i].Flagged() ==> i <= flagged && found[flagged].Flagged();
      assert IsKept(found, i) <==> !found[i].snapshot || i == last || i == flagged;
    }
  }

  // The daemon's two loops.
  method Select(found: seq<Line>) returns (docs: seq<Line>)
    ensures docs == Pruned(found) == KeptLines(found, |found|)
  {
    PrunedAreKept(found, |found|);
    var last, lastTools := -1, -1;
    for i := 0 to |found|
      invariant last == LastSnapshot(found[..i]) && lastTools == LastFlagged(found[..i])
    {
      assert found[..i + 1][..i] == found[..i];
      if found[i].snapshot {
        last := i;
        if found[i].rawToolsLength > 2 {
          lastTools := i;
        }
      }
    }
    assert found[..|found|] == found;
    docs := [];
    for i := 0 to |found|
      invariant docs == Kept(found, i, last, lastTools)
    {
      if found[i].snapshot && i != last && i != lastTools {
        continue;
      }
      docs := docs + [found[i]];
    }
  }

  function Readings(ls: seq<Line>): seq<Option<Attachment>> {
    seq(|ls|, i requires 0 <= i < |ls| => ls[i].reading)
  }

  // Everything a turn's records are read into.
  function View(ls: seq<Line>): (seq<Piece>, seq<string>) {
    var d := Replay(Readings(ls), |ls|);
    (SortedByKind(d), MissingFrom(d))
  }

  // ---------------------------------------------------------------------------
  // what an attachment does to one kind
  // ---------------------------------------------------------------------------

  lemma {:induction false} OfPutAll(d: seq<Piece>, ps: seq<Piece>, of: Kind, kind: Kind)
    requires forall i :: 0 <= i < |ps| ==> ps[i].kind == of
    ensures Of(PutAll(d, ps), kind) == if of == kind then PutAll(Of(d, kind), ps) else Of(d, kind)
    decreases |ps|
  {
    if ps != [] {
      OfPut(d, ps[0], kind);
      OfPutAll(DictPut(d, ps[0]), ps[1..], of, kind);
    }
  }

  lemma {:induction false} OfRemoveAll(d: seq<Piece>, of: Kind, names: seq<string>, kind: Kind)
    ensures Of(RemoveAll(d, of, names), kind) == if of == kind then RemoveAll(Of(d, kind), of, names) else Of(d, kind)
    decreases |names|
  {
    if names != [] {
      OfRemove(d, KeyOf(of, names[0], ""), kind);
      OfRemoveAll(DictRemove(d, KeyOf(of, names[0], "")), of, names[1..], kind);
    }
  }

  lemma OfPutSection(d: seq<Piece>, s: Section, i: nat, kind: Kind)
    ensures Of(DictPut(d, SectionPiece(d, s, i)), kind) ==
            if kind == Instructions then DictPut(Of(d, kind), SectionPiece(Of(d, kind), s, i)) else Of(d, kind)
  {
    HasInOf(d, KeyOf(Instructions, s.title, ""));
    assert SectionPiece(d, s, i) == SectionPiece(Of(d, Instructions), s, i);
    OfPut(d, SectionPiece(d, s, i), kind);
  }

  lemma {:induction false} OfPutSections(d: seq<Piece>, sections: seq<Section>, n: nat, kind: Kind)
    requires n <= |sections|
    ensures Of(PutSections(d, sections, n), kind) ==
            if kind == Instructions then PutSections(Of(d, kind), sections, n) else Of(d, kind)
  {
    if n > 0 {
      OfPutSections(d, sections, n - 1, kind);
      OfPutSection(PutSections(d, sections, n - 1), sections[n - 1], n - 1, kind);
    }
  }

  // A snapshot sets the instructions, sets the tools if it has any, and leaves the rest.
  lemma OfSnapshot(d: seq<Piece>, prefix: string, sections: seq<Section>, tools: seq<ToolDef>, kind: Kind)
    ensures Of(Applied(d, PromptSnapshot(prefix, sections, tools)), kind) ==
            if kind == Instructions then PutSections(PutAll([], PrefixPieces(prefix)), sections, |sections|)
            else if kind == Tool && tools != [] then PutAll([], ToolPieces(tools))
            else Of(d, kind)
  {
    var d1 := Without(d, Instructions);
    var d2 := PutAll(d1, PrefixPieces(prefix));
    var d3 := PutSections(d2, sections, |sections|);
    OfWithout(d, Instructions, kind);
    OfPutAll(d1, PrefixPieces(prefix), Instructions, kind);
    OfPutSections(d2, sections, |sections|, kind);
    if tools != [] {
      OfWithout(d3, Tool, kind);
      OfPutAll(Without(d3, Tool), ToolPieces(tools), Tool, kind);
    }
  }

  // Anything else touches one kind, which is neither instructions nor tools, and
  // what becomes of a kind depends on that kind alone.
  lemma OfOther(d: seq<Piece>, e: seq<Piece>, a: Attachment, kind: Kind)
    requires !a.PromptSnapshot?
    ensures Of(d, kind) == Of(e, kind) ==> Of(Applied(d, a), kind) == Of(Applied(e, a), kind)
    ensures kind == Instructions || kind == Tool ==> Of(Applied(d, a), kind) == Of(d, kind)
  {
    OfOtherOne(d, a, kind);
    OfOtherOne(e, a, kind);
  }

  // The kind an attachment is about.
  function About(a: Attachment): Kind {
    match a
    case PromptSnapshot(_, _, _) => Instructions
    case InstructionFiles(_) => File
    case NestedMemory(_, _, _) => File
    case SkillListing(_, _) => Skill
    case InvokedSkills(_) => Skill
    case ServerDelta(_, _, _) => Server
    case DeferredDelta(_, _, _) => Deferred
    case AgentDelta(_, _, _) => Agent
    case EnvironmentNote(_, _) => Environment
    case HookContext(_) => Other
    case Unrecognised(_, _) => Other
  }

  lemma OfDelta(d: seq<Piece>, ps: seq<Piece>, of: Kind, removed: seq<string>, kind: Kind)
    requires forall i :: 0 <= i < |ps| ==> ps[i].kind == of
    ensures Of(RemoveAll(PutAll(d, ps), of, removed), kind) ==
            if kind == of then RemoveAll(PutAll(Of(d, kind), ps), of, removed) else Of(d, kind)
  {
    OfPutAll(d, ps, of, kind);
    OfRemoveAll(PutAll(d, ps), of, removed, kind);
  }

  lemma OfSkills(d: seq<Piece>, isInitial: bool, skills: seq<SkillLine>, kind: Kind)
    ensures Of(Applied(d, SkillListing(isInitial, skills)), kind) ==
            if kind == Skill then Applied(Of(d, kind), SkillListing(isInitial, skills)) else Of(d, kind)
  {
    OfWithout(d, Skill, kind);
    WithoutOfSame(d, Skill);
    OfPutAll(if isInitial then Without(d, Skill) else d, SkillPieces(skills), Skill, kind);
  }

  lemma OfOnePiece(d: seq<Piece>, a: Attachment, kind: Kind)
    requires a.NestedMemory? || a.InvokedSkills? || a.EnvironmentNote? || a.HookContext? || a.Unrecognised?
    ensures Of(Applied(d, a), kind) == if kind == About(a) then Applied(Of(d, kind), a) else Of(d, kind)
  {
    match a
    case NestedMemory(file, path, shown) =>
      if file.Some? && file.value.content != "" {
        OfPut(d, FilePiece(file.value), kind);
      } else {
        OfPut(d, MakePiece(File, FileName(path), path, shown, None), kind);
      }
    case InvokedSkills(shown) => OfPut(d, MakePiece(Skill, "skills loaded in full", "", shown, None), kind);
    case EnvironmentNote(name, shown) => OfPut(d, MakePiece(Environment, name, "", shown, None), kind);
    case HookContext(shown) => OfPut(d, MakePiece(Other, "added by a hook", "", shown, None), kind);
    case Unrecognised(typ, shown) => OfPut(d, MakePiece(Other, typ, "", shown, None), kind);
  }

  lemma OfOtherOne(d: seq<Piece>, a: Attachment, kind: Kind)
    requires !a.PromptSnapshot?
    ensures Of(Applied(d, a), kind) == if kind == About(a) then Applied(Of(d, kind), a) else Of(d, kind)
  {
    match a
    case InstructionFiles(files) => OfPutAll(d, FilePieces(files), File, kind);
    case SkillListing(isInitial, skills) => OfSkills(d, isInitial, skills, kind);
    case ServerDelta(names, blocks, removed) => OfDelta(d, ServerPieces(names, blocks), Server, removed, kind);
    case DeferredDelta(names, lines, removed) => OfDelta(d, DeferredPieces(names, lines), Deferred, removed, kind);
    case AgentDelta(names, lines, removed) => OfDelta(d, AgentPieces(names, lines), Agent, removed, kind);
    case _ => OfOnePiece(d, a, kind);
  }

  lemma {:induction false} WithoutOfSame(d: seq<Piece>, kind: Kind)
    ensures Without(Of(d, kind), kind) == []
  {
    if d != [] {
      WithoutOfSame(d[1..], kind);
      if d[0].kind == kind {
        assert Of(d, kind)[1..] == Of(d[1..], kind);
      }
    }
  }

  // ---------------------------------------------------------------------------
  // whole sessions
  // ---------------------------------------------------------------------------

  ghost predicate AllConsistent(found: seq<Line>) {
    forall i :: 0 <= i < |found| ==> found[i].Consistent()
  }

  ghost predicate Readable(found: seq<Line>) {
    AllConsistent(found) && forall i :: 0 <= i < |found| && found[i].snapshot ==> found[i].Decoded()
  }

  lemma ReadingsSnoc(ls: seq<Line>, l: Line)
    ensures Readings(ls + [l]) == Readings(ls) + [l.reading] && |Readings(ls)| == |ls|
  {
  }

  lemma ReplaySnoc(ls: seq<Line>, l: Line)
    ensures Replay(Readings(ls + [l]), |ls| + 1) == AppliedIfRead(Replay(Readings(ls), |ls|), l.reading)
  {
    ReadingsSnoc(ls, l);
    ReplayOneMore(Readings(ls), l.reading);
  }

  // The snapshots that are kept: the last one and the last that is flagged.
  datatype Choice = Choice(last: int, flagged: int)

  function Chosen(found: seq<Line>): Choice {
    Choice(LastSnapshot(found), LastFlagged(found))
  }

  // What the first n lines, and those of them that are kept, come to.
  function Whole(found: seq<Line>, n: nat): seq<Piece>
    requires n <= |found|
  {
    Replay(Readings(found), n)
  }

  function Selected(found: seq<Line>, c: Choice, n: nat): seq<Piece>
    requires n <= |found|
  {
    var kept := Kept(found, n, c.last, c.flagged);
    Replay(Readings(kept), |kept|)
  }

  // A snapshot that is neither of the two kept.
  predicate Dropped(found: seq<Line>, c: Choice, i: nat)
    requires i < |found|
  {
    found[i].snapshot && i != c.last && i != c.flagged
  }

  lemma Steps(found: seq<Line>, c: Choice, i: nat)
    requires i < |found|
    ensures Whole(found, i + 1) == AppliedIfRead(Whole(found, i), found[i].reading)
    ensures Selected(found, c, i + 1) ==
            if Dropped(found, c, i) then Selected(found, c, i) else AppliedIfRead(Selected(found, c, i), found[i].reading)
  {
    var kept := Kept(found, i, c.last, c.flagged);
    ReplaySnoc(kept, found[i]);
    assert kept + [] == kept;
  }

  lemma {:induction false} OtherKindsAgree(found: seq<Line>, c: Choice, n: nat, kind: Kind)
    requires AllConsistent(found) && n <= |found| && kind != Instructions && kind != Tool
    ensures Of(Selected(found, c, n), kind) == Of(Whole(found, n), kind)
  {
    if n > 0 {
      var i := n - 1;
      OtherKindsAgree(found, c, i, kind);
      Steps(found, c, i);
      StepOf(found, c, i, kind);
    }
  }

  // One line's effect on one kind, on either side.
  lemma StepOf(found: seq<Line>, c: Choice, i: nat, kind: Kind)
    requires AllConsistent(found) && i < |found|
    ensures !found[i].snapshot && Of(Selected(found, c, i), kind) == Of(Whole(found, i), kind)
            ==> Of(Selected(found, c, i + 1), kind) == Of(Whole(found, i + 1), kind)
    ensures !found[i].snapshot && kind == Instructions
            ==> Of(Whole(found, i + 1), kind) == Of(Whole(found, i), kind) && Of(Selected(found, c, i + 1), kind) == Of(Selected(found, c, i), kind)
    ensures found[i].snapshot && kind != Instructions && kind != Tool
            ==> Of(Whole(found, i + 1), kind) == Of(Whole(found, i), kind) && Of(Selected(found, c, i + 1), kind) == Of(Selected(found, c, i), kind)
    ensures found[i].Carries() && !Dropped(found, c, i) && kind == Tool
            ==> Of(Selected(found, c, i + 1), kind) == Of(Whole(found, i + 1), kind)
    ensures found[i].Carries() && kind == Tool ==> Of(Whole(found, i + 1), kind) != []
  {
    Steps(found, c, i);
    var l := found[i];
    if l.reading.Some? {
      match l.reading.value
      case PromptSnapshot(prefix, sections, tools) =>
        OfSnapshot(Whole(found, i), prefix, sections, tools, kind);
        OfSnapshot(Selected(found, c, i), prefix, sections, tools, kind);
        if tools != [] {
          PutAllNotEmpty([], ToolPieces(tools));
        }
      case _ =>
        OfOther(Whole(found, i), Selected(found, c, i), l.reading.value, kind);
        OfOther(Selected(found, c, i), Whole(found, i), l.reading.value, kind);
    }
  }

  // One kind's pieces after n lines, of the whole session and of what is kept.
  datatype Both = Both(whole: seq<Piece>, selected: seq<Piece>)

  function OfBoth(found: seq<Line>, c: Choice, n: nat, kind: Kind): Both
    requires n <= |found|
  {
    Both(Of(Whole(found, n), kind), Of(Selected(found, c, n), kind))
  }

  // That, before each line and after the last.
  function Each(found: seq<Line>, c: Choice, kind: Kind): (s: seq<Both>)
    ensures |s| == |found| + 1
  {
    seq(|found| + 1, i requires 0 <= i <= |found| => OfBoth(found, c, i, kind))
  }

  lemma EachAt(found: seq<Line>, c: Choice, kind: Kind, i: nat)
    requires i <= |found|
    ensures Each(found, c, kind)[i] == OfBoth(found, c, i, kind)
  {
  }

  // A line that carries no tools leaves them as they are.
  lemma ToolsUnmoved(found: seq<Line>, c: Choice, i: nat)
    requires AllConsistent(found) && i < |found| && !found[i].Carries()
    ensures OfBoth(found, c, i + 1, Tool) == OfBoth(found, c, i, Tool)
  {
    Steps(found, c, i);
    if found[i].reading.Some? {
      match found[i].reading.value
      case PromptSnapshot(prefix, sections, tools) =>
        OfSnapshot(Whole(found, i), prefix, sections, tools, Tool);
        OfSnapshot(Selected(found, c, i), prefix, sections, tools, Tool);
      case a =>
        OfOther(Whole(found, i), Selected(found, c, i), a, Tool);
        OfOther(Selected(found, c, i), Whole(found, i), a, Tool);
    }
  }

  lemma NothingYet(found: seq<Line>, c: Choice)
    ensures Whole(found, 0) == [] && Selected(found, c, 0) == []
  {
  }

  lemma {:induction false} PutAllNotEmpty(d: seq<Piece>, ps: seq<Piece>)
    requires ps != [] || d != []
    ensures PutAll(d, ps) != []
    decreases |ps|
  {
    if ps != [] {
      PutAllNotEmpty(DictPut(d, ps[0]), ps[1..]);
    }
  }

  // The instructions a snapshot brings, whatever there was before it.
  function Brings(l: Line): seq<Piece> {
    if l.reading.Some? && l.reading.value.PromptSnapshot? then
      var s := l.reading.value;
      PutSections(PutAll([], PrefixPieces(s.prefix)), s.sections, |s.sections|)
    else []
  }

  function BroughtBy(found: seq<Line>, i: int): seq<Piece>
    requires i < |found|
  {
    if i < 0 then [] else Brings(found[i])
  }

  // The last of the first n lines that is a snapshot and decodes; and the last of
  // those that are kept.
  function LastDecoded(found: seq<Line>, n: nat): (i: int)
    requires n <= |found|
    ensures -1 <= i < n
  {
    if n == 0 then -1 else if found[n - 1].Decoded() then n - 1 else LastDecoded(found, n - 1)
  }

  function LastKeptDecoded(found: seq<Line>, c: Choice, n: nat): (i: int)
    requires n <= |found|
    ensures -1 <= i < n
  {
    if n == 0 then -1 else if found[n - 1].Decoded() && !Dropped(found, c, n - 1) then n - 1 else LastKeptDecoded(found, c, n - 1)
  }

  // What a line makes of the instructions.
  function Instructed(found: seq<Line>, c: Choice, i: nat, before: Both): Both
    requires i < |found|
  {
    Both(if found[i].Decoded() then Brings(found[i]) else before.whole,
         if found[i].Decoded() && !Dropped(found, c, i) then Brings(found[i]) else before.selected)
  }

  lemma StepInstructions(found: seq<Line>, c: Choice, i: nat)
    requires AllConsistent(found) && i < |found|
    ensures OfBoth(found, c, i + 1, Instructions) == Instructed(found, c, i, OfBoth(found, c, i, Instructions))
  {
    Steps(found, c, i);
    if found[i].reading.Some? {
      match found[i].reading.value
      case PromptSnapshot(prefix, sections, tools) =>
        OfSnapshot(Whole(found, i), prefix, sections, tools, Instructions);
        OfSnapshot(Selected(found, c, i), prefix, sections, tools, Instructions);
      case a =>
        OfOther(Whole(found, i), Selected(found, c, i), a, Instructions);
        OfOther(Selected(found, c, i), Whole(found, i), a, Instructions);
    }
  }

  lemma {:induction false} LastOneInstructs(found: seq<Line>, c: Choice, s: seq<Both>, n: nat)
    requires n <= |found| && n < |s| && s[0] == Both([], [])
    requires forall i :: 0 <= i < n ==> s[i + 1] == Instructed(found, c, i, s[i])
    ensures s[n] == Both(BroughtBy(found, LastDecoded(found, n)), BroughtBy(found, LastKeptDecoded(found, c, n)))
  {
    if n > 0 {
      LastOneInstructs(found, c, s, n - 1);
      assert s[n - 1 + 1] == Instructed(found, c, n - 1, s[n - 1]);
    }
  }

  lemma InstructionsAre(found: seq<Line>, c: Choice)
    requires AllConsistent(found)
    ensures OfBoth(found, c, |found|, Instructions) ==
            Both(BroughtBy(found, LastDecoded(found, |found|)), BroughtBy(found, LastKeptDecoded(found, c, |found|)))
  {
    var s := Each(found, c, Instructions);
    forall i | 0 <= i < |found|
      ensures s[i + 1] == Instructed(found, c, i, s[i])
    {
      StepInstructions(found, c, i);
      EachAt(found, c, Instructions, i);
      EachAt(found, c, Instructions, i + 1);
    }
    NothingYet(found, c);
    EachAt(found, c, Instructions, 0);
    EachAt(found, c, Instructions, |found|);
    LastOneInstructs(found, c, s, |found|);
  }

  lemma {:induction false} LastDecodedIsLast(found: seq<Line>, c: Choice, n: nat, i: nat)
    requires i < n <= |found| && found[i].Decoded()
    ensures LastDecoded(found, n) >= i && found[LastDecoded(found, n)].Decoded()
    ensures !Dropped(found, c, i) ==> LastKeptDecoded(found, c, n) >= i
  {
    if i < n - 1 {
      LastDecodedIsLast(found, c, n - 1, i);
    }
  }

  lemma {:induction false} LastDecodedIsDecoded(found: seq<Line>, c: Choice, n: nat)
    requires n <= |found|
    ensures var d := LastDecoded(found, n); d >= 0 ==> found[d].Decoded()
    ensures var k := LastKeptDecoded(found, c, n); k >= 0 ==> found[k].Decoded() && !Dropped(found, c, k)
  {
    if n > 0 {
      LastDecodedIsDecoded(found, c, n - 1);
    }
  }

  // The kept snapshot that is read last: the last one, or else the flagged one.
  function ReadLast(found: seq<Line>): (i: int)
    ensures -1 <= i < |found|
  {
    var last, flagged := LastSnapshot(found), LastFlagged(found);
    if last >= 0 && found[last].Decoded() then last
    else if flagged >= 0 && found[flagged].Decoded() then flagged
    else -1
  }

  lemma ReadLastIs(found: seq<Line>)
    ensures LastKeptDecoded(found, Chosen(found), |found|) == ReadLast(found)
  {
    var c := Chosen(found);
    var last, flagged, k := LastSnapshot(found), LastFlagged(found), LastKeptDecoded(found, c, |found|);
    LastDecodedIsDecoded(found, c, |found|);
    assert k >= 0 ==> k == last || k == flagged;
    assert flagged >= 0 ==> found[flagged].snapshot;
    if last >= 0 && found[last].Decoded() {
      LastDecodedIsLast(found, c, |found|, last);
    }
    if flagged >= 0 && found[flagged].Decoded() {
      LastDecodedIsLast(found, c, |found|, flagged);
    }
  }

  // The last snapshot that decodes is one of the two kept, or brings what the one
  // that is then read instead brings, nothing if there is none.
  predicate InstructionsSurvive(found: seq<Line>) {
    var d := LastDecoded(found, |found|);
    d == -1 || d == LastSnapshot(found) || d == LastFlagged(found) || Brings(found[d]) == BroughtBy(found, ReadLast(found))
  }

  lemma InstructionsAgreeIff(found: seq<Line>)
    requires AllConsistent(found)
    ensures Of(Selected(found, Chosen(found), |found|), Instructions) == Of(Whole(found, |found|), Instructions)
            <==> InstructionsSurvive(found)
  {
    var c := Chosen(found);
    var d, last, flagged := LastDecoded(found, |found|), LastSnapshot(found), LastFlagged(found);
    InstructionsAre(found, c);
    LastDecodedIsDecoded(found, c, |found|);
    ReadLastIs(found);
    if last >= 0 && found[last].Decoded() {
      LastDecodedIsLast(found, c, |found|, last);
    }
    if flagged >= 0 && found[flagged].Decoded() {
      LastDecodedIsLast(found, c, |found|, flagged);
    }
  }

  ghost predicate NoneCarries(found: seq<Line>, from: nat, n: nat)
    requires n <= |found|
  {
    forall i :: from <= i < n ==> !found[i].Carries()
  }

  lemma {:induction false} StaysTheSame(s: seq<Both>, from: nat, n: nat)
    requires from <= n < |s| && forall i :: from <= i < n ==> s[i + 1] == s[i]
    ensures s[n] == s[from]
  {
    if from < n {
      StaysTheSame(s, from, n - 1);
      assert s[n - 1 + 1] == s[n - 1];
    }
  }

  // From line `from` on nothing carries tools, so the tools stay as they are.
  lemma ToolsStay(found: seq<Line>, c: Choice, from: nat, n: nat)
    requires AllConsistent(found) && from <= n <= |found| && NoneCarries(found, from, n)
    ensures OfBoth(found, c, n, Tool) == OfBoth(found, c, from, Tool)
  {
    var tools := Each(found, c, Tool);
    forall i | from <= i < n
      ensures tools[i + 1] == tools[i]
    {
      ToolsUnmoved(found, c, i);
      EachAt(found, c, Tool, i);
      EachAt(found, c, Tool, i + 1);
    }
    StaysTheSame(tools, from, n);
    EachAt(found, c, Tool, from);
    EachAt(found, c, Tool, n);
  }

  lemma DroppedLeavesTools(found: seq<Line>, c: Choice, i: nat)
    requires i < |found| && Dropped(found, c, i)
    ensures OfBoth(found, c, i + 1, Tool).selected == OfBoth(found, c, i, Tool).selected
  {
    Steps(found, c, i);
  }

  // When every carrying snapshot is dropped, no tools are selected.
  lemma {:induction false} NoToolsSelected(found: seq<Line>, c: Choice, n: nat)
    requires AllConsistent(found) && n <= |found|
    requires forall i :: 0 <= i < n && found[i].Carries() ==> Dropped(found, c, i)
    ensures OfBoth(found, c, n, Tool).selected == []
  {
    if n == 0 {
      NothingYet(found, c);
    } else {
      NoToolsSelected(found, c, n - 1);
      if found[n - 1].Carries() {
        DroppedLeavesTools(found, c, n - 1);
      } else {
        ToolsUnmoved(found, c, n - 1);
      }
    }
  }

  // The line that really brought the tools, if any did, is one of the two kept.
  predicate ToolsSurvive(found: seq<Line>) {
    var t := LastCarrying(found);
    t == -1 || t == LastFlagged(found) || t == LastSnapshot(found)
  }

  lemma ToolsAgreeIff(found: seq<Line>)
    requires AllConsistent(found)
    ensures Of(Selected(found, Chosen(found), |found|), Tool) == Of(Whole(found, |found|), Tool) <==> ToolsSurvive(found)
  {
    var c := Chosen(found);
    var t := LastCarrying(found);
    if t == -1 {
      ToolsStay(found, c, 0, |found|);
    } else {
      ToolsStay(found, c, t + 1, |found|);
      StepOf(found, c, t, Tool);
      if !ToolsSurvive(found) {
        assert found[LastFlagged(found)].Flagged();
        forall i | 0 <= i < |found| && found[i].Carries() ensures Dropped(found, c, i) {
          assert i <= t && found[t].Flagged() && t < LastFlagged(found) <= LastSnapshot(found);
        }
        NoToolsSelected(found, c, |found|);
      }
    }
  }

  // Main result: dropping the other snapshots leaves the turn's view as it was,
  // order and all, exactly when both the tools and the instructions survive.
  lemma PruningPreservesMeaningIff(found: seq<Line>)
    requires AllConsistent(found)
    ensures View(Pruned(found)) == View(found) <==> ToolsSurvive(found) && InstructionsSurvive(found)
  {
    var n := |found|;
    assert View(found).0 == SortedByKind(Whole(found, n));
    var c := Chosen(found);
    var d, e := Selected(found, c, n), Whole(found, n);
    InstructionsAgreeIff(found);
    ToolsAgreeIff(found);
    forall kind: Kind | kind != Instructions && kind != Tool
      ensures Of(d, kind) == Of(e, kind)
    {
      OtherKindsAgree(found, c, n, kind);
    }
    SortedEqualIff(d, e);
    assert Of(d, Skill) == Of(e, Skill);
    assert SameByKind(d, e) <==> Of(d, Tool) == Of(e, Tool) && Of(d, Instructions) == Of(e, Instructions);
  }

  // When every snapshot decodes only the tools can be lost.
  lemma ReadableLosesOnlyToolsIff(found: seq<Line>)
    requires Readable(found)
    ensures View(Pruned(found)) == View(found) <==> ToolsSurvive(found)
  {
    var last := LastSnapshot(found);
    LastDecodedIsDecoded(found, Chosen(found), |found|);
    if last >= 0 {
      LastDecodedIsLast(found, Chosen(found), |found|, last);
    }
    PruningPreservesMeaningIff(found);
  }

  // And none when every snapshot without tools is written with at most two
  // characters of them: an empty list, or nothing at all.
  lemma PruningPreservesMeaning(found: seq<Line>)
    requires Readable(found)
    requires forall i :: 0 <= i < |found| && found[i].snapshot && !found[i].Carries() ==> found[i].rawToolsLength <= 2
    ensures View(Pruned(found)) == View(found)
  {
    if LastCarrying(found) >= 0 {
      assert found[LastCarrying(found)].Flagged();
      assert LastFlagged(found) <= LastCarrying(found);
    }
    ReadableLosesOnlyToolsIff(found);
  }

  // Three snapshots: one with a tool, one whose tools are null, one without.
  // The middle one is kept for tools it does not have, and the tool is lost.
  lemma NullToolsLoseTheTools()
    ensures exists found: seq<Line> :: Readable(found) && View(Pruned(found)) != View(found)
  {
    var a := Line(true, 20, Some(PromptSnapshot("", [], [ToolDef("Read", "{}")])));
    var b := Line(true, 4, Some(PromptSnapshot("", [], [])));
    var c := Line(true, 0, Some(PromptSnapshot("", [], [])));
    var found := [a, b, c];
    assert found[0] == a && found[1] == b && found[2] == c;
    assert a.Carries() && !b.Carries() && !c.Carries() && b.Flagged() && !c.Flagged();
    assert LastCarrying(found) == 0;
    assert LastFlagged(found) == 1;
    ReadableLosesOnlyToolsIff(found);
    assert Readable(found);
  }

  // A last snapshot that cannot be decoded takes the instructions of the one
  // before it along, if that one brings any.
  lemma UndecodableLastSnapshotLosesInstructions(a: Line, b: Line)
    requires a.Consistent() && a.snapshot && !a.Flagged() && a.reading.Some?
    requires b.snapshot && !b.Flagged() && b.reading.None?
    ensures View(Pruned([a, b])) == View([a, b]) <==> Brings(a) == []
  {
    var found := [a, b];
    assert found[0] == a && found[1] == b;
    assert LastSnapshot(found) == 1;
    assert LastFlagged(found) == -1;
    assert LastDecoded(found, 2) == LastDecoded(found, 1) == 0;
    assert LastCarrying(found) == -1;
    PruningPreservesMeaningIff(found);
  }
}
