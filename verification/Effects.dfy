/**
What each attachment leaves, key by key: which pieces are live afterwards, with
what text, and in which order. Nothing is said here in terms of how the reader
puts and removes; the two are connected by the lemmas at the end.
*/
module Effects {
  import opened Common
  import opened Pieces
  import opened Attachments

  // Where the piece with a key stands, or -1.
  function Place(d: seq<Piece>, k: Key): (i: int)
    ensures -1 <= i < |d|
  {
    if d == [] then -1
    else if d[0].Key() == k then 0
    else
      var i := Place(d[1..], k);
      if i < 0 then -1 else i + 1
  }

  // It is the first such piece.
  lemma {:induction false} PlaceIs(d: seq<Piece>, k: Key)
    ensures Place(d, k) >= 0 ==> d[Place(d, k)].Key() == k
    ensures forall j :: 0 <= j < |d| && d[j].Key() == k ==> 0 <= Place(d, k) <= j
  {
    if d != [] {
      PlaceIs(d[1..], k);
      assert forall j :: 1 <= j < |d| ==> d[j] == d[1..][j - 1];
    }
  }

  // The live piece with a key, if there is one.
  function Find(d: seq<Piece>, k: Key): Option<Piece> {
    var i := Place(d, k);
    if i < 0 then None else Some(d[i])
  }

  // The last and the first place an id is named at, or -1.
  function LastOf(ids: seq<string>, id: string): (i: int)
    ensures -1 <= i < |ids|
    ensures i >= 0 ==> ids[i] == id
    ensures forall j :: i < j < |ids| ==> ids[j] != id
  {
    if ids == [] then -1
    else if ids[|ids| - 1] == id then |ids| - 1
    else LastOf(ids[..|ids| - 1], id)
  }

  function FirstOf(ids: seq<string>, id: string): (i: int)
    ensures -1 <= i < |ids|
    ensures i >= 0 ==> ids[i] == id
    ensures forall j :: 0 <= j < |ids| && ids[j] == id ==> 0 <= i <= j
  {
    if ids == [] then -1
    else
      var i := FirstOf(ids[..|ids| - 1], id);
      if i >= 0 then i else if ids[|ids| - 1] == id then |ids| - 1 else -1
  }

  // ---------------------------------------------------------------------------
  // putting and removing, key by key
  // ---------------------------------------------------------------------------

  lemma {:induction false} FindPut(d: seq<Piece>, p: Piece, k: Key)
    ensures Place(DictPut(d, p), k) == if Place(d, k) < 0 && p.Key() == k then |d| else Place(d, k)
    ensures Find(DictPut(d, p), k) == if p.Key() == k then Some(p) else Find(d, k)
    ensures |DictPut(d, p)| == if Place(d, p.Key()) < 0 then |d| + 1 else |d|
  {
    if d != [] {
      if d[0].Key() == p.Key() {
        assert DictPut(d, p)[1..] == d[1..];
      } else {
        FindPut(d[1..], p, k);
        assert DictPut(d, p)[1..] == DictPut(d[1..], p);
      }
    }
  }

  lemma DistinctTail(d: seq<Piece>)
    requires Distinct(d) && d != []
    ensures Distinct(d[1..]) && Place(d[1..], d[0].Key()) == -1
  {
    PlaceIs(d[1..], d[0].Key());
  }

  lemma {:induction false} PlaceAfterRemoval(d: seq<Piece>, gone: Key, k: Key)
    requires Distinct(d)
    ensures Place(DictRemove(d, gone), k) ==
            if k == gone then -1 else if 0 <= Place(d, gone) < Place(d, k) then Place(d, k) - 1 else Place(d, k)
  {
    if d != [] {
      DistinctTail(d);
      if d[0].Key() != gone {
        PlaceAfterRemoval(d[1..], gone, k);
        assert DictRemove(d, gone)[1..] == DictRemove(d[1..], gone);
      }
    }
  }

  lemma FindStep(d: seq<Piece>, k: Key)
    requires d != []
    ensures Find(d, k) == if d[0].Key() == k then Some(d[0]) else Find(d[1..], k)
  {
  }

  lemma {:induction false} FindRemove(d: seq<Piece>, gone: Key, k: Key)
    requires Distinct(d)
    ensures Find(DictRemove(d, gone), k) == if k == gone then None else Find(d, k)
  {
    if d != [] {
      DistinctTail(d);
      FindStep(d, k);
      if d[0].Key() != gone {
        FindRemove(d[1..], gone, k);
        FindStep(DictRemove(d, gone), k);
        assert DictRemove(d, gone)[1..] == DictRemove(d[1..], gone);
      }
    }
  }

  lemma {:induction false} FindWithout(d: seq<Piece>, cleared: Kind, k: Key)
    ensures Find(Without(d, cleared), k) == if k.kind == cleared then None else Find(d, k)
  {
    if d != [] {
      FindWithout(d[1..], cleared, k);
      if d[0].kind != cleared {
        assert Without(d, cleared)[1..] == Without(d[1..], cleared);
      }
    }
  }

  // Two keys stand in e as they do in d.
  predicate SameOrder(d: seq<Piece>, e: seq<Piece>, k: Key, l: Key) {
    && (Place(e, k) < 0 <==> Place(d, k) < 0) && (Place(e, l) < 0 <==> Place(d, l) < 0)
    && (Place(e, k) < Place(e, l) <==> Place(d, k) < Place(d, l)) && (Place(e, l) < Place(e, k) <==> Place(d, l) < Place(d, k))
  }

  lemma SameOrderAfter(d: seq<Piece>, e: seq<Piece>, p: Piece, k: Key, l: Key)
    requires SameOrder(d, e, k, l)
    ensures SameOrder([p] + d, [p] + e, k, l)
    ensures p.Key() != k && p.Key() != l ==> SameOrder([p] + d, e, k, l)
  {
    assert ([p] + d)[1..] == d && ([p] + e)[1..] == e;
  }

  // What is left of other kinds keeps its order.
  lemma {:induction false} OrderWithout(d: seq<Piece>, cleared: Kind, k: Key, l: Key)
    requires k.kind != cleared && l.kind != cleared
    ensures SameOrder(d, Without(d, cleared), k, l)
  {
    if d != [] {
      OrderWithout(d[1..], cleared, k, l);
      SameOrderAfter(d[1..], Without(d[1..], cleared), d[0], k, l);
      assert d == [d[0]] + d[1..];
    }
  }

  // The pieces are of one kind and go by these ids.
  ghost predicate GoBy(ps: seq<Piece>, kind: Kind, ids: seq<string>) {
    |ps| == |ids| && forall i :: 0 <= i < |ps| ==> ps[i].Key() == Key(kind, ids[i])
  }

  lemma {:induction false} FindPutAll(d: seq<Piece>, ps: seq<Piece>, kind: Kind, ids: seq<string>, k: Key)
    requires GoBy(ps, kind, ids)
    ensures Find(PutAll(d, ps), k) == if k.kind == kind && LastOf(ids, k.id) >= 0 then Some(ps[LastOf(ids, k.id)]) else Find(d, k)
    decreases |ps|
  {
    if ps != [] {
      var n := |ps| - 1;
      FindPutAll(d, ps[..n], kind, ids[..n], k);
      assert ps == ps[..n] + [ps[n]];
      PutAllSnoc(d, ps[..n], ps[n]);
      FindPut(PutAll(d, ps[..n]), ps[n], k);
    }
  }

  // Where a key stands among those there before and those put since.
  function Standing(d: seq<Piece>, kind: Kind, ids: seq<string>, k: Key): int {
    if Place(d, k) >= 0 then Place(d, k)
    else if k.kind == kind && FirstOf(ids, k.id) >= 0 then |d| + FirstOf(ids, k.id)
    else -1
  }

  // Two keys stand in e as they do among those of d and those put since.
  predicate StandAlike(d: seq<Piece>, kind: Kind, ids: seq<string>, e: seq<Piece>, k: Key, l: Key) {
    && (Place(e, k) < 0 <==> Standing(d, kind, ids, k) < 0)
    && (Place(e, l) < 0 <==> Standing(d, kind, ids, l) < 0)
    && (Place(e, k) < Place(e, l) <==> Standing(d, kind, ids, k) < Standing(d, kind, ids, l))
    && (Place(e, l) < Place(e, k) <==> Standing(d, kind, ids, l) < Standing(d, kind, ids, k))
  }

  lemma OneMoreStands(d: seq<Piece>, kind: Kind, ids: seq<string>, e: seq<Piece>, p: Piece, id: string, k: Key, l: Key)
    requires StandAlike(d, kind, ids, e, k, l) && p.Key() == Key(kind, id)
    ensures StandAlike(d, kind, ids + [id], DictPut(e, p), k, l)
  {
    assert (ids + [id])[..|ids|] == ids;
    FindPut(e, p, k);
    FindPut(e, p, l);
  }

  lemma {:induction false} OrderPutAll(d: seq<Piece>, ps: seq<Piece>, kind: Kind, ids: seq<string>, k: Key, l: Key)
    requires GoBy(ps, kind, ids)
    ensures StandAlike(d, kind, ids, PutAll(d, ps), k, l)
    decreases |ps|
  {
    if ps != [] {
      var n := |ps| - 1;
      OrderPutAll(d, ps[..n], kind, ids[..n], k, l);
      assert ps == ps[..n] + [ps[n]] && ids == ids[..n] + [ids[n]];
      PutAllSnoc(d, ps[..n], ps[n]);
      OneMoreStands(d, kind, ids[..n], PutAll(d, ps[..n]), ps[n], ids[n], k, l);
    }
  }

  lemma {:induction false} PutAllKeepsDistinct(d: seq<Piece>, ps: seq<Piece>)
    requires Distinct(d)
    ensures Distinct(PutAll(d, ps))
    decreases |ps|
  {
    if ps != [] {
      PutKeepsDistinct(d, ps[0]);
      PutAllKeepsDistinct(DictPut(d, ps[0]), ps[1..]);
    }
  }

  lemma {:induction false} WithoutKeepsDistinct(d: seq<Piece>, kind: Kind)
    requires Distinct(d)
    ensures Distinct(Without(d, kind))
  {
    if d != [] {
      WithoutKeepsDistinct(d[1..], kind);
      if d[0].kind != kind {
        DistinctTail(d);
        FindWithout(d[1..], kind, d[0].Key());
        PlaceIs(Without(d[1..], kind), d[0].Key());
      }
    }
  }

  lemma {:induction false} FindRemoveAll(d: seq<Piece>, kind: Kind, names: seq<string>, k: Key)
    requires Distinct(d)
    ensures Distinct(RemoveAll(d, kind, names))
    ensures Find(RemoveAll(d, kind, names), k) == if k.kind == kind && k.id in names then None else Find(d, k)
    decreases |names|
  {
    if names != [] {
      var gone := KeyOf(kind, names[0], "");
      RemoveKeepsDistinct(d, gone);
      FindRemove(d, gone, k);
      FindRemoveAll(DictRemove(d, gone), kind, names[1..], k);
      assert names == [names[0]] + names[1..];
    }
  }

  // Two pieces that outlive a removal keep their order.
  lemma OrderRemove(d: seq<Piece>, gone: Key, k: Key, l: Key)
    requires Distinct(d) && k != gone && l != gone
    ensures SameOrder(d, DictRemove(d, gone), k, l)
  {
    PlaceAfterRemoval(d, gone, k);
    PlaceAfterRemoval(d, gone, l);
  }

  lemma {:induction false} OrderRemoveAll(d: seq<Piece>, kind: Kind, names: seq<string>, k: Key, l: Key)
    requires Distinct(d) && !(k.kind == kind && k.id in names) && !(l.kind == kind && l.id in names)
    ensures SameOrder(d, RemoveAll(d, kind, names), k, l)
    decreases |names|
  {
    if names != [] {
      var gone := KeyOf(kind, names[0], "");
      RemoveKeepsDistinct(d, gone);
      OrderRemove(d, gone, k, l);
      assert forall id :: id in names[1..] ==> id in names;
      OrderRemoveAll(DictRemove(d, gone), kind, names[1..], k, l);
    }
  }

  // ---------------------------------------------------------------------------
  // what each attachment leaves
  // ---------------------------------------------------------------------------

  // A file goes by its path; one without goes by the name it is shown under.
  function FileId(f: ClaudeFile): string {
    if f.path != "" then f.path else ShownAs(f)
  }

  function ShownAs(f: ClaudeFile): string {
    if f.belongs == "" then FileName(f.path) else FileName(f.path) + " \U{00B7} " + f.belongs
  }

  function FileIds(fs: seq<ClaudeFile>): seq<string> {
    seq(|fs|, i requires 0 <= i < |fs| => FileId(fs[i]))
  }

  function SkillNames(lines: seq<SkillLine>): seq<string> {
    seq(|lines|, i requires 0 <= i < |lines| => lines[i].name)
  }

  function ToolNames(tools: seq<ToolDef>): seq<string> {
    seq(|tools|, i requires 0 <= i < |tools| => if tools[i].name == "" then "unnamed tool" else tools[i].name)
  }

  // Those that have a block of their own.
  function Blocked(names: seq<string>, blocks: seq<string>): seq<string> {
    if |names| <= |blocks| then names else names[..|blocks|]
  }

  // A piece that was not read from a file.
  function Named(kind: Kind, name: string, text: string): Piece {
    Piece(kind, name, "", text, |text|, None)
  }

  predicate IsSlash(c: char) {
    c == '/' || c == '\\'
  }

  lemma {:induction false} NameStartIs(path: string)
    ensures forall i :: NameStart(path) <= i < |path| ==> !IsSlash(path[i])
    ensures NameStart(path) > 0 ==> IsSlash(path[NameStart(path) - 1])
  {
    if |path| > 0 && !IsSlash(path[|path| - 1]) {
      var front := path[..|path| - 1];
      NameStartIs(front);
      assert forall i :: 0 <= i < |front| ==> path[i] == front[i];
    }
  }

  // The part after the last slash of either kind.
  lemma FileNameIs(path: string)
    ensures
      var name := FileName(path);
      && |name| <= |path| && path[|path| - |name|..] == name
      && (forall i :: 0 <= i < |name| ==> name[i] != '/' && name[i] != '\\')
      && (|name| < |path| ==> path[|path| - |name| - 1] == '/' || path[|path| - |name| - 1] == '\\')
  {
    NameStartIs(path);
  }

  lemma FilePieceIs(f: ClaudeFile)
    ensures FilePiece(f) == Piece(File, ShownAs(f), f.path, f.content, |f.content|, None)
    ensures FilePiece(f).Key() == Key(File, FileId(f))
  {
    assert FileName(f.path) + "" == FileName(f.path);
  }

  // Instruction files: the last content read for a path.
  lemma InstructionFilesLeave(d: seq<Piece>, files: seq<ClaudeFile>, k: Key)
    ensures
      var i := LastOf(FileIds(files), k.id);
      Find(Applied(d, InstructionFiles(files)), k) ==
      if k.kind == File && i >= 0 then Some(Piece(File, ShownAs(files[i]), files[i].path, files[i].content, |files[i].content|, None))
      else Find(d, k)
  {
    forall i | 0 <= i < |files|
      ensures FilePiece(files[i]).name == ShownAs(files[i]) && FilePiece(files[i]).Key() == Key(File, FileId(files[i]))
    {
      FilePieceIs(files[i]);
    }
    FindPutAll(d, FilePieces(files), File, FileIds(files), k);
  }

  // Nested memory: the file if it has any content, and otherwise what was shown.
  lemma NestedMemoryLeaves(d: seq<Piece>, file: Option<ClaudeFile>, path: string, shown: string, k: Key)
    ensures
      var read := file.Some? && file.value.content != "";
      Find(Applied(d, NestedMemory(file, path, shown)), k) ==
      if read && k == Key(File, FileId(file.value)) then
        Some(Piece(File, ShownAs(file.value), file.value.path, file.value.content, |file.value.content|, None))
      else if !read && k == Key(File, path) then Some(Piece(File, FileName(path), path, shown, |shown|, None))
      else Find(d, k)
  {
    if file.Some? && file.value.content != "" {
      FilePieceIs(file.value);
      FindPut(d, FilePiece(file.value), k);
    } else {
      FindPut(d, MakePiece(File, FileName(path), path, shown, None), k);
    }
  }

  // A skill listing: the skills it lists, and the earlier ones unless it is the first of a session.
  lemma SkillListingLeaves(d: seq<Piece>, isInitial: bool, skills: seq<SkillLine>, k: Key)
    ensures
      var i := LastOf(SkillNames(skills), k.id);
      Find(Applied(d, SkillListing(isInitial, skills)), k) ==
      if k.kind != Skill then Find(d, k)
      else if i >= 0 then Some(Named(Skill, k.id, skills[i].line))
      else if isInitial then None
      else Find(d, k)
  {
    FindWithout(d, Skill, k);
    FindPutAll(if isInitial then Without(d, Skill) else d, SkillPieces(skills), Skill, SkillNames(skills), k);
  }

  // Servers: a removed one is gone, and one that is added shows its block; without a block it is not added.
  lemma ServerDeltaLeaves(d: seq<Piece>, names: seq<string>, blocks: seq<string>, removed: seq<string>, k: Key)
    requires Distinct(d)
    ensures
      var i := LastOf(Blocked(names, blocks), k.id);
      Find(Applied(d, ServerDelta(names, blocks, removed)), k) ==
      if k.kind != Server then Find(d, k)
      else if k.id in removed then None
      else if i >= 0 then Some(Named(Server, k.id, blocks[i]))
      else Find(d, k)
  {
    var ps := ServerPieces(names, blocks);
    FindPutAll(d, ps, Server, Blocked(names, blocks), k);
    PutAllKeepsDistinct(d, ps);
    FindRemoveAll(PutAll(d, ps), Server, removed, k);
  }

  // Deferred tools: an added one shows its line, or its name if the line is missing or empty.
  lemma DeferredDeltaLeaves(d: seq<Piece>, names: seq<string>, lines: seq<string>, removed: seq<string>, k: Key)
    requires Distinct(d)
    ensures
      var i := LastOf(names, k.id);
      Find(Applied(d, DeferredDelta(names, lines, removed)), k) ==
      if k.kind != Deferred then Find(d, k)
      else if k.id in removed then None
      else if i < 0 then Find(d, k)
      else Some(Named(Deferred, k.id, if i >= |lines| || lines[i] == "" then k.id else lines[i]))
  {
    var ps := DeferredPieces(names, lines);
    FindPutAll(d, ps, Deferred, names, k);
    PutAllKeepsDistinct(d, ps);
    FindRemoveAll(PutAll(d, ps), Deferred, removed, k);
  }

  // Agents: an added one shows its line, even an empty one, or its name if the line is missing.
  lemma AgentDeltaLeaves(d: seq<Piece>, names: seq<string>, lines: seq<string>, removed: seq<string>, k: Key)
    requires Distinct(d)
    ensures
      var i := LastOf(names, k.id);
      Find(Applied(d, AgentDelta(names, lines, removed)), k) ==
      if k.kind != Agent then Find(d, k)
      else if k.id in removed then None
      else if i < 0 then Find(d, k)
      else Some(Named(Agent, k.id, if i >= |lines| then k.id else lines[i]))
  {
    var ps := AgentPieces(names, lines);
    FindPutAll(d, ps, Agent, names, k);
    PutAllKeepsDistinct(d, ps);
    FindRemoveAll(PutAll(d, ps), Agent, removed, k);
  }

  lemma OneLeft(d: seq<Piece>, kind: Kind, name: string, text: string, k: Key)
    ensures Find(DictPut(d, MakePiece(kind, name, "", text, None)), k) ==
            if k == Key(kind, name) then Some(Named(kind, name, text)) else Find(d, k)
  {
    FindPut(d, MakePiece(kind, name, "", text, None), k);
  }

  // The others leave one piece of a fixed kind and name.
  lemma InvokedSkillsLeave(d: seq<Piece>, shown: string, k: Key)
    ensures Find(Applied(d, InvokedSkills(shown)), k) ==
            if k == Key(Skill, "skills loaded in full") then Some(Named(Skill, k.id, shown)) else Find(d, k)
  {
    OneLeft(d, Skill, "skills loaded in full", shown, k);
  }

  lemma EnvironmentNoteLeaves(d: seq<Piece>, name: string, shown: string, k: Key)
    ensures Find(Applied(d, EnvironmentNote(name, shown)), k) ==
            if k == Key(Environment, name) then Some(Named(Environment, name, shown)) else Find(d, k)
  {
    OneLeft(d, Environment, name, shown, k);
  }

  lemma HookContextLeaves(d: seq<Piece>, shown: string, k: Key)
    ensures Find(Applied(d, HookContext(shown)), k) ==
            if k == Key(Other, "added by a hook") then Some(Named(Other, k.id, shown)) else Find(d, k)
  {
    OneLeft(d, Other, "added by a hook", shown, k);
  }

  // What is not recognised is shown, not dropped.
  lemma UnrecognisedLeaves(d: seq<Piece>, typ: string, shown: string, k: Key)
    ensures Find(Applied(d, Unrecognised(typ, shown)), k) ==
            if k == Key(Other, typ) then Some(Named(Other, typ, shown)) else Find(d, k)
  {
    OneLeft(d, Other, typ, shown, k);
  }

  // ---------------------------------------------------------------------------
  // a prompt snapshot
  // ---------------------------------------------------------------------------

  // The opening line, if there is one, comes first and has its name.
  function Opening(prefix: string): seq<string> {
    if prefix == "" then [] else ["opening line"]
  }

  // A section goes by its title, and by its number too if the title is taken by then.
  function SectionNames(prefix: string, sections: seq<Section>, n: nat): (names: seq<string>)
    requires n <= |sections|
    ensures |names| == n
  {
    if n == 0 then []
    else
      var before, title := SectionNames(prefix, sections, n - 1), sections[n - 1].title;
      before + [if title in Opening(prefix) || title in before then title + " (" + Decimal(n) + ")" else title]
  }

  // Titles that differ from each other and from the opening line are the names.
  lemma {:induction false} OwnTitlesAreKept(prefix: string, sections: seq<Section>, n: nat)
    requires n <= |sections|
    requires forall a, b :: 0 <= a < b < n ==> sections[a].title != sections[b].title
    requires forall a :: 0 <= a < n ==> sections[a].title !in Opening(prefix)
    ensures forall i :: 0 <= i < n ==> SectionNames(prefix, sections, n)[i] == sections[i].title
  {
    if n > 0 {
      OwnTitlesAreKept(prefix, sections, n - 1);
      var before := SectionNames(prefix, sections, n - 1);
      assert forall j :: 0 <= j < |before| ==> before[j] != sections[n - 1].title;
    }
  }

  // Of the instructions, what the opening line and the first n sections leave.
  function Instructed(prefix: string, sections: seq<Section>, n: nat, id: string): Option<Piece>
    requires n <= |sections|
  {
    var i := LastOf(SectionNames(prefix, sections, n), id);
    if i >= 0 then Some(Named(Instructions, id, sections[i].text))
    else if prefix != "" && id == "opening line" then Some(Named(Instructions, "opening line", prefix))
    else None
  }

  function Sectioned(d: seq<Piece>, prefix: string, sections: seq<Section>, n: nat): seq<Piece>
    requires n <= |sections|
  {
    PutSections(PutAll(Without(d, Instructions), PrefixPieces(prefix)), sections, n)
  }

  lemma SectionedOnce(d: seq<Piece>, prefix: string, sections: seq<Section>, n: nat)
    requires n < |sections|
    ensures Sectioned(d, prefix, sections, n + 1) ==
            DictPut(Sectioned(d, prefix, sections, n), SectionPiece(Sectioned(d, prefix, sections, n), sections[n], n))
  {
  }

  // Under a key: the snapshot's own instructions, and everything else as before.
  ghost predicate LeftBySections(d: seq<Piece>, e: seq<Piece>, prefix: string, sections: seq<Section>, n: nat, k: Key)
    requires n <= |sections|
  {
    Find(e, k) == (if k.kind == Instructions then Instructed(prefix, sections, n, k.id) else Find(d, k)) && (Distinct(d) ==> Distinct(e))
  }

  lemma OpeningLeaves(d: seq<Piece>, prefix: string, sections: seq<Section>, k: Key)
    ensures LeftBySections(d, Sectioned(d, prefix, sections, 0), prefix, sections, 0, k)
  {
    FindWithout(d, Instructions, k);
    FindPutAll(Without(d, Instructions), PrefixPieces(prefix), Instructions, Opening(prefix), k);
    if Distinct(d) {
      WithoutKeepsDistinct(d, Instructions);
      PutAllKeepsDistinct(Without(d, Instructions), PrefixPieces(prefix));
    }
  }

  predicate NameIsTaken(e: seq<Piece>, prefix: string, sections: seq<Section>, n: nat, title: string)
    requires n <= |sections|
  {
    Has(e, KeyOf(Instructions, title, "")) <==> title in Opening(prefix) || title in SectionNames(prefix, sections, n)
  }

  // One section more, given whether its title is taken.
  lemma OneSectionMore(d: seq<Piece>, e: seq<Piece>, prefix: string, sections: seq<Section>, n: nat, k: Key)
    requires n < |sections| && LeftBySections(d, e, prefix, sections, n, k) && NameIsTaken(e, prefix, sections, n, sections[n].title)
    ensures LeftBySections(d, DictPut(e, SectionPiece(e, sections[n], n)), prefix, sections, n + 1, k)
  {
    var p, names := SectionPiece(e, sections[n], n), SectionNames(prefix, sections, n + 1);
    assert p == Named(Instructions, names[n], sections[n].text);
    assert names[..n] == SectionNames(prefix, sections, n);
    FindPut(e, p, k);
    if Distinct(e) {
      PutKeepsDistinct(e, p);
    }
  }

  lemma {:induction false} SectionsLeave(d: seq<Piece>, prefix: string, sections: seq<Section>, n: nat, k: Key)
    requires n <= |sections|
    ensures LeftBySections(d, Sectioned(d, prefix, sections, n), prefix, sections, n, k)
    decreases n, 0
  {
    if n == 0 {
      OpeningLeaves(d, prefix, sections, k);
    } else {
      SectionsLeave(d, prefix, sections, n - 1, k);
      NameTaken(d, prefix, sections, n - 1, sections[n - 1].title);
      OneSectionMore(d, Sectioned(d, prefix, sections, n - 1), prefix, sections, n - 1, k);
      SectionedOnce(d, prefix, sections, n - 1);
    }
  }

  lemma {:induction false} NameTaken(d: seq<Piece>, prefix: string, sections: seq<Section>, n: nat, title: string)
    requires n <= |sections|
    ensures NameIsTaken(Sectioned(d, prefix, sections, n), prefix, sections, n, title)
    decreases n, 1
  {
    SectionsLeave(d, prefix, sections, n, Key(Instructions, title));
    PlaceIs(Sectioned(d, prefix, sections, n), Key(Instructions, title));
  }

  // The instructions are the snapshot's alone; the tools are too, if it has any; nothing else changes.
  lemma SnapshotLeaves(d: seq<Piece>, prefix: string, sections: seq<Section>, tools: seq<ToolDef>, k: Key)
    ensures
      var i := LastOf(ToolNames(tools), k.id);
      Find(Applied(d, PromptSnapshot(prefix, sections, tools)), k) ==
      if k.kind == Instructions then Instructed(prefix, sections, |sections|, k.id)
      else if k.kind == Tool && tools != [] then if i >= 0 then Some(Named(Tool, k.id, tools[i].text)) else None
      else Find(d, k)
  {
    var e := WithInstructions(d, prefix, sections);
    SectionsLeave(d, prefix, sections, |sections|, k);
    if tools != [] {
      FindWithout(e, Tool, k);
      FindPutAll(Without(e, Tool), ToolPieces(tools), Tool, ToolNames(tools), k);
    }
  }

  // ---------------------------------------------------------------------------
  // and in which order
  // ---------------------------------------------------------------------------

  // What an attachment names of a kind, in order.
  function Adds(a: Attachment, kind: Kind): seq<string> {
    match a
    case PromptSnapshot(prefix, sections, tools) =>
      if kind == Instructions then Opening(prefix) + SectionNames(prefix, sections, |sections|)
      else if kind == Tool then ToolNames(tools)
      else []
    case InstructionFiles(files) => if kind == File then FileIds(files) else []
    case NestedMemory(file, path, _) =>
      if kind != File then [] else if file.Some? && file.value.content != "" then [FileId(file.value)] else [path]
    case SkillListing(_, skills) => if kind == Skill then SkillNames(skills) else []
    case InvokedSkills(_) => if kind == Skill then ["skills loaded in full"] else []
    case ServerDelta(names, blocks, _) => if kind == Server then Blocked(names, blocks) else []
    case DeferredDelta(names, _, _) => if kind == Deferred then names else []
    case AgentDelta(names, _, _) => if kind == Agent then names else []
    case EnvironmentNote(name, _) => if kind == Environment then [name] else []
    case HookContext(_) => if kind == Other then ["added by a hook"] else []
    case Unrecognised(typ, _) => if kind == Other then [typ] else []
  }

  // Whether it does away with what there was of the kind.
  predicate Replaces(a: Attachment, kind: Kind) {
    || (a.PromptSnapshot? && kind == Instructions)
    || (a.PromptSnapshot? && kind == Tool && a.tools != [])
    || (a.SkillListing? && kind == Skill && a.isInitial)
  }

  // Pieces that were there keep their order and come before those that were not,
  // which are in the order they are first named in.
  predicate Earlier(before: seq<Piece>, ids: seq<string>, k: Key, l: Key) {
    if Place(before, k) >= 0 && Place(before, l) >= 0 then Place(before, k) < Place(before, l)
    else if Place(before, k) < 0 && Place(before, l) < 0 then FirstOf(ids, k.id) < FirstOf(ids, l.id)
    else Place(before, k) >= 0
  }

  // The names of the instructions so far, in order.
  function NamesSoFar(prefix: string, sections: seq<Section>, n: nat): seq<string>
    requires n <= |sections|
  {
    Opening(prefix) + SectionNames(prefix, sections, n)
  }

  lemma NextName(e: seq<Piece>, prefix: string, sections: seq<Section>, n: nat)
    requires n < |sections| && NameIsTaken(e, prefix, sections, n, sections[n].title)
    ensures var name := SectionNames(prefix, sections, n + 1)[n];
            && NamesSoFar(prefix, sections, n + 1) == NamesSoFar(prefix, sections, n) + [name]
            && SectionPiece(e, sections[n], n).Key() == Key(Instructions, name)
  {
  }

  lemma {:induction false} SectionsOrder(d: seq<Piece>, prefix: string, sections: seq<Section>, n: nat, k: Key, l: Key)
    requires n <= |sections|
    ensures StandAlike(Without(d, Instructions), Instructions, NamesSoFar(prefix, sections, n), Sectioned(d, prefix, sections, n), k, l)
  {
    var d1 := Without(d, Instructions);
    if n == 0 {
      OrderPutAll(d1, PrefixPieces(prefix), Instructions, Opening(prefix), k, l);
      assert Opening(prefix) + [] == Opening(prefix);
    } else {
      SectionsOrder(d, prefix, sections, n - 1, k, l);
      var e, s := Sectioned(d, prefix, sections, n - 1), sections[n - 1];
      NameTaken(d, prefix, sections, n - 1, s.title);
      NextName(e, prefix, sections, n - 1);
      SectionedOnce(d, prefix, sections, n - 1);
      OneMoreStands(d1, Instructions, NamesSoFar(prefix, sections, n - 1), e, SectionPiece(e, s, n - 1),
                    SectionNames(prefix, sections, n)[n - 1], k, l);
    }
  }

  lemma ToolsOrder(d: seq<Piece>, tools: seq<ToolDef>, k: Key, l: Key)
    requires tools != [] && k.kind == l.kind
    requires Place(WithTools(d, tools), k) >= 0 && Place(WithTools(d, tools), l) >= 0
    ensures Place(WithTools(d, tools), k) < Place(WithTools(d, tools), l) <==>
            if k.kind == Tool then FirstOf(ToolNames(tools), k.id) < FirstOf(ToolNames(tools), l.id) else Place(d, k) < Place(d, l)
    ensures k.kind != Tool ==> Place(d, k) >= 0 && Place(d, l) >= 0
  {
    OrderPutAll(Without(d, Tool), ToolPieces(tools), Tool, ToolNames(tools), k, l);
    if k.kind == Tool {
      FindWithout(d, Tool, k);
      FindWithout(d, Tool, l);
    } else {
      OrderWithout(d, Tool, k, l);
    }
  }

  // The order after putting pieces of one kind.
  lemma PutInOrder(d: seq<Piece>, ps: seq<Piece>, kind: Kind, ids: seq<string>, k: Key, l: Key)
    requires GoBy(ps, kind, ids) && k.kind == l.kind
    requires Place(PutAll(d, ps), k) >= 0 && Place(PutAll(d, ps), l) >= 0
    ensures Place(PutAll(d, ps), k) < Place(PutAll(d, ps), l) <==> Earlier(d, if k.kind == kind then ids else [], k, l)
  {
    OrderPutAll(d, ps, kind, ids, k, l);
  }

  // The same after removing some again.
  lemma PutAndRemovedInOrder(d: seq<Piece>, ps: seq<Piece>, kind: Kind, ids: seq<string>, removed: seq<string>, k: Key, l: Key)
    requires Distinct(d) && GoBy(ps, kind, ids) && k.kind == l.kind
    requires var e := RemoveAll(PutAll(d, ps), kind, removed); Place(e, k) >= 0 && Place(e, l) >= 0
    ensures var e := RemoveAll(PutAll(d, ps), kind, removed);
            Place(e, k) < Place(e, l) <==> Earlier(d, if k.kind == kind then ids else [], k, l)
  {
    PutAllKeepsDistinct(d, ps);
    FindRemoveAll(PutAll(d, ps), kind, removed, k);
    FindRemoveAll(PutAll(d, ps), kind, removed, l);
    OrderRemoveAll(PutAll(d, ps), kind, removed, k, l);
    PutInOrder(d, ps, kind, ids, k, l);
  }

  lemma OneInOrder(d: seq<Piece>, p: Piece, kind: Kind, id: string, k: Key, l: Key)
    requires p.Key() == Key(kind, id) && k.kind == l.kind && Place(DictPut(d, p), k) >= 0 && Place(DictPut(d, p), l) >= 0
    ensures Place(DictPut(d, p), k) < Place(DictPut(d, p), l) <==> Earlier(d, if k.kind == kind then [id] else [], k, l)
  {
    assert [p][1..] == [];
    assert PutAll(d, [p]) == PutAll(DictPut(d, p), []);
    PutInOrder(d, [p], kind, [id], k, l);
  }

  ghost predicate InOrder(d: seq<Piece>, a: Attachment, k: Key, l: Key) {
    Place(Applied(d, a), k) < Place(Applied(d, a), l) <==> Earlier(if Replaces(a, k.kind) then [] else d, Adds(a, k.kind), k, l)
  }

  ghost predicate BothLeft(d: seq<Piece>, a: Attachment, k: Key, l: Key) {
    k.kind == l.kind && Find(Applied(d, a), k).Some? && Find(Applied(d, a), l).Some?
  }

  lemma SnapshotInOrder(d: seq<Piece>, prefix: string, sections: seq<Section>, tools: seq<ToolDef>, k: Key, l: Key)
    requires BothLeft(d, PromptSnapshot(prefix, sections, tools), k, l)
    ensures InOrder(d, PromptSnapshot(prefix, sections, tools), k, l)
  {
    var e := WithInstructions(d, prefix, sections);
    if tools != [] {
      ToolsOrder(e, tools, k, l);
    }
    if k.kind != Tool || tools == [] {
      SectionsOrder(d, prefix, sections, |sections|, k, l);
      FindWithout(d, Instructions, k);
      FindWithout(d, Instructions, l);
      if k.kind != Instructions {
        OrderWithout(d, Instructions, k, l);
      }
    }
  }

  lemma FilesInOrder(d: seq<Piece>, a: Attachment, k: Key, l: Key)
    requires (a.InstructionFiles? || a.NestedMemory?) && BothLeft(d, a, k, l)
    ensures InOrder(d, a, k, l)
  {
    match a
    case InstructionFiles(files) =>
      forall i | 0 <= i < |files|
        ensures FilePiece(files[i]).Key() == Key(File, FileId(files[i]))
      {
        FilePieceIs(files[i]);
      }
      PutInOrder(d, FilePieces(files), File, FileIds(files), k, l);
    case NestedMemory(file, path, shown) =>
      if file.Some? && file.value.content != "" {
        FilePieceIs(file.value);
        OneInOrder(d, FilePiece(file.value), File, FileId(file.value), k, l);
      } else {
        OneInOrder(d, MakePiece(File, FileName(path), path, shown, None), File, path, k, l);
      }
  }

  lemma SkillsInOrder(d: seq<Piece>, isInitial: bool, skills: seq<SkillLine>, k: Key, l: Key)
    requires BothLeft(d, SkillListing(isInitial, skills), k, l)
    ensures InOrder(d, SkillListing(isInitial, skills), k, l)
  {
    PutInOrder(if isInitial then Without(d, Skill) else d, SkillPieces(skills), Skill, SkillNames(skills), k, l);
    FindWithout(d, Skill, k);
    FindWithout(d, Skill, l);
    if k.kind != Skill {
      OrderWithout(d, Skill, k, l);
    }
  }

  // An attachment that puts pieces of one kind and then removes some.
  lemma DeltaInOrder(d: seq<Piece>, a: Attachment, ps: seq<Piece>, kind: Kind, ids: seq<string>, removed: seq<string>, k: Key, l: Key)
    requires Applied(d, a) == RemoveAll(PutAll(d, ps), kind, removed) && GoBy(ps, kind, ids)
    requires Adds(a, k.kind) == (if k.kind == kind then ids else []) && !Replaces(a, k.kind)
    requires Distinct(d) && BothLeft(d, a, k, l)
    ensures InOrder(d, a, k, l)
  {
    PutAndRemovedInOrder(d, ps, kind, ids, removed, k, l);
  }

  lemma ServersInOrder(d: seq<Piece>, names: seq<string>, blocks: seq<string>, removed: seq<string>, k: Key, l: Key)
    requires Distinct(d) && BothLeft(d, ServerDelta(names, blocks, removed), k, l)
    ensures InOrder(d, ServerDelta(names, blocks, removed), k, l)
  {
    DeltaInOrder(d, ServerDelta(names, blocks, removed), ServerPieces(names, blocks), Server, Blocked(names, blocks), removed, k, l);
  }

  lemma DeferredInOrder(d: seq<Piece>, names: seq<string>, lines: seq<string>, removed: seq<string>, k: Key, l: Key)
    requires Distinct(d) && BothLeft(d, DeferredDelta(names, lines, removed), k, l)
    ensures InOrder(d, DeferredDelta(names, lines, removed), k, l)
  {
    DeltaInOrder(d, DeferredDelta(names, lines, removed), DeferredPieces(names, lines), Deferred, names, removed, k, l);
  }

  lemma AgentsInOrder(d: seq<Piece>, names: seq<string>, lines: seq<string>, removed: seq<string>, k: Key, l: Key)
    requires Distinct(d) && BothLeft(d, AgentDelta(names, lines, removed), k, l)
    ensures InOrder(d, AgentDelta(names, lines, removed), k, l)
  {
    DeltaInOrder(d, AgentDelta(names, lines, removed), AgentPieces(names, lines), Agent, names, removed, k, l);
  }

  // An attachment that puts one piece.
  lemma NoteInOrder(d: seq<Piece>, a: Attachment, kind: Kind, name: string, shown: string, k: Key, l: Key)
    requires Applied(d, a) == DictPut(d, Named(kind, name, shown))
    requires Adds(a, k.kind) == (if k.kind == kind then [name] else []) && !Replaces(a, k.kind)
    requires BothLeft(d, a, k, l)
    ensures InOrder(d, a, k, l)
  {
    OneInOrder(d, Named(kind, name, shown), kind, name, k, l);
  }

  lemma NotesInOrder(d: seq<Piece>, a: Attachment, k: Key, l: Key)
    requires (a.InvokedSkills? || a.EnvironmentNote? || a.HookContext? || a.Unrecognised?) && BothLeft(d, a, k, l)
    ensures InOrder(d, a, k, l)
  {
    match a
    case InvokedSkills(shown) => NoteInOrder(d, a, Skill, "skills loaded in full", shown, k, l);
    case EnvironmentNote(name, shown) => NoteInOrder(d, a, Environment, name, shown, k, l);
    case HookContext(shown) => NoteInOrder(d, a, Other, "added by a hook", shown, k, l);
    case Unrecognised(typ, shown) => NoteInOrder(d, a, Other, typ, shown, k, l);
  }

  // Main result: of each kind, what stays keeps its order and what is new follows
  // in the order it is named in.
  lemma OrderAfter(d: seq<Piece>, a: Attachment, k: Key, l: Key)
    requires Distinct(d) && k.kind == l.kind
    requires Find(Applied(d, a), k).Some? && Find(Applied(d, a), l).Some?
    ensures Place(Applied(d, a), k) < Place(Applied(d, a), l) <==> Earlier(if Replaces(a, k.kind) then [] else d, Adds(a, k.kind), k, l)
  {
    match a
    case PromptSnapshot(prefix, sections, tools) => SnapshotInOrder(d, prefix, sections, tools, k, l);
    case SkillListing(isInitial, skills) => SkillsInOrder(d, isInitial, skills, k, l);
    case InstructionFiles(_) => FilesInOrder(d, a, k, l);
    case NestedMemory(_, _, _) => FilesInOrder(d, a, k, l);
    case ServerDelta(names, blocks, removed) => ServersInOrder(d, names, blocks, removed, k, l);
    case DeferredDelta(names, lines, removed) => DeferredInOrder(d, names, lines, removed, k, l);
    case AgentDelta(names, lines, removed) => AgentsInOrder(d, names, lines, removed, k, l);
    case _ => NotesInOrder(d, a, k, l);
  }

  // ---------------------------------------------------------------------------
  // whole sessions
  // ---------------------------------------------------------------------------

  lemma DeltaKeepsDistinct(d: seq<Piece>, ps: seq<Piece>, kind: Kind, removed: seq<string>)
    requires Distinct(d)
    ensures Distinct(RemoveAll(PutAll(d, ps), kind, removed))
  {
    PutAllKeepsDistinct(d, ps);
    FindRemoveAll(PutAll(d, ps), kind, removed, Key(kind, ""));
  }

  lemma ListingKeepsDistinct(d: seq<Piece>, a: Attachment)
    requires Distinct(d) && (a.PromptSnapshot? || a.SkillListing?)
    ensures Distinct(Applied(d, a))
  {
    match a
    case PromptSnapshot(prefix, sections, tools) =>
      var e := WithInstructions(d, prefix, sections);
      SectionsLeave(d, prefix, sections, |sections|, Key(Tool, ""));
      WithoutKeepsDistinct(e, Tool);
      PutAllKeepsDistinct(Without(e, Tool), ToolPieces(tools));
    case SkillListing(isInitial, skills) =>
      WithoutKeepsDistinct(d, Skill);
      PutAllKeepsDistinct(if isInitial then Without(d, Skill) else d, SkillPieces(skills));
  }

  lemma NoteKeepsDistinct(d: seq<Piece>, a: Attachment)
    requires Distinct(d) && (a.NestedMemory? || a.InvokedSkills? || a.EnvironmentNote? || a.HookContext? || a.Unrecognised?)
    ensures Distinct(Applied(d, a))
  {
    var p := match a
      case NestedMemory(file, path, shown) =>
        if file.Some? && file.value.content != "" then FilePiece(file.value) else MakePiece(File, FileName(path), path, shown, None)
      case InvokedSkills(shown) => Named(Skill, "skills loaded in full", shown)
      case EnvironmentNote(name, shown) => Named(Environment, name, shown)
      case HookContext(shown) => Named(Other, "added by a hook", shown)
      case Unrecognised(typ, shown) => Named(Other, typ, shown);
    assert Applied(d, a) == DictPut(d, p);
    PutKeepsDistinct(d, p);
  }

  lemma AppliedKeepsDistinct(d: seq<Piece>, a: Attachment)
    requires Distinct(d)
    ensures Distinct(Applied(d, a))
  {
    match a
    case PromptSnapshot(_, _, _) => ListingKeepsDistinct(d, a);
    case SkillListing(_, _) => ListingKeepsDistinct(d, a);
    case InstructionFiles(files) => PutAllKeepsDistinct(d, FilePieces(files));
    case ServerDelta(names, blocks, removed) => DeltaKeepsDistinct(d, ServerPieces(names, blocks), Server, removed);
    case DeferredDelta(names, lines, removed) => DeltaKeepsDistinct(d, DeferredPieces(names, lines), Deferred, removed);
    case AgentDelta(names, lines, removed) => DeltaKeepsDistinct(d, AgentPieces(names, lines), Agent, removed);
    case _ => NoteKeepsDistinct(d, a);
  }

  // However long the session, one live piece per key.
  lemma {:induction false} ReplayIsDistinct(readings: seq<Option<Attachment>>, n: nat)
    requires n <= |readings|
    ensures Distinct(Replay(readings, n))
  {
    if n > 0 {
      ReplayIsDistinct(readings, n - 1);
      if readings[n - 1].Some? {
        AppliedKeepsDistinct(Replay(readings, n - 1), readings[n - 1].value);
      }
    }
  }

  predicate Removes(a: Attachment, k: Key) {
    match a
    case ServerDelta(_, _, removed) => k.kind == Server && k.id in removed
    case DeferredDelta(_, _, removed) => k.kind == Deferred && k.id in removed
    case AgentDelta(_, _, removed) => k.kind == Agent && k.id in removed
    case _ => false
  }

  // It says something of the piece: adds it, removes it, or does away with its kind.
  predicate Touches(a: Attachment, k: Key) {
    Replaces(a, k.kind) || k.id in Adds(a, k.kind) || Removes(a, k)
  }

  lemma NamedOrNot(ids: seq<string>, id: string)
    ensures LastOf(ids, id) >= 0 <==> id in ids
  {
  }

  // A piece is left as an attachment that touches it leaves it, whatever it was
  // before, and as it was by one that does not.
  ghost predicate TouchDecides(d: seq<Piece>, a: Attachment, k: Key) {
    Find(Applied(d, a), k) == if Touches(a, k) then Find(Applied([], a), k) else Find(d, k)
  }

  lemma FilesDecide(d: seq<Piece>, a: Attachment, k: Key)
    requires a.InstructionFiles? || a.NestedMemory?
    ensures TouchDecides(d, a, k)
  {
    match a
    case InstructionFiles(files) =>
      InstructionFilesLeave(d, files, k);
      InstructionFilesLeave([], files, k);
      NamedOrNot(FileIds(files), k.id);
    case NestedMemory(file, path, shown) =>
      NestedMemoryLeaves(d, file, path, shown, k);
      NestedMemoryLeaves([], file, path, shown, k);
  }

  lemma DeltasDecide(d: seq<Piece>, a: Attachment, k: Key)
    requires Distinct(d) && (a.ServerDelta? || a.DeferredDelta? || a.AgentDelta?)
    ensures TouchDecides(d, a, k)
  {
    match a
    case ServerDelta(names, blocks, removed) =>
      ServerDeltaLeaves(d, names, blocks, removed, k);
      ServerDeltaLeaves([], names, blocks, removed, k);
      NamedOrNot(Blocked(names, blocks), k.id);
    case DeferredDelta(names, lines, removed) =>
      DeferredDeltaLeaves(d, names, lines, removed, k);
      DeferredDeltaLeaves([], names, lines, removed, k);
      NamedOrNot(names, k.id);
    case AgentDelta(names, lines, removed) =>
      AgentDeltaLeaves(d, names, lines, removed, k);
      AgentDeltaLeaves([], names, lines, removed, k);
      NamedOrNot(names, k.id);
  }

  lemma NotesDecide(d: seq<Piece>, a: Attachment, k: Key)
    requires a.InvokedSkills? || a.EnvironmentNote? || a.HookContext? || a.Unrecognised?
    ensures TouchDecides(d, a, k)
  {
    match a
    case InvokedSkills(shown) =>
      InvokedSkillsLeave(d, shown, k);
      InvokedSkillsLeave([], shown, k);
    case EnvironmentNote(name, shown) =>
      EnvironmentNoteLeaves(d, name, shown, k);
      EnvironmentNoteLeaves([], name, shown, k);
    case HookContext(shown) =>
      HookContextLeaves(d, shown, k);
      HookContextLeaves([], shown, k);
    case Unrecognised(typ, shown) =>
      UnrecognisedLeaves(d, typ, shown, k);
      UnrecognisedLeaves([], typ, shown, k);
  }

  lemma ListingsDecide(d: seq<Piece>, a: Attachment, k: Key)
    requires a.PromptSnapshot? || a.SkillListing?
    ensures TouchDecides(d, a, k)
  {
    match a
    case PromptSnapshot(prefix, sections, tools) =>
      SnapshotLeaves(d, prefix, sections, tools, k);
      SnapshotLeaves([], prefix, sections, tools, k);
    case SkillListing(isInitial, skills) =>
      SkillListingLeaves(d, isInitial, skills, k);
      SkillListingLeaves([], isInitial, skills, k);
      NamedOrNot(SkillNames(skills), k.id);
  }

  lemma AttachmentDecides(d: seq<Piece>, a: Attachment, k: Key)
    requires Distinct(d)
    ensures TouchDecides(d, a, k)
  {
    match a
    case PromptSnapshot(_, _, _) => ListingsDecide(d, a, k);
    case SkillListing(_, _) => ListingsDecide(d, a, k);
    case InstructionFiles(_) => FilesDecide(d, a, k);
    case NestedMemory(_, _, _) => FilesDecide(d, a, k);
    case ServerDelta(_, _, _) => DeltasDecide(d, a, k);
    case DeferredDelta(_, _, _) => DeltasDecide(d, a, k);
    case AgentDelta(_, _, _) => DeltasDecide(d, a, k);
    case _ => NotesDecide(d, a, k);
  }

  // The last of the first n attachments that can be read and touches a piece, or -1.
  function LastTouch(readings: seq<Option<Attachment>>, n: nat, k: Key): (i: int)
    requires n <= |readings|
    ensures -1 <= i < n
    ensures i >= 0 ==> readings[i].Some? && Touches(readings[i].value, k)
    ensures forall j :: i < j < n && readings[j].Some? ==> !Touches(readings[j].value, k)
  {
    if n == 0 then -1
    else if readings[n - 1].Some? && Touches(readings[n - 1].value, k) then n - 1
    else LastTouch(readings, n - 1, k)
  }

  lemma ReadingDecides(d: seq<Piece>, a: Option<Attachment>, k: Key)
    requires Distinct(d)
    ensures Find(AppliedIfRead(d, a), k) ==
            if a.Some? && Touches(a.value, k) then Find(Applied([], a.value), k) else Find(d, k)
  {
    if a.Some? {
      AttachmentDecides(d, a.value, k);
    }
  }

  // What the last attachment that touches a piece leaves of it.
  function LeftByLastTouch(readings: seq<Option<Attachment>>, k: Key): Option<Piece> {
    var i := LastTouch(readings, |readings|, k);
    if i < 0 then None else Find(Applied([], readings[i].value), k)
  }

  // Main result: after any session a piece is what the last attachment that touched
  // it left, and is not there if none did or that one took it away.
  lemma {:induction false} LastTouchDecides(readings: seq<Option<Attachment>>, n: nat, k: Key)
    requires n <= |readings|
    ensures
      var i := LastTouch(readings, n, k);
      Find(Replay(readings, n), k) == if i < 0 then None else Find(Applied([], readings[i].value), k)
  {
    if n > 0 {
      LastTouchDecides(readings, n - 1, k);
      ReplayIsDistinct(readings, n - 1);
      ReadingDecides(Replay(readings, n - 1), readings[n - 1], k);
    }
  }

  lemma {:induction false} FindOf(d: seq<Piece>, k: Key)
    ensures Find(Of(d, k.kind), k) == Find(d, k)
  {
    if d != [] {
      FindOf(d[1..], k);
      if d[0].kind == k.kind {
        assert Of(d, k.kind)[1..] == Of(d[1..], k.kind);
      }
    }
  }

  // What is shown under a key is what is live under it.
  lemma FindSorted(d: seq<Piece>, k: Key)
    ensures Find(SortedByKind(d), k) == Find(d, k)
  {
    FindOf(d, k);
    FindOf(SortedByKind(d), k);
    SortedKeepsEachKind(d, k.kind);
  }

  function MissingOf(shown: seq<Piece>): seq<string> {
    if exists p :: p in shown && p.kind == Skill then ["claude does not record which file each skill comes from."] else []
  }

  // That claude does not say where skills come from is noted exactly when any is shown.
  lemma MissingIff(d: seq<Piece>)
    ensures MissingFrom(d) == MissingOf(SortedByKind(d))
  {
    var shown := SortedByKind(d);
    SortedKeepsEachKind(d, Skill);
    if Of(d, Skill) != [] {
      OfFrom(shown, Skill, Of(d, Skill)[0]);
    }
    if p :| p in shown && p.kind == Skill {
      var i :| 0 <= i < |shown| && shown[i] == p;
      OfAt(shown, Skill, i);
    }
  }
}
