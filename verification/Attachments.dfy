/**
What one attachment of a claude session does to the pieces: the specification
of the reader in Fed.dfy, on dictionaries.

Decoding JSON, and the heading or tag a section is named by, are taken as
already done: an attachment arrives as typed values.
*/
module Attachments {
  import opened Common
  import opened Pieces

  datatype Section = Section(title: string, text: string)
  datatype ToolDef = ToolDef(name: string, text: string)
  datatype ClaudeFile = ClaudeFile(path: string, belongs: string, content: string)
  datatype SkillLine = SkillLine(name: string, line: string)

  datatype Attachment =
    | PromptSnapshot(prefix: string, sections: seq<Section>, tools: seq<ToolDef>)
    | InstructionFiles(files: seq<ClaudeFile>)
    | NestedMemory(file: Option<ClaudeFile>, path: string, shown: string)
    | SkillListing(isInitial: bool, skills: seq<SkillLine>)
    | InvokedSkills(shown: string)
    | ServerDelta(addedNames: seq<string>, addedBlocks: seq<string>, removedNames: seq<string>)
    | DeferredDelta(addedNames: seq<string>, addedLines: seq<string>, removedNames: seq<string>)
    | AgentDelta(addedTypes: seq<string>, addedLines: seq<string>, removedTypes: seq<string>)
    | EnvironmentNote(name: string, shown: string)
    | HookContext(shown: string)
    | Unrecognised(typ: string, shown: string)

  // Where the part of a path after its last slash of either kind begins.
  function NameStart(path: string): (i: nat)
    ensures i <= |path|
  {
    if path == "" then 0
    else if path[|path| - 1] == '/' || path[|path| - 1] == '\\' then |path|
    else NameStart(path[..|path| - 1])
  }

  // The last part of a path from either kind of computer.
  function FileName(path: string): string {
    path[NameStart(path)..]
  }

  function OrName(name: string, fallback: string): string {
    if name == "" then fallback else name
  }

  function FilePiece(f: ClaudeFile): Piece {
    MakePiece(File, FileName(f.path) + (if f.belongs != "" then " \U{00B7} " + f.belongs else ""), f.path, f.content, None)
  }

  function FilePieces(fs: seq<ClaudeFile>): seq<Piece> {
    seq(|fs|, i requires 0 <= i < |fs| => FilePiece(fs[i]))
  }

  function SkillPieces(lines: seq<SkillLine>): seq<Piece> {
    seq(|lines|, i requires 0 <= i < |lines| => MakePiece(Skill, lines[i].name, "", lines[i].line, None))
  }

  // A server without its block of instructions is not added.
  function ServerPieces(names: seq<string>, blocks: seq<string>): seq<Piece> {
    var n := Min(|names|, |blocks|);
    seq(n, i requires 0 <= i < n => MakePiece(Server, names[i], "", blocks[i], None))
  }

  function DeferredPieces(names: seq<string>, lines: seq<string>): seq<Piece> {
    seq(|names|, i requires 0 <= i < |names| =>
      MakePiece(Deferred, names[i], "", if i < |lines| && lines[i] != "" then lines[i] else names[i], None))
  }

  function AgentPieces(names: seq<string>, lines: seq<string>): seq<Piece> {
    seq(|names|, i requires 0 <= i < |names| =>
      MakePiece(Agent, names[i], "", if i < |lines| then lines[i] else names[i], None))
  }

  function ToolPieces(tools: seq<ToolDef>): seq<Piece> {
    seq(|tools|, i requires 0 <= i < |tools| =>
      MakePiece(Tool, OrName(tools[i].name, "unnamed tool"), "", tools[i].text, None))
  }

  function PutAll(d: seq<Piece>, ps: seq<Piece>): seq<Piece>
    decreases |ps|
  {
    if ps == [] then d else PutAll(DictPut(d, ps[0]), ps[1..])
  }

  function RemoveAll(d: seq<Piece>, kind: Kind, names: seq<string>): seq<Piece>
    decreases |names|
  {
    if names == [] then d else RemoveAll(DictRemove(d, KeyOf(kind, names[0], "")), kind, names[1..])
  }

  // A section whose name is taken is numbered by its place.
  function SectionPiece(d: seq<Piece>, s: Section, i: nat): Piece {
    var name := if Has(d, KeyOf(Instructions, s.title, "")) then s.title + " (" + Decimal(i + 1) + ")" else s.title;
    MakePiece(Instructions, name, "", s.text, None)
  }

  function PutSections(d: seq<Piece>, sections: seq<Section>, n: nat): seq<Piece>
    requires n <= |sections|
  {
    if n == 0 then d
    else
      var e := PutSections(d, sections, n - 1);
      DictPut(e, SectionPiece(e, sections[n - 1], n - 1))
  }

  function PrefixPieces(prefix: string): seq<Piece> {
    if prefix != "" then [MakePiece(Instructions, "opening line", "", prefix, None)] else []
  }

  function WithInstructions(d: seq<Piece>, prefix: string, sections: seq<Section>): seq<Piece> {
    PutSections(PutAll(Without(d, Instructions), PrefixPieces(prefix)), sections, |sections|)
  }

  function WithTools(d: seq<Piece>, tools: seq<ToolDef>): seq<Piece> {
    if tools == [] then d else PutAll(Without(d, Tool), ToolPieces(tools))
  }

  function Applied(d: seq<Piece>, a: Attachment): seq<Piece> {
    match a
    case PromptSnapshot(prefix, sections, tools) => WithTools(WithInstructions(d, prefix, sections), tools)
    case InstructionFiles(files) => PutAll(d, FilePieces(files))
    case NestedMemory(file, path, shown) =>
      if file.Some? && file.value.content != "" then DictPut(d, FilePiece(file.value))
      else DictPut(d, MakePiece(File, FileName(path), path, shown, None))
    case SkillListing(isInitial, skills) => PutAll(if isInitial then Without(d, Skill) else d, SkillPieces(skills))
    case InvokedSkills(shown) => DictPut(d, MakePiece(Skill, "skills loaded in full", "", shown, None))
    case ServerDelta(names, blocks, removed) => RemoveAll(PutAll(d, ServerPieces(names, blocks)), Server, removed)
    case DeferredDelta(names, lines, removed) => RemoveAll(PutAll(d, DeferredPieces(names, lines)), Deferred, removed)
    case AgentDelta(names, lines, removed) => RemoveAll(PutAll(d, AgentPieces(names, lines)), Agent, removed)
    case EnvironmentNote(name, shown) => DictPut(d, MakePiece(Environment, name, "", shown, None))
    case HookContext(shown) => DictPut(d, MakePiece(Other, "added by a hook", "", shown, None))
    case Unrecognised(typ, shown) => DictPut(d, MakePiece(Other, typ, "", shown, None))
  }

  // An attachment that could not be decoded does nothing.
  function AppliedIfRead(d: seq<Piece>, a: Option<Attachment>): seq<Piece> {
    match a
    case None => d
    case Some(x) => Applied(d, x)
  }

  // The first n of a session's attachments, in order.
  function Replay(readings: seq<Option<Attachment>>, n: nat): seq<Piece>
    requires n <= |readings|
  {
    if n == 0 then [] else AppliedIfRead(Replay(readings, n - 1), readings[n - 1])
  }

  lemma {:induction false} ReplayPrefix(readings: seq<Option<Attachment>>, a: Option<Attachment>, n: nat)
    requires n <= |readings|
    ensures Replay(readings + [a], n) == Replay(readings, n)
  {
    if n > 0 {
      ReplayPrefix(readings, a, n - 1);
    }
  }

  lemma ReplayOneMore(readings: seq<Option<Attachment>>, a: Option<Attachment>)
    ensures Replay(readings + [a], |readings| + 1) == AppliedIfRead(Replay(readings, |readings|), a)
  {
    ReplayPrefix(readings, a, |readings|);
  }

  // Said of a claude turn that lists any skill.
  function MissingFrom(d: seq<Piece>): seq<string> {
    if Of(d, Skill) != [] then ["claude does not record which file each skill comes from."] else []
  }

  lemma {:induction false} PutAllSnoc(d: seq<Piece>, ps: seq<Piece>, p: Piece)
    ensures PutAll(d, ps + [p]) == DictPut(PutAll(d, ps), p)
    decreases |ps|
  {
    if ps == [] {
      assert PutAll(DictPut(d, p), []) == DictPut(d, p);
      assert [p][1..] == [];
      assert ps + [p] == [p];
    } else {
      assert (ps + [p])[1..] == ps[1..] + [p];
      PutAllSnoc(DictPut(d, ps[0]), ps[1..], p);
    }
  }

  lemma {:induction false} RemoveAllSnoc(d: seq<Piece>, kind: Kind, names: seq<string>, name: string)
    ensures RemoveAll(d, kind, names + [name]) == DictRemove(RemoveAll(d, kind, names), KeyOf(kind, name, ""))
    decreases |names|
  {
    if names == [] {
      assert names + [name] == [name];
      assert [name][1..] == [];
      assert RemoveAll(DictRemove(d, KeyOf(kind, name, "")), kind, []) == DictRemove(d, KeyOf(kind, name, ""));
    } else {
      assert (names + [name])[1..] == names[1..] + [name];
      RemoveAllSnoc(DictRemove(d, KeyOf(kind, names[0], "")), kind, names[1..], name);
    }
  }
}
