/**
 * The records shared by the pages and the script store (src/types/script.ts).
 * Dates are millisecond timestamps; optional fields are `Option`s.
 */
module ScriptTypes {
  import opened Prelude

  /** Who plays a character. */
  datatype Role = User | Ai | Unassigned

  datatype Character = Character(
    id: string,
    name: string,
    assignedTo: Role,
    lineCount: nat,
    voiceId: Option<string>)

  datatype LineKind = Dialogue | Action | Heading | Parenthetical

  datatype DialogueLine = DialogueLine(
    id: string,
    characterId: string,
    characterName: string,
    text: string,
    kind: LineKind,
    order: nat)

  datatype ScriptStatus = Uploaded | Parsed | Assigned | Ready

  datatype Script = Script(
    id: string,
    title: string,
    createdAt: int,
    updatedAt: int,
    rawText: string,
    characters: seq<Character>,
    lines: seq<DialogueLine>,
    status: ScriptStatus)

  datatype Gender = Male | Female | Neutral

  datatype AIVoice = AIVoice(
    id: string,
    name: string,
    accent: string,
    gender: Gender,
    preview: Option<string>,
    category: string)
}
