/**
 * The casting rules of the character-assignment page
 * (src/pages/AssignCharactersPage.tsx): the user / AI / unassigned role cycle,
 * choosing a voice for a character, and the gate that lets a rehearsal start.
 */
module AssignCharacters {
  import opened Prelude
  import opened ScriptTypes
  import opened ScriptsContext

  /** One click on a character's role: user, then AI, then unassigned, then user again. */
  function NextRole(r: Role): Role {
    match r
    case User => Ai
    case Ai => Unassigned
    case Unassigned => User
  }

  lemma NextRoleCycles(r: Role)
    ensures NextRole(r) != r && NextRole(NextRole(r)) != r
    ensures NextRole(NextRole(NextRole(r))) == r
  {
  }

  /** The per-character body of toggleAssignment. */
  function ToggleOne(c: Character, id: string): Character {
    if c.id == id then c.(assignedTo := NextRole(c.assignedTo)) else c
  }

  /** toggleAssignment's `prev.map(...)`. */
  function Toggled(cs: seq<Character>, id: string): (r: seq<Character>)
    ensures |r| == |cs|
    decreases |cs|
  {
    if cs == [] then [] else [ToggleOne(cs[0], id)] + Toggled(cs[1..], id)
  }

  /** Only the role of the characters with the id moves one step; everything else is kept, in order. */
  lemma {:induction false} ToggledAt(cs: seq<Character>, id: string, i: nat)
    requires i < |cs|
    ensures Toggled(cs, id)[i] ==
      if cs[i].id == id then cs[i].(assignedTo := NextRole(cs[i].assignedTo)) else cs[i]
    decreases |cs|
  {
    if i > 0 {
      ToggledAt(cs[1..], id, i - 1);
    }
  }

  /** Three clicks on the same character restore every role. */
  lemma ToggleThrice(cs: seq<Character>, id: string)
    ensures Toggled(Toggled(Toggled(cs, id), id), id) == cs
  {
    var t1 := Toggled(cs, id);
    var t2 := Toggled(t1, id);
    var t3 := Toggled(t2, id);
    forall i | 0 <= i < |cs|
      ensures t3[i] == cs[i]
    {
      ToggledAt(cs, id, i);
      ToggledAt(t1, id, i);
      ToggledAt(t2, id, i);
      NextRoleCycles(cs[i].assignedTo);
    }
  }

  /** The per-character body of selectVoice's map. */
  function VoiceOne(c: Character, id: string, voiceId: string): Character {
    if c.id == id then c.(voiceId := Some(voiceId)) else c
  }

  /** selectVoice's `prev.map(...)` for the character being chosen for. */
  function WithVoice(cs: seq<Character>, id: string, voiceId: string): (r: seq<Character>)
    ensures |r| == |cs|
    decreases |cs|
  {
    if cs == [] then [] else [VoiceOne(cs[0], id, voiceId)] + WithVoice(cs[1..], id, voiceId)
  }

  /** Only the voice of the characters with the id changes; everything else is kept, in order. */
  lemma {:induction false} WithVoiceAt(cs: seq<Character>, id: string, voiceId: string, i: nat)
    requires i < |cs|
    ensures WithVoice(cs, id, voiceId)[i] == if cs[i].id == id then cs[i].(voiceId := Some(voiceId)) else cs[i]
    decreases |cs|
  {
    if i > 0 {
      WithVoiceAt(cs[1..], id, voiceId, i - 1);
    }
  }

  /** `c.voiceId` is truthy: present and not empty. */
  predicate HasVoice(c: Character) { c.voiceId.Some? && c.voiceId.value != "" }

  /** `characters.some(c => c.assignedTo === 'user')`. */
  function AnyUser(cs: seq<Character>): bool
    decreases |cs|
  {
    cs != [] && (cs[0].assignedTo == User || AnyUser(cs[1..]))
  }

  /** `characters.some(c => c.assignedTo === 'ai' && c.voiceId)`. */
  function AnyVoicedAi(cs: seq<Character>): bool
    decreases |cs|
  {
    cs != [] && ((cs[0].assignedTo == Ai && HasVoice(cs[0])) || AnyVoicedAi(cs[1..]))
  }

  /** canProceed. */
  function CanProceed(cs: seq<Character>): bool {
    AnyUser(cs) && AnyVoicedAi(cs)
  }

  lemma {:induction false} AnyUserMeans(cs: seq<Character>)
    ensures AnyUser(cs) <==> exists i :: 0 <= i < |cs| && cs[i].assignedTo == User
    decreases |cs|
  {
    if cs != [] {
      AnyUserMeans(cs[1..]);
      if exists i :: 0 <= i < |cs| && cs[i].assignedTo == User {
        var i :| 0 <= i < |cs| && cs[i].assignedTo == User;
        if i > 0 {
          assert cs[1..][i - 1].assignedTo == User;
        }
      }
      if AnyUser(cs[1..]) {
        var i :| 0 <= i < |cs[1..]| && cs[1..][i].assignedTo == User;
        assert cs[i + 1].assignedTo == User;
      }
    }
  }

  lemma {:induction false} AnyVoicedAiMeans(cs: seq<Character>)
    ensures AnyVoicedAi(cs) <==> exists i :: 0 <= i < |cs| && cs[i].assignedTo == Ai && HasVoice(cs[i])
    decreases |cs|
  {
    if cs != [] {
      AnyVoicedAiMeans(cs[1..]);
      if exists i :: 0 <= i < |cs| && cs[i].assignedTo == Ai && HasVoice(cs[i]) {
        var i :| 0 <= i < |cs| && cs[i].assignedTo == Ai && HasVoice(cs[i]);
        if i > 0 {
          assert cs[1..][i - 1] == cs[i];
        }
      }
      if AnyVoicedAi(cs[1..]) {
        var i :| 0 <= i < |cs[1..]| && cs[1..][i].assignedTo == Ai && HasVoice(cs[1..][i]);
        assert cs[i + 1] == cs[1..][i];
      }
    }
  }

  /**
   * A rehearsal can start exactly when some character is played by the user
   * and some AI character has a non-empty voice; any number of user
   * characters is allowed.
   */
  lemma CanProceedMeans(cs: seq<Character>)
    ensures CanProceed(cs) <==>
      (exists i :: 0 <= i < |cs| && cs[i].assignedTo == User) &&
      (exists j :: 0 <= j < |cs| && cs[j].assignedTo == Ai && HasVoice(cs[j]))
  {
    AnyUserMeans(cs);
    AnyVoicedAiMeans(cs);
  }

  /** Choosing a voice never takes away a user or a voiced AI character, so it never closes the gate. */
  lemma WithVoiceKeepsGate(cs: seq<Character>, id: string, voiceId: string)
    requires CanProceed(cs) && voiceId != ""
    ensures CanProceed(WithVoice(cs, id, voiceId))
  {
    var r := WithVoice(cs, id, voiceId);
    CanProceedMeans(cs);
    CanProceedMeans(r);
    var i :| 0 <= i < |cs| && cs[i].assignedTo == User;
    var j :| 0 <= j < |cs| && cs[j].assignedTo == Ai && HasVoice(cs[j]);
    WithVoiceAt(cs, id, voiceId, i);
    WithVoiceAt(cs, id, voiceId, j);
    assert r[i].assignedTo == User;
    assert r[j].assignedTo == Ai && HasVoice(r[j]);
  }

  /** The patch Start Rehearsal hands to updateScript: the edited cast and status ready. */
  function StartPatch(cs: seq<Character>): (p: ScriptPatch)
    ensures p.characters == Some(cs) && p.status == Some(Ready)
    ensures p.id.None? && p.title.None? && p.createdAt.None? && p.rawText.None? && p.lines.None?
  {
    ScriptPatch(None, None, None, None, Some(cs), None, Some(Ready))
  }

  /** Start Rehearsal's update replaces the cast, marks the script ready, stamps it, and keeps everything else. */
  lemma StartPatchApplied(s: Script, cs: seq<Character>, now: int)
    ensures ApplyPatch(s, StartPatch(cs), now) == s.(characters := cs, status := Ready, updatedAt := now)
  {
  }

  /** The page's characters and selectingForCharacter cells. */
  class AssignPage {
    var characters: seq<Character>
    /** The id of the character whose voice is being chosen, if the chooser is open. */
    var selecting: Option<string>

    /** The page after its effect copied the script's characters. */
    constructor (script: Script)
      ensures characters == script.characters && selecting == None
    {
      characters := script.characters;
      selecting := None;
    }

    method ToggleAssignment(id: string)
      modifies this`characters
      ensures characters == Toggled(old(characters), id)
    {
      characters := Toggled(characters, id);
    }

    method OpenVoiceSelector(id: string)
      modifies this`selecting
      ensures selecting == Some(id)
    {
      selecting := Some(id);
    }

    /** The chooser's Cancel button. */
    method CloseVoiceSelector()
      modifies this`selecting
      ensures selecting == None
    {
      selecting := None;
    }

    /**
     * selectVoice: with the chooser open for a (non-empty) character id, that
     * character gets the voice and the chooser closes; otherwise nothing changes.
     */
    method SelectVoice(voiceId: string)
      modifies this
      ensures old(selecting).Some? && old(selecting).value != "" ==>
        characters == WithVoice(old(characters), old(selecting).value, voiceId) && selecting == None
      ensures !(old(selecting).Some? && old(selecting).value != "") ==>
        characters == old(characters) && selecting == old(selecting)
    {
      if selecting.Some? && selecting.value != "" {
        characters := WithVoice(characters, selecting.value, voiceId);
        selecting := None;
      }
    }

    /**
     * The Start Rehearsal button, enabled only when canProceed: store the
     * edited characters with status ready. getScript then returns the script
     * with the new cast and status.
     */
    method StartRehearsal(store: ScriptStore, scriptId: string, now: int)
      requires CanProceed(characters)
      modifies store
      ensures store.scripts == PatchScripts(old(store.scripts), scriptId, StartPatch(characters), now)
      ensures old(store.GetScript(scriptId)).Some? ==>
        store.GetScript(scriptId) ==
          Some(old(store.GetScript(scriptId)).value.(characters := characters, status := Ready, updatedAt := now))
    {
      FindAfterPatch(store.scripts, scriptId, StartPatch(characters), now);
      store.UpdateScript(scriptId, StartPatch(characters), now);
    }
  }

  /** Casting two user characters and one voiced AI character opens the gate. */
  method CastTwoUsers(script: Script)
    requires |script.characters| == 3
    requires forall i :: 0 <= i < 3 ==> script.characters[i].assignedTo == Unassigned
    requires script.characters[0].id == "char-a" && script.characters[1].id == "char-b"
    requires script.characters[2].id == "char-c"
  {
    var page := new AssignPage(script);
    var c0 := page.characters;
    page.ToggleAssignment("char-a");
    ToggledAt(c0, "char-a", 2);
    var c1 := page.characters;
    page.ToggleAssignment("char-b");
    ToggledAt(c1, "char-b", 2);
    var c2 := page.characters;
    page.ToggleAssignment("char-c");
    ToggledAt(c2, "char-c", 2);
    var c3 := page.characters;
    page.ToggleAssignment("char-c");
    ToggledAt(c3, "char-c", 2);
    var c4 := page.characters;
    page.OpenVoiceSelector("char-c");
    page.SelectVoice("voice-2");
    WithVoiceAt(c4, "char-c", "voice-2", 2);
    var cs := page.characters;
    assert cs[0].assignedTo == User;
    assert cs[2].assignedTo == Ai && HasVoice(cs[2]);
    CanProceedMeans(cs);
    assert CanProceed(cs);
  }
}
