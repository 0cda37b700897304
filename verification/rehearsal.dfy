/**
 * The rehearsal turn engine (src/pages/RehearsalPage.tsx): which script the
 * page rehearses, and the status / line index / countdown state machine that
 * alternates between lines the AI speaks and lines the user delivers.
 */
module Rehearsal {
  import opened Prelude
  import opened ScriptTypes
  import opened ScriptsContext

  // ------------------------------------------------------------ script choice

  /** `scripts.find(s => s.status === 'ready')`. */
  function FirstReady(scripts: seq<Script>): (r: Option<Script>)
    ensures r.None? <==> forall i :: 0 <= i < |scripts| ==> scripts[i].status != Ready
    ensures r.Some? ==>
      exists k :: 0 <= k < |scripts| && scripts[k] == r.value && r.value.status == Ready &&
        forall j :: 0 <= j < k ==> scripts[j].status != Ready
    decreases |scripts|
  {
    if scripts == [] then None
    else if scripts[0].status == Ready then Some(scripts[0])
    else
      var r := FirstReady(scripts[1..]);
      assert forall j :: 1 <= j < |scripts| ==> scripts[j] == scripts[1..][j - 1];
      r
  }

  /**
   * The script on the page: the one whose id is the route parameter (an absent
   * parameter looks up the id ""), else the first ready script, else the first
   * script, else none.
   */
  function SelectScript(scripts: seq<Script>, routeId: Option<string>): (r: Option<Script>)
    ensures r.None? <==> scripts == []
    ensures r.Some? ==> r.value in scripts
  {
    match FindScript(scripts, routeId.GetOr(""))
    case Some(s) => Some(s)
    case None =>
      match FirstReady(scripts)
      case Some(s) => Some(s)
      case None => if scripts == [] then None else Some(scripts[0])
  }

  /** A script carrying the requested id wins: the first such script is rehearsed, whatever the statuses. */
  lemma SelectPrefersRouteId(scripts: seq<Script>, routeId: Option<string>, k: nat)
    requires k < |scripts| && scripts[k].id == routeId.GetOr("")
    requires forall j :: 0 <= j < k ==> scripts[j].id != routeId.GetOr("")
    ensures SelectScript(scripts, routeId) == Some(scripts[k])
  {
    var r := FindScript(scripts, routeId.GetOr(""));
    var k' :| 0 <= k' < |scripts| && scripts[k'] == r.value && r.value.id == routeId.GetOr("") &&
      forall j :: 0 <= j < k' ==> scripts[j].id != routeId.GetOr("");
    assert k' == k by {
      assert !(k' < k) && !(k < k');
    }
  }

  /** Without a script carrying the requested id, the page takes the first ready one. */
  lemma SelectFallsBackToReady(scripts: seq<Script>, routeId: Option<string>, k: nat)
    requires forall i :: 0 <= i < |scripts| ==> scripts[i].id != routeId.GetOr("")
    requires k < |scripts| && scripts[k].status == Ready
    requires forall j :: 0 <= j < k ==> scripts[j].status != Ready
    ensures SelectScript(scripts, routeId) == Some(scripts[k])
  {
    var r := FirstReady(scripts);
    var k' :| 0 <= k' < |scripts| && scripts[k'] == r.value && r.value.status == Ready &&
      forall j :: 0 <= j < k' ==> scripts[j].status != Ready;
    assert k' == k by {
      assert !(k' < k) && !(k < k');
    }
  }

  /** With no matching id and nothing ready, the first script is rehearsed. */
  lemma SelectFallsBackToFirst(scripts: seq<Script>, routeId: Option<string>)
    requires scripts != []
    requires forall i :: 0 <= i < |scripts| ==> scripts[i].id != routeId.GetOr("")
    requires forall i :: 0 <= i < |scripts| ==> scripts[i].status != Ready
    ensures SelectScript(scripts, routeId) == Some(scripts[0])
  {
  }

  // ------------------------------------------------------------ AI lines

  /** `script.characters.find(c => c.assignedTo === 'ai')`. */
  function FirstAi(characters: seq<Character>): (r: Option<Character>)
    ensures r.None? <==> forall i :: 0 <= i < |characters| ==> characters[i].assignedTo != Ai
    ensures r.Some? ==>
      exists k :: 0 <= k < |characters| && characters[k] == r.value && r.value.assignedTo == Ai &&
        forall j :: 0 <= j < k ==> characters[j].assignedTo != Ai
    decreases |characters|
  {
    if characters == [] then None
    else if characters[0].assignedTo == Ai then Some(characters[0])
    else
      var r := FirstAi(characters[1..]);
      assert forall j :: 1 <= j < |characters| ==> characters[j] == characters[1..][j - 1];
      r
  }

  /** `line?.characterName === aiCharacter?.name` for a line that exists. */
  predicate IsAiLine(line: DialogueLine, ai: Option<Character>) {
    ai.Some? && line.characterName == ai.value.name
  }

  /**
   * A line is voiced by the AI exactly when its speaker's name is the name of
   * the first character assigned to the AI; lines of any later AI character
   * with another name wait for the user.
   */
  lemma AiLineIsFirstAiCharacter(characters: seq<Character>, line: DialogueLine)
    ensures IsAiLine(line, FirstAi(characters)) <==>
      exists k :: 0 <= k < |characters| && characters[k].assignedTo == Ai &&
        (forall j :: 0 <= j < k ==> characters[j].assignedTo != Ai) &&
        line.characterName == characters[k].name
  {
    var r := FirstAi(characters);
    if r.Some? {
      var k :| 0 <= k < |characters| && characters[k] == r.value && r.value.assignedTo == Ai &&
        forall j :: 0 <= j < k ==> characters[j].assignedTo != Ai;
      forall k' | 0 <= k' < |characters| && characters[k'].assignedTo == Ai &&
        (forall j :: 0 <= j < k' ==> characters[j].assignedTo != Ai)
        ensures k' == k
      {
        assert !(k' < k) && !(k < k');
      }
    }
  }

  // ------------------------------------------------------------ turn engine

  datatype Status = Idle | Listening | Countdown | Playing | Paused | Waiting | Completed

  /** The page's state cells: status, currentLineIndex, countdown and hasSpokenRef. */
  datatype Turn = Turn(status: Status, index: nat, countdown: nat, hasSpoken: bool)

  /** The handlers and effects that change the turn state. */
  datatype Event =
    | StartListening    // the Start button
    | ActionDetected    // "Action!" heard, or the skip button
    | CountdownEffect   // the countdown effect, with its one-second timer elapsed
    | PlayingEffect     // the effect that voices AI lines
    | SpeechEnded       // the callback handed to speak, on end or on error
    | UserLineComplete  // the "done with my line" button
    | Reset
    | TogglePause

  /** The state of a fresh page, and what reset returns to. */
  const Initial := Turn(Idle, 0, 3, false)

  /** togglePause: playing and paused swap, every other status stays. */
  function TogglePauseStatus(s: Status): Status {
    if s == Playing then Paused else if s == Paused then Playing else s
  }

  lemma TogglePauseSwapsOnly(s: Status)
    ensures TogglePauseStatus(TogglePauseStatus(s)) == s
    ensures TogglePauseStatus(s) != s <==> s == Playing || s == Paused
    ensures s == Playing <==> TogglePauseStatus(s) == Paused
  {
  }

  /**
   * One event applied to the turn state of a script with the given lines. The
   * speech-end callback does not look at the status: it clears hasSpoken, then
   * moves to the next line or completes the scene, whatever the status is.
   */
  function Step(lines: seq<DialogueLine>, ai: Option<Character>, t: Turn, ev: Event): (r: Turn)
    requires t.index < |lines|
    ensures r.index < |lines|
    ensures t.countdown <= 3 ==> r.countdown <= 3
  {
    match ev
    case StartListening => t.(status := Listening)
    case ActionDetected => t.(status := Countdown, countdown := 3, hasSpoken := false)
    case CountdownEffect =>
      if t.status == Countdown && t.countdown > 0 then t.(countdown := t.countdown - 1)
      else if t.status == Countdown && t.countdown == 0 then t.(status := Playing, index := 0)
      else t
    case PlayingEffect =>
      if t.status == Playing && !t.hasSpoken then
        if IsAiLine(lines[t.index], ai) then t.(hasSpoken := true) else t.(status := Waiting)
      else t
    case SpeechEnded =>
      if t.index < |lines| - 1 then t.(hasSpoken := false, index := t.index + 1)
      else t.(hasSpoken := false, status := Completed)
    case UserLineComplete =>
      if t.index < |lines| - 1 then t.(hasSpoken := false, index := t.index + 1, status := Playing)
      else t.(hasSpoken := false, status := Completed)
    case Reset => Initial
    case TogglePause => t.(status := TogglePauseStatus(t.status))
  }

  /** The text an event hands to the speech synthesiser, if any: only the playing effect on an AI line speaks. */
  function Utterance(lines: seq<DialogueLine>, ai: Option<Character>, t: Turn, ev: Event): (u: seq<string>)
    requires t.index < |lines|
    ensures |u| <= 1
    ensures u != [] ==> ev == PlayingEffect && t.status == Playing && IsAiLine(lines[t.index], ai)
  {
    if ev == PlayingEffect && t.status == Playing && !t.hasSpoken && IsAiLine(lines[t.index], ai)
    then [lines[t.index].text]
    else []
  }

  /** A sequence of events applied in order. */
  function Run(lines: seq<DialogueLine>, ai: Option<Character>, t: Turn, evs: seq<Event>): (r: Turn)
    requires t.index < |lines|
    ensures r.index < |lines|
    decreases |evs|
  {
    if evs == [] then t else Run(lines, ai, Step(lines, ai, t, evs[0]), evs[1..])
  }

  /** The texts spoken while a sequence of events is applied, in order. */
  function SpokenDuring(lines: seq<DialogueLine>, ai: Option<Character>, t: Turn, evs: seq<Event>): seq<string>
    requires t.index < |lines|
    decreases |evs|
  {
    if evs == [] then []
    else Utterance(lines, ai, t, evs[0]) + SpokenDuring(lines, ai, Step(lines, ai, t, evs[0]), evs[1..])
  }

  /** The countdown never exceeds its starting value 3, whatever the events. */
  lemma {:induction false} RunKeepsCountdown(lines: seq<DialogueLine>, ai: Option<Character>, t: Turn, evs: seq<Event>)
    requires t.index < |lines| && t.countdown <= 3
    ensures Run(lines, ai, t, evs).countdown <= 3
    decreases |evs|
  {
    if evs != [] {
      RunKeepsCountdown(lines, ai, Step(lines, ai, t, evs[0]), evs[1..]);
    }
  }

  /** Running two sequences of events one after the other is running their concatenation. */
  lemma {:induction false} RunAppend(lines: seq<DialogueLine>, ai: Option<Character>, t: Turn, a: seq<Event>, b: seq<Event>)
    requires t.index < |lines|
    ensures Run(lines, ai, t, a + b) == Run(lines, ai, Run(lines, ai, t, a), b)
    ensures SpokenDuring(lines, ai, t, a + b) ==
      SpokenDuring(lines, ai, t, a) + SpokenDuring(lines, ai, Run(lines, ai, t, a), b)
    decreases |a|
  {
    if a == [] {
      assert a + b == b;
    } else {
      assert (a + b)[0] == a[0] && (a + b)[1..] == a[1..] + b;
      RunAppend(lines, ai, Step(lines, ai, t, a[0]), a[1..], b);
    }
  }

  /** Action, then four countdown effects: 3, 2, 1, 0 and the scene starts at the first line. */
  lemma CountdownStartsScene(lines: seq<DialogueLine>, ai: Option<Character>, t: Turn)
    requires t.index < |lines|
    ensures Run(lines, ai, t, [ActionDetected, CountdownEffect, CountdownEffect, CountdownEffect, CountdownEffect])
      == Turn(Playing, 0, 0, false)
  {
    var evs := [ActionDetected, CountdownEffect, CountdownEffect, CountdownEffect, CountdownEffect];
    var t1 := Step(lines, ai, t, ActionDetected);
    assert t1 == Turn(Countdown, t.index, 3, false);
    assert evs[1..] == [CountdownEffect, CountdownEffect, CountdownEffect, CountdownEffect];
    assert evs[1..][1..] == [CountdownEffect, CountdownEffect, CountdownEffect];
    assert evs[1..][1..][1..] == [CountdownEffect, CountdownEffect];
    assert evs[1..][1..][1..][1..] == [CountdownEffect];
  }

  /** Reset returns to the initial state from every state. */
  lemma ResetFromAnyState(lines: seq<DialogueLine>, ai: Option<Character>, t: Turn)
    requires t.index < |lines|
    ensures Step(lines, ai, t, Reset) == Initial
    ensures Initial.status == Idle && Initial.index == 0 && Initial.countdown == 3 && !Initial.hasSpoken
  {
  }

  /**
   * The speech-end callback ignores the status: an AI line that finishes while
   * the scene is paused still moves to the next line, and on the last line it
   * completes the scene.
   */
  lemma SpeechEndWhilePaused(lines: seq<DialogueLine>, ai: Option<Character>, t: Turn)
    requires t.index < |lines| && t.status == Paused
    ensures t.index < |lines| - 1 ==> Step(lines, ai, t, SpeechEnded) == t.(hasSpoken := false, index := t.index + 1)
    ensures t.index == |lines| - 1 ==> Step(lines, ai, t, SpeechEnded).status == Completed
  {
  }

  /** The two events that finish the line at index i: voice it or wait, then the matching end. */
  function LineEvents(lines: seq<DialogueLine>, ai: Option<Character>, i: nat): seq<Event>
    requires i < |lines|
  {
    [PlayingEffect, if IsAiLine(lines[i], ai) then SpeechEnded else UserLineComplete]
  }

  /** The events that finish every line from index i to the end. */
  function SceneEvents(lines: seq<DialogueLine>, ai: Option<Character>, i: nat): seq<Event>
    requires i <= |lines|
    decreases |lines| - i
  {
    if i == |lines| then [] else LineEvents(lines, ai, i) + SceneEvents(lines, ai, i + 1)
  }

  /** The texts of the AI lines from index i to the end, in script order. */
  function AiTexts(lines: seq<DialogueLine>, ai: Option<Character>, i: nat): seq<string>
    requires i <= |lines|
    decreases |lines| - i
  {
    if i == |lines| then []
    else (if IsAiLine(lines[i], ai) then [lines[i].text] else []) + AiTexts(lines, ai, i + 1)
  }

  /** Finishing one line from a playing state that has not spoken yet. */
  lemma LineTurn(lines: seq<DialogueLine>, ai: Option<Character>, t: Turn)
    requires t.index < |lines| && t.status == Playing && !t.hasSpoken
    ensures Run(lines, ai, t, LineEvents(lines, ai, t.index)) ==
      if t.index < |lines| - 1 then t.(index := t.index + 1) else t.(status := Completed)
    ensures SpokenDuring(lines, ai, t, LineEvents(lines, ai, t.index)) ==
      if IsAiLine(lines[t.index], ai) then [lines[t.index].text] else []
  {
    var evs := LineEvents(lines, ai, t.index);
    var t1 := Step(lines, ai, t, evs[0]);
    var t2 := Step(lines, ai, t1, evs[1]);
    assert evs[1..][0] == evs[1] && evs[1..][1..] == [];
    assert Run(lines, ai, t1, evs[1..]) == Run(lines, ai, t2, []) == t2;
    assert SpokenDuring(lines, ai, t1, evs[1..]) == Utterance(lines, ai, t1, evs[1]) + [];
  }

  /**
   * From the playing state at line i, voicing every AI line and delivering
   * every user line completes the scene on the last line, and the synthesiser
   * is handed exactly the AI lines' texts, each once, in script order.
   */
  lemma {:induction false} SceneCompletes(lines: seq<DialogueLine>, ai: Option<Character>, t: Turn)
    requires t.index < |lines| && t.status == Playing && !t.hasSpoken
    ensures Run(lines, ai, t, SceneEvents(lines, ai, t.index)) == t.(status := Completed, index := |lines| - 1)
    ensures SpokenDuring(lines, ai, t, SceneEvents(lines, ai, t.index)) == AiTexts(lines, ai, t.index)
    decreases |lines| - t.index
  {
    var line := LineEvents(lines, ai, t.index);
    var rest := SceneEvents(lines, ai, t.index + 1);
    assert SceneEvents(lines, ai, t.index) == line + rest;
    RunAppend(lines, ai, t, line, rest);
    LineTurn(lines, ai, t);
    if t.index < |lines| - 1 {
      SceneCompletes(lines, ai, t.(index := t.index + 1));
    } else {
      assert rest == [];
    }
  }

  /**
   * The page's turn state over the script being rehearsed. The page renders
   * nothing to rehearse for a script without lines, so the engine is built for
   * scripts that have lines.
   */
  class TurnEngine {
    const lines: seq<DialogueLine>
    /** The first character assigned to the AI, if any. */
    const ai: Option<Character>
    var status: Status
    var index: nat
    var countdown: nat
    var hasSpoken: bool
    /** The texts handed to the speech synthesiser, oldest first. */
    var spoken: seq<string>
    /** Whether a line is being voiced: speak was called and neither its end nor stop has come. */
    var speaking: bool

    function State(): Turn
      reads this
    {
      Turn(status, index, countdown, hasSpoken)
    }

    /** The line index stays on a line of the script and the countdown within 0..3. */
    ghost predicate Valid()
      reads this
    {
      index < |lines| && countdown <= 3
    }

    constructor (script: Script)
      requires |script.lines| > 0
      ensures lines == script.lines && ai == FirstAi(script.characters)
      ensures Valid() && State() == Initial && spoken == [] && !speaking
    {
      lines := script.lines;
      ai := FirstAi(script.characters);
      status, index, countdown, hasSpoken := Idle, 0, 3, false;
      spoken, speaking := [], false;
    }

    method StartListening()
      requires Valid()
      modifies this`status
      ensures Valid() && State() == Step(lines, ai, old(State()), Event.StartListening)
      ensures status == Listening
    {
      status := Listening;
    }

    /** "Action!" detected or skipped to: a fresh countdown from 3 with nothing spoken. */
    method ActionDetected()
      requires Valid()
      modifies this`status, this`countdown, this`hasSpoken
      ensures Valid() && State() == Step(lines, ai, old(State()), Event.ActionDetected)
      ensures status == Countdown && countdown == 3 && !hasSpoken && index == old(index)
    {
      status, countdown, hasSpoken := Countdown, 3, false;
    }

    /** The countdown effect: a positive counter drops by one; at 0 the scene plays from the first line. */
    method CountdownEffect()
      requires Valid()
      modifies this`status, this`countdown, this`index
      ensures Valid() && State() == Step(lines, ai, old(State()), Event.CountdownEffect)
    {
      if status == Countdown && countdown > 0 {
        countdown := countdown - 1;
      } else if status == Countdown && countdown == 0 {
        status, index := Playing, 0;
      }
    }

    /** The speaking effect: an AI line is voiced once; any other line waits for the user. */
    method PlayingEffect()
      requires Valid()
      modifies this`status, this`hasSpoken, this`spoken, this`speaking
      ensures Valid() && State() == Step(lines, ai, old(State()), Event.PlayingEffect)
      ensures spoken == old(spoken) + Utterance(lines, ai, old(State()), Event.PlayingEffect)
      ensures speaking == (old(speaking) || spoken != old(spoken))
    {
      if status == Playing && !hasSpoken {
        var line := lines[index];
        if IsAiLine(line, ai) {
          hasSpoken := true;
          spoken := spoken + [line.text];
          speaking := true;
        } else {
          status := Waiting;
        }
      }
    }

    /** The callback given to speak, run when the utterance ends or fails; it does not check the status. */
    method SpeechEnded()
      requires Valid()
      modifies this`status, this`hasSpoken, this`index, this`speaking
      ensures Valid() && State() == Step(lines, ai, old(State()), Event.SpeechEnded)
      ensures !speaking
    {
      speaking := false;
      hasSpoken := false;
      if index < |lines| - 1 {
        index := index + 1;
      } else {
        status := Completed;
      }
    }

    /** handleUserLineComplete: the next line plays, or the scene completes after the last one. */
    method UserLineComplete()
      requires Valid()
      modifies this`status, this`hasSpoken, this`index
      ensures Valid() && State() == Step(lines, ai, old(State()), Event.UserLineComplete)
    {
      hasSpoken := false;
      if index < |lines| - 1 {
        index := index + 1;
        status := Playing;
      } else {
        status := Completed;
      }
    }

    /** reset: stop speaking and return to the initial state. */
    method Reset()
      requires Valid()
      modifies this`status, this`hasSpoken, this`index, this`countdown, this`speaking
      ensures Valid() && State() == Step(lines, ai, old(State()), Event.Reset)
      ensures State() == Initial && !speaking
    {
      speaking := false;
      hasSpoken := false;
      status, index, countdown := Idle, 0, 3;
    }

    method TogglePause()
      requires Valid()
      modifies this`status
      ensures Valid() && State() == Step(lines, ai, old(State()), Event.TogglePause)
    {
      if status == Playing {
        status := Paused;
      } else if status == Paused {
        status := Playing;
      }
    }
  }

  /** Pausing during an AI line on the last line does not stop the callback from completing the scene. */
  method PauseDuringLastAiLine(engine: TurnEngine)
    requires engine.Valid() && engine.status == Playing && engine.index == |engine.lines| - 1
    modifies engine
  {
    engine.TogglePause();
    assert engine.status == Paused;
    engine.SpeechEnded();
    assert engine.status == Completed;
  }
}
