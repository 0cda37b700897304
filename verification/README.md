# Scene-partner rehearsal app: a verified model of its logic

The app lets an actor upload a script, pick which characters they will play
and which an AI voice will read, and then rehearse the scene line by line.
The AI voices its lines through speech synthesis. The actor's own delivery is
transcribed and scored against the expected line.

This project models the behaviour behind those screens in Dafny, without the
React rendering and the browser and network plumbing. Each source file of the
core becomes one module:

- `Asr` (`src/hooks/useASR.ts`)
  - How a line is tokenised: lower-cased, punctuation other than `'` dropped, split on whitespace.
  - How a delivery is scored: matched, missed and extra words, word-match rate, and accuracy with the extra-word penalty.
  - The recognition session's transcript buffers, flags and resource handles, as the `SpeechSession` class.
- `Rehearsal` (`src/pages/RehearsalPage.tsx`)
  - Which script the page rehearses.
  - The status / line-index / countdown / has-spoken state machine, as a pure `Step` function and the `TurnEngine` class that follows it.
- `ScriptsContext` (`src/context/ScriptsContext.tsx`)
  - The dialogue extraction that follows the pattern scan: numbered lines, per-character counts in first-appearance order, and the placeholder cast.
  - The script store (`addScript`, `deleteScript`, `getScript`, `updateScript`) as the `ScriptStore` class.
- `AssignCharacters` (`src/pages/AssignCharactersPage.tsx`): the role cycle, voice choice, the `canProceed` gate and the Start Rehearsal update.
- `PerformanceMetrics` (`src/components/rehearsal/PerformanceMetrics.tsx`): session averages, total time, colour tiers and the badges.
- `ElevenLabsTts` (`src/hooks/useElevenLabsTTS.ts`): voice-key resolution, and the audio element / object URL hand-off, as the `Player` class.
- `Speech` (`src/hooks/useSpeech.ts`): the 32-bit string hash, `clamp`, option normalisation, voice-pool choice and the `Speaker` class.
- `ScriptUploader` (`src/components/scripts/ScriptUploader.tsx`): which files are accepted, plus the drag and processing flags, as the `Uploader` class.
- `VoicesPage` (`src/pages/VoicesPage.tsx`): grouping the voice catalogue by category.
- Shared modules:
  - `ScriptTypes` transcribes `src/types/script.ts`.
  - `Prelude` holds the JavaScript built-ins the app relies on: `toLowerCase`, `trim`, the `\s` and `\w` classes, `Math.round`, `String(n)`, and the first-occurrence order of `[...new Set(xs)]`.

Calls out to the browser or the network are not modelled as calls. These are
the WebSocket, the microphone, the TTS request, the audio element and the
speech synthesiser. Their completions are methods the caller invokes: for
example `SocketOpened`, `AudioReady` and `OnEnd`. What the code asks of them
is recorded in an `effects` sequence, in order. Clock readings (`Date.now()`)
are parameters. The regular-expression scan in `parseScriptText` is an input:
the sequence of (name, dialogue) matches it yields.

Some behaviours are kept exactly as the code has them:

- The speech-end callback on the rehearsal page does not look at the status. An AI line that ends while the scene is paused still advances the line, and can complete the scene (`Rehearsal.SpeechEndWhilePaused`).
- `useSpeech` runs `onEnd` when an utterance fails as well as when it ends. A failure includes being cancelled by a later `speak`, and each utterance runs the callback of the call that queued it.
- `stopListening` does not clear the transcript buffers. A second stop scores the same text again (`Asr.StopTwice`).
- File acceptance tests extensions case-sensitively. `SCENE.PDF` with no MIME type is turned away (`ScriptUploader.UpperCaseExtensionRejected`).
- The voice catalogue's ids are `v1` to `v8`, but the ElevenLabs voice map is keyed `voice-1` to `voice-6`. Catalogue ids therefore always take the character-code-sum fallback, and `v1`/`v7` and `v2`/`v8` get the same voice (`ElevenLabsTts.CatalogueIdsCollide`). No page uses this hook; the rehearsal page speaks through `useSpeech`.
- `Math.round(p / q)` is modelled as exact half-up rounding of the rational `p / q`.

## Model

| member | source | states |
|---|---|---|
| Asr.StripPunctuation | src/hooks/useASR.ts:24 | every character kept is a word character, whitespace or `'` taken from the input; an input made only of such characters is returned unchanged |
| Asr.SplitWords | src/hooks/useASR.ts:25-26 | splitting on whitespace runs and dropping empty pieces yields only non-empty words |
| Asr.SplitWordsChars | src/hooks/useASR.ts:25-26 | no word holds whitespace, and each of its characters comes from the input |
| Asr.NormalizeText | src/hooks/useASR.ts:21-27 | normalizeText: lower-case, strip punctuation, split on whitespace; its tokens are characterised by Asr.NormalizeTokens and Asr.NormalizeIdempotent |
| Asr.NormalizeTokens | src/hooks/useASR.ts:21-27 | every token of a normalised line is non-empty and made only of lower-case letters, digits, `_` and `'` |
| Asr.SplitOfJoin | src/hooks/useASR.ts:25-26 | splitting the space-join of non-empty, space-free words gives the words back |
| Asr.NormalizeIdempotent | src/hooks/useASR.ts:21-27 | normalising the space-join of a normalised line gives the same tokens again |
| Asr.Among | src/hooks/useASR.ts:41-47 | every matched word is an expected token that was spoken; how often and in what order is stated by Asr.AmongCounts and Asr.AmongAppend |
| Asr.NotAmong | src/hooks/useASR.ts:41-54 | every missed (or extra) word is a token absent from the other side's set; how often and in what order is stated by Asr.NotAmongCounts and Asr.NotAmongAppend |
| Asr.AmongCounts | src/hooks/useASR.ts:41-47 | a word occurs among the matched words exactly as often as among the expected tokens when it was spoken, and not at all otherwise |
| Asr.NotAmongCounts | src/hooks/useASR.ts:41-54 | a word occurs among the missed (or extra) words exactly as often as among the tokens when the other side lacks it, and not at all otherwise |
| Asr.AmongAppend | src/hooks/useASR.ts:41-47 | the matched words of a concatenation are the matched words of each part, in order |
| Asr.NotAmongAppend | src/hooks/useASR.ts:41-54 | the missed (or extra) words of a concatenation are those of each part, in order |
| Asr.AmongPartition | src/hooks/useASR.ts:41-47 | matched and missed split the expected tokens: their sizes add up, and every absent token is missed |
| Asr.AmongOfSubset | src/hooks/useASR.ts:41-47 | when every expected token was spoken, all are matched and none missed |
| Asr.SplitExpected | src/hooks/useASR.ts:41-47 | the forEach loop builds exactly the matched and missed lists |
| Asr.CollectExtra | src/hooks/useASR.ts:50-54 | the forEach loop builds exactly the extra-word list |
| Asr.MetricsOfWords | src/hooks/useASR.ts:33-75 | the loop-built metrics equal the scoring function on the token lists |
| Asr.ScoreWords | src/hooks/useASR.ts:41-73 | calculateMetrics over two token lists; characterised by Asr.ScoreCounts, Asr.ScoreBounds, Asr.ScoreWordLists and Asr.ScoreWordOrder |
| Asr.Score | src/hooks/useASR.ts:29-31 | calculateMetrics: both texts are normalised and then scored; Asr.CalculateMetrics is proved equal to it |
| Asr.CalculateMetrics | src/hooks/useASR.ts:29-75 | calculateMetrics equals the scoring of the two normalised texts |
| Asr.ScoreCounts | src/hooks/useASR.ts:41-71 | expected and spoken counts are token counts; matched plus the missed count before de-duplication is the expected count; the time passes through |
| Asr.ScoreBounds | src/hooks/useASR.ts:56-68 | word-match rate and accuracy lie in 0..100, and accuracy never exceeds the word-match rate |
| Asr.ScoreOfEmptyExpected | src/hooks/useASR.ts:56-64 | an expected line with no tokens scores 0 on both measures and misses nothing |
| Asr.ScoreWordLists | src/hooks/useASR.ts:41-73 | missed and extra words have no duplicates; a word is missed iff expected and unspoken, extra iff spoken and unexpected |
| Asr.ScoreWordOrder | src/hooks/useASR.ts:72-73 | missed and extra words keep the order in which each first went missing or extra |
| Asr.ScoreOfExactDelivery | src/hooks/useASR.ts:29-75 | speaking exactly the expected tokens scores 100 and 100, misses nothing, adds nothing, and keeps the time |
| Asr.SpokenText | src/hooks/useASR.ts:221-225 | the trimmed, space-joined text is empty iff both buffers are blank |
| Asr.StopResult | src/hooks/useASR.ts:219-232 | stopping yields no metrics iff both buffers are blank; otherwise the metrics carry the elapsed time |
| Asr.StopAfterExactDelivery | src/hooks/useASR.ts:219-232 | stopping after a transcript whose tokens are the expected ones scores 100 on both measures with nothing missed |
| Asr.SpeechSession.constructor | src/hooks/useASR.ts:79-90 | a new session is idle, holds no handle and has empty buffers and no error |
| Asr.SpeechSession.StartListening | src/hooks/useASR.ts:113-120 | starting clears the error and both buffers, sets connecting, and records the expected line and the start time |
| Asr.SpeechSession.MicrophoneGranted | src/hooks/useASR.ts:130-138 | the media stream is held |
| Asr.SpeechSession.SocketCreated | src/hooks/useASR.ts:141-144 | the socket is held |
| Asr.SpeechSession.SocketOpened | src/hooks/useASR.ts:146-180 | the audio pipeline is held, connecting ends and listening starts |
| Asr.SpeechSession.OnMessage | src/hooks/useASR.ts:182-197 | a partial replaces the pending text; a commit appends a space and its text to the final text and clears the pending one; other messages change nothing |
| Asr.SpeechSession.SocketClosed | src/hooks/useASR.ts:206-209 | closing drops the listening and connecting flags |
| Asr.SpeechSession.Cleanup | src/hooks/useASR.ts:92-111 | cleanup releases exactly the handles that were held, in order, and leaves nothing held, listening or connecting; a listening session releases all four handles |
| Asr.SpeechSession.StartFailed | src/hooks/useASR.ts:211-216 | a failed start records the message and cleans up |
| Asr.SpeechSession.SocketError | src/hooks/useASR.ts:199-204 | a socket error records "Connection error occurred" and cleans up |
| Asr.SpeechSession.StopListening | src/hooks/useASR.ts:219-232 | stopping always cleans up, leaves both buffers untouched, and returns the stop result for the elapsed time; stopping while listening releases all four handles |
| Rehearsal.FirstReady | src/pages/RehearsalPage.tsx:23 | finds the first ready script, and finds none iff no script is ready |
| Rehearsal.SelectScript | src/pages/RehearsalPage.tsx:23 | the page has a script iff the list is non-empty, and it is one of the listed scripts |
| Rehearsal.SelectPrefersRouteId | src/pages/RehearsalPage.tsx:23 | the first script carrying the route id ("" when there is none) is chosen, whatever the statuses |
| Rehearsal.SelectFallsBackToReady | src/pages/RehearsalPage.tsx:23 | with no script carrying the route id, the first ready script is chosen |
| Rehearsal.SelectFallsBackToFirst | src/pages/RehearsalPage.tsx:23 | with no id match and nothing ready, the first script is chosen |
| Rehearsal.FirstAi | src/pages/RehearsalPage.tsx:44 | finds the first character assigned to the AI, and finds none iff there is none |
| Rehearsal.IsAiLine | src/pages/RehearsalPage.tsx:72 | the AI voices a line when its speaker is named like the AI character; characterised by Rehearsal.AiLineIsFirstAiCharacter |
| Rehearsal.AiLineIsFirstAiCharacter | src/pages/RehearsalPage.tsx:72 | a line is voiced by the AI iff its speaker has the name of the first AI-assigned character |
| Rehearsal.TogglePauseSwapsOnly | src/pages/RehearsalPage.tsx:110-116 | toggling twice restores the status; only playing and paused change, into each other |
| Rehearsal.Step | src/pages/RehearsalPage.tsx:47-116 | every event keeps the line index on a line of the script and the countdown within 3 |
| Rehearsal.Utterance | src/pages/RehearsalPage.tsx:69-84 | at most one text is spoken per event, and only by the playing effect on an AI line |
| Rehearsal.Run | src/pages/RehearsalPage.tsx:47-116 | any sequence of events keeps the line index on a line of the script |
| Rehearsal.RunKeepsCountdown | src/pages/RehearsalPage.tsx:51-66 | the countdown never exceeds 3, whatever the events |
| Rehearsal.RunAppend | src/pages/RehearsalPage.tsx:47-116 | running two event sequences in turn is running their concatenation, and the spoken texts concatenate too |
| Rehearsal.CountdownStartsScene | src/pages/RehearsalPage.tsx:51-66 | "Action!" then four countdown steps starts playing at the first line with nothing spoken |
| Rehearsal.ResetFromAnyState | src/pages/RehearsalPage.tsx:102-108 | reset from any state gives idle, line 0, countdown 3, nothing spoken |
| Rehearsal.SpeechEndWhilePaused | src/pages/RehearsalPage.tsx:77-84 | a line that ends while paused still advances the index, or completes the scene on the last line |
| Rehearsal.LineTurn | src/pages/RehearsalPage.tsx:69-100 | finishing one line advances to the next or completes the scene, and speaks the line iff it is an AI line |
| Rehearsal.SceneCompletes | src/pages/RehearsalPage.tsx:69-100 | playing through from any line completes the scene on the last line and speaks exactly the AI lines' texts, once each, in order |
| Rehearsal.TurnEngine.constructor | src/pages/RehearsalPage.tsx:18-20 | a fresh page is idle on line 0 with countdown 3 and nothing spoken |
| Rehearsal.TurnEngine.StartListening | src/pages/RehearsalPage.tsx:47-49 | the status becomes listening |
| Rehearsal.TurnEngine.ActionDetected | src/pages/RehearsalPage.tsx:51-55 | a fresh countdown from 3 with the has-spoken guard cleared |
| Rehearsal.TurnEngine.CountdownEffect | src/pages/RehearsalPage.tsx:58-66 | a positive countdown drops by one; at 0 the scene plays from line 0 |
| Rehearsal.TurnEngine.PlayingEffect | src/pages/RehearsalPage.tsx:69-90 | an AI line is spoken once and marked; any other line waits for the user |
| Rehearsal.TurnEngine.SpeechEnded | src/pages/RehearsalPage.tsx:77-84 | clears the guard and advances, or completes on the last line, whatever the status |
| Rehearsal.TurnEngine.UserLineComplete | src/pages/RehearsalPage.tsx:92-100 | advances and plays, or completes on the last line |
| Rehearsal.TurnEngine.Reset | src/pages/RehearsalPage.tsx:102-108 | speech stops and the state returns to the initial one |
| Rehearsal.TurnEngine.TogglePause | src/pages/RehearsalPage.tsx:110-116 | playing and paused swap; every other status stays |
| ScriptsContext.Slug | src/context/ScriptsContext.tsx:34 | the character id of a name; characterised by ScriptsContext.SlugShape and ScriptsContext.SlugOfTwoWords |
| ScriptsContext.SlugShape | src/context/ScriptsContext.tsx:34 | a character id starts with "char-" and holds no whitespace and no upper-case letter |
| ScriptsContext.SlugOfTwoWords | src/context/ScriptsContext.tsx:34 | a whitespace run between two words becomes a single dash |
| ScriptsContext.DialogueMatchesKept | src/context/ScriptsContext.tsx:26-29 | every kept match has non-empty trimmed dialogue and comes from the scan |
| ScriptsContext.ParsedLines | src/context/ScriptsContext.tsx:25-42 | one line per kept match |
| ScriptsContext.LinesOfAt | src/context/ScriptsContext.tsx:26-39 | the k-th line carries the k-th kept match's trimmed name and text with order k+1 |
| ScriptsContext.ParsedLinesSnoc | src/context/ScriptsContext.tsx:25-42 | one more match adds one line iff its trimmed dialogue is non-empty |
| ScriptsContext.ScanSkip | src/context/ScriptsContext.tsx:26-29 | a match with blank dialogue adds no line and uses no order number |
| ScriptsContext.ScanKeep | src/context/ScriptsContext.tsx:26-40 | a match with dialogue appends its line with the next order number |
| ScriptsContext.ParsedLinesNumbered | src/context/ScriptsContext.tsx:23-40 | lines are numbered 1..n without gaps, with id "line-" + order, type dialogue, the slug id and trimmed non-empty text |
| ScriptsContext.LineIdsDistinct | src/context/ScriptsContext.tsx:33 | no two lines share an id |
| ScriptsContext.CharactersOf | src/context/ScriptsContext.tsx:55-60 | one unassigned character per key, with the key's slug id and its line count |
| ScriptsContext.CharactersOfNames | src/context/ScriptsContext.tsx:55-60 | the characters have distinct names, are unassigned, have no voice, and each has at least one line |
| ScriptsContext.CharactersCoverNames | src/context/ScriptsContext.tsx:55-60 | every speaking name has its character, with its slug id and its count |
| ScriptsContext.CharactersFor | src/context/ScriptsContext.tsx:30-60 | the characters of a parsed script; characterised by ScriptsContext.CharactersOfLines and ScriptsContext.CharactersOfNoLines |
| ScriptsContext.CharactersOfLines | src/context/ScriptsContext.tsx:30-60 | with dialogue, one character per distinct name, covering every line's name and id, with line counts summing to the number of lines |
| ScriptsContext.CharactersOfNoLines | src/context/ScriptsContext.tsx:45-53 | with no dialogue, exactly the two placeholders "CHARACTER 1" and "CHARACTER 2" with no lines |
| ScriptsContext.CountMapCounts | src/context/ScriptsContext.tsx:30 | the count map has a key for exactly the names seen, holding how often each was seen |
| ScriptsContext.CharactersFromCounts | src/context/ScriptsContext.tsx:55-60 | entries of the count map, in first-appearance key order, give the same characters as counting the names directly |
| ScriptsContext.ScanOfMeans | src/context/ScriptsContext.tsx:25-42 | after any prefix of the matches, the scan holds the parsed lines, the count map, the names in first-appearance order and the next order number |
| ScriptsContext.ScanOne | src/context/ScriptsContext.tsx:26-41 | one loop iteration performs one scan step |
| ScriptsContext.ScanMatches | src/context/ScriptsContext.tsx:25-42 | the while loop ends with the parsed lines, the count of each name and the names in first-appearance order |
| ScriptsContext.ParseScriptText | src/context/ScriptsContext.tsx:16-63 | returns the parsed lines and the characters for them |
| ScriptsContext.StripScriptExtension | src/context/ScriptsContext.tsx:74 | the title is a prefix of the file name |
| ScriptsContext.StripOfExtension | src/context/ScriptsContext.tsx:74 | one trailing .pdf, .txt or .fountain, in any letter case, is removed |
| ScriptsContext.StripKeepsOtherNames | src/context/ScriptsContext.tsx:74 | a name without such an ending is kept whole |
| ScriptsContext.WithoutScript | src/context/ScriptsContext.tsx:88 | deleting removes every script with the id and keeps every other script |
| ScriptsContext.WithoutScriptAppend | src/context/ScriptsContext.tsx:88 | deletion works piecewise over a split list, so the survivors keep their order |
| ScriptsContext.WithoutAbsentScript | src/context/ScriptsContext.tsx:88 | deleting an id no script has changes nothing |
| ScriptsContext.FindScript | src/context/ScriptsContext.tsx:92 | lookup finds the first script with the id, and finds none iff there is none |
| ScriptsContext.FindAfterDelete | src/context/ScriptsContext.tsx:88-92 | after deleting an id, looking it up finds nothing |
| ScriptsContext.ApplyPatch | src/context/ScriptsContext.tsx:97 | every field the update supplies replaces the script's, every field it leaves out keeps its value, and updatedAt becomes the update time |
| ScriptsContext.ApplyPatchTwice | src/context/ScriptsContext.tsx:97 | applying the same patch twice is applying it once at the later time |
| ScriptsContext.ApplyEmptyPatch | src/context/ScriptsContext.tsx:97 | an empty patch changes only the time stamp |
| ScriptsContext.PatchScripts | src/context/ScriptsContext.tsx:95-98 | the update keeps the list's length, patches every script with the id and leaves the others untouched |
| ScriptsContext.FindAfterPatch | src/context/ScriptsContext.tsx:92-98 | after an update that does not change ids, looking up the id finds the patched script |
| ScriptsContext.FindFirstAt | src/context/ScriptsContext.tsx:92 | lookup returns the first script carrying the id |
| ScriptsContext.ScriptStore.constructor | src/context/ScriptsContext.tsx:66 | the store starts with the given scripts |
| ScriptsContext.ScriptStore.AddScript | src/context/ScriptsContext.tsx:68-85 | the new script carries the parsed lines and characters, the time-stamped id, the stripped title and status parsed iff it has lines, and is prepended |
| ScriptsContext.ScriptStore.DeleteScript | src/context/ScriptsContext.tsx:87-89 | the store loses exactly the scripts with the id |
| ScriptsContext.ScriptStore.GetScript | src/context/ScriptsContext.tsx:91-93 | getScript is lookup in the store; characterised by ScriptsContext.FindScript, ScriptsContext.FindAfterDelete and ScriptsContext.FindAfterPatch |
| ScriptsContext.ScriptStore.UpdateScript | src/context/ScriptsContext.tsx:95-99 | the store is patched at exactly the scripts with the id |
| AssignCharacters.NextRole | src/pages/AssignCharactersPage.tsx:42-43 | the next role of a toggle; characterised by AssignCharacters.NextRoleCycles |
| AssignCharacters.NextRoleCycles | src/pages/AssignCharactersPage.tsx:42-43 | the role cycle user, ai, unassigned moves every role and returns after three steps |
| AssignCharacters.Toggled | src/pages/AssignCharactersPage.tsx:40-47 | the cast after a toggle has as many characters as before; characterised by AssignCharacters.ToggledAt and AssignCharacters.ToggleThrice |
| AssignCharacters.ToggledAt | src/pages/AssignCharactersPage.tsx:40-47 | a toggle changes only the role of the characters with the id; everything else stays |
| AssignCharacters.ToggleThrice | src/pages/AssignCharactersPage.tsx:40-47 | three toggles restore the cast |
| AssignCharacters.WithVoice | src/pages/AssignCharactersPage.tsx:56-61 | the cast after choosing a voice has as many characters as before; characterised by AssignCharacters.WithVoiceAt |
| AssignCharacters.WithVoiceAt | src/pages/AssignCharactersPage.tsx:56-61 | choosing a voice sets the voice of the characters with the id and nothing else |
| AssignCharacters.AnyUserMeans | src/pages/AssignCharactersPage.tsx:70 | some character is played by the user |
| AssignCharacters.AnyVoicedAiMeans | src/pages/AssignCharactersPage.tsx:71 | some AI character has a non-empty voice |
| AssignCharacters.CanProceed | src/pages/AssignCharactersPage.tsx:70-71 | the Start Rehearsal gate; characterised by AssignCharacters.CanProceedMeans |
| AssignCharacters.CanProceedMeans | src/pages/AssignCharactersPage.tsx:70-71 | the gate opens iff some character is the user's and some AI character has a voice; several user characters are allowed |
| AssignCharacters.WithVoiceKeepsGate | src/pages/AssignCharactersPage.tsx:54-71 | choosing a non-empty voice never closes an open gate |
| AssignCharacters.StartPatchApplied | src/pages/AssignCharactersPage.tsx:206 | applied to a script, Start Rehearsal's update replaces the cast, sets status ready, stamps the time, and keeps every other field |
| AssignCharacters.AssignPage.constructor | src/pages/AssignCharactersPage.tsx:17-24 | the page starts from the script's characters with the voice chooser closed |
| AssignCharacters.AssignPage.ToggleAssignment | src/pages/AssignCharactersPage.tsx:39-48 | the cast is toggled at the id |
| AssignCharacters.AssignPage.OpenVoiceSelector | src/pages/AssignCharactersPage.tsx:50-52 | the chooser opens for the id |
| AssignCharacters.AssignPage.CloseVoiceSelector | src/pages/AssignCharactersPage.tsx:185 | the chooser closes |
| AssignCharacters.AssignPage.SelectVoice | src/pages/AssignCharactersPage.tsx:54-64 | with the chooser open, its character gets the voice and the chooser closes; otherwise nothing changes |
| AssignCharacters.AssignPage.StartRehearsal | src/pages/AssignCharactersPage.tsx:201-207 | the store gets the edited cast and status ready at the script's id, and getScript then returns it |
| PerformanceMetrics.Average | src/components/rehearsal/PerformanceMetrics.tsx:15-21 | the session average, else the latest score, else 0; characterised by PerformanceMetrics.AverageWithin and PerformanceMetrics.AverageOfUniform |
| PerformanceMetrics.SumWithin | src/components/rehearsal/PerformanceMetrics.tsx:15-21 | a sum of percentages lies between 0 and 100 times the count |
| PerformanceMetrics.AverageWithin | src/components/rehearsal/PerformanceMetrics.tsx:15-21 | when every score is a percentage, so are both averages |
| PerformanceMetrics.AverageOfUniform | src/components/rehearsal/PerformanceMetrics.tsx:15-21 | a session whose every line scored v averages v |
| PerformanceMetrics.SumAppend | src/components/rehearsal/PerformanceMetrics.tsx:23-25 | the total over a split session is the sum of the parts' totals |
| PerformanceMetrics.TotalTime | src/components/rehearsal/PerformanceMetrics.tsx:23-25 | the session's total time, else the latest line's, else 0; characterised by PerformanceMetrics.TotalTimeGrows |
| PerformanceMetrics.TotalTimeGrows | src/components/rehearsal/PerformanceMetrics.tsx:23-25 | each completed line adds its time to the total and one to the line count |
| PerformanceMetrics.AccuracyColor | src/components/rehearsal/PerformanceMetrics.tsx:27-31 | getAccuracyColor's three tiers; characterised by PerformanceMetrics.TiersAgree and PerformanceMetrics.TiersMonotone |
| PerformanceMetrics.AccuracyBg | src/components/rehearsal/PerformanceMetrics.tsx:33-37 | getAccuracyBg's three tiers; characterised by PerformanceMetrics.TiersAgree |
| PerformanceMetrics.TiersAgree | src/components/rehearsal/PerformanceMetrics.tsx:27-37 | green iff at least 80, yellow iff 60..79, red below 60, and text and bar colours split at the same thresholds |
| PerformanceMetrics.TiersMonotone | src/components/rehearsal/PerformanceMetrics.tsx:27-37 | a higher score never lands in a lower tier |
| PerformanceMetrics.MissedPreview | src/components/rehearsal/PerformanceMetrics.tsx:105-106 | at most the first three missed words, with an ellipsis iff there are more than three |
| PerformanceMetrics.MissedBadge | src/components/rehearsal/PerformanceMetrics.tsx:102-108 | the missed badge shows iff some word was missed |
| PerformanceMetrics.GreatDelivery | src/components/rehearsal/PerformanceMetrics.tsx:109 | the "Great delivery!" badge; characterised by PerformanceMetrics.BadgesExclusive and PerformanceMetrics.ExactDeliveryIsGreat |
| PerformanceMetrics.BadgesExclusive | src/components/rehearsal/PerformanceMetrics.tsx:102-114 | the missed badge and "Great delivery!" never show together |
| PerformanceMetrics.ExactDeliveryIsGreat | src/components/rehearsal/PerformanceMetrics.tsx:109 | delivering the expected line exactly earns "Great delivery!", no missed badge and a green score |
| ElevenLabsTts.VoiceTableConsistent | src/hooks/useElevenLabsTTS.ts:7-15 | the six keys and ids in declaration order describe the voice map |
| ElevenLabsTts.ResolveVoiceId | src/hooks/useElevenLabsTTS.ts:51-64 | the voice id requested for a key; characterised by ElevenLabsTts.ResolveVoiceIdCases |
| ElevenLabsTts.ResolveVoiceIdCases | src/hooks/useElevenLabsTTS.ts:51-64 | an absent or empty key gives voice-1's id, a mapped key its id, a long unmapped key itself, and any other key one of the six ids |
| ElevenLabsTts.CharCodeSumOfAnagram | src/hooks/useElevenLabsTTS.ts:60 | the character-code sum ignores the order of the characters |
| ElevenLabsTts.AnagramsShareVoice | src/hooks/useElevenLabsTTS.ts:58-63 | two unmapped short keys with the same letters get the same voice |
| ElevenLabsTts.CatalogueIdResolves | src/hooks/useElevenLabsTTS.ts:58-63 | a catalogue id "v1".."v8" resolves by its code sum modulo 6 |
| ElevenLabsTts.CatalogueIdsCollide | src/hooks/useElevenLabsTTS.ts:58-63 | catalogue ids six apart get the same voice |
| ElevenLabsTts.Release | src/hooks/useElevenLabsTTS.ts:41-48 | the audio is paused iff held and the URL revoked iff held |
| ElevenLabsTts.Player.constructor | src/hooks/useElevenLabsTTS.ts:22-28 | a new player is silent, not loading, error-free and holds nothing |
| ElevenLabsTts.Player.Speak | src/hooks/useElevenLabsTTS.ts:35-77 | speak releases the previous audio and URL before requesting the text with the resolved voice id |
| ElevenLabsTts.Player.AudioReady | src/hooks/useElevenLabsTTS.ts:84-113 | the audio and its URL are held and playback is requested |
| ElevenLabsTts.Player.RequestFailed | src/hooks/useElevenLabsTTS.ts:114-120 | a failed request records the message, stops loading and speaking, and reports it |
| ElevenLabsTts.Player.OnPlay | src/hooks/useElevenLabsTTS.ts:91-94 | loading ends and speaking starts |
| ElevenLabsTts.Player.OnEnded | src/hooks/useElevenLabsTTS.ts:96-104 | speaking ends, the URL is revoked, then the per-call and the options' end callbacks run, in that order |
| ElevenLabsTts.Player.OnAudioError | src/hooks/useElevenLabsTTS.ts:106-111 | a playback failure records "Failed to play audio" and runs no end callback |
| ElevenLabsTts.Player.Stop | src/hooks/useElevenLabsTTS.ts:123-134 | stop releases what is held and leaves the player silent and idle |
| Speech.ToInt32 | src/hooks/useSpeech.ts:15 | `| 0` wraps to the signed 32-bit range, congruent modulo 2^32 |
| Speech.ToInt32OfInt32 | src/hooks/useSpeech.ts:15 | a value already in range is unchanged |
| Speech.ToInt32Wraps | src/hooks/useSpeech.ts:15 | 2^31 wraps to -2^31 and -2^31-1 wraps to 2^31-1 |
| Speech.HashFold | src/hooks/useSpeech.ts:12-16 | the running hash stays in the signed 32-bit range |
| Speech.HashOf | src/hooks/useSpeech.ts:12-18 | the hash is non-negative and at most 2^31 |
| Speech.HashOfEmpty | src/hooks/useSpeech.ts:12-18 | the empty string hashes to 0 |
| Speech.HashOfTwoChars | src/hooks/useSpeech.ts:12-18 | a two-character string hashes to 31 times the first code plus the second |
| Speech.HashString | src/hooks/useSpeech.ts:12-18 | the for loop computes the hash function |
| Speech.Clamp | src/hooks/useSpeech.ts:20-22 | the result lies in the range when the range is non-empty, and a value inside it is unchanged |
| Speech.BareArgumentSpeaksEnglish | src/hooks/useSpeech.ts:39-48 | without an options object there is no voice key, the language is "en", and an onEnd exists iff the argument is a function |
| Speech.WithLangMembers | src/hooks/useSpeech.ts:49-50 | the candidates are exactly the voices whose lower-cased language starts with the requested one |
| Speech.WithLangAppend | src/hooks/useSpeech.ts:49-50 | the candidates of a concatenation are the candidates of each part, so the filter keeps the voices' order |
| Speech.Pool | src/hooks/useSpeech.ts:47-51 | the pool the voice is taken from; characterised by Speech.PoolSpec and Speech.WithLangAppend |
| Speech.PoolSpec | src/hooks/useSpeech.ts:47-51 | the pool is empty iff there are no voices, holds only voices, is the candidates when there are any, and is every voice, in order, when none speaks the language |
| Speech.FirstGoogle | src/hooks/useSpeech.ts:59 | the first pool voice whose name contains "Google", none iff there is none |
| Speech.FirstEnglish | src/hooks/useSpeech.ts:60 | the first pool voice whose language starts with "en", none iff there is none |
| Speech.ChooseVoice | src/hooks/useSpeech.ts:53-63 | the chosen voice is in the pool, and none is chosen iff the pool is empty; each branch of the rule is stated by Speech.VoiceKeyPicksByHash, Speech.NoKeyPrefersGoogle, Speech.NoKeyFallsBackToEnglish and Speech.NoKeyFallsBackToFirst |
| Speech.VoiceKeyPicksByHash | src/hooks/useSpeech.ts:54-56 | with a key, the voice at hash(key) mod pool size is chosen, an index always in bounds |
| Speech.NoKeyPrefersGoogle | src/hooks/useSpeech.ts:57-61 | without a key, the first Google voice of the pool is chosen |
| Speech.NoKeyFallsBackToEnglish | src/hooks/useSpeech.ts:57-61 | without a key and with no Google voice in the pool, the first pool voice whose language starts with "en" is chosen |
| Speech.NoKeyFallsBackToFirst | src/hooks/useSpeech.ts:57-61 | without a key and with neither a Google nor an English voice in the pool, the first pool voice is chosen |
| Speech.Speaker.constructor | src/hooks/useSpeech.ts:25 | a new speaker is silent |
| Speech.Speaker.Speak | src/hooks/useSpeech.ts:37-86 | speak cancels ongoing speech, then utters the text with the chosen voice as a new utterance that keeps its own call's onEnd |
| Speech.Speaker.OnStart | src/hooks/useSpeech.ts:74 | speaking starts |
| Speech.Speaker.OnEnd | src/hooks/useSpeech.ts:75-78 | speaking ends and the ending utterance's own onEnd runs if its call gave one |
| Speech.Speaker.OnError | src/hooks/useSpeech.ts:79-82 | a failed or cancelled utterance also ends speaking and runs its own call's onEnd if given |
| Speech.Speaker.Stop | src/hooks/useSpeech.ts:90-93 | stop cancels speech and ends speaking |
| Speech.CallbackRunsOnEnd | src/hooks/useSpeech.ts:39-40 | a bare function argument is the onEnd option: speaking with it and ending runs the callback once |
| Speech.CallbackRunsOnError | src/hooks/useSpeech.ts:39-40 | a bare function argument also runs when the utterance fails |
| Speech.InterruptedUtteranceRunsOwnCallback | src/hooks/useSpeech.ts:43 | an utterance cancelled by a later speak runs its own call's callback; a later utterance without one ends silently |
| ScriptUploader.IsAccepted | src/components/scripts/ScriptUploader.tsx:38-43 | handleFile's acceptance test; characterised by ScriptUploader.AcceptedMeans |
| ScriptUploader.AcceptedMeans | src/components/scripts/ScriptUploader.tsx:38-43 | a file is accepted iff its MIME type mentions a valid type or its name ends in .fountain, .txt or .pdf |
| ScriptUploader.UpperCaseExtensionRejected | src/components/scripts/ScriptUploader.tsx:38-43 | "SCENE.PDF" with no MIME type is rejected |
| ScriptUploader.TxtNameAccepted | src/components/scripts/ScriptUploader.tsx:38-43 | a name ending in .txt is accepted whatever its MIME type |
| ScriptUploader.Uploader.constructor | src/components/scripts/ScriptUploader.tsx:10-12 | no highlight, no file, not processing |
| ScriptUploader.Uploader.DragOver | src/components/scripts/ScriptUploader.tsx:17-20 | the highlight turns on |
| ScriptUploader.Uploader.DragLeave | src/components/scripts/ScriptUploader.tsx:22-25 | the highlight turns off |
| ScriptUploader.Uploader.HandleFile | src/components/scripts/ScriptUploader.tsx:37-54 | a rejected file only raises the invalid-type toast; an accepted one is recorded and processing starts |
| ScriptUploader.Uploader.Drop | src/components/scripts/ScriptUploader.tsx:27-35 | the highlight turns off, and the dropped file, if any, is handled |
| ScriptUploader.Uploader.FileInput | src/components/scripts/ScriptUploader.tsx:82-87 | the chosen file, if any, is handled |
| ScriptUploader.Uploader.ClearFile | src/components/scripts/ScriptUploader.tsx:113 | "Upload Another" forgets the file |
| ScriptUploader.Uploader.ProcessSucceeded | src/components/scripts/ScriptUploader.tsx:56-80 | the script is prepended to the store, the toast reports its character count, navigation to its assignment page is scheduled, and processing ends |
| ScriptUploader.Uploader.ProcessFailed | src/components/scripts/ScriptUploader.tsx:71-79 | a failure toast, and processing ends |
| VoicesPage.Grouped | src/pages/VoicesPage.tsx:11-17 | the reduce into groups by category; characterised by VoicesPage.GroupedIsFilter and VoicesPage.GroupByCategory |
| VoicesPage.GroupedIsFilter | src/pages/VoicesPage.tsx:11-17 | the groups have a key for exactly the categories seen, and each group is the voices of its category in list order |
| VoicesPage.InCategoryMembers | src/pages/VoicesPage.tsx:11-17 | a voice is in a category's group iff it is listed with that category |
| VoicesPage.EachVoiceInOneGroup | src/pages/VoicesPage.tsx:11-17 | every voice is in its own category's group and in no other |
| VoicesPage.InCategoryAppend | src/pages/VoicesPage.tsx:15 | grouping a split list concatenates the groups, so voices keep their relative order |
| VoicesPage.InCategoryCount | src/pages/VoicesPage.tsx:12-15 | a group's size is the number of voices in its category |
| VoicesPage.NoEmptyGroup | src/pages/VoicesPage.tsx:12-15 | no group is empty |
| VoicesPage.GroupSizesSum | src/pages/VoicesPage.tsx:11-17 | the group sizes add up to the number of voices |
| VoicesPage.DisplayOrder | src/pages/VoicesPage.tsx:38 | the categories are listed once each, exactly the group keys, in order of first appearance |
| VoicesPage.GroupByCategory | src/pages/VoicesPage.tsx:11-17 | the reduce builds exactly the groups and the category order |
| VoicesPage.ShippedOrder | src/lib/mockData.ts:3-12 | the shipped catalogue lists Classic, Regional, International |
| VoicesPage.ShippedClassicGroup | src/lib/mockData.ts:3-12 | Classic holds v1, v2 |
| VoicesPage.ShippedRegionalGroup | src/lib/mockData.ts:3-12 | Regional holds v3, v7, v8 |
| VoicesPage.ShippedInternationalGroup | src/lib/mockData.ts:3-12 | International holds v4, v5, v6 |

## Left out

- Network, authentication and media: the token function, the WebSocket protocol, `getUserMedia`, the audio graph, the TTS `fetch`, the audio element and object URLs, and `window.speechSynthesis`. These are browser and remote calls; their completions are modelled as method calls and their handles as flags.
- The PCM float-to-int16 conversion and base64 encoding in `useASR` use floating point and encoding, so they are not modelled.
- Utterance pitch and rate, the `toFixed(1)` seconds figure, and IEEE rounding at exact halves are floating point. `Speech.Clamp` is stated over integers; the pitch formula that calls it is not modelled.
- Timers and React scheduling are not modelled:
  - the one-second countdown timer, the 500 ms navigation delay and the 2 s voice-preview timer on the voices page;
  - effect re-runs, stale closures and state batching.
  Ticks and callbacks are explicit method calls, and the clock is a parameter.
- Rehearsal.TurnEngine.SpeechEnded: the callback the source passes to `speak` closes over the line index of the render that spoke it. The model uses the index current when the callback runs.
- The JavaScript regular-expression engine in `parseScriptText` is not modelled. The matches it yields are the input.
- Text is ASCII only. Unicode behaviour of `\w`, `\s`, `toLowerCase` and UTF-16 code units is not modelled.
- `useASR`'s `onPartialTranscript`, `onFinalTranscript` and `onError` option callbacks are not recorded; the session records the state they are given.
- Asr.SpeechSession.StartListening: the socket is not closed by a second start, and the handles a previous session still holds stay held, as in the source.
- The toast texts, the page markup and the provider check in `useScripts` are not modelled. Toasts are recorded only by kind, plus the file name and character count of the success toast.
- Object key order: `Object.entries` lists integer-like keys first, and the model uses insertion order throughout. Character names begin with an upper-case letter and categories are words, so no such key arises.
- A key that is an `Object.prototype` property name (such as `constructor`) makes `VOICE_MAP[key]` and the counts object misbehave. Only own keys are modelled.
- ScriptsContext.ApplyPatch: a patch field explicitly set to `undefined` overwrites in the source; the model treats every field as either supplied or absent.
- ScriptsContext.ScriptStore.AddScript: two scripts added in the same millisecond get the same id; the clock reading is a parameter and uniqueness is not claimed.
- `useSpeech`'s fallback to `getVoices()` when the voice list is empty, and the `voiceschanged` listener, are folded into the `voices` argument of `Speech.Speaker.Speak`.
- A `File` is modelled by its name and MIME type only. Reading its text is an input to `ScriptUploader.Uploader.ProcessSucceeded`.
- `PerformanceMetrics.ShouldRender` is the render guard as a predicate; there is no property beyond its definition.
- `RehearsalSession` in `src/types/script.ts` is used nowhere and is not modelled.
