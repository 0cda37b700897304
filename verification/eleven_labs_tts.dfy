/**
 * Cloud text-to-speech playback (src/hooks/useElevenLabsTTS.ts): how a
 * character's voice key becomes a provider voice id, and how the hook holds
 * and releases its audio element and object URL. The HTTP request, the audio
 * element and object URLs are outside the model: their completions are method
 * calls, and what the hook asks of them is recorded as a sequence of effects.
 */
module ElevenLabsTts {
  import opened Prelude

  /** The keys of VOICE_MAP in declaration order, which is the order Object.keys returns. */
  const VoiceKeys: seq<string> := ["voice-1", "voice-2", "voice-3", "voice-4", "voice-5", "voice-6"]

  /** The provider voice ids, in the same order. */
  const VoiceIds: seq<string> := [
    "JBFqnCBsd6RMkjVDRZzb", "EXAVITQu4vr4xnSDxMaL", "IKne3meq5aSn9XLyUdCD",
    "FGY2WhTYpPnrIDTdsKH5", "onwK4e9ZLuTAKqWW03F9", "pFZP5JQG7iQjIQuC4Bku"]

  const VoiceMap: map<string, string> := map[
    "voice-1" := "JBFqnCBsd6RMkjVDRZzb",
    "voice-2" := "EXAVITQu4vr4xnSDxMaL",
    "voice-3" := "IKne3meq5aSn9XLyUdCD",
    "voice-4" := "FGY2WhTYpPnrIDTdsKH5",
    "voice-5" := "onwK4e9ZLuTAKqWW03F9",
    "voice-6" := "pFZP5JQG7iQjIQuC4Bku"]

  /** The two sequences and the map describe the same six pairs. */
  lemma VoiceTableConsistent()
    ensures |VoiceKeys| == |VoiceIds| == 6
    ensures forall i :: 0 <= i < 6 ==> VoiceKeys[i] in VoiceMap && VoiceMap[VoiceKeys[i]] == VoiceIds[i]
    ensures forall k :: k in VoiceMap ==> k in VoiceKeys
  {
  }

  /** `key.split('').reduce((acc, char) => acc + char.charCodeAt(0), 0)`. */
  function CharCodeSum(key: string): nat
    decreases |key|
  {
    if key == [] then 0 else CharCodeSum(key[..|key| - 1]) + key[|key| - 1] as int
  }

  /**
   * The voice id for an optional voice key: the default voice for an absent or
   * empty key, the mapped id for a key of the map, the key itself when it is
   * longer than 15 characters (taken to be a provider id), and otherwise the
   * voice at (sum of character codes) mod 6 in the map's key order.
   */
  function ResolveVoiceId(voiceKey: Option<string>): string {
    if voiceKey.None? || voiceKey.value == [] then VoiceMap["voice-1"]
    else if voiceKey.value in VoiceMap then VoiceMap[voiceKey.value]
    else if |voiceKey.value| > 15 then voiceKey.value
    else VoiceMap[VoiceKeys[CharCodeSum(voiceKey.value) % |VoiceKeys|]]
  }

  /**
   * Every key either names one of the six voices or, when it is an unmapped key
   * longer than 15 characters, is passed through unchanged.
   */
  lemma ResolveVoiceIdCases(voiceKey: Option<string>)
    ensures var id := ResolveVoiceId(voiceKey);
      if voiceKey.Some? && voiceKey.value !in VoiceMap && |voiceKey.value| > 15 then id == voiceKey.value
      else id in VoiceIds
    ensures voiceKey.None? || voiceKey == Some("") ==> ResolveVoiceId(voiceKey) == VoiceIds[0]
    ensures voiceKey.Some? && voiceKey.value in VoiceMap ==> ResolveVoiceId(voiceKey) == VoiceMap[voiceKey.value]
  {
    VoiceTableConsistent();
  }

  lemma {:induction false} CharCodeSumAppend(a: string, b: string)
    ensures CharCodeSum(a + b) == CharCodeSum(a) + CharCodeSum(b)
    decreases |b|
  {
    if b == [] {
      assert a + b == a;
    } else {
      assert (a + b)[..|a + b| - 1] == a + b[..|b| - 1];
      assert (a + b)[|a + b| - 1] == b[|b| - 1];
      CharCodeSumAppend(a, b[..|b| - 1]);
    }
  }

  /** Taking out the character at k leaves the other characters. */
  lemma MultisetWithoutAt(b: string, k: nat)
    requires k < |b|
    ensures multiset(b[..k] + b[k + 1..]) == multiset(b) - multiset{b[k]}
  {
    var p, q := b[..k], b[k + 1..];
    assert b == p + [b[k]] + q;
  }

  /** Taking out the character at k takes its code out of the sum. */
  lemma CharCodeSumWithoutAt(b: string, k: nat)
    requires k < |b|
    ensures CharCodeSum(b) == CharCodeSum(b[..k] + b[k + 1..]) + b[k] as int
  {
    var p, q, c := b[..k], b[k + 1..], b[k];
    assert b == (p + [c]) + q;
    CharCodeSumAppend(p + [c], q);
    assert (p + [c])[..|p|] == p;
    assert CharCodeSum(p + [c]) == CharCodeSum(p) + c as int;
    CharCodeSumAppend(p, q);
  }

  /** The sum of character codes ignores the order of the characters. */
  lemma {:induction false} CharCodeSumOfAnagram(a: string, b: string)
    requires multiset(a) == multiset(b)
    ensures CharCodeSum(a) == CharCodeSum(b)
    decreases |a|
  {
    if a != [] {
      var c := a[|a| - 1];
      assert c in multiset(b) by {
        assert c in multiset(a);
      }
      var k :| 0 <= k < |b| && b[k] == c;
      MultisetWithoutAt(a, |a| - 1);
      MultisetWithoutAt(b, k);
      CharCodeSumWithoutAt(a, |a| - 1);
      CharCodeSumWithoutAt(b, k);
      var front := a[..|a| - 1] + a[|a|..];
      CharCodeSumOfAnagram(front, b[..k] + b[k + 1..]);
    } else {
      assert |b| == |multiset(b)| == 0;
    }
  }

  /** Two short unmapped keys made of the same characters get the same voice. */
  lemma AnagramsShareVoice(a: string, b: string)
    requires multiset(a) == multiset(b)
    requires a != [] && a !in VoiceMap && b !in VoiceMap && |a| <= 15
    ensures ResolveVoiceId(Some(a)) == ResolveVoiceId(Some(b))
  {
    CharCodeSumOfAnagram(a, b);
    assert |b| == |multiset(b)| == |multiset(a)| == |a|;
  }

  /** A catalogue id "v" + digit is not a key of the map, so it is resolved by its code sum. */
  lemma CatalogueIdResolves(key: string)
    requires |key| == 2 && key[0] == 'v' && '1' <= key[1] <= '8'
    ensures ResolveVoiceId(Some(key)) == VoiceIds[(118 + key[1] as int) % 6]
  {
    assert key !in VoiceMap;
    assert key[..1] == ['v'] && ['v'][..0] == [];
    assert CharCodeSum(key) == 118 + key[1] as int;
    VoiceTableConsistent();
  }

  /**
   * The voice catalogue's ids, "v1" to "v8" (src/lib/mockData.ts), are not keys
   * of the map, so they all go through the code sum: eight ids share six
   * voices, and ids six apart ("v1" / "v7", "v2" / "v8") get the same voice.
   */
  lemma CatalogueIdsCollide(a: string, b: string)
    requires |a| == |b| == 2 && a[0] == b[0] == 'v'
    requires '1' <= a[1] <= '2' && b[1] as int == a[1] as int + 6
    ensures ResolveVoiceId(Some(a)) == ResolveVoiceId(Some(b))
  {
    CatalogueIdResolves(a);
    CatalogueIdResolves(b);
  }

  // ------------------------------------------------------------ playback

  /** What the hook asks of the browser and of its caller, in order. */
  datatype Effect =
    | PauseAudio                          // audioRef.current.pause()
    | RevokeUrl                           // URL.revokeObjectURL(audioUrlRef.current)
    | Request(text: string, voiceId: string)  // the POST to the speech function
    | Play                                // audio.play()
    | CallOnEnd                           // the per-call onEnd
    | CallOptionsOnEnd                    // options.onEnd
    | CallOptionsOnError(message: string) // options.onError

  /** Pause and drop the audio element, then revoke and drop the object URL, each only if held. */
  function Release(audio: bool, audioUrl: bool): (r: seq<Effect>)
    ensures |r| <= 2
    ensures PauseAudio in r <==> audio
    ensures RevokeUrl in r <==> audioUrl
  {
    (if audio then [PauseAudio] else []) + (if audioUrl then [RevokeUrl] else [])
  }

  /** The hook's state cells and refs, for a hook created with the given options callbacks. */
  class Player {
    /** Whether the options passed to the hook have onEnd and onError. */
    const hasOptionsOnEnd: bool
    const hasOptionsOnError: bool
    var isSpeaking: bool
    var isLoading: bool
    var error: Option<string>
    /** Whether audioRef and audioUrlRef hold an audio element and an object URL. */
    var audio: bool
    var audioUrl: bool
    /** Whether onEndCallbackRef holds a per-call onEnd. */
    var onEndCallback: bool
    var effects: seq<Effect>

    constructor (hasOnEnd: bool, hasOnError: bool)
      ensures hasOptionsOnEnd == hasOnEnd && hasOptionsOnError == hasOnError
      ensures !isSpeaking && !isLoading && error == None && !audio && !audioUrl && !onEndCallback
      ensures effects == []
    {
      hasOptionsOnEnd, hasOptionsOnError := hasOnEnd, hasOnError;
      isSpeaking, isLoading, error := false, false, None;
      audio, audioUrl, onEndCallback := false, false, false;
      effects := [];
    }

    /**
     * The synchronous part of speak: clear the error, start loading, remember
     * the per-call onEnd, release the previous audio and URL, then request
     * speech for the resolved voice.
     */
    method Speak(text: string, voiceKey: Option<string>, hasOnEnd: bool)
      modifies this
      ensures error == None && isLoading && isSpeaking == old(isSpeaking)
      ensures onEndCallback == hasOnEnd && !audio && !audioUrl
      ensures effects == old(effects) + Release(old(audio), old(audioUrl)) + [Request(text, ResolveVoiceId(voiceKey))]
    {
      error := None;
      isLoading := true;
      onEndCallback := hasOnEnd;
      var released := [];
      if audio {
        released := released + [PauseAudio];
        audio := false;
      }
      if audioUrl {
        released := released + [RevokeUrl];
        audioUrl := false;
      }
      effects := effects + released + [Request(text, ResolveVoiceId(voiceKey))];
    }

    /** The audio arrived: an object URL and an audio element are stored and playback is asked for. */
    method AudioReady()
      modifies this`audio, this`audioUrl, this`effects
      ensures audio && audioUrl && effects == old(effects) + [Play]
    {
      audioUrl, audio := true, true;
      effects := effects + [Play];
    }

    /** The request or play() failed: record the message, stop loading and speaking, report it. */
    method RequestFailed(message: string)
      modifies this`error, this`isLoading, this`isSpeaking, this`effects
      ensures error == Some(message) && !isLoading && !isSpeaking
      ensures effects == old(effects) + (if hasOptionsOnError then [CallOptionsOnError(message)] else [])
    {
      error := Some(message);
      isLoading, isSpeaking := false, false;
      if hasOptionsOnError {
        effects := effects + [CallOptionsOnError(message)];
      }
    }

    /** audio.onplay. */
    method OnPlay()
      modifies this`isLoading, this`isSpeaking
      ensures !isLoading && isSpeaking
    {
      isLoading, isSpeaking := false, true;
    }

    /**
     * audio.onended: stop speaking, revoke and drop the URL if held, then run
     * the per-call onEnd and then the options' onEnd. The audio element stays.
     */
    method OnEnded()
      modifies this`isSpeaking, this`audioUrl, this`effects
      ensures !isSpeaking && !audioUrl && audio == old(audio)
      ensures effects == old(effects) + Release(false, old(audioUrl)) +
        (if onEndCallback then [CallOnEnd] else []) + (if hasOptionsOnEnd then [CallOptionsOnEnd] else [])
    {
      isSpeaking := false;
      var done := [];
      if audioUrl {
        done := done + [RevokeUrl];
        audioUrl := false;
      }
      if onEndCallback {
        done := done + [CallOnEnd];
      }
      if hasOptionsOnEnd {
        done := done + [CallOptionsOnEnd];
      }
      effects := effects + done;
    }

    /** audio.onerror: report a playback failure; neither onEnd runs. */
    method OnAudioError()
      modifies this`isSpeaking, this`isLoading, this`error, this`effects
      ensures !isSpeaking && !isLoading && error == Some("Failed to play audio")
      ensures effects == old(effects) + (if hasOptionsOnError then [CallOptionsOnError("Failed to play audio")] else [])
    {
      isSpeaking, isLoading := false, false;
      error := Some("Failed to play audio");
      if hasOptionsOnError {
        effects := effects + [CallOptionsOnError("Failed to play audio")];
      }
    }

    /** stop: release the audio and the URL if held, and clear both flags. */
    method Stop()
      modifies this`audio, this`audioUrl, this`isSpeaking, this`isLoading, this`effects
      ensures !audio && !audioUrl && !isSpeaking && !isLoading
      ensures effects == old(effects) + Release(old(audio), old(audioUrl))
    {
      var released := [];
      if audio {
        released := released + [PauseAudio];
        audio := false;
      }
      if audioUrl {
        released := released + [RevokeUrl];
        audioUrl := false;
      }
      effects := effects + released;
      isSpeaking, isLoading := false, false;
    }
  }

  /** A second stop releases nothing and leaves the same state. */
  method StopTwice(player: Player)
    modifies player
  {
    player.Stop();
    var after := player.effects;
    player.Stop();
    assert player.effects == after;
    assert !player.audio && !player.audioUrl && !player.isSpeaking && !player.isLoading;
  }

  /** Speaking over a line that is still playing pauses it and revokes its URL before the new request. */
  method SpeakOverPlayingLine(player: Player, text: string)
    requires player.audio && player.audioUrl
    modifies player
  {
    var before := player.effects;
    player.Speak(text, Some("voice-2"), true);
    assert player.effects == before + [PauseAudio, RevokeUrl, Request(text, "EXAVITQu4vr4xnSDxMaL")];
  }
}
