/**
 * Browser speech synthesis (src/hooks/useSpeech.ts): the 32-bit string hash
 * that spreads voice keys over the installed voices, clamping, how the
 * options argument is read, which voice an utterance gets, and the
 * speaking flag and end callbacks. The synthesiser itself is outside the
 * model; its callbacks are method calls and what the hook asks of it is
 * recorded as a sequence of effects.
 */
module Speech {
  import opened Prelude

  // ------------------------------------------------------------ hashing

  const TwoTo31: int := 0x8000_0000
  const TwoTo32: int := 0x1_0000_0000

  /** `x | 0`: the signed 32-bit integer congruent to x modulo 2^32. */
  function ToInt32(x: int): (r: int)
    ensures -TwoTo31 <= r < TwoTo31
    ensures (x - r) % TwoTo32 == 0
  {
    (x + TwoTo31) % TwoTo32 - TwoTo31
  }

  /** A value that already fits in 32 signed bits is kept. */
  lemma ToInt32OfInt32(x: int)
    requires -TwoTo31 <= x < TwoTo31
    ensures ToInt32(x) == x
  {
  }

  /** Values beyond the range wrap around: 2^31 becomes -2^31. */
  lemma ToInt32Wraps()
    ensures ToInt32(TwoTo31) == -TwoTo31
    ensures ToInt32(-TwoTo31 - 1) == TwoTo31 - 1
  {
  }

  /** The hash after each character: `hash = (hash * 31 + code) | 0`, from 0. */
  function HashFold(s: string): (h: int)
    ensures -TwoTo31 <= h < TwoTo31
    decreases |s|
  {
    if s == [] then 0 else ToInt32(HashFold(s[..|s| - 1]) * 31 + s[|s| - 1] as int)
  }

  function Abs(x: int): nat { if x < 0 then -x else x }

  /** hashString: the absolute value of the folded hash. */
  function HashOf(s: string): (h: nat)
    ensures h <= TwoTo31
  {
    Abs(HashFold(s))
  }

  lemma HashOfEmpty()
    ensures HashOf("") == 0
  {
  }

  /** Short keys do not wrap: the hash of "ab" is 31 * 'a' + 'b'. */
  lemma HashOfTwoChars(a: char, b: char)
    ensures HashOf([a, b]) == 31 * (a as int) + b as int
  {
    assert [a, b][..1] == [a];
    assert [a][..0] == [];
    ToInt32OfInt32(a as int);
    assert HashFold([a]) == a as int;
    ToInt32OfInt32(31 * (a as int) + b as int);
  }

  /** hashString's loop. */
  method HashString(input: string) returns (h: nat)
    ensures h == HashOf(input)
  {
    var hash := 0;
    var i := 0;
    while i < |input|
      invariant 0 <= i <= |input|
      invariant hash == HashFold(input[..i])
    {
      assert input[..i + 1][..i] == input[..i];
      hash := ToInt32(hash * 31 + input[i] as int);
      i := i + 1;
    }
    assert input[..|input|] == input;
    h := Abs(hash);
  }

  /** `Math.min(max, Math.max(min, n))`. */
  function Clamp(n: int, lo: int, hi: int): (r: int)
    ensures lo <= hi ==> lo <= r <= hi
    ensures lo <= n <= hi ==> r == n
    ensures r == n || r == lo || r == hi
  {
    var atLeastLo := if n > lo then n else lo;
    if atLeastLo < hi then atLeastLo else hi
  }

  // ------------------------------------------------------------ options

  /** The fields of SpeakOptions that the model keeps. */
  datatype SpeakOptions = SpeakOptions(voiceKey: Option<string>, lang: Option<string>, hasOnEnd: bool)

  /** The second argument of speak: nothing, a bare callback, or an options object. */
  datatype SpeakArgument = NoArgument | Callback | Options(options: SpeakOptions)

  /** A bare function is the onEnd callback; a missing argument is empty options. */
  function NormalizeOptions(arg: SpeakArgument): (o: SpeakOptions)
    ensures arg.Callback? ==> o == SpeakOptions(None, None, true)
    ensures arg.NoArgument? ==> o == SpeakOptions(None, None, false)
    ensures arg.Options? ==> o == arg.options
  {
    match arg
    case NoArgument => SpeakOptions(None, None, false)
    case Callback => SpeakOptions(None, None, true)
    case Options(o) => o
  }

  /** Only an options object can carry a voice key or a language; without one the hook speaks English. */
  lemma BareArgumentSpeaksEnglish(arg: SpeakArgument)
    requires !arg.Options?
    ensures NormalizeOptions(arg).voiceKey.None?
    ensures RequestedLang(NormalizeOptions(arg)) == "en"
    ensures NormalizeOptions(arg).hasOnEnd <==> arg.Callback?
  {
    LowerOfLowerCase("en");
  }

  // ------------------------------------------------------------ voice choice

  datatype SpeechVoice = SpeechVoice(name: string, lang: Option<string>)

  /** `(v.lang || '').toLowerCase().startsWith(lang)`. */
  predicate SpeaksLang(v: SpeechVoice, lang: string) {
    StartsWith(Lower(v.lang.GetOr("")), lang)
  }

  /** `voices.filter(v => SpeaksLang(v, lang))`. */
  function WithLang(voices: seq<SpeechVoice>, lang: string): (r: seq<SpeechVoice>)
    ensures |r| <= |voices|
    decreases |voices|
  {
    if voices == [] then []
    else
      var v := voices[|voices| - 1];
      WithLang(voices[..|voices| - 1], lang) + (if SpeaksLang(v, lang) then [v] else [])
  }

  /** The filter keeps exactly the voices for the language, in their order. */
  lemma {:induction false} WithLangMembers(voices: seq<SpeechVoice>, lang: string)
    ensures forall v :: v in WithLang(voices, lang) <==> v in voices && SpeaksLang(v, lang)
    decreases |voices|
  {
    if voices != [] {
      WithLangMembers(voices[..|voices| - 1], lang);
      assert voices == voices[..|voices| - 1] + [voices[|voices| - 1]];
    }
  }

  /** The filter works piecewise, so the candidates keep the order of the voices. */
  lemma {:induction false} WithLangAppend(a: seq<SpeechVoice>, b: seq<SpeechVoice>, lang: string)
    ensures WithLang(a + b, lang) == WithLang(a, lang) + WithLang(b, lang)
    decreases |b|
  {
    if b == [] {
      assert a + b == a;
    } else {
      var c, x := b[..|b| - 1], b[|b| - 1];
      assert b == c + [x];
      assert a + b == (a + c) + [x];
      WithLangAppend(a, c, lang);
    }
  }

  /** The language asked for, lower-cased, "en" when none is given. */
  function RequestedLang(o: SpeakOptions): string {
    Lower(o.lang.GetOr("en"))
  }

  /** The voices for the requested language, or every voice when none speaks it. */
  function Pool(voices: seq<SpeechVoice>, o: SpeakOptions): seq<SpeechVoice> {
    var candidates := WithLang(voices, RequestedLang(o));
    if candidates != [] then candidates else voices
  }

  lemma PoolSpec(voices: seq<SpeechVoice>, o: SpeakOptions)
    ensures Pool(voices, o) == [] <==> voices == []
    ensures forall v :: v in Pool(voices, o) ==> v in voices
    ensures (exists v :: v in voices && SpeaksLang(v, RequestedLang(o))) ==>
      forall v :: v in Pool(voices, o) <==> v in voices && SpeaksLang(v, RequestedLang(o))
    ensures (forall v :: v in voices ==> !SpeaksLang(v, RequestedLang(o))) ==> Pool(voices, o) == voices
  {
    var candidates := WithLang(voices, RequestedLang(o));
    WithLangMembers(voices, RequestedLang(o));
    if voices != [] && candidates == [] {
      assert voices[0] in voices;
    }
    if candidates != [] {
      assert candidates[0] in candidates;
    }
  }

  /** `pool.find(v => v.name.includes('Google'))`. */
  function FirstGoogle(pool: seq<SpeechVoice>): (r: Option<SpeechVoice>)
    ensures r.None? <==> forall i :: 0 <= i < |pool| ==> !Contains(pool[i].name, "Google")
    ensures r.Some? ==>
      exists k :: 0 <= k < |pool| && pool[k] == r.value && Contains(r.value.name, "Google") &&
        forall j :: 0 <= j < k ==> !Contains(pool[j].name, "Google")
    decreases |pool|
  {
    if pool == [] then None
    else if Contains(pool[0].name, "Google") then Some(pool[0])
    else
      var r := FirstGoogle(pool[1..]);
      assert forall j :: 1 <= j < |pool| ==> pool[j] == pool[1..][j - 1];
      r
  }

  /** `pool.find(v => (v.lang || '').toLowerCase().startsWith('en'))`. */
  function FirstEnglish(pool: seq<SpeechVoice>): (r: Option<SpeechVoice>)
    ensures r.None? <==> forall i :: 0 <= i < |pool| ==> !SpeaksLang(pool[i], "en")
    ensures r.Some? ==>
      exists k :: 0 <= k < |pool| && pool[k] == r.value && SpeaksLang(r.value, "en") &&
        forall j :: 0 <= j < k ==> !SpeaksLang(pool[j], "en")
    decreases |pool|
  {
    if pool == [] then None
    else if SpeaksLang(pool[0], "en") then Some(pool[0])
    else
      var r := FirstEnglish(pool[1..]);
      assert forall j :: 1 <= j < |pool| ==> pool[j] == pool[1..][j - 1];
      r
  }

  /**
   * The voice an utterance gets: none from an empty pool; with a (non-empty)
   * voice key the pool entry at hashString(key) mod the pool size; without one
   * the first Google voice, else the first English voice, else the first voice.
   */
  function ChooseVoice(voices: seq<SpeechVoice>, o: SpeakOptions): (r: Option<SpeechVoice>)
    ensures r.Some? ==> r.value in Pool(voices, o)
    ensures r.None? <==> Pool(voices, o) == []
  {
    var pool := Pool(voices, o);
    if pool == [] then None
    else if o.voiceKey.Some? && o.voiceKey.value != "" then Some(pool[HashOf(o.voiceKey.value) % |pool|])
    else match FirstGoogle(pool)
      case Some(v) => Some(v)
      case None =>
        match FirstEnglish(pool)
        case Some(v) => Some(v)
        case None => Some(pool[0])
  }

  /** The same key always picks the same voice from the same voices, wherever it is used. */
  lemma VoiceKeyPicksByHash(voices: seq<SpeechVoice>, o: SpeakOptions)
    requires o.voiceKey.Some? && o.voiceKey.value != "" && voices != []
    ensures var pool := Pool(voices, o);
      pool != [] && HashOf(o.voiceKey.value) % |pool| < |pool| &&
      ChooseVoice(voices, o) == Some(pool[HashOf(o.voiceKey.value) % |pool|])
  {
    PoolSpec(voices, o);
  }

  /** Without a key, a Google voice of the pool wins over every other voice. */
  lemma NoKeyPrefersGoogle(voices: seq<SpeechVoice>, o: SpeakOptions, k: nat)
    requires o.voiceKey.None? || o.voiceKey == Some("")
    requires var pool := Pool(voices, o);
      k < |pool| && Contains(pool[k].name, "Google") &&
      forall j :: 0 <= j < k ==> !Contains(pool[j].name, "Google")
    ensures ChooseVoice(voices, o) == Some(Pool(voices, o)[k])
  {
    var pool := Pool(voices, o);
    var r := FirstGoogle(pool);
    var k' :| 0 <= k' < |pool| && pool[k'] == r.value && Contains(r.value.name, "Google") &&
      forall j :: 0 <= j < k' ==> !Contains(pool[j].name, "Google");
    assert k' == k by {
      assert !(k' < k) && !(k < k');
    }
  }

  /** Without a key and with no Google voice in the pool, the first English voice of the pool is chosen. */
  lemma NoKeyFallsBackToEnglish(voices: seq<SpeechVoice>, o: SpeakOptions, k: nat)
    requires o.voiceKey.None? || o.voiceKey == Some("")
    requires var pool := Pool(voices, o);
      (forall j :: 0 <= j < |pool| ==> !Contains(pool[j].name, "Google")) &&
      k < |pool| && SpeaksLang(pool[k], "en") &&
      forall j :: 0 <= j < k ==> !SpeaksLang(pool[j], "en")
    ensures ChooseVoice(voices, o) == Some(Pool(voices, o)[k])
  {
    var pool := Pool(voices, o);
    var r := FirstEnglish(pool);
    var k' :| 0 <= k' < |pool| && pool[k'] == r.value && SpeaksLang(r.value, "en") &&
      forall j :: 0 <= j < k' ==> !SpeaksLang(pool[j], "en");
    assert k' == k by {
      assert !(k' < k) && !(k < k');
    }
  }

  /** Without a key, and with neither a Google nor an English voice in the pool, the first pool voice is chosen. */
  lemma NoKeyFallsBackToFirst(voices: seq<SpeechVoice>, o: SpeakOptions)
    requires o.voiceKey.None? || o.voiceKey == Some("")
    requires voices != []
    requires var pool := Pool(voices, o);
      forall j :: 0 <= j < |pool| ==> !Contains(pool[j].name, "Google") && !SpeaksLang(pool[j], "en")
    ensures Pool(voices, o) != [] && ChooseVoice(voices, o) == Some(Pool(voices, o)[0])
  {
    PoolSpec(voices, o);
  }

  // ------------------------------------------------------------ speaking

  /** What the hook asks of the synthesiser and of its caller, in order. */
  datatype Effect =
    | Cancel                                          // speechSynthesis.cancel()
    | Utter(text: string, voice: Option<SpeechVoice>) // speechSynthesis.speak(utterance)
    | CallOnEnd                                       // opts.onEnd

  /**
   * The isSpeaking cell and, for every utterance queued so far, whether the
   * call that queued it passed an onEnd callback. Each utterance's onend and
   * onerror handlers close over their own call's options, so an event names
   * the utterance it belongs to by its position in `callbacks`.
   */
  class Speaker {
    var isSpeaking: bool
    var callbacks: seq<bool>
    var effects: seq<Effect>

    constructor ()
      ensures !isSpeaking && callbacks == [] && effects == []
    {
      isSpeaking, callbacks, effects := false, [], [];
    }

    /**
     * speak: cancel what is playing, then queue a new utterance, numbered u,
     * with the chosen voice and the onEnd of this call's options.
     */
    method Speak(text: string, arg: SpeakArgument, voices: seq<SpeechVoice>) returns (u: nat)
      modifies this`callbacks, this`effects
      ensures u == |old(callbacks)| && callbacks == old(callbacks) + [NormalizeOptions(arg).hasOnEnd]
      ensures effects == old(effects) + [Cancel, Utter(text, ChooseVoice(voices, NormalizeOptions(arg)))]
    {
      var o := NormalizeOptions(arg);
      u := |callbacks|;
      callbacks := callbacks + [o.hasOnEnd];
      effects := effects + [Cancel, Utter(text, ChooseVoice(voices, o))];
    }

    /** utterance.onstart. */
    method OnStart()
      modifies this`isSpeaking
      ensures isSpeaking
    {
      isSpeaking := true;
    }

    /** Utterance u's onend: speaking ends and that utterance's own onEnd runs, if it has one. */
    method OnEnd(u: nat)
      requires u < |callbacks|
      modifies this`isSpeaking, this`effects
      ensures !isSpeaking
      ensures effects == old(effects) + (if callbacks[u] then [CallOnEnd] else [])
    {
      isSpeaking := false;
      if callbacks[u] {
        effects := effects + [CallOnEnd];
      }
    }

    /**
     * Utterance u's onerror, raised also when a later speak or stop cancels
     * it: the same as a normal end, that utterance's own onEnd runs too.
     */
    method OnError(u: nat)
      requires u < |callbacks|
      modifies this`isSpeaking, this`effects
      ensures !isSpeaking
      ensures effects == old(effects) + (if callbacks[u] then [CallOnEnd] else [])
    {
      isSpeaking := false;
      if callbacks[u] {
        effects := effects + [CallOnEnd];
      }
    }

    /** stop: cancel and clear the flag. */
    method Stop()
      modifies this`isSpeaking, this`effects
      ensures !isSpeaking && effects == old(effects) + [Cancel]
    {
      effects := effects + [Cancel];
      isSpeaking := false;
    }
  }

  /** A line spoken with a bare callback reports its end when it finishes. */
  method CallbackRunsOnEnd(speaker: Speaker, text: string, voices: seq<SpeechVoice>)
    modifies speaker
    ensures speaker.effects ==
      old(speaker.effects) + [Cancel, Utter(text, ChooseVoice(voices, SpeakOptions(None, None, true))), CallOnEnd]
  {
    var u := speaker.Speak(text, Callback, voices);
    speaker.OnEnd(u);
  }

  /** A line spoken with a bare callback reports its end even when the synthesiser fails. */
  method CallbackRunsOnError(speaker: Speaker, text: string, voices: seq<SpeechVoice>)
    modifies speaker
    ensures speaker.effects ==
      old(speaker.effects) + [Cancel, Utter(text, ChooseVoice(voices, SpeakOptions(None, None, true))), CallOnEnd]
  {
    var u := speaker.Speak(text, Callback, voices);
    speaker.OnError(u);
  }

  /**
   * A second speak cancels the first utterance; the error that cancellation
   * raises runs the first call's callback, and the second utterance, queued
   * without one, ends silently.
   */
  method InterruptedUtteranceRunsOwnCallback(speaker: Speaker, first: string, second: string, voices: seq<SpeechVoice>)
    modifies speaker
    ensures speaker.effects == old(speaker.effects) +
      [Cancel, Utter(first, ChooseVoice(voices, SpeakOptions(None, None, true))),
       Cancel, Utter(second, ChooseVoice(voices, SpeakOptions(None, None, false))),
       CallOnEnd]
  {
    var u1 := speaker.Speak(first, Callback, voices);
    var u2 := speaker.Speak(second, NoArgument, voices);
    speaker.OnError(u1);
    speaker.OnEnd(u2);
  }
}
