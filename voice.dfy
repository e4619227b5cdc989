/** Voice parameters (`getNaturalVoiceParams`) and the choice of a Japanese
    voice from the engine's voice list (the `filter`/`find` block of
    `speakNextText` and `speakCurrentSegment`). */
module Voices {
  import opened Wrappers

  // ---------------------------------------------------------------------------
  // Rate, pitch and volume

  datatype VoiceParams = VoiceParams(rate: real, pitch: real, volume: real)

  /** Texts longer than this many characters are spoken slightly faster. */
  const LongTextThreshold: nat := 200

  const LongTextBoost: real := 1.05

  /** `getNaturalVoiceParams(type, textLength)` with the global `speechRate`
      passed in as `speechRate`. */
  function NaturalVoiceParams(speechRate: real, kind: string, textLength: nat): (r: VoiceParams)
    ensures 0.0 <= speechRate ==> speechRate * 0.9 <= r.rate <= speechRate * LongTextBoost
    ensures 0.0 < r.pitch && 0.0 < r.volume <= 1.0
  {
    var byKind :=
      if kind == "heading" then VoiceParams(speechRate * 0.9, 0.95, 1.0)
      else if kind == "paragraph" then VoiceParams(speechRate, 1.05, 0.95)
      else if kind == "profile" then VoiceParams(speechRate * 0.95, 1.0, 0.95)
      else VoiceParams(speechRate, 1.0, 1.0);
    if textLength > LongTextThreshold then byKind.(rate := byKind.rate * LongTextBoost) else byKind
  }

  /** The table orders the kinds: for one requested positive rate and one
      text length, a heading is spoken slowest and lowest, a paragraph fastest
      and highest, a profile in between; a heading is louder than a paragraph
      or a profile, which share one volume. */
  lemma KindOrdering(speechRate: real, len: nat)
    requires speechRate > 0.0
    ensures var h := NaturalVoiceParams(speechRate, "heading", len);
            var pr := NaturalVoiceParams(speechRate, "profile", len);
            var pa := NaturalVoiceParams(speechRate, "paragraph", len);
            h.rate < pr.rate < pa.rate && h.pitch < pr.pitch < pa.pitch
            && h.volume > pa.volume && pa.volume == pr.volume
  {
  }

  /** Pitch and volume are fixed by the kind of segment alone. */
  lemma PitchAndVolumeDependOnlyOnKind(rate1: real, rate2: real, len1: nat, len2: nat, kind: string)
    ensures NaturalVoiceParams(rate1, kind, len1).pitch == NaturalVoiceParams(rate2, kind, len2).pitch
    ensures NaturalVoiceParams(rate1, kind, len1).volume == NaturalVoiceParams(rate2, kind, len2).volume
  {
  }

  /** A kind the table does not name is spoken at the requested rate with
      neutral pitch and volume (up to the long-text boost). */
  lemma UnknownKindIsNeutral(speechRate: real, kind: string, len: nat)
    requires kind != "heading" && kind != "paragraph" && kind != "profile"
    ensures len <= LongTextThreshold ==> NaturalVoiceParams(speechRate, kind, len) == VoiceParams(speechRate, 1.0, 1.0)
    ensures len > LongTextThreshold ==> NaturalVoiceParams(speechRate, kind, len) == VoiceParams(speechRate * 1.05, 1.0, 1.0)
  {
  }

  /** For one kind and one requested rate, a long text's rate is exactly 1.05
      times a short text's rate, and nothing else differs. */
  lemma LongTextIsBoosted(speechRate: real, kind: string, long: nat, short: nat)
    requires long > LongTextThreshold >= short
    ensures NaturalVoiceParams(speechRate, kind, long)
         == NaturalVoiceParams(speechRate, kind, short).(rate := 1.05 * NaturalVoiceParams(speechRate, kind, short).rate)
  {
  }

  /** With a positive requested rate, a long text is spoken strictly faster. */
  lemma LongTextIsFaster(speechRate: real, kind: string, long: nat, short: nat)
    requires speechRate > 0.0 && long > LongTextThreshold >= short
    ensures NaturalVoiceParams(speechRate, kind, long).rate > NaturalVoiceParams(speechRate, kind, short).rate
  {
    LongTextIsBoosted(speechRate, kind, long, short);
  }

  /** The rate is the requested rate times a factor fixed by kind and length. */
  lemma RateIsProportionalToRequested(speechRate: real, kind: string, len: nat)
    ensures NaturalVoiceParams(speechRate, kind, len).rate == speechRate * NaturalVoiceParams(1.0, kind, len).rate
  {
  }

  // ---------------------------------------------------------------------------
  // Voice selection

  datatype Voice = Voice(name: string, lang: string, localService: bool)

  /** `s.includes(sub)`. */
  predicate Contains(s: string, sub: string)
    decreases |s|
  {
    sub <= s || (s != [] && Contains(s[1..], sub))
  }

  /** The filter: a Japanese voice from Google, Microsoft or the local system. */
  predicate IsPreferred(v: Voice) {
    Contains(v.lang, "ja")
    && (Contains(v.name, "Google") || Contains(v.name, "Microsoft") || v.localService)
  }

  /** The find: a name that suggests a female voice. */
  predicate IsFemale(v: Voice) {
    Contains(v.name, "Female") || Contains(v.name, "女性") || Contains(v.name, "Kyoko") || Contains(v.name, "Sayaka")
  }

  /** `voices.filter(...)`. */
  function JapaneseVoices(voices: seq<Voice>): seq<Voice> {
    if voices == [] then []
    else (if IsPreferred(voices[0]) then [voices[0]] else []) + JapaneseVoices(voices[1..])
  }

  /** `japaneseVoices.find(...)`. */
  function FindFemale(voices: seq<Voice>): Option<Voice> {
    if voices == [] then None
    else if IsFemale(voices[0]) then Some(voices[0])
    else FindFemale(voices[1..])
  }

  /** The voice given to an utterance: `femaleVoice || japaneseVoices[0]` when
      some voice passes the filter, otherwise the engine's default (`None`). */
  function SelectVoice(voices: seq<Voice>): (r: Option<Voice>)
    ensures r.Some? ==> r.value in voices && IsPreferred(r.value)
  {
    var japanese := JapaneseVoices(voices);
    JapaneseVoicesArePreferred(voices);
    FindFemaleFinds(japanese);
    if |japanese| > 0 then
      match FindFemale(japanese)
      case Some(v) => Some(v)
      case None => Some(japanese[0])
    else None
  }

  lemma {:induction false} JapaneseVoicesArePreferred(voices: seq<Voice>)
    ensures forall v :: v in JapaneseVoices(voices) ==> v in voices && IsPreferred(v)
  {
    if voices != [] {
      JapaneseVoicesArePreferred(voices[1..]);
      assert forall v :: v in voices[1..] ==> v in voices;
    }
  }

  lemma {:induction false} FindFemaleFinds(voices: seq<Voice>)
    ensures FindFemale(voices).Some? ==> FindFemale(voices).value in voices
  {
    if voices != [] && !IsFemale(voices[0]) {
      FindFemaleFinds(voices[1..]);
      assert forall v :: v in voices[1..] ==> v in voices;
    }
  }

  // A ranked reference: the first female preferred voice, else the first
  // preferred voice, else the default, each searched in the engine's list.

  function FirstPreferred(voices: seq<Voice>): (r: Option<nat>)
    ensures r.Some? ==> r.value < |voices| && IsPreferred(voices[r.value])
                        && forall j :: 0 <= j < r.value ==> !IsPreferred(voices[j])
    ensures r.None? ==> forall j :: 0 <= j < |voices| ==> !IsPreferred(voices[j])
  {
    if voices == [] then None
    else if IsPreferred(voices[0]) then Some(0)
    else match FirstPreferred(voices[1..])
      case Some(i) => Some(i + 1)
      case None => None
  }

  function FirstPreferredFemale(voices: seq<Voice>): (r: Option<nat>)
    ensures r.Some? ==> r.value < |voices| && IsPreferred(voices[r.value]) && IsFemale(voices[r.value])
                        && forall j :: 0 <= j < r.value ==> !(IsPreferred(voices[j]) && IsFemale(voices[j]))
    ensures r.None? ==> forall j :: 0 <= j < |voices| ==> !(IsPreferred(voices[j]) && IsFemale(voices[j]))
  {
    if voices == [] then None
    else if IsPreferred(voices[0]) && IsFemale(voices[0]) then Some(0)
    else match FirstPreferredFemale(voices[1..])
      case Some(i) => Some(i + 1)
      case None => None
  }

  function Ranked(voices: seq<Voice>): Option<Voice> {
    match FirstPreferredFemale(voices)
    case Some(i) => Some(voices[i])
    case None =>
      match FirstPreferred(voices)
      case Some(i) => Some(voices[i])
      case None => None
  }

  lemma {:induction false} JapaneseVoicesHead(voices: seq<Voice>)
    ensures |JapaneseVoices(voices)| > 0 <==> FirstPreferred(voices).Some?
    ensures |JapaneseVoices(voices)| > 0 ==> JapaneseVoices(voices)[0] == voices[FirstPreferred(voices).value]
  {
    if voices != [] {
      JapaneseVoicesHead(voices[1..]);
    }
  }

  lemma {:induction false} FindFemaleOfFilter(voices: seq<Voice>)
    ensures FindFemale(JapaneseVoices(voices))
         == match FirstPreferredFemale(voices) case Some(i) => Some(voices[i]) case None => None
  {
    if voices != [] {
      var tail := voices[1..];
      FindFemaleOfFilter(tail);
      var expected := match FirstPreferredFemale(tail) case Some(i) => Some(tail[i]) case None => None;
      if IsPreferred(voices[0]) {
        assert JapaneseVoices(voices) == [voices[0]] + JapaneseVoices(tail);
        assert ([voices[0]] + JapaneseVoices(tail))[1..] == JapaneseVoices(tail);
      } else {
        assert JapaneseVoices(voices) == JapaneseVoices(tail);
      }
      if !(IsPreferred(voices[0]) && IsFemale(voices[0])) {
        assert FindFemale(JapaneseVoices(voices)) == FindFemale(JapaneseVoices(tail));
        match FirstPreferredFemale(tail)
        case Some(i) =>
          assert FirstPreferredFemale(voices) == Some(i + 1);
          assert tail[i] == voices[i + 1];
        case None =>
          assert FirstPreferredFemale(voices) == None;
      }
    }
  }

  /** Filter-then-find chooses exactly the ranked voice: the first preferred
      voice with a female name, else the first preferred voice, else none. */
  lemma SelectVoiceIsRanked(voices: seq<Voice>)
    ensures SelectVoice(voices) == Ranked(voices)
  {
    JapaneseVoicesHead(voices);
    FindFemaleOfFilter(voices);
    if FirstPreferredFemale(voices).Some? {
      assert FirstPreferred(voices).Some?;
    }
  }

  /** The engine's default voice is left in place exactly when no voice passes
      the filter. */
  lemma DefaultVoiceOnlyWhenNonePreferred(voices: seq<Voice>)
    ensures SelectVoice(voices).None? <==> forall j :: 0 <= j < |voices| ==> !IsPreferred(voices[j])
  {
    JapaneseVoicesHead(voices);
  }
}
