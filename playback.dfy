/** The playback controller of the narrator as a state machine over values.
    `State` holds the script's globals (`articleTexts`, `currentTextIndex`,
    `isPaused`, `isSeeking`, `isAdjustingSpeed`, `speechRate`,
    `currentUtterance`), every utterance created so far, the value the script
    last wrote to the progress slider, the part of the speech engine the controller reads and the timers
    still pending. Each function below is
    one operation of the script; `Step` dispatches the events that reach the
    controller from the page, the engine and expired timers. */
module Playback {
  import opened Wrappers
  import opened Articles
  import opened Voices
  import opened SpeechText

  /** Which function created an utterance, and so which handlers it carries. */
  datatype Origin =
    | Advance   // speakNextText: stale check, then the isSeeking || isAdjustingSpeed check
    | SeekPlay  // speakCurrentSegment: only the !isSeeking check

  /** A `SpeechSynthesisUtterance`; its id is its position in `State.utterances`.
      `attached` is false once `onend` and `onerror` have been set to null. */
  datatype Utterance = Utterance(
    origin: Origin,
    segment: nat,
    spoken: string,
    params: VoiceParams,
    voice: Option<Voice>,
    attached: bool)

  /** `speechSynthesis` as the controller sees it: `speaking`, `paused` and
      the voice list. */
  datatype Engine = Engine(speaking: bool, paused: bool, voices: seq<Voice>)

  /** `speechSynthesis.cancel()`: the queue is emptied, but a paused engine
      stays paused, so what is spoken next waits for `resume()`. */
  function Cancel(e: Engine): Engine {
    e.(speaking := false)
  }

  /** How many callbacks of each `setTimeout` are still pending. */
  datatype Timers = Timers(
    advance: nat,       // onend of an utterance: speakNextText after 100 ms
    seekSettle: nat,    // seekToPosition: isSeeking = false, speakCurrentSegment after 300 ms
    speedRestart: nat,  // applySpeedChange: speakNextText after 300 ms
    speedSettle: nat,   // after that restart: isAdjustingSpeed = false after 150 ms
    seekRelease: nat,   // progress slider pointerup: isSeeking = false after 100 ms
    speedRelease: nat)  // speed slider pointerup: isAdjustingSpeed = false after 100 ms

  datatype State = State(
    texts: seq<Segment>,
    index: nat,
    isPaused: bool,
    isSeeking: bool,
    isAdjustingSpeed: bool,
    rate: real,
    current: Option<nat>,
    utterances: seq<Utterance>,
    shown: nat,
    engine: Engine,
    timers: Timers)

  /** The globals' initial values, with the engine idle. */
  function Initial(voices: seq<Voice>): State {
    State([], 0, false, false, false, 1.0, None, [], 0, Engine(false, false, voices), Timers(0, 0, 0, 0, 0, 0))
  }

  /** What the controller keeps true: the current utterance exists and still
      has its handlers, and the script is paused only when the engine is. The
      converse fails: cancelling does not unpause the engine, while seeking and
      stopping clear `isPaused`. */
  predicate Inv(s: State) {
    && (s.current.Some? ==> s.current.value < |s.utterances| && s.utterances[s.current.value].attached)
    && (s.isPaused ==> s.engine.paused)
  }

  /** The state `stopSpeech` leaves. */
  predicate Stopped(s: State) {
    s.current.None? && !s.isPaused && !s.isSeeking && !s.engine.speaking
  }

  // ---------------------------------------------------------------------------
  // Speaking a segment

  /** `updateProgress`: the slider follows the index unless a slider is held. */
  function Progress(s: State): nat {
    if s.isAdjustingSpeed || s.isSeeking then s.shown else s.index
  }

  /** The common tail of `speakNextText` and `speakCurrentSegment`: update the
      progress, create the utterance for the current segment with its prepared
      text, parameters and voice, make it current, and hand it to the engine. */
  function Issue(s: State, origin: Origin): State
    requires s.index < |s.texts|
  {
    var seg := s.texts[s.index];
    var u := Utterance(origin, s.index, PrepareSpeechText(seg.text, seg.kind),
                       NaturalVoiceParams(s.rate, seg.kind, |seg.text|), SelectVoice(s.engine.voices), true);
    s.(shown := Progress(s), utterances := s.utterances + [u], current := Some(|s.utterances|),
       engine := s.engine.(speaking := true), isPaused := false)
  }

  /** `stopSpeech`. */
  function Stop(s: State): State {
    var cancelled := if s.engine.speaking then s.(engine := Cancel(s.engine)) else s;
    cancelled.(isSeeking := false, current := None, isPaused := false)
  }

  /** The first segment at or after `i` with a non-empty text, or `i` itself
      once `i` is past the end. */
  function NextSpeakable(texts: seq<Segment>, i: nat): (r: nat)
    ensures i <= r
    ensures r < |texts| ==> texts[r].text != []
    ensures i < |texts| ==> r <= |texts|
    ensures i >= |texts| ==> r == i
    ensures forall k :: i <= k < r ==> k < |texts| && texts[k].text == []
    decreases |texts| - i
  {
    if i >= |texts| || texts[i].text != [] then i else NextSpeakable(texts, i + 1)
  }

  /** `speakNextText`: stop at the end, skip segments without text, otherwise
      speak the segment at the current index. */
  function SpeakNext(s: State): State
    decreases |s.texts| - s.index
  {
    if s.index >= |s.texts| then Stop(s)
    else if s.texts[s.index].text == [] then SpeakNext(s.(index := s.index + 1))
    else Issue(s, Advance)
  }

  /** `speakCurrentSegment`: speak the current segment or do nothing. */
  function SpeakCurrent(s: State): State {
    if s.index >= |s.texts| || s.texts[s.index].text == [] then s else Issue(s, SeekPlay)
  }

  // ---------------------------------------------------------------------------
  // Play button

  /** `startSpeech`. */
  function Start(s: State): State {
    if |s.texts| == 0 then s
    else SpeakNext(s.(isSeeking := false, isAdjustingSpeed := false, index := 0))
  }

  /** `pauseSpeech`. */
  function Pause(s: State): State {
    if s.engine.speaking then s.(engine := s.engine.(paused := true), isPaused := true) else s
  }

  /** `resumeSpeech`. */
  function Resume(s: State): State {
    if s.engine.paused then s.(engine := s.engine.(paused := false), isPaused := false) else s
  }

  /** `toggleSpeech`. */
  function Toggle(s: State): State {
    if s.engine.speaking && !s.isPaused then Pause(s)
    else if s.isPaused then Resume(s)
    else Start(s)
  }

  // ---------------------------------------------------------------------------
  // Seeking and speed changes

  /** `seekToPosition(p)`, with `p` already parsed. The engine is cancelled but
      the current utterance keeps its handlers and stays current. */
  function Seek(s: State, p: int): State {
    if p < 0 || p >= |s.texts| then s.(isSeeking := false)
    else
      var t := s.(isSeeking := true, engine := Cancel(s.engine), isPaused := false, index := p);
      t.(shown := Progress(t), timers := t.timers.(seekSettle := t.timers.seekSettle + 1))
  }

  /** `onend = null; onerror = null` on the current utterance, if there is one. */
  function Detach(us: seq<Utterance>, current: Option<nat>): seq<Utterance> {
    match current
    case Some(id) => if id < |us| then us[id := us[id].(attached := false)] else us
    case None => us
  }

  /** `applySpeedChange(v)`, with `v` already parsed. */
  function ApplySpeed(s: State, v: real): State {
    var t := s.(rate := v);
    if s.engine.speaking && !s.isPaused then
      t.(isAdjustingSpeed := true, utterances := Detach(s.utterances, s.current),
         engine := Cancel(s.engine), current := None,
         timers := s.timers.(speedRestart := s.timers.speedRestart + 1))
    else t.(isAdjustingSpeed := false)
  }

  // ---------------------------------------------------------------------------
  // Engine callbacks

  /** The `onend` handler of utterance `id`, if it still has one. */
  function HandleEnd(s: State, id: nat): State
    requires id < |s.utterances|
  {
    var u := s.utterances[id];
    if !u.attached then s
    else match u.origin
      case Advance =>
        if s.current != Some(id) then s
        else if s.isSeeking || s.isAdjustingSpeed then s
        else s.(index := s.index + 1, timers := s.timers.(advance := s.timers.advance + 1))
      case SeekPlay =>
        if !s.isSeeking then s.(index := s.index + 1, timers := s.timers.(advance := s.timers.advance + 1)) else s
  }

  /** The `onerror` handler of utterance `id`, if it still has one: like
      `onend`, but it calls `speakNextText` at once. */
  function HandleError(s: State, id: nat): State
    requires id < |s.utterances|
  {
    var u := s.utterances[id];
    if !u.attached then s
    else match u.origin
      case Advance =>
        if s.current != Some(id) then s
        else if s.isSeeking || s.isAdjustingSpeed then s
        else SpeakNext(s.(index := s.index + 1))
      case SeekPlay =>
        if !s.isSeeking then SpeakNext(s.(index := s.index + 1)) else s
  }

  /** The engine has nothing left to say. */
  function DrainEngine(s: State): State
    requires !s.engine.paused
  {
    s.(engine := s.engine.(speaking := false))
  }

  // ---------------------------------------------------------------------------
  // Timers

  function FireAdvance(s: State): State
    requires s.timers.advance > 0
  {
    SpeakNext(s.(timers := s.timers.(advance := s.timers.advance - 1)))
  }

  function FireSeekSettle(s: State): State
    requires s.timers.seekSettle > 0
  {
    SpeakCurrent(s.(timers := s.timers.(seekSettle := s.timers.seekSettle - 1), isSeeking := false))
  }

  /** The restart after a speed change, which also arms the second timer. */
  function FireSpeedRestart(s: State): State
    requires s.timers.speedRestart > 0
  {
    var t := SpeakNext(s.(timers := s.timers.(speedRestart := s.timers.speedRestart - 1)));
    t.(timers := t.timers.(speedSettle := t.timers.speedSettle + 1))
  }

  function FireSpeedSettle(s: State): State
    requires s.timers.speedSettle > 0
  {
    s.(timers := s.timers.(speedSettle := s.timers.speedSettle - 1), isAdjustingSpeed := false)
  }

  function FireSeekRelease(s: State): State
    requires s.timers.seekRelease > 0
  {
    s.(timers := s.timers.(seekRelease := s.timers.seekRelease - 1), isSeeking := false)
  }

  function FireSpeedRelease(s: State): State
    requires s.timers.speedRelease > 0
  {
    s.(timers := s.timers.(speedRelease := s.timers.speedRelease - 1), isAdjustingSpeed := false)
  }

  // ---------------------------------------------------------------------------
  // Slider events and page changes

  function GrabProgress(s: State): State {
    s.(isSeeking := true)
  }

  function ReleaseProgress(s: State): State {
    s.(timers := s.timers.(seekRelease := s.timers.seekRelease + 1))
  }

  function GrabSpeed(s: State): State {
    s.(isAdjustingSpeed := true)
  }

  /** The speed slider's `input` event. */
  function DragSpeed(s: State, v: real): State {
    if s.isAdjustingSpeed then s.(rate := v) else s
  }

  /** The speed slider's `pointerup` event. */
  function ReleaseSpeed(s: State, v: real): State {
    var t := ApplySpeed(s, v);
    if !t.engine.speaking || t.isPaused then t.(timers := t.timers.(speedRelease := t.timers.speedRelease + 1)) else t
  }

  /** The playback part of `showHome`. */
  function ShowHome(s: State): State {
    var t := Stop(s);
    t.(texts := [], index := 0)
  }

  /** The playback part of `showArticle(id)`: the new segment list, and the
      slider reset by `showSpeechControls`. Playback itself is left alone. */
  function ShowArticle(s: State, articles: seq<Article>, id: int): State {
    match FindArticle(articles, id)
    case None => s
    case Some(a) => s.(texts := BuildSegments(a), shown := 0)
  }

  // ---------------------------------------------------------------------------
  // Events

  datatype Event =
    | PlayPressed
    | ProgressGrabbed
    | ProgressReleased
    | ProgressChanged(position: int)
    | SpeedGrabbed
    | SpeedDragged(value: real)
    | SpeedChanged(value: real)
    | SpeedReleased(value: real)
    | UtteranceEnded(id: nat)
    | UtteranceFailed(id: nat)
    | AdvanceTimer
    | SeekSettleTimer
    | SpeedRestartTimer
    | SpeedSettleTimer
    | SeekReleaseTimer
    | SpeedReleaseTimer
    | EngineDrained
    | HomeOpened
    | ArticleOpened(articles: seq<Article>, articleId: int)

  /** An event can happen: the engine only reports on utterances it was given,
      only pending timers expire, and a paused engine does not run dry. */
  predicate Enabled(s: State, e: Event) {
    match e
    case UtteranceEnded(id) => id < |s.utterances|
    case UtteranceFailed(id) => id < |s.utterances|
    case AdvanceTimer => s.timers.advance > 0
    case SeekSettleTimer => s.timers.seekSettle > 0
    case SpeedRestartTimer => s.timers.speedRestart > 0
    case SpeedSettleTimer => s.timers.speedSettle > 0
    case SeekReleaseTimer => s.timers.seekRelease > 0
    case SpeedReleaseTimer => s.timers.speedRelease > 0
    case EngineDrained => !s.engine.paused
    case _ => true
  }

  function Step(s: State, e: Event): State
    requires Enabled(s, e)
  {
    match e
    case PlayPressed => Toggle(s)
    case ProgressGrabbed => GrabProgress(s)
    case ProgressReleased => ReleaseProgress(s)
    case ProgressChanged(p) => Seek(s, p)
    case SpeedGrabbed => GrabSpeed(s)
    case SpeedDragged(v) => DragSpeed(s, v)
    case SpeedChanged(v) => ApplySpeed(s, v)
    case SpeedReleased(v) => ReleaseSpeed(s, v)
    case UtteranceEnded(id) => HandleEnd(s, id)
    case UtteranceFailed(id) => HandleError(s, id)
    case AdvanceTimer => FireAdvance(s)
    case SeekSettleTimer => FireSeekSettle(s)
    case SpeedRestartTimer => FireSpeedRestart(s)
    case SpeedSettleTimer => FireSpeedSettle(s)
    case SeekReleaseTimer => FireSeekRelease(s)
    case SpeedReleaseTimer => FireSpeedRelease(s)
    case EngineDrained => DrainEngine(s)
    case HomeOpened => ShowHome(s)
    case ArticleOpened(articles, id) => ShowArticle(s, articles, id)
  }

  /** The state after a sequence of events; an event that cannot happen in the
      state it meets is dropped. */
  function Run(s: State, es: seq<Event>): State
    decreases |es|
  {
    if es == [] then s
    else Run(if Enabled(s, es[0]) then Step(s, es[0]) else s, es[1..])
  }
}
