/** The playback controller as the script has it: module globals updated in
    place by the play button, the sliders, the page changes, the speech
    engine's callbacks and expired timers. Every method is proved to move the
    fields exactly as the matching function of `Playback` moves a `State`. */
module Controller {
  import opened Wrappers
  import opened Articles
  import opened Voices
  import opened SpeechText
  import opened Playback
  import opened PlaybackProperties

  class SpeechController {
    // the script's globals
    var articleTexts: seq<Segment>
    var currentTextIndex: nat
    var isPaused: bool
    var isSeeking: bool
    var isAdjustingSpeed: bool
    var speechRate: real
    var currentUtterance: Option<nat>
    // every utterance handed out so far; an id is a position in this list
    var utterances: seq<Utterance>
    // the speech engine, as far as the script looks at it
    var speaking: bool
    var enginePaused: bool
    var voices: seq<Voice>
    // the value the script last wrote to the progress slider
    var progressValue: nat
    // pending timers
    var advanceDue: nat
    var seekSettleDue: nat
    var speedRestartDue: nat
    var speedSettleDue: nat
    var seekReleaseDue: nat
    var speedReleaseDue: nat

    function Snapshot(): State
      reads this
    {
      State(articleTexts, currentTextIndex, isPaused, isSeeking, isAdjustingSpeed, speechRate,
            currentUtterance, utterances, progressValue, Engine(speaking, enginePaused, voices),
            Timers(advanceDue, seekSettleDue, speedRestartDue, speedSettleDue, seekReleaseDue, speedReleaseDue))
    }

    ghost predicate Valid()
      reads this
    {
      Inv(Snapshot())
    }

    constructor (engineVoices: seq<Voice>)
      ensures Valid() && Snapshot() == Initial(engineVoices)
    {
      articleTexts := [];
      currentTextIndex := 0;
      isPaused, isSeeking, isAdjustingSpeed := false, false, false;
      speechRate := 1.0;
      currentUtterance := None;
      utterances := [];
      speaking, enginePaused := false, false;
      voices := engineVoices;
      progressValue := 0;
      advanceDue, seekSettleDue, speedRestartDue := 0, 0, 0;
      speedSettleDue, seekReleaseDue, speedReleaseDue := 0, 0, 0;
    }

    // -------------------------------------------------------------------------
    // Speaking

    method UpdateProgress()
      requires Valid()
      modifies this
      ensures Valid() && Snapshot() == old(Snapshot()).(shown := Progress(old(Snapshot())))
    {
      if !(isAdjustingSpeed || isSeeking) {
        progressValue := currentTextIndex;
      }
    }

    /** Create the utterance for the current segment, make it current and
        speak it. */
    method IssueUtterance(origin: Origin)
      requires Valid() && currentTextIndex < |articleTexts|
      modifies this
      ensures Valid() && Snapshot() == Issue(old(Snapshot()), origin)
    {
      var textBlock := articleTexts[currentTextIndex];
      UpdateProgress();
      var processedText := PrepareSpeechText(textBlock.text, textBlock.kind);
      var voiceParams := NaturalVoiceParams(speechRate, textBlock.kind, |textBlock.text|);
      var voice := SelectVoice(voices);
      var id := |utterances|;
      utterances := utterances + [Utterance(origin, currentTextIndex, processedText, voiceParams, voice, true)];
      currentUtterance := Some(id);
      speaking := true;
      isPaused := false;
    }

    method StopSpeech()
      requires Valid()
      modifies this
      ensures Valid() && Snapshot() == Stop(old(Snapshot()))
    {
      isSeeking := false;
      if speaking {
        speaking := false;
      }
      currentUtterance := None;
      isPaused := false;
    }

    /** `speakNextText`; the script's recursive call over segments without
        text is the loop. */
    method SpeakNextText()
      requires Valid()
      modifies this
      ensures Valid() && Snapshot() == SpeakNext(old(Snapshot()))
    {
      while currentTextIndex < |articleTexts| && articleTexts[currentTextIndex].text == []
        invariant Valid() && Snapshot() == old(Snapshot()).(index := currentTextIndex)
        invariant SpeakNext(Snapshot()) == SpeakNext(old(Snapshot()))
        decreases |articleTexts| - currentTextIndex
      {
        currentTextIndex := currentTextIndex + 1;
      }
      if currentTextIndex >= |articleTexts| {
        StopSpeech();
        return;
      }
      IssueUtterance(Advance);
    }

    method SpeakCurrentSegment()
      requires Valid()
      modifies this
      ensures Valid() && Snapshot() == SpeakCurrent(old(Snapshot()))
    {
      if currentTextIndex >= |articleTexts| {
        return;
      }
      if articleTexts[currentTextIndex].text == [] {
        return;
      }
      IssueUtterance(SeekPlay);
    }

    // -------------------------------------------------------------------------
    // Play button

    method StartSpeech()
      requires Valid()
      modifies this
      ensures Valid() && Snapshot() == Start(old(Snapshot()))
    {
      if |articleTexts| == 0 {
        return;
      }
      isSeeking := false;
      isAdjustingSpeed := false;
      currentTextIndex := 0;
      SpeakNextText();
    }

    method PauseSpeech()
      requires Valid()
      modifies this
      ensures Valid() && Snapshot() == Pause(old(Snapshot()))
    {
      if speaking {
        enginePaused := true;
        isPaused := true;
      }
    }

    method ResumeSpeech()
      requires Valid()
      modifies this
      ensures Valid() && Snapshot() == Resume(old(Snapshot()))
    {
      if enginePaused {
        enginePaused := false;
        isPaused := false;
      }
    }

    method ToggleSpeech()
      requires Valid()
      modifies this
      ensures Valid() && Snapshot() == Step(old(Snapshot()), PlayPressed)
    {
      if speaking && !isPaused {
        PauseSpeech();
      } else if isPaused {
        ResumeSpeech();
      } else {
        StartSpeech();
      }
      StepPreservesInv(old(Snapshot()), PlayPressed);
    }

    // -------------------------------------------------------------------------
    // Sliders

    /** `seekToPosition`, reached by the progress slider's `change` event. */
    method SeekToPosition(position: int)
      requires Valid()
      modifies this
      ensures Valid() && Snapshot() == Step(old(Snapshot()), ProgressChanged(position))
    {
      if position < 0 || position >= |articleTexts| {
        isSeeking := false;
        return;
      }
      isSeeking := true;
      speaking := false;
      isPaused := false;
      currentTextIndex := position;
      UpdateProgress();
      seekSettleDue := seekSettleDue + 1;
    }

    /** `applySpeedChange`, reached by the speed slider's `change` event. */
    method ApplySpeedChange(value: real)
      requires Valid()
      modifies this
      ensures Valid() && Snapshot() == Step(old(Snapshot()), SpeedChanged(value))
    {
      if speaking && !isPaused {
        speechRate, isAdjustingSpeed := value, true;
        utterances, currentUtterance := Detach(utterances, currentUtterance), None;
        speaking := false;
        speedRestartDue := speedRestartDue + 1;
      } else {
        speechRate, isAdjustingSpeed := value, false;
      }
    }

    method ProgressPointerDown()
      requires Valid()
      modifies this
      ensures Valid() && Snapshot() == Step(old(Snapshot()), ProgressGrabbed)
    {
      isSeeking := true;
    }

    method ProgressPointerUp()
      requires Valid()
      modifies this
      ensures Valid() && Snapshot() == Step(old(Snapshot()), ProgressReleased)
    {
      seekReleaseDue := seekReleaseDue + 1;
    }

    method SpeedPointerDown()
      requires Valid()
      modifies this
      ensures Valid() && Snapshot() == Step(old(Snapshot()), SpeedGrabbed)
    {
      isAdjustingSpeed := true;
    }

    method SpeedInput(value: real)
      requires Valid()
      modifies this
      ensures Valid() && Snapshot() == Step(old(Snapshot()), SpeedDragged(value))
    {
      if isAdjustingSpeed {
        speechRate := value;
      }
    }

    method SpeedPointerUp(value: real)
      requires Valid()
      modifies this
      ensures Valid() && Snapshot() == Step(old(Snapshot()), SpeedReleased(value))
    {
      ApplySpeedChange(value);
      if !speaking || isPaused {
        speedReleaseDue := speedReleaseDue + 1;
      }
    }

    // -------------------------------------------------------------------------
    // Engine callbacks

    method OnEnd(id: nat)
      requires Valid() && id < |utterances|
      modifies this
      ensures Valid() && Snapshot() == Step(old(Snapshot()), UtteranceEnded(id))
    {
      var u := utterances[id];
      if !u.attached {
        return;
      }
      match u.origin
      case Advance =>
        if currentUtterance != Some(id) {
          return;
        }
        if isSeeking || isAdjustingSpeed {
          return;
        }
        currentTextIndex := currentTextIndex + 1;
        advanceDue := advanceDue + 1;
      case SeekPlay =>
        if !isSeeking {
          currentTextIndex := currentTextIndex + 1;
          advanceDue := advanceDue + 1;
        }
    }

    method OnError(id: nat)
      requires Valid() && id < |utterances|
      modifies this
      ensures Valid() && Snapshot() == Step(old(Snapshot()), UtteranceFailed(id))
    {
      var u := utterances[id];
      if !u.attached {
        return;
      }
      if u.origin == Advance {
        if currentUtterance != Some(id) {
          return;
        }
        if isSeeking || isAdjustingSpeed {
          return;
        }
        currentTextIndex := currentTextIndex + 1;
        SpeakNextText();
      } else if !isSeeking {
        currentTextIndex := currentTextIndex + 1;
        SpeakNextText();
      }
      StepPreservesInv(old(Snapshot()), UtteranceFailed(id));
    }

    method EngineIdle()
      requires Valid() && !enginePaused
      modifies this
      ensures Valid() && Snapshot() == Step(old(Snapshot()), EngineDrained)
    {
      speaking := false;
    }

    // -------------------------------------------------------------------------
    // Timers

    method AdvanceTimerFired()
      requires Valid() && advanceDue > 0
      modifies this
      ensures Valid() && Snapshot() == Step(old(Snapshot()), AdvanceTimer)
    {
      advanceDue := advanceDue - 1;
      SpeakNextText();
      StepPreservesInv(old(Snapshot()), AdvanceTimer);
    }

    method SeekSettleFired()
      requires Valid() && seekSettleDue > 0
      modifies this
      ensures Valid() && Snapshot() == Step(old(Snapshot()), SeekSettleTimer)
    {
      seekSettleDue := seekSettleDue - 1;
      isSeeking := false;
      SpeakCurrentSegment();
    }

    method SpeedRestartFired()
      requires Valid() && speedRestartDue > 0
      modifies this
      ensures Valid() && Snapshot() == Step(old(Snapshot()), SpeedRestartTimer)
    {
      speedRestartDue := speedRestartDue - 1;
      SpeakNextText();
      speedSettleDue := speedSettleDue + 1;
      StepPreservesInv(old(Snapshot()), SpeedRestartTimer);
    }

    method SpeedSettleFired()
      requires Valid() && speedSettleDue > 0
      modifies this
      ensures Valid() && Snapshot() == Step(old(Snapshot()), SpeedSettleTimer)
    {
      speedSettleDue := speedSettleDue - 1;
      isAdjustingSpeed := false;
    }

    method SeekReleaseFired()
      requires Valid() && seekReleaseDue > 0
      modifies this
      ensures Valid() && Snapshot() == Step(old(Snapshot()), SeekReleaseTimer)
    {
      seekReleaseDue := seekReleaseDue - 1;
      isSeeking := false;
    }

    method SpeedReleaseFired()
      requires Valid() && speedReleaseDue > 0
      modifies this
      ensures Valid() && Snapshot() == Step(old(Snapshot()), SpeedReleaseTimer)
    {
      speedReleaseDue := speedReleaseDue - 1;
      isAdjustingSpeed := false;
    }

    // -------------------------------------------------------------------------
    // Pages

    method ShowHome()
      requires Valid()
      modifies this
      ensures Valid() && Snapshot() == Step(old(Snapshot()), HomeOpened)
    {
      StopSpeech();
      articleTexts := [];
      currentTextIndex := 0;
    }

    method ShowArticle(articles: seq<Article>, articleId: int)
      requires Valid()
      modifies this
      ensures Valid() && Snapshot() == Step(old(Snapshot()), ArticleOpened(articles, articleId))
    {
      var found := FindArticle(articles, articleId);
      if found.None? {
        return;
      }
      articleTexts := BuildSegments(found.value);
      progressValue := 0;
    }
  }
}
