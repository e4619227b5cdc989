/** What the playback controller guarantees, and where it does not. */
module PlaybackProperties {
  import opened Wrappers
  import opened Articles
  import opened Voices
  import opened Playback

  // ---------------------------------------------------------------------------
  // Advancing

  /** `speakNextText` passes over the segments without text as if it had
      started at the first one with text. */
  lemma {:induction false} SpeakNextFromSpeakable(s: State)
    ensures SpeakNext(s) == SpeakNext(s.(index := NextSpeakable(s.texts, s.index)))
    decreases |s.texts| - s.index
  {
    if s.index < |s.texts| && s.texts[s.index].text == [] {
      var next := s.(index := s.index + 1);
      SpeakNextFromSpeakable(next);
      assert next.(index := NextSpeakable(next.texts, next.index))
          == s.(index := NextSpeakable(s.texts, s.index));
    } else {
      assert s.(index := NextSpeakable(s.texts, s.index)) == s;
    }
  }

  /** `speakNextText` skips the segments without text and then either speaks the
      first segment that has one or, past the end, stops. */
  lemma SpeakNextSkipsEmptySegments(s: State)
    ensures var k := NextSpeakable(s.texts, s.index);
            SpeakNext(s) == if k < |s.texts| then Issue(s.(index := k), Advance) else Stop(s.(index := k))
  {
    SpeakNextFromSpeakable(s);
  }

  /** Past the end of the list, `speakNextText` ends in the stopped state. */
  lemma SpeakNextPastEndStops(s: State)
    requires s.index >= |s.texts|
    ensures SpeakNext(s) == Stop(s) && Stopped(SpeakNext(s))
  {
  }

  /** `stopSpeech` reaches the stopped state, keeps the position, and a second
      call changes nothing. */
  lemma StopIsIdempotent(s: State)
    ensures Stopped(Stop(s)) && Stop(s).index == s.index && Stop(s).texts == s.texts
    ensures Stop(Stop(s)) == Stop(s)
  {
  }

  /** `startSpeech`, and the play button when nothing is playing, change
      nothing while the article has no segments. */
  lemma StartWithoutSegmentsDoesNothing(s: State)
    requires |s.texts| == 0
    ensures Start(s) == s
    ensures !s.engine.speaking && !s.isPaused ==> Toggle(s) == s
  {
  }

  lemma AdvanceEndGuard(s: State, id: nat)
    requires id < |s.utterances| && s.utterances[id].origin == Advance
    ensures !s.utterances[id].attached || s.current != Some(id) || s.isSeeking || s.isAdjustingSpeed ==>
              HandleEnd(s, id) == s
    ensures s.utterances[id].attached && s.current == Some(id) && !s.isSeeking && !s.isAdjustingSpeed ==>
              HandleEnd(s, id) == s.(index := s.index + 1, timers := s.timers.(advance := s.timers.advance + 1))
  {
  }

  lemma AdvanceErrorGuard(s: State, id: nat)
    requires id < |s.utterances| && s.utterances[id].origin == Advance
    ensures !s.utterances[id].attached || s.current != Some(id) || s.isSeeking || s.isAdjustingSpeed ==>
              HandleError(s, id) == s
    ensures s.utterances[id].attached && s.current == Some(id) && !s.isSeeking && !s.isAdjustingSpeed ==>
              HandleError(s, id).index == NextSpeakable(s.texts, s.index + 1)
  {
    var t := s.(index := s.index + 1);
    SpeakNextSkipsEmptySegments(t);
    if s.utterances[id].attached && s.current == Some(id) && !s.isSeeking && !s.isAdjustingSpeed {
      assert HandleError(s, id) == SpeakNext(t);
    }
  }

  /** The guard of the handlers made by `speakNextText`: an event on an
      utterance that lost its handlers, is no longer current, or arrives while a
      slider operation is under way changes nothing; otherwise the index moves
      on by exactly one (`onend`, which leaves the speaking to a timer) or to
      the next segment with text (`onerror`, which speaks at once). */
  lemma AdvanceHandlersGuard(s: State, id: nat)
    requires id < |s.utterances| && s.utterances[id].origin == Advance
    ensures !s.utterances[id].attached || s.current != Some(id) || s.isSeeking || s.isAdjustingSpeed ==>
              HandleEnd(s, id) == s && HandleError(s, id) == s
    ensures s.utterances[id].attached && s.current == Some(id) && !s.isSeeking && !s.isAdjustingSpeed ==>
              HandleEnd(s, id) == s.(index := s.index + 1, timers := s.timers.(advance := s.timers.advance + 1))
              && HandleError(s, id).index == NextSpeakable(s.texts, s.index + 1)
  {
    AdvanceEndGuard(s, id);
    AdvanceErrorGuard(s, id);
  }

  /** The handlers made by `speakCurrentSegment` check `isSeeking` only: once
      no seek is in progress, their events advance the index even when the
      utterance is no longer current or a speed change is under way. */
  lemma SeekPlayHandlersGuardOnlySeeking(s: State, id: nat)
    requires id < |s.utterances| && s.utterances[id].origin == SeekPlay && s.utterances[id].attached
    ensures s.isSeeking ==> HandleEnd(s, id) == s && HandleError(s, id) == s
    ensures !s.isSeeking ==> HandleEnd(s, id) == s.(index := s.index + 1, timers := s.timers.(advance := s.timers.advance + 1))
    ensures !s.isSeeking ==> HandleError(s, id).index == NextSpeakable(s.texts, s.index + 1)
  {
    SpeakNextSkipsEmptySegments(s.(index := s.index + 1));
  }

  // ---------------------------------------------------------------------------
  // Seeking

  /** A position outside the list clears `isSeeking` and does nothing else:
      the index, the engine and the current utterance stay, and no settle timer
      is armed, so nothing is spoken for it later. */
  lemma SeekOutOfRange(s: State, p: int)
    requires p < 0 || p >= |s.texts|
    ensures var t := Seek(s, p);
            !t.isSeeking && t.index == s.index && t.isPaused == s.isPaused
            && t.engine == s.engine && t.current == s.current && t.utterances == s.utterances
            && t.timers == s.timers && t.shown == s.shown && t.texts == s.texts
  {
  }

  /** A position inside the list cancels the engine, moves the index there,
      clears `isPaused`, sets `isSeeking` until the settle timer, and writes
      nothing to the progress slider and leaves the current utterance as it
      was. */
  lemma SeekInRange(s: State, p: int)
    requires 0 <= p < |s.texts|
    ensures var t := Seek(s, p);
            t.index == p && !t.isPaused && t.isSeeking && !t.engine.speaking
            && t.timers.seekSettle == s.timers.seekSettle + 1
            && t.shown == s.shown && t.current == s.current && t.utterances == s.utterances
  {
  }

  /** While `isSeeking` holds, no engine event changes anything at all. */
  lemma SeekingShieldsEngineEvents(s: State, id: nat)
    requires id < |s.utterances| && s.isSeeking
    ensures HandleEnd(s, id) == s && HandleError(s, id) == s
  {
  }

  /** When the settle timer fires, the seek target is spoken by a fresh
      utterance that becomes current. */
  lemma SeekSettleSpeaksTarget(s: State, p: int)
    requires 0 <= p < |s.texts| && s.texts[p].text != []
    ensures var t := FireSeekSettle(Seek(s, p));
            !t.isSeeking && t.index == p && t.engine.speaking
            && t.current == Some(|s.utterances|) && |t.utterances| == |s.utterances| + 1
            && t.utterances[|s.utterances|].segment == p && t.utterances[|s.utterances|].origin == SeekPlay
  {
  }

  /** A seek while paused: `cancel()` leaves the engine paused while the seek
      clears `isPaused`. The settle timer hands the target to a paused engine,
      where it waits in silence. The play button then sees an engine that is
      speaking and a script that is not paused, so it pauses; only a second
      press resumes the engine. */
  lemma SeekWhilePausedQueuesSilently(s: State, p: int)
    requires Inv(s) && s.isPaused
    requires 0 <= p < |s.texts| && s.texts[p].text != []
    ensures var t := FireSeekSettle(Seek(s, p));
            t.index == p && t.current == Some(|s.utterances|) && t.engine.speaking
            && t.engine.paused && !t.isPaused
            && Toggle(t) == Pause(t) && Toggle(t).engine.paused && Toggle(t).isPaused
            && !Toggle(Toggle(t)).engine.paused && !Toggle(Toggle(t)).isPaused
  {
  }

  /** Stopping while paused leaves the engine paused. The play button then
      starts from the first segment, and what it hands to the engine waits for
      a resume that this press does not give. */
  lemma StopWhilePausedLeavesEnginePaused(s: State)
    requires Inv(s) && s.isPaused
    ensures Stop(s).engine.paused && !Stop(s).isPaused
    ensures Toggle(Stop(s)) == Start(Stop(s)) && Toggle(Stop(s)).engine.paused
  {
    var t := Stop(s);
    if |t.texts| > 0 {
      SpeakNextSkipsEmptySegments(t.(isSeeking := false, isAdjustingSpeed := false, index := 0));
    }
  }

  /** After a stop while paused, with some segment to speak: the first press
      queues the first speakable segment on the still-paused engine, so the
      second press pauses and only the third resumes. */
  lemma StopWhilePausedNeedsThreePresses(s: State)
    requires Inv(s) && s.isPaused
    requires NextSpeakable(s.texts, 0) < |s.texts|
    ensures var u := Toggle(Stop(s));
            u.index == NextSpeakable(s.texts, 0) && u.engine.speaking && u.engine.paused && !u.isPaused
            && Toggle(u) == Pause(u) && Toggle(u).isPaused
            && !Toggle(Toggle(u)).engine.paused && !Toggle(Toggle(u)).isPaused
  {
    var t := Stop(s);
    StopWhilePausedLeavesEnginePaused(s);
    SpeakNextSkipsEmptySegments(t.(isSeeking := false, isAdjustingSpeed := false, index := 0));
  }

  /** Two seeks whose settle timers both fire afterwards: every utterance made
      for them is for the second target, and the last one is current. No
      request is made for the first target, but the second is requested twice
      without a cancel in between. */
  lemma SecondSeekWins(s: State, n: int, m: int)
    requires 0 <= n < |s.texts| && 0 <= m < |s.texts| && s.texts[m].text != []
    ensures var t := FireSeekSettle(FireSeekSettle(Seek(Seek(s, n), m)));
            t.index == m && |t.utterances| == |s.utterances| + 2
            && (forall k :: |s.utterances| <= k < |t.utterances| ==> t.utterances[k].segment == m)
            && t.current == Some(|s.utterances| + 1)
  {
  }

  /** The progress slider's release timer (100 ms after `pointerup`) can clear
      `isSeeking` before the seek's own settle timer (300 ms after `change`).
      The seek kept the interrupted `speakNextText` utterance current with its
      handlers, so if its end event arrives in between it is taken as a real
      completion: the index moves past the target, and the settle timer speaks
      the segment after the one sought, with a second advance still pending. */
  lemma ReleaseBeforeSettleSkipsTarget(s: State, p: int)
    requires s.current.Some? && s.current.value < |s.utterances|
    requires s.utterances[s.current.value].origin == Advance && s.utterances[s.current.value].attached
    requires !s.isAdjustingSpeed
    requires 0 <= p && p + 1 < |s.texts| && s.texts[p + 1].text != []
    ensures var id := s.current.value;
            var seeking := ReleaseProgress(Seek(GrabProgress(s), p));
            var released := FireSeekRelease(seeking);
            var ended := HandleEnd(released, id);
            var t := FireSeekSettle(ended);
            seeking.index == p && seeking.current == Some(id)
            && ended.index == p + 1 && ended.timers.advance == s.timers.advance + 1
            && t.index == p + 1 && t.current == Some(|s.utterances|)
            && t.utterances[|s.utterances|].segment == p + 1
            && t.timers.advance == s.timers.advance + 1
  {
  }

  // ---------------------------------------------------------------------------
  // Speed changes

  /** A speed change while speaking: the rate is set, the index kept, the
      current utterance loses its handlers so that its later events change
      nothing, nothing is current, and a restart is pending. */
  lemma SpeedChangeWhilePlaying(s: State, v: real)
    requires Inv(s) && s.engine.speaking && !s.isPaused
    ensures var t := ApplySpeed(s, v);
            t.rate == v && t.index == s.index && t.current.None? && t.isAdjustingSpeed && !t.engine.speaking
            && t.timers.speedRestart == s.timers.speedRestart + 1 && |t.utterances| == |s.utterances|
            && (s.current.Some? ==>
                  var id := s.current.value;
                  !t.utterances[id].attached
                  && HandleEnd(t, id) == t && HandleError(t, id) == t)
  {
  }

  /** A speed change while not speaking sets the rate and clears
      `isAdjustingSpeed`; the engine, the index and the utterances stay, and no
      restart is armed, so no utterance is made for it. */
  lemma SpeedChangeWhileStopped(s: State, v: real)
    requires !(s.engine.speaking && !s.isPaused)
    ensures var t := ApplySpeed(s, v);
            t.rate == v && !t.isAdjustingSpeed
            && t.index == s.index && t.engine == s.engine && t.current == s.current
            && t.utterances == s.utterances && t.timers == s.timers && t.isPaused == s.isPaused
  {
  }

  /** The restart after a speed change speaks the same segment, at the new
      rate, and arms the timer that ends the speed change. */
  lemma SpeedRestartResumesSameSegment(s: State, v: real)
    requires Inv(s) && s.engine.speaking && !s.isPaused
    requires s.index < |s.texts| && s.texts[s.index].text != []
    ensures var t := FireSpeedRestart(ApplySpeed(s, v));
            var seg := s.texts[s.index];
            t.index == s.index && t.current == Some(|s.utterances|) && |t.utterances| == |s.utterances| + 1
            && t.utterances[|s.utterances|].segment == s.index
            && t.utterances[|s.utterances|].params == NaturalVoiceParams(v, seg.kind, |seg.text|)
            && t.isAdjustingSpeed && t.timers.speedSettle == s.timers.speedSettle + 1
  {
  }

  /** Releasing the speed slider always arms the timer that clears
      `isAdjustingSpeed`: when speech was running, `applySpeedChange` has just
      cancelled it, so the test meant to skip that case finds nothing speaking. */
  lemma ReleaseSpeedAlwaysArmsTimer(s: State, v: real)
    ensures ReleaseSpeed(s, v).timers.speedRelease == s.timers.speedRelease + 1
  {
  }

  // ---------------------------------------------------------------------------
  // Leaving and opening articles

  lemma ShowHomeStops(s: State)
    ensures var t := ShowHome(s);
            Stopped(t) && t.texts == [] && t.index == 0
  {
  }

  /** Opening an article replaces the segment list and resets the slider; it
      does not stop what is playing: the index, the flags, the engine, the
      current utterance and the utterances' handlers are left as they were. An
      unknown id changes nothing. */
  lemma ShowArticleLoadsSegments(s: State, articles: seq<Article>, id: int)
    ensures FindArticle(articles, id).None? ==> ShowArticle(s, articles, id) == s
    ensures var t := ShowArticle(s, articles, id);
            t.index == s.index && t.isPaused == s.isPaused && t.isSeeking == s.isSeeking
            && t.isAdjustingSpeed == s.isAdjustingSpeed && t.rate == s.rate
            && t.engine == s.engine && t.current == s.current && t.utterances == s.utterances
            && t.timers == s.timers
    ensures FindArticle(articles, id).Some? ==>
              var t := ShowArticle(s, articles, id);
              t.texts == BuildSegments(FindArticle(articles, id).value) && t.shown == 0
  {
  }

  // ---------------------------------------------------------------------------
  // The invariant

  lemma {:induction false} SpeakNextPreservesInv(s: State)
    requires Inv(s)
    ensures Inv(SpeakNext(s))
    decreases |s.texts| - s.index
  {
    if s.index < |s.texts| && s.texts[s.index].text == [] {
      SpeakNextPreservesInv(s.(index := s.index + 1));
    }
  }

  lemma ApplySpeedKeepsInv(s: State, v: real)
    requires Inv(s)
    ensures Inv(ApplySpeed(s, v))
  {
  }

  /** The events that go on to speak keep the invariant. */
  lemma SpeakingStepPreservesInv(s: State, e: Event)
    requires Inv(s) && Enabled(s, e)
    requires e.PlayPressed? || e.UtteranceFailed? || e.AdvanceTimer? || e.SpeedRestartTimer?
    ensures Inv(Step(s, e))
  {
    match e
    case PlayPressed =>
      if !(s.engine.speaking && !s.isPaused) && !s.isPaused && |s.texts| > 0 {
        SpeakNextPreservesInv(s.(isSeeking := false, isAdjustingSpeed := false, index := 0));
      }
    case UtteranceFailed(id) =>
      SpeakNextPreservesInv(s.(index := s.index + 1));
    case AdvanceTimer =>
      SpeakNextPreservesInv(s.(timers := s.timers.(advance := s.timers.advance - 1)));
    case SpeedRestartTimer =>
      SpeakNextPreservesInv(s.(timers := s.timers.(speedRestart := s.timers.speedRestart - 1)));
  }

  /** The events that only set flags, arm timers, cancel or seek keep the
      invariant. */
  lemma QuietStepPreservesInv(s: State, e: Event)
    requires Inv(s) && Enabled(s, e)
    requires !(e.PlayPressed? || e.UtteranceFailed? || e.AdvanceTimer? || e.SpeedRestartTimer?)
    ensures Inv(Step(s, e))
  {
  }

  lemma StepPreservesInv(s: State, e: Event)
    requires Inv(s) && Enabled(s, e)
    ensures Inv(Step(s, e))
  {
    if e.PlayPressed? || e.UtteranceFailed? || e.AdvanceTimer? || e.SpeedRestartTimer? {
      SpeakingStepPreservesInv(s, e);
    } else {
      QuietStepPreservesInv(s, e);
    }
  }

  lemma {:induction false} RunPreservesInv(s: State, es: seq<Event>)
    requires Inv(s)
    ensures Inv(Run(s, es))
    decreases |es|
  {
    if es != [] {
      var next := if Enabled(s, es[0]) then Step(s, es[0]) else s;
      if Enabled(s, es[0]) { StepPreservesInv(s, es[0]); }
      RunPreservesInv(next, es[1..]);
    }
  }

  // ---------------------------------------------------------------------------
  // Old utterances stay old

  /** `t` is a later state than `s`: the utterances of `s` are still there with
      their origins, none of them got its handlers back, and the current
      utterance is the old one, none, or one made after `s`. */
  predicate Extends(s: State, t: State) {
    && |s.utterances| <= |t.utterances|
    && (forall id :: 0 <= id < |s.utterances| ==>
          t.utterances[id].origin == s.utterances[id].origin
          && (t.utterances[id].attached ==> s.utterances[id].attached))
    && (t.current == s.current || t.current.None? || t.current.value >= |s.utterances|)
  }

  lemma ExtendsTransitive(s: State, t: State, u: State)
    requires Extends(s, t) && Extends(t, u)
    ensures Extends(s, u)
  {
  }

  lemma IssueExtends(s: State, origin: Origin)
    requires s.index < |s.texts|
    ensures Extends(s, Issue(s, origin))
  {
    var t := Issue(s, origin);
    assert forall id :: 0 <= id < |s.utterances| ==> t.utterances[id] == s.utterances[id];
  }

  lemma {:induction false} SpeakNextExtends(s: State)
    ensures Extends(s, SpeakNext(s))
    decreases |s.texts| - s.index
  {
    if s.index < |s.texts| {
      if s.texts[s.index].text == [] {
        SpeakNextExtends(s.(index := s.index + 1));
      } else {
        IssueExtends(s, Advance);
      }
    }
  }

  lemma SpeakingStepExtends(s: State, e: Event)
    requires Enabled(s, e)
    requires e.PlayPressed? || e.UtteranceFailed? || e.AdvanceTimer? || e.SeekSettleTimer? || e.SpeedRestartTimer?
    ensures Extends(s, Step(s, e))
  {
    match e
    case PlayPressed =>
      if !(s.engine.speaking && !s.isPaused) && !s.isPaused && |s.texts| > 0 {
        SpeakNextExtends(s.(isSeeking := false, isAdjustingSpeed := false, index := 0));
      }
    case UtteranceFailed(id) =>
      SpeakNextExtends(s.(index := s.index + 1));
    case AdvanceTimer =>
      SpeakNextExtends(s.(timers := s.timers.(advance := s.timers.advance - 1)));
    case SeekSettleTimer =>
      var t := s.(timers := s.timers.(seekSettle := s.timers.seekSettle - 1), isSeeking := false);
      if t.index < |t.texts| && t.texts[t.index].text != [] { IssueExtends(t, SeekPlay); }
    case SpeedRestartTimer =>
      SpeakNextExtends(s.(timers := s.timers.(speedRestart := s.timers.speedRestart - 1)));
  }

  /** A speed change takes the current utterance's handlers away. */
  lemma DetachExtends(s: State, v: real)
    ensures Extends(s, ApplySpeed(s, v)) && Extends(s, ReleaseSpeed(s, v))
  {
    var t := ApplySpeed(s, v);
    assert forall id :: 0 <= id < |s.utterances| ==>
      t.utterances[id].origin == s.utterances[id].origin
      && (t.utterances[id].attached ==> s.utterances[id].attached);
  }

  lemma QuietStepExtends(s: State, e: Event)
    requires Enabled(s, e)
    requires !(e.PlayPressed? || e.UtteranceFailed? || e.AdvanceTimer? || e.SeekSettleTimer? || e.SpeedRestartTimer?)
    ensures Extends(s, Step(s, e))
  {
    if e.SpeedChanged? || e.SpeedReleased? {
      DetachExtends(s, e.value);
    } else {
      var t := Step(s, e);
      assert t.utterances == s.utterances && (t.current == s.current || t.current.None?);
    }
  }

  lemma StepExtends(s: State, e: Event)
    requires Enabled(s, e)
    ensures Extends(s, Step(s, e))
  {
    if e.PlayPressed? || e.UtteranceFailed? || e.AdvanceTimer? || e.SeekSettleTimer? || e.SpeedRestartTimer? {
      SpeakingStepExtends(s, e);
    } else {
      QuietStepExtends(s, e);
    }
  }

  lemma {:induction false} RunExtends(s: State, es: seq<Event>)
    ensures Extends(s, Run(s, es))
    decreases |es|
  {
    if es != [] {
      var next := if Enabled(s, es[0]) then Step(s, es[0]) else s;
      if Enabled(s, es[0]) { StepExtends(s, es[0]); }
      RunExtends(next, es[1..]);
      ExtendsTransitive(s, next, Run(next, es[1..]));
    }
  }

  /** Once a speed change has taken an utterance's handlers away, no later
      event on that utterance changes anything, whatever happens in between. */
  lemma DetachedUtteranceStaysInert(s: State, es: seq<Event>, id: nat)
    requires id < |s.utterances| && !s.utterances[id].attached
    ensures var t := Run(s, es);
            Enabled(t, UtteranceEnded(id)) && Step(t, UtteranceEnded(id)) == t && Step(t, UtteranceFailed(id)) == t
  {
    RunExtends(s, es);
  }

  /** Once an utterance made by `speakNextText` is no longer current, it never
      becomes current again, so its later events change nothing. */
  lemma SupersededUtteranceStaysInert(s: State, es: seq<Event>, id: nat)
    requires id < |s.utterances| && s.utterances[id].origin == Advance && s.current != Some(id)
    ensures var t := Run(s, es);
            Enabled(t, UtteranceEnded(id)) && Step(t, UtteranceEnded(id)) == t && Step(t, UtteranceFailed(id)) == t
  {
    RunExtends(s, es);
  }

  /** A speed change while speaking disarms the utterance it interrupts for
      good. */
  lemma SpeedChangeDisarmsForGood(s: State, v: real, es: seq<Event>)
    requires Inv(s) && s.engine.speaking && !s.isPaused && s.current.Some?
    ensures var id := s.current.value;
            var t := Run(ApplySpeed(s, v), es);
            Enabled(t, UtteranceEnded(id)) && Step(t, UtteranceEnded(id)) == t && Step(t, UtteranceFailed(id)) == t
  {
    SpeedChangeWhilePlaying(s, v);
    DetachedUtteranceStaysInert(ApplySpeed(s, v), es, s.current.value);
  }

  // ---------------------------------------------------------------------------
  // Scenarios

  /** Three segments, play, the first utterance ends, the timer fires: the
      second segment is spoken and written to the progress slider. */
  lemma PlayThenAdvance(s: State)
    requires |s.texts| == 3 && forall k :: 0 <= k < 3 ==> s.texts[k].text != []
    requires !s.engine.speaking && !s.isPaused
    ensures var id := |s.utterances|;
            var t1 := Toggle(s);
            t1.current == Some(id) && t1.index == 0
            && var t2 := HandleEnd(t1, id);
               t2.index == 1 && t2.timers.advance == s.timers.advance + 1
               && var t3 := FireAdvance(t2);
                  t3.index == 1 && t3.shown == 1 && t3.current == Some(id + 1)
                  && t3.utterances[id + 1].segment == 1
  {
  }

  /** Three segments, play, seek to the last one before the first utterance
      ends: that utterance's end is ignored during the seek and after the
      settle timer, and the last segment is what is spoken. */
  lemma PlayThenSeek(s: State)
    requires |s.texts| == 3 && forall k :: 0 <= k < 3 ==> s.texts[k].text != []
    requires !s.engine.speaking && !s.isPaused
    ensures var id := |s.utterances|;
            var t1 := Seek(Toggle(s), 2);
            HandleEnd(t1, id) == t1
            && var t2 := FireSeekSettle(t1);
               HandleEnd(t2, id) == t2 && t2.index == 2 && t2.current == Some(id + 1)
               && t2.utterances[id + 1].segment == 2
  {
  }
}
