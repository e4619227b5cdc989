# Narrated interview articles: a Dafny model of the speech playback

The site lists interview articles as cards, filtered by category and tag. An
opened article is read aloud with the browser's speech synthesis, one segment
at a time. The reader has a play/pause button, a progress slider to seek to a
segment, and a speed slider. This project models the logic behind that in
`script.js`, and proves properties of the model:

- **Text preparation** (`SpeechText`): `preprocessTextForSpeech`. It adds pauses
  (ideographic spaces) after `、` and `。` and around `「」`, and rewrites the
  counters 年/社/日 after digits to their readings ねん/しゃ/にち. After a heading
  it adds a trailing pause.
- **Voice** (`Voices`): `getNaturalVoiceParams`, which sets rate, pitch and
  volume by segment kind and speeds up long texts. Also the filter-then-find
  that picks a Japanese voice.
- **Articles** (`Articles`): the segment list that `showArticle` builds, the
  card predicate of `renderArticleCards`, and `collectAllTags`.
- **Playback controller**: `Playback` defines the controller on values. A
  `State` holds the script's globals, the engine's `speaking`/`paused` flags,
  every utterance created so far (its id is its position, and it keeps its
  origin and a "handlers attached" bit), the value the script last wrote to
  the progress slider, and the
  pending timers. Each operation of the script is one function, and `Step`
  dispatches the events that can reach the controller. `PlaybackProperties`
  proves the guarding logic about those functions. `Controller.SpeechController`
  is the imperative form: a class whose fields are the globals. Each method is
  proved to change the fields exactly as the matching `Playback` function
  changes a `State`, and to keep the invariant `Inv` (as `Valid()`).

Time is abstracted away. Each `setTimeout` adds to a pending counter of its
kind, and a timer event (for example `SeekSettleFired`) can fire while its
counter is positive. The engine's `onend`/`onerror` may be delivered for any
utterance ever created, in any order; this covers the events a browser may or
may not fire on `cancel()`. The proved properties hold for every order of
events.

Some behaviours of the code that the model keeps and the lemmas make explicit:

- The handlers of `speakNextText` check that their utterance is still current,
  then check `isSeeking || isAdjustingSpeed`. The handlers of
  `speakCurrentSegment` check only `!isSeeking`. So, once no seek is in
  progress, an event on one of the latter advances the index even if the
  utterance was superseded (`SeekPlayHandlersGuardOnlySeeking`).
- `seekToPosition` cancels the engine but keeps `currentUtterance` and its
  handlers. Its own `updateProgress` call is always skipped, because
  `isSeeking` was set just before it (`SeekInRange`).
- `seekToPosition` keeps `isSeeking` set until its 300 ms settle timer, but
  the progress slider's `pointerup` arms a 100 ms timer that clears it
  earlier. If the interrupted `speakNextText` utterance's end event arrives
  between the two, it passes every guard: the index moves past the target,
  and the settle timer speaks the segment after the one sought
  (`ReleaseBeforeSettleSkipsTarget`).
- `speechSynthesis.cancel()` empties the engine's queue but does not unpause
  it, so a seek, `stopSpeech` or going home while paused clears `isPaused`
  and leaves the engine paused.
  - After a seek, the settle timer hands the target to the paused engine,
    where it waits in silence. The play button finds the engine speaking and
    the script not paused, so the first press pauses and only the second
    resumes (`SeekWhilePausedQueuesSilently`).
  - After `stopSpeech` the engine is no longer speaking, so the first press
    falls through to `startSpeech`, which hands the first speakable segment
    to the still-paused engine in silence. The second press pauses and only
    the third resumes (`StopWhilePausedLeavesEnginePaused`,
    `StopWhilePausedNeedsThreePresses`). Going home is the same once an
    article is opened again.
- Two seeks whose settle timers both fire afterwards request the second
  target twice, with no cancel in between (`SecondSeekWins`).
- The speed rate is taken as given. The code does not clamp it to the
  slider's range.
- On the speed slider's `pointerup`, the test `!speaking || isPaused` runs
  after `applySpeedChange`. That call has already cancelled any running
  speech, so the release timer is armed in every case
  (`ReleaseSpeedAlwaysArmsTimer`).
- An article whose `content` is an empty list (truthy in JavaScript) gets no
  placeholder. Only a missing `content` does.
- Opening an article replaces the segment list without stopping playback.

## Model

| member | source | states |
|---|---|---|
| SpeechText.PrepareSpeechText | script.js:2-24 | a heading's text ends with the three-pause suffix, and a text without punctuation, brackets or digits is spoken as written (plus that suffix for a heading); its other properties are the rows below: HeadingAddsTrailingPause, PreparedTextHasNoDigitCounterPair, InsertPausesIsPerCharacter, ExpandCounterIsPositional |
| SpeechText.InsertPauses | script.js:5-11 | a text without `、`, `。`, `「` or `」` is unchanged; InsertPausesIsPerCharacter, PunctuationIsFollowedByPauses and InsertPausesOnlyAddsPauses state the rest |
| SpeechText.ExpandCounter | script.js:14-16 | a text without the counter, or without digits, is unchanged; ExpandCounterIsPositional states the rest |
| SpeechText.ExpandNumerals | script.js:14-16 | a text without digits is unchanged; PreparedTextHasNoDigitCounterPair states that no digit-counter pair survives the three rules |
| SpeechText.ReplaceChar | script.js:6-11 | a global literal replacement leaves a text without the character unchanged |
| SpeechText.ReplaceCharAppend | script.js:6-11 | a global literal replacement of a concatenation is the concatenation of the replacements |
| SpeechText.ReplaceCharSingle | script.js:6-11 | a single character becomes the replacement exactly when it is the replaced character, and stays otherwise |
| SpeechText.InsertPausesOnlyAddsPauses | script.js:5-11 | with pause characters removed, the output of the four punctuation substitutions equals the input: they only insert pauses |
| SpeechText.InsertPausesIsPerCharacter | script.js:5-11 | the four successive substitutions equal one pass that pads each character on its own: `、` to `、　`, `。` to `。　　`, `「` to `　「`, `」` to `」　` |
| SpeechText.InsertPausesAt | script.js:5-11 | each character is padded in place, whatever text surrounds it |
| SpeechText.PunctuationIsFollowedByPauses | script.js:5-11 | in the output every `、` and `」` is directly followed by one pause, every `。` by two, and every `「` directly follows a pause |
| SpeechText.ExpandCounterIsPositional | script.js:14-16 | one counter rule turns exactly each counter that follows an ASCII digit into its reading and keeps every other character, in order |
| SpeechText.PreparedTextHasNoDigitCounterPair | script.js:2-24 | in the prepared text of any segment no ASCII digit is directly followed by 年, 社 or 日 |
| SpeechText.HeadingAddsTrailingPause | script.js:19-21 | a heading's prepared text is the same text of any other kind followed by exactly three ideographic spaces |
| Voices.NaturalVoiceParams | script.js:27-58 | for a non-negative requested rate the rate lies between 0.9 and 1.05 times it, and pitch and volume are positive with volume at most 1.0; `KindOrdering` states how the table ranks the kinds, and the rows below state the unknown-kind default and the long-text boost |
| Voices.KindOrdering | script.js:35-50 | for a positive requested rate and one text length, a heading is slower and lower than a profile, which is slower and lower than a paragraph; a heading is louder than a paragraph, and a paragraph and a profile share one volume |
| Voices.PitchAndVolumeDependOnlyOnKind | script.js:34-50 | pitch and volume do not depend on the requested rate or the text length |
| Voices.UnknownKindIsNeutral | script.js:28-32 | a kind other than heading/paragraph/profile gets the requested rate, pitch 1.0 and volume 1.0 (rate times 1.05 for long texts) |
| Voices.LongTextIsBoosted | script.js:53-55 | for the same kind and rate, a text longer than 200 gets exactly 1.05 times the rate of one of at most 200, all else equal |
| Voices.LongTextIsFaster | script.js:53-55 | with a positive requested rate a long text is spoken strictly faster |
| Voices.RateIsProportionalToRequested | script.js:27-58 | the rate is the requested rate times a factor fixed by kind and length |
| Voices.SelectVoiceIsRanked | script.js:436-448 | filter-then-find picks the first preferred voice with a female name, else the first preferred voice, else none |
| Voices.SelectVoice | script.js:436-642 | the voice chosen by the filter-then-find of speakNextText (436-448) and speakCurrentSegment (630-642) comes from the engine's list and passes the filter; SelectVoiceIsRanked states which one |
| Voices.DefaultVoiceOnlyWhenNonePreferred | script.js:436-448 | the engine's default voice is kept exactly when no voice passes the filter |
| Articles.BlockSegments | script.js:164-180 | the segments are paragraph and heading blocks with their own kind, text and block index, indices strictly increase, and every such block is present |
| Articles.BuildSegments | script.js:159-209 | the segment indices strictly increase; without content there is exactly one placeholder paragraph at index 0; with a profile the last segment is the profile at index content.length |
| Articles.ContentSegments | script.js:161-198 | with content, all segments before the profile are exactly the spoken blocks, in source order, tagged with their block index |
| Articles.FindArticle | script.js:136-137 | the found article is the first with the requested id; nothing is found exactly when no article has it |
| Articles.VisibleArticles | script.js:104-108 | an article is rendered as a card exactly when it matches the category and tag filters |
| Articles.VisibleArticlesAppend | script.js:104-129 | the cards of a concatenated catalogue are the cards of its parts, in order |
| Articles.VisibleArticlesAt | script.js:104-129 | each article keeps its place: it is rendered once, between the cards of the articles around it, exactly when it passes the filters |
| Articles.NoFilterShowsAll | script.js:105-106 | with both filters at "all" every card is rendered, in order |
| Articles.CollectAllTags | script.js:79-85 | a tag is collected exactly when some article lists it |
| Articles.OfferedTagsShowCards | script.js:79-108 | every collected tag shows at least one card under category "all", and every tag (other than "all") that shows a card is collected |
| Playback.NextSpeakable | script.js:400-413 | the index speakNextText reaches: the first segment at or after i with text, every skipped segment having none |
| PlaybackProperties.SpeakNextFromSpeakable | script.js:406-413 | speakNextText passing over segments without text acts as if it had started at the first segment with text |
| PlaybackProperties.SpeakNextSkipsEmptySegments | script.js:397-501 | speakNextText speaks the first segment with text from the current index on, or stops when there is none |
| PlaybackProperties.SpeakNextPastEndStops | script.js:400-404 | with the index at or past the end, speakNextText ends in the stopped state |
| PlaybackProperties.StopIsIdempotent | script.js:694-717 | stopSpeech leaves no current utterance, isPaused, isSeeking and speaking false, keeps the index, and a second call changes nothing |
| PlaybackProperties.StartWithoutSegmentsDoesNothing | script.js:379-383 | with no segments, startSpeech, and the play button when idle, change nothing |
| PlaybackProperties.AdvanceHandlersGuard | script.js:456-495 | an end or error event on a speakNextText utterance changes nothing when it lost its handlers, is not current, or a seek or speed change is under way; otherwise end adds exactly 1 to the index and error moves it to the next segment with text |
| PlaybackProperties.SeekPlayHandlersGuardOnlySeeking | script.js:650-667 | the handlers of a speakCurrentSegment utterance do nothing while seeking and otherwise advance the index, whether or not the utterance is current |
| PlaybackProperties.SeekOutOfRange | script.js:568-572 | a position outside the list clears isSeeking and keeps the index, the engine, the current utterance and the timers: no settle timer is armed, so nothing is spoken for it |
| PlaybackProperties.SeekInRange | script.js:574-596 | a position inside the list sets the index to it, clears isPaused, cancels the engine, sets isSeeking, arms the settle timer, writes nothing to the progress slider, and leaves the current utterance and the utterances unchanged |
| PlaybackProperties.SeekingShieldsEngineEvents | script.js:466-469 | while isSeeking holds, no end or error event changes anything |
| PlaybackProperties.SeekSettleSpeaksTarget | script.js:592-595 | when the settle timer fires, isSeeking is false and a new current utterance for the seek target is handed to the engine |
| PlaybackProperties.SeekWhilePausedQueuesSilently | script.js:366-691 | a seek while paused (578-579) leaves the engine paused with isPaused false; the settle timer queues the target on the paused engine; the play button (369-375) then pauses, and only a second press resumes |
| PlaybackProperties.StopWhilePausedLeavesEnginePaused | script.js:366-717 | stopSpeech while paused (701-707) leaves the engine paused with isPaused false; the play button then runs startSpeech, which leaves the engine paused |
| PlaybackProperties.StopWhilePausedNeedsThreePresses | script.js:366-717 | after stopSpeech while paused, when some segment has text: the first press (startSpeech) queues the first speakable segment on the paused engine, the second press pauses, and only the third resumes |
| PlaybackProperties.ReleaseBeforeSettleSkipsTarget | script.js:292-596 | when the progress slider's release timer (314-317) clears isSeeking before the seek's settle timer (592-595) and the still-current utterance then ends, the index moves to the target plus one and the settle timer speaks that segment, with one more advance pending |
| PlaybackProperties.SecondSeekWins | script.js:562-596 | after two seeks and both settle timers, the index is the second target, every new utterance is for it (two of them) and the last is current |
| PlaybackProperties.SpeedChangeWhilePlaying | script.js:748-769 | while speaking and not paused, the rate is set, the index kept, the current utterance detached so its events change nothing, no utterance is current, isAdjustingSpeed is set and a restart is pending |
| PlaybackProperties.SpeedChangeWhileStopped | script.js:781-785 | otherwise the rate is set and isAdjustingSpeed cleared; the index, engine, current utterance, utterances and timers are kept, so no restart is armed and no utterance is made |
| PlaybackProperties.SpeedRestartResumesSameSegment | script.js:771-780 | the restart speaks the same segment with parameters computed from the new rate and arms the timer that ends the speed change |
| PlaybackProperties.ReleaseSpeedAlwaysArmsTimer | script.js:342-353 | releasing the speed slider arms the isAdjustingSpeed release timer in every state |
| PlaybackProperties.ShowHomeStops | script.js:225-240 | going home stops playback and empties the segment list with the index at 0 |
| PlaybackProperties.ShowArticleLoadsSegments | script.js:135-285 | opening an unknown id (135-137) changes nothing; a known one replaces the segment list and resets the slider (284-285); playback is not stopped: the index, flags, rate, engine, current utterance, utterances and timers are kept |
| PlaybackProperties.StepPreservesInv | script.js:366-786 | every event keeps the invariant: the current utterance exists and has its handlers, and isPaused implies the engine is paused |
| PlaybackProperties.RunPreservesInv | script.js:366-786 | the invariant holds after any sequence of events |
| PlaybackProperties.RunExtends | script.js:366-786 | across any sequence of events, utterances keep their origin, never regain handlers, and the current utterance is the old one, none, or a newer one |
| PlaybackProperties.DetachedUtteranceStaysInert | script.js:757-760 | once an utterance's handlers are removed, its events change nothing after any later sequence of events |
| PlaybackProperties.SupersededUtteranceStaysInert | script.js:460-463 | a speakNextText utterance that is no longer current never becomes current again, so its events change nothing thereafter |
| PlaybackProperties.SpeedChangeDisarmsForGood | script.js:756-765 | the utterance a speed change interrupts stays without effect after any later events |
| PlaybackProperties.PlayThenAdvance | script.js:456-475 | three segments: play, the first utterance ends, the timer fires: segment 1 is spoken and written to the progress slider |
| PlaybackProperties.PlayThenSeek | script.js:562-596 | three segments: play, then seek to 2 before the first utterance ends: that end is ignored during and after the seek and segment 2 is spoken |
| Controller.SpeechController.constructor | script.js:63-69 | the globals start at their initial values with the engine idle, and the invariant holds |
| Controller.SpeechController.UpdateProgress | script.js:519-539 | the index is written to the progress slider unless a slider operation is under way |
| Controller.SpeechController.IssueUtterance | script.js:417-500 | a fresh utterance with the prepared text, parameters and voice becomes current and the engine speaks |
| Controller.SpeechController.StopSpeech | script.js:694-717 | the fields change as Playback.Stop says |
| Controller.SpeechController.SpeakNextText | script.js:397-501 | the loop and what follows change the fields as Playback.SpeakNext says |
| Controller.SpeechController.SpeakCurrentSegment | script.js:599-673 | the fields change as Playback.SpeakCurrent says |
| Controller.SpeechController.StartSpeech | script.js:379-394 | the fields change as Playback.Start says |
| Controller.SpeechController.PauseSpeech | script.js:676-682 | the engine and isPaused become paused only while speaking |
| Controller.SpeechController.ResumeSpeech | script.js:685-691 | the engine and isPaused resume only if the engine is paused |
| Controller.SpeechController.ToggleSpeech | script.js:366-376 | the play button dispatches to pause, resume or start; the invariant is kept |
| Controller.SpeechController.SeekToPosition | script.js:562-596 | the progress slider's change event changes the fields as Playback.Seek says |
| Controller.SpeechController.ApplySpeedChange | script.js:736-786 | the speed slider's change event changes the fields as Playback.ApplySpeed says |
| Controller.SpeechController.ProgressPointerDown | script.js:296-299 | isSeeking is set |
| Controller.SpeechController.ProgressPointerUp | script.js:312-318 | the isSeeking release timer is armed |
| Controller.SpeechController.SpeedPointerDown | script.js:324-327 | isAdjustingSpeed is set |
| Controller.SpeechController.SpeedInput | script.js:329-335 | the rate follows the slider only while isAdjustingSpeed |
| Controller.SpeechController.SpeedPointerUp | script.js:342-353 | applySpeedChange, then the release timer when the engine is not speaking or paused |
| Controller.SpeechController.OnEnd | script.js:456-667 | the onend handlers of speakNextText (456-475) and of speakCurrentSegment (650-658) change the fields as Playback.HandleEnd says |
| Controller.SpeechController.OnError | script.js:478-667 | the onerror handlers of speakNextText (478-495) and of speakCurrentSegment (661-667) change the fields as Playback.HandleError says |
| Controller.SpeechController.EngineIdle | script.js:701-703 | the engine stops speaking on its own; nothing else changes |
| Controller.SpeechController.AdvanceTimerFired | script.js:472-474 | the 100 ms timer after an end event runs speakNextText |
| Controller.SpeechController.SeekSettleFired | script.js:592-595 | the 300 ms seek timer clears isSeeking and runs speakCurrentSegment |
| Controller.SpeechController.SpeedRestartFired | script.js:771-780 | the 300 ms speed timer runs speakNextText and arms the 150 ms timer |
| Controller.SpeechController.SpeedSettleFired | script.js:776-779 | the 150 ms timer clears isAdjustingSpeed |
| Controller.SpeechController.SeekReleaseFired | script.js:314-317 | the progress slider's release timer clears isSeeking |
| Controller.SpeechController.SpeedReleaseFired | script.js:348-351 | the speed slider's release timer clears isAdjustingSpeed |
| Controller.SpeechController.ShowHome | script.js:225-240 | stopSpeech, then the segment list emptied and the index reset |
| Controller.SpeechController.ShowArticle | script.js:135-285 | the found article's segments replace the list and the slider is reset; an unknown id changes nothing |

## Left out

- SpeechText.ReplaceChar: its own contract says only that a text without the character is unchanged.
  That each occurrence becomes the replacement is stated by `ReplaceCharSingle` and `ReplaceCharAppend`.
- Articles.VisibleArticles: its own contract says which articles are shown, not their order.
  The order is stated by `VisibleArticlesAppend` and `VisibleArticlesAt`.

- HTML and DOM work is not modelled: card, tag-filter and article markup, `highlightCurrentSegment`,
  `updatePlayButton`, `updateProgressDisplay`, `updateSpeedDisplay` (display only, as is `changeSpeed`),
  `showSpeechControls` (apart from the slider reset) and `hideSpeechControls`, the menu, the resize
  and load listeners, and logging. The progress slider's `input` event only updates the display and is
  left out.
- `filterCategory` and `filterByTag` are not modelled. They only set the filter globals and re-render
  (or go home). The card predicate takes the filter values as parameters.
- `renderTagFilter` renders tags in the insertion order of a JavaScript `Set`. `CollectAllTags` is a
  set and has no order.
- The speech engine is reduced to its `speaking` and `paused` flags. `speechSynthesis.pending` is folded
  into `speaking`, and queued utterances are not modelled. `cancel()` clears `speaking` and keeps
  `paused`; `speak()` sets `speaking` and keeps `paused`. Audio, the `onstart` handler (it only logs),
  and the choice of events a browser fires on `cancel()` are left to the environment. Any end or error
  event may arrive for any utterance ever created.
- Timer durations (100, 150 and 300 ms) are not modelled. A pending timer may fire at any point after
  it is armed, so the model also allows orders that real timing rules out.
- Numbers are exact `real`s, not IEEE doubles. `parseFloat`/`parseInt` of slider values are taken as
  already parsed; a range input never yields `NaN`.
- `\d` is an ASCII digit. `text.length` is the number of Unicode characters, not UTF-16 code units.
  Every segment is assumed to have a text, possibly empty. A text missing from the data is not
  modelled: `speakNextText` would skip it like an empty one, but `seekToPosition` would throw at
  `targetBlock.text.substring` (script.js:586) after setting `isSeeking`, cancelling and moving the
  index, so no settle timer would be armed. Missing profile fields (rendered as "undefined") are not modelled.
- `speakNextText` skips segments without text by calling itself. `SpeechController.SpeakNextText` does
  this with a loop over the index.
- The voice list is fixed when the controller is created. `onvoiceschanged` only logs.
- `pauseDuringSeek` and `wasPausedBeforeSeek` are dead code and are not modelled.
- `articlesData` is defined outside `script.js`. Articles are passed in as a parameter.
