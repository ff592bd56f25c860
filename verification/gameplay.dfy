/**
  The round controller of the play screen (src/screens/GamePlayScreen.tsx)
  as a pure transition function over events.

  Each handler is modelled as reading the round state current when it
  runs. The speech module's callbacks (results, end, error), the mic,
  skip and give-up buttons, and the delayed callback scheduled after a
  correct answer are all events. Side effects become fields of the
  transition: the experience granted, whether the delayed advance was
  scheduled, and the summary handed to navigation.
*/
module GamePlay {
  import opened Wrappers
  import opened Words
  import Progression

  /** The texts shown under the mic button. */
  datatype Status = TapToSpeak | Listening | Correct | TryAgain | ErrorPrompt

  function Message(s: Status): string {
    match s
    case TapToSpeak => "Tap the Mic to Speak"
    case Listening => "Listening..."
    case Correct => "Correct!"
    case TryAgain => "Try Again!"
    case ErrorPrompt => "Error! Tap to try again."
  }

  /** The screen's state hooks. */
  datatype RoundState = RoundState(
    wordList: seq<WordItem>,
    currentWordIndex: int,
    score: int,
    isListening: bool,
    recognizedText: string,
    status: Status)

  /**
    What can happen to a round. `SpeechResults` carries the recognizer's
    `value` list, which may be missing. The mic button's handler awaits
    native calls, so it is split at each wait: `MicPress` is the part
    before the first wait (`android` says whether a permission request
    comes first), and `PermissionDone`, `StartDone` and `StopDone` are the
    parts run when the permission request, `Voice.start` or `Voice.stop`
    settles, carrying whether it succeeded. Other events may arrive in
    between. `Advance` is the delayed callback scheduled after a correct
    answer.
  */
  datatype Event =
    | SpeechResults(value: Option<seq<string>>)
    | SpeechEnd
    | SpeechError
    | MicPress(android: bool)
    | PermissionDone(ok: bool)
    | StartDone(ok: bool)
    | StopDone(ok: bool)
    | Advance
    | Skip
    | GiveUp

  /** One entry of the summary: a round word (its random time is not modelled). */
  datatype WordStat = WordStat(word: string, image: string)

  /** The parameters of the navigation to the final statistics screen. */
  datatype Summary = Summary(finalScore: int, roundWords: seq<WordStat>)

  /** A handled event: the next state and the effects it asked for. */
  datatype Transition = Transition(
    next: RoundState,
    xpGranted: nat,
    advanceScheduled: bool,
    navigation: Option<Summary>)

  /** `checkAnswer` reads the current word; with no word at the index it throws. */
  datatype Fault = MissingCurrentWord

  const CorrectAward: int := 100
  const CorrectXp: nat := 10

  /** The state once the word-list effect has run: index, score and texts at their initial values. */
  function NewRound(category: string, wordCount: int, order: seq<nat>): RoundState
    requires IsOrder(order, |Pool(category)|)
  {
    RoundState(SelectWords(category, wordCount, order), 0, 0, false, "", TapToSpeak)
  }

  // ---------------------------------------------------------------------------
  // Answer comparison
  // ---------------------------------------------------------------------------

  predicate IsAsciiUpper(c: char) {
    'A' <= c <= 'Z'
  }

  predicate IsAsciiLower(c: char) {
    'a' <= c <= 'z'
  }

  function LowerChar(c: char): char {
    if IsAsciiUpper(c) then (c as int + 32) as char else c
  }

  /** `toLowerCase`, restricted to the ASCII letters: no upper-case letter is left and nothing else moves. */
  function Lower(s: string): (r: string)
    ensures |r| == |s|
    // a corollary of the next clause, stated for callers
    ensures forall i :: 0 <= i < |s| ==> !IsAsciiUpper(r[i])
    ensures forall i :: 0 <= i < |s| ==>
      if IsAsciiUpper(s[i]) then IsAsciiLower(r[i]) && r[i] as int == s[i] as int + 32 else r[i] == s[i]
  {
    if s == [] then [] else [LowerChar(s[0])] + Lower(s[1..])
  }

  /** The answer check: lower-case forms equal, nothing trimmed. */
  predicate IsCorrect(spoken: string, target: string) {
    Lower(spoken) == Lower(target)
  }

  /** Two characters are the same letter up to ASCII case. */
  predicate SameLetter(a: char, b: char) {
    || a == b
    || (IsAsciiUpper(a) && IsAsciiLower(b) && b as int - a as int == 32)
    || (IsAsciiLower(a) && IsAsciiUpper(b) && a as int - b as int == 32)
  }

  /** Reference definition: position by position the same letters up to case. */
  predicate EqualIgnoringCase(a: string, b: string) {
    |a| == |b| && forall i :: 0 <= i < |a| ==> SameLetter(a[i], b[i])
  }

  // ---------------------------------------------------------------------------
  // Handlers
  // ---------------------------------------------------------------------------

  /** The render guard: with no word at the index the screen shows only a loading text. */
  predicate Playable(s: RoundState) {
    0 <= s.currentWordIndex < |s.wordList|
  }

  function NoEffect(s: RoundState): Transition {
    Transition(s, 0, false, None)
  }

  /** The summary built on the last word: every word of the list, in order. */
  function Stats(ws: seq<WordItem>): (st: seq<WordStat>)
    ensures |st| == |ws|
    ensures forall i :: 0 <= i < |ws| ==> st[i].word == ws[i].word && st[i].image == ws[i].image
  {
    if ws == [] then [] else [WordStat(ws[0].word, ws[0].image)] + Stats(ws[1..])
  }

  /** `checkAnswer`: compare, then score, grant and schedule the advance, or ask to try again. */
  function CheckAnswer(s: RoundState, spoken: string): (r: Result<Transition, Fault>)
    ensures r.Failure? <==> !Playable(s)
    ensures r.Success? ==>
      && r.value.next == s.(status := r.value.next.status, score := r.value.next.score)
      && r.value.navigation.None?
      && (r.value.xpGranted == CorrectXp <==> IsCorrect(spoken, s.wordList[s.currentWordIndex].word))
      && (r.value.xpGranted == CorrectXp ==>
            r.value.next.score == s.score + CorrectAward && r.value.next.status == Correct && r.value.advanceScheduled)
      && (r.value.xpGranted != CorrectXp ==>
            r.value.next.score == s.score && r.value.next.status == TryAgain && r.value.xpGranted == 0
            && !r.value.advanceScheduled)
  {
    if !(0 <= s.currentWordIndex < |s.wordList|) then
      Failure(MissingCurrentWord)
    else if IsCorrect(spoken, s.wordList[s.currentWordIndex].word) then
      Success(Transition(s.(status := Correct, score := s.score + CorrectAward), CorrectXp, true, None))
    else
      Success(NoEffect(s.(status := TryAgain)))
  }

  /** `onSpeechResults`: only the first alternative is shown and checked; no alternatives, no change. */
  function OnSpeechResults(s: RoundState, value: Option<seq<string>>): Result<Transition, Fault> {
    if value.None? || |value.value| == 0 then
      Success(NoEffect(s))
    else
      CheckAnswer(s.(recognizedText := value.value[0]), value.value[0])
  }

  /** `handleNextWord`: move to the next word, or on the last word hand the summary to navigation. */
  function HandleNextWord(s: RoundState): (t: Transition)
    ensures t.navigation.Some? <==> s.currentWordIndex >= |s.wordList| - 1
    ensures t.xpGranted == 0 && !t.advanceScheduled && t.next.score == s.score && t.next.wordList == s.wordList
    ensures t.navigation.None? ==> t.next.currentWordIndex == s.currentWordIndex + 1 && t.next.recognizedText == ""
    ensures t.navigation.Some? ==>
      && t.next == s
      && t.navigation.value.finalScore == s.score
      && |t.navigation.value.roundWords| == |s.wordList|
      && forall i :: 0 <= i < |s.wordList| ==> t.navigation.value.roundWords[i].word == s.wordList[i].word
  {
    if s.currentWordIndex < |s.wordList| - 1 then
      NoEffect(s.(currentWordIndex := s.currentWordIndex + 1, recognizedText := ""))
    else
      Transition(s, 0, false, Some(Summary(s.score, Stats(s.wordList))))
  }

  /** What runs just before `Voice.start` is awaited: clear the text and show "Listening...". */
  function BeginListening(s: RoundState): RoundState {
    s.(recognizedText := "", status := Listening)
  }

  /**
    `handleMicButtonPress` up to its first wait. While listening it only
    calls `Voice.stop`; on Android it first awaits the permission request;
    otherwise it clears the text, shows "Listening..." and calls
    `Voice.start`. The flag itself changes only when a call settles.
  */
  function HandleMicPress(s: RoundState, android: bool): (r: RoundState)
    ensures r.isListening == s.isListening
    ensures s.isListening || android ==> r == s
    ensures !s.isListening && !android ==> r == s.(recognizedText := "", status := Listening)
  {
    if s.isListening || android then s else BeginListening(s)
  }

  /** Dispatch one event. The buttons exist only while the guard lets the word render. */
  function Step(s: RoundState, e: Event): (r: Result<Transition, Fault>)
    ensures r.Failure? <==>
      e.SpeechResults? && e.value.Some? && |e.value.value| > 0 && !Playable(s)
    ensures r.Success? ==> r.value.next.wordList == s.wordList
    ensures r.Success? ==>
      || (r.value.xpGranted == CorrectXp && r.value.next.score == s.score + CorrectAward && r.value.advanceScheduled)
      || (r.value.xpGranted == 0 && r.value.next.score == s.score && !r.value.advanceScheduled)
    ensures r.Success? && r.value.navigation.Some? ==>
      && r.value.navigation.value.finalScore == s.score
      && |r.value.navigation.value.roundWords| == |s.wordList|
  {
    match e
    case SpeechResults(value) => OnSpeechResults(s, value)
    case SpeechEnd => Success(NoEffect(s.(isListening := false, status := TapToSpeak)))
    case SpeechError => Success(NoEffect(s.(status := ErrorPrompt, isListening := false)))
    case MicPress(android) => Success(NoEffect(if Playable(s) then HandleMicPress(s, android) else s))
    case PermissionDone(ok) => Success(NoEffect(if ok then BeginListening(s) else s))
    case StartDone(ok) => Success(NoEffect(if ok then s.(isListening := true) else s))
    case StopDone(ok) => Success(NoEffect(if ok then s.(isListening := false) else s))
    case Advance => Success(HandleNextWord(s))
    case Skip => Success(if Playable(s) then HandleNextWord(s) else NoEffect(s))
    case GiveUp => Success(if Playable(s) then HandleNextWord(s) else NoEffect(s))
  }

  /** What a sequence of events accumulates: the last state, the experience granted, the summaries sent. */
  datatype RunOutcome = RunOutcome(last: RoundState, xp: nat, summaries: seq<Summary>)

  /** Apply events in order; a thrown handler stops the run. */
  function Run(s: RoundState, events: seq<Event>): Result<RunOutcome, Fault>
    decreases |events|
  {
    if events == [] then Success(RunOutcome(s, 0, []))
    else
      match Step(s, events[0])
      case Failure(f) => Failure(f)
      case Success(t) =>
        match Run(t.next, events[1..])
        case Failure(f) => Failure(f)
        case Success(o) =>
          var sent := if t.navigation.Some? then [t.navigation.value] else [];
          Success(RunOutcome(o.last, t.xpGranted + o.xp, sent + o.summaries))
  }

  /** The controller's invariant: the index is in range (0 on an empty list) and the score is whole hundreds. */
  predicate Inv(s: RoundState) {
    && 0 <= s.currentWordIndex
    && (|s.wordList| == 0 ==> s.currentWordIndex == 0)
    && (|s.wordList| > 0 ==> s.currentWordIndex < |s.wordList|)
    && s.score >= 0
    && s.score % CorrectAward == 0
  }

  // ---------------------------------------------------------------------------
  // Lemmas
  // ---------------------------------------------------------------------------

  /** A fresh round starts at the first word with no score, not listening, inviting a tap. */
  lemma NewRoundInv(category: string, wordCount: int, order: seq<nat>)
    requires IsOrder(order, |Pool(category)|)
    ensures var s := NewRound(category, wordCount, order);
      && Inv(s)
      && s.wordList == SelectWords(category, wordCount, order)
      && s.currentWordIndex == 0
      && s.score == 0
      && !s.isListening
      && s.recognizedText == ""
      && Message(s.status) == "Tap the Mic to Speak"
  {
  }

  lemma LowerCharSame(a: char, b: char)
    ensures LowerChar(a) == LowerChar(b) <==> SameLetter(a, b)
  {
  }

  /** The lower-case comparison accepts exactly the strings equal up to ASCII case. */
  lemma IsCorrectIff(spoken: string, target: string)
    ensures IsCorrect(spoken, target) <==> EqualIgnoringCase(spoken, target)
  {
    var ls, lt := Lower(spoken), Lower(target);
    if IsCorrect(spoken, target) {
      forall i | 0 <= i < |spoken|
        ensures SameLetter(spoken[i], target[i])
      {
        assert ls[i] == lt[i];
        LowerCharSame(spoken[i], target[i]);
      }
    }
    if EqualIgnoringCase(spoken, target) {
      forall i | 0 <= i < |spoken|
        ensures ls[i] == lt[i]
      {
        LowerCharSame(spoken[i], target[i]);
      }
      assert ls == lt;
    }
  }

  /**
    Every pool word is plain ASCII letters and contains no 'k' or 'K', the
    only letter a non-ASCII character (the Kelvin sign) lower-cases to on
    its own. So for these targets the ASCII-only folding decides as the
    full Unicode `toLowerCase` would.
  */
  lemma PoolWordsAsciiWithoutK(category: string)
    ensures forall w :: w in Pool(category) ==> AsciiWithoutK(w.word)
  {
    assert AsciiWithoutK("Apple") && AsciiWithoutK("Banana");
    assert AsciiWithoutK("Cat") && AsciiWithoutK("Dog");
    assert AsciiWithoutK("Soccer") && AsciiWithoutK("Baseball");
  }

  /** ASCII letters only, none of them 'k' or 'K'. */
  predicate AsciiWithoutK(word: string) {
    forall i :: 0 <= i < |word| ==>
      (IsAsciiUpper(word[i]) || IsAsciiLower(word[i])) && word[i] != 'k' && word[i] != 'K'
  }

  /** Case does not matter; a trailing blank does. */
  lemma AnswerExamples()
    ensures IsCorrect("APPLE", "Apple")
    ensures IsCorrect("apple", "Apple")
    ensures !IsCorrect("Apple ", "Apple")
  {
    assert Lower("APPLE") == "apple";
    assert Lower("Apple") == "apple";
    assert |Lower("Apple ")| == 6;
  }

  /** Every handler keeps the index in range and the score in whole hundreds, and never redraws the list. */
  lemma StepPreservesInv(s: RoundState, e: Event)
    requires Inv(s) && Step(s, e).Success?
    ensures Inv(Step(s, e).value.next)
  {
  }

  /** The only handler that throws is a non-empty speech result while there is no word to compare with. */
  lemma StepFaultsOnlyWithoutWords(s: RoundState, e: Event)
    requires Inv(s)
    ensures Step(s, e).Failure? <==>
      |s.wordList| == 0 && e.SpeechResults? && e.value.Some? && |e.value.value| > 0
  {
  }

  /** A result event with a missing or empty list of alternatives changes nothing. */
  lemma EmptyResultsChangeNothing(s: RoundState, value: Option<seq<string>>)
    requires value.None? || value.value == []
    ensures Step(s, SpeechResults(value)) == Success(Transition(s, 0, false, None))
  {
  }

  /** A first alternative matching the current word: +100, 10 xp, "Correct!", the advance scheduled, same word. */
  lemma CorrectAnswer(s: RoundState, alternatives: seq<string>)
    requires Playable(s) && |alternatives| > 0
    requires IsCorrect(alternatives[0], s.wordList[s.currentWordIndex].word)
    ensures Step(s, SpeechResults(Some(alternatives))).Success?
    ensures var t := Step(s, SpeechResults(Some(alternatives))).value;
      && t.next.score == s.score + 100
      && t.xpGranted == 10
      && Message(t.next.status) == "Correct!"
      && t.advanceScheduled
      && t.next.currentWordIndex == s.currentWordIndex
      && t.next.recognizedText == alternatives[0]
      && t.navigation.None?
    ensures Step(s, SpeechResults(Some(alternatives))) ==
      Success(Transition(s.(recognizedText := alternatives[0], status := Correct, score := s.score + 100), 10, true, None))
  {
  }

  /** Any other first alternative: score and index kept, no grant, "Try Again!". */
  lemma WrongAnswer(s: RoundState, alternatives: seq<string>)
    requires Playable(s) && |alternatives| > 0
    requires !IsCorrect(alternatives[0], s.wordList[s.currentWordIndex].word)
    ensures Step(s, SpeechResults(Some(alternatives))).Success?
    ensures var t := Step(s, SpeechResults(Some(alternatives))).value;
      && t.next.score == s.score
      && t.xpGranted == 0
      && Message(t.next.status) == "Try Again!"
      && !t.advanceScheduled
      && t.next.currentWordIndex == s.currentWordIndex
      && t.next.recognizedText == alternatives[0]
      && t.next.isListening == s.isListening
      && t.navigation.None?
    ensures Step(s, SpeechResults(Some(alternatives))) ==
      Success(Transition(s.(recognizedText := alternatives[0], status := TryAgain), 0, false, None))
  {
  }

  /** Before the last word, the advance moves to the next word and clears the recognized text. */
  lemma AdvanceMovesOneWord(s: RoundState)
    requires Inv(s) && s.currentWordIndex < |s.wordList| - 1
    ensures Step(s, Advance).Success?
    ensures var t := Step(s, Advance).value;
      && t.next == s.(currentWordIndex := s.currentWordIndex + 1, recognizedText := "")
      && t.navigation.None? && t.xpGranted == 0
  {
  }

  /** On the last word, the advance sends the summary: the score seen and the list's words in order. */
  lemma AdvanceOnLastWordCompletes(s: RoundState)
    requires Inv(s) && |s.wordList| > 0 && s.currentWordIndex == |s.wordList| - 1
    ensures Step(s, Advance).Success?
    ensures var t := Step(s, Advance).value;
      && t.next == s
      && t.navigation.Some?
      && t.navigation.value.finalScore == s.score
      && |t.navigation.value.roundWords| == |s.wordList|
      && forall i :: 0 <= i < |s.wordList| ==>
           t.navigation.value.roundWords[i].word == s.wordList[i].word
  {
  }

  /** Skip and give up do what the advance does, and never score or grant. */
  lemma SkipAndGiveUpAreAdvance(s: RoundState, e: Event)
    requires Playable(s) && (e.Skip? || e.GiveUp?)
    ensures Step(s, e) == Step(s, Advance)
    ensures Step(s, e).value.next.score == s.score && Step(s, e).value.xpGranted == 0
  {
  }

  /**
    End and error both stop listening and touch nothing else; end invites a
    tap, any error shows the retry prompt.
  */
  lemma EndAndErrorStopListening(s: RoundState)
    ensures Step(s, SpeechEnd) == Success(Transition(s.(isListening := false, status := TapToSpeak), 0, false, None))
    ensures Step(s, SpeechError) == Success(Transition(s.(isListening := false, status := ErrorPrompt), 0, false, None))
    ensures Message(Step(s, SpeechEnd).value.next.status) == "Tap the Mic to Speak"
    ensures Message(Step(s, SpeechError).value.next.status) == "Error! Tap to try again."
  {
  }

  /**
    The mic button while a word is shown. When listening the press only
    asks the speech module to stop; a stop that succeeds then clears the
    flag, one that fails leaves everything. When idle on Android the press
    waits for the permission request; a rejected request changes nothing,
    a settled one (like an idle press elsewhere) clears the text and shows
    "Listening..."; the start that follows sets the flag on success and
    leaves it clear on failure.
  */
  lemma MicPressEffects(s: RoundState, android: bool, ok: bool)
    requires Playable(s)
    ensures s.isListening || android ==> Step(s, MicPress(android)) == Success(NoEffect(s))
    ensures !s.isListening && !android ==> Step(s, MicPress(android)) == Success(NoEffect(BeginListening(s)))
    ensures Step(s, PermissionDone(ok)) == Success(NoEffect(if ok then BeginListening(s) else s))
    ensures Step(s, StartDone(ok)) == Success(NoEffect(if ok then s.(isListening := true) else s))
    ensures Step(s, StopDone(ok)) == Success(NoEffect(if ok then s.(isListening := false) else s))
    ensures BeginListening(s) == s.(recognizedText := "", status := Listening)
    ensures Message(BeginListening(s).status) == "Listening..."
  {
  }

  /**
    An error delivered while `Voice.start` is pending is overwritten by
    the start's completion: the round ends up listening while the retry
    prompt is shown.
  */
  lemma ErrorDuringStartShowsPromptWhileListening(s: RoundState)
    requires Playable(s) && !s.isListening
    ensures Run(s, [MicPress(false), SpeechError, StartDone(true)]).Success?
    ensures var o := Run(s, [MicPress(false), SpeechError, StartDone(true)]).value;
      && o.last.isListening
      && Message(o.last.status) == "Error! Tap to try again."
      && o.last.recognizedText == ""
      && o.xp == 0 && o.summaries == []
  {
    var e1 := [MicPress(false), SpeechError, StartDone(true)];
    assert e1[1..] == [SpeechError, StartDone(true)];
    assert e1[1..][1..] == [StartDone(true)];
    assert e1[1..][1..][1..] == [];
  }

  /**
    A failed start after an idle press leaves the round not listening but
    still showing "Listening..." with the text cleared.
  */
  lemma FailedStartKeepsListeningMessage(s: RoundState)
    requires Playable(s) && !s.isListening
    ensures Run(s, [MicPress(false), StartDone(false)]) ==
      Success(RunOutcome(s.(recognizedText := "", status := Listening), 0, []))
  {
    var e1 := [MicPress(false), StartDone(false)];
    assert e1[1..] == [StartDone(false)];
    assert e1[1..][1..] == [];
  }

  /**
    Over any run of events from an invariant state: the invariant holds at
    the end, the list is the same, the score grew by ten points per granted
    experience point, and each summary sent covers the whole list.
  */
  lemma {:induction false} RunKeepsInvAndScoresGrants(s: RoundState, events: seq<Event>)
    requires Inv(s) && Run(s, events).Success?
    ensures var o := Run(s, events).value;
      && Inv(o.last)
      && o.last.wordList == s.wordList
      && o.last.score == s.score + 10 * o.xp
      && forall k :: 0 <= k < |o.summaries| ==> |o.summaries[k].roundWords| == |s.wordList|
    decreases |events|
  {
    if events != [] {
      var t := Step(s, events[0]).value;
      StepPreservesInv(s, events[0]);
      RunKeepsInvAndScoresGrants(t.next, events[1..]);
    }
  }

  /** Each grant a handler asks for keeps a well-formed progression record well-formed. */
  lemma RoundGrantsKeepProgressionBound(u: Progression.UserData, s: RoundState, e: Event)
    requires Progression.WellFormed(u) && Step(s, e).Success?
    ensures Progression.WellFormed(Progression.AddXp(u, Step(s, e).value.xpGranted).user)
  {
    Progression.SmallGrantKeepsBound(u, Step(s, e).value.xpGranted);
  }
}
