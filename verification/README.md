# Vocabulary game core, modelled in Dafny

The app is a React Native vocabulary game. A player picks a category and a
word count, then says each word shown. A speech recognizer reports what it
heard. Correct answers score points and feed the player's level and
experience. This project models the logic of the game's core, separated from the UI:

- `progression.dfy`, module `Progression`: the user context's progression
  record `{level, xp, unlockedCharacters, unlockedAccessories}`. It covers the
  initial record, `addXp`, which gains at most one level per call, and
  `unlockItem`, which only logs. It also covers the load and save boundary. The
  snapshot load is an input, and the save is the snapshot the grant returns.
- `words.dfy`, module `Words`: the three vocabulary pools. A round's word list
  is a shuffle of the pool cut to the requested count. The shuffle is any
  permutation of the pool's indices, given as a parameter.
- `gameplay.dfy`, module `GamePlay`: the round controller of the play screen,
  written as a pure `Step` over events:
  - speech results, end and error;
  - the mic press, split at each wait: the press itself, then the settling
    of the permission request, of `Voice.start` or of `Voice.stop`, each
    carrying whether it succeeded;
  - the delayed advance after a correct answer;
  - skip and give up.

  Side effects are fields of the transition: the experience granted, the
  scheduled advance, and the summary handed to navigation. `Run` folds a
  sequence of events.
- `character.dfy`, module `Character`: the accessory table, the level gate and
  the two equip flags of the character screen.
- `game_setup.dfy`, module `GameSetup`: the setup screen's selection state, its
  options and the start button.
- `wrappers.dfy`, module `Wrappers`: `Option` and `Result`.

Behaviour of the code worth knowing before reading the proofs:

- `addXp` uses an `if`, not a loop, so one grant gains at most one level. A
  grant can therefore leave `xp` at or above the new threshold. For example,
  250 from level 1 with 80 xp gives level 2 with 230 xp. A multi-level
  variant, where one grant can gain several levels, is kept as the reference
  `Progression.LevelLoop`. `AddXpAgreesWithLevelLoopIff` states exactly when
  the two agree.
- Answers are compared after lower-casing only. Nothing is trimmed, so
  `"Apple "` does not match `"Apple"`.
- Every speech error is handled the same way: the status shows the retry
  prompt. No error code is treated as a silent end.
- There is no per-word ledger, and skip and give up record nothing. The
  summary's `roundWords` is the word list itself. In the source each entry
  gets a random time.
- `unlockItem` records nothing.

## Model

| member | source | states |
|---|---|---|
| Progression.InitialUserIsWellFormed | src/context/UserContext.tsx:24 | The provider starts at level 1 with 0 xp and both unlock lists empty, which satisfies the progression invariant. |
| Progression.AddXp | src/context/UserContext.tsx:52-64 | A grant gains at most one level. It gains one exactly when xp plus the grant reaches `level*100`. Total experience since level 1 grows by exactly the grant. The unlock lists are kept, and the saved snapshot is the new in-memory record. |
| Progression.AddXpBelowThreshold | src/context/UserContext.tsx:53-61 | Below the threshold the level is unchanged and xp becomes `xp + amount`. |
| Progression.AddXpAtThreshold | src/context/UserContext.tsx:53-58 | At or above the threshold the level rises by exactly one and xp becomes `xp + amount - level*100`. |
| Progression.AddXpMonotone | src/context/UserContext.tsx:54-58 | With non-negative xp and grant, the resulting xp is non-negative and the level never drops. |
| Progression.AddXpKeepsBoundIff | src/context/UserContext.tsx:53-58 | From a well-formed record, a non-negative grant keeps `0 <= xp < level*100`, and it does so iff `xp + amount < level*100 + (level+1)*100`. |
| Progression.SmallGrantKeepsBound | src/context/UserContext.tsx:53-58 | Grants between 0 and 100 keep the bound. This covers the app's grants of 10 and 50. |
| Progression.AddXpAgreesWithLevelLoopIff | src/context/UserContext.tsx:52-64 | The one-step rule equals the multi-level loop iff `xp + amount` stays below the thresholds of the current and the next level together. |
| Progression.LargeGrantGainsOneLevel | src/context/UserContext.tsx:53-58 | 250 from level 1 with 80 xp gives level 2 with 230 xp. That breaks the bound, where the loop would give level 3 with 30 xp. |
| Progression.UnlockItemRecordsNothing | src/context/UserContext.tsx:66-68 | `unlockItem` leaves the record unchanged. An id is unlocked afterwards iff it was before. |
| Progression.LoadUser | src/context/UserContext.tsx:27-41 | A stored snapshot replaces the default record. A missing or unreadable one leaves the default. The loaded record is well-formed whenever the stored one is. |
| Progression.UnlockItem | src/context/UserContext.tsx:66-68 | Level, xp and both unlock lists are the same after the call. |
| Progression.GrantsKeepBound | src/context/UserContext.tsx:52-64 | Any sequence of the app's grants of 10 and 50 keeps a well-formed record well-formed. The last snapshot saved is the in-memory record, and total experience grows by the sum of the grants. |
| Progression.AppGrantsSurviveReload | src/context/UserContext.tsx:27-63 | Load a well-formed snapshot or the default, apply the app's grants one after another, then reload the last snapshot saved. The record is well-formed, the reload equals the in-memory record, and total experience grows by the sum of the grants. |
| Progression.SavedGrantReloads | src/context/UserContext.tsx:61-63 | Loading the snapshot a grant saved gives back that grant's in-memory record. |
| Words.Pool | src/screens/GamePlayScreen.tsx:20-33 | The pool is non-empty iff the category is food, animals or sports. Each such pool has two words, and no pool repeats a word. |
| Words.PoolsDistinct | src/screens/GamePlayScreen.tsx:20-33 | Every category pool lists each word once. |
| Words.SliceEnd | src/screens/GamePlayScreen.tsx:75 | The prefix kept by `slice(0, wordCount)` is at most the list. For a non-negative count it has length `min(wordCount, len)`. |
| Words.SelectWords | src/screens/GamePlayScreen.tsx:72-76 | The word list is a prefix of a permutation of the category pool. For a non-negative count its length is `min(wordCount, pool size)`. Every entry comes from the pool. |
| Words.PermutePreservesMultiset | src/screens/GamePlayScreen.tsx:74 | A shuffled pool holds exactly the pool's words, each as often as the pool does. |
| Words.SelectedWordsSubMultiset | src/screens/GamePlayScreen.tsx:72-76 | A round's words are drawn from the pool without replacement: a sub-multiset of the pool. |
| Words.SelectionAlwaysPossible | src/screens/GamePlayScreen.tsx:72-76 | Every category and count can start a round. With the unshuffled order the round is the pool's first `wordCount` words. |
| Words.SelectedWordsDistinct | src/screens/GamePlayScreen.tsx:72-76 | A round never repeats a word. |
| Words.UnknownCategoryIsEmpty | src/screens/GamePlayScreen.tsx:73 | A category without a pool yields an empty word list. |
| Words.FoodPoolExhausted | src/screens/GamePlayScreen.tsx:73-75 | Five words from the two-word food pool give both words, each once, in some order. |
| GamePlay.NewRoundInv | src/screens/GamePlayScreen.tsx:41-46 | A new round holds the selected word list at index 0 with score 0, not listening, with empty text, showing "Tap the Mic to Speak". It satisfies the controller invariant. |
| GamePlay.Lower | src/screens/GamePlayScreen.tsx:96 | Lower-casing keeps the length and leaves no ASCII upper-case letter. Each upper-case letter becomes its lower-case partner, and every other character stays. |
| GamePlay.CheckAnswer | src/screens/GamePlayScreen.tsx:94-106 | The check throws iff there is no word at the index. Otherwise only status and score change. 10 xp is granted iff the answer matches, together with +100, "Correct!" and the scheduled advance. A miss gives "Try Again!" and nothing else. |
| GamePlay.HandleNextWord | src/screens/GamePlayScreen.tsx:78-92 | The handler navigates iff the index is at or past the last word, and it never scores or grants. Otherwise the index rises by one and the text clears. The summary holds the score seen and the list's words in order. |
| GamePlay.Stats | src/screens/GamePlayScreen.tsx:83-86 | The summary entries are the list's words and images, one per word, in order. |
| GamePlay.HandleMicPress | src/screens/GamePlayScreen.tsx:108-125 | The press never changes the listening flag itself. While listening, or while the Android permission request is awaited, it changes nothing. Otherwise it clears the text and shows "Listening...". |
| GamePlay.IsCorrectIff | src/screens/GamePlayScreen.tsx:94-96 | A spoken string is correct iff it has the target's length and matches it letter by letter up to ASCII case. |
| GamePlay.PoolWordsAsciiWithoutK | src/screens/GamePlayScreen.tsx:20-33 | Every pool word consists of ASCII letters and contains no 'k' or 'K'. So the ASCII-only folding decides as `toLowerCase` would for every target. |
| GamePlay.AnswerExamples | src/screens/GamePlayScreen.tsx:96 | "APPLE" and "apple" match "Apple". "Apple " does not, because nothing is trimmed. |
| GamePlay.Step | src/screens/GamePlayScreen.tsx:48-128 | An event throws iff it is a non-empty result with no word to render. Otherwise the word list is kept. Either 100 points and 10 xp are granted together with the scheduled advance, or nothing is scored or granted. A summary carries the score seen and one entry per word. |
| GamePlay.StepPreservesInv | src/screens/GamePlayScreen.tsx:78-92 | Every handler keeps the index within the list, or at 0 on an empty list, and keeps the score in whole hundreds. |
| GamePlay.StepFaultsOnlyWithoutWords | src/screens/GamePlayScreen.tsx:94-95 | Under the invariant, the answer check fails only when the word list is empty and a non-empty result arrives. |
| GamePlay.EmptyResultsChangeNothing | src/screens/GamePlayScreen.tsx:49-54 | A result event whose alternatives are missing or empty changes nothing. |
| GamePlay.CorrectAnswer | src/screens/GamePlayScreen.tsx:94-102 | A correct first alternative adds exactly 100 to the score and grants 10 xp. It also shows "Correct!", stores the text and schedules the advance, and it leaves the index unchanged. |
| GamePlay.WrongAnswer | src/screens/GamePlayScreen.tsx:103-105 | A wrong first alternative keeps the score, index and listening flag. It grants nothing and does not navigate. It stores the text and shows "Try Again!", and nothing else changes. |
| GamePlay.AdvanceMovesOneWord | src/screens/GamePlayScreen.tsx:79-81 | Before the last word, advancing adds exactly 1 to the index, clears the recognized text and changes nothing else. |
| GamePlay.AdvanceOnLastWordCompletes | src/screens/GamePlayScreen.tsx:82-90 | On the last word, advancing keeps the state and sends a summary. Its final score is the score seen, and its words are the list's words, in order, with the same length. |
| GamePlay.SkipAndGiveUpAreAdvance | src/screens/GamePlayScreen.tsx:127-128 | Skip and give up behave exactly like the advance. They never change the score or grant xp. |
| GamePlay.EndAndErrorStopListening | src/screens/GamePlayScreen.tsx:55-63 | End and error both stop listening and change nothing else: no grant, no advance, no navigation. End shows "Tap the Mic to Speak", and any error shows "Error! Tap to try again.". |
| GamePlay.MicPressEffects | src/screens/GamePlayScreen.tsx:108-125 | A press while listening only asks for a stop. A successful stop clears the flag, and a failed one changes nothing. An idle press on Android waits for the permission request: a rejected request changes nothing, and a settled one clears the text and shows "Listening...". Elsewhere the idle press does that at once. A successful start sets the flag, and a failed one leaves it clear. No part scores, grants or navigates. |
| GamePlay.ErrorDuringStartShowsPromptWhileListening | src/screens/GamePlayScreen.tsx:117-120 | An error delivered while `Voice.start` is pending is overwritten by the start's success. The round ends up listening while showing "Error! Tap to try again.". |
| GamePlay.FailedStartKeepsListeningMessage | src/screens/GamePlayScreen.tsx:117-123 | After a failed start the round is not listening but still shows "Listening..." with the text cleared. |
| GamePlay.RunKeepsInvAndScoresGrants | src/screens/GamePlayScreen.tsx:94-102 | Over any run of events, the invariant and the word list are kept. The score grows by 10 points per xp granted. Every summary sent covers the whole list. |
| GamePlay.RoundGrantsKeepProgressionBound | src/screens/GamePlayScreen.tsx:99 | Any grant a round handler asks for keeps a well-formed progression record well-formed. |
| Character.AccessoryTable | src/screens/CharacterScreen.tsx:15-18 | The table holds the hat at level 5 and the glasses at level 2. |
| Character.UnlockThresholds | src/screens/CharacterScreen.tsx:49 | The hat is unlocked iff level >= 5, and the glasses iff level >= 2. |
| Character.UnlockMonotoneInLevel | src/screens/CharacterScreen.tsx:49 | An accessory unlocked at one level stays unlocked at every higher level. |
| Character.Press | src/screens/CharacterScreen.tsx:49-55 | A locked accessory's press changes nothing, and an unlocked table entry's press changes the flags. A flag changes only when its own accessory is pressed while unlocked. |
| Character.PressReadsOnlyLevel | src/screens/CharacterScreen.tsx:49-55 | Gating reads only the level: two records with equal levels give the same press result. |
| Character.LockedPressChangesNothing | src/screens/CharacterScreen.tsx:55 | Pressing a locked accessory leaves the equip flags unchanged. |
| Character.UnlockedPressFlipsOwnFlag | src/screens/CharacterScreen.tsx:27-30 | Pressing an unlocked table entry flips its own flag and no other. |
| Character.PressTwiceRestores | src/screens/CharacterScreen.tsx:27-30 | Pressing the same accessory twice restores the flags. |
| GameSetup.InitialSelectionWarns | src/screens/GameSetupScreen.tsx:36-43 | The screen starts with no category and 10 words, so starting at once only raises the alert. |
| GameSetup.WordCountOptionsShape | src/screens/GameSetupScreen.tsx:30 | The options are 5 to 50 in steps of 5, ten in all, and all positive. |
| GameSetup.HandleStartGame | src/screens/GameSetupScreen.tsx:39-48 | Starting raises the alert iff no non-empty category is selected. Otherwise it navigates with exactly the selected category and word count. |
| GameSetup.LastChoiceWins | src/screens/GameSetupScreen.tsx:62-78 | A later choice of category or count replaces the earlier one, and the two choices do not interfere. |
| GameSetup.OfferedChoicesExhaustPool | src/screens/GameSetupScreen.tsx:24-30 | Every start from the offered buttons navigates, and the round plays the whole two-word pool. |

## Left out

- Rendering, styles, images and navigation wiring (`App.tsx`, the navigation types, every style sheet): presentation only. The summary record keeps the shape the navigation types give it.
- The native speech module and the Android audio permission request: a foreign capability. Whether a permission request, start or stop call settles successfully is an input of the completion event. Whether permission was granted is ignored by the code anyway. Listener teardown (`Voice.destroy`) is left out too.
- GamePlay.Step: the completion events (`PermissionDone`, `StartDone`, `StopDone`) are accepted in any state. The model does not track which call, if any, is pending, so it also allows orders the app cannot produce. Every property proved holds for those orders too.
- Storage and JSON encoding: library I/O. A load is a `StoredSnapshot` input, and a save is the snapshot a grant returns. The "loading" screen shown until the load finishes is not modelled.
- Progression.AddXp: JavaScript numbers are doubles. Levels, xp and grants are modelled as unbounded integers, because the app only adds small integers.
- Words.SelectWords: the random-comparator sort is an arbitrary permutation parameter. No claim is made about uniformity, or about the sort reordering the shared pool array in place.
- Words.Pool: property names inherited by a JavaScript object (such as `constructor`) are treated like any other unknown category. The source would read a prototype member there instead of a pool.
- GamePlay.AdvanceOnLastWordCompletes: summary entries carry no `timeTaken`. In the source it is a random float between 2 and 10.
- Progression.AppGrantsSurviveReload: each grant is applied to the latest record. In the source, `addXp` reads the record captured by the render that created it. One speech listener closure serves a whole word, so two correct results for one word make two `addXp(10)` calls from the same record. The second save overwrites the first: 10 xp is lost while the score still rises by 200. "No experience is lost" holds only when each grant sees the previous one's record.
- Progression.AddXp: it is applied to the record passed in. A caller holding an older record, such as a stale closure, overwrites grants made since.
- GamePlay.Step: every handler reads the state current when it runs. The source re-registers its speech listeners per word and runs the delayed advance from an older closure. So the real handlers can see older values, for example a final score without the last correct answer's 100, or two results for one word both scheduling an advance from the same index.
- GamePlay.Step: when the answer check throws, the result is a `Failure` with no state. The recognized-text update queued just before the throw is not modelled.
- GamePlay.Lower: only ASCII letters are case-folded. JavaScript's `toLowerCase` folds all of Unicode, so "É" becomes "é" there but stays "É" here. For the game's own targets the comparison is still exact: the six pool words are ASCII letters without a 'k'. 'k' is the only ASCII letter a non-ASCII character lower-cases to on its own (the Kelvin sign, U+212A). `GamePlay.PoolWordsAsciiWithoutK` states this.
- The one-second delay before the advance is not modelled as time. It becomes the `Advance` event, which the environment may deliver at any later point.
- The experience bar percentage on the main menu and the time bar width on the statistics screen: floating-point presentation.
- `unlockItem`'s log line, the level-up log line and the error logs: console output.
