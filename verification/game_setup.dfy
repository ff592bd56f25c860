/**
  The round setup screen (src/screens/GameSetupScreen.tsx): the category
  and word-count choices and the start button, which either warns that a
  category is required or navigates to the play screen with the choice.
*/
module GameSetup {
  import opened Wrappers
  import Words

  /** The category ids offered as buttons. */
  const Categories: seq<string> := ["food", "animals", "sports"]

  /** The word counts offered as buttons. */
  const WordCountOptions: seq<int> := [5, 10, 15, 20, 25, 30, 35, 40, 45, 50]

  /** The screen's selection state; the category starts as `null`. */
  datatype Selection = Selection(category: Option<string>, wordCount: int)

  const InitialSelection: Selection := Selection(None, 10)

  /** A press of the start button either raises the selection alert or navigates. */
  datatype StartOutcome =
    | SelectionRequired
    | NavigateGamePlay(category: string, wordCount: int)

  /** `!selectedCategory`: both `null` and the empty string count as no category. */
  predicate HasCategory(s: Selection) {
    s.category.Some? && s.category.value != ""
  }

  function SelectCategory(s: Selection, id: string): Selection {
    s.(category := Some(id))
  }

  function SelectWordCount(s: Selection, count: int): Selection {
    s.(wordCount := count)
  }

  /** `handleStartGame`. */
  function HandleStartGame(s: Selection): (o: StartOutcome)
    ensures o.SelectionRequired? <==> !HasCategory(s)
    ensures o.NavigateGamePlay? ==> o.category == s.category.value && o.wordCount == s.wordCount
  {
    if s.category.None? || s.category.value == "" then SelectionRequired
    else NavigateGamePlay(s.category.value, s.wordCount)
  }

  // ---------------------------------------------------------------------------
  // Lemmas
  // ---------------------------------------------------------------------------

  /** The screen opens with no category and ten words, so starting at once only warns. */
  lemma InitialSelectionWarns()
    ensures InitialSelection.category.None? && InitialSelection.wordCount == 10
    ensures HandleStartGame(InitialSelection) == SelectionRequired
  {
  }

  /** The options run from 5 to 50 in steps of 5, all positive. */
  lemma WordCountOptionsShape()
    ensures |WordCountOptions| == 10
    ensures forall i :: 0 <= i < |WordCountOptions| ==> WordCountOptions[i] == 5 * (i + 1)
    ensures forall i :: 0 <= i < |WordCountOptions| ==> WordCountOptions[i] > 0
  {
  }

  /** The last choice wins, and the two choices do not interfere. */
  lemma LastChoiceWins(s: Selection, a: string, b: string, m: int, n: int)
    ensures SelectCategory(SelectCategory(s, a), b) == SelectCategory(s, b)
    ensures SelectWordCount(SelectWordCount(s, m), n) == SelectWordCount(s, n)
    ensures SelectWordCount(SelectCategory(s, a), m) == SelectCategory(SelectWordCount(s, m), a)
    ensures a != "" ==> HandleStartGame(SelectWordCount(SelectCategory(s, a), m)) == NavigateGamePlay(a, m)
  {
  }

  /**
    Every start from the offered buttons plays the whole pool: each option
    is at least five words and each offered category has two.
  */
  lemma OfferedChoicesExhaustPool(i: int, j: int, order: seq<nat>)
    requires 0 <= i < |Categories| && 0 <= j < |WordCountOptions|
    requires Words.IsOrder(order, |Words.Pool(Categories[i])|)
    ensures var o := HandleStartGame(Selection(Some(Categories[i]), WordCountOptions[j]));
      && o.NavigateGamePlay?
      && |Words.SelectWords(o.category, o.wordCount, order)| == |Words.Pool(Categories[i])| == 2
  {
    WordCountOptionsShape();
  }
}
