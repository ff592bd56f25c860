/**
  The vocabulary pools of the play screen and the selection of a round's
  word list: the category pool, shuffled, then cut to the requested count
  (src/screens/GamePlayScreen.tsx).

  The shuffle is a random-comparator sort; it is modelled as an arbitrary
  permutation `order` of the pool's indices, chosen by the caller.
*/
module Words {

  /** One drawable word: its text and the image asset shown with it. */
  datatype WordItem = WordItem(word: string, image: string)

  const FoodPool: seq<WordItem> :=
    [WordItem("Apple", "word_apple.png"), WordItem("Banana", "word_banana.png")]
  const AnimalsPool: seq<WordItem> :=
    [WordItem("Cat", "word_cat.png"), WordItem("Dog", "word_dog.png")]
  const SportsPool: seq<WordItem> :=
    [WordItem("Soccer", "word_soccer.png"), WordItem("Baseball", "word_baseball.png")]

  /** The vocabulary lookup; a category without a pool falls back to the empty list. */
  function Pool(category: string): (p: seq<WordItem>)
    ensures p != [] <==> category in {"food", "animals", "sports"}
    ensures p != [] ==> |p| == 2
    ensures DistinctWords(p)
  {
    if category == "food" then FoodPool
    else if category == "animals" then AnimalsPool
    else if category == "sports" then SportsPool
    else []
  }

  /** No two entries of `ws` carry the same word. */
  predicate DistinctWords(ws: seq<WordItem>) {
    forall i, j :: 0 <= i < j < |ws| ==> ws[i].word != ws[j].word
  }

  /** `order` lists every index below `n` exactly once. */
  predicate IsOrder(order: seq<nat>, n: nat) {
    && |order| == n
    && (forall i :: 0 <= i < n ==> order[i] < n)
    && (forall i, j :: 0 <= i < j < n ==> order[i] != order[j])
  }

  /** The pool rearranged by `order`. */
  function Permute(pool: seq<WordItem>, order: seq<nat>): (p: seq<WordItem>)
    requires IsOrder(order, |pool|)
    ensures |p| == |pool|
  {
    seq(|pool|, i requires 0 <= i < |pool| => pool[order[i]])
  }

  /**
    The end index `Array.prototype.slice(0, end)` keeps on a list of
    length `len`: a negative end counts back from the length.
  */
  function SliceEnd(len: nat, end: int): (k: nat)
    ensures k <= len
    ensures end >= 0 ==> k == if end < len then end else len
  {
    if end < 0 then (if len + end < 0 then 0 else len + end)
    else if end < len then end
    else len
  }

  /** The word-list effect: shuffle the category pool, then keep its first `wordCount` entries. */
  function SelectWords(category: string, wordCount: int, order: seq<nat>): (ws: seq<WordItem>)
    requires IsOrder(order, |Pool(category)|)
    ensures wordCount >= 0 ==> |ws| == if wordCount < |Pool(category)| then wordCount else |Pool(category)|
    ensures forall i :: 0 <= i < |ws| ==> ws[i] in Pool(category)
    ensures |ws| <= |Pool(category)| && ws == Permute(Pool(category), order)[..|ws|]
  {
    var shuffled := Permute(Pool(category), order);
    shuffled[..SliceEnd(|shuffled|, wordCount)]
  }

  // ---------------------------------------------------------------------------
  // Lemmas
  // ---------------------------------------------------------------------------

  /** Every pool lists each word once. */
  lemma PoolsDistinct(category: string)
    ensures DistinctWords(Pool(category))
  {
  }

  /** Any permutation of a pool with distinct words, and every prefix of it, has distinct words. */
  lemma PermutePrefixDistinct(pool: seq<WordItem>, order: seq<nat>, k: nat)
    requires IsOrder(order, |pool|) && DistinctWords(pool) && k <= |pool|
    ensures DistinctWords(Permute(pool, order)[..k])
  {
    var p := Permute(pool, order)[..k];
    forall i, j | 0 <= i < j < |p|
      ensures p[i].word != p[j].word
    {
      assert p[i] == pool[order[i]] && p[j] == pool[order[j]];
      if order[i] < order[j] {
      } else {
        assert order[j] < order[i];
      }
    }
  }

  /** A round never repeats a word. */
  lemma SelectedWordsDistinct(category: string, wordCount: int, order: seq<nat>)
    requires IsOrder(order, |Pool(category)|)
    ensures DistinctWords(SelectWords(category, wordCount, order))
  {
    PoolsDistinct(category);
    var ws := SelectWords(category, wordCount, order);
    PermutePrefixDistinct(Pool(category), order, |ws|);
  }

  /** A category without a pool gives an empty round. */
  lemma UnknownCategoryIsEmpty(category: string, wordCount: int, order: seq<nat>)
    requires category != "food" && category != "animals" && category != "sports"
    requires IsOrder(order, |Pool(category)|)
    ensures SelectWords(category, wordCount, order) == []
  {
  }

  /** Asking five words of the two-word food pool gives both, in some order. */
  lemma FoodPoolExhausted(order: seq<nat>)
    requires IsOrder(order, 2)
    ensures |SelectWords("food", 5, order)| == 2
    ensures multiset(SelectWords("food", 5, order)) == multiset(FoodPool)
  {
    var ws := SelectWords("food", 5, order);
    assert ws == [FoodPool[order[0]], FoodPool[order[1]]];
    if order[0] == 0 {
      assert order[1] == 1;
    } else {
      assert order[0] == 1 && order[1] == 0;
    }
  }

  // ---------------------------------------------------------------------------
  // The shuffle is a permutation
  // ---------------------------------------------------------------------------

  /** The indices of `s` holding `x`. */
  function Positions(s: seq<WordItem>, x: WordItem): set<int> {
    set i | 0 <= i < |s| && s[i] == x
  }

  /** The indices below `n`. */
  function Range(n: nat): (r: set<int>)
    ensures forall i :: i in r <==> 0 <= i < n
  {
    if n == 0 then {} else Range(n - 1) + {n - 1}
  }

  lemma {:induction false} CountIsPositions(s: seq<WordItem>, x: WordItem)
    ensures multiset(s)[x] == |Positions(s, x)|
    decreases |s|
  {
    if s != [] {
      var t := s[..|s| - 1];
      CountIsPositions(t, x);
      assert s == t + [s[|s| - 1]];
      if s[|s| - 1] == x {
        assert Positions(s, x) == Positions(t, x) + {|s| - 1};
      } else {
        assert Positions(s, x) == Positions(t, x);
      }
    }
  }

  lemma {:induction false} RangeCard(n: nat)
    ensures |Range(n)| == n
  {
    if n > 0 {
      RangeCard(n - 1);
    }
  }

  lemma {:induction false} SubsetCard(a: set<int>, b: set<int>)
    requires a <= b
    ensures |a| <= |b|
    decreases |a|
  {
    if |a| != 0 {
      if forall y :: y !in a {
        assert false;  // a set with no element is empty
      }
      var x :| x in a;
      SubsetCard(a - {x}, b - {x});
    }
  }

  /** An order is injective on any set of its positions, so the image has as many elements. */
  lemma {:induction false} ImageCard(a: set<int>, order: seq<nat>)
    requires forall i :: i in a ==> 0 <= i < |order|
    requires forall i, j :: i in a && j in a && i < j ==> order[i] != order[j]
    ensures |set i | i in a :: order[i] as int| == |a|
    decreases |a|
  {
    if |a| != 0 {
      if forall y :: y !in a {
        assert false;  // a set with no element is empty
      }
      var i :| i in a;
      var rest := a - {i};
      ImageCard(rest, order);
      assert (set k | k in a :: order[k] as int) == (set k | k in rest :: order[k] as int) + {order[i] as int};
      assert order[i] as int !in (set k | k in rest :: order[k] as int);
    }
  }

  /** Every index of the pool is reached by the order. */
  lemma OrderIsOnto(order: seq<nat>, n: nat, j: int)
    requires IsOrder(order, n) && 0 <= j < n
    ensures exists i :: 0 <= i < n && order[i] == j
  {
    var img := set i | i in Range(n) :: order[i] as int;
    ImageCard(Range(n), order);
    RangeCard(n);
    if j !in img {
      assert img <= Range(n) - {j};
      SubsetCard(img, Range(n) - {j});
      assert false;
    }
  }

  /** A shuffled pool holds the same words, as often, as the pool. */
  lemma PermutePreservesMultiset(pool: seq<WordItem>, order: seq<nat>)
    requires IsOrder(order, |pool|)
    ensures multiset(Permute(pool, order)) == multiset(pool)
  {
    var p := Permute(pool, order);
    forall x
      ensures multiset(p)[x] == multiset(pool)[x]
    {
      CountIsPositions(p, x);
      CountIsPositions(pool, x);
      var a := Positions(p, x);
      ImageCard(a, order);
      var img := set i | i in a :: order[i] as int;
      forall j | j in Positions(pool, x)
        ensures j in img
      {
        OrderIsOnto(order, |pool|, j);
        var i :| 0 <= i < |pool| && order[i] == j;
        assert p[i] == x;
      }
      assert img == Positions(pool, x);
    }
  }

  /** The identity order is always available, so every category can start a round. */
  lemma IdentityIsOrder(n: nat)
    ensures IsOrder(seq(n, i => i), n)
  {
  }

  /**
    Every category and count can start a round; with the unshuffled order
    the round is the pool's first `wordCount` words.
  */
  lemma SelectionAlwaysPossible(category: string, wordCount: int)
    ensures IsOrder(seq(|Pool(category)|, i => i), |Pool(category)|)
    ensures wordCount >= 0 ==>
      SelectWords(category, wordCount, seq(|Pool(category)|, i => i))
        == Pool(category)[..if wordCount < |Pool(category)| then wordCount else |Pool(category)|]
  {
    IdentityIsOrder(|Pool(category)|);
  }

  /** A round's words are drawn from the pool without repetition: a sub-multiset of it. */
  lemma SelectedWordsSubMultiset(category: string, wordCount: int, order: seq<nat>)
    requires IsOrder(order, |Pool(category)|)
    ensures multiset(SelectWords(category, wordCount, order)) <= multiset(Pool(category))
  {
    var shuffled := Permute(Pool(category), order);
    var ws := SelectWords(category, wordCount, order);
    PermutePreservesMultiset(Pool(category), order);
    assert shuffled == ws + shuffled[|ws|..];
  }
}
