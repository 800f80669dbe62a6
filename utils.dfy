// utils.js: the Fisher-Yates shuffle, the deck shuffled once when the module
// is loaded, and drawCards, which serves every draw from that one deck.
// Math.random() is replaced by the sequence of indices it would produce.
module Utils {

  import opened Basics
  import opened Js
  import opened CardData
  import opened Deck

  /** Enough random indices for a shuffle of `n` elements: the `k`-th index is
      drawn as `Math.floor(Math.random() * currentIndex)` while `currentIndex`
      is `n - k`, so it lies below `n - k`. */
  predicate ValidRandomIndices(r: seq<nat>, n: nat) {
    n <= |r| && forall k :: 0 <= k < n ==> r[k] < n - k
  }

  /** `s` with the elements at `i` and `j` exchanged (`i == j` leaves it as it
      is). */
  function Swap<T>(s: seq<T>, i: nat, j: nat): (t: seq<T>)
    requires i < |s| && j < |s|
    ensures |t| == |s|
    ensures t[i] == s[j] && t[j] == s[i]
    ensures forall m :: 0 <= m < |s| && m != i && m != j ==> t[m] == s[m]
  {
    s[i := s[j]][j := s[i]]
  }

  lemma SwapPermutes<T>(s: seq<T>, i: nat, j: nat)
    requires i < |s| && j < |s|
    ensures multiset(Swap(s, i, j)) == multiset(s)
  {
  }

  lemma SwapKeepsDistinct<T>(s: seq<T>, i: nat, j: nat)
    requires i < |s| && j < |s| && Distinct(s)
    ensures Distinct(Swap(s, i, j))
  {
  }

  /** The copy after the while loop has brought `currentIndex` from `|s|`
      down to `c`: the step from `c + 1` to `c` is the loop's
      `(|s| - 1 - c)`-th iteration and swaps position `c` with the random
      index drawn in it. */
  function ShuffleUntil<T>(s: seq<T>, r: seq<nat>, c: nat): (t: seq<T>)
    requires c <= |s| && ValidRandomIndices(r, |s|)
    ensures |t| == |s|
    decreases |s| - c
  {
    if c == |s| then s else Swap(ShuffleUntil(s, r, c + 1), c, r[|s| - 1 - c])
  }

  /** What shuffleDeck returns for the random indices `r`. */
  function Shuffle<T>(s: seq<T>, r: seq<nat>): seq<T>
    requires ValidRandomIndices(r, |s|)
  {
    ShuffleUntil(s, r, 0)
  }

  /** Every state of the loop is a permutation of the input. */
  lemma {:induction false} ShuffleUntilPermutes<T>(s: seq<T>, r: seq<nat>, c: nat)
    requires c <= |s| && ValidRandomIndices(r, |s|)
    ensures multiset(ShuffleUntil(s, r, c)) == multiset(s)
    decreases |s| - c
  {
    if c < |s| {
      var before := ShuffleUntil(s, r, c + 1);
      ShuffleUntilPermutes(s, r, c + 1);
      SwapPermutes(before, c, r[|s| - 1 - c]);
      assert ShuffleUntil(s, r, c) == Swap(before, c, r[|s| - 1 - c]);
    }
  }

  /** shuffleDeck returns a permutation of its input. */
  lemma ShufflePermutes<T>(s: seq<T>, r: seq<nat>)
    requires ValidRandomIndices(r, |s|)
    ensures |Shuffle(s, r)| == |s|
    ensures multiset(Shuffle(s, r)) == multiset(s)
  {
    ShuffleUntilPermutes(s, r, 0);
  }

  /** Once `currentIndex` has reached `c`, the positions from `c` on are never
      touched again: every later state agrees with this one there. */
  lemma {:induction false} ShuffleSettles<T>(s: seq<T>, r: seq<nat>, c: nat, c': nat)
    requires c' <= c <= |s| && ValidRandomIndices(r, |s|)
    ensures ShuffleUntil(s, r, c')[c..] == ShuffleUntil(s, r, c)[c..]
    decreases c - c'
  {
    if c' < c {
      ShuffleSettles(s, r, c, c' + 1);
      var before := ShuffleUntil(s, r, c' + 1);
      var after := ShuffleUntil(s, r, c');
      assert after == Swap(before, c', r[|s| - 1 - c']);
      assert after[c..] == before[c..];
    }
  }

  /** A duplicate-free deck stays duplicate-free under the shuffle. */
  lemma {:induction false} ShuffleUntilKeepsDistinct<T>(s: seq<T>, r: seq<nat>, c: nat)
    requires c <= |s| && ValidRandomIndices(r, |s|) && Distinct(s)
    ensures Distinct(ShuffleUntil(s, r, c))
    decreases |s| - c
  {
    if c < |s| {
      ShuffleUntilKeepsDistinct(s, r, c + 1);
      SwapKeepsDistinct(ShuffleUntil(s, r, c + 1), c, r[|s| - 1 - c]);
    }
  }

  /** shuffleDeck: copy the argument into a fresh array, then walk
      `currentIndex` down from the length to 0, swapping the element just
      below it with a randomly chosen one at or below it. The argument is a
      value, so the caller's deck is left as it was. */
  method ShuffleDeck<T>(deck: seq<T>, randomIndices: seq<nat>) returns (shuffled: seq<T>)
    requires ValidRandomIndices(randomIndices, |deck|)
    ensures shuffled == Shuffle(deck, randomIndices)
    ensures multiset(shuffled) == multiset(deck)
  {
    var a := new T[|deck|](i requires 0 <= i < |deck| => deck[i]);
    var n := a.Length;
    var currentIndex := n;
    while currentIndex != 0
      invariant 0 <= currentIndex <= n
      invariant a[..] == ShuffleUntil(deck, randomIndices, currentIndex)
      invariant a[currentIndex..] == Shuffle(deck, randomIndices)[currentIndex..]
      decreases currentIndex
    {
      var randomIndex := randomIndices[n - currentIndex];
      currentIndex := currentIndex - 1;
      a[currentIndex], a[randomIndex] := a[randomIndex], a[currentIndex];
      ShuffleSettles(deck, randomIndices, currentIndex, 0);
    }
    shuffled := a[..];
    ShufflePermutes(deck, randomIndices);
  }

  /** The state of utils.js: `shuffledDeck`, computed once when the module is
      loaded and never reassigned or mutated afterwards. */
  class UtilsModule {

    /** The random indices the load-time shuffle consumed. */
    ghost const randomIndices: seq<nat>

    const shuffledDeck: seq<string>

    ghost predicate Valid() {
      && ValidRandomIndices(randomIndices, |StandardDeck()|)
      && shuffledDeck == Shuffle(StandardDeck(), randomIndices)
    }

    /** Loading the module: `shuffledDeck = shuffleDeck(getDeck())`. */
    constructor (randomIndices: seq<nat>)
      requires ValidRandomIndices(randomIndices, 78)
      ensures Valid()
      ensures this.randomIndices == randomIndices
      ensures shuffledDeck == Shuffle(StandardDeck(), randomIndices)
    {
      var deck := BuildDeck(MajorArcana, Suits);
      assert deck == StandardDeck();
      var shuffled := ShuffleDeck(deck, randomIndices);
      shuffledDeck := shuffled;
      this.randomIndices := randomIndices;
    }

    /** drawCards(num): `shuffledDeck.slice(0, num)`. */
    function DrawCards(num: int): (cards: seq<string>)
      ensures cards <= shuffledDeck
      ensures 0 <= num ==> |cards| == Min(num, |shuffledDeck|)
      ensures num < 0 ==> |cards| == Max(|shuffledDeck| + num, 0)
    {
      shuffledDeck[..SliceEnd(num, |shuffledDeck|)]
    }

    /** The loaded deck is a permutation of the 78-card catalog, so it holds
        every card once. */
    lemma ShuffledDeckIsCatalog()
      requires Valid()
      ensures |shuffledDeck| == 78
      ensures multiset(shuffledDeck) == multiset(StandardDeck())
      ensures Distinct(shuffledDeck)
    {
      ShufflePermutes(StandardDeck(), randomIndices);
      StandardDeckDistinct();
      ShuffleUntilKeepsDistinct(StandardDeck(), randomIndices, 0);
    }

    /** A draw has `min(num, 78)` cards for `num >= 0`, holds no card twice
        and only cards of the deck. */
    lemma DrawCardsFromDeck(num: int)
      requires Valid()
      ensures 0 <= num ==> |DrawCards(num)| == Min(num, 78)
      ensures Distinct(DrawCards(num))
      ensures forall i :: 0 <= i < |DrawCards(num)| ==> DrawCards(num)[i] in StandardDeck()
    {
      ShuffledDeckIsCatalog();
      var cards := DrawCards(num);
      var deck := StandardDeck();
      assert cards == shuffledDeck[..|cards|];
      DistinctPrefix(shuffledDeck, |cards|);
      forall i | 0 <= i < |cards| ensures cards[i] in deck {
        assert cards[i] == shuffledDeck[i];
        assert cards[i] in multiset(shuffledDeck);
        assert cards[i] in multiset(deck);
      }
    }

    /** Draws share the one shuffled deck: a smaller draw is a prefix of a
        larger one. */
    lemma DrawCardsPrefix(a: int, b: int)
      requires 0 <= a <= b
      ensures DrawCards(a) <= DrawCards(b)
    {
      SliceEndMonotone(a, b, |shuffledDeck|);
    }
  }
}
