// tarot.js: its own getDeck and drawCards, and the decisions runTarotApp
// makes between the two prompts and the output (spread size, reversal
// answer, numbered lines). The readline prompts are not modelled: their
// answers are parameters. Math.random() is replaced by the permutation the
// comparator-driven sort produces and by one coin flip per drawn card.
module Tarot {

  import opened Basics
  import opened Js
  import opened CardData
  import opened Deck

  /** getDeck of tarot.js: the catalog of the tables above it, with its
      layout and duplicate-freedom. */
  method GetDeck() returns (deck: seq<string>)
    ensures deck == StandardDeck()
    ensures |deck| == 78 && deck[..22] == MajorArcana
    ensures forall s, k :: 0 <= s < 4 && 0 <= k < 14 ==>
              deck[22 + 14 * s + k] == CardName(Ranks[k], Suits[s].name)
    ensures Distinct(deck)
  {
    deck := BuildDeck(MajorArcana, Suits);
    StandardLayout();
    StandardDeckDistinct();
  }

  const ReversedSuffix: string := " (Reversed)"

  /** `[...deck].sort(() => Math.random() - 0.5)`: whatever the comparator
      answers, sort reorders its copy, so the result is `deck` read through
      some permutation `order` of its indices. */
  function Permuted(deck: seq<string>, order: seq<nat>): (shuffled: seq<string>)
    requires IsPermutation(order, |deck|)
    ensures |shuffled| == |deck|
    ensures forall i :: 0 <= i < |deck| ==> shuffled[i] == deck[order[i]]
  {
    seq(|deck|, i requires 0 <= i < |deck| => deck[order[i]])
  }

  /** Whatever order the comparator leads `sort` to, the sorted copy holds the
      deck's cards, each as often as the deck does. */
  lemma PermutedKeepsMultiset(deck: seq<string>, order: seq<nat>)
    requires IsPermutation(order, |deck|)
    ensures multiset(Permuted(deck, order)) == multiset(deck)
  {
    ReorderKeepsMultiset(deck, order, Permuted(deck, order));
  }

  /** `shuffled.slice(0, num)`: the cards drawn, before any is reversed. */
  function Drawn(deck: seq<string>, num: int, order: seq<nat>): seq<string>
    requires IsPermutation(order, |deck|)
  {
    Permuted(deck, order)[..SliceEnd(num, |deck|)]
  }

  /** A draw of `num >= 0` cards has `min(num, |deck|)` of them, each taken
      from the deck, and none twice when the deck holds none twice. */
  lemma DrawnFromDeck(deck: seq<string>, num: int, order: seq<nat>)
    requires IsPermutation(order, |deck|)
    ensures 0 <= num ==> |Drawn(deck, num, order)| == Min(num, |deck|)
    ensures forall i :: 0 <= i < |Drawn(deck, num, order)| ==> Drawn(deck, num, order)[i] in deck
    ensures Distinct(deck) ==> Distinct(Drawn(deck, num, order))
  {
  }

  /** drawCards(deck, num, allowReversals): the `i`-th drawn card gets the
      suffix " (Reversed)" exactly when reversals are allowed and the `i`-th
      coin flip (`Math.random() < 0.5`) came up; with reversals off no coin
      is flipped at all. */
  function DrawCards(deck: seq<string>, num: int, allowReversals: bool, order: seq<nat>, flips: seq<bool>)
    : (cards: seq<string>)
    requires IsPermutation(order, |deck|)
    requires allowReversals ==> SliceEnd(num, |deck|) <= |flips|
    ensures |cards| == |Drawn(deck, num, order)|
    ensures forall i :: 0 <= i < |cards| ==>
              cards[i] == Drawn(deck, num, order)[i] || cards[i] == Drawn(deck, num, order)[i] + ReversedSuffix
    ensures forall i :: 0 <= i < |cards| ==>
              (cards[i] == Drawn(deck, num, order)[i] + ReversedSuffix <==> allowReversals && flips[i])
    ensures !allowReversals ==> cards == Drawn(deck, num, order)
  {
    var drawn := Drawn(deck, num, order);
    seq(|drawn|, i requires 0 <= i < |drawn| =>
      if allowReversals && flips[i] then drawn[i] + ReversedSuffix else drawn[i])
  }

  /** The `spreadSizes` object of runTarotApp. */
  const SpreadSizes: map<string, nat> := map["single" := 1, "three" := 3, "five" := 5, "celtic" := 10]

  /** `spreadSizes[spreadType.toLowerCase()]` followed by the `!spreadSize`
      test, reading only the object's own keys (see LookupAsWritten for what
      the lookup does on a JavaScript object). None stands for "Invalid spread
      type.". */
  function SpreadSize(spreadType: string): (size: Option<nat>)
    ensures size == Some(1) <==> ToLower(spreadType) == "single"
    ensures size == Some(3) <==> ToLower(spreadType) == "three"
    ensures size == Some(5) <==> ToLower(spreadType) == "five"
    ensures size == Some(10) <==> ToLower(spreadType) == "celtic"
    ensures size == None <==> ToLower(spreadType) !in {"single", "three", "five", "celtic"}
  {
    var key := ToLower(spreadType);
    if key in SpreadSizes && SpreadSizes[key] != 0 then Some(SpreadSizes[key]) else None
  }

  /** The spread choice ignores letter case. */
  lemma SpreadSizeIgnoresCase(spreadType: string)
    ensures SpreadSize(ToLower(spreadType)) == SpreadSize(spreadType)
  {
    ToLowerIdempotent(spreadType);
  }

  /** What a property read `spreadSizes[key]` finds on the object literal: an
      own property, a property inherited from Object.prototype, or nothing. */
  datatype PropertyValue = Missing | OwnNumber(n: nat) | Inherited(key: string)

  /** The property names of Object.prototype. Each holds a function, except
      `__proto__`, which yields Object.prototype itself. */
  const ObjectPrototypeKeys: set<string> := {
    "constructor", "__proto__", "hasOwnProperty", "isPrototypeOf", "propertyIsEnumerable",
    "toLocaleString", "toString", "valueOf",
    "__defineGetter__", "__defineSetter__", "__lookupGetter__", "__lookupSetter__"
  }

  /** The lookup as tarot.js performs it: `spreadSizes[spreadType.toLowerCase()]`
      on a plain object, which also finds Object.prototype's properties. */
  function LookupAsWritten(spreadType: string): PropertyValue
  {
    var key := ToLower(spreadType);
    if key in SpreadSizes then OwnNumber(SpreadSizes[key])
    else if key in ObjectPrototypeKeys then Inherited(key)
    else Missing
  }

  /** JavaScript truthiness of the looked-up value: functions and objects are
      truthy, `undefined` and 0 are not. */
  function Truthy(v: PropertyValue): bool
  {
    match v
    case Missing => false
    case OwnNumber(n) => n != 0
    case Inherited(_) => true
  }

  /** The number of cards `slice(0, v)` keeps from a `len`-card array: an
      `undefined` end keeps them all, a function or object converts to NaN
      and so to 0. */
  function DrawCountAsWritten(v: PropertyValue, len: nat): (k: nat)
    ensures k <= len
  {
    match v
    case Missing => len
    case OwnNumber(n) => SliceEnd(n, len)
    case Inherited(_) => 0
  }

  /** As written, the `!spreadSize` test lets through exactly the table's
      names and the lower-case names of Object.prototype; it agrees with
      SpreadSize on the table's names. */
  lemma LookupAsWrittenAccepts(spreadType: string)
    ensures Truthy(LookupAsWritten(spreadType))
        <==> SpreadSize(spreadType).Some? || ToLower(spreadType) in ObjectPrototypeKeys
    ensures SpreadSize(spreadType).Some? ==> LookupAsWritten(spreadType) == OwnNumber(SpreadSize(spreadType).value)
  {
  }

  /** The answer "constructor" (or "Constructor", "__proto__", ...) is not
      rejected as an invalid spread type: the lookup finds Object's
      constructor, and the reading that follows draws no card at all. */
  lemma InheritedKeyIsAccepted()
    ensures Truthy(LookupAsWritten("Constructor"))
    ensures DrawCountAsWritten(LookupAsWritten("Constructor"), 78) == 0
    ensures SpreadSize("Constructor") == None
  {
    var key := ToLower("Constructor");
    assert |key| == 11;
    assert key == "constructor" by {
      forall i | 0 <= i < 11 ensures key[i] == "constructor"[i] {
        assert i == 0 || i == 1 || i == 2 || i == 3 || i == 4 || i == 5 || i == 6 || i == 7
          || i == 8 || i == 9 || i == 10;
      }
    }
    assert key in ObjectPrototypeKeys && key !in SpreadSizes;
  }

  /** `reversalsInput.toLowerCase() === "yes"`: "yes" in any mix of cases. */
  function ReversalsEnabled(answer: string): (allow: bool)
    ensures allow <==> |answer| == 3 && answer[0] in "yY" && answer[1] in "eE" && answer[2] in "sS"
  {
    ToLower(answer) == "yes"
  }

  /** The output line for card number `n`: `${n}. ${card}`. */
  function Line(n: nat, card: string): string {
    NumberToString(n) + ". " + card
  }

  /** The length of the run of digits `s` starts with. */
  function DigitPrefixLength(s: string): (k: nat)
    ensures k <= |s|
  {
    if s == [] || !IsDigit(s[0]) then 0 else 1 + DigitPrefixLength(s[1..])
  }

  lemma {:induction false} DigitPrefixAppend(d: string, t: string)
    requires AllDigits(d)
    ensures DigitPrefixLength(d + t) == |d| + DigitPrefixLength(t)
  {
    if d != [] {
      assert (d + t)[0] == d[0];
      assert (d + t)[1..] == d[1..] + t;
      DigitPrefixAppend(d[1..], t);
    } else {
      assert d + t == t;
    }
  }

  /** Reads a numbered line back: its leading number and the card after ". ". */
  function ParseLine(line: string): Option<(int, string)> {
    var k := DigitPrefixLength(line);
    if 0 < k && k + 2 <= |line| && line[k..k + 2] == ". " && AllDigits(line[..k])
    then Some((DigitsValue(line[..k]), line[k + 2..]))
    else None
  }

  /** A numbered line gives back its number and its card. */
  lemma LineParses(n: nat, card: string)
    ensures ParseLine(Line(n, card)) == Some((n, card))
  {
    var d := NumberToString(n);
    var line := Line(n, card);
    assert line == d + (". " + card);
    DigitPrefixAppend(d, ". " + card);
    assert line[..|d|] == d;
    assert line[|d|..|d| + 2] == ". ";
    assert line[|d| + 2..] == card;
  }

  /** The `cards.forEach` of runTarotApp: line `i` (from 0) names card `i`
      under the number `i + 1`. */
  function NumberLines(cards: seq<string>): (lines: seq<string>)
    ensures |lines| == |cards|
    ensures forall i :: 0 <= i < |cards| ==> ParseLine(lines[i]) == Some((i + 1, cards[i]))
    ensures forall i :: 0 <= i < |cards| ==> |lines[i]| > 0 && lines[i][0] != '0'
  {
    var lines := seq(|cards|, i requires 0 <= i < |cards| => Line(i + 1, cards[i]));
    assert forall i :: 0 <= i < |cards| ==> ParseLine(lines[i]) == Some((i + 1, cards[i])) by {
      forall i | 0 <= i < |cards| ensures ParseLine(lines[i]) == Some((i + 1, cards[i])) {
        LineParses(i + 1, cards[i]);
      }
    }
    lines
  }

  const InvalidSpreadMessage: string := "Invalid spread type."

  const CardsHeading: string := "\nYour cards:"

  /** The lines runTarotApp prints after the two answers, with the corrected
      lookup SpreadSize: the rejection message, or the heading followed by
      one numbered line per drawn card. RunAsWritten is the same reading with
      the lookup as tarot.js performs it. */
  function Run(spreadType: string, reversalsInput: string, order: seq<nat>, flips: seq<bool>)
    : (output: seq<string>)
    requires IsPermutation(order, 78)
    requires ReversalsEnabled(reversalsInput) && SpreadSize(spreadType).Some? ==>
               SpreadSize(spreadType).value <= |flips|
    ensures SpreadSize(spreadType).None? <==> output == [InvalidSpreadMessage]
    ensures SpreadSize(spreadType).Some? ==>
              var n := SpreadSize(spreadType).value;
              var cards := DrawCards(StandardDeck(), n, ReversalsEnabled(reversalsInput), order, flips);
              && |output| == n + 1
              && output[0] == CardsHeading
              && (forall i :: 0 <= i < n ==> ParseLine(output[i + 1]) == Some((i + 1, cards[i])))
              && (forall i :: 1 <= i <= n ==> |output[i]| > 0 && output[i][0] != '0')
  {
    var allowReversals := ReversalsEnabled(reversalsInput);
    match SpreadSize(spreadType)
    case None => [InvalidSpreadMessage]
    case Some(spreadSize) =>
      var cards := DrawCards(StandardDeck(), spreadSize, allowReversals, order, flips);
      [CardsHeading] + NumberLines(cards)
  }

  /** The lines runTarotApp prints after the two answers, with the lookup
      as tarot.js performs it: a falsy property value is rejected, and any
      truthy one, inherited or not, is handed to drawCards, whose `slice`
      keeps DrawCountAsWritten cards. */
  function RunAsWritten(spreadType: string, reversalsInput: string, order: seq<nat>, flips: seq<bool>)
    : (output: seq<string>)
    requires IsPermutation(order, 78)
    requires ReversalsEnabled(reversalsInput) && Truthy(LookupAsWritten(spreadType)) ==>
               DrawCountAsWritten(LookupAsWritten(spreadType), 78) <= |flips|
    ensures !Truthy(LookupAsWritten(spreadType)) <==> output == [InvalidSpreadMessage]
    ensures Truthy(LookupAsWritten(spreadType)) ==>
              var n := DrawCountAsWritten(LookupAsWritten(spreadType), 78);
              && |output| == n + 1
              && output[0] == CardsHeading
  {
    var allowReversals := ReversalsEnabled(reversalsInput);
    var spreadSize := LookupAsWritten(spreadType);
    if !Truthy(spreadSize) then [InvalidSpreadMessage]
    else
      var cards := DrawCards(StandardDeck(), DrawCountAsWritten(spreadSize, 78), allowReversals, order, flips);
      var output := [CardsHeading] + NumberLines(cards);
      assert output[0] != InvalidSpreadMessage;
      output
  }

  /** Away from the names of Object.prototype the reading as written and the
      corrected reading print the same lines. */
  lemma RunAsWrittenAgrees(spreadType: string, reversalsInput: string, order: seq<nat>, flips: seq<bool>)
    requires IsPermutation(order, 78)
    requires ToLower(spreadType) !in ObjectPrototypeKeys
    requires ReversalsEnabled(reversalsInput) && SpreadSize(spreadType).Some? ==>
               SpreadSize(spreadType).value <= |flips|
    ensures ReversalsEnabled(reversalsInput) && Truthy(LookupAsWritten(spreadType)) ==>
              DrawCountAsWritten(LookupAsWritten(spreadType), 78) <= |flips|
    ensures RunAsWritten(spreadType, reversalsInput, order, flips) == Run(spreadType, reversalsInput, order, flips)
  {
    LookupAsWrittenAccepts(spreadType);
  }

  /** Answering "Constructor": as written, the heading is printed with no card
      under it; the corrected reading prints "Invalid spread type.". */
  lemma ConstructorReadingIsEmpty(reversalsInput: string, order: seq<nat>, flips: seq<bool>)
    requires IsPermutation(order, 78)
    ensures DrawCountAsWritten(LookupAsWritten("Constructor"), 78) == 0 && SpreadSize("Constructor") == None
    ensures RunAsWritten("Constructor", reversalsInput, order, flips) == [CardsHeading]
    ensures Run("Constructor", reversalsInput, order, flips) == [InvalidSpreadMessage]
  {
    InheritedKeyIsAccepted();
    EmptyWhenNothingKept("Constructor", reversalsInput, order, flips);
  }

  /** An answer the corrected lookup rejects but whose value as written is
      truthy and keeps no card: as written the heading is printed alone. */
  lemma EmptyWhenNothingKept(spreadType: string, reversalsInput: string, order: seq<nat>, flips: seq<bool>)
    requires IsPermutation(order, 78)
    requires Truthy(LookupAsWritten(spreadType))
    requires DrawCountAsWritten(LookupAsWritten(spreadType), 78) == 0
    requires SpreadSize(spreadType) == None
    ensures RunAsWritten(spreadType, reversalsInput, order, flips) == [CardsHeading]
    ensures Run(spreadType, reversalsInput, order, flips) == [InvalidSpreadMessage]
  {
    var cards := DrawCards(StandardDeck(), 0, ReversalsEnabled(reversalsInput), order, flips);
    assert cards == [];
    assert NumberLines(cards) == [];
  }

  /** A reading names `size` different cards of the deck, each upright or
      marked " (Reversed)", and upright only when reversals are off. */
  lemma RunDrawsDistinctCards(spreadType: string, reversalsInput: string, order: seq<nat>, flips: seq<bool>)
    requires IsPermutation(order, 78)
    requires SpreadSize(spreadType).Some?
    requires ReversalsEnabled(reversalsInput) ==> SpreadSize(spreadType).value <= |flips|
    ensures var n := SpreadSize(spreadType).value;
            var drawn := Drawn(StandardDeck(), n, order);
            var cards := DrawCards(StandardDeck(), n, ReversalsEnabled(reversalsInput), order, flips);
            && |drawn| == |cards| == n
            && Distinct(drawn)
            && (forall i :: 0 <= i < n ==> drawn[i] in StandardDeck())
            && (!ReversalsEnabled(reversalsInput) ==> cards == drawn)
  {
    StandardDeckDistinct();
    DrawnFromDeck(StandardDeck(), SpreadSize(spreadType).value, order);
  }
}
