# terminal-tarot: deck and draw engine

A Dafny model of the card engine of terminal-tarot, a command-line tarot
reader. It comes in two variants:

- `utils.js` builds the 78-card catalog and shuffles it once, when the module
  is loaded, with a Fisher–Yates loop that swaps in place on a copied array.
  It then serves every `drawCards(num)` as a prefix of that one shuffled
  deck.
- `tarot.js` builds the same catalog. It reorders a copy with a
  random-comparator `sort`, takes a prefix, and may suffix each card with
  `" (Reversed)"`. Its `runTarotApp` maps the spread answer to a card count,
  maps the reversal answer to a flag, and prints the cards as numbered
  lines.

Module layout:

- `Basics` (basics.dfy): `Option`, duplicate-freedom and index permutations.
- `Js` (js.dfy): the JavaScript built-ins the engine relies on. This is the
  end argument of `slice`, `toLowerCase` and the decimal form of an integer.
- `CardData` (card_data.dfy): the major-arcana and suit tables.
- `Deck` (deck.dfy): the catalog, the imperative `getDeck` loop and the
  facts about the 78 names.
- `Utils` (utils.dfy): utils.js. The shuffle is a `while` loop over an
  `array`. The module state is a class whose `const shuffledDeck` is fixed
  when the module loads.
- `Tarot` (tarot.dfy): tarot.js's `drawCards` and the decisions inside
  `runTarotApp`.

Random input is passed in as parameters:

- The shuffle takes the sequence of indices `Math.floor(Math.random() * currentIndex)` would yield. The `k`-th index is below `n - k`.
- The comparator sort takes the permutation of indices it ends up applying. A `sort` yields a permutation of its copy whatever the comparator answers.
- The reversal test takes one coin flip per drawn card. The flips are read only when reversals are on, as `&&` short-circuits in the source.

utils.js imports its tables from `cardData.js`, which is not part of this
model. The tables of tarot.js (lines 5-18) are used for both variants. The
two `getDeck` bodies are the same code, so they are modelled once, as
`Deck.BuildDeck`, over the tables it is given.

Points where the code may surprise a reader:

- A draw of more cards than the deck holds is cut short by `slice`, not
  refused. A negative count counts back from the end, as `slice` does.
- The Celtic Cross key is `celtic`. The prompt offers "celtic cross", which
  lower-cases to a string that is not a key, so typing it is rejected.
- Spreads have no named positions. Every card is labelled with its 1-based
  number.
- utils.js keeps one shuffled deck for the whole process, so every draw is
  a prefix of the same shuffled order.
- The spread lookup also finds the names of Object.prototype (see
  "## Findings"). `Tarot.Run` is the reading with the corrected lookup, and
  `Tarot.RunAsWritten` is the reading as tarot.js performs it.

## Model

| member | source | states |
|---|---|---|
| Deck.BuildDeck | utils.js:11-17 | the deck is the major arcana in list order followed by, for each suit in key order, `"<rank> of <suit>"` for each rank in list order |
| Deck.StandardDeck | tarot.js:20-26 | the catalog of the tarot.js tables has exactly 78 names |
| Deck.StandardLayout | tarot.js:5-26 | 78 names; the first 22 are the major arcana in order; position `22 + 14*s + k` is rank `k` (Ace…King) of suit `s` (Wands, Cups, Swords, Pentacles) |
| Deck.CardNameInjective | tarot.js:23 | a name `"<rank> of <suit>"` with a space-free rank determines both the rank and the suit |
| Deck.MajorArcanaDistinct | tarot.js:5-11 | the 22 major-arcana names are pairwise different |
| Deck.RanksWellFormed | tarot.js:14 | the 14 ranks are pairwise different and contain no space |
| Deck.StandardDeckDistinct | tarot.js:5-26 | all 78 deck names are pairwise distinct |
| Tarot.GetDeck | tarot.js:20-26 | getDeck returns the catalog with the 78-card layout above and no duplicate |
| Utils.SwapPermutes | utils.js:27-30 | a swap keeps the multiset of elements |
| Utils.ShuffleUntilPermutes | utils.js:23-31 | after any number of loop iterations the copy is a permutation of the input |
| Utils.ShuffleSettles | utils.js:23-31 | once `currentIndex` has reached `c`, the positions from `c` on agree with every later state (they are never touched again) |
| Utils.ShuffleUntilKeepsDistinct | utils.js:23-31 | a duplicate-free input stays duplicate-free in every loop state |
| Utils.ShufflePermutes | utils.js:19-34 | shuffleDeck's result has the input's length and the same multiset of elements |
| Utils.ShuffleDeck | utils.js:19-34 | the in-place loop over the copied array returns the shuffle of its input, a permutation of it; every swap index is in bounds and `currentIndex` decreases to 0 |
| Utils.UtilsModule.constructor | utils.js:36 | loading the module sets `shuffledDeck` to the shuffle of getDeck's catalog |
| Utils.UtilsModule.ShuffledDeckIsCatalog | utils.js:36 | the loaded deck has 78 cards, is a permutation of the catalog and holds no card twice |
| Utils.UtilsModule.DrawCards | utils.js:38-40 | `drawCards(num)` is a prefix of `shuffledDeck` of `min(num, 78)` cards for `num >= 0`, and of `max(78 + num, 0)` cards for negative `num` |
| Utils.UtilsModule.DrawCardsFromDeck | utils.js:36-40 | a draw holds `min(num, 78)` cards for `num >= 0`, none twice, each a card of the catalog |
| Utils.UtilsModule.DrawCardsPrefix | utils.js:38-40 | since the shared deck never changes, `drawCards(a)` is a prefix of `drawCards(b)` for `0 <= a <= b` |
| Js.SliceEndMonotone | utils.js:39 | for ends of the same sign, a smaller end never keeps more elements |
| Js.ToLowerIdempotent | tarot.js:53 | lower-casing a lower-cased string changes nothing |
| Js.NumberToString | tarot.js:65 | `${n}` is a non-empty string of decimal digits that denotes `n`; it starts with `0` only when it is `0` itself |
| Js.ToLower | tarot.js:44 | `toLowerCase` keeps the length and lower-cases each character on its own |
| Tarot.PermutedKeepsMultiset | tarot.js:29 | whatever the comparator answers, the sorted copy holds the deck's cards, each as often as the deck does (`Permuted` is that copy read through the permutation `order`) |
| Basics.ReorderKeepsMultiset | tarot.js:29 | reading a sequence through any permutation of its indices keeps its multiset of elements |
| Basics.DistinctBound | tarot.js:29 | a duplicate-free list of indices all below `b` has at most `b` entries; this is the counting step showing that a permutation of the `n` deck positions uses every position |
| Tarot.DrawnFromDeck | tarot.js:29-30 | the base cards of a draw number `min(num, |deck|)` for `num >= 0`, all come from the deck, and are pairwise distinct when the deck is |
| Tarot.DrawCards | tarot.js:28-34 | one entry per drawn card, in draw order; each entry is its drawn card or that card plus `" (Reversed)"`; the suffix is there exactly when reversals are on and that card's coin flip came up; with reversals off the draw is returned unchanged |
| Tarot.SpreadSize | tarot.js:46-58 | lower-cased `single`/`three`/`five`/`celtic` give 1/3/5/10 and every other answer gives None ("Invalid spread type.") |
| Tarot.SpreadSizeIgnoresCase | tarot.js:53 | the spread answer is read case-insensitively |
| Tarot.LookupAsWrittenAccepts | tarot.js:53-58 | as written, the `!spreadSize` test accepts exactly the table's names and the lower-case names of Object.prototype, and agrees with SpreadSize on the table's names (`Truthy` is the `!spreadSize` test, tarot.js:54) |
| Tarot.InheritedKeyIsAccepted | tarot.js:53-58 | "Constructor" passes the test as written, draws zero cards (`DrawCountAsWritten` is the `slice(0, v)` count, tarot.js:30), and is rejected by the corrected SpreadSize |
| Tarot.ReversalsEnabled | tarot.js:44 | reversals are on exactly when the answer is y/Y, e/E, s/S, three characters in all |
| Tarot.LineParses | tarot.js:65 | a line `"<n>. <card>"` reads back as the number `n` and the card |
| Tarot.NumberLines | tarot.js:64-66 | one line per card; line `i` (from 0) reads back as the number `i + 1` and card `i`, and does not start with `0`, so it is exactly `"<i+1>. <card>"` |
| Tarot.Run | tarot.js:42-67 | with the corrected lookup: an unrecognised spread prints exactly "Invalid spread type."; a known spread of size `n` prints the heading and then `n` lines, line `i` being exactly `"<i>. <card>"` for drawn card `i - 1` |
| Tarot.RunAsWritten | tarot.js:42-67 | with the lookup as written: a falsy value prints exactly "Invalid spread type."; a truthy one prints the heading and one line per card `slice` keeps |
| Tarot.RunAsWrittenAgrees | tarot.js:53-66 | for every answer that is not a name of Object.prototype, the reading as written prints the same lines as the corrected reading |
| Tarot.ConstructorReadingIsEmpty | tarot.js:53-66 | for "Constructor" the reading as written prints only the heading, and the corrected reading prints "Invalid spread type." |
| Tarot.EmptyWhenNothingKept | tarot.js:53-66 | any answer whose value as written is truthy but keeps no card, and which the corrected lookup rejects, prints only the heading as written and "Invalid spread type." when corrected |
| Tarot.RunDrawsDistinctCards | tarot.js:60-66 | a reading draws `n` pairwise-distinct cards of the deck, all upright when reversals are off |

## Left out

- `displayCardImage` (utils.js:54-113) is not modelled. It checks for files, renders with `terminal-image`, logs with `chalk`, waits on `setTimeout` and draws an ASCII fallback box. All of that is I/O and foreign library calls.
- `getTerminalImageOptions` (utils.js:42-52) is not modelled. It is display configuration chosen by an environment variable.
- `cardToImage` is not modelled. It lives in `cardData.js`, which is not part of this model.
- The readline prompts and callbacks of `runTarotApp` (tarot.js:37-43, 68) are not modelled, nor is the call at tarot.js:73. The two answers are parameters of `Tarot.Run`, and its result is the list of `console.log` lines.
- `Math.random()`, `Math.floor(r * n)` and the `Math.random() - 0.5` comparator are not modelled. They are floating point. The model takes the integer, permutation and boolean choices they produce as inputs.
- Uniformity of the shuffle, the 50% reversal rate and the bias of the comparator sort are not stated. These are statistical claims, and no deterministic model can state them.
- Tarot.Permuted: does not model how `sort` uses the comparator. It keeps only what every `sort` guarantees, namely that the result is the copy under some permutation.
- Js.ToLower: lower-cases ASCII letters only; full Unicode case mapping is not modelled. Only two non-ASCII characters lower-case to ASCII letters: U+212A becomes `k`, and U+0130 becomes `i` plus a combining dot. No key a lower-cased answer can reach contains `k` or the combining dot, so every spread and reversal answer gets the same outcome either way.
- Utils.UtilsModule.DrawCards: covers integer arguments only. `slice` also accepts `undefined`, fractions and NaN, which this model does not cover.

## Findings

| source | as written | input that shows it | evidently intended | confidence | as-written member | corrected member |
|---|---|---|---|---|---|---|
| tarot.js:53-58 | the spread answer is looked up with `spreadSizes[key]` on a plain object and checked only with `!spreadSize`, so names inherited from Object.prototype count as found | `constructor` (any case) or `__proto__`: no "Invalid spread type.", then "Your cards:" with no card, because `slice(0, <function or object>)` keeps 0 cards | only `single`, `three`, `five` and `celtic` are accepted, and everything else gets "Invalid spread type." | high; not executed | Tarot.ConstructorReadingIsEmpty | Tarot.SpreadSize |
