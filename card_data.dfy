// The card tables of tarot.js (lines 5-18). utils.js imports tables of the
// same names from cardData.js, which is not part of this model; these tables
// stand in for them.
module CardData {

  /** One entry of the `suits` object: a key and its list of ranks. */
  datatype Suit = Suit(name: string, ranks: seq<string>)

  const MajorArcana: seq<string> := [
    "The Fool", "The Magician", "The High Priestess", "The Empress", "The Emperor",
    "The Hierophant", "The Lovers", "The Chariot", "Strength", "The Hermit",
    "Wheel of Fortune", "Justice", "The Hanged Man", "Death", "Temperance",
    "The Devil", "The Tower", "The Star", "The Moon", "The Sun",
    "Judgement", "The World"
  ]

  /** The rank list; all four suits carry the same fourteen ranks. */
  const Ranks: seq<string> := [
    "Ace", "Two", "Three", "Four", "Five", "Six", "Seven",
    "Eight", "Nine", "Ten", "Page", "Knight", "Queen", "King"
  ]

  /** The `suits` object as its keys are enumerated by `for...in`: string keys
      that are not array indices come in insertion order. */
  const Suits: seq<Suit> := [
    Suit("Wands", Ranks), Suit("Cups", Ranks), Suit("Swords", Ranks), Suit("Pentacles", Ranks)
  ]
}
