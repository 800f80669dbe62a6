// Deck construction: getDeck (utils.js:11-17, and the same text again at
// tarot.js:20-26) lists the major arcana and then, suit by suit, every
// "<rank> of <suit>" name.
module Deck {

  import opened Basics
  import opened CardData

  /** The printable form `${rank} of ${suit}` of a suited card. */
  function CardName(rank: string, suit: string): string {
    rank + " of " + suit
  }

  /** The names one suit contributes, in the order of its rank list. */
  function SuitCards(suit: Suit): seq<string> {
    seq(|suit.ranks|, k requires 0 <= k < |suit.ranks| => CardName(suit.ranks[k], suit.name))
  }

  /** The suited part of the catalog: the suits in key order, each suit's
      ranks in list order. */
  function SuitedCards(suits: seq<Suit>): seq<string> {
    if suits == [] then [] else SuitedCards(suits[..|suits| - 1]) + SuitCards(suits[|suits| - 1])
  }

  /** The ordered catalog: the major arcana first, then the suited cards. */
  function Catalog(majors: seq<string>, suits: seq<Suit>): seq<string> {
    majors + SuitedCards(suits)
  }

  /** The catalog built from the tables of CardData. */
  function StandardDeck(): (deck: seq<string>)
    ensures |deck| == 78
  {
    StandardUnfolds();
    Catalog(MajorArcana, Suits)
  }

  /** getDeck: start from a copy of the major arcana and push one name per
      rank of every suit. */
  method BuildDeck(majors: seq<string>, suits: seq<Suit>) returns (deck: seq<string>)
    ensures deck == Catalog(majors, suits)
  {
    deck := majors;
    var s := 0;
    while s < |suits|
      invariant 0 <= s <= |suits|
      invariant deck == majors + SuitedCards(suits[..s])
    {
      var suit := suits[s];
      var k := 0;
      while k < |suit.ranks|
        invariant 0 <= k <= |suit.ranks|
        invariant deck == majors + SuitedCards(suits[..s]) + SuitCards(suit)[..k]
      {
        deck := deck + [CardName(suit.ranks[k], suit.name)];
        k := k + 1;
      }
      assert suits[..s + 1][..s] == suits[..s];
      s := s + 1;
    }
    assert suits[..s] == suits;
  }

  /** getDeck returns 78 names: the 22 major arcana in list order, then Wands,
      Cups, Swords and Pentacles, each from Ace to King. */
  lemma StandardLayout()
    ensures |StandardDeck()| == 78
    ensures StandardDeck()[..22] == MajorArcana
    ensures forall s, k :: 0 <= s < 4 && 0 <= k < 14 ==>
              StandardDeck()[22 + 14 * s + k] == CardName(Ranks[k], Suits[s].name)
  {
    StandardUnfolds();
    var d := StandardDeck();
    var w, c, sw, p := SuitCards(Suits[0]), SuitCards(Suits[1]), SuitCards(Suits[2]), SuitCards(Suits[3]);
    assert d == MajorArcana + w + c + sw + p;
    forall s, k | 0 <= s < 4 && 0 <= k < 14
      ensures d[22 + 14 * s + k] == CardName(Ranks[k], Suits[s].name)
    {
      assert s == 0 || s == 1 || s == 2 || s == 3;
    }
  }

  /** The catalog of the standard tables, suit by suit. */
  lemma StandardUnfolds()
    ensures Catalog(MajorArcana, Suits)
         == MajorArcana + SuitCards(Suits[0]) + SuitCards(Suits[1]) + SuitCards(Suits[2]) + SuitCards(Suits[3])
  {
    assert Suits[..3][..2][..1][..0] == [];
    assert SuitedCards(Suits[..1]) == SuitCards(Suits[0]);
    assert SuitedCards(Suits[..2]) == SuitedCards(Suits[..1]) + SuitCards(Suits[1]) by {
      assert Suits[..2][..1] == Suits[..1];
    }
    assert SuitedCards(Suits[..3]) == SuitedCards(Suits[..2]) + SuitCards(Suits[2]) by {
      assert Suits[..3][..2] == Suits[..2];
    }
    assert SuitedCards(Suits) == SuitedCards(Suits[..3]) + SuitCards(Suits[3]);
  }

  /** The number of characters before the first space of `s` (all of `s`
      when it has none). */
  function WordLength(s: string): (n: nat)
    ensures n <= |s|
  {
    if s == [] || s[0] == ' ' then 0 else 1 + WordLength(s[1..])
  }

  lemma {:induction false} WordLengthAppend(r: string, t: string)
    requires ' ' !in r
    ensures WordLength(r + t) == |r| + WordLength(t)
  {
    if r != [] {
      assert r[0] in r && (r + t)[0] == r[0];
      assert (r + t)[1..] == r[1..] + t;
      WordLengthAppend(r[1..], t);
    } else {
      assert r + t == t;
    }
  }

  /** A suited name determines its rank and its suit, provided ranks contain
      no space: the first space of the name ends the rank. */
  lemma CardNameInjective(r1: string, s1: string, r2: string, s2: string)
    requires ' ' !in r1 && ' ' !in r2
    requires CardName(r1, s1) == CardName(r2, s2)
    ensures r1 == r2 && s1 == s2
  {
    var c := CardName(r1, s1);
    assert c == r1 + (" of " + s1) && c == r2 + (" of " + s2);
    WordLengthAppend(r1, " of " + s1);
    WordLengthAppend(r2, " of " + s2);
    assert |r1| == |r2|;
    assert r1 == c[..|r1|] == r2;
    assert s1 == c[|r1| + 4..] == s2;
  }

  /** No two major arcana share a name. */
  lemma MajorArcanaDistinct()
    ensures Distinct(MajorArcana)
  {
    forall i, j | 0 <= i < j < 22 ensures MajorArcana[i] != MajorArcana[j] {
      assert i == 0 || i == 1 || i == 2 || i == 3 || i == 4 || i == 5 || i == 6 || i == 7
        || i == 8 || i == 9 || i == 10 || i == 11 || i == 12 || i == 13 || i == 14 || i == 15
        || i == 16 || i == 17 || i == 18 || i == 19 || i == 20 || i == 21;
      assert j == 0 || j == 1 || j == 2 || j == 3 || j == 4 || j == 5 || j == 6 || j == 7
        || j == 8 || j == 9 || j == 10 || j == 11 || j == 12 || j == 13 || j == 14 || j == 15
        || j == 16 || j == 17 || j == 18 || j == 19 || j == 20 || j == 21;
    }
  }

  /** The ranks are fourteen different words without spaces. */
  lemma RanksWellFormed()
    ensures Distinct(Ranks)
    ensures forall k :: 0 <= k < 14 ==> ' ' !in Ranks[k]
  {
  }

  /** No major arcana name ends with a suit name, so none of them can be
      mistaken for a suited card. */
  lemma MajorsEndWithNoSuit(i: nat, s: nat)
    requires i < 22 && s < 4
    ensures |MajorArcana[i]| < |Suits[s].name|
         || MajorArcana[i][|MajorArcana[i]| - |Suits[s].name|..] != Suits[s].name
  {
    assert i == 0 || i == 1 || i == 2 || i == 3 || i == 4 || i == 5 || i == 6 || i == 7
      || i == 8 || i == 9 || i == 10 || i == 11 || i == 12 || i == 13 || i == 14 || i == 15
      || i == 16 || i == 17 || i == 18 || i == 19 || i == 20 || i == 21;
    assert s == 0 || s == 1 || s == 2 || s == 3;
  }

  /** Position `q` of the suited part holds rank `(q - 22) % 14` of suit
      `(q - 22) / 14`. */
  lemma SuitedAt(q: nat)
    requires 22 <= q < 78
    ensures (q - 22) / 14 < 4
    ensures StandardDeck()[q] == CardName(Ranks[(q - 22) % 14], Suits[(q - 22) / 14].name)
  {
    StandardLayout();
    assert q == 22 + 14 * ((q - 22) / 14) + (q - 22) % 14;
  }

  /** Suit `s` is named differently from every other suit. */
  lemma SuitNamesDistinct(s: nat, t: nat)
    requires s < 4 && t < 4 && s != t
    ensures Suits[s].name != Suits[t].name
  {
  }

  /** A major arcana name never equals a suited name. */
  lemma MajorIsNotSuited(p: nat, q: nat)
    requires p < 22 <= q < 78
    ensures StandardDeck()[p] != StandardDeck()[q]
  {
    StandardLayout();
    assert StandardDeck()[p] == StandardDeck()[..22][p] == MajorArcana[p];
    SuitedAt(q);
    var s := (q - 22) / 14;
    var c := CardName(Ranks[(q - 22) % 14], Suits[s].name);
    MajorsEndWithNoSuit(p, s);
    assert c[|c| - |Suits[s].name|..] == Suits[s].name;
  }

  /** Two different positions of the suited part hold different names. */
  lemma SuitedDistinct(p: nat, q: nat)
    requires 22 <= p < q < 78
    ensures StandardDeck()[p] != StandardDeck()[q]
  {
    SuitedAt(p);
    SuitedAt(q);
    RanksWellFormed();
    var sp, kp := (p - 22) / 14, (p - 22) % 14;
    var sq, kq := (q - 22) / 14, (q - 22) % 14;
    if StandardDeck()[p] == StandardDeck()[q] {
      CardNameInjective(Ranks[kp], Suits[sp].name, Ranks[kq], Suits[sq].name);
      if sp != sq {
        SuitNamesDistinct(sp, sq);
      }
      assert false;
    }
  }

  /** The 78 names getDeck returns are pairwise distinct. */
  lemma StandardDeckDistinct()
    ensures Distinct(StandardDeck())
  {
    StandardLayout();
    forall p, q | 0 <= p < q < 78 ensures StandardDeck()[p] != StandardDeck()[q] {
      if q < 22 {
        MajorArcanaDistinct();
        assert StandardDeck()[..22][p] == MajorArcana[p] && StandardDeck()[..22][q] == MajorArcana[q];
      } else if p < 22 {
        MajorIsNotSuited(p, q);
      } else {
        SuitedDistinct(p, q);
      }
    }
  }
}
