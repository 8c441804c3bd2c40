/**
 * The player's side of the table: the hand, the draw deck, the graveyard and
 * the persona pile, and the moves that pass cards between them. Cards are
 * objects, found and removed by identity, so a card here is known by a
 * number that no other card shares.
 */
module Playmat {
  import opened Lists
  import DeckService

  /** A card object on the table, by identity. */
  type Card = nat

  /**
   * `shuffleArray`: copies the input and walks it from the end, swapping
   * each position with a randomly chosen position at or before it. The
   * random index is a free choice here.
   */
  method ShuffleArray<T>(input: seq<T>) returns (shuffled: seq<T>)
    ensures |shuffled| == |input|
    ensures multiset(shuffled) == multiset(input)
  {
    var a := new T[|input|](k requires 0 <= k < |input| => input[k]);
    assert a[..] == input;
    var i := a.Length - 1;
    while i > 0
      invariant -1 <= i < a.Length || a.Length == 0
      invariant multiset(a[..]) == multiset(input)
    {
      var j :| 0 <= j <= i;
      a[i], a[j] := a[j], a[i];
      i := i - 1;
    }
    shuffled := a[..];
  }

  /** `Array(qty).fill(id)`. */
  function Repeat(id: string, qty: nat): (r: seq<string>)
    ensures |r| == qty
    ensures multiset(r)[id] == qty && forall x :: x != id ==> multiset(r)[x] == 0
  {
    if qty == 0 then [] else [id] + Repeat(id, qty - 1)
  }

  function TotalQty(entries: seq<DeckService.DeckEntry>): nat {
    if entries == [] then 0 else entries[0].qty + TotalQty(entries[1..])
  }

  /** How many copies of `id` the list asks for, over all its lines. */
  function QtyOf(entries: seq<DeckService.DeckEntry>, id: string): nat {
    if entries == [] then 0
    else (if entries[0].id == id then entries[0].qty else 0) + QtyOf(entries[1..], id)
  }

  /** The deck list expanded to one id per copy, line after line. */
  function ExpandDeck(entries: seq<DeckService.DeckEntry>): (ids: seq<string>)
    ensures |ids| == TotalQty(entries)
    ensures forall id :: multiset(ids)[id] == QtyOf(entries, id)
  {
    if entries == [] then []
    else Repeat(entries[0].id, entries[0].qty) + ExpandDeck(entries[1..])
  }

  /** Expanding two lists one after the other is expanding their concatenation. */
  lemma {:induction false} ExpandConcat(a: seq<DeckService.DeckEntry>, b: seq<DeckService.DeckEntry>)
    ensures ExpandDeck(a + b) == ExpandDeck(a) + ExpandDeck(b)
  {
    if a == [] {
      assert a + b == b;
    } else {
      assert (a + b)[0] == a[0] && (a + b)[1..] == a[1..] + b;
      ExpandConcat(a[1..], b);
    }
  }

  /** The player's zones. */
  datatype Table = Table(hand: seq<Card>, deck: seq<Card>, graveyard: seq<Card>, personas: seq<Card>)

  /** Every card on the table, zone by zone. */
  function AllCards(t: Table): seq<Card> {
    t.hand + t.deck + t.graveyard + t.personas
  }

  /** No card object lies in two places. */
  predicate WellFormed(t: Table) {
    Distinct(AllCards(t))
  }

  function Min(a: int, b: int): int {
    if a <= b then a else b
  }

  /** `handleDrawCards`: the first `count` cards of the deck (or all, if fewer) go to the end of the hand. */
  function DrawCards(t: Table, count: nat): (r: Table)
    ensures r.hand == t.hand + t.deck[..Min(count, |t.deck|)]
    ensures r.deck == t.deck[Min(count, |t.deck|)..]
    ensures r.graveyard == t.graveyard && r.personas == t.personas
    ensures r.hand + r.deck == t.hand + t.deck
    ensures |r.hand| == |t.hand| + Min(count, |t.deck|)
  {
    var k := Min(count, |t.deck|);
    assert t.deck == t.deck[..k] + t.deck[k..];
    t.(hand := t.hand + t.deck[..k], deck := t.deck[k..])
  }

  /** What a peep may do with a card. */
  datatype Decision = ToHand | ToGraveyard | ToTop | ToBottom

  /** `decisions.get(card) || "top"`. */
  function DecisionOf(decisions: map<Card, Decision>, c: Card): Decision {
    if c in decisions then decisions[c] else ToTop
  }

  /** The callback `card => decision(card) === d`. */
  function DecidedAs(decisions: map<Card, Decision>, d: Decision): Card -> bool {
    (c: Card) => DecisionOf(decisions, c) == d
  }

  /** The peeked cards that received decision `d`, in peek order. */
  function Picked(cards: seq<Card>, decisions: map<Card, Decision>, d: Decision): seq<Card> {
    Filter(cards, DecidedAs(decisions, d))
  }

  /**
   * `handlePeepCards`: the peeked cards leave the deck; those kept on top
   * come first, then the rest of the deck, then those sent to the bottom.
   * Drawn cards go to the end of the hand, discarded ones to the end of the
   * graveyard, and an undecided card stays on top.
   */
  function PeepCards(t: Table, cards: seq<Card>, decisions: map<Card, Decision>): (r: Table)
    ensures r.deck == Picked(cards, decisions, ToTop) + Without(t.deck, cards) + Picked(cards, decisions, ToBottom)
    ensures r.hand == t.hand + Picked(cards, decisions, ToHand)
    ensures r.graveyard == t.graveyard + Picked(cards, decisions, ToGraveyard)
    ensures r.personas == t.personas
  {
    t.(hand := t.hand + Picked(cards, decisions, ToHand),
       deck := Picked(cards, decisions, ToTop) + Without(t.deck, cards) + Picked(cards, decisions, ToBottom),
       graveyard := t.graveyard + Picked(cards, decisions, ToGraveyard))
  }

  /** The first peeked card lands in the pile of its own decision, in front of the rest. */
  lemma PickedCons(cards: seq<Card>, decisions: map<Card, Decision>, d: Decision)
    requires cards != []
    ensures Picked(cards, decisions, d) == (if DecisionOf(decisions, cards[0]) == d then [cards[0]] else []) + Picked(cards[1..], decisions, d)
  {
  }

  /** The first peeked card counts once in the pile of its own decision and nowhere else. */
  lemma PickedConsCounts(cards: seq<Card>, decisions: map<Card, Decision>, d: Decision)
    requires cards != []
    ensures multiset(Picked(cards, decisions, d)) ==
      (if DecisionOf(decisions, cards[0]) == d then multiset{cards[0]} else multiset{}) + multiset(Picked(cards[1..], decisions, d))
  {
    PickedCons(cards, decisions, d);
  }

  /** Every peeked card gets exactly one of the four decisions. */
  lemma {:induction false} PickedPartition(cards: seq<Card>, decisions: map<Card, Decision>)
    ensures multiset(Picked(cards, decisions, ToHand)) + multiset(Picked(cards, decisions, ToGraveyard))
      + multiset(Picked(cards, decisions, ToTop)) + multiset(Picked(cards, decisions, ToBottom)) == multiset(cards)
  {
    if cards != [] {
      var c, rest := cards[0], cards[1..];
      assert multiset(cards) == multiset{c} + multiset(rest) by {
        assert cards == [c] + rest;
      }
      PickedPartition(rest, decisions);
      PickedPartitionStep(cards, decisions);
    }
  }

  /** Splitting off the first peeked card adds it to exactly one of the four piles. */
  lemma PickedPartitionStep(cards: seq<Card>, decisions: map<Card, Decision>)
    requires cards != []
    ensures multiset(Picked(cards, decisions, ToHand)) + multiset(Picked(cards, decisions, ToGraveyard))
      + multiset(Picked(cards, decisions, ToTop)) + multiset(Picked(cards, decisions, ToBottom))
      == multiset{cards[0]} + (multiset(Picked(cards[1..], decisions, ToHand)) + multiset(Picked(cards[1..], decisions, ToGraveyard))
      + multiset(Picked(cards[1..], decisions, ToTop)) + multiset(Picked(cards[1..], decisions, ToBottom)))
  {
    var c, rest := cards[0], cards[1..];
    var dc := DecisionOf(decisions, c);
    var mh, mg, mt, mb := multiset(Picked(rest, decisions, ToHand)), multiset(Picked(rest, decisions, ToGraveyard)),
      multiset(Picked(rest, decisions, ToTop)), multiset(Picked(rest, decisions, ToBottom));
    var h, g, tp, b := multiset(Picked(cards, decisions, ToHand)), multiset(Picked(cards, decisions, ToGraveyard)),
      multiset(Picked(cards, decisions, ToTop)), multiset(Picked(cards, decisions, ToBottom));
    assert h == (if dc == ToHand then multiset{c} else multiset{}) + mh by {
      PickedConsCounts(cards, decisions, ToHand);
    }
    assert g == (if dc == ToGraveyard then multiset{c} else multiset{}) + mg by {
      PickedConsCounts(cards, decisions, ToGraveyard);
    }
    assert tp == (if dc == ToTop then multiset{c} else multiset{}) + mt by {
      PickedConsCounts(cards, decisions, ToTop);
    }
    assert b == (if dc == ToBottom then multiset{c} else multiset{}) + mb by {
      PickedConsCounts(cards, decisions, ToBottom);
    }
    PartitionStep(c, dc, h, g, tp, b, mh, mg, mt, mb);
  }

  /** One card with decision `dc` joins exactly one of the four piles. */
  lemma PartitionStep(c: Card, dc: Decision, h: multiset<Card>, g: multiset<Card>, tp: multiset<Card>, b: multiset<Card>,
                      mh: multiset<Card>, mg: multiset<Card>, mt: multiset<Card>, mb: multiset<Card>)
    requires h == (if dc == ToHand then multiset{c} else multiset{}) + mh
    requires g == (if dc == ToGraveyard then multiset{c} else multiset{}) + mg
    requires tp == (if dc == ToTop then multiset{c} else multiset{}) + mt
    requires b == (if dc == ToBottom then multiset{c} else multiset{}) + mb
    ensures h + g + tp + b == multiset{c} + (mh + mg + mt + mb)
  {
    match dc
    case ToHand =>
      assert (multiset{c} + mh) + mg + mt + mb == multiset{c} + (mh + mg + mt + mb);
    case ToGraveyard =>
      assert mh + (multiset{c} + mg) + mt + mb == multiset{c} + (mh + mg + mt + mb);
    case ToTop =>
      assert mh + mg + (multiset{c} + mt) + mb == multiset{c} + (mh + mg + mt + mb);
    case ToBottom =>
      assert mh + mg + mt + (multiset{c} + mb) == multiset{c} + (mh + mg + mt + mb);
  }

  /** A peep of cards taken from the deck neither creates nor loses a card. */
  lemma PeepConserves(t: Table, cards: seq<Card>, decisions: map<Card, Decision>)
    requires Distinct(t.deck) && Distinct(cards)
    requires forall c :: c in cards ==> c in t.deck
    ensures multiset(AllCards(PeepCards(t, cards, decisions))) == multiset(AllCards(t))
  {
    var r := PeepCards(t, cards, decisions);
    var mh, mg, mt, mb := multiset(Picked(cards, decisions, ToHand)), multiset(Picked(cards, decisions, ToGraveyard)),
      multiset(Picked(cards, decisions, ToTop)), multiset(Picked(cards, decisions, ToBottom));
    var mw := multiset(Without(t.deck, cards));
    assert mw + (mh + mg + mt + mb) == multiset(t.deck) by {
      PickedPartition(cards, decisions);
      WithoutRemovesOnce(t.deck, cards);
    }
    var mhand, mdeck, mgrave, mpers := multiset(t.hand), multiset(t.deck), multiset(t.graveyard), multiset(t.personas);
    assert multiset(AllCards(r)) == mhand + mh + (mt + mw + mb) + (mgrave + mg) + mpers by {
      assert AllCards(r) == (t.hand + Picked(cards, decisions, ToHand))
        + (Picked(cards, decisions, ToTop) + Without(t.deck, cards) + Picked(cards, decisions, ToBottom))
        + (t.graveyard + Picked(cards, decisions, ToGraveyard)) + t.personas;
    }
    PeepRearrange(mhand, mdeck, mgrave, mpers, mh, mg, mt, mb, mw);
  }

  /** The multiset bookkeeping of a peep: the peeked cards and the rest of the deck make up the old deck. */
  lemma PeepRearrange(mhand: multiset<Card>, mdeck: multiset<Card>, mgrave: multiset<Card>, mpers: multiset<Card>,
                      mh: multiset<Card>, mg: multiset<Card>, mt: multiset<Card>, mb: multiset<Card>, mw: multiset<Card>)
    requires mw + (mh + mg + mt + mb) == mdeck
    ensures mhand + mh + (mt + mw + mb) + (mgrave + mg) + mpers == mhand + mdeck + mgrave + mpers
  {
  }

  /** A filter that drops every element leaves nothing. */
  lemma {:induction false} FilterDropsAll<T(!new)>(xs: seq<T>, p: T -> bool)
    requires forall x :: x in xs ==> !p(x)
    ensures Filter(xs, p) == []
  {
    if xs != [] {
      FilterDropsAll(xs[1..], p);
    }
  }

  /** In a duplicate-free deck, taking out its first `k` cards leaves the rest in order. */
  lemma WithoutPrefix(deck: seq<Card>, k: nat)
    requires Distinct(deck) && k <= |deck|
    ensures Without(deck, deck[..k]) == deck[k..]
  {
    var top, rest := deck[..k], deck[k..];
    assert deck == top + rest;
    assert Without(deck, top) == Filter(top, NotIn(top)) + Filter(rest, NotIn(top)) by {
      FilterConcat(top, rest, NotIn(top));
    }
    assert Filter(top, NotIn(top)) == [] by {
      FilterDropsAll(top, NotIn(top));
    }
    assert forall c :: c in rest ==> c !in top by {
      forall c | c in rest ensures c !in top {
        var j :| 0 <= j < |rest| && rest[j] == c;
        assert deck[k + j] == c;
      }
    }
    FilterKeepsAll(rest, NotIn(top));
  }

  /** Peeking at the top `k` cards and leaving every one on top puts the deck back as it was. */
  lemma PeepAllTopIsIdentity(t: Table, k: nat)
    requires Distinct(t.deck) && k <= |t.deck|
    ensures PeepCards(t, t.deck[..k], map[]).deck == t.deck
    ensures PeepCards(t, t.deck[..k], map[]).hand == t.hand
  {
    var top := t.deck[..k];
    var decisions: map<Card, Decision> := map[];
    assert Picked(top, decisions, ToTop) == top by {
      FilterKeepsAll(top, DecidedAs(decisions, ToTop));
    }
    assert Picked(top, decisions, ToBottom) == [] by {
      FilterDropsAll(top, DecidedAs(decisions, ToBottom));
    }
    assert Picked(top, decisions, ToHand) == [] by {
      FilterDropsAll(top, DecidedAs(decisions, ToHand));
    }
    WithoutPrefix(t.deck, k);
    assert t.deck == top + t.deck[k..];
  }

  /** `array.indexOf(x)`: the first position holding `x`, or -1. */
  function IndexOf(s: seq<Card>, x: Card): (i: int)
    ensures -1 <= i < |s|
    ensures i == -1 <==> x !in s
    ensures i >= 0 ==> s[i] == x && x !in s[..i]
  {
    if s == [] then -1
    else if s[0] == x then 0
    else
      var i := IndexOf(s[1..], x);
      if i == -1 then -1 else (assert s[..i + 1] == [s[0]] + s[1..][..i]; i + 1)
  }

  /** `copy.splice(i, 1)`. */
  function RemoveAt(s: seq<Card>, i: nat): (r: seq<Card>)
    requires i < |s|
    ensures |r| == |s| - 1
    ensures multiset(r) == multiset(s) - multiset{s[i]}
  {
    assert s == s[..i] + [s[i]] + s[i + 1..];
    s[..i] + s[i + 1..]
  }

  /**
   * `drawCardToHand`: the first occurrence of `card` leaves `source` and goes
   * to the end of `hand`; nothing happens when `source` lacks it.
   */
  function DrawCardToHand(card: Card, source: seq<Card>, hand: seq<Card>): (r: (seq<Card>, seq<Card>))
    ensures card !in source ==> r == (source, hand)
    ensures card in source ==> r.1 == hand + [card] && r.0 == RemoveAt(source, IndexOf(source, card))
    ensures multiset(r.0) + multiset(r.1) == multiset(source) + multiset(hand)
  {
    var i := IndexOf(source, card);
    if i == -1 then (source, hand) else (RemoveAt(source, i), hand + [card])
  }

  /** `handleDrawPersona`: a persona moves from the persona pile to the hand. */
  function DrawPersona(t: Table, card: Card): (r: Table)
    ensures card in t.personas ==> r.hand == t.hand + [card]
    ensures card !in t.personas ==> r == t
    ensures multiset(AllCards(r)) == multiset(AllCards(t))
    ensures r.deck == t.deck && r.graveyard == t.graveyard
  {
    var (personas, hand) := DrawCardToHand(card, t.personas, t.hand);
    t.(hand := hand, personas := personas)
  }

  /** On a table where no card lies twice, the drawn persona is no longer in the persona pile. */
  lemma DrawPersonaLeavesPile(t: Table, card: Card)
    requires WellFormed(t) && card in t.personas
    ensures card !in DrawPersona(t, card).personas
  {
    var i := IndexOf(t.personas, card);
    var front := t.hand + t.deck + t.graveyard;
    assert t.personas == t.personas[..i] + [card] + t.personas[i + 1..];
    assert AllCards(t) == (front + t.personas[..i]) + [card] + t.personas[i + 1..];
    assert AllCards(t)[|front| + i] == card;
    DistinctAt(AllCards(t), |front| + i);
    assert t.personas[i + 1..] == AllCards(t)[|front| + i + 1..];
  }

  /**
   * `handleFindCard`: the first copy of `card` moves from the deck to the
   * end of the hand and the rest of the deck is shuffled; a card not in the
   * deck changes nothing.
   */
  method FindCard(t: Table, card: Card) returns (r: Table)
    ensures card !in t.deck ==> r == t
    ensures card in t.deck ==>
      && r.hand == t.hand + [card]
      && multiset(r.deck) == multiset(t.deck) - multiset{card}
      && r.graveyard == t.graveyard && r.personas == t.personas
    ensures multiset(AllCards(r)) == multiset(AllCards(t))
  {
    var i := IndexOf(t.deck, card);
    if i == -1 {
      return t;
    }
    var newDeck := RemoveAt(t.deck, i);
    var shuffled := ShuffleArray(newDeck);
    r := t.(hand := t.hand + [card], deck := shuffled);
  }

  /**
   * `handleMulliganConfirm` up to the shuffle: the chosen cards leave the hand
   * and go under the deck, and as many cards are drawn from the top.
   */
  function Mulligan(t: Table, cards: seq<Card>): (r: Table)
    ensures r.hand == Without(t.hand, cards) + (t.deck + cards)[..|cards|]
    ensures r.deck == (t.deck + cards)[|cards|..]
    ensures r.graveyard == t.graveyard && r.personas == t.personas
  {
    var newDeck := t.deck + cards;
    t.(hand := Without(t.hand, cards) + newDeck[..|cards|], deck := newDeck[|cards|..])
  }

  /** After a mulligan, hand and deck together are the kept cards, then the old deck, then the chosen cards. */
  lemma MulliganJoined(t: Table, cards: seq<Card>)
    ensures Mulligan(t, cards).hand + Mulligan(t, cards).deck == Without(t.hand, cards) + t.deck + cards
    ensures |Mulligan(t, cards).hand| == |Without(t.hand, cards)| + |cards|
  {
    var newDeck := t.deck + cards;
    assert newDeck == newDeck[..|cards|] + newDeck[|cards|..];
  }

  /**
   * A mulligan of distinct cards from the hand keeps the hand size and the
   * cards held between hand and deck.
   */
  lemma MulliganConserves(t: Table, cards: seq<Card>)
    requires Distinct(t.hand) && Distinct(cards)
    requires forall c :: c in cards ==> c in t.hand
    ensures |Mulligan(t, cards).hand| == |t.hand|
    ensures multiset(Mulligan(t, cards).hand + Mulligan(t, cards).deck) == multiset(t.hand + t.deck)
  {
    var kept := Without(t.hand, cards);
    var mk, md, mc := multiset(kept), multiset(t.deck), multiset(cards);
    assert mk + mc == multiset(t.hand) && |kept| == |t.hand| - |cards| by {
      WithoutRemovesOnce(t.hand, cards);
    }
    MulliganJoined(t, cards);
    assert multiset(kept + t.deck + cards) == mk + md + mc;
    assert multiset(t.hand + t.deck) == (mk + mc) + md;
  }

  /**
   * The whole mulligan: the mulligan dialog closes and the remaining deck is
   * shuffled afterwards. `dialogOpen` is the dialog's flag after the call.
   */
  method MulliganConfirm(t: Table, cards: seq<Card>) returns (r: Table, dialogOpen: bool)
    ensures r.hand == Mulligan(t, cards).hand
    ensures multiset(r.deck) == multiset(Mulligan(t, cards).deck)
    ensures r.graveyard == t.graveyard && r.personas == t.personas
    ensures !dialogOpen
  {
    var m := Mulligan(t, cards);
    dialogOpen := false;
    var shuffled := ShuffleArray(m.deck);
    r := m.(deck := shuffled);
  }

  /** The size of a full deck, at which the opening hand is dealt. */
  const FullDeck: nat := 45
  const OpeningHandSize: nat := 5

  /**
   * The opening-hand effect: once the deck has loaded, before the game has
   * started, and only if the deck holds exactly 45 cards, the hand becomes the
   * first five cards, the deck the other forty, the mulligan dialog opens and
   * the game counts as started. Takes and returns the table, the started
   * flag and the mulligan dialog's open flag; a run that deals nothing
   * leaves the dialog as it was.
   */
  function OpeningHand(deckLoaded: bool, gameStarted: bool, mulliganOpen: bool, t: Table): (r: (Table, bool, bool))
    ensures deckLoaded && !gameStarted && |t.deck| == FullDeck ==>
      && r.0.hand == t.deck[..OpeningHandSize] && r.0.deck == t.deck[OpeningHandSize..]
      && r.0.hand + r.0.deck == t.deck && |r.0.deck| == 40
      && r.1 && r.2
    ensures !(deckLoaded && !gameStarted && |t.deck| == FullDeck) ==> r == (t, gameStarted, mulliganOpen)
    ensures r.0.graveyard == t.graveyard && r.0.personas == t.personas
  {
    if deckLoaded && !gameStarted && |t.deck| == FullDeck then
      assert t.deck == t.deck[..OpeningHandSize] + t.deck[OpeningHandSize..];
      (t.(hand := t.deck[..OpeningHandSize], deck := t.deck[OpeningHandSize..]), true, true)
    else (t, gameStarted, mulliganOpen)
  }

  /**
   * The opening hand is dealt once: after it the game counts as started and
   * the effect does nothing more, whether or not the mulligan dialog has been
   * closed meanwhile.
   */
  lemma OpeningHandOnce(deckLoaded: bool, mulliganOpen: bool, t: Table, open: bool)
    ensures var (t1, started, _) := OpeningHand(deckLoaded, false, mulliganOpen, t);
      started ==> OpeningHand(deckLoaded, started, open, t1) == (t1, true, open)
  {
  }
}
