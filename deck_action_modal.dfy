/**
 * The deck dialog of the playmat: a menu with a draw counter and a peep
 * counter, a peep view that decides the fate of each of the top cards one
 * at a time, and a find view listing the deck by cost and name. The dialog
 * does not touch the table itself: each action is a request to the
 * playmat, recorded in order in `requests`.
 */
module DeckActionModal {
  import opened Lists
  import opened JsStrings
  import opened Sorting
  import opened Playmat

  datatype Mode = Menu | PeepMode | FindMode

  /** What the dialog asks of the playmat, in the order it asks. */
  datatype Request =
    | DrawRequest(count: nat)
    | PeepRequest(cards: seq<Card>, decisions: map<Card, Decision>)
    | FindRequest(card: Card)
    | CloseRequest

  /** The "<" button of either counter: `Math.max(1, n - 1)`. */
  function DecrementCounter(n: nat): (r: nat)
    ensures r >= 1
    ensures n >= 2 ==> r == n - 1
    ensures n <= 1 ==> r == 1
  {
    if n - 1 >= 1 then n - 1 else 1
  }

  /** The ">" button of either counter: `Math.min(deckLength, n + 1)`. */
  function IncrementCounter(n: nat, deckLength: nat): (r: nat)
    ensures r <= deckLength && r <= n + 1
    ensures n < deckLength ==> r == n + 1
    ensures n >= deckLength ==> r == deckLength
  {
    if deckLength <= n + 1 then deckLength else n + 1
  }

  /** A counter between 1 and the deck length stays there under both buttons. */
  lemma CountersStayInRange(n: nat, deckLength: nat)
    requires 1 <= n <= deckLength
    ensures 1 <= DecrementCounter(n) <= deckLength
    ensures 1 <= IncrementCounter(n, deckLength) <= deckLength
  {
  }

  /** With an empty deck the ">" button sets the counter to 0. */
  lemma IncrementOnEmptyDeck(n: nat)
    ensures IncrementCounter(n, 0) == 0
  {
  }

  /** Entering the peep view: every card shown starts with the decision "top". */
  function SeedTop(cards: seq<Card>): (decisions: map<Card, Decision>)
    ensures forall c :: c in decisions <==> c in cards
    ensures forall c :: c in decisions ==> decisions[c] == ToTop
  {
    map c | c in cards :: ToTop
  }

  /**
   * The cards the peep view shows, as corrected: those taken from the top
   * of the deck on entering the view, minus those already decided.
   */
  function PeepView(peeked: seq<Card>, processed: seq<Card>): (view: seq<Card>)
    ensures forall c :: c in view <==> c in peeked && c !in processed
    ensures Distinct(peeked) ==> Distinct(view)
  {
    FilterDistinctIfDistinct(peeked, NotIn(processed));
    Without(peeked, processed)
  }

  /**
   * The cards the peep view shows, as written: the first `peepCount` cards of
   * the deck as it is now, minus those already decided. Every decision
   * changes the deck, so a card that was not among the top cards on entry
   * can move up into the view.
   */
  function PeepViewAsWritten(deck: seq<Card>, peepCount: nat, processed: seq<Card>): (view: seq<Card>)
    ensures forall c :: c in view <==> c in deck[..Min(peepCount, |deck|)] && c !in processed
  {
    Without(deck[..Min(peepCount, |deck|)], processed)
  }

  /** Drawing the top card of the deck 0, 1, 2, 3 through a one-card peep leaves 1, 2, 3. */
  lemma DrawTopOfFour()
    ensures PeepCards(Table([], [0, 1, 2, 3], [], []), [0], map[0 := ToHand]).deck == [1, 2, 3]
  {
    var t := Table([], [0, 1, 2, 3], [], []);
    var decisions := map[0 := ToHand];
    var drawn: seq<Card> := [0];
    assert Picked(drawn, decisions, ToTop) == [] by {
      FilterDropsAll(drawn, DecidedAs(decisions, ToTop));
    }
    assert Picked(drawn, decisions, ToBottom) == [] by {
      FilterDropsAll(drawn, DecidedAs(decisions, ToBottom));
    }
    assert t.deck[..1] == drawn;
    WithoutPrefix(t.deck, 1);
  }

  /**
   * The discrepancy: with the deck 0, 1, 2, 3 and a peep of two, drawing
   * card 0 makes the view as written show card 2, which was never among the
   * two peeked cards 0 and 1; the corrected view shows only card 1.
   */
  lemma PeepViewAsWrittenShowsUnpeekedCard()
    ensures PeepCards(Table([], [0, 1, 2, 3], [], []), [0], map[0 := ToHand]).deck == [1, 2, 3]
    ensures 2 in PeepViewAsWritten([1, 2, 3], 2, [0]) && 2 !in [0, 1]
    ensures PeepView([0, 1], [0]) == [1]
  {
    DrawTopOfFour();
    CorrectedViewAfterDraw();
    AsWrittenViewAfterDraw();
  }

  lemma CorrectedViewAfterDraw()
    ensures PeepView([0, 1], [0]) == [1]
  {
    var drawn: seq<Card> := [0];
    var peeked: seq<Card> := [0, 1];
    assert peeked[..1] == drawn;
    WithoutPrefix(peeked, 1);
  }

  lemma AsWrittenViewAfterDraw()
    ensures 2 in PeepViewAsWritten([1, 2, 3], 2, [0])
  {
    var rest: seq<Card> := [1, 2, 3];
    assert rest[..Min(2, |rest|)] == [1, 2];
  }

  /** Every decided card leaves the corrected view, and none other does. */
  lemma PeepViewDrains(peeked: seq<Card>, processed: seq<Card>)
    requires Distinct(peeked) && Distinct(processed)
    requires forall c :: c in processed ==> c in peeked
    ensures |PeepView(peeked, processed)| == |peeked| - |processed|
    ensures PeepView(peeked, processed) == [] <==> |processed| == |peeked|
  {
    WithoutRemovesOnce(peeked, processed);
  }

  /** Deciding one more card removes just that card from the view, keeping the order of the rest. */
  lemma {:induction false} PeepViewDecide(peeked: seq<Card>, processed: seq<Card>, card: Card)
    ensures PeepView(peeked, processed + [card]) == Filter(PeepView(peeked, processed), NotEqual(card))
  {
    var p, q, e := NotIn(processed), NotIn(processed + [card]), NotEqual(card);
    if peeked != [] {
      var h, tail := peeked[0], peeked[1..];
      PeepViewDecide(tail, processed, card);
      assert h in processed + [card] <==> h in processed || h == card;
      assert Filter(peeked, q) == (if q(h) then [h] else []) + Filter(tail, q);
      assert Filter(peeked, p) == (if p(h) then [h] else []) + Filter(tail, p);
      FilterConcat(if p(h) then [h] else [], Filter(tail, p), e);
      assert Filter(if p(h) then [h] else [], e) == if q(h) then [h] else [];
    }
  }

  /**
   * A single-card peep request, as the playmat carries it out: the card
   * leaves the deck and goes to the end of the hand, to the end of the
   * graveyard, back on top, or to the bottom.
   */
  lemma SinglePeep(t: Table, card: Card, d: Decision)
    ensures var r := PeepCards(t, [card], map[card := d]);
      && r.personas == t.personas
      && r.hand == t.hand + (if d == ToHand then [card] else [])
      && r.graveyard == t.graveyard + (if d == ToGraveyard then [card] else [])
      && r.deck == (if d == ToTop then [card] else []) + Without(t.deck, [card]) + (if d == ToBottom then [card] else [])
  {
    var decisions := map[card := d];
    assert DecisionOf(decisions, card) == d;
    forall x | true
      ensures Picked([card], decisions, x) == if d == x then [card] else []
    {
      if d == x {
        FilterKeepsAll([card], DecidedAs(decisions, x));
      } else {
        FilterDropsAll([card], DecidedAs(decisions, x));
      }
    }
  }

  /** The comparator of the find view: ascending cost, then ascending name. */
  function FindLe(costOf: Card -> int, nameOf: Card -> string): (Card, Card) -> bool {
    (a: Card, b: Card) => costOf(a) < costOf(b) || (costOf(a) == costOf(b) && LexLe(nameOf(a), nameOf(b)))
  }

  /** The find view: a sorted copy of the deck, cheapest first and by name among equal costs. */
  function FindOrder(deck: seq<Card>, costOf: Card -> int, nameOf: Card -> string): (r: seq<Card>)
    ensures multiset(r) == multiset(deck)
    ensures forall i, j :: 0 <= i < j < |r| ==> costOf(r[i]) <= costOf(r[j])
    ensures forall i, j :: 0 <= i < j < |r| && costOf(r[i]) == costOf(r[j]) ==> LexLe(nameOf(r[i]), nameOf(r[j]))
  {
    var le := FindLe(costOf, nameOf);
    assert TotalOn(deck, le) by {
      forall a, b | a in deck && b in deck ensures le(a, b) || le(b, a) {
        LexLeTotal(nameOf(a), nameOf(b));
      }
    }
    var r := SortBy(deck, le);
    SortBySorted(deck, le);
    assert TransitiveOn(r, le) by {
      forall a, b, c | a in r && b in r && c in r && le(a, b) && le(b, c) ensures le(a, c) {
        if costOf(a) == costOf(b) == costOf(c) {
          LexLeTransitive(nameOf(a), nameOf(b), nameOf(c));
        }
      }
    }
    SortedPairwise(r, le);
    r
  }

  lemma PrefixDistinct(deck: seq<Card>, k: nat)
    requires Distinct(deck) && k <= |deck|
    ensures Distinct(deck[..k])
  {
  }

  /** Before any decision the corrected view shows every peeked card. */
  lemma NothingDecided(peeked: seq<Card>)
    ensures PeepView(peeked, []) == peeked
  {
    FilterKeepsAll(peeked, NotIn([]));
  }

  /** The dialog's own state, kept between renders. */
  class DeckDialog {
    var mode: Mode
    var drawCount: nat
    var peepCount: nat
    var peepDecisions: map<Card, Decision>
    /** The cards taken from the top of the deck on entering the peep view. */
    var peeked: seq<Card>
    /** The decided cards, in the order they were decided. */
    var processed: seq<Card>
    var requests: seq<Request>

    ghost predicate Valid()
      reads this
    {
      && Distinct(peeked) && Distinct(processed)
      && (forall c :: c in processed ==> c in peeked)
      && (mode != PeepMode ==> peeked == [] && processed == [] && peepDecisions == map[])
    }

    /** The cards the peep view shows now. */
    function View(): (view: seq<Card>)
      reads this
      ensures forall c :: c in view <==> c in peeked && c !in processed
    {
      PeepView(peeked, processed)
    }

    constructor ()
      ensures Valid() && mode == Menu && drawCount == 1 && peepCount == 1
      ensures peepDecisions == map[] && requests == []
    {
      mode, drawCount, peepCount := Menu, 1, 1;
      peepDecisions, peeked, processed := map[], [], [];
      requests := [];
    }

    /** `handleClose`: back to the menu with both counters at 1 and nothing peeked, then the playmat closes the dialog. */
    method Close()
      modifies this
      ensures Valid() && mode == Menu && drawCount == 1 && peepCount == 1
      ensures peepDecisions == map[] && peeked == [] && processed == []
      ensures requests == old(requests) + [CloseRequest]
    {
      mode, drawCount, peepCount := Menu, 1, 1;
      peepDecisions, peeked, processed := map[], [], [];
      requests := requests + [CloseRequest];
    }

    method DecreaseDraw()
      requires Valid() && mode == Menu
      modifies this
      ensures Valid() && drawCount == DecrementCounter(old(drawCount))
      ensures mode == Menu && peepCount == old(peepCount) && requests == old(requests)
      ensures peepDecisions == old(peepDecisions) && peeked == old(peeked) && processed == old(processed)
    {
      drawCount := DecrementCounter(drawCount);
    }

    method IncreaseDraw(deckLength: nat)
      requires Valid() && mode == Menu
      modifies this
      ensures Valid() && drawCount == IncrementCounter(old(drawCount), deckLength)
      ensures mode == Menu && peepCount == old(peepCount) && requests == old(requests)
      ensures peepDecisions == old(peepDecisions) && peeked == old(peeked) && processed == old(processed)
    {
      drawCount := IncrementCounter(drawCount, deckLength);
    }

    method DecreasePeep()
      requires Valid() && mode == Menu
      modifies this
      ensures Valid() && peepCount == DecrementCounter(old(peepCount))
      ensures mode == Menu && drawCount == old(drawCount) && requests == old(requests)
      ensures peepDecisions == old(peepDecisions) && peeked == old(peeked) && processed == old(processed)
    {
      peepCount := DecrementCounter(peepCount);
    }

    method IncreasePeep(deckLength: nat)
      requires Valid() && mode == Menu
      modifies this
      ensures Valid() && peepCount == IncrementCounter(old(peepCount), deckLength)
      ensures mode == Menu && drawCount == old(drawCount) && requests == old(requests)
      ensures peepDecisions == old(peepDecisions) && peeked == old(peeked) && processed == old(processed)
    {
      peepCount := IncrementCounter(peepCount, deckLength);
    }

    /** The "Draw" button: asks for `drawCount` cards, then closes. */
    method Draw()
      requires Valid() && mode == Menu
      modifies this
      ensures Valid() && mode == Menu && drawCount == 1 && peepCount == 1
      ensures peepDecisions == map[] && peeked == [] && processed == []
      ensures requests == old(requests) + [DrawRequest(old(drawCount)), CloseRequest]
    {
      requests := requests + [DrawRequest(drawCount)];
      Close();
    }

    /** The "Peep" button: the first `peepCount` cards of the deck are shown, each seeded with "top". */
    method EnterPeep(deck: seq<Card>)
      requires Valid() && mode == Menu && Distinct(deck)
      modifies this
      ensures Valid() && mode == PeepMode
      ensures peeked == deck[..Min(peepCount, |deck|)] && processed == []
      ensures peepDecisions == SeedTop(peeked)
      ensures View() == peeked
      ensures drawCount == old(drawCount) && peepCount == old(peepCount) && requests == old(requests)
    {
      var top := deck[..Min(peepCount, |deck|)];
      PrefixDistinct(deck, Min(peepCount, |deck|));
      NothingDecided(top);
      peeked := top;
      peepDecisions := SeedTop(top);
      mode := PeepMode;
    }

    /**
     * `handlePeepDecision`: the decision goes to the playmat at once as a
     * one-card peep, the card leaves the view, and the dialog closes once as
     * many cards have been decided as the peep counter says.
     */
    method Decide(card: Card, d: Decision)
      requires Valid() && mode == PeepMode && card in View()
      modifies this
      ensures Valid()
      ensures |old(processed)| + 1 >= old(peepCount) ==>
        && mode == Menu && drawCount == 1 && peepCount == 1
        && peepDecisions == map[] && peeked == [] && processed == []
        && requests == old(requests) + [PeepRequest([card], map[card := d]), CloseRequest]
      ensures |old(processed)| + 1 < old(peepCount) ==>
        && mode == PeepMode && processed == old(processed) + [card] && peeked == old(peeked)
        && drawCount == old(drawCount) && peepCount == old(peepCount)
        && peepDecisions == old(peepDecisions)
        && View() == Filter(old(View()), NotEqual(card))
        && requests == old(requests) + [PeepRequest([card], map[card := d])]
    {
      requests := requests + [PeepRequest([card], map[card := d])];
      PeepViewDecide(peeked, processed, card);
      processed := processed + [card];
      if |processed| >= peepCount {
        Close();
      }
    }

    /** The "Cancel" button of the peep view: back to the menu, counters kept, nothing sent. */
    method CancelPeep()
      requires Valid() && mode == PeepMode
      modifies this
      ensures Valid() && mode == Menu && peepDecisions == map[] && processed == []
      ensures drawCount == old(drawCount) && peepCount == old(peepCount) && requests == old(requests)
    {
      peepDecisions, peeked, processed := map[], [], [];
      mode := Menu;
    }

    method EnterFind()
      requires Valid() && mode == Menu
      modifies this
      ensures Valid() && mode == FindMode
      ensures drawCount == old(drawCount) && peepCount == old(peepCount) && requests == old(requests)
      ensures peepDecisions == old(peepDecisions) && peeked == old(peeked) && processed == old(processed)
    {
      mode := FindMode;
    }

    /** The "Back" button of the find view. */
    method LeaveFind()
      requires Valid() && mode == FindMode
      modifies this
      ensures Valid() && mode == Menu
      ensures drawCount == old(drawCount) && peepCount == old(peepCount) && requests == old(requests)
      ensures peepDecisions == old(peepDecisions) && peeked == old(peeked) && processed == old(processed)
    {
      mode := Menu;
    }

    /** Picking a card in the find view: asks for that card, then closes. */
    method Find(card: Card)
      requires Valid() && mode == FindMode
      modifies this
      ensures Valid() && mode == Menu && drawCount == 1 && peepCount == 1
      ensures peepDecisions == map[] && peeked == [] && processed == []
      ensures requests == old(requests) + [FindRequest(card), CloseRequest]
    {
      requests := requests + [FindRequest(card)];
      Close();
    }
  }

  /**
   * With a peep counter no larger than the deck, the dialog closes exactly
   * when the corrected view has run out of cards.
   */
  lemma ClosesWhenViewEmpty(peeked: seq<Card>, processed: seq<Card>, peepCount: nat)
    requires Distinct(peeked) && Distinct(processed)
    requires forall c :: c in processed ==> c in peeked
    requires |peeked| == peepCount
    ensures PeepView(peeked, processed) == [] <==> |processed| >= peepCount
  {
    PeepViewDrains(peeked, processed);
    WithoutRemovesOnce(peeked, processed);
  }
}
