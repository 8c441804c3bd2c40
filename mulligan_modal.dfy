/**
 * The mulligan dialog: clicking a card of the opening hand selects it or,
 * if it is already selected, deselects it; confirming hands the selection,
 * in the order it was made, to the playmat's mulligan.
 */
module MulliganModal {
  import opened Lists
  import Playmat

  /** The selection after clicking each card of `clicks` in turn, starting from `selection`. */
  function Clicks(selection: seq<Playmat.Card>, clicks: seq<Playmat.Card>): (r: seq<Playmat.Card>)
    ensures Distinct(selection) ==> Distinct(r)
    decreases |clicks|
  {
    if clicks == [] then selection else Clicks(Toggle(selection, clicks[0]), clicks[1..])
  }

  /**
   * Cards clicked once each, none of them already selected, are selected in
   * click order after the cards already selected.
   */
  lemma {:induction false} ClicksInOrder(selection: seq<Playmat.Card>, clicks: seq<Playmat.Card>)
    requires Distinct(clicks)
    requires forall c :: c in clicks ==> c !in selection
    ensures Clicks(selection, clicks) == selection + clicks
    decreases |clicks|
  {
    if clicks != [] {
      var c := clicks[0];
      assert Toggle(selection, c) == selection + [c];
      forall x | x in clicks[1..] ensures x !in selection + [c] {
        var j :| 0 <= j < |clicks[1..]| && clicks[1..][j] == x;
        assert clicks[j + 1] == x;
      }
      ClicksInOrder(selection + [c], clicks[1..]);
      assert selection + [c] + clicks[1..] == selection + clicks;
    }
  }

  /** `handleConfirm` followed by the playmat's mulligan: the cards go under the deck in click order. */
  lemma ConfirmPassesClickOrder(t: Playmat.Table, clicks: seq<Playmat.Card>)
    requires Distinct(clicks)
    ensures Playmat.Mulligan(t, Clicks([], clicks)).deck == (t.deck + clicks)[|clicks|..]
  {
    ClicksInOrder([], clicks);
    assert [] + clicks == clicks;
  }
}
