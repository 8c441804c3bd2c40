/**
 * The filter bar of the card lists. From the cards on offer it gathers, in
 * one pass, the distinct costs, types, subtypes, keywords, attack values and
 * health values, and orders each list for display: types, subtypes and
 * keywords by code point, costs and combat values numerically where both
 * sides are numbers. Clicking a chip toggles its value in the selection
 * (`Lists.Toggle`).
 */
module CardFilters {
  import opened Wrappers
  import opened JsStrings
  import opened Lists
  import opened Sorting

  /**
   * The fields of a card the filters read. `None` stands for a field that
   * is `undefined` or `null`; the merged fields are filled in for cards with
   * two faces.
   */
  datatype AugCard = AugCard(
    cost: Option<string>,
    cardType: Option<string>,
    subtype: Option<string>,
    keywords: Option<string>,
    atk: Option<string>,
    hp: Option<string>,
    mergedKeywords: Option<string>,
    mergedAtk: Option<string>,
    mergedHp: Option<string>)

  /** The six lists the filter bar shows. */
  datatype Field = Costs | Types | Subtypes | Keywords | Atks | Hps

  /** `pieces.map(p => p.trim())`: each piece trimmed, so that trimming again changes nothing. */
  function TrimAll(pieces: seq<string>): (r: seq<string>)
    ensures |r| == |pieces|
    ensures forall i :: 0 <= i < |pieces| ==> r[i] == Trim(pieces[i])
    ensures forall p :: p in r ==> Trim(p) == p
  {
    forall i | 0 <= i < |pieces| ensures Trim(Trim(pieces[i])) == Trim(pieces[i]) {
      TrimIdempotent(pieces[i]);
    }
    var r := seq(|pieces|, i requires 0 <= i < |pieces| => Trim(pieces[i]));
    assert forall p :: p in r ==> Trim(p) == p by {
      forall p | p in r ensures Trim(p) == p {
        var i :| 0 <= i < |r| && r[i] == p;
      }
    }
    r
  }

  /** The callback `p => p !== ""` (the truthiness test on a piece). */
  predicate NonEmpty(p: string) {
    p != ""
  }

  /** `if (raw) raw.split(",").map(trim).forEach(k => { if (k) add(k) })`. */
  function Pieces(raw: Option<string>): (r: seq<string>)
    ensures !Truthy(raw) ==> r == []
    ensures Truthy(raw) ==> forall p :: p in r <==> p != "" && p in TrimAll(Split(raw.value, ','))
    ensures forall p :: p in r ==> p != "" && Trim(p) == p
  {
    if Truthy(raw) then Filter(TrimAll(Split(raw.value, ',')), NonEmpty) else []
  }

  /** A field that is present and not blank, added as it is, untrimmed. */
  function WholeIfNotBlank(raw: Option<string>): (r: seq<string>)
    ensures r == [] || (raw.Some? && r == [raw.value] && Trim(raw.value) != "")
    ensures raw.Some? && Trim(raw.value) != "" ==> r == [raw.value]
  {
    if raw.Some? && Trim(raw.value) != "" then [raw.value] else []
  }

  /** What one card adds to the list `f`, in the order the card adds it. */
  function Values(f: Field, c: AugCard): seq<string> {
    match f
    case Costs => WholeIfNotBlank(c.cost)
    case Types => if Truthy(c.cardType) then [c.cardType.value] else []
    case Subtypes => if Truthy(c.subtype) then [c.subtype.value] else []
    case Keywords => Pieces(c.mergedKeywords.OrElse(c.keywords))
    case Atks => Pieces(c.mergedAtk.OrElse(c.atk)) + WholeIfNotBlank(c.atk)
    case Hps => Pieces(c.mergedHp.OrElse(c.hp)) + WholeIfNotBlank(c.hp)
  }

  /**
   * Every keyword is a non-empty trimmed piece of the merged keywords when
   * those are present, and of the card's own keywords otherwise.
   */
  lemma KeywordValues(c: AugCard)
    ensures forall k :: k in Values(Keywords, c) ==> k != "" && Trim(k) == k
    ensures c.mergedKeywords.Some? ==> Values(Keywords, c) == Pieces(c.mergedKeywords)
    ensures c.mergedKeywords.None? ==> Values(Keywords, c) == Pieces(c.keywords)
  {
  }

  /**
   * Every attack value is a non-empty trimmed piece of the merged attack
   * (or of the card's own attack when there is none), or else the card's own
   * attack, whole, when it is not blank.
   */
  lemma AtkValues(c: AugCard)
    ensures forall a :: a in Values(Atks, c) ==>
      (a != "" && Trim(a) == a && a in Pieces(c.mergedAtk.OrElse(c.atk))) || (c.atk == Some(a) && Trim(a) != "")
    ensures c.atk.Some? && Trim(c.atk.value) != "" ==> c.atk.value in Values(Atks, c)
  {
    var pa, pb := Pieces(c.mergedAtk.OrElse(c.atk)), WholeIfNotBlank(c.atk);
    assert Values(Atks, c) == pa + pb;
    assert forall a :: a in pa + pb <==> a in pa || a in pb;
  }

  /** Health values follow the same rule as attack values. */
  lemma HpValues(c: AugCard)
    ensures forall h :: h in Values(Hps, c) ==>
      (h != "" && Trim(h) == h && h in Pieces(c.mergedHp.OrElse(c.hp))) || (c.hp == Some(h) && Trim(h) != "")
    ensures c.hp.Some? && Trim(c.hp.value) != "" ==> c.hp.value in Values(Hps, c)
  {
    var ha, hb := Pieces(c.mergedHp.OrElse(c.hp)), WholeIfNotBlank(c.hp);
    assert Values(Hps, c) == ha + hb;
    assert forall h :: h in ha + hb <==> h in ha || h in hb;
  }

  /** A cost is offered exactly when it is present and not blank, and then untrimmed. */
  lemma CostValues(c: AugCard)
    ensures forall v :: v in Values(Costs, c) ==> c.cost == Some(v) && Trim(v) != ""
    ensures c.cost.Some? && Trim(c.cost.value) != "" ==> Values(Costs, c) == [c.cost.value]
  {
  }

  /** The insertion-ordered set that `cards.forEach` builds for the list `f`. */
  function Collected(cards: seq<AugCard>, f: Field): (r: seq<string>)
    ensures Distinct(r)
    ensures forall v :: v in r <==> exists k :: 0 <= k < |cards| && v in Values(f, cards[k])
    decreases |cards|
  {
    if cards == [] then []
    else
      var init, last := cards[..|cards| - 1], cards[|cards| - 1];
      assert cards == init + [last];
      CollectStep(init, last, f, Collected(init, f));
      AddAll(Collected(init, f), Values(f, last))
  }

  /** Adding the values of one more card to what the earlier cards gave yields what all of them give. */
  lemma CollectStep(init: seq<AugCard>, last: AugCard, f: Field, prev: seq<string>)
    requires forall v :: v in prev <==> exists k :: 0 <= k < |init| && v in Values(f, init[k])
    ensures forall v :: v in AddAll(prev, Values(f, last)) <==>
      exists k :: 0 <= k < |init + [last]| && v in Values(f, (init + [last])[k])
  {
    var cards := init + [last];
    forall v
      ensures v in AddAll(prev, Values(f, last)) <==> exists k :: 0 <= k < |cards| && v in Values(f, cards[k])
    {
      if v in prev {
        var k :| 0 <= k < |init| && v in Values(f, init[k]);
        assert cards[k] == init[k];
      }
      if v in Values(f, last) {
        assert cards[|init|] == last;
      }
      if exists k :: 0 <= k < |cards| && v in Values(f, cards[k]) {
        var k :| 0 <= k < |cards| && v in Values(f, cards[k]);
        if k < |init| {
          assert init[k] == cards[k];
        }
      }
    }
  }

  /** The comparator of `sortNumericLike`: by number when both sides are numbers, by text otherwise. */
  function NumericLe(numberOf: string -> Option<real>): (string, string) -> bool {
    (a: string, b: string) =>
      if numberOf(a).Some? && numberOf(b).Some? then numberOf(a).value <= numberOf(b).value
      else LexLe(a, b)
  }

  /**
   * `sortNumericLike`: a permutation in which every neighbouring pair is in
   * comparator order; when every value is a number, the whole list is in
   * ascending numeric order.
   */
  function SortNumericLike(xs: seq<string>, numberOf: string -> Option<real>): (r: seq<string>)
    ensures multiset(r) == multiset(xs)
    ensures SortedBy(r, NumericLe(numberOf))
    ensures (forall x :: x in xs ==> numberOf(x).Some?) ==>
      forall i, j :: 0 <= i < j < |r| && numberOf(r[i]).Some? && numberOf(r[j]).Some? ==>
        numberOf(r[i]).value <= numberOf(r[j]).value
  {
    var le := NumericLe(numberOf);
    assert TotalOn(xs, le) by {
      forall a, b | a in xs && b in xs ensures le(a, b) || le(b, a) {
        LexLeTotal(a, b);
      }
    }
    SortBySorted(xs, le);
    var r := SortBy(xs, le);
    assert forall x :: x in r ==> x in xs by {
      forall x | x in r ensures x in xs {
        assert x in multiset(r);
      }
    }
    NumbersPairwise(r, numberOf);
    r
  }

  /** Among numbers the comparator is numeric order, which is transitive. */
  lemma NumbersPairwise(r: seq<string>, numberOf: string -> Option<real>)
    requires SortedBy(r, NumericLe(numberOf))
    ensures (forall x :: x in r ==> numberOf(x).Some?) ==>
      forall i, j :: 0 <= i < j < |r| && numberOf(r[i]).Some? && numberOf(r[j]).Some? ==>
        numberOf(r[i]).value <= numberOf(r[j]).value
  {
    if forall x :: x in r ==> numberOf(x).Some? {
      var le := NumericLe(numberOf);
      SortedPairwise(r, le);
      forall i, j | 0 <= i < j < |r| && numberOf(r[i]).Some? && numberOf(r[j]).Some?
        ensures numberOf(r[i]).value <= numberOf(r[j]).value
      {
        assert le(r[i], r[j]);
      }
    }
  }

  /** `Array.from(set).sort()`: a permutation in code-point order. */
  function SortText(xs: seq<string>): (r: seq<string>)
    ensures multiset(r) == multiset(xs)
    ensures forall i, j :: 0 <= i < j < |r| ==> LexLe(r[i], r[j])
  {
    assert TotalOn(xs, LexLe) by {
      forall a, b | a in xs && b in xs ensures LexLe(a, b) || LexLe(b, a) {
        LexLeTotal(a, b);
      }
    }
    SortBySorted(xs, LexLe);
    var r := SortBy(xs, LexLe);
    assert TransitiveOn(r, LexLe) by {
      forall a, b, c | a in r && b in r && c in r && LexLe(a, b) && LexLe(b, c) ensures LexLe(a, c) {
        LexLeTransitive(a, b, c);
      }
    }
    SortedPairwise(r, LexLe);
    r
  }

  /** What the filter bar offers. */
  datatype FilterValues = FilterValues(
    costs: seq<string>,
    types: seq<string>,
    subtypes: seq<string>,
    keywords: seq<string>,
    atks: seq<string>,
    hps: seq<string>)

  /**
   * `filterValues`: one pass over the cards adding to six insertion-ordered
   * sets, then each set sorted for display. `numberOf` is `Number`, with
   * `None` for `NaN`.
   */
  method ComputeFilterValues(options: seq<AugCard>, numberOf: string -> Option<real>) returns (v: FilterValues)
    ensures v.costs == SortNumericLike(Collected(options, Costs), numberOf)
    ensures v.types == SortText(Collected(options, Types))
    ensures v.subtypes == SortText(Collected(options, Subtypes))
    ensures v.keywords == SortText(Collected(options, Keywords))
    ensures v.atks == SortNumericLike(Collected(options, Atks), numberOf)
    ensures v.hps == SortNumericLike(Collected(options, Hps), numberOf)
  {
    var costs, types, subtypes, keywords, atks, hps := [], [], [], [], [], [];
    var i := 0;
    while i < |options|
      invariant 0 <= i <= |options|
      invariant costs == Collected(options[..i], Costs) && types == Collected(options[..i], Types)
      invariant subtypes == Collected(options[..i], Subtypes) && keywords == Collected(options[..i], Keywords)
      invariant atks == Collected(options[..i], Atks) && hps == Collected(options[..i], Hps)
    {
      var c := options[i];
      assert options[..i + 1][..i] == options[..i] && options[..i + 1][i] == c;
      costs := AddAll(costs, Values(Costs, c));
      types := AddAll(types, Values(Types, c));
      subtypes := AddAll(subtypes, Values(Subtypes, c));
      keywords := AddAll(keywords, Values(Keywords, c));
      atks := AddAll(atks, Values(Atks, c));
      hps := AddAll(hps, Values(Hps, c));
      i := i + 1;
    }
    assert options[..|options|] == options;
    v := FilterValues(
      SortNumericLike(costs, numberOf), SortText(types), SortText(subtypes),
      SortText(keywords), SortNumericLike(atks, numberOf), SortNumericLike(hps, numberOf));
  }

  /** Sorting keeps every list of the filter bar free of duplicates. */
  lemma FilterValuesDistinct(options: seq<AugCard>, f: Field, numberOf: string -> Option<real>)
    ensures Distinct(SortText(Collected(options, f)))
    ensures Distinct(SortNumericLike(Collected(options, f), numberOf))
  {
    DistinctPermutation(Collected(options, f), SortText(Collected(options, f)));
    DistinctPermutation(Collected(options, f), SortNumericLike(Collected(options, f), numberOf));
  }
}
