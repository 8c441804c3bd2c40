/**
 * Lookups over the card list of the older client: the front faces, the
 * front faces whose field matches a value ignoring case, and the two faces
 * of a card by id. Reading the list from its file is not part of this
 * model: every lookup is given the list.
 */
module CardData {
  import opened Wrappers
  import opened JsStrings
  import opened Lists

  /** The value of one field of a card: text, a list of texts, or anything else (a number, a flag, nothing). */
  datatype FieldValue = Text(text: string) | Texts(items: seq<string>) | NotText

  /** A card face: its id, its face number (1 front, 2 back) and its other fields by name. */
  datatype CardFace = CardFace(id: string, face: int, fields: map<string, FieldValue>)

  predicate IsFront(c: CardFace) {
    c.face == 1
  }

  /** `getAllCards`: the front faces, in list order. */
  function AllCards(cards: seq<CardFace>): (r: seq<CardFace>)
    ensures forall c :: c in r <==> c in cards && c.face == 1
    ensures |r| <= |cards|
  {
    Filter(cards, IsFront)
  }

  /** Taking the front faces of two lists one after the other is taking those of the joined list: the order is kept. */
  lemma AllCardsKeepsOrder(a: seq<CardFace>, b: seq<CardFace>)
    ensures AllCards(a + b) == AllCards(a) + AllCards(b)
  {
    FilterConcat(a, b, IsFront);
  }

  /** The field `field` of `c`; a field the card does not have is `undefined`. */
  function FieldOf(c: CardFace, field: string): FieldValue {
    if field in c.fields then c.fields[field] else NotText
  }

  /** The test of `getCardsByField` against the lower-cased `target`. */
  predicate FieldMatches(v: FieldValue, target: string) {
    match v
    case Text(text) => ToLower(text) == target
    case Texts(items) => exists k :: 0 <= k < |items| && ToLower(items[k]) == target
    case NotText => false
  }

  /** The callback `card => matches(card[field])`. */
  function MatchesField(field: string, target: string): CardFace -> bool {
    (c: CardFace) => FieldMatches(FieldOf(c, field), target)
  }

  /** `getCardsByField`: the front faces whose field equals `value` ignoring case, in list order. */
  function CardsByField(cards: seq<CardFace>, field: string, value: string): (r: seq<CardFace>)
    ensures forall c :: c in r ==> c in cards && c.face == 1
    ensures forall c :: c in r <==> c in AllCards(cards) && FieldMatches(FieldOf(c, field), ToLower(value))
  {
    Filter(AllCards(cards), MatchesField(field, ToLower(value)))
  }

  /**
   * A text field matches exactly when it equals the value ignoring case,
   * a list field when one of its items does, and any other field never.
   */
  lemma FieldMatchIgnoresCase(v: FieldValue, value: string)
    ensures v.Text? ==> (FieldMatches(v, ToLower(value)) <==> EqualsIgnoreCase(v.text, value))
    ensures v.Texts? ==> (FieldMatches(v, ToLower(value)) <==>
      exists k :: 0 <= k < |v.items| && EqualsIgnoreCase(v.items[k], value))
    ensures v.NotText? ==> !FieldMatches(v, ToLower(value))
  {
  }

  /** Two values that differ only in case select the same cards. */
  lemma CardsByFieldIgnoresCase(cards: seq<CardFace>, field: string, a: string, b: string)
    requires EqualsIgnoreCase(a, b)
    ensures CardsByField(cards, field, a) == CardsByField(cards, field, b)
  {
  }

  /** `faces.find(p)` as a position: the first card satisfying `p`, or -1. */
  function FindFirst(cards: seq<CardFace>, p: CardFace -> bool): (i: int)
    ensures -1 <= i < |cards|
    ensures i == -1 <==> forall k :: 0 <= k < |cards| ==> !p(cards[k])
    ensures i >= 0 ==> p(cards[i]) && forall k :: 0 <= k < i ==> !p(cards[k])
    decreases |cards|
  {
    if cards == [] then -1
    else if p(cards[0]) then 0
    else
      var i := FindFirst(cards[1..], p);
      if i == -1 then -1 else i + 1
  }

  /** `array.find(p)`. */
  function Find(cards: seq<CardFace>, p: CardFace -> bool): Option<CardFace> {
    var i := FindFirst(cards, p);
    if i == -1 then None else Some(cards[i])
  }

  /** The callback `card => card.id.toLowerCase() === id.toLowerCase()`. */
  function SameId(id: string): CardFace -> bool {
    (c: CardFace) => EqualsIgnoreCase(c.id, id)
  }

  /** The callback `c => c.face === n`. */
  function FaceIs(n: int): CardFace -> bool {
    (c: CardFace) => c.face == n
  }

  /** The callback `c => c.id matches id && c.face === n`. */
  function IdAndFace(id: string, n: int): CardFace -> bool {
    (c: CardFace) => EqualsIgnoreCase(c.id, id) && c.face == n
  }

  /** `getCardFaces`: the faces whose id matches ignoring case, then the first front and the first back among them. */
  function CardFaces(cards: seq<CardFace>, id: string): (r: (Option<CardFace>, Option<CardFace>))
  {
    var faces := Filter(cards, SameId(id));
    (Find(faces, FaceIs(1)), Find(faces, FaceIs(2)))
  }

  /** `find` looks at the first card, then at the rest. */
  lemma FindCons(cards: seq<CardFace>, p: CardFace -> bool)
    requires cards != []
    ensures Find(cards, p) == if p(cards[0]) then Some(cards[0]) else Find(cards[1..], p)
  {
    if !p(cards[0]) {
      var i := FindFirst(cards[1..], p);
      assert FindFirst(cards, p) == if i == -1 then -1 else i + 1;
      if i != -1 {
        assert cards[i + 1] == cards[1..][i];
      }
    }
  }

  /** Finding among the filtered cards is finding the first card that passes both tests. */
  lemma {:induction false} FindAfterFilter(cards: seq<CardFace>, id: string, n: int)
    ensures Find(Filter(cards, SameId(id)), FaceIs(n)) == Find(cards, IdAndFace(id, n))
  {
    if cards != [] {
      var c, rest := cards[0], cards[1..];
      var faces, later := Filter(cards, SameId(id)), Filter(rest, SameId(id));
      assert Find(later, FaceIs(n)) == Find(rest, IdAndFace(id, n)) by {
        FindAfterFilter(rest, id, n);
      }
      assert Find(cards, IdAndFace(id, n)) == if IdAndFace(id, n)(c) then Some(c) else Find(rest, IdAndFace(id, n)) by {
        FindCons(cards, IdAndFace(id, n));
      }
      if SameId(id)(c) {
        assert faces == [c] + later;
        assert Find(faces, FaceIs(n)) == if FaceIs(n)(c) then Some(c) else Find(later, FaceIs(n)) by {
          FindCons(faces, FaceIs(n));
          assert faces[1..] == later;
        }
      } else {
        assert faces == later;
      }
    }
  }

  /**
   * The front returned is the first card in the whole list with a matching
   * id and face 1 (`FindFirst` states what "first" means), or none if there
   * is no such card; the back likewise with face 2.
   */
  lemma CardFacesFirst(cards: seq<CardFace>, id: string)
    ensures var i := FindFirst(cards, IdAndFace(id, 1));
      CardFaces(cards, id).0 == if i == -1 then None else Some(cards[i])
    ensures var i := FindFirst(cards, IdAndFace(id, 2));
      CardFaces(cards, id).1 == if i == -1 then None else Some(cards[i])
  {
    FindAfterFilter(cards, id, 1);
    FindAfterFilter(cards, id, 2);
  }
}
