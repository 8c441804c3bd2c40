/**
 * The saved deck list: listing, lookup, create, update and delete over the
 * stored array, the compact share format with its version check, and the
 * random deck id.
 *
 * The stored array is the field `decks` of `DeckStore`; reading and writing
 * it through browser storage and JSON, and the Base64 wrapping of a share
 * code, are outside the model.
 */
module DeckService {
  import opened Wrappers
  import opened Lists
  import opened Sorting

  /** One line of a deck list: a card id and how many copies. */
  datatype DeckEntry = DeckEntry(id: string, qty: nat)

  /** An optional field that may be missing (`undefined`), `null`, or a string. */
  datatype Nullable = Absent | Null | Present(value: string)

  /** `x ?? null`. */
  function OrNullish(x: Nullable): (r: Nullable)
    ensures r.Absent? == false
    ensures x.Present? ==> r == x
    ensures !x.Present? ==> r == Null
  {
    if x.Absent? then Null else x
  }

  datatype Deck = Deck(
    id: string,
    name: string,
    faction: string,
    protagonist: Nullable,
    persona: seq<string>,
    deck: seq<DeckEntry>,
    backgroundImage: Nullable,
    updatedAt: int)

  /** A deck before it has an id and a timestamp (`Omit<Deck, "id" | "updatedAt">`). */
  datatype DeckDraft = DeckDraft(
    name: string,
    faction: string,
    protagonist: Nullable,
    persona: seq<string>,
    deck: seq<DeckEntry>,
    backgroundImage: Nullable)

  /** The share format `{ v, n, f, p, pe, d }`, with `d` as `[id, qty]` pairs. */
  datatype SharePayload = SharePayload(v: int, n: string, f: string, p: Nullable, pe: seq<string>, d: seq<(string, nat)>)

  function ToPairs(entries: seq<DeckEntry>): (pairs: seq<(string, nat)>)
    ensures |pairs| == |entries|
    decreases |entries|
  {
    if entries == [] then [] else [(entries[0].id, entries[0].qty)] + ToPairs(entries[1..])
  }

  function FromPairs(pairs: seq<(string, nat)>): (entries: seq<DeckEntry>)
    ensures |entries| == |pairs|
    decreases |pairs|
  {
    if pairs == [] then [] else [DeckEntry(pairs[0].0, pairs[0].1)] + FromPairs(pairs[1..])
  }

  /** The pair form loses nothing: every entry comes back with its id and quantity, in order. */
  lemma {:induction false} PairsRoundTrip(entries: seq<DeckEntry>)
    ensures FromPairs(ToPairs(entries)) == entries
    decreases |entries|
  {
    if entries != [] {
      PairsRoundTrip(entries[1..]);
    }
  }

  function ToSharePayload(d: Deck): (p: SharePayload)
    ensures p.v == 1
  {
    SharePayload(1, d.name, d.faction, OrNullish(d.protagonist), d.persona, ToPairs(d.deck))
  }

  function FromSharePayload(p: SharePayload): (d: DeckDraft)
    ensures d.backgroundImage == Null && d.protagonist != Absent
  {
    DeckDraft(p.n, p.f, OrNullish(p.p), p.pe, FromPairs(p.d), Null)
  }

  /** `importDeck` after decoding: a missing payload or any version other than 1 is refused. */
  function ImportDeck(parsed: Option<SharePayload>): (r: Result<DeckDraft, string>)
    ensures r.Failure? <==> parsed.None? || parsed.value.v != 1
    ensures r.Failure? ==> r.error == "Unsupported deck format"
    ensures r.Success? ==> r.value == FromSharePayload(parsed.value)
  {
    if parsed.None? || parsed.value.v != 1 then Failure("Unsupported deck format")
    else Success(FromSharePayload(parsed.value))
  }

  /**
   * Sharing a deck and importing the code gives back its name, faction,
   * personas and entries; a missing protagonist comes back as `null`, and
   * the background image is dropped.
   */
  lemma {:induction false} ShareRoundTrip(d: Deck)
    ensures ImportDeck(Some(ToSharePayload(d))).Success?
    ensures var draft := ImportDeck(Some(ToSharePayload(d))).value;
      && draft.name == d.name && draft.faction == d.faction
      && draft.persona == d.persona && draft.deck == d.deck
      && draft.protagonist == OrNullish(d.protagonist)
      && draft.backgroundImage == Null
  {
    PairsRoundTrip(d.deck);
  }

  /** The order of `listDecks`: `a` may precede `b` when it was updated no earlier. */
  function NewerFirst(a: Deck, b: Deck): bool {
    a.updatedAt >= b.updatedAt
  }

  /** The saved decks, most recently updated first. */
  function ListDecks(decks: seq<Deck>): (r: seq<Deck>)
    ensures multiset(r) == multiset(decks)
    ensures forall i, j :: 0 <= i < j < |r| ==> r[i].updatedAt >= r[j].updatedAt
  {
    SortBySorted(decks, NewerFirst);
    SortedPairwise(SortBy(decks, NewerFirst), NewerFirst);
    SortBy(decks, NewerFirst)
  }

  /** `decks.findIndex(d => d.id === id)`. */
  function FindIndex(decks: seq<Deck>, id: string): (i: int)
    ensures -1 <= i < |decks|
    ensures i == -1 <==> forall k :: 0 <= k < |decks| ==> decks[k].id != id
    ensures i >= 0 ==> decks[i].id == id && forall m :: 0 <= m < i ==> decks[m].id != id
    decreases |decks|
  {
    if decks == [] then -1
    else if decks[0].id == id then 0
    else
      var i := FindIndex(decks[1..], id);
      if i == -1 then -1 else i + 1
  }

  /** `decks.find(d => d.id === id)`: the deck at the first index with that id. */
  function GetDeck(decks: seq<Deck>, id: string): (r: Option<Deck>)
    ensures r.None? <==> FindIndex(decks, id) == -1
    ensures r.Some? ==> r.value == decks[FindIndex(decks, id)] && r.value.id == id
    decreases |decks|
  {
    if decks == [] then None
    else if decks[0].id == id then Some(decks[0])
    else GetDeck(decks[1..], id)
  }

  /** `updateDeck` on the stored array: the first deck with that id is replaced in place, or the deck is appended. */
  function Upserted(decks: seq<Deck>, next: Deck): (r: seq<Deck>)
    ensures FindIndex(decks, next.id) >= 0 ==>
      |r| == |decks| && r[FindIndex(decks, next.id)] == next
      && forall k :: 0 <= k < |decks| && k != FindIndex(decks, next.id) ==> r[k] == decks[k]
    ensures FindIndex(decks, next.id) == -1 ==> r == decks + [next]
  {
    var idx := FindIndex(decks, next.id);
    if idx >= 0 then decks[idx := next] else decks + [next]
  }

  /** After an update, looking the id up finds the new version. */
  lemma UpsertThenGet(decks: seq<Deck>, next: Deck)
    ensures GetDeck(Upserted(decks, next), next.id) == Some(next)
  {
    var r := Upserted(decks, next);
    var idx := FindIndex(decks, next.id);
    var j := if idx >= 0 then idx else |decks|;
    assert r[j] == next;
    assert forall m :: 0 <= m < j ==> r[m].id != next.id;
    assert FindIndex(r, next.id) == j;
  }

  /** The callback `d => d.id !== id`. */
  function IdIsNot(id: string): Deck -> bool {
    (d: Deck) => d.id != id
  }

  /** `deleteDeck`: every deck with that id goes; every other deck stays. */
  function Deleted(decks: seq<Deck>, id: string): (r: seq<Deck>)
    ensures forall d :: d in r <==> d in decks && d.id != id
    ensures GetDeck(r, id).None?
  {
    Filter(decks, IdIsNot(id))
  }

  /**
   * `filter` keeps the stored order and every copy of the rest: deleting from
   * two runs of decks deletes from each in place, and a single deck either
   * goes or stays.
   */
  lemma DeletedKeepsOrder(a: seq<Deck>, b: seq<Deck>, id: string)
    ensures Deleted(a + b, id) == Deleted(a, id) + Deleted(b, id)
  {
    FilterConcat(a, b, IdIsNot(id));
  }

  /** A single deck goes exactly when it carries the id. */
  lemma DeletedOne(d: Deck, id: string)
    ensures Deleted([d], id) == if d.id == id then [] else [d]
  {
  }

  /** Deleting an id that is not stored changes nothing. */
  lemma DeleteAbsent(decks: seq<Deck>, id: string)
    requires GetDeck(decks, id).None?
    ensures Deleted(decks, id) == decks
  {
    FilterKeepsAll(decks, IdIsNot(id));
  }

  const IdTemplate: string := "xxxxxxxx-xxxx-4xxx-yxxx-xxxxxxxxxxxx"

  /** `n.toString(16)` for `0 <= n < 16`. */
  function HexDigit(n: int): (c: char)
    requires 0 <= n < 16
    ensures IsHex(c)
  {
    "0123456789abcdef"[n]
  }

  predicate IsHex(c: char) {
    '0' <= c <= '9' || 'a' <= c <= 'f'
  }

  /** A character the template position `t` admits. */
  predicate Fits(t: char, c: char) {
    if t == 'x' then IsHex(c)
    else if t == 'y' then c == '8' || c == '9' || c == 'a' || c == 'b'
    else c == t
  }

  /** The 8-4-4-4-12 lowercase-hex shape with version digit 4 and variant digit 8, 9, a or b. */
  predicate IsUuidV4(id: string) {
    && |id| == 36
    && id[8] == '-' && id[13] == '-' && id[18] == '-' && id[23] == '-'
    && id[14] == '4'
    && (id[19] == '8' || id[19] == '9' || id[19] == 'a' || id[19] == 'b')
    && forall k :: 0 <= k < 36 && k !in {8, 13, 18, 19, 23, 14} ==> IsHex(id[k])
  }

  /** A string that fits the template character by character has the version-4 shape. */
  lemma FitsTemplateIsUuid(id: string)
    requires |id| == |IdTemplate|
    requires forall k :: 0 <= k < |id| ==> Fits(IdTemplate[k], id[k])
    ensures IsUuidV4(id)
  {
    forall k | 0 <= k < 36 && k !in {8, 13, 18, 19, 23, 14} ensures IsHex(id[k]) {
      assert IdTemplate[k] == 'x';
      assert Fits(IdTemplate[k], id[k]);
    }
    assert Fits(IdTemplate[19], id[19]);
  }

  /** The digit a random `r < 16` puts at an `x` (the digit itself) or at the `y` (`(r & 0x3) | 0x8`) of the template. */
  function RandomDigit(t: char, r: bv8): (c: char)
    requires t == 'x' || t == 'y'
    requires r < 16
    ensures Fits(t, c)
  {
    if t == 'x' then HexDigit(r as int)
    else
      var v := ((r & 0x3) | 0x8) as int;
      assert 8 <= v < 12;
      HexDigit(v)
  }

  /**
   * `template.replace(/[xy]/g, ...)`: each `x` becomes a random hex digit,
   * each `y` becomes `(r & 0x3) | 0x8` for a random `r`, and every other
   * character is kept; the random draws are free choices here.
   */
  method FillTemplate(template: string) returns (id: string)
    ensures |id| == |template|
    ensures forall k :: 0 <= k < |template| ==> Fits(template[k], id[k])
  {
    id := "";
    var i := 0;
    while i < |template|
      invariant 0 <= i <= |template| && |id| == i
      invariant forall k :: 0 <= k < i ==> Fits(template[k], id[k])
    {
      var t := template[i];
      var c := t;
      if t == 'x' || t == 'y' {
        var r: bv8 :| r < 16;
        c := RandomDigit(t, r);
      }
      id := id + [c];
      i := i + 1;
    }
  }

  /** `genId`: the version-4 template filled in. */
  method GenId() returns (id: string)
    ensures IsUuidV4(id)
  {
    id := FillTemplate(IdTemplate);
    FitsTemplateIsUuid(id);
  }

  /** The saved decks, as `loadAll` reads them and `saveAll` writes them. */
  class DeckStore {
    var decks: seq<Deck>

    constructor (saved: seq<Deck>)
      ensures decks == saved
    {
      decks := saved;
    }

    /** `createDeck`: the draft gets a fresh id and the time `now`, and is appended. */
    method CreateDeck(draft: DeckDraft, now: int) returns (d: Deck)
      modifies this
      ensures decks == old(decks) + [d]
      ensures IsUuidV4(d.id) && d.updatedAt == now
      ensures d == Deck(d.id, draft.name, draft.faction, draft.protagonist, draft.persona, draft.deck, draft.backgroundImage, now)
    {
      var id := GenId();
      d := Deck(id, draft.name, draft.faction, draft.protagonist, draft.persona, draft.deck, draft.backgroundImage, now);
      decks := decks + [d];
    }

    /** `updateDeck`: stamps the deck with `now`, then replaces or appends it. */
    method UpdateDeck(deck: Deck, now: int) returns (next: Deck)
      modifies this
      ensures next == deck.(updatedAt := now)
      ensures decks == Upserted(old(decks), next)
      ensures GetDeck(decks, deck.id) == Some(next)
    {
      next := deck.(updatedAt := now);
      var idx := FindIndex(decks, deck.id);
      if idx >= 0 {
        decks := decks[idx := next];
      } else {
        decks := decks + [next];
      }
      UpsertThenGet(old(decks), next);
    }

    method DeleteDeck(id: string)
      modifies this
      ensures decks == Deleted(old(decks), id)
    {
      decks := Filter(decks, IdIsNot(id));
    }

    /**
     * `setDeckBackgroundImage` once the file has been read as `dataUrl`: an
     * unknown id changes nothing; otherwise the stored deck, with the image,
     * goes back through `updateDeck` in its own place.
     */
    method SetBackground(id: string, dataUrl: string, now: int) returns (r: Option<Deck>)
      modifies this
      ensures GetDeck(old(decks), id).None? ==> r.None? && decks == old(decks)
      ensures GetDeck(old(decks), id).Some? ==>
        && r == Some(GetDeck(old(decks), id).value.(backgroundImage := Present(dataUrl), updatedAt := now))
        && decks == Upserted(old(decks), r.value) && |decks| == |old(decks)|
        && GetDeck(decks, id) == r
    {
      r := ReplaceBackground(id, Present(dataUrl), now);
    }

    /** `clearDeckBackgroundImage`: as above, with the image set to `null`. */
    method ClearBackground(id: string, now: int) returns (r: Option<Deck>)
      modifies this
      ensures GetDeck(old(decks), id).None? ==> r.None? && decks == old(decks)
      ensures GetDeck(old(decks), id).Some? ==>
        && r == Some(GetDeck(old(decks), id).value.(backgroundImage := Null, updatedAt := now))
        && decks == Upserted(old(decks), r.value) && |decks| == |old(decks)|
        && GetDeck(decks, id) == r
    {
      r := ReplaceBackground(id, Null, now);
    }

    /** Looks the deck up, sets its image and saves it through `updateDeck`. */
    method ReplaceBackground(id: string, image: Nullable, now: int) returns (r: Option<Deck>)
      modifies this
      ensures GetDeck(old(decks), id).None? ==> r.None? && decks == old(decks)
      ensures GetDeck(old(decks), id).Some? ==>
        && r == Some(GetDeck(old(decks), id).value.(backgroundImage := image, updatedAt := now))
        && decks == Upserted(old(decks), r.value) && |decks| == |old(decks)|
        && GetDeck(decks, id) == r
    {
      var found := GetDeck(decks, id);
      if found.None? {
        return None;
      }
      var next := UpdateDeck(found.value.(backgroundImage := image), now);
      r := Some(next);
    }
  }
}
