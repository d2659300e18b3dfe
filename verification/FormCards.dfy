/** Grouping the form fields of a service into cards. */
module FormCards {
  import opened Wrappers
  import opened Sorting

  datatype Field = Field(
    fieldKey: string, fieldType: string, isRequired: bool, sortOrder: int,
    cardId: Option<string>, cardTitle: Option<string>,
    conditionalOnField: string, conditionalOnValue: string)

  datatype FieldResponse = FieldResponse(
    id: string, fieldType: string, required: bool, optional: bool, conditional: Option<(string, string)>)

  datatype Card = Card(id: string, title: string, fields: seq<FieldResponse>)

  function OrElse(s: Option<string>, default: string): string {
    if s.Some? && s.value != "" then s.value else default
  }

  function CardId(f: Field): string {
    OrElse(f.cardId, "default")
  }

  function CardTitle(f: Field): string {
    OrElse(f.cardTitle, "Details")
  }

  function Respond(f: Field): FieldResponse {
    FieldResponse(
      f.fieldKey, if f.fieldType == "radio_card" then "radio-card" else f.fieldType, f.isRequired, !f.isRequired,
      if f.conditionalOnField != "" && f.conditionalOnValue != ""
      then Some((f.conditionalOnField, f.conditionalOnValue)) else None)
  }

  predicate Before(f: Field, g: Field) {
    f.sortOrder <= g.sortOrder
  }

  function Sorted(fields: seq<Field>): seq<Field> {
    StableSort(fields, Before)
  }

  /** The fields of one card, in order. */
  function Group(fields: seq<Field>, id: string): seq<Field> {
    if fields == [] then []
    else
      var last := fields[|fields| - 1];
      Group(fields[..|fields| - 1], id) + (if CardId(last) == id then [last] else [])
  }

  /** The card ids, each at the place where it first appears. */
  function Ids(fields: seq<Field>): seq<string> {
    if fields == [] then []
    else
      var ids, id := Ids(fields[..|fields| - 1]), CardId(fields[|fields| - 1]);
      if id in ids then ids else ids + [id]
  }

  function Responses(fields: seq<Field>): seq<FieldResponse> {
    seq(|fields|, i requires 0 <= i < |fields| => Respond(fields[i]))
  }

  predicate IsCardOf(card: Card, fields: seq<Field>, id: string) {
    var group := Group(fields, id);
    group != [] && card == Card(id, CardTitle(group[0]), Responses(group))
  }

  lemma GroupGrows(front: seq<Field>, last: Field, id: string)
    ensures Group(front + [last], id) == Group(front, id) + (if CardId(last) == id then [last] else [])
  {
    assert (front + [last])[..|front|] == front;
  }

  lemma IdsGrow(front: seq<Field>, last: Field)
    ensures Ids(front + [last]) == if CardId(last) in Ids(front) then Ids(front) else Ids(front) + [CardId(last)]
  {
    assert (front + [last])[..|front|] == front;
  }

  predicate Mentions(fields: seq<Field>, id: string) {
    exists i :: 0 <= i < |fields| && CardId(fields[i]) == id
  }

  lemma {:induction false} IdsAreTheCardIds(fields: seq<Field>, id: string)
    ensures id in Ids(fields) <==> Mentions(fields, id)
    ensures id in Ids(fields) <==> Group(fields, id) != []
  {
    if fields != [] {
      var front, last := fields[..|fields| - 1], fields[|fields| - 1];
      IdsAreTheCardIds(front, id);
      assert fields == front + [last];
      if Mentions(front, id) {
        var i :| 0 <= i < |front| && CardId(front[i]) == id;
        assert CardId(fields[i]) == id;
      }
      if CardId(last) == id {
        assert CardId(fields[|fields| - 1]) == id;
      }
      if Mentions(fields, id) && CardId(last) != id {
        var i :| 0 <= i < |fields| && CardId(fields[i]) == id;
        assert CardId(front[i]) == id;
      }
    }
  }

  predicate Distinct(s: seq<string>) {
    forall i, j :: 0 <= i < j < |s| ==> s[i] != s[j]
  }

  /** Field `k` is the first one of its card. */
  predicate FirstAt(fields: seq<Field>, id: string, k: nat) {
    k < |fields| && CardId(fields[k]) == id && forall j :: 0 <= j < k ==> CardId(fields[j]) != id
  }

  ghost predicate InOrderOfFirstAppearance(fields: seq<Field>, ids: seq<string>) {
    forall i, j, a, b :: 0 <= i < j < |ids| && FirstAt(fields, ids[i], a) && FirstAt(fields, ids[j], b) ==> a < b
  }

  lemma FirstAtInFront(front: seq<Field>, last: Field, id: string, k: nat)
    requires FirstAt(front + [last], id, k)
    ensures if id in Ids(front) then FirstAt(front, id, k) else k == |front|
  {
    IdsAreTheCardIds(front, id);
    var fields := front + [last];
    if k < |front| {
      assert CardId(front[k]) == id;
      forall j | 0 <= j < k ensures CardId(front[j]) != id {
        assert CardId(fields[j]) != id;
      }
    } else {
      assert forall i :: 0 <= i < |front| ==> front[i] == fields[i];
    }
  }

  /** The ids are distinct and stand in the order in which their cards first appear. */
  lemma {:induction false} IdsInOrder(fields: seq<Field>)
    ensures Distinct(Ids(fields)) && InOrderOfFirstAppearance(fields, Ids(fields))
  {
    if fields != [] {
      var front, last := fields[..|fields| - 1], fields[|fields| - 1];
      IdsInOrder(front);
      assert fields == front + [last];
      IdsGrow(front, last);
      var ids := Ids(fields);
      forall i, j, a, b | 0 <= i < j < |ids| && FirstAt(fields, ids[i], a) && FirstAt(fields, ids[j], b)
        ensures a < b
      {
        FirstAtInFront(front, last, ids[i], a);
        FirstAtInFront(front, last, ids[j], b);
        assert ids[i] == Ids(front)[i];
      }
    }
  }

  /** The fields of the given cards, card after card. */
  function Gathered(fields: seq<Field>, ids: seq<string>): seq<Field> {
    if ids == [] then [] else Group(fields, ids[0]) + Gathered(fields, ids[1..])
  }

  lemma {:induction false} GatherOneMore(fields: seq<Field>, ids: seq<string>, id: string)
    ensures Gathered(fields, ids + [id]) == Gathered(fields, ids) + Group(fields, id)
  {
    if ids == [] {
      assert [] + [id] == [id] && [id][1..] == [];
    } else {
      assert (ids + [id])[1..] == ids[1..] + [id];
      GatherOneMore(fields, ids[1..], id);
    }
  }

  /** A further field joins exactly its own card. */
  lemma {:induction false} GatherGrows(front: seq<Field>, last: Field, ids: seq<string>)
    requires Distinct(ids)
    ensures multiset(Gathered(front + [last], ids)) ==
            multiset(Gathered(front, ids)) + (if CardId(last) in ids then multiset{last} else multiset{})
  {
    if ids != [] {
      GatherGrows(front, last, ids[1..]);
      GroupGrows(front, last, ids[0]);
    }
  }

  /** The cards partition the fields: together they hold every field exactly once. */
  lemma {:induction false} CardsPartitionFields(fields: seq<Field>)
    ensures multiset(Gathered(fields, Ids(fields))) == multiset(fields)
  {
    if fields != [] {
      var front, last := fields[..|fields| - 1], fields[|fields| - 1];
      CardsPartitionFields(front);
      assert fields == front + [last];
      IdsGrow(front, last);
      IdsInOrder(fields);
      if CardId(last) !in Ids(front) {
        GatherOneMore(front, Ids(front), CardId(last));
        IdsAreTheCardIds(front, CardId(last));
      }
      GatherGrows(front, last, Ids(fields));
    }
  }

  /** Sorting loses no field and keeps fields of equal rank in their given order. */
  lemma SortedIsStable(fields: seq<Field>, rank: int)
    ensures multiset(Sorted(fields)) == multiset(fields)
    ensures SortedBy(Sorted(fields), Before)
    ensures Filter(Sorted(fields), (f: Field) => f.sortOrder == rank)
         == Filter(fields, (f: Field) => f.sortOrder == rank)
  {
    SortIsPermutation(fields, Before);
    SortIsSorted(fields, Before);
    SortKeepsClass(fields, Before, (f: Field) => f.sortOrder == rank);
  }

  /** The cards built from a field list hold exactly the given fields. */
  lemma CardsHoldEveryField(formFields: seq<Field>)
    ensures multiset(Gathered(Sorted(formFields), Ids(Sorted(formFields)))) == multiset(formFields)
  {
    CardsPartitionFields(Sorted(formFields));
    SortIsPermutation(formFields, Before);
  }

  lemma ResponsesGrow(group: seq<Field>, last: Field)
    ensures Responses(group + [last]) == Responses(group) + [Respond(last)]
  {
  }

  lemma CardGrows(front: seq<Field>, last: Field, card: Card)
    requires IsCardOf(card, front, CardId(last)) ||
             (Group(front, CardId(last)) == [] && card == Card(CardId(last), CardTitle(last), []))
    ensures IsCardOf(card.(fields := card.fields + [Respond(last)]), front + [last], CardId(last))
  {
    var id := CardId(last);
    GroupGrows(front, last, id);
    ResponsesGrow(Group(front, id), last);
    assert Group(front, id) == [] ==> card.fields == Responses(Group(front, id));
  }

  /** The map holds exactly the cards of the fields. */
  ghost predicate HoldsCardsOf(cardsMap: map<string, Card>, fields: seq<Field>) {
    (forall id :: id in cardsMap <==> id in Ids(fields)) &&
    (forall id :: id in cardsMap ==> IsCardOf(cardsMap[id], fields, id))
  }

  /** The card that a field goes to, new if the map does not have it. */
  function CardFor(cardsMap: map<string, Card>, field: Field): Card {
    var id := CardId(field);
    if id in cardsMap then cardsMap[id] else Card(id, CardTitle(field), [])
  }

  /** The map with one more field on its card. */
  function WithField(cardsMap: map<string, Card>, field: Field): map<string, Card> {
    var card := CardFor(cardsMap, field);
    cardsMap[CardId(field) := card.(fields := card.fields + [Respond(field)])]
  }

  lemma CardMapGrows(cardsMap: map<string, Card>, front: seq<Field>, last: Field)
    requires HoldsCardsOf(cardsMap, front)
    ensures HoldsCardsOf(WithField(cardsMap, last), front + [last])
  {
    var grown := WithField(cardsMap, last);
    IdsGrow(front, last);
    IdsAreTheCardIds(front, CardId(last));
    CardGrows(front, last, CardFor(cardsMap, last));
    forall id | id in grown ensures IsCardOf(grown[id], front + [last], id) {
      GroupGrows(front, last, id);
    }
  }

  /** All cards, by id. */
  function CardMap(fields: seq<Field>): map<string, Card> {
    if fields == [] then map[] else WithField(CardMap(fields[..|fields| - 1]), fields[|fields| - 1])
  }

  lemma {:induction false} CardMapHoldsCards(fields: seq<Field>)
    ensures HoldsCardsOf(CardMap(fields), fields)
  {
    if fields != [] {
      var front, last := fields[..|fields| - 1], fields[|fields| - 1];
      CardMapHoldsCards(front);
      CardMapGrows(CardMap(front), front, last);
      assert front + [last] == fields;
    }
  }

  predicate AreCardsOf(cards: seq<Card>, fields: seq<Field>) {
    |cards| == |Ids(fields)| && forall i :: 0 <= i < |cards| ==> IsCardOf(cards[i], fields, Ids(fields)[i])
  }

  /** Every card has an id and a title; fields that name no card share the one called "default", and
      an untitled card is called "Details". */
  lemma CardsAreNamed(cards: seq<Card>, fields: seq<Field>, i: nat)
    requires AreCardsOf(cards, fields) && i < |cards|
    ensures cards[i].id != "" && cards[i].title != ""
    ensures forall f :: f in Group(fields, cards[i].id) ==> f.cardId == Some(cards[i].id) || cards[i].id == "default"
    ensures var title := Group(fields, cards[i].id)[0].cardTitle;
            cards[i].title == "Details" || title == Some(cards[i].title)
  {
    assert IsCardOf(cards[i], fields, Ids(fields)[i]);
    GroupIsOfCard(fields, cards[i].id);
    var group := Group(fields, cards[i].id);
    assert group[0] in group;
    DefaultsAreNames(group[0]);
  }

  lemma DefaultsAreNames(f: Field)
    ensures CardId(f) != "" && CardTitle(f) != ""
  {
    assert |"default"| == 7 && |"Details"| == 7;
  }

  lemma {:induction false} GroupIsOfCard(fields: seq<Field>, id: string)
    ensures forall f :: f in Group(fields, id) ==> f in fields && CardId(f) == id
  {
    if fields != [] {
      GroupIsOfCard(fields[..|fields| - 1], id);
    }
  }

  /** What a client is told of a field: its key, its kind under the client's name for it, whether it
      must be filled in or may be left out, never both, and a condition only when both halves are there. */
  lemma AnswersMatchFields(cards: seq<Card>, fields: seq<Field>, i: nat, j: nat)
    requires AreCardsOf(cards, fields) && i < |cards| && j < |cards[i].fields|
    ensures |cards[i].fields| == |Group(fields, cards[i].id)|
    ensures var r, f := cards[i].fields[j], Group(fields, cards[i].id)[j];
            r.id == f.fieldKey && r.required == f.isRequired && r.optional == !r.required &&
            r.fieldType == (if f.fieldType == "radio_card" then "radio-card" else f.fieldType) &&
            (r.conditional.Some? <==> f.conditionalOnField != "" && f.conditionalOnValue != "") &&
            (r.conditional.Some? ==> r.conditional.value == (f.conditionalOnField, f.conditionalOnValue))
  {
    assert IsCardOf(cards[i], fields, Ids(fields)[i]);
  }

  /** The cards of the map, in the given order. */
  function Listed(cardsMap: map<string, Card>, order: seq<string>): seq<Card>
    requires forall i :: 0 <= i < |order| ==> order[i] in cardsMap
  {
    seq(|order|, i requires 0 <= i < |order| => cardsMap[order[i]])
  }

  lemma ListedAreCards(cardsMap: map<string, Card>, fields: seq<Field>)
    requires HoldsCardsOf(cardsMap, fields)
    ensures forall i :: 0 <= i < |Ids(fields)| ==> Ids(fields)[i] in cardsMap
    ensures AreCardsOf(Listed(cardsMap, Ids(fields)), fields)
  {
    forall i | 0 <= i < |Ids(fields)| ensures Ids(fields)[i] in cardsMap {
      assert Ids(fields)[i] in Ids(fields);
    }
  }

  lemma CardsAreDistinctAndFull(cards: seq<Card>, fields: seq<Field>)
    requires AreCardsOf(cards, fields)
    ensures forall i, j :: 0 <= i < j < |cards| ==> cards[i].id != cards[j].id
    ensures forall i :: 0 <= i < |cards| ==> cards[i].fields != []
  {
    IdsInOrder(fields);
    forall i | 0 <= i < |cards| ensures cards[i].id == Ids(fields)[i] && cards[i].fields != [] {
      assert IsCardOf(cards[i], fields, Ids(fields)[i]);
    }
  }

  /** The loop over the sorted fields, with the map of cards and the order of their ids. */
  method CollectCards(sorted: seq<Field>) returns (cardsMap: map<string, Card>, cardOrder: seq<string>)
    ensures cardsMap == CardMap(sorted) && cardOrder == Ids(sorted)
  {
    cardsMap, cardOrder := map[], [];
    for n := 0 to |sorted|
      invariant cardOrder == Ids(sorted[..n])
      invariant cardsMap == CardMap(sorted[..n])
      invariant forall id :: id in cardsMap <==> id in cardOrder
    {
      var field := sorted[n];
      assert sorted[..n + 1][..n] == sorted[..n];
      var cardId := CardId(field);
      if cardId !in cardsMap {
        cardsMap := cardsMap[cardId := Card(cardId, CardTitle(field), [])];
        cardOrder := cardOrder + [cardId];
      }
      var card := cardsMap[cardId];
      cardsMap := cardsMap[cardId := card.(fields := card.fields + [Respond(field)])];
    }
    assert sorted[..|sorted|] == sorted;
  }

  /** One card per id, in order of first appearance among the stably sorted fields, each with
      exactly its own fields in sorted order. */
  method BuildApplicationConfig(formFields: seq<Field>) returns (cards: Option<seq<Card>>)
    ensures cards.None? <==> formFields == []
    ensures cards.Some? ==> AreCardsOf(cards.value, Sorted(formFields))
    ensures cards.Some? ==> forall i, j :: 0 <= i < j < |cards.value| ==> cards.value[i].id != cards.value[j].id
    ensures cards.Some? ==> forall i :: 0 <= i < |cards.value| ==> cards.value[i].fields != []
  {
    if formFields == [] {
      return None;
    }
    var sorted := Sorted(formFields);
    var cardsMap, cardOrder := CollectCards(sorted);
    CardMapHoldsCards(sorted);
    ListedAreCards(cardsMap, sorted);
    CardsAreDistinctAndFull(Listed(cardsMap, cardOrder), sorted);
    return Some(Listed(cardsMap, cardOrder));
  }
}
