/** Keyed reconciliation of the node cards (panel/panel-backend/web/static/js/dashboard.js). */
module NodeList {

  type ElementId = nat

  /** What a card shows; the fields are irrelevant here. */
  type Info = string

  datatype NodeInfo = NodeInfo(id: string, info: Info)

  /** A card element of the container: its identity, its data-node-id and its content. */
  datatype Card = Card(elem: ElementId, id: string, info: Info)

  // ---------- DOM operations ----------

  /** Removing elements, as `remove` does one by one. */
  function Without(cards: seq<Card>, gone: set<ElementId>): seq<Card> {
    if cards == [] then []
    else (if cards[0].elem in gone then [] else [cards[0]]) + Without(cards[1..], gone)
  }

  /** `replaceWith`: nothing happens when the element is no longer in the container. */
  function Replaced(cards: seq<Card>, elem: ElementId, card: Card): (r: seq<Card>)
    ensures |r| == |cards|
    ensures forall i | 0 <= i < |cards| :: r[i] == if cards[i].elem == elem then card else cards[i]
  {
    seq(|cards|, i requires 0 <= i < |cards| => if cards[i].elem == elem then card else cards[i])
  }

  // ---------- specification of one render ----------

  /** The Map built from the container: the last element wins for each id. */
  function Existing(cards: seq<Card>): map<string, ElementId> {
    if cards == [] then map[]
    else Existing(cards[..|cards| - 1])[cards[|cards| - 1].id := cards[|cards| - 1].elem]
  }

  function Ids(nodes: seq<NodeInfo>): set<string> {
    set n | n in nodes :: n.id
  }

  function Gone(existing: map<string, ElementId>, incoming: set<string>): set<ElementId> {
    set id | id in existing && id !in incoming :: existing[id]
  }

  function Built(nodes: seq<NodeInfo>, base: ElementId, j: nat): Card
    requires j < |nodes|
  {
    Card(base + j, nodes[j].id, nodes[j].info)
  }

  /** A card put where its id was at the start, or appended. */
  function PlacedOne(cards: seq<Card>, existing: map<string, ElementId>, card: Card): seq<Card> {
    if card.id in existing then Replaced(cards, existing[card.id], card) else cards + [card]
  }

  /** The container after the first k incoming nodes have been placed. */
  function Placed(cards: seq<Card>, existing: map<string, ElementId>, nodes: seq<NodeInfo>, base: ElementId,
                  k: nat): seq<Card>
    requires k <= |nodes|
  {
    if k == 0 then cards
    else PlacedOne(Placed(cards, existing, nodes, base, k - 1), existing, Built(nodes, base, k - 1))
  }

  function Rendered(cards: seq<Card>, nodes: seq<NodeInfo>, base: ElementId): seq<Card> {
    var existing := Existing(cards);
    Placed(Without(cards, Gone(existing, Ids(nodes))), existing, nodes, base, |nodes|)
  }

  // ---------- the renderer ----------

  class Container {
    var cards: seq<Card>
    var created: ElementId

    ghost predicate Valid()
      reads this
    {
      ElementsBelow(cards, created)
    }

    constructor ()
      ensures Valid() && cards == []
    {
      cards, created := [], 0;
    }

    method RenderNodeList(nodes: seq<NodeInfo>)
      requires Valid()
      modifies this
      ensures Valid()
      ensures cards == if nodes == [] then [] else Rendered(old(cards), nodes, old(created))
    {
      if nodes == [] {
        cards := [];
        return;
      }
      var existing := CollectExisting();
      var incomingIds := set n | n in nodes :: n.id;
      RemoveMissing(existing, incomingIds);
      PlaceAll(existing, nodes);
    }

    /** The last loop of the render. */
    method PlaceAll(existing: map<string, ElementId>, nodes: seq<NodeInfo>)
      requires Valid()
      modifies this
      ensures Valid() && created == old(created) + |nodes|
      ensures cards == Placed(old(cards), existing, nodes, old(created), |nodes|)
    {
      ghost var start, base := cards, created;
      for k := 0 to |nodes|
        invariant created == base + k
        invariant cards == Placed(start, existing, nodes, base, k)
        invariant Valid()
      {
        ghost var before := cards;
        PlaceCard(existing, nodes[k]);
        assert cards == PlacedOne(before, existing, Built(nodes, base, k));
      }
    }

    method CollectExisting() returns (existing: map<string, ElementId>)
      ensures existing == Existing(cards)
    {
      existing := map[];
      for i := 0 to |cards|
        invariant existing == Existing(cards[..i])
      {
        assert cards[..i + 1][..i] == cards[..i];
        existing := existing[cards[i].id := cards[i].elem];
      }
      assert cards[..|cards|] == cards;
    }

    method RemoveMissing(existing: map<string, ElementId>, incomingIds: set<string>)
      requires Valid()
      modifies `cards
      ensures Valid() && cards == Without(old(cards), Gone(existing, incomingIds))
    {
      var todo := existing.Keys;
      ghost var gone: set<ElementId> := {};
      WithoutNothing(cards);
      while todo != {}
        invariant todo <= existing.Keys
        invariant gone == set id | id in existing && id !in todo && id !in incomingIds :: existing[id]
        invariant cards == Without(old(cards), gone)
        decreases todo
      {
        var id :| id in todo;
        if id !in incomingIds {
          WithoutMore(old(cards), gone, {existing[id]});
          cards := Without(cards, {existing[id]});
          gone := gone + {existing[id]};
        }
        todo := todo - {id};
      }
      WithoutSubset(old(cards), gone, created);
      assert gone == Gone(existing, incomingIds);
    }

    method PlaceCard(existing: map<string, ElementId>, info: NodeInfo)
      requires Valid()
      modifies this
      ensures Valid() && created == old(created) + 1
      ensures var card := Card(old(created), info.id, info.info);
              cards == PlacedOne(old(cards), existing, card)
    {
      var card := Card(created, info.id, info.info);
      created := created + 1;
      if card.id in existing {
        cards := Replaced(cards, existing[card.id], card);
      } else {
        cards := cards + [card];
      }
    }
  }

  // ---------- lemmas on removal ----------

  ghost predicate ElementsBelow(cards: seq<Card>, bound: ElementId) {
    && (forall i | 0 <= i < |cards| :: cards[i].elem < bound)
    && (forall i, j | 0 <= i < j < |cards| :: cards[i].elem != cards[j].elem)
  }

  ghost predicate UniqueIds(cards: seq<Card>) {
    forall i, j | 0 <= i < j < |cards| :: cards[i].id != cards[j].id
  }

  lemma {:induction false} WithoutNothing(cards: seq<Card>)
    ensures Without(cards, {}) == cards
  {
    if cards != [] {
      WithoutNothing(cards[1..]);
    }
  }

  lemma {:induction false} WithoutMore(cards: seq<Card>, gone: set<ElementId>, more: set<ElementId>)
    ensures Without(Without(cards, gone), more) == Without(cards, gone + more)
  {
    if cards != [] {
      WithoutMore(cards[1..], gone, more);
      var rest := Without(cards[1..], gone);
      if cards[0].elem !in gone {
        assert ([cards[0]] + rest)[1..] == rest;
      } else {
        assert Without(cards, gone) == rest;
      }
    }
  }

  lemma {:induction false} WithoutSubset(cards: seq<Card>, gone: set<ElementId>, bound: ElementId)
    requires ElementsBelow(cards, bound)
    ensures ElementsBelow(Without(cards, gone), bound)
    ensures forall c :: c in Without(cards, gone) <==> c in cards && c.elem !in gone
  {
    if cards != [] {
      WithoutSubset(cards[1..], gone, bound);
      assert cards == [cards[0]] + cards[1..];
      assert cards[0] !in cards[1..];
    }
  }

  // ---------- what a render shows ----------

  lemma {:induction false} ExistingUnique(cards: seq<Card>)
    requires UniqueIds(cards)
    ensures forall id :: id in Existing(cards) <==> exists i :: 0 <= i < |cards| && cards[i].id == id
    ensures forall i | 0 <= i < |cards| :: Existing(cards)[cards[i].id] == cards[i].elem
  {
    if cards != [] {
      var n := |cards| - 1;
      ExistingUnique(cards[..n]);
      forall i | 0 <= i < |cards|
        ensures cards[i].id in Existing(cards) && Existing(cards)[cards[i].id] == cards[i].elem
      {
        if i < n { assert cards[..n][i] == cards[i]; }
      }
      forall id | id in Existing(cards)
        ensures exists i :: 0 <= i < |cards| && cards[i].id == id
      {
        if id != cards[n].id {
          assert id in Existing(cards[..n]);
          var i :| 0 <= i < |cards[..n]| && cards[..n][i].id == id;
          assert cards[i].id == id;
        } else {
          assert cards[n].id == id;
        }
      }
    }
  }

  /** The cards that stay, in their order. */
  function Survivors(cards: seq<Card>, incoming: set<string>): seq<Card> {
    if cards == [] then []
    else (if cards[0].id in incoming then [cards[0]] else []) + Survivors(cards[1..], incoming)
  }

  lemma {:induction false} WithoutIsSurvivors(cards: seq<Card>, gone: set<ElementId>, incoming: set<string>)
    requires forall c | c in cards :: c.elem in gone <==> c.id !in incoming
    ensures Without(cards, gone) == Survivors(cards, incoming)
  {
    if cards != [] {
      WithoutIsSurvivors(cards[1..], gone, incoming);
    }
  }

  lemma KeptAreSurvivors(cards: seq<Card>, bound: ElementId, nodes: seq<NodeInfo>)
    requires UniqueIds(cards) && ElementsBelow(cards, bound)
    ensures Without(cards, Gone(Existing(cards), Ids(nodes))) == Survivors(cards, Ids(nodes))
  {
    ExistingUnique(cards);
    var existing, gone := Existing(cards), Gone(Existing(cards), Ids(nodes));
    forall c | c in cards
      ensures c.elem in gone <==> c.id !in Ids(nodes)
    {
      var i :| 0 <= i < |cards| && cards[i] == c;
      assert existing[c.id] == c.elem;
      if c.elem in gone {
        var id :| id in existing && id !in Ids(nodes) && existing[id] == c.elem;
        var j :| 0 <= j < |cards| && cards[j].id == id;
        assert cards[j].elem == cards[i].elem;
      }
    }
    WithoutIsSurvivors(cards, gone, Ids(nodes));
  }

  /** What stands in the place of a surviving card once k nodes are placed: the card built for the
      first of them carrying its id. */
  function Slot(c: Card, nodes: seq<NodeInfo>, base: ElementId, k: nat): Card
    requires k <= |nodes|
  {
    if k == 0 then c
    else
      var before := Slot(c, nodes, base, k - 1);
      if before == c && nodes[k - 1].id == c.id then Built(nodes, base, k - 1) else before
  }

  /** The cards appended by the first k nodes, in incoming order. */
  function Appended(known: set<string>, nodes: seq<NodeInfo>, base: ElementId, k: nat): seq<Card>
    requires k <= |nodes|
  {
    if k == 0 then []
    else Appended(known, nodes, base, k - 1) + (if nodes[k - 1].id in known then [] else [Built(nodes, base, k - 1)])
  }

  lemma {:induction false} SlotFacts(c: Card, nodes: seq<NodeInfo>, base: ElementId, k: nat)
    requires k <= |nodes| && c.elem < base
    ensures Slot(c, nodes, base, k).id == c.id
    ensures Slot(c, nodes, base, k) == c || base <= Slot(c, nodes, base, k).elem < base + k
    ensures Slot(c, nodes, base, k) == c <==> forall j | 0 <= j < k :: nodes[j].id != c.id
    ensures Slot(c, nodes, base, k) != c ==>
              exists j :: 0 <= j < k && FirstWith(nodes, c.id, j) && Slot(c, nodes, base, k) == Built(nodes, base, j)
  {
    if k > 0 {
      SlotFacts(c, nodes, base, k - 1);
      if Slot(c, nodes, base, k - 1) == c && nodes[k - 1].id == c.id {
        assert FirstWith(nodes, c.id, k - 1);
      }
    }
  }

  ghost predicate FirstWith(nodes: seq<NodeInfo>, id: string, j: nat) {
    j < |nodes| && nodes[j].id == id && forall i | 0 <= i < j :: nodes[i].id != id
  }

  lemma {:induction false} AppendedFacts(known: set<string>, nodes: seq<NodeInfo>, base: ElementId, k: nat)
    requires k <= |nodes|
    ensures forall c | c in Appended(known, nodes, base, k) :: base <= c.elem && c.id !in known
    ensures forall j | 0 <= j < k && nodes[j].id !in known :: Built(nodes, base, j) in Appended(known, nodes, base, k)
    ensures forall c | c in Appended(known, nodes, base, k) :: exists j :: 0 <= j < k && c == Built(nodes, base, j)
  {
    if k > 0 {
      AppendedFacts(known, nodes, base, k - 1);
    }
  }

  /** Survivors keep their places, each showing the first incoming info for its id; cards for new
      ids follow in incoming order. */
  function Shown(kept: seq<Card>, known: set<string>, nodes: seq<NodeInfo>, base: ElementId, k: nat): seq<Card>
    requires k <= |nodes|
  {
    seq(|kept|, i requires 0 <= i < |kept| => Slot(kept[i], nodes, base, k)) + Appended(known, nodes, base, k)
  }

  lemma {:induction false} PlacedIsShown(kept: seq<Card>, existing: map<string, ElementId>, nodes: seq<NodeInfo>,
                                         base: ElementId, k: nat)
    requires Placeable(kept, existing, nodes, base) && k <= |nodes|
    ensures Placed(kept, existing, nodes, base, k) == Shown(kept, existing.Keys, nodes, base, k)
  {
    if k == 0 {
      assert Shown(kept, existing.Keys, nodes, base, 0) == kept;
    } else {
      PlacedIsShown(kept, existing, nodes, base, k - 1);
      if nodes[k - 1].id in existing {
        PlaceKnown(kept, existing, nodes, base, k);
      } else {
        PlaceNew(kept, existing, nodes, base, k);
      }
    }
  }

  /** What the containers reached by placing have in common: kept cards have the elements the map
      holds, and elements built here are newer than all of those. */
  ghost predicate Placeable(kept: seq<Card>, existing: map<string, ElementId>, nodes: seq<NodeInfo>, base: ElementId) {
    && ElementsBelow(kept, base) && UniqueIds(kept)
    && (forall c | c in kept :: c.id in existing && existing[c.id] == c.elem)
    && (forall id | id in existing && id in Ids(nodes) :: exists c :: c in kept && c.id == id)
    && forall id | id in existing :: existing[id] < base
  }

  /** Different ids have different elements. */
  lemma ElementsApart(kept: seq<Card>, existing: map<string, ElementId>, nodes: seq<NodeInfo>, base: ElementId, i: nat,
                      id: string)
    requires Placeable(kept, existing, nodes, base) && i < |kept| && id in existing && id in Ids(nodes)
    ensures kept[i].elem == existing[id] <==> kept[i].id == id
  {
    assert kept[i] in kept;
    var c :| c in kept && c.id == id;
    var j :| 0 <= j < |kept| && kept[j] == c;
    if i != j {
      assert kept[i].elem != kept[j].elem;
    }
  }

  lemma SlotStep(kept: seq<Card>, existing: map<string, ElementId>, nodes: seq<NodeInfo>, base: ElementId, k: nat,
                 i: nat)
    requires Placeable(kept, existing, nodes, base) && 0 < k <= |nodes| && i < |kept|
    ensures var before, card := Slot(kept[i], nodes, base, k - 1), Built(nodes, base, k - 1);
            Slot(kept[i], nodes, base, k)
            == if card.id in existing && before.elem == existing[card.id] then card else before
  {
    SlotFacts(kept[i], nodes, base, k - 1);
    assert kept[i] in kept;
    assert nodes[k - 1] in nodes;
    if nodes[k - 1].id in existing {
      ElementsApart(kept, existing, nodes, base, i, nodes[k - 1].id);
    }
  }

  lemma PlaceKnownAt(kept: seq<Card>, existing: map<string, ElementId>, nodes: seq<NodeInfo>, base: ElementId, k: nat,
                     i: nat)
    requires Placeable(kept, existing, nodes, base) && 0 < k <= |nodes| && nodes[k - 1].id in existing
    requires i < |Shown(kept, existing.Keys, nodes, base, k - 1)|
    ensures |Shown(kept, existing.Keys, nodes, base, k)| == |Shown(kept, existing.Keys, nodes, base, k - 1)|
    ensures var before, card := Shown(kept, existing.Keys, nodes, base, k - 1)[i], Built(nodes, base, k - 1);
            Shown(kept, existing.Keys, nodes, base, k)[i] == if before.elem == existing[card.id] then card else before
  {
    if i < |kept| {
      SlotStep(kept, existing, nodes, base, k, i);
    } else {
      var c := Shown(kept, existing.Keys, nodes, base, k - 1)[i];
      AppendedFacts(existing.Keys, nodes, base, k - 1);
      assert c in Appended(existing.Keys, nodes, base, k - 1);
    }
  }

  lemma PlaceKnown(kept: seq<Card>, existing: map<string, ElementId>, nodes: seq<NodeInfo>, base: ElementId, k: nat)
    requires Placeable(kept, existing, nodes, base) && 0 < k <= |nodes| && nodes[k - 1].id in existing
    ensures Shown(kept, existing.Keys, nodes, base, k)
         == Replaced(Shown(kept, existing.Keys, nodes, base, k - 1),
                     existing[nodes[k - 1].id], Built(nodes, base, k - 1))
  {
    var before, card := Shown(kept, existing.Keys, nodes, base, k - 1), Built(nodes, base, k - 1);
    var after := Shown(kept, existing.Keys, nodes, base, k);
    assert |after| == |before|;
    forall i | 0 <= i < |before|
      ensures after[i] == Replaced(before, existing[card.id], card)[i]
    {
      PlaceKnownAt(kept, existing, nodes, base, k, i);
    }
  }

  lemma PlaceNew(kept: seq<Card>, existing: map<string, ElementId>, nodes: seq<NodeInfo>, base: ElementId, k: nat)
    requires Placeable(kept, existing, nodes, base) && 0 < k <= |nodes| && nodes[k - 1].id !in existing
    ensures Shown(kept, existing.Keys, nodes, base, k)
         == Shown(kept, existing.Keys, nodes, base, k - 1) + [Built(nodes, base, k - 1)]
  {
    forall i | 0 <= i < |kept|
      ensures Slot(kept[i], nodes, base, k) == Slot(kept[i], nodes, base, k - 1)
    {
      SlotStep(kept, existing, nodes, base, k, i);
    }
  }

  lemma {:induction false} SurvivorsMembers(cards: seq<Card>, incoming: set<string>)
    ensures forall c :: c in Survivors(cards, incoming) <==> c in cards && c.id in incoming
  {
    if cards != [] {
      SurvivorsMembers(cards[1..], incoming);
      assert cards == [cards[0]] + cards[1..];
    }
  }

  lemma ApartCons(first: Card, rest: seq<Card>, bound: ElementId)
    requires first.elem < bound && UniqueIds(rest) && ElementsBelow(rest, bound)
    requires forall c | c in rest :: c.id != first.id && c.elem != first.elem
    ensures UniqueIds([first] + rest) && ElementsBelow([first] + rest, bound)
  {
    assert forall i | 0 <= i < |rest| :: rest[i] in rest;
  }

  lemma ApartTail(cards: seq<Card>, bound: ElementId)
    requires cards != [] && UniqueIds(cards) && ElementsBelow(cards, bound)
    ensures UniqueIds(cards[1..]) && ElementsBelow(cards[1..], bound)
    ensures forall c | c in cards[1..] :: c.id != cards[0].id && c.elem != cards[0].elem
  {
  }

  lemma {:induction false} SurvivorsFacts(cards: seq<Card>, incoming: set<string>, bound: ElementId)
    requires UniqueIds(cards) && ElementsBelow(cards, bound)
    ensures forall c :: c in Survivors(cards, incoming) <==> c in cards && c.id in incoming
    ensures UniqueIds(Survivors(cards, incoming)) && ElementsBelow(Survivors(cards, incoming), bound)
  {
    SurvivorsMembers(cards, incoming);
    if cards != [] {
      ApartTail(cards, bound);
      SurvivorsFacts(cards[1..], incoming, bound);
      if cards[0].id in incoming {
        ApartCons(cards[0], Survivors(cards[1..], incoming), bound);
      } else {
        assert Survivors(cards, incoming) == Survivors(cards[1..], incoming);
      }
    }
  }

  function CardIds(cards: seq<Card>): set<string> {
    set c | c in cards :: c.id
  }

  /** One render of any incoming list over a container with unique ids, in closed form. */
  lemma RenderClosedForm(cards: seq<Card>, nodes: seq<NodeInfo>, base: ElementId)
    requires UniqueIds(cards) && ElementsBelow(cards, base)
    ensures Rendered(cards, nodes, base) == Shown(Survivors(cards, Ids(nodes)), CardIds(cards), nodes, base, |nodes|)
  {
    ExistingUnique(cards);
    KeptAreSurvivors(cards, base, nodes);
    SurvivorsFacts(cards, Ids(nodes), base);
    var existing, kept := Existing(cards), Survivors(cards, Ids(nodes));
    assert existing.Keys == CardIds(cards);
    forall id | id in existing && id in Ids(nodes)
      ensures exists c :: c in kept && c.id == id
    {
      var i :| 0 <= i < |cards| && cards[i].id == id;
      assert cards[i] in kept;
    }
    PlacedIsShown(kept, existing, nodes, base, |nodes|);
  }

  /** Two incoming nodes share an id that no card carried before. */
  ghost predicate NewIdTwice(known: set<string>, nodes: seq<NodeInfo>, k: nat) {
    exists i, j :: 0 <= i < j < k <= |nodes| && nodes[i].id == nodes[j].id && nodes[i].id !in known
  }

  lemma {:induction false} AppendedUnique(known: set<string>, nodes: seq<NodeInfo>, base: ElementId, k: nat)
    requires k <= |nodes|
    ensures UniqueIds(Appended(known, nodes, base, k)) <==> !NewIdTwice(known, nodes, k)
  {
    if k > 0 {
      AppendedUnique(known, nodes, base, k - 1);
      if NewIdTwice(known, nodes, k) {
        AppendedTwice(known, nodes, base, k);
      } else {
        AppendedOnce(known, nodes, base, k);
      }
    }
  }

  lemma AppendedTwice(known: set<string>, nodes: seq<NodeInfo>, base: ElementId, k: nat)
    requires 0 < k <= |nodes| && NewIdTwice(known, nodes, k)
    requires NewIdTwice(known, nodes, k - 1) ==> !UniqueIds(Appended(known, nodes, base, k - 1))
    ensures !UniqueIds(Appended(known, nodes, base, k))
  {
    var before, after := Appended(known, nodes, base, k - 1), Appended(known, nodes, base, k);
    if NewIdTwice(known, nodes, k - 1) {
      var p, q :| 0 <= p < q < |before| && before[p].id == before[q].id;
      assert after[p] == before[p] && after[q] == before[q];
    } else {
      var i, j :| 0 <= i < j < k && nodes[i].id == nodes[j].id && nodes[i].id !in known;
      AppendedFacts(known, nodes, base, k - 1);
      assert Built(nodes, base, i) in before;
      var p :| 0 <= p < |before| && before[p] == Built(nodes, base, i);
      assert after[p].id == after[|before|].id;
    }
  }

  lemma AppendedOnce(known: set<string>, nodes: seq<NodeInfo>, base: ElementId, k: nat)
    requires 0 < k <= |nodes| && !NewIdTwice(known, nodes, k)
    requires !NewIdTwice(known, nodes, k - 1) ==> UniqueIds(Appended(known, nodes, base, k - 1))
    ensures UniqueIds(Appended(known, nodes, base, k))
  {
    var before, last := Appended(known, nodes, base, k - 1), nodes[k - 1];
    AppendedFacts(known, nodes, base, k - 1);
    if last.id !in known {
      forall p | 0 <= p < |before|
        ensures before[p].id != last.id
      {
        assert before[p] in before;
        var j :| 0 <= j < k - 1 && before[p] == Built(nodes, base, j);
      }
    }
  }

  /** Surviving cards keep their relative order in front, the cards of new ids follow in incoming order. */
  lemma RenderOrder(cards: seq<Card>, nodes: seq<NodeInfo>, base: ElementId)
    requires UniqueIds(cards) && ElementsBelow(cards, base)
    ensures var r, kept := Rendered(cards, nodes, base), Survivors(cards, Ids(nodes));
            && |kept| <= |r|
            && (forall i | 0 <= i < |kept| ::
                  r[i] == Slot(kept[i], nodes, base, |nodes|) && r[i].id == kept[i].id && kept[i] in cards)
            && r[|kept|..] == Appended(CardIds(cards), nodes, base, |nodes|)
  {
    var kept := Survivors(cards, Ids(nodes));
    RenderClosedForm(cards, nodes, base);
    SurvivorsFacts(cards, Ids(nodes), base);
    forall i | 0 <= i < |kept|
      ensures Slot(kept[i], nodes, base, |nodes|).id == kept[i].id && kept[i] in cards
    {
      assert kept[i] in kept;
      SlotFacts(kept[i], nodes, base, |nodes|);
    }
  }

  lemma {:induction false} SurvivorsInOrder(cards: seq<Card>, incoming: set<string>, i: nat, j: nat)
    returns (p: nat, q: nat)
    requires i < j < |cards| && cards[i].id in incoming && cards[j].id in incoming
    ensures p < q < |Survivors(cards, incoming)|
    ensures Survivors(cards, incoming)[p] == cards[i] && Survivors(cards, incoming)[q] == cards[j]
  {
    var rest := Survivors(cards[1..], incoming);
    if i == 0 {
      SurvivorsMembers(cards[1..], incoming);
      assert cards[1..][j - 1] == cards[j] && cards[j] in rest;
      var k :| 0 <= k < |rest| && rest[k] == cards[j];
      p, q := 0, k + 1;
    } else {
      p, q := SurvivorsInOrder(cards[1..], incoming, i - 1, j - 1);
      if cards[0].id in incoming {
        p, q := p + 1, q + 1;
      }
    }
  }

  lemma {:induction false} AppendedInOrder(known: set<string>, nodes: seq<NodeInfo>, base: ElementId, k: nat, i: nat,
                                           j: nat)
    returns (p: nat, q: nat)
    requires i < j < k <= |nodes| && nodes[i].id !in known && nodes[j].id !in known
    ensures p < q < |Appended(known, nodes, base, k)|
    ensures Appended(known, nodes, base, k)[p] == Built(nodes, base, i)
    ensures Appended(known, nodes, base, k)[q] == Built(nodes, base, j)
  {
    if j < k - 1 {
      p, q := AppendedInOrder(known, nodes, base, k - 1, i, j);
    } else {
      var before := Appended(known, nodes, base, k - 1);
      AppendedFacts(known, nodes, base, k - 1);
      var m :| 0 <= m < |before| && before[m] == Built(nodes, base, i);
      p, q := m, |before|;
    }
  }

  /** Of two old cards whose nodes are still there, the one in front stays in front. */
  lemma OldCardsInOrder(cards: seq<Card>, nodes: seq<NodeInfo>, base: ElementId, i: nat, j: nat)
    returns (p: nat, q: nat)
    requires UniqueIds(cards) && ElementsBelow(cards, base)
    requires i < j < |cards| && cards[i].id in Ids(nodes) && cards[j].id in Ids(nodes)
    ensures p < q < |Rendered(cards, nodes, base)|
    ensures Rendered(cards, nodes, base)[p].id == cards[i].id && Rendered(cards, nodes, base)[q].id == cards[j].id
  {
    RenderOrder(cards, nodes, base);
    p, q := SurvivorsInOrder(cards, Ids(nodes), i, j);
  }

  /** The cards of new nodes stand in the order of the incoming list. */
  lemma NewCardsInOrder(cards: seq<Card>, nodes: seq<NodeInfo>, base: ElementId, i: nat, j: nat)
    returns (p: nat, q: nat)
    requires UniqueIds(cards) && ElementsBelow(cards, base)
    requires i < j < |nodes| && nodes[i].id !in CardIds(cards) && nodes[j].id !in CardIds(cards)
    ensures p < q < |Rendered(cards, nodes, base)|
    ensures Rendered(cards, nodes, base)[p] == Card(base + i, nodes[i].id, nodes[i].info)
    ensures Rendered(cards, nodes, base)[q] == Card(base + j, nodes[j].id, nodes[j].info)
  {
    var r, added := Rendered(cards, nodes, base), Appended(CardIds(cards), nodes, base, |nodes|);
    var n := |Survivors(cards, Ids(nodes))|;
    RenderOrder(cards, nodes, base);
    p, q := AppendedInOrder(CardIds(cards), nodes, base, |nodes|, i, j);
    assert r[n..][p] == r[n + p] && r[n..][q] == r[n + q];
    p, q := n + p, n + q;
  }

  lemma KnownInFront(cards: seq<Card>, nodes: seq<NodeInfo>, base: ElementId, p: nat)
    requires UniqueIds(cards) && ElementsBelow(cards, base) && p < |Rendered(cards, nodes, base)|
    ensures Rendered(cards, nodes, base)[p].id in CardIds(cards) <==> p < |Survivors(cards, Ids(nodes))|
  {
    var r, n := Rendered(cards, nodes, base), |Survivors(cards, Ids(nodes))|;
    RenderOrder(cards, nodes, base);
    if p >= n {
      AppendedFacts(CardIds(cards), nodes, base, |nodes|);
      assert r[p] == r[n..][p - n];
      assert r[p] in r[n..];
    }
  }

  /** No card of a new node stands before one that was there already. */
  lemma OldCardsFirst(cards: seq<Card>, nodes: seq<NodeInfo>, base: ElementId, p: nat, q: nat)
    requires UniqueIds(cards) && ElementsBelow(cards, base)
    requires p < |Rendered(cards, nodes, base)| && Rendered(cards, nodes, base)[p].id in CardIds(cards)
    requires q < |Rendered(cards, nodes, base)| && Rendered(cards, nodes, base)[q].id !in CardIds(cards)
    ensures p < q
  {
    KnownInFront(cards, nodes, base, p);
    KnownInFront(cards, nodes, base, q);
  }

  /** Every card shows an incoming node, under its id. */
  lemma RenderShowsIncoming(cards: seq<Card>, nodes: seq<NodeInfo>, base: ElementId, i: nat)
    requires UniqueIds(cards) && ElementsBelow(cards, base)
    requires i < |Rendered(cards, nodes, base)|
    ensures var c := Rendered(cards, nodes, base)[i];
            exists j: nat :: && j < |nodes| && c == Built(nodes, base, j)
                             && (c.id in CardIds(cards) ==> FirstWith(nodes, c.id, j))
  {
    var k, known, kept, r := |nodes|, CardIds(cards), Survivors(cards, Ids(nodes)), Rendered(cards, nodes, base);
    RenderOrder(cards, nodes, base);
    if i < |kept| {
      SurvivorsFacts(cards, Ids(nodes), base);
      assert kept[i] in kept;
      SlotFacts(kept[i], nodes, base, k);
      var n :| n in nodes && n.id == kept[i].id;
      var j :| 0 <= j < k && FirstWith(nodes, kept[i].id, j) && r[i] == Built(nodes, base, j);
    } else {
      AppendedFacts(known, nodes, base, k);
      assert r[i] == r[|kept|..][i - |kept|];
      assert r[i] in Appended(known, nodes, base, k);
      var j :| 0 <= j < k && r[i] == Built(nodes, base, j);
    }
  }

  lemma RenderUnique(cards: seq<Card>, nodes: seq<NodeInfo>, base: ElementId)
    requires UniqueIds(cards) && ElementsBelow(cards, base)
    ensures UniqueIds(Rendered(cards, nodes, base)) <==> !NewIdTwice(CardIds(cards), nodes, |nodes|)
  {
    var k, known, kept, r := |nodes|, CardIds(cards), Survivors(cards, Ids(nodes)), Rendered(cards, nodes, base);
    var added := Appended(known, nodes, base, k);
    RenderOrder(cards, nodes, base);
    SurvivorsFacts(cards, Ids(nodes), base);
    AppendedFacts(known, nodes, base, k);
    AppendedUnique(known, nodes, base, k);
    assert forall i | |kept| <= i < |r| :: r[i] == added[i - |kept|];
    if UniqueIds(added) {
      forall i, j | 0 <= i < j < |r|
        ensures r[i].id != r[j].id
      {
        if j >= |kept| { assert added[j - |kept|] in added; }
      }
    } else {
      var p, q :| 0 <= p < q < |added| && added[p].id == added[q].id;
      assert r[|kept| + p] == added[p] && r[|kept| + q] == added[q];
    }
  }

  ghost predicate ShowsSome(nodes: seq<NodeInfo>, c: Card) {
    exists n :: n in nodes && n.id == c.id && n.info == c.info
  }

  /** After a render the container shows exactly the incoming ids, each card an incoming info. Every
      id has exactly one card if and only if no id new to the container came twice. */
  lemma RenderResult(cards: seq<Card>, nodes: seq<NodeInfo>, base: ElementId)
    requires UniqueIds(cards) && ElementsBelow(cards, base)
    ensures CardIds(Rendered(cards, nodes, base)) == Ids(nodes)
    ensures forall c | c in Rendered(cards, nodes, base) :: ShowsSome(nodes, c)
    ensures UniqueIds(Rendered(cards, nodes, base)) <==> !NewIdTwice(CardIds(cards), nodes, |nodes|)
  {
    var r := Rendered(cards, nodes, base);
    RenderUnique(cards, nodes, base);
    forall c | c in r
      ensures ShowsSome(nodes, c) && c.id in Ids(nodes)
    {
      var i :| 0 <= i < |r| && r[i] == c;
      RenderShowsIncoming(cards, nodes, base, i);
      var j: nat :| j < |nodes| && c == Built(nodes, base, j);
      assert nodes[j] in nodes;
    }
    forall n | n in nodes
      ensures n.id in CardIds(r)
    {
      ShownCovers(cards, nodes, base, n);
    }
  }

  lemma ShownCovers(cards: seq<Card>, nodes: seq<NodeInfo>, base: ElementId, n: NodeInfo)
    requires UniqueIds(cards) && ElementsBelow(cards, base) && n in nodes
    ensures n.id in CardIds(Rendered(cards, nodes, base))
  {
    var k, known, kept, r := |nodes|, CardIds(cards), Survivors(cards, Ids(nodes)), Rendered(cards, nodes, base);
    RenderClosedForm(cards, nodes, base);
    SurvivorsFacts(cards, Ids(nodes), base);
    AppendedFacts(known, nodes, base, k);
    if n.id in known {
      var c :| c in cards && c.id == n.id;
      var i :| 0 <= i < |kept| && kept[i] == c;
      SlotFacts(kept[i], nodes, base, k);
      assert r[i] in r;
    } else {
      var j :| 0 <= j < k && nodes[j] == n;
      assert Built(nodes, base, j) in Appended(known, nodes, base, k);
      assert Built(nodes, base, j) in r;
    }
  }

  // ---------- any sequence of renders ----------

  ghost predicate UniqueNodes(nodes: seq<NodeInfo>) {
    forall i, j | 0 <= i < j < |nodes| :: nodes[i].id != nodes[j].id
  }

  /** The container after rendering every list in turn. */
  function Renders(cards: seq<Card>, lists: seq<seq<NodeInfo>>, base: ElementId): seq<Card>
    decreases |lists|
  {
    if lists == [] then cards
    else Renders(Rendered(cards, lists[0], base), lists[1..], base + |lists[0]|)
  }

  lemma RenderedBelow(cards: seq<Card>, nodes: seq<NodeInfo>, base: ElementId)
    requires UniqueIds(cards) && ElementsBelow(cards, base)
    ensures ElementsBelow(Rendered(cards, nodes, base), base + |nodes|)
  {
    WithoutSubset(cards, Gone(Existing(cards), Ids(nodes)), base);
    PlacedBelow(Without(cards, Gone(Existing(cards), Ids(nodes))), Existing(cards), nodes, base, |nodes|);
  }

  lemma {:induction false} PlacedBelow(cards: seq<Card>, existing: map<string, ElementId>, nodes: seq<NodeInfo>,
                                       base: ElementId, k: nat)
    requires k <= |nodes| && ElementsBelow(cards, base)
    ensures ElementsBelow(Placed(cards, existing, nodes, base, k), base + k)
  {
    if k > 0 {
      PlacedBelow(cards, existing, nodes, base, k - 1);
    }
  }

  lemma RenderKeeps(cards: seq<Card>, nodes: seq<NodeInfo>, base: ElementId)
    requires UniqueIds(cards) && ElementsBelow(cards, base) && UniqueNodes(nodes)
    ensures UniqueIds(Rendered(cards, nodes, base)) && ElementsBelow(Rendered(cards, nodes, base), base + |nodes|)
    ensures CardIds(Rendered(cards, nodes, base)) == Ids(nodes)
    ensures forall c | c in Rendered(cards, nodes, base) :: ShowsSome(nodes, c)
  {
    RenderResult(cards, nodes, base);
    RenderedBelow(cards, nodes, base);
  }

  /** Whatever lists with unique ids are rendered, starting from the empty container or any other one
      with unique ids, the container ends with exactly one card for every node of the last list, showing
      that node's info. */
  lemma {:induction false} RendersStayUnique(cards: seq<Card>, lists: seq<seq<NodeInfo>>, base: ElementId)
    requires UniqueIds(cards) && ElementsBelow(cards, base)
    requires forall nodes | nodes in lists :: UniqueNodes(nodes)
    ensures UniqueIds(Renders(cards, lists, base))
    ensures lists != [] ==> CardIds(Renders(cards, lists, base)) == Ids(lists[|lists| - 1])
    ensures lists != [] ==> forall c | c in Renders(cards, lists, base) :: ShowsSome(lists[|lists| - 1], c)
    decreases |lists|
  {
    if lists != [] {
      RenderKeeps(cards, lists[0], base);
      RendersStayUnique(Rendered(cards, lists[0], base), lists[1..], base + |lists[0]|);
    }
  }

  // ---------- containers with repeated ids ----------

  /** No later card has the same id. */
  ghost predicate IsLast(cards: seq<Card>, i: int)
    requires 0 <= i < |cards|
  {
    forall j | i < j < |cards| :: cards[j].id != cards[i].id
  }

  /** Whatever the map holds is some card's element. */
  lemma {:induction false} ExistingSource(cards: seq<Card>, id: string) returns (i: nat)
    requires id in Existing(cards)
    ensures i < |cards| && cards[i].id == id && cards[i].elem == Existing(cards)[id]
  {
    var n := |cards| - 1;
    if id == cards[n].id {
      i := n;
    } else {
      i := ExistingSource(cards[..n], id);
    }
  }

  /** With or without repeated ids, the map knows the last card of every id, and no other. */
  lemma {:induction false} ExistingIsLast(cards: seq<Card>, bound: ElementId, i: nat)
    requires ElementsBelow(cards, bound) && i < |cards|
    ensures cards[i].id in Existing(cards)
    ensures Existing(cards)[cards[i].id] == cards[i].elem <==> IsLast(cards, i)
  {
    var n := |cards| - 1;
    if i < n {
      assert cards[..n][i] == cards[i];
      ExistingIsLast(cards[..n], bound, i);
      LastExtended(cards, i);
    }
  }

  lemma LastExtended(cards: seq<Card>, i: nat)
    requires i < |cards| - 1
    ensures var n := |cards| - 1; IsLast(cards, i) <==> IsLast(cards[..n], i) && cards[n].id != cards[i].id
  {
    var n := |cards| - 1;
    assert forall j | 0 <= j < n :: cards[..n][j] == cards[j];
  }

  /** A card that no incoming node finds in the map stays where it is. */
  lemma {:induction false} PlacedKeeps(cards: seq<Card>, existing: map<string, ElementId>, nodes: seq<NodeInfo>,
                                       base: ElementId, k: nat, c: Card)
    requires k <= |nodes| && c in cards && forall id | id in existing && id in Ids(nodes) :: existing[id] != c.elem
    ensures c in Placed(cards, existing, nodes, base, k)
  {
    if k > 0 {
      PlacedKeeps(cards, existing, nodes, base, k - 1, c);
      var before := Placed(cards, existing, nodes, base, k - 1);
      var i :| 0 <= i < |before| && before[i] == c;
      assert nodes[k - 1] in nodes;
      assert Placed(cards, existing, nodes, base, k)[i] == c;
    }
  }

  /** A card that one does find is gone afterwards. */
  lemma {:induction false} PlacedDrops(cards: seq<Card>, existing: map<string, ElementId>, nodes: seq<NodeInfo>,
                                       base: ElementId, k: nat, c: Card)
    requires k <= |nodes| && c.elem < base && c.id in existing && existing[c.id] == c.elem
    requires exists j :: 0 <= j < k && nodes[j].id == c.id
    ensures c !in Placed(cards, existing, nodes, base, k)
  {
    if nodes[k - 1].id != c.id {
      PlacedDrops(cards, existing, nodes, base, k - 1, c);
    }
  }

  /** One render of any non-empty or empty list over any container, repeated ids included, keeps an old card
      as it is if and only if a later card has its id. Of every id only the last card is looked at: it makes
      room for the incoming one or is removed, and the cards before it stay, whatever they show. */
  lemma OldCardKeptIff(cards: seq<Card>, nodes: seq<NodeInfo>, base: ElementId, i: nat)
    requires ElementsBelow(cards, base) && i < |cards|
    ensures cards[i] in Rendered(cards, nodes, base) <==> !IsLast(cards, i)
  {
    var c, existing, incoming := cards[i], Existing(cards), Ids(nodes);
    var kept := Without(cards, Gone(existing, incoming));
    ExistingIsLast(cards, base, i);
    WithoutSubset(cards, Gone(existing, incoming), base);
    if IsLast(cards, i) {
      if c.id in incoming {
        var n :| n in nodes && n.id == c.id;
        var j :| 0 <= j < |nodes| && nodes[j] == n;
        PlacedDrops(kept, existing, nodes, base, |nodes|, c);
      } else {
        assert c.elem in Gone(existing, incoming);
        PlacedAddsNew(kept, existing, nodes, base, |nodes|, c);
      }
    } else {
      forall id | id in existing
        ensures existing[id] != c.elem
      {
        var j := ExistingSource(cards, id);
        assert cards[j].elem == cards[i].elem ==> j == i;
      }
      PlacedKeeps(kept, existing, nodes, base, |nodes|, c);
    }
  }

  /** Placing adds only cards built in this render. */
  lemma {:induction false} PlacedAddsNew(cards: seq<Card>, existing: map<string, ElementId>, nodes: seq<NodeInfo>,
                                         base: ElementId, k: nat, c: Card)
    requires k <= |nodes| && c.elem < base && c !in cards
    ensures c !in Placed(cards, existing, nodes, base, k)
  {
    if k > 0 {
      PlacedAddsNew(cards, existing, nodes, base, k - 1, c);
    }
  }
}
