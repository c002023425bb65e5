/**
 The card list of the control center and the page container that shows it. An element of
 the container is known by its key; its id is the id of the card it was made for. Cards
 that were dropped stay in the container while they fade out.
*/
module Cards {
  import opened Collections

  datatype Element = Element(key: nat, id: string)
  datatype Card = Card(id: string, key: nat)   // key: the card's own element

  // ---- the page operations, as jQuery performs them

  // Taking an element out of the container.
  function Without(c: seq<Element>, key: nat): seq<Element>
  {
    if c == [] then [] else if c[0].key == key then Without(c[1..], key) else [c[0]] + Without(c[1..], key)
  }

  // How many elements a selector for an id finds.
  function Matches(c: seq<Element>, id: string): nat
  {
    if c == [] then 0 else (if c[0].id == id then 1 else 0) + Matches(c[1..], id)
  }

  // Inserting behind every match: the last one gets the element, the others get clones.
  function AfterEach(c: seq<Element>, id: string, el: Element, spare: nat): seq<Element>
    decreases |c|, 0
  {
    if c == [] then [] else [c[0]] + Behind(c[0], c[1..], id, el, spare)
  }

  // What follows an element: its insertion, if it is a match, and the rest of the container.
  function Behind(first: Element, c: seq<Element>, id: string, el: Element, spare: nat): seq<Element>
    decreases |c|, 1
  {
    if first.id != id then AfterEach(c, id, el, spare)
    else if Matches(c, id) == 0 then [el] + AfterEach(c, id, el, spare)
    else [Element(spare, el.id)] + AfterEach(c, id, el, spare + 1)
  }

  // `position`: to the front, or behind the elements that the selector finds.
  function Position(c: seq<Element>, el: Element, after: Option<string>, spare: nat): seq<Element>
    requires after.Some? ==> after.value != el.id
  {
    var rest := Without(c, el.key);
    if after.None? || Matches(c, after.value) == 0 then [el] + rest
    else AfterEach(rest, after.value, el, spare)
  }

  // ---- what one placement does

  predicate Leads(c: seq<Element>, ids: seq<string>)
  {
    |ids| <= |c| && forall i :: 0 <= i < |ids| ==> c[i].id == ids[i]
  }

  // Every element with this key is this element.
  predicate Owns(c: seq<Element>, el: Element)
  {
    forall i :: 0 <= i < |c| && c[i].key == el.key ==> c[i] == el
  }

  lemma {:induction false} WithoutKeepsPrefix(c: seq<Element>, key: nat, k: nat)
    requires k <= |c| && forall i :: 0 <= i < k ==> c[i].key != key
    ensures |Without(c, key)| >= k && Without(c, key)[..k] == c[..k]
  {
    if k != 0 {
      WithoutKeepsPrefix(c[1..], key, k - 1);
      assert c[..k] == [c[0]] + c[1..][..k - 1];
    }
  }

  lemma {:induction false} AfterEachAt(c: seq<Element>, id: string, el: Element, spare: nat, k: nat)
    requires k < |c| && c[k].id == id && forall i :: 0 <= i < k ==> c[i].id != id
    ensures var d := AfterEach(c, id, el, spare);
            |d| > k + 1 && d[..k + 1] == c[..k + 1]
            && d[k + 1] == if Matches(c, id) == 1 then el else Element(spare, el.id)
  {
    var rest := Behind(c[0], c[1..], id, el, spare);
    assert AfterEach(c, id, el, spare) == [c[0]] + rest;
    assert c[..k + 1] == [c[0]] + c[1..][..k];
    if k != 0 {
      AfterEachAt(c[1..], id, el, spare, k - 1);
    }
  }

  lemma {:induction false} WithoutMatches(c: seq<Element>, el: Element, id: string)
    requires Owns(c, el) && el.id != id
    ensures Matches(Without(c, el.key), id) == Matches(c, id)
  {
    if c != [] { WithoutMatches(c[1..], el, id); }
  }

  lemma {:induction false} MatchesAt(c: seq<Element>, id: string, k: nat)
    requires k < |c| && c[k].id == id
    ensures Matches(c, id) > 0
  {
    if k != 0 { MatchesAt(c[1..], id, k - 1); }
  }

  // The id behind which the next one goes.
  function Last(ids: seq<string>): Option<string> { if ids == [] then None else Some(ids[|ids| - 1]) }

  /**
   The placed ids stay in front and the new id comes right behind them. It is the card's
   own element unless the selector found more than one element.
  */
  lemma PlacedNext(c: seq<Element>, ids: seq<string>, el: Element, spare: nat)
    requires Leads(c, ids) && Distinct(ids) && el.id !in ids && Owns(c, el)
    ensures var d := Position(c, el, Last(ids), spare);
            Leads(d, ids + [el.id]) && d[..|ids|] == c[..|ids|]
            && d[|ids|] == if ids == [] || Matches(c, ids[|ids| - 1]) == 1 then el else Element(spare, el.id)
  {
    hide Without, AfterEach, Matches;
    var k := |ids|;
    if k != 0 {
      var id := ids[k - 1];
      assert el.id != id;
      PrefixNotOwn(c, ids, el);
      WithoutKeepsPrefix(c, el.key, k);
      var rest := Without(c, el.key);
      SamePrefix(rest, c, k);
      MatchesAt(c, id, k - 1);
      WithoutMatches(c, el, id);
      AfterEachAt(rest, id, el, spare, k - 1);
      SamePrefix(AfterEach(rest, id, el, spare), c, k);
    }
  }

  lemma PrefixNotOwn(c: seq<Element>, ids: seq<string>, el: Element)
    requires Leads(c, ids) && el.id !in ids && Owns(c, el)
    ensures forall i :: 0 <= i < |ids| ==> c[i].key != el.key
  {
    forall i | 0 <= i < |ids| ensures c[i].key != el.key {
      assert c[i].id == ids[i];
    }
  }

  lemma SamePrefix(d: seq<Element>, c: seq<Element>, k: nat)
    requires k <= |d| && k <= |c| && d[..k] == c[..k]
    ensures forall i :: 0 <= i < k ==> d[i] == c[i]
  {
    forall i | 0 <= i < k ensures d[i] == c[i] { assert d[..k][i] == c[..k][i]; }
  }

  // ---- what one placement leaves alone

  // Elements with the id of el that are not el.
  function Others(c: seq<Element>, el: Element): nat
  {
    if c == [] then 0 else (if c[0].id == el.id && c[0].key != el.key then 1 else 0) + Others(c[1..], el)
  }

  lemma {:induction false} OthersApart(c: seq<Element>, id: string, el: Element, spare: nat, e: Element)
    requires e.id != el.id
    ensures Others(AfterEach(c, id, el, spare), e) == Others(c, e)
    decreases |c|
  {
    if c != [] {
      OthersApart(c[1..], id, el, spare, e);
      OthersApart(c[1..], id, el, spare + 1, e);
      OthersCons(el, AfterEach(c[1..], id, el, spare), e);
      OthersCons(Element(spare, el.id), AfterEach(c[1..], id, el, spare + 1), e);
      OthersCons(c[0], Behind(c[0], c[1..], id, el, spare), e);
    }
  }

  lemma OthersCons(x: Element, c: seq<Element>, e: Element)
    ensures Others([x] + c, e) == (if x.id == e.id && x.key != e.key then 1 else 0) + Others(c, e)
  {
  }

  lemma {:induction false} OthersWithout(c: seq<Element>, el: Element, e: Element)
    requires Owns(c, el) && e.id != el.id
    ensures Others(Without(c, el.key), e) == Others(c, e)
  {
    if c != [] { OthersWithout(c[1..], el, e); }
  }

  lemma {:induction false} OthersAreRest(c: seq<Element>, el: Element)
    ensures Matches(Without(c, el.key), el.id) == Others(c, el)
  {
    if c != [] { OthersAreRest(c[1..], el); }
  }

  lemma {:induction false} MatchesAfterEach(c: seq<Element>, id: string, el: Element, spare: nat)
    requires id != el.id
    ensures Matches(AfterEach(c, id, el, spare), el.id) == Matches(c, el.id) + Matches(c, id)
    decreases |c|
  {
    if c != [] {
      MatchesAfterEach(c[1..], id, el, spare);
      MatchesAfterEach(c[1..], id, el, spare + 1);
      MatchesCons(el, AfterEach(c[1..], id, el, spare), el.id);
      MatchesCons(Element(spare, el.id), AfterEach(c[1..], id, el, spare + 1), el.id);
      MatchesCons(c[0], Behind(c[0], c[1..], id, el, spare), el.id);
    }
  }

  lemma MatchesCons(x: Element, c: seq<Element>, id: string)
    ensures Matches([x] + c, id) == (if x.id == id then 1 else 0) + Matches(c, id)
  {
  }

  // Every element of d comes from c, is el, or is a clone with a spare key.
  ghost predicate From(d: seq<Element>, c: seq<Element>, el: Element, spare: nat, last: nat)
  {
    forall i :: 0 <= i < |d| ==> d[i] in c || d[i] == el || spare <= d[i].key < last
  }

  lemma {:induction false} AfterEachFrom(c: seq<Element>, id: string, el: Element, spare: nat)
    ensures From(AfterEach(c, id, el, spare), c, el, spare, spare + Matches(c, id))
    decreases |c|
  {
    if c != [] {
      AfterEachFrom(c[1..], id, el, spare);
      AfterEachFrom(c[1..], id, el, spare + 1);
      assert forall e :: e in c[1..] ==> e in c;
    }
  }

  lemma {:induction false} WithoutFrom(c: seq<Element>, key: nat)
    ensures forall i :: 0 <= i < |Without(c, key)| ==> Without(c, key)[i] in c
  {
    if c != [] {
      WithoutFrom(c[1..], key);
      assert forall e :: e in c[1..] ==> e in c;
    }
  }

  // The first key that is certainly unused afterwards.
  function SpareAfter(c: seq<Element>, after: Option<string>, spare: nat): nat
  {
    if after.None? then spare else spare + Matches(c, after.value)
  }

  lemma PositionFrom(c: seq<Element>, el: Element, after: Option<string>, spare: nat)
    requires Owns(c, el) && (after.Some? ==> after.value != el.id)
    ensures From(Position(c, el, after, spare), c, el, spare, SpareAfter(c, after, spare))
  {
    WithoutFrom(c, el.key);
    var rest := Without(c, el.key);
    if after.Some? && Matches(c, after.value) != 0 {
      AfterEachFrom(rest, after.value, el, spare);
      WithoutMatches(c, el, after.value);
    }
  }

  lemma PositionCounts(c: seq<Element>, el: Element, after: Option<string>, spare: nat, e: Element)
    requires Owns(c, el) && (after.Some? ==> after.value != el.id && Matches(c, after.value) > 0)
    ensures var d := Position(c, el, after, spare);
            (e.id != el.id ==> Others(d, e) == Others(c, e))
            && Matches(d, el.id) == Others(c, el) + if after.None? then 1 else Matches(c, after.value)
  {
    OthersAreRest(c, el);
    var rest := Without(c, el.key);
    if after.Some? {
      MatchesAfterEach(rest, after.value, el, spare);
      WithoutMatches(c, el, after.value);
    }
    if e.id != el.id {
      OthersWithout(c, el, e);
      if after.Some? { OthersApart(rest, after.value, el, spare, e); }
    }
  }

  // ---- placing the cards of a list one after the other

  ghost predicate AllOwn(c: seq<Element>, owns: seq<Element>)
  {
    |owns| <= |c| && forall j :: 0 <= j < |owns| ==> c[j] == owns[j]
  }

  // No stray element has the id of a listed card, the last one excepted.
  ghost predicate NoStrays(c: seq<Element>, owns: seq<Element>)
  {
    forall j :: 0 <= j < |owns| - 1 ==> Others(c, owns[j]) == 0
  }

  // The listed ids, whose cards have the elements `owns`, have been placed; c0 was before.
  ghost predicate Placed(c0: seq<Element>, c: seq<Element>, ids: seq<string>, owns: seq<Element>)
  {
    |owns| == |ids| && (forall j :: 0 <= j < |ids| ==> owns[j].id == ids[j])
    && Leads(c, ids)
    && (AllOwn(c, owns) <==> NoStrays(c0, owns))
    && (ids != [] && AllOwn(c, owns) ==> Matches(c, ids[|ids| - 1]) == 1 + Others(c0, owns[|ids| - 1]))
    && (forall e: Element :: e.id !in ids ==> Others(c, e) == Others(c0, e))
  }

  lemma PlaceNext(c0: seq<Element>, c: seq<Element>, ids: seq<string>, owns: seq<Element>, el: Element, spare: nat)
    requires Placed(c0, c, ids, owns) && Distinct(ids + [el.id]) && Owns(c, el) && el.key < spare
    ensures ids != [] ==> ids[|ids| - 1] != el.id
    ensures Placed(c0, Position(c, el, Last(ids), spare), ids + [el.id], owns + [el])
  {
    hide Position, Matches, Others, Owns;
    var k := |ids|;
    LastApart(ids, el.id);
    PlacedNext(c, ids, el, spare);
    var d := Position(c, el, Last(ids), spare);
    if k != 0 { MatchesAt(c, ids[k - 1], k - 1); }
    PositionCounts(c, el, Last(ids), spare, el);
    forall e: Element | e.id !in ids + [el.id] ensures Others(d, e) == Others(c0, e) {
      assert e.id != el.id && e.id !in ids;
      PositionCounts(c, el, Last(ids), spare, e);
    }
    StraysNext(c0, owns, el);
    OwnNext(c, d, owns, el);
  }

  lemma LastApart(ids: seq<string>, id: string)
    requires Distinct(ids + [id])
    ensures id !in ids && Distinct(ids)
  {
    var all := ids + [id];
    forall i | 0 <= i < |ids| ensures ids[i] != id { assert all[i] != all[|ids|]; }
    forall i, j | 0 <= i < j < |ids| ensures ids[i] != ids[j] { assert all[i] != all[j]; }
  }

  lemma OwnNext(c: seq<Element>, d: seq<Element>, owns: seq<Element>, el: Element)
    requires |owns| <= |c| && |owns| < |d| && d[..|owns|] == c[..|owns|]
    ensures AllOwn(d, owns + [el]) <==> AllOwn(c, owns) && d[|owns|] == el
  {
    var k := |owns|;
    SamePrefix(d, c, k);
    if AllOwn(d, owns + [el]) {
      forall j | 0 <= j < k ensures c[j] == owns[j] { assert d[j] == (owns + [el])[j]; }
      assert d[k] == (owns + [el])[k];
    }
  }

  lemma StraysNext(c0: seq<Element>, owns: seq<Element>, el: Element)
    ensures NoStrays(c0, owns + [el]) <==> NoStrays(c0, owns) && (owns != [] ==> Others(c0, owns[|owns| - 1]) == 0)
  {
    var all := owns + [el];
    assert forall j :: 0 <= j < |owns| ==> all[j] == owns[j];
  }

  // ---- the cards and their elements

  function Own(c: Card): Element { Element(c.key, c.id) }

  // Ids and keys of the cards are distinct, no key is used up, and the container has no
  // other element under the key of a card.
  ghost predicate WellKept(cards: seq<Card>, container: seq<Element>, nextKey: nat)
  {
    (forall i, j :: 0 <= i < j < |cards| ==> cards[i].id != cards[j].id && cards[i].key != cards[j].key)
    && (forall i :: 0 <= i < |cards| ==> cards[i].key < nextKey && Owns(container, Own(cards[i])))
    && (forall i :: 0 <= i < |container| ==> container[i].key < nextKey)
  }

  lemma PlacingKeeps(cards: seq<Card>, c: seq<Element>, nextKey: nat, k: nat, after: Option<string>)
    requires WellKept(cards, c, nextKey) && k < |cards| && (after.Some? ==> after.value != cards[k].id)
    ensures WellKept(cards, Position(c, Own(cards[k]), after, nextKey), SpareAfter(c, after, nextKey))
  {
    hide Position;
    var el := Own(cards[k]);
    var d := Position(c, el, after, nextKey);
    PositionFrom(c, el, after, nextKey);
    forall i | 0 <= i < |cards| ensures Owns(d, Own(cards[i])) {
      assert Owns(c, Own(cards[i]));
      forall x | 0 <= x < |d| && d[x].key == cards[i].key ensures d[x] == Own(cards[i]) {
        if d[x] == el { assert i == k; }
      }
    }
  }

  // A card with a new element, which is not in the container yet.
  lemma NewCardKeeps(cards: seq<Card>, c: seq<Element>, nextKey: nat, id: string)
    requires WellKept(cards, c, nextKey) && forall i :: 0 <= i < |cards| ==> cards[i].id != id
    ensures WellKept(cards + [Card(id, nextKey)], c, nextKey + 1)
  {
  }

  predicate Has(cards: seq<Card>, id: string)
  {
    exists i :: 0 <= i < |cards| && cards[i].id == id
  }

  // The cards whose ids the server still lists, in their old order.
  function Kept(cards: seq<Card>, server: seq<string>): (r: seq<Card>)
    ensures forall c :: c in r ==> c in cards && c.id in server
  {
    if cards == [] then []
    else
      var c := cards[|cards| - 1];
      Kept(cards[..|cards| - 1], server) + if c.id in server then [c] else []
  }

  // The listed ids without a card, in the server's order.
  function Missing(server: seq<string>, cards: seq<Card>): seq<string>
  {
    if server == [] then []
    else
      var id := server[|server| - 1];
      Missing(server[..|server| - 1], cards) + if Has(cards, id) then [] else [id]
  }

  lemma {:induction false} KeptKeeps(cards: seq<Card>, server: seq<string>, c: seq<Element>, nextKey: nat)
    requires WellKept(cards, c, nextKey)
    ensures WellKept(Kept(cards, server), c, nextKey)
  {
    hide Owns;
    if cards != [] {
      var init, last := cards[..|cards| - 1], cards[|cards| - 1];
      KeptKeeps(init, server, c, nextKey);
      forall x | x in init ensures x.id != last.id && x.key != last.key {
        var i :| 0 <= i < |init| && init[i] == x;
        assert cards[i] == x;
      }
      if last.id in server { OneMoreKept(Kept(init, server), last, c, nextKey); }
    }
  }

  lemma OneMoreKept(cards: seq<Card>, last: Card, c: seq<Element>, nextKey: nat)
    requires WellKept(cards, c, nextKey) && last.key < nextKey && Owns(c, Own(last))
    requires forall x :: x in cards ==> x.id != last.id && x.key != last.key
    ensures WellKept(cards + [last], c, nextKey)
  {
    hide Owns;
  }

  lemma {:induction false} KeptHas(cards: seq<Card>, server: seq<string>, id: string)
    ensures Has(Kept(cards, server), id) <==> Has(cards, id) && id in server
  {
    if cards != [] {
      var init, last := cards[..|cards| - 1], cards[|cards| - 1];
      assert cards == init + [last];
      KeptHas(init, server, id);
      HasSnoc(init, last, id);
      HasSnoc(Kept(init, server), last, id);
      if last.id !in server { assert Kept(cards, server) == Kept(init, server); }
    }
  }

  lemma HasSnoc(cards: seq<Card>, c: Card, id: string)
    ensures Has(cards + [c], id) <==> Has(cards, id) || c.id == id
  {
    var all := cards + [c];
    if Has(cards, id) {
      var i :| 0 <= i < |cards| && cards[i].id == id;
      assert all[i].id == id;
    }
    if c.id == id { assert all[|cards|].id == id; }
  }

  function CardIds(cards: seq<Card>): (r: seq<string>)
  {
    seq(|cards|, i requires 0 <= i < |cards| => cards[i].id)
  }

  // ---- leftovers, seen from before the call

  // The element is that of a card, or no card has its id and the element is new.
  predicate KeptOrNew(cards: seq<Card>, firstKey: nat, el: Element)
  {
    if Has(cards, el.id) then Card(el.id, el.key) in cards else el.key >= firstKey
  }

  /** No element has the id of a listed card, the last one excepted, unless a card owns it. */
  predicate NoLeftovers(cards: seq<Card>, container: seq<Element>, server: seq<string>)
  {
    forall j, x :: 0 <= j < |server| - 1 && 0 <= x < |container| && container[x].id == server[j]
                   ==> Card(server[j], container[x].key) in cards
  }

  lemma {:induction false} NoOthers(c: seq<Element>, el: Element)
    ensures Others(c, el) == 0 <==> forall x :: 0 <= x < |c| && c[x].id == el.id ==> c[x].key == el.key
  {
    if c != [] {
      var rest := c[1..];
      NoOthers(rest, el);
      assert forall x :: 0 < x < |c| ==> c[x] == rest[x - 1];
      assert forall x :: 0 <= x < |rest| ==> rest[x] == c[x + 1];
    }
  }

  // What a card owns, seen from its element.
  lemma OwnedBy(cards: seq<Card>, container: seq<Element>, nextKey: nat, el: Element, x: nat)
    requires WellKept(cards, container, nextKey) && KeptOrNew(cards, nextKey, el)
    requires x < |container| && container[x].id == el.id
    ensures container[x].key == el.key <==> Card(el.id, container[x].key) in cards
  {
    var c := Card(el.id, container[x].key);
    if c in cards {
      HasMember(cards, c);
      var i :| 0 <= i < |cards| && cards[i] == c;
      var k :| 0 <= k < |cards| && cards[k] == Card(el.id, el.key);
      assert i == k;
    }
  }

  lemma LeftoversAreStrays(cards: seq<Card>, container: seq<Element>, nextKey: nat, server: seq<string>,
                           owns: seq<Element>)
    requires WellKept(cards, container, nextKey) && |owns| == |server|
    requires forall j :: 0 <= j < |server| ==> owns[j].id == server[j] && KeptOrNew(cards, nextKey, owns[j])
    ensures NoStrays(container, owns) <==> NoLeftovers(cards, container, server)
  {
    hide WellKept, KeptOrNew, Others;
    forall j | 0 <= j < |server| - 1
      ensures Others(container, owns[j]) == 0
              <==> forall x :: 0 <= x < |container| && container[x].id == server[j] ==>
                  Card(server[j], container[x].key) in cards
    {
      NoOthers(container, owns[j]);
      forall x | 0 <= x < |container| && container[x].id == server[j]
        ensures container[x].key == owns[j].key <==> Card(server[j], container[x].key) in cards
      {
        OwnedBy(cards, container, nextKey, owns[j], x);
      }
    }
  }

  // Cards created since `firstKey` was the next key, for ids without a card.
  ghost predicate AllNew(kept: seq<Card>, created: seq<Card>, firstKey: nat)
  {
    forall c :: c in created ==> c.key >= firstKey && !Has(kept, c.id)
  }

  /**
   The elements of three calls, for ["A", "B"], ["B"] and ["A", "B"], when the first A is
   still fading out at the end: B is represented by a clone, its own element stands last.
  */
  lemma CloneAppears()
    ensures var a, b, a' := Element(0, "A"), Element(1, "B"), Element(2, "A");
            var first := Position(Position([], a, None, 1), b, Some("A"), 2);
            var second := Position(first, b, None, 2);
            var third := Position(Position(second, a', None, 3), b, Some("A"), 3);
            first == [a, b] && second == [b, a] && third == [a', Element(3, "B"), a, b]
            && !NoLeftovers([Card("B", 1)], second, ["A", "B"])
  {
    var a, b, a' := Element(0, "A"), Element(1, "B"), Element(2, "A");
    PlacedFirst(a, b);
    PlacedAgain(a, b, a');
    PlacedBehindBoth(a, b, a');
    assert ["A", "B"][0] == "A" && [b, a][1].id == "A";
  }

  lemma PlacedFirst(a: Element, b: Element)
    requires a == Element(0, "A") && b == Element(1, "B")
    ensures Position([], a, None, 1) == [a] && Position([a], b, Some("A"), 2) == [a, b]
    ensures Position([a, b], b, None, 2) == [b, a]
  {
    WithoutCons(a, [], 1);
    MatchesCons(a, [], "A");
    BehindMatch(a, [], "A", b, 2);
    WithoutCons(b, [], 1);
    WithoutCons(a, [b], 1);
    assert [a] + [] == [a] && [a] + [b] == [a, b] && [b] + [] == [b];
  }

  lemma PlacedAgain(a: Element, b: Element, a': Element)
    requires a == Element(0, "A") && b == Element(1, "B") && a' == Element(2, "A")
    ensures Position([b, a], a', None, 3) == [a', b, a]
  {
    hide Without, AfterEach, Matches;
    OnNothing();
    WithoutCons(a, [], 2);
    WithoutCons(b, [a], 2);
    assert [b] + [a] == [b, a] && [a'] + [b, a] == [a', b, a] && [a] + [] == [a];
  }

  lemma PlacedBehindBoth(a: Element, b: Element, a': Element)
    requires a == Element(0, "A") && b == Element(1, "B") && a' == Element(2, "A")
    ensures Position([a', b, a], b, Some("A"), 3) == [a', Element(3, "B"), a, b]
  {
    hide Without, AfterEach, Matches;
    OnNothing();
    var ba := [b, a];
    assert [b] + [a] == ba && [a'] + ba == [a', b, a] && [a] + [] == [a] && [b] + [] == [b];
    MatchesCons(a, [], "A");
    MatchesCons(b, [a], "A");
    MatchesCons(a', ba, "A");
    WithoutCons(a, [], 1);
    WithoutCons(b, [a], 1);
    WithoutCons(a', ba, 1);
    assert [] + [a] == [a] && [a'] + [a] == [a', a];
    BehindMatch(a', [a], "A", b, 3);
    BehindMatch(a, [], "A", b, 4);
  }

  lemma OnNothing()
    ensures forall key :: Without([], key) == []
    ensures forall id :: Matches([], id) == 0
    ensures forall id, el, spare :: AfterEach([], id, el, spare) == []
  {
  }

  lemma WithoutCons(x: Element, c: seq<Element>, key: nat)
    ensures Without([x] + c, key) == (if x.key == key then [] else [x]) + Without(c, key)
  {
    assert ([x] + c)[1..] == c;
  }

  lemma BehindMatch(x: Element, c: seq<Element>, id: string, el: Element, spare: nat)
    requires x.id == id
    ensures AfterEach([x] + c, id, el, spare)
         == [x] + if Matches(c, id) == 0 then [el] + AfterEach(c, id, el, spare)
                  else [Element(spare, el.id)] + AfterEach(c, id, el, spare + 1)
  {
    assert ([x] + c)[1..] == c;
  }

  // ---- the second loop: the listed ids one after the other

  ghost predicate Listed(kept: seq<Card>, created: seq<Card>, ids: seq<string>, owns: seq<Element>)
  {
    CardIds(created) == Missing(ids, kept)
    && (forall id :: Has(kept + created, id) <==> Has(kept, id) || id in ids)
    && |owns| == |ids|
    && forall j :: 0 <= j < |ids| ==> Card(ids[j], owns[j].key) in kept + created
  }

  lemma MissingSnoc(ids: seq<string>, id: string, kept: seq<Card>)
    ensures Missing(ids + [id], kept) == Missing(ids, kept) + if Has(kept, id) then [] else [id]
  {
    assert (ids + [id])[..|ids + [id]| - 1] == ids;
  }

  lemma ListedFound(kept: seq<Card>, created: seq<Card>, ids: seq<string>, owns: seq<Element>, m: nat)
    requires Listed(kept, created, ids, owns) && m < |kept + created| && (kept + created)[m].id !in ids
    ensures Listed(kept, created, ids + [(kept + created)[m].id], owns + [Own((kept + created)[m])])
  {
    var all := kept + created;
    var id := all[m].id;
    assert Has(all, id);
    MissingSnoc(ids, id, kept);
    assert Card(id, all[m].key) == all[m];
  }

  lemma ListedNew(kept: seq<Card>, created: seq<Card>, ids: seq<string>, owns: seq<Element>, c: Card)
    requires Listed(kept, created, ids, owns) && !Has(kept + created, c.id)
    ensures Listed(kept, created + [c], ids + [c.id], owns + [Own(c)])
  {
    var all := kept + created;
    assert kept + (created + [c]) == all + [c];
    assert !Has(kept, c.id);
    MissingSnoc(ids, c.id, kept);
    assert CardIds(created + [c]) == CardIds(created) + [c.id];
    forall id ensures Has(all + [c], id) <==> Has(kept, id) || id in ids + [c.id] {
      HasSnoc(all, c, id);
    }
  }

  class ControlCenter {
    var cards: seq<Card>
    var container: seq<Element>
    var nextKey: nat

    ghost predicate Valid()
      reads this
    {
      WellKept(cards, container, nextKey)
    }

    constructor ()
      ensures Valid() && cards == [] && container == []
    {
      cards, container, nextKey := [], [], 0;
    }

    // A dropped card has faded out; its element goes.
    method FadedOut(key: nat)
      requires Valid() && forall i :: 0 <= i < |cards| ==> cards[i].key != key
      modifies this`container
      ensures Valid() && container == Without(old(container), key)
    {
      WithoutFrom(container, key);
      forall i | 0 <= i < |cards| ensures Owns(Without(container, key), Own(cards[i])) {
        assert Owns(container, Own(cards[i]));
      }
      container := Without(container, key);
    }

    // The first card with the given id.
    static method Find(list: seq<Card>, id: string) returns (found: bool, k: nat)
      ensures found ==> k < |list| && list[k].id == id
      ensures !found ==> forall i :: 0 <= i < |list| ==> list[i].id != id
    {
      k := 0;
      while k < |list|
        invariant k <= |list| && forall i :: 0 <= i < k ==> list[i].id != id
      {
        if list[k].id == id { return true, k; }
        k := k + 1;
      }
      found := false;
    }

    // The first loop of `ping`.
    method KeepListed(server: seq<string>) returns (newCards: seq<Card>)
      ensures newCards == Kept(cards, server)
    {
      newCards := [];
      var i := 0;
      while i < |cards|
        invariant 0 <= i <= |cards| && newCards == Kept(cards[..i], server)
      {
        assert cards[..i + 1][..|cards[..i + 1]| - 1] == cards[..i];
        if cards[i].id in server {
          newCards := newCards + [cards[i]];
        }
        i := i + 1;
      }
      assert cards[..|cards|] == cards;
    }

    /**
     The reconciliation of `ping`: afterwards there is a card for exactly the listed ids,
     and the container starts with the listed ids in the server's order, whatever faded
     cards it still holds. A card that is not new keeps its element, a new one has a new
     element. The leading elements are the cards' own exactly when no leftover in the
     container has the id of a listed card, the last one excepted; otherwise the page
     shows a clone somewhere.
    */
    method Ping(server: seq<string>) returns (ghost owns: seq<Element>)
      requires Valid() && Distinct(server)
      modifies this
      ensures Valid()
      ensures Kept(old(cards), server) <= cards
      ensures CardIds(cards[|Kept(old(cards), server)|..]) == Missing(server, Kept(old(cards), server))
      ensures forall id :: Has(cards, id) <==> id in server
      ensures Leads(container, server)
      ensures |owns| == |server|
      ensures forall j :: 0 <= j < |server| ==> owns[j].id == server[j] && Card(server[j], owns[j].key) in cards
      ensures forall j :: 0 <= j < |server| ==> KeptOrNew(old(cards), old(nextKey), owns[j])
      ensures AllOwn(container, owns) <==> NoLeftovers(old(cards), old(container), server)
      ensures |container| >= |server| && forall j :: 0 <= j < |server| ==> container[j].id == server[j]
      ensures forall i, j :: 0 <= i < j < |cards| ==> cards[i].id != cards[j].id
      ensures (forall j :: 0 <= j < |server| ==> Card(container[j].id, container[j].key) in cards)
              <==> forall j, x ::
                     0 <= j < |server| - 1 && 0 <= x < |old(container)| && old(container)[x].id == server[j]
                     ==> Card(server[j], old(container)[x].key) in old(cards)
      ensures forall c :: c in old(cards) && c.id in server ==> c in cards
      ensures forall c :: c in cards && c !in old(cards) ==> c.key >= old(nextKey)
    {
      hide WellKept, Listed, Placed, AllOwn, NoStrays, NoLeftovers, Kept, Missing, Has, Leads, KeptOrNew, AllNew,
          Distinct;
      KeptKeeps(cards, server, container, nextKey);
      var kept := KeepListed(server);
      var newCards;
      ghost var created;
      newCards, created, owns := Show(server, kept);
      PlacedLeads(old(container), container, server, owns);
      ListedHas(cards, server, kept, created, owns);
      ListedOwns(cards, server, kept, created, owns, old(nextKey));
      LeftoversAreStrays(cards, old(container), old(nextKey), server, owns);
      cards := newCards;
      PingMeans(old(cards), old(container), old(nextKey), server, owns, cards, container, nextKey);
    }

    method Show(server: seq<string>, kept: seq<Card>)
      returns (newCards: seq<Card>, ghost created: seq<Card>, ghost owns: seq<Element>)
      requires Distinct(server) && WellKept(kept, container, nextKey)
      modifies this`container, this`nextKey
      ensures WellKept(newCards, container, nextKey)
      ensures newCards == kept + created && Listed(kept, created, server, owns) && AllNew(kept, created, old(nextKey))
      ensures Placed(old(container), container, server, owns)
    {
      hide WellKept, Placed, Listed, Position, Owns, AllNew, Has, Distinct;
      newCards, created, owns := kept, [], [];
      var afterElement: Option<string> := None;
      StartShow(kept, container);
      var k := 0;
      while k < |server|
        invariant 0 <= k <= |server| && afterElement == Last(server[..k])
        invariant WellKept(newCards, container, nextKey)
        invariant newCards == kept + created && Listed(kept, created, server[..k], owns)
        invariant AllNew(kept, created, old(nextKey)) && nextKey >= old(nextKey)
        invariant Placed(old(container), container, server[..k], owns)
      {
        var cid := server[k];
        ghost var ids := server[..k];
        PrefixDistinct(server, k);
        var done, m := Find(newCards, cid);
        if done {
          ListedFound(kept, created, ids, owns, m);
        } else {
          NoneHas(newCards, cid);
          NewCardKeeps(newCards, container, nextKey, cid);
          var card := Card(cid, nextKey);
          ListedNew(kept, created, ids, owns, card);
          OneMoreNew(kept, created, old(nextKey), card);
          m, nextKey := |newCards|, nextKey + 1;
          newCards := newCards + [card];
          created := created + [card];
        }
        var el := Own(newCards[m]);
        KeptOwns(newCards, container, nextKey, m);
        PlaceNext(old(container), container, ids, owns, el, nextKey);
        PlacingKeeps(newCards, container, nextKey, m, afterElement);
        nextKey, container := SpareAfter(container, afterElement, nextKey),
            Position(container, el, afterElement, nextKey);
        owns := owns + [el];
        afterElement := Some(cid);
        k := k + 1;
      }
      assert server[..|server|] == server;
    }
  }

  ghost predicate OneEach(cards: seq<Card>)
  {
    forall i, j :: 0 <= i < j < |cards| ==> cards[i].id != cards[j].id
  }

  lemma OneCard(cards: seq<Card>, c: Card, d: Card)
    requires OneEach(cards) && c in cards && d in cards && c.id == d.id
    ensures c == d
  {
    var i :| 0 <= i < |cards| && cards[i] == c;
    var j :| 0 <= j < |cards| && cards[j] == d;
    assert i == j;
  }

  // The leading elements are `owns` exactly when each of them is a card's.
  lemma FrontIsOwn(cards: seq<Card>, container: seq<Element>, server: seq<string>, owns: seq<Element>)
    requires OneEach(cards) && Leads(container, server) && |owns| == |server|
    requires forall j :: 0 <= j < |server| ==> owns[j].id == server[j] && Card(server[j], owns[j].key) in cards
    ensures AllOwn(container, owns)
            <==> forall j :: 0 <= j < |server| ==> Card(container[j].id, container[j].key) in cards
  {
    hide OneEach;
    if forall j :: 0 <= j < |server| ==> Card(container[j].id, container[j].key) in cards {
      forall j | 0 <= j < |server| ensures container[j] == owns[j] {
        OneCard(cards, Card(container[j].id, container[j].key), Card(server[j], owns[j].key));
      }
    }
  }

  lemma {:induction false} KeptIn(cards: seq<Card>, server: seq<string>, c: Card)
    requires c in cards && c.id in server
    ensures c in Kept(cards, server)
  {
    var init, last := cards[..|cards| - 1], cards[|cards| - 1];
    assert cards == init + [last];
    if c in init { KeptIn(init, server, c); }
  }

  // A card that was not there has a new element.
  lemma NewIsNew(was: seq<Card>, firstKey: nat, server: seq<string>, owns: seq<Element>, cards: seq<Card>, c: Card)
    requires OneEach(cards) && c in cards && c !in was && c.id in server && |owns| == |server|
    requires forall j :: 0 <= j < |server| ==> owns[j].id == server[j] && Card(server[j], owns[j].key) in cards
    requires forall j :: 0 <= j < |server| ==> KeptOrNew(was, firstKey, owns[j])
    ensures c.key >= firstKey
  {
    hide OneEach, Has;
    var j :| 0 <= j < |server| && server[j] == c.id;
    OneCard(cards, c, Card(server[j], owns[j].key));
  }

  // The outcome of a ping, card by card and element by element.
  lemma PingMeans(was: seq<Card>, before: seq<Element>, firstKey: nat, server: seq<string>, owns: seq<Element>,
                  cards: seq<Card>, container: seq<Element>, nextKey: nat)
    requires WellKept(cards, container, nextKey) && Leads(container, server)
    requires Kept(was, server) <= cards && forall id :: Has(cards, id) <==> id in server
    requires |owns| == |server|
    requires forall j :: 0 <= j < |server| ==> owns[j].id == server[j] && Card(server[j], owns[j].key) in cards
    requires forall j :: 0 <= j < |server| ==> KeptOrNew(was, firstKey, owns[j])
    requires AllOwn(container, owns) <==> NoLeftovers(was, before, server)
    ensures |container| >= |server| && forall j :: 0 <= j < |server| ==> container[j].id == server[j]
    ensures forall i, j :: 0 <= i < j < |cards| ==> cards[i].id != cards[j].id
    ensures (forall j :: 0 <= j < |server| ==> Card(container[j].id, container[j].key) in cards)
            <==> forall j, x :: 0 <= j < |server| - 1 && 0 <= x < |before| && before[x].id == server[j]
                                ==> Card(server[j], before[x].key) in was
    ensures forall c :: c in was && c.id in server ==> c in cards
    ensures forall c :: c in cards && c !in was ==> c.key >= firstKey
  {
    hide Has, Kept, KeptOrNew, AllOwn;
    assert OneEach(cards);
    FrontIsOwn(cards, container, server, owns);
    forall c | c in was && c.id in server ensures c in cards { KeptIn(was, server, c); }
    forall c | c in cards && c !in was ensures c.key >= firstKey {
      HasMember(cards, c);
      NewIsNew(was, firstKey, server, owns, cards, c);
    }
  }

  lemma PrefixDistinct(ids: seq<string>, k: nat)
    requires k < |ids| && Distinct(ids)
    ensures ids[..k + 1] == ids[..k] + [ids[k]] && Distinct(ids[..k] + [ids[k]]) && ids[k] !in ids[..k]
  {
  }

  lemma NoneHas(cards: seq<Card>, id: string)
    requires forall i :: 0 <= i < |cards| ==> cards[i].id != id
    ensures !Has(cards, id)
  {
  }

  lemma OneMoreNew(kept: seq<Card>, created: seq<Card>, firstKey: nat, c: Card)
    requires AllNew(kept, created, firstKey) && !Has(kept + created, c.id) && c.key >= firstKey
    ensures AllNew(kept, created + [c], firstKey)
  {
    var all := kept + created;
    forall i | 0 <= i < |kept| ensures kept[i].id != c.id { assert all[i] == kept[i]; }
  }

  lemma PlacedLeads(c0: seq<Element>, c: seq<Element>, ids: seq<string>, owns: seq<Element>)
    requires Placed(c0, c, ids, owns)
    ensures Leads(c, ids) && |owns| == |ids| && (forall j :: 0 <= j < |ids| ==> owns[j].id == ids[j])
    ensures AllOwn(c, owns) <==> NoStrays(c0, owns)
  {
  }

  lemma ListedHas(cards: seq<Card>, server: seq<string>, kept: seq<Card>, created: seq<Card>, owns: seq<Element>)
    requires kept == Kept(cards, server) && Listed(kept, created, server, owns)
    ensures forall id :: Has(kept + created, id) <==> id in server
    ensures (kept + created)[..|kept|] == kept && CardIds((kept + created)[|kept|..]) == Missing(server, kept)
    ensures |owns| == |server| && forall j :: 0 <= j < |server| ==> Card(server[j], owns[j].key) in kept + created
  {
    hide Has, Kept, Missing;
    assert (kept + created)[|kept|..] == created;
    forall id ensures Has(kept + created, id) <==> id in server { KeptHas(cards, server, id); }
  }

  lemma ListedOwns(cards: seq<Card>, server: seq<string>, kept: seq<Card>, created: seq<Card>, owns: seq<Element>,
                   firstKey: nat)
    requires kept == Kept(cards, server) && Listed(kept, created, server, owns) && AllNew(kept, created, firstKey)
    requires forall j :: 0 <= j < |server| ==> j < |owns| && owns[j].id == server[j]
    ensures forall j :: 0 <= j < |server| ==> KeptOrNew(cards, firstKey, owns[j])
  {
    hide Has, Missing, Distinct;
    forall j | 0 <= j < |server| ensures KeptOrNew(cards, firstKey, owns[j]) {
      var c := Card(server[j], owns[j].key);
      assert c in kept + created;
      KeptHas(cards, server, c.id);
      if c in kept { HasMember(cards, c); }
    }
  }

  lemma HasMember(cards: seq<Card>, c: Card)
    requires c in cards
    ensures Has(cards, c.id)
  {
  }

  lemma StartShow(kept: seq<Card>, container: seq<Element>)
    ensures Listed(kept, [], [], []) && Placed(container, container, [], [])
    ensures forall firstKey: nat :: AllNew(kept, [], firstKey)
  {
    assert kept + [] == kept;
  }

  lemma KeptOwns(cards: seq<Card>, container: seq<Element>, nextKey: nat, m: nat)
    requires WellKept(cards, container, nextKey) && m < |cards|
    ensures Owns(container, Own(cards[m])) && cards[m].key < nextKey
  {
  }
}
