/** The list shared by the producer and consumer threads, with each
    critical section taken as one atomic step.  Producers append at the
    back while the list is not at capacity; consumers remove the front
    element while it is not empty. */
module ObjList {

  /** The capacity both wait loops test against. */
  const ListCapacity: nat := 20

  /** The producers only ever put generated strings into the list. */
  type Item = string

  /** The producer's wait loop exits once the size differs from the capacity. */
  predicate CanPut(items: seq<Item>)
  {
    |items| != ListCapacity
  }

  /** The consumer's wait loop exits once the list is not empty. */
  predicate CanTake(items: seq<Item>)
  {
    |items| != 0
  }

  /** Within the capacity bound the two wait loops mean what they say: a
      producer may proceed exactly below capacity, a consumer exactly when
      something is there; and an empty list lets a producer through. */
  lemma WaitGuards(items: seq<Item>)
    requires |items| <= ListCapacity
    ensures CanPut(items) <==> |items| < ListCapacity
    ensures CanTake(items) <==> items != []
    ensures items == [] ==> CanPut(items) && !CanTake(items)
  {
  }

  /** `add`: the new element goes to the back, every earlier element keeps
      its position, the size grows by exactly one. */
  function Put(items: seq<Item>, x: Item): (r: seq<Item>)
    requires CanPut(items)
    ensures |r| == |items| + 1
    ensures r[..|items|] == items && r[|items|] == x
  {
    items + [x]
  }

  /** `remove(0)`: returns the oldest element and the rest of the list;
      gluing them back together gives the old list. */
  function Take(items: seq<Item>): (r: (Item, seq<Item>))
    requires CanTake(items)
    ensures [r.0] + r.1 == items
    ensures |r.1| == |items| - 1
  {
    (items[0], items[1..])
  }

  /** Taking from a non-empty list commutes with putting at its back:
      the element taken is the old front, not the new one. */
  lemma TakeAfterPut(items: seq<Item>, x: Item)
    requires |items| <= ListCapacity && CanPut(items) && CanTake(items)
    ensures CanTake(Put(items, x)) && CanPut(Take(items).1)
    ensures Take(Put(items, x)) == (Take(items).0, Put(Take(items).1, x))
  {
    assert Put(items, x)[1..] == items[1..] + [x];
  }

  /** What a run of critical sections has done so far: the current list,
      and (bookkeeping only) everything put and everything taken. */
  datatype History = History(items: seq<Item>, produced: seq<Item>, consumed: seq<Item>)

  /** The state the three views must agree on: capacity respected, and
      nothing lost or duplicated — taken items followed by the list are the
      put items. */
  predicate Consistent(items: seq<Item>, produced: seq<Item>, consumed: seq<Item>)
  {
    |items| <= ListCapacity && consumed + items == produced
  }

  /** One completed critical section, of a producer or of a consumer. */
  datatype Event = Produce(obj: Item) | Consume

  /** The list starts empty. */
  const Initial: History := History([], [], [])

  /** One step; a thread whose guard is false stays blocked and changes
      nothing. */
  function Step(h: History, e: Event): History
  {
    match e
    case Produce(x) =>
      if CanPut(h.items) then History(Put(h.items, x), h.produced + [x], h.consumed) else h
    case Consume =>
      if CanTake(h.items) then
        var (x, rest) := Take(h.items);
        History(rest, h.produced, h.consumed + [x])
      else h
  }

  /** Any interleaving of producer and consumer steps from the empty list. */
  function Run(events: seq<Event>): History
  {
    if events == [] then Initial else Step(Run(events[..|events| - 1]), events[|events| - 1])
  }

  /** Each step keeps the list consistent with the two histories. */
  lemma StepConsistent(h: History, e: Event)
    requires Consistent(h.items, h.produced, h.consumed)
    ensures var h' := Step(h, e); Consistent(h'.items, h'.produced, h'.consumed)
  {
  }

  /** Over every interleaving from the empty start the size never exceeds
      the capacity (although the guard only tests `!=`), and the taken
      items followed by the current list are exactly the put items. */
  lemma {:induction false} RunConsistent(events: seq<Event>)
    ensures |Run(events).items| <= ListCapacity
    ensures Run(events).consumed + Run(events).items == Run(events).produced
    decreases |events|
  {
    if events != [] {
      RunConsistent(events[..|events| - 1]);
      StepConsistent(Run(events[..|events| - 1]), events[|events| - 1]);
    }
  }

  /** FIFO: the taken items are a prefix of the put items, in order. */
  lemma RunFifo(events: seq<Event>)
    ensures var h := Run(events); |h.consumed| <= |h.produced| && h.consumed == h.produced[..|h.consumed|]
  {
    RunConsistent(events);
    var h := Run(events);
    assert h.produced[..|h.consumed|] == (h.consumed + h.items)[..|h.consumed|];
  }

  /** No loss and no duplication, counted as multisets. */
  lemma RunNoLoss(events: seq<Event>)
    ensures var h := Run(events); multiset(h.consumed) + multiset(h.items) == multiset(h.produced)
  {
    RunConsistent(events);
  }

  /** A put step adds exactly one element and a take step removes exactly
      one, whenever they are enabled; otherwise the list is unchanged. */
  lemma StepSize(h: History, e: Event)
    ensures e.Produce? && CanPut(h.items) ==> |Step(h, e).items| == |h.items| + 1
    ensures e.Consume? && CanTake(h.items) ==> |Step(h, e).items| == |h.items| - 1
    ensures e.Produce? && !CanPut(h.items) ==> Step(h, e) == h
    ensures e.Consume? && !CanTake(h.items) ==> Step(h, e) == h
  {
  }

  /** The list object shared by all producer and consumer threads. */
  class SharedList {
    var items: seq<Item>
    ghost var produced: seq<Item>
    ghost var consumed: seq<Item>

    ghost predicate Valid()
      reads this
    {
      Consistent(items, produced, consumed)
    }

    /** A new list is empty. */
    constructor ()
      ensures Valid()
      ensures items == [] && produced == [] && consumed == []
    {
      items, produced, consumed := [], [], [];
    }

    /** `objList.add(x)`, called once the producer's guard holds. */
    method Add(x: Item)
      requires Valid() && CanPut(items)
      modifies this
      ensures Valid()
      ensures items == Put(old(items), x)
      ensures produced == old(produced) + [x] && consumed == old(consumed)
    {
      items := items + [x];
      produced := produced + [x];
    }

    /** `objList.remove(0)`, called once the consumer's guard holds. */
    method RemoveFront() returns (x: Item)
      requires Valid() && CanTake(items)
      modifies this
      ensures Valid()
      ensures (x, items) == Take(old(items))
      ensures consumed == old(consumed) + [x] && produced == old(produced)
    {
      x := items[0];
      assert (consumed + [x]) + items[1..] == consumed + items;
      items := items[1..];
      consumed := consumed + [x];
    }
  }
}
