/** The consumer thread's critical section: once the shared list is not
    empty, remove and return its front element. */
module Consumer {
  import opened ObjList

  /** One iteration of the consumer's loop, up to handing the object on to
      processing: the oldest element is returned and dropped from the list,
      whose size falls by exactly one. */
  method ConsumeOne(list: SharedList) returns (obj: Item)
    requires list.Valid() && CanTake(list.items)
    modifies list
    ensures list.Valid()
    ensures obj == old(list.items)[0]
    ensures list.items == old(list.items)[1..]
    ensures |list.items| == |old(list.items)| - 1
    ensures list.consumed == old(list.consumed) + [obj] && list.produced == old(list.produced)
  {
    obj := list.RemoveFront();
  }

  /** Two producer iterations and two consumer iterations on a fresh list:
      the objects come out in the order they went in. */
  method FifoScenario(a: Item, b: Item) returns (first: Item, second: Item)
    ensures first == a && second == b
  {
    var list := new SharedList();
    list.Add(a);
    list.Add(b);
    first := ConsumeOne(list);
    second := ConsumeOne(list);
  }
}
