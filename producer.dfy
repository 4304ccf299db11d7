/** The producer thread's work: generating a new object and, inside the
    critical section, appending it to the shared list.  The random numbers
    the generator draws are passed in as a sequence. */
module Producer {
  import opened ObjList

  /** Number of characters in a generated object. */
  const ObjectLength: nat := 5

  /** Random draws are `nextInt(26)`, so each lies in [0, 26). */
  predicate IsDraw(n: int)
  {
    0 <= n < 26
  }

  predicate IsLowercase(c: char)
  {
    'a' <= c <= 'z'
  }

  /** `getRandomChar`: the draw added to 'a' and cast to char.  The char is
      a lower-case letter, and the draw can be read back from it. */
  function RandomChar(n: int): (c: char)
    requires IsDraw(n)
    ensures IsLowercase(c)
    ensures c as int - 'a' as int == n
  {
    (n + 'a' as int) as char
  }

  /** Distinct draws give distinct characters. */
  lemma RandomCharInjective(m: int, n: int)
    requires IsDraw(m) && IsDraw(n)
    ensures RandomChar(m) == RandomChar(n) <==> m == n
  {
  }

  /** `requestNewObject`: a string of five characters, one per draw, built
      by appending in a loop.  Every character is a lower-case letter, and
      the i-th is the one for the i-th draw. */
  method RequestNewObject(draws: seq<int>) returns (s: string)
    requires |draws| == ObjectLength
    requires forall i :: 0 <= i < |draws| ==> IsDraw(draws[i])
    ensures |s| == ObjectLength
    ensures forall i :: 0 <= i < |s| ==> IsLowercase(s[i])
    ensures forall i :: 0 <= i < |s| ==> s[i] == RandomChar(draws[i])
  {
    s := "";
    for i := 0 to ObjectLength
      invariant |s| == i
      invariant forall j :: 0 <= j < i ==> s[j] == RandomChar(draws[j])
    {
      s := s + [RandomChar(draws[i])];
    }
  }

  /** One iteration of the producer's loop: generate an object outside the
      critical section, then, once the list is below capacity, append that
      same object at the back. */
  method ProduceOne(list: SharedList, draws: seq<int>) returns (obj: string)
    requires list.Valid() && CanPut(list.items)
    requires |draws| == ObjectLength
    requires forall i :: 0 <= i < |draws| ==> IsDraw(draws[i])
    modifies list
    ensures list.Valid()
    ensures |obj| == ObjectLength && forall i :: 0 <= i < |obj| ==> IsLowercase(obj[i])
    ensures forall i :: 0 <= i < |obj| ==> obj[i] == RandomChar(draws[i])
    ensures list.items == Put(old(list.items), obj)
    ensures list.produced == old(list.produced) + [obj] && list.consumed == old(list.consumed)
  {
    obj := RequestNewObject(draws);
    list.Add(obj);
  }
}
