/** The coffee-shop decorators.  Each of Mocha, Whip, Milk and Soy wraps a
    beverage fixed by its constructor, and describes itself as the wrapped
    beverage's description followed by its own fixed suffix.  A beverage is
    therefore a datatype value: the innermost undecorated beverage and the
    decorators around it, outermost first. */
module Cafe {

  datatype Option<T> = None | Some(value: T)

  datatype Beverage =
    | Base
    | Mocha(beverage: Beverage)
    | Whip(beverage: Beverage)
    | Milk(beverage: Beverage)
    | Soy(beverage: Beverage)

  const MochaSuffix: string := ", Mocha"
  const WhipSuffix: string := ", Whip"
  const MilkSuffix: string := ", Milk"
  const SoySuffix: string := ", Soy"

  /** `description()`, given the description of the undecorated beverage.
      That description is always a prefix of the result, and the result is
      longer than it exactly when some decorator is present. */
  function Description(b: Beverage, baseDescription: string): (r: string)
    ensures baseDescription <= r
    ensures |r| == |baseDescription| <==> b.Base?
  {
    match b
    case Base => baseDescription
    case Mocha(w) => Description(w, baseDescription) + MochaSuffix
    case Whip(w) => Description(w, baseDescription) + WhipSuffix
    case Milk(w) => Description(w, baseDescription) + MilkSuffix
    case Soy(w) => Description(w, baseDescription) + SoySuffix
  }

  /** Mocha: the wrapped description, a prefix of the result, followed by
      exactly ", Mocha", seven characters more. */
  lemma MochaDescription(b: Beverage, d: string)
    ensures Description(Mocha(b), d) == Description(b, d) + ", Mocha"
    ensures Description(b, d) <= Description(Mocha(b), d)
    ensures |Description(Mocha(b), d)| == |Description(b, d)| + 7
  {
  }

  /** Whip: the wrapped description followed by exactly ", Whip". */
  lemma WhipDescription(b: Beverage, d: string)
    ensures Description(Whip(b), d) == Description(b, d) + ", Whip"
    ensures Description(b, d) <= Description(Whip(b), d)
    ensures |Description(Whip(b), d)| == |Description(b, d)| + 6
  {
  }

  /** Milk: the wrapped description followed by exactly ", Milk". */
  lemma MilkDescription(b: Beverage, d: string)
    ensures Description(Milk(b), d) == Description(b, d) + ", Milk"
    ensures Description(b, d) <= Description(Milk(b), d)
    ensures |Description(Milk(b), d)| == |Description(b, d)| + 6
  {
  }

  /** Soy: the wrapped description followed by exactly ", Soy". */
  lemma SoyDescription(b: Beverage, d: string)
    ensures Description(Soy(b), d) == Description(b, d) + ", Soy"
    ensures Description(b, d) <= Description(Soy(b), d)
    ensures |Description(Soy(b), d)| == |Description(b, d)| + 5
  {
  }

  /** Suffixes appear in wrap order, innermost first. */
  lemma WhipMochaOrder(b: Beverage, d: string)
    ensures Description(Whip(Mocha(b)), d) == Description(b, d) + ", Mocha, Whip"
  {
    assert Description(b, d) + MochaSuffix + WhipSuffix == Description(b, d) + ", Mocha, Whip";
  }

  predicate HasSuffix(s: string, suffix: string)
  {
    |suffix| <= |s| && s[|s| - |suffix|..] == suffix
  }

  /** Reads a description back into the decorators that produced it,
      peeling suffixes off the end until the base description remains. */
  function Parse(baseDescription: string, s: string): Option<Beverage>
    decreases |s|
  {
    if s == baseDescription then Some(Base)
    else if |s| <= |baseDescription| then None
    else if HasSuffix(s, MochaSuffix) then
      match Parse(baseDescription, s[..|s| - |MochaSuffix|])
      case Some(w) => Some(Mocha(w))
      case None => None
    else if HasSuffix(s, WhipSuffix) then
      match Parse(baseDescription, s[..|s| - |WhipSuffix|])
      case Some(w) => Some(Whip(w))
      case None => None
    else if HasSuffix(s, MilkSuffix) then
      match Parse(baseDescription, s[..|s| - |MilkSuffix|])
      case Some(w) => Some(Milk(w))
      case None => None
    else if HasSuffix(s, SoySuffix) then
      match Parse(baseDescription, s[..|s| - |SoySuffix|])
      case Some(w) => Some(Soy(w))
      case None => None
    else None
  }

  /** A string ending in `t + suffix` has that suffix, and removing it gives `t`. */
  lemma SuffixOf(t: string, suffix: string)
    ensures HasSuffix(t + suffix, suffix)
    ensures (t + suffix)[..|t + suffix| - |suffix|] == t
  {
  }

  /** A string whose last character differs from the suffix's does not end in it. */
  lemma NotSuffix(t: string, last: string, suffix: string)
    requires |last| > 0 && |suffix| > 0 && last[|last| - 1] != suffix[|suffix| - 1]
    ensures !HasSuffix(t + last, suffix)
  {
  }

  /** The description determines the decorators: parsing it gives back the
      beverage. */
  lemma {:induction false} ParseDescription(b: Beverage, d: string)
    ensures Parse(d, Description(b, d)) == Some(b)
  {
    match b
    case Base =>
    case Mocha(w) =>
      ParseDescription(w, d);
      SuffixOf(Description(w, d), MochaSuffix);
    case Whip(w) =>
      ParseDescription(w, d);
      SuffixOf(Description(w, d), WhipSuffix);
      NotSuffix(Description(w, d), WhipSuffix, MochaSuffix);
    case Milk(w) =>
      ParseDescription(w, d);
      SuffixOf(Description(w, d), MilkSuffix);
      NotSuffix(Description(w, d), MilkSuffix, MochaSuffix);
      NotSuffix(Description(w, d), MilkSuffix, WhipSuffix);
    case Soy(w) =>
      ParseDescription(w, d);
      SuffixOf(Description(w, d), SoySuffix);
      NotSuffix(Description(w, d), SoySuffix, MochaSuffix);
      NotSuffix(Description(w, d), SoySuffix, WhipSuffix);
      NotSuffix(Description(w, d), SoySuffix, MilkSuffix);
  }

  /** Over one base description, differently decorated beverages never share
      a description. */
  lemma DescriptionInjective(b1: Beverage, b2: Beverage, d: string)
    ensures Description(b1, d) == Description(b2, d) <==> b1 == b2
  {
    ParseDescription(b1, d);
    ParseDescription(b2, d);
  }
}
