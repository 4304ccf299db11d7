/** The weather station subject: a list of registered observers and the
    current conditions, which are pushed to every observer on a change.
    Observers are identified by id (Java's default `equals` is identity),
    and a call `update(conditions)` is recorded as one notification. */
module WeatherStation {

  /** An observer, compared by identity. */
  type ObserverId = nat

  /** A Java float reading; it is stored and passed on, never computed on. */
  type Reading = real

  datatype Conditions = Conditions(temperature: Reading, humidity: Reading, pressure: Reading)

  /** One `o.update(conditions)` call. */
  datatype Notification = Update(observer: ObserverId, conditions: Conditions)

  /** `observers.remove(o)` on a list: drop the first element equal to `o`,
      if there is one. */
  function RemoveFirst(s: seq<ObserverId>, o: ObserverId): (r: seq<ObserverId>)
    ensures o !in s ==> r == s
    ensures o in s ==> |r| == |s| - 1
  {
    if s == [] then []
    else
      assert s == [s[0]] + s[1..];
      if s[0] == o then s[1..] else [s[0]] + RemoveFirst(s[1..], o)
  }

  /** When `o` first occurs at index i, removal cuts out exactly that
      element and keeps the rest in order. */
  lemma {:induction false} RemoveFirstAt(s: seq<ObserverId>, o: ObserverId, i: nat)
    requires i < |s| && s[i] == o && o !in s[..i]
    ensures RemoveFirst(s, o) == s[..i] + s[i + 1..]
    decreases i
  {
    if i == 0 {
      assert s[..0] + s[1..] == s[1..];
    } else {
      var t := s[1..];
      assert s[..i][0] == s[0];
      assert s[0] != o;
      assert t[..i - 1] == s[1..i];
      assert s[..i] == [s[0]] + s[1..i];
      assert o !in t[..i - 1];
      RemoveFirstAt(t, o, i - 1);
      assert RemoveFirst(s, o) == [s[0]] + (t[..i - 1] + t[i..]);
      assert t[i..] == s[i + 1..];
    }
  }

  /** As a multiset, exactly one copy of `o` is gone, and nothing else. */
  lemma {:induction false} RemoveFirstMultiset(s: seq<ObserverId>, o: ObserverId)
    ensures multiset(RemoveFirst(s, o)) == multiset(s) - multiset{o}
  {
    if s != [] {
      assert s == [s[0]] + s[1..];
      if s[0] != o {
        RemoveFirstMultiset(s[1..], o);
      }
    }
  }

  /** Registering an observer that was not registered and then removing it
      gives back the old list. */
  lemma RemoveAfterRegister(s: seq<ObserverId>, o: ObserverId)
    requires o !in s
    ensures RemoveFirst(s + [o], o) == s
  {
    assert (s + [o])[..|s|] == s;
    RemoveFirstAt(s + [o], o, |s|);
  }

  class WeatherData {
    var observers: seq<ObserverId>
    var weatherConditions: Conditions

    /** An empty observer list; the conditions object starts with Java's
        default field values. */
    constructor ()
      ensures observers == []
      ensures weatherConditions == Conditions(0.0, 0.0, 0.0)
    {
      observers := [];
      weatherConditions := Conditions(0.0, 0.0, 0.0);
    }

    /** `registerObserver`: append at the end, duplicates allowed. */
    method RegisterObserver(o: ObserverId)
      modifies this
      ensures observers == old(observers) + [o]
      ensures weatherConditions == old(weatherConditions)
    {
      observers := observers + [o];
    }

    /** `removeObserver`: the list search for the first equal element,
        then removal of that one element. */
    method RemoveObserver(o: ObserverId)
      modifies this
      ensures observers == RemoveFirst(old(observers), o)
      ensures weatherConditions == old(weatherConditions)
    {
      var i := 0;
      while i < |observers| && observers[i] != o
        invariant 0 <= i <= |observers|
        invariant o !in observers[..i]
      {
        i := i + 1;
      }
      if i < |observers| {
        RemoveFirstAt(observers, o, i);
        observers := observers[..i] + observers[i + 1..];
      } else {
        assert observers[..i] == observers;
      }
    }

    /** `notifyObservers`: one update per list entry, in list order, each
        with the current conditions; the subject is left unchanged. */
    method NotifyObservers() returns (trace: seq<Notification>)
      ensures |trace| == |observers|
      ensures forall i :: 0 <= i < |trace| ==> trace[i] == Update(observers[i], weatherConditions)
    {
      trace := [];
      for i := 0 to |observers|
        invariant |trace| == i
        invariant forall j :: 0 <= j < i ==> trace[j] == Update(observers[j], weatherConditions)
      {
        trace := trace + [Update(observers[i], weatherConditions)];
      }
    }

    /** `measurementsChanged`: the same notifications as `notifyObservers`. */
    method MeasurementsChanged() returns (trace: seq<Notification>)
      ensures |trace| == |observers|
      ensures forall i :: 0 <= i < |trace| ==> trace[i] == Update(observers[i], weatherConditions)
    {
      trace := NotifyObservers();
    }

    /** `setMeasurements`: store the three readings, then notify every
        observer, in order, with them. */
    method SetMeasurements(temperature: Reading, humidity: Reading, pressure: Reading)
      returns (trace: seq<Notification>)
      modifies this
      ensures weatherConditions == Conditions(temperature, humidity, pressure)
      ensures observers == old(observers)
      ensures |trace| == |observers|
      ensures forall i :: 0 <= i < |trace| ==> trace[i] == Update(observers[i], Conditions(temperature, humidity, pressure))
    {
      weatherConditions := weatherConditions.(temperature := temperature);
      weatherConditions := weatherConditions.(humidity := humidity);
      weatherConditions := weatherConditions.(pressure := pressure);
      trace := MeasurementsChanged();
    }
  }
}
