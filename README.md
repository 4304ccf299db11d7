# Producer/consumer list, shared value, weather observers and cafe decorators

A Dafny model of the sequential logic in a set of Java design-pattern and
concurrency demos. It covers four pieces:

- **Producer/consumer list** (`obj_list.dfy`, `producer.dfy`, `consumer.dfy`).
  Producer and consumer threads share one list with capacity 20, which
  starts empty. Each `synchronized` body is one atomic step. A producer
  makes a 5-letter lower-case string outside the lock. Once the list size
  differs from 20 it appends the string at the back. A consumer waits while
  the list is empty, then removes index 0. The class `ObjList.SharedList`
  holds `items` plus two ghost histories, `produced` and `consumed`. Its
  `Valid()` says the size is at most 20 and that `consumed + items ==
  produced`. Every step keeps `Valid()`. Alongside the class, a pure trace
  semantics (`Step`, `Run` over `Produce(x)` / `Consume` events) covers any
  interleaving of critical sections from the empty list. Over it the model
  proves the capacity bound, FIFO order, and no loss or duplication. In
  that semantics a thread whose guard is false stays blocked and changes
  nothing.
- **Shared value** (`shared_data.dfy`). `ReaderWriter.SharedData` stores one
  Java `int`, starting at 0, with `Write` and `Read`. Client methods show
  read-after-write, last-write-wins, that writing twice equals writing
  once, and that a fresh value reads 0.
- **Weather station subject** (`weather_data.dfy`). `WeatherStation.WeatherData`
  keeps its observers as a sequence of ids. `RegisterObserver` appends.
  `RemoveObserver` searches for the first equal id and cuts it out, as
  `List.remove(Object)` does. Notifying returns the trace of `update` calls
  in list order. `SetMeasurements` stores the three readings as an opaque
  triple and then notifies.
- **Cafe decorators** (`cafe.dfy`). A beverage is the base beverage wrapped
  in any stack of `Mocha`, `Whip`, `Milk` and `Soy`. `Description` appends
  each decorator's fixed suffix to the wrapped description. The model
  chooses to make the wrapped beverage a datatype field. That fixes it when
  the value is built and rules out null; the Java field does neither (see
  "## Left out"). `Parse` reads a description back into
  the beverage. The round-trip lemma shows the description loses no
  information about the decorators.

Facts about the code that the model keeps:

- The capacity is the constant `LIST_CAPACITY = 20`
  (ProducerConsumerProblemSimple/src/main/java/org/company/Producer.java:9).
- The producer's wait loop runs while `size() == LIST_CAPACITY`
  (Producer.java:32). The model tests exactly that. The bound `size <= 20`
  is proved as an invariant of every run from the empty list.
- No operation has a cancellation or error result, so the model has none.

## Model

| member | source | states |
|---|---|---|
| `ObjList.CanPut` | ProducerConsumerProblemSimple/src/main/java/org/company/Producer.java:31-39 | the producer's wait-loop exit condition: size differs from `ListCapacity` (20); its meaning is stated by `ObjList.WaitGuards` |
| `ObjList.CanTake` | ProducerConsumerProblemSimple/src/main/java/org/company/Consumer.java:31-39 | the consumer's wait-loop exit condition: the list is not empty; its meaning is stated by `ObjList.WaitGuards` |
| `ObjList.WaitGuards` | ProducerConsumerProblemSimple/src/main/java/org/company/Producer.java:9 | within the bound of 20, a producer may proceed exactly below capacity and a consumer exactly when the list is non-empty; the empty list admits a producer and blocks a consumer |
| `ObjList.Step` | ProducerConsumerProblemSimple/src/main/java/org/company/Producer.java:22-27 | one `synchronized` body of a producer, or (Consumer.java:21-26) of a consumer, or a blocked thread doing nothing; its properties are stated by `ObjList.StepConsistent` and `ObjList.StepSize` |
| `ObjList.Run` | ProducerConsumerProblemSimple/src/main/java/org/company/ProducerConsumerDemo.java:11 | any interleaving of critical sections from `Initial`, the empty `LinkedList`; its properties are stated by `ObjList.RunConsistent`, `ObjList.RunFifo` and `ObjList.RunNoLoss` |
| `ObjList.Put` | ProducerConsumerProblemSimple/src/main/java/org/company/Producer.java:24 | the list grows by exactly one; every earlier element keeps its position; the new element is last |
| `ObjList.Take` | ProducerConsumerProblemSimple/src/main/java/org/company/Consumer.java:23 | the returned element followed by the remaining list is the old list; the size falls by exactly one |
| `ObjList.TakeAfterPut` | ProducerConsumerProblemSimple/src/main/java/org/company/Consumer.java:21-26 | on a non-empty list below capacity, take after put returns the old front, and the rest is the old rest with the new item at the back |
| `ObjList.StepConsistent` | ProducerConsumerProblemSimple/src/main/java/org/company/Producer.java:22-27 | every put or take step, enabled or blocked, keeps the size at most 20 and keeps taken + list == put |
| `ObjList.RunConsistent` | ProducerConsumerProblemSimple/src/main/java/org/company/Producer.java:31-39 | over any interleaving from the empty list, the size never exceeds 20 (although the guard only tests `!=`), and taken items followed by the list equal the put items |
| `ObjList.RunFifo` | ProducerConsumerProblemSimple/src/main/java/org/company/Consumer.java:23 | over any interleaving, the taken items are a prefix of the put items, in order |
| `ObjList.RunNoLoss` | ProducerConsumerProblemSimple/src/main/java/org/company/ProducerConsumerDemo.java:11 | over any interleaving from the empty list, the taken items and the list together are, as multisets, the put items |
| `ObjList.StepSize` | ProducerConsumerProblemSimple/src/main/java/org/company/Consumer.java:31-39 | an enabled put adds one element and an enabled take removes one; a put on a full list or a take on an empty list changes nothing |
| `ObjList.SharedList.constructor` | ProducerConsumerProblemSimple/src/main/java/org/company/ProducerConsumerDemo.java:11 | the shared list starts empty, with empty histories |
| `ObjList.SharedList.Add` | ProducerConsumerProblemSimple/src/main/java/org/company/Producer.java:24 | `add` once the guard holds: the new list is `Put` of the old one, the item is recorded as put, and the invariant is kept |
| `ObjList.SharedList.RemoveFront` | ProducerConsumerProblemSimple/src/main/java/org/company/Consumer.java:23 | `remove(0)` once the list is non-empty: returns the front and leaves the rest, records it as taken, and keeps the invariant |
| `Producer.RandomChar` | ProducerConsumerProblemSimple/src/main/java/org/company/Producer.java:50-52 | a draw in [0,26) plus 'a' is a lower-case letter, and the draw can be recovered from it |
| `Producer.RandomCharInjective` | ProducerConsumerProblemSimple/src/main/java/org/company/Producer.java:50-52 | two draws give the same character exactly when they are equal |
| `Producer.RequestNewObject` | ProducerConsumerProblemSimple/src/main/java/org/company/Producer.java:41-48 | the object has exactly 5 characters, all in 'a'..'z', and the i-th is the character for the i-th draw |
| `Producer.ProduceOne` | ProducerConsumerProblemSimple/src/main/java/org/company/Producer.java:19-27 | the object appended is the object generated before the critical section; it is 5 lower-case letters and goes at the back |
| `Consumer.ConsumeOne` | ProducerConsumerProblemSimple/src/main/java/org/company/Consumer.java:18-26 | returns the oldest element; the list becomes the old list minus its first element; the size falls by one |
| `Consumer.FifoScenario` | ProducerConsumerProblemSimple/src/main/java/org/company/Consumer.java:21-26 | on a fresh list, putting a then b and taking twice returns a and then b |
| `ReaderWriter.SharedData.constructor` | ReaderWriterProblem/src/main/java/com/company/SharedData.java:5 | the value starts at 0 |
| `ReaderWriter.SharedData.Write` | ReaderWriterProblem/src/main/java/com/company/SharedData.java:7-9 | the stored value becomes the new value |
| `ReaderWriter.SharedData.Read` | ReaderWriterProblem/src/main/java/com/company/SharedData.java:11-13 | returns the stored value and modifies nothing |
| `ReaderWriter.ReadFresh` | ReaderWriterProblem/src/main/java/com/company/SharedData.java:5-13 | a fresh instance reads 0, and does so again on a second read |
| `ReaderWriter.WriteThenRead` | ReaderWriterProblem/src/main/java/com/company/SharedData.java:7-13 | a write of v followed by a read returns v |
| `ReaderWriter.WriteWriteRead` | ReaderWriterProblem/src/main/java/com/company/SharedData.java:7-9 | after writing a and then b, a read returns b |
| `ReaderWriter.WriteTwice` | ReaderWriterProblem/src/main/java/com/company/SharedData.java:7-9 | writing v twice leaves the same state as writing it once |
| `WeatherStation.RemoveFirst` | Observer/src/main/java/org/example/WeatherStation/WeatherData.java:20-22 | removing an absent observer changes nothing; removing a present one shortens the list by exactly one |
| `WeatherStation.RemoveFirstMultiset` | Observer/src/main/java/org/example/WeatherStation/WeatherData.java:21 | as a multiset, removal takes away one copy of the observer, if present, and nothing else |
| `WeatherStation.RemoveFirstAt` | Observer/src/main/java/org/example/WeatherStation/WeatherData.java:21 | when the first occurrence is at index i, removal cuts out exactly index i and keeps the order of the rest |
| `WeatherStation.RemoveAfterRegister` | Observer/src/main/java/org/example/WeatherStation/WeatherData.java:16-22 | registering an unregistered observer and then removing it gives back the old list |
| `WeatherStation.WeatherData.constructor` | Observer/src/main/java/org/example/WeatherStation/WeatherData.java:11-14 | a new subject has no observers, and its conditions are zero |
| `WeatherStation.WeatherData.RegisterObserver` | Observer/src/main/java/org/example/WeatherStation/WeatherData.java:16-18 | appends the observer at the end, so duplicates are allowed; the conditions are unchanged |
| `WeatherStation.WeatherData.RemoveObserver` | Observer/src/main/java/org/example/WeatherStation/WeatherData.java:20-22 | the list search and cut give exactly `RemoveFirst` of the old list; the conditions are unchanged |
| `WeatherStation.WeatherData.NotifyObservers` | Observer/src/main/java/org/example/WeatherStation/WeatherData.java:24-26 | one update per list entry, in list order, each with the current conditions; the subject is not modified |
| `WeatherStation.WeatherData.MeasurementsChanged` | Observer/src/main/java/org/example/WeatherStation/WeatherData.java:28-30 | the same notifications as `NotifyObservers` |
| `WeatherStation.WeatherData.SetMeasurements` | Observer/src/main/java/org/example/WeatherStation/WeatherData.java:32-38 | the stored conditions become the three readings; the observers are unchanged; each observer is notified once, in order, with the new readings |
| `Cafe.Description` | Decorator/src/main/java/org/example/cafe/Mocha.java:12-14 | the base description is a prefix of every description; it is longer exactly when some decorator is present |
| `Cafe.MochaDescription` | Decorator/src/main/java/org/example/cafe/Mocha.java:12-14 | Mocha describes as the wrapped description, a prefix of the result, plus exactly ", Mocha": seven characters more |
| `Cafe.WhipDescription` | Decorator/src/main/java/org/example/cafe/Whip.java:12-14 | Whip describes as the wrapped description, a prefix of the result, plus exactly ", Whip": six characters more |
| `Cafe.MilkDescription` | Decorator/src/main/java/org/example/cafe/Milk.java:12-14 | Milk describes as the wrapped description, a prefix of the result, plus exactly ", Milk": six characters more |
| `Cafe.SoyDescription` | Decorator/src/main/java/org/example/cafe/Soy.java:12-14 | Soy describes as the wrapped description, a prefix of the result, plus exactly ", Soy": five characters more |
| `Cafe.WhipMochaOrder` | Decorator/src/main/java/org/example/cafe/Whip.java:13 | suffixes follow wrap order: Whip around Mocha describes as the base plus ", Mocha, Whip" |
| `Cafe.ParseDescription` | Decorator/src/main/java/org/example/cafe/Mocha.java:13 | parsing a beverage's description over its base description gives back that beverage |
| `Cafe.DescriptionInjective` | Decorator/src/main/java/org/example/cafe/Soy.java:13 | over one base description, two beverages share a description exactly when they are equal |

## Left out

- Threads, `synchronized`, `wait()`/`notifyAll()` and the `while(true)` run loops. Each critical section is one atomic step. A wait loop becomes a precondition on the class methods, or a no-op step in the trace semantics.
- The swallowed `InterruptedException`s, the random `Thread.sleep` delays and `processObject`. They are timing, not state.
- `java.util.Random`. The draws are an input sequence of ints in [0,26).
- All console logging.
- Reader.java, Writer.java, ReaderWriterDemo.java and the thread spawning in ProducerConsumerDemo.java. Their logic is the library's `ReentrantReadWriteLock` and thread start-up, so the reader/writer exclusion and fairness are not modelled.
- The weather readings are Java floats. They are modelled as `real`, since they are only stored and passed on, never computed on.
- WeatherConditions.java is not part of this model. Its initial fields are taken to be Java's default 0.0.
- Observers are ids, and an `update` call is a recorded notification. What an observer does on `update` is not modelled. That includes an observer that changes the list during `forEach`, which Java reports as a `ConcurrentModificationException`.
- The observers receive a reference to the one shared conditions object. The model gives each a copy of its value, so aliasing is not modelled.
- The displays (ForecastDisplay, StatisticsDisplay, CurrentWeatherConditionsDisplay) use float arithmetic and printing.
- The Decorator `cost()` methods use `double` arithmetic.
- The decorators' `Beverage beverage` field is package-private and not `final`. Code in the package could reassign it, or set it to null so that `description()` throws a NullPointerException. The model's `Beverage` datatype cannot be reassigned or null, so neither behaviour is captured.
- `ObserverId` is a `nat`, so there is no null observer. Java's `ArrayList` accepts null in `add` and `remove(Object)`, and `notifyObservers` would then throw a NullPointerException inside the `forEach` lambda. That path is not modelled.
- The undecorated beverage classes are not part of this model. Their description is a parameter.
- Strategy, Adapter, AbstractFactory, Singleton and the Spring/JPA applications. They are delegation, printing, a random branch or framework plumbing.
