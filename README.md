# zukunft: the future combinators, in Dafny

zukunft is a small Rust library of values that become available later.
A `Future` has one required operation, `await`, which produces its value and may block.
On top of `await`, the trait provides `map` (alias `then`) and `bind`.
These combinators only build structs.
Nothing runs until the final `await`, which unwinds the chain from the innermost future outwards.
`lift` wraps a value that is already known.

This project models that layer (`src/base.rs`) and proves its Functor/Monad laws about what `await` returns.

- `Base.Future<T>` is a datatype with four cases:
  - `FutureWrap`: the struct built by `lift`.
  - `External`: any other implementation of the trait, such as a test's mock or a channel future. Only its own await computation is known.
  - `FutureThen(inner, closure)` and `FutureBind(inner, continuation)`: the two combinator structs. The Rust field is called `closure` in both. Dafny needs a different name on the bind case because the types differ.
- `Future.Run(fuel)` is `await` evaluated with a bound on the nesting depth of `await` calls.
  - It returns the value together with the ordered list of observable steps (`Events`).
  - Each step is either a leaf future yielding its value or a stored closure being invoked with its argument.
  - A bind closure may build an arbitrarily deep future, so `await` need not return. `Terminates()` says that it does.
  - When it does, `Await()` is the value it returns and `Events()` is the steps it took. `ResolvedAt` proves that neither depends on the budget.
- `Laws` states observational equivalence: await returns for both futures or for neither, and with the same value. It proves the identity, composition, bind-with-lift, left and right identity, associativity and congruence laws.
- `BaseTests` holds the unit tests of `src/base.rs` as concrete lemmas.
- `Usage` holds the crate's three documented examples and the channel-future tests. In these, each channel future is replaced by an `External` future whose await gives the value its sender sends.

## Model

| member | source | states |
|---|---|---|
| `Base.Future.Run` | src/base.rs:57-110 | await of each struct under a nesting budget: FutureWrap gives its value, FutureThen awaits the inner future and then calls the closure once on its value, FutureBind awaits the inner future, calls the closure once and awaits the future it returned; a zero budget gives no result, and every finished run starts with a leaf future yielding its value |
| `Base.Future.Await` | src/base.rs:14-20 | the value the trait's await returns, when it returns: the one value every sufficient budget gives |
| `Base.ResolvedEverywhere` | src/base.rs:14-20 | every budget within which await finishes gives the same value and steps |
| `Base.RunMonotone` | src/base.rs:76-108 | once await finishes within a nesting budget, every larger budget gives the same value and the same steps |
| `Base.ResolvedAt` | src/base.rs:14-20 | any budget within which await finishes gives the one outcome of await, so the value a future resolves to is well defined |
| `Base.WrapResolution` | src/base.rs:56-60 | awaiting a FutureWrap returns its wrapped value, and the only step is that value being yielded |
| `Base.ExternalResolution` | src/base.rs:14-20 | awaiting another implementation of the trait returns what its own await computes |
| `Base.ThenResolution` | src/base.rs:71-80 | a FutureThen's await returns exactly when the inner's does; the value is the closure applied to the inner value; its steps are the inner's steps followed by exactly one closure call on the inner value |
| `Base.BindResolution` | src/base.rs:99-110 | a FutureBind's await returns exactly when the inner's await and the await of the future the closure returns both do; the value is that of the returned future (one level flattened); its steps are the inner's, then one closure call, then the returned future's |
| `Base.Lift` | src/base.rs:125-137 | lift builds a FutureWrap whose await returns the given object and does nothing else |
| `Base.ThenFuture` | src/base.rs:82-90 | the free function then only stores the future and the closure; awaiting the result applies the closure once to the future's value, after the future's own steps |
| `Base.BindFuture` | src/base.rs:112-123 | the free function bind only stores the future and the closure; awaiting the result awaits the future, calls the closure once, then awaits the future it returned |
| `Base.Future.Map` | src/base.rs:25-31 | map delegates to the free then; the result terminates exactly when this future does and awaits to f of this future's value |
| `Base.Future.Then` | src/base.rs:33-40 | then builds the identical combinator to map |
| `Base.Future.Bind` | src/base.rs:42-51 | bind delegates to the free bind; the result terminates exactly when this future and f of its value do, and awaits to the value of f's future |
| `Base.InnermostResolvesFirst` | src/base.rs:76-108 | the first step of every await is the innermost future of the chain yielding its value, so no closure runs before it |
| `Laws.MapIdentity` | src/base.rs:9-13 | mapping the identity closure is observationally equivalent to the original future |
| `Laws.MapComposition` | src/base.rs:76-79 | two maps are equivalent to one map with the closures composed, the first applied first |
| `Laws.BindLiftIsMap` | src/base.rs:183-187 | binding a closure that lifts f's result is equivalent to mapping f |
| `Laws.LeftIdentity` | src/base.rs:105-108 | lift(x).bind(k) is equivalent to k(x) |
| `Laws.RightIdentity` | src/base.rs:105-108 | m.bind(lift) is equivalent to m |
| `Laws.Associativity` | src/base.rs:9-13 | m.bind(f).bind(g) is equivalent to m.bind(v => f(v).bind(g)), and both take the same steps in the same order |
| `Laws.Congruence` | src/base.rs:65-123 | replacing an inner future, or the futures a bind closure returns, by equivalent ones gives equivalent combinators |
| `Laws.ChainedMapsApplyLeftToRight` | src/base.rs:176-180 | a chain of maps terminates exactly when its base future does, and awaits to the closures applied left to right to the base value |
| `Laws.ChainedMapEvents` | src/base.rs:76-79 | a chain of maps takes the base future's steps and then one closure call per closure, each on the previous closure's result (a step records the argument, not which closure ran) |
| `BaseTests.MockFuture` | src/base.rs:144-148 | the mock implementation's await returns 100 |
| `BaseTests.PushZeros` | src/base.rs:167-171 | the test closure's loop builds a vector of exactly len zeros |
| `BaseTests.PushZerosIsZeros` | src/base.rs:192 | that vector is `vec![0; len]` |
| `BaseTests.TestLiftValueIntoFuture` | src/base.rs:150-155 | lift(5) awaits to 5 |
| `BaseTests.TestMapToSameType` | src/base.rs:157-162 | lift(5).map(2*v) awaits to 10 |
| `BaseTests.TestMapToDifferentType` | src/base.rs:164-173 | lift(5) mapped to a zero vector awaits to five zeros |
| `BaseTests.TestChainMap` | src/base.rs:175-180 | lift(5).map(2*v).map(v+1) awaits to 11 |
| `BaseTests.TestBindSameInnerType` | src/base.rs:182-187 | lift(5).bind(v => lift(v+50)) awaits to 55 |
| `BaseTests.TestBindDifferentInnerType` | src/base.rs:189-194 | lift(5).bind(v => lift(vec![0; v])) awaits to five zeros |
| `BaseTests.TestBindDifferentFutureImpl` | src/base.rs:196-203 | the mock future bound to v => lift(v*2) awaits to 200 |
| `Usage.MapThenIncrement` | src/lib.rs:16-28 | lift(5) doubled then incremented awaits to 11 |
| `Usage.BindTwoFutures` | src/lib.rs:32-39 | lift(5).bind(a => lift(2).map(b => a+b)) awaits to 7 |
| `Usage.Channel` | src/mpsc.rs:32-37 | a channel future whose sender sends x awaits to x in one step |
| `Usage.ChannelDocExample` | src/lib.rs:45-55 | a channel future sent 2, mapped by 2*v, awaits to 4 |
| `Usage.ChannelFutureAwaitsResolution` | src/mpsc.rs:46-54 | the channel future sent 10 awaits to 10 |
| `Usage.ChannelMap` | src/mpsc.rs:56-65 | the channel future sent 10, mapped by 2*v, awaits to 20 |
| `Usage.BindSequencesTwoChannelFutures` | src/mpsc.rs:67-83 | first.bind(a => second.map(b => a*b)) with 6 and 10 sent awaits to 60; the first future is awaited, then the closure runs, then the second future is awaited, then the map closure runs |
| `Usage.ChannelComposesWithWrappedBind` | src/mpsc.rs:85-94 | the channel future sent 10, bound to v => lift(2*v), awaits to 20 |

## Left out

- Blocking, threads and the standard channel behind `ChannelFuture` (`src/mpsc.rs`) are not modelled. A channel future is an `External` leaf whose await gives the value sent. The order in which senders send therefore cannot be expressed, and neither can a disconnected channel's panic in `recv().unwrap()`, `ChannelFuture::new` or `from_receiver`.
- Consumption of `self` by move is not modelled. Rust's type system enforces single use; a value model has nothing to enforce.
- The claim that await "eventually" returns, and other liveness and timing claims, are not modelled. `Terminates()` only says whether await returns in the value semantics.
- No closure that makes await diverge is exhibited. Rust allows one, for example a closure that rebinds to itself. Dafny requires every function, and so every closure, to terminate, so `Terminates()` stays a hypothesis of the laws rather than a proved fact.
- Type-changing `map` and `bind` (`Output = U`) are modelled over a single value type `T`, because one datatype cannot hide the inner future's type. The tests that change type instantiate `T` with the sum type `BaseTests.Val`.
- `u8` arithmetic is modelled with unbounded `int`. The tests' values (at most 200) do not overflow, so Rust's overflow panic is never reached.
- Panics and side effects inside user closures are not modelled. A closure is a total Dafny function.
