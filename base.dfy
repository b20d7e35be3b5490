/** The deferred-computation layer of zukunft: the future capability, the
    immediate future made by `lift`, and the map (then) and bind combinators.

    A future is a value describing a computation; nothing runs until it is
    awaited.  Awaiting unwinds the combinator chain from the innermost future
    outwards.  Because a bind closure may build an arbitrarily deep future,
    awaiting need not terminate; `Run` therefore evaluates under a budget on
    the nesting depth of await calls, and `Terminates`, `Await` and `Events`
    describe what await returns when it returns at all.
 */
module Base {

  datatype Option<T> = None | Some(value: T)

  /** An observable step of an await, in the order in which it happens:
      a leaf future producing its value, or a stored closure being called
      with the value of the future it wraps. */
  datatype Event<T> = Yielded(value: T) | Invoked(arg: T)

  /** What a finished await gives: its value and the steps it took. */
  datatype Resolution<T> = Resolution(value: T, events: seq<Event<T>>)

  /** A future over values of type T.
      - FutureWrap holds a value that is already known.
      - External is any other implementation of the capability (a mock, a
        channel): only its own await computation is known.
      - FutureThen holds an inner future and a closure applied to its value.
      - FutureBind holds an inner future and a closure that turns its value
        into the next future to await. */
  datatype Future<!T> =
    | FutureWrap(value: T)
    | External(resolve: () -> T)
    | FutureThen(inner: Future<T>, closure: T -> T)
    | FutureBind(inner: Future<T>, continuation: T -> Future<T>)
  {
    /** Await, allowed at most `fuel` nested await calls; None when the
        budget is exhausted before a value is produced. */
    function Run(fuel: nat): (r: Option<Resolution<T>>)
      ensures fuel == 0 ==> r.None?
      ensures r.Some? ==> |r.value.events| > 0 && r.value.events[0].Yielded?
      decreases fuel
    {
      if fuel == 0 then None
      else
        match this
        case FutureWrap(x) => Some(Resolution(x, [Yielded(x)]))
        case External(f) =>
          var x := f();
          Some(Resolution(x, [Yielded(x)]))
        case FutureThen(m, f) =>
          (match m.Run(fuel - 1)
           case None => None
           case Some(r) => Some(Resolution(f(r.value), r.events + [Invoked(r.value)])))
        case FutureBind(m, k) =>
          (match m.Run(fuel - 1)
           case None => None
           case Some(r) =>
             (match k(r.value).Run(fuel - 1)
              case None => None
              case Some(s) => Some(Resolution(s.value, r.events + [Invoked(r.value)] + s.events))))
    }

    /** Await returns. */
    ghost predicate Terminates() {
      exists fuel: nat :: Run(fuel).Some?
    }

    /** The outcome of a returning await (independent of the budget, see ResolvedAt). */
    ghost function Resolved(): Resolution<T>
      requires Terminates()
    {
      var fuel: nat :| Run(fuel).Some?;
      Run(fuel).value
    }

    /** The value await returns: the one every sufficient budget gives. */
    ghost function Await(): (v: T)
      requires Terminates()
      ensures forall fuel: nat :: Run(fuel).Some? ==> Run(fuel).value.value == v
    {
      ResolvedEverywhere(this);
      Resolved().value
    }

    /** The steps a returning await takes, in order. */
    ghost function Events(): seq<Event<T>>
      requires Terminates()
    {
      Resolved().events
    }

    /** The leaf future at the bottom of the chain of inner futures. */
    function Innermost(): (r: Future<T>)
      ensures r.FutureWrap? || r.External?
    {
      match this
      case FutureThen(m, _) => m.Innermost()
      case FutureBind(m, _) => m.Innermost()
      case _ => this
    }

    /** The provided method `map`: builds the same combinator as `then`. */
    function Map(f: T -> T): (r: Future<T>)
      ensures r == ThenFuture(this, f)
      ensures r.Terminates() <==> Terminates()
      ensures Terminates() ==> r.Await() == f(Await())
    {
      ThenFuture(this, f)
    }

    /** The provided method `then`, an alias of `map`. */
    function Then(f: T -> T): (r: Future<T>)
      ensures r == Map(f)
    {
      ThenFuture(this, f)
    }

    /** The provided method `bind`. */
    function Bind(f: T -> Future<T>): (r: Future<T>)
      ensures r == BindFuture(this, f)
      ensures r.Terminates() <==> Terminates() && f(Await()).Terminates()
      ensures r.Terminates() ==> r.Await() == f(Await()).Await()
    {
      BindFuture(this, f)
    }
  }

  /** A larger budget never changes a finished await. */
  lemma {:induction false} RunMonotone<T>(m: Future<T>, fuel: nat, more: nat)
    requires m.Run(fuel).Some? && fuel <= more
    ensures m.Run(more) == m.Run(fuel)
    decreases fuel
  {
    match m
    case FutureWrap(_) =>
    case External(_) =>
    case FutureThen(i, f) =>
      RunMonotone(i, fuel - 1, more - 1);
    case FutureBind(i, k) =>
      RunMonotone(i, fuel - 1, more - 1);
      RunMonotone(k(i.Run(fuel - 1).value.value), fuel - 1, more - 1);
  }

  /** Any budget that suffices gives the one outcome of await. */
  lemma ResolvedAt<T>(m: Future<T>, fuel: nat)
    requires m.Run(fuel).Some?
    ensures m.Terminates()
    ensures m.Resolved() == m.Run(fuel).value
  {
    forall other: nat | m.Run(other).Some?
      ensures m.Run(other) == m.Run(fuel)
    {
      if other <= fuel {
        RunMonotone(m, other, fuel);
      } else {
        RunMonotone(m, fuel, other);
      }
    }
  }

  /** Every budget within which await finishes gives the same outcome. */
  lemma ResolvedEverywhere<T>(m: Future<T>)
    requires m.Terminates()
    ensures forall fuel: nat :: m.Run(fuel).Some? ==> m.Run(fuel).value == m.Resolved()
  {
    forall fuel: nat | m.Run(fuel).Some?
      ensures m.Run(fuel).value == m.Resolved()
    {
      ResolvedAt(m, fuel);
    }
  }

  /** Awaiting a wrapped value yields that value and nothing else. */
  lemma WrapResolution<T>(x: T)
    ensures FutureWrap(x).Terminates()
    ensures FutureWrap(x).Await() == x
    ensures FutureWrap(x).Events() == [Yielded(x)]
  {
    ResolvedAt(FutureWrap(x), 1);
  }

  /** Awaiting a FutureThen awaits the inner future first and then calls the
      closure exactly once, on the inner value; its result is the value. */
  lemma ThenResolution<T>(m: Future<T>, f: T -> T)
    ensures FutureThen(m, f).Terminates() <==> m.Terminates()
    ensures m.Terminates() ==>
      && FutureThen(m, f).Await() == f(m.Await())
      && FutureThen(m, f).Events() == m.Events() + [Invoked(m.Await())]
  {
    var t := FutureThen(m, f);
    if t.Terminates() {
      var fuel: nat :| t.Run(fuel).Some?;
      ResolvedAt(m, fuel - 1);
    }
    if m.Terminates() {
      var fuel: nat :| m.Run(fuel).Some?;
      ResolvedAt(m, fuel);
      ResolvedAt(t, fuel + 1);
    }
  }

  /** Awaiting a FutureBind awaits the inner future, calls the closure once on
      its value, then awaits the future the closure returned: one level of
      nesting is flattened. */
  lemma BindResolution<T>(m: Future<T>, k: T -> Future<T>)
    ensures FutureBind(m, k).Terminates() <==> m.Terminates() && k(m.Await()).Terminates()
    ensures FutureBind(m, k).Terminates() ==>
      && FutureBind(m, k).Await() == k(m.Await()).Await()
      && FutureBind(m, k).Events() == m.Events() + [Invoked(m.Await())] + k(m.Await()).Events()
  {
    var b := FutureBind(m, k);
    if b.Terminates() {
      var fuel: nat :| b.Run(fuel).Some?;
      ResolvedAt(m, fuel - 1);
      ResolvedAt(k(m.Await()), fuel - 1);
      ResolvedAt(b, fuel);
    }
    if m.Terminates() && k(m.Await()).Terminates() {
      var i: nat :| m.Run(i).Some?;
      var j: nat :| k(m.Await()).Run(j).Some?;
      var fuel := if i < j then j else i;
      ResolvedAt(m, i);
      RunMonotone(m, i, fuel);
      RunMonotone(k(m.Await()), j, fuel);
      ResolvedAt(b, fuel + 1);
    }
  }

  /** Awaiting another implementation yields what its own await computes. */
  lemma ExternalResolution<T>(f: () -> T)
    ensures External(f).Terminates()
    ensures External(f).Await() == f()
    ensures External(f).Events() == [Yielded(f())]
  {
    ResolvedAt(External(f), 1);
  }

  /** `lift`: wraps a known value; awaiting it returns the value at once. */
  function Lift<T>(obj: T): (r: Future<T>)
    ensures r.FutureWrap?
    ensures r.Terminates() && r.Await() == obj && r.Events() == [Yielded(obj)]
  {
    WrapResolution(obj);
    FutureWrap(obj)
  }

  /** The free function `then`: only stores the future and the closure; all
      work is deferred to await. */
  function ThenFuture<T>(future: Future<T>, foo: T -> T): (r: Future<T>)
    ensures r.FutureThen? && r.inner == future && r.closure == foo
    ensures r.Terminates() <==> future.Terminates()
    ensures future.Terminates() ==> r.Await() == foo(future.Await())
    ensures future.Terminates() ==> r.Events() == future.Events() + [Invoked(future.Await())]
  {
    ThenResolution(future, foo);
    FutureThen(future, foo)
  }

  /** The free function `bind`: only stores the future and the closure; the
      closure is not called until await. */
  function BindFuture<T>(future: Future<T>, foo: T -> Future<T>): (r: Future<T>)
    ensures r.FutureBind? && r.inner == future && r.continuation == foo
    ensures r.Terminates() <==> future.Terminates() && foo(future.Await()).Terminates()
    ensures r.Terminates() ==> r.Await() == foo(future.Await()).Await()
    ensures r.Terminates() ==>
      r.Events() == future.Events() + [Invoked(future.Await())] + foo(future.Await()).Events()
  {
    BindResolution(future, foo);
    FutureBind(future, foo)
  }

  /** The first step of every await is the innermost future producing its
      value: no closure runs before it. */
  lemma {:induction false} InnermostResolvesFirst<T>(m: Future<T>)
    requires m.Terminates()
    ensures m.Innermost().Terminates()
    ensures |m.Events()| > 0 && m.Events()[0] == Yielded(m.Innermost().Await())
  {
    match m
    case FutureWrap(x) =>
      WrapResolution(x);
    case External(f) =>
      ExternalResolution(f);
    case FutureThen(i, f) =>
      ThenResolution(i, f);
      InnermostResolvesFirst(i);
    case FutureBind(i, k) =>
      BindResolution(i, k);
      InnermostResolvesFirst(i);
  }
}
