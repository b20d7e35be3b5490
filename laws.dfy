/** The Functor/Monad laws that the combinators of Base obey when futures are
    compared by what their await returns. */
module Laws {
  import opened Base

  /** Two futures are observationally equivalent when await returns for one
      exactly when it returns for the other, and then with the same value. */
  ghost predicate Equivalent<T>(a: Future<T>, b: Future<T>) {
    && (a.Terminates() <==> b.Terminates())
    && (a.Terminates() ==> a.Await() == b.Await())
  }

  /** Mapping the identity closure changes nothing observable. */
  lemma MapIdentity<T>(m: Future<T>)
    ensures Equivalent(m.Map(v => v), m)
  {
  }

  /** Mapping twice is mapping once with the composed closure, applied left to right. */
  lemma MapComposition<T>(m: Future<T>, f: T -> T, g: T -> T)
    ensures Equivalent(m.Map(f).Map(g), m.Map(v => g(f(v))))
  {
  }

  /** Binding a closure that only lifts is the same as mapping. */
  lemma BindLiftIsMap<T>(m: Future<T>, f: T -> T)
    ensures Equivalent(m.Bind(v => Lift(f(v))), m.Map(f))
  {
  }

  /** Left identity: lift(x).bind(k) behaves like k(x). */
  lemma LeftIdentity<T>(x: T, k: T -> Future<T>)
    ensures Equivalent(Lift(x).Bind(k), k(x))
  {
  }

  /** Right identity: m.bind(lift) behaves like m. */
  lemma RightIdentity<T>(m: Future<T>)
    ensures Equivalent(m.Bind(Lift), m)
  {
  }

  /** Associativity: the grouping of two binds does not change the value, the
      termination, or even the order of the steps await takes. */
  lemma Associativity<T>(m: Future<T>, f: T -> Future<T>, g: T -> Future<T>)
    ensures Equivalent(m.Bind(f).Bind(g), m.Bind(v => f(v).Bind(g)))
    ensures m.Bind(f).Bind(g).Terminates() ==>
      m.Bind(f).Bind(g).Events() == m.Bind(v => f(v).Bind(g)).Events()
  {
  }

  /** Equivalence is preserved by both combinators: replacing an inner future,
      or the futures a bind closure returns, with equivalent ones changes
      nothing observable. */
  lemma Congruence<T>(a: Future<T>, b: Future<T>, f: T -> T, k: T -> Future<T>, k': T -> Future<T>)
    requires Equivalent(a, b)
    requires forall v :: Equivalent(k(v), k'(v))
    ensures Equivalent(a.Map(f), b.Map(f))
    ensures Equivalent(a.Bind(k), b.Bind(k'))
  {
  }

  /** Applying closures one after another, first element first. */
  function ApplyInOrder<T>(fs: seq<T -> T>, x: T): T
  {
    if fs == [] then x else ApplyInOrder(fs[1..], fs[0](x))
  }

  /** m.map(fs[0]).map(fs[1])...: the future a chain of map calls builds. */
  function MapChain<T>(m: Future<T>, fs: seq<T -> T>): Future<T>
    decreases |fs|
  {
    if fs == [] then m else MapChain(m.Map(fs[0]), fs[1..])
  }

  /** A chain of maps awaits the original future and applies the closures
      left to right, each to the value of the one before. */
  lemma {:induction false} ChainedMapsApplyLeftToRight<T>(m: Future<T>, fs: seq<T -> T>)
    ensures MapChain(m, fs).Terminates() <==> m.Terminates()
    ensures m.Terminates() ==> MapChain(m, fs).Await() == ApplyInOrder(fs, m.Await())
    decreases |fs|
  {
    if fs != [] {
      ChainedMapsApplyLeftToRight(m.Map(fs[0]), fs[1..]);
    }
  }

  /** The calls of the closures fs, each on the value the previous one produced. */
  function Invocations<T>(fs: seq<T -> T>, x: T): seq<Event<T>>
  {
    if fs == [] then [] else [Invoked(x)] + Invocations(fs[1..], fs[0](x))
  }

  /** A chain of maps takes the base future's steps and then one closure call per
      closure, each on the value the previous one produced (the steps record
      arguments, not which closure ran). */
  lemma {:induction false} ChainedMapEvents<T>(m: Future<T>, fs: seq<T -> T>)
    requires m.Terminates()
    ensures MapChain(m, fs).Terminates()
    ensures MapChain(m, fs).Events() == m.Events() + Invocations(fs, m.Await())
    decreases |fs|
  {
    ChainedMapsApplyLeftToRight(m, fs);
    if fs != [] {
      var n := m.Map(fs[0]);
      ChainedMapEvents(n, fs[1..]);
    }
  }
}
