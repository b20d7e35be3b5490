/** The crate's documented usage examples and the channel-future tests, with
    each channel future replaced by an External future whose await gives the
    value its sender sends. */
module Usage {
  import opened Base

  /** lift(5), doubled, then incremented. */
  lemma MapThenIncrement()
    ensures Lift(5).Map(v => 2 * v).Map(v => v + 1).Await() == 11
  {
  }

  /** A computation depending on two futures. */
  lemma BindTwoFutures()
    ensures Lift(5).Bind(a => Lift(2).Map(b => a + b)).Await() == 7
  {
  }

  /** A channel future whose sender sends `x`. */
  function Channel(x: int): (r: Future<int>)
    ensures r.Terminates() && r.Await() == x && r.Events() == [Yielded(x)]
  {
    ExternalResolution(() => x);
    External(() => x)
  }

  /** A channel future sent 2 and mapped by doubling. */
  lemma ChannelDocExample()
    ensures Channel(2).Map(v => 2 * v).Await() == 4
  {
  }

  lemma ChannelFutureAwaitsResolution()
    ensures Channel(10).Await() == 10
  {
  }

  lemma ChannelMap()
    ensures Channel(10).Map(v => 2 * v).Await() == 20
  {
  }

  /** Two channel futures sequenced by bind: the first one is awaited, then the
      closure runs, then the second one is awaited (the order in which the
      values are sent is not part of this model). */
  lemma BindSequencesTwoChannelFutures()
    ensures Channel(6).Bind(a => Channel(10).Map(b => a * b)).Await() == 60
    ensures Channel(6).Bind(a => Channel(10).Map(b => a * b)).Events()
      == [Yielded(6), Invoked(6), Yielded(10), Invoked(10)]
  {
  }

  lemma ChannelComposesWithWrappedBind()
    ensures Channel(10).Bind(v => Lift(2 * v)).Await() == 20
  {
  }
}
