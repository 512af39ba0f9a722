/**
 * `EtherDeltaChecker`: look the ticker up in the token map, open a service
 * session, poll the order book up to five times, and tear the session down
 * on every path once it has been started.
 */
module EtherDelta {
  import opened Results
  import opened Orders
  import Symbols
  import opened Session

  /** One raw EtherDelta order, reduced to its numeric fields by name. */
  type Entry = map<string, real>

  /** What the service's `get_order_book` answers: the two raw sides, or an exception. */
  datatype Reply = Snapshot(sells: seq<Entry>, buys: seq<Entry>) | Raised

  /** `Order(float(entry['price']), float(entry['ethAvailableVolume']))`. */
  function EntryToOrder(entry: Entry): (r: Result<Order>)
  {
    if "price" !in entry then Err(MissingKey("price"))
    else if "ethAvailableVolume" !in entry then Err(MissingKey("ethAvailableVolume"))
    else Ok(Order(entry["price"], entry["ethAvailableVolume"]))
  }

  /**
   * `check_loop`: `Ok(None)` is the empty tuple it returns when either
   * truncated side is empty; otherwise both sides are converted.
   */
  function CheckLoop(reply: Reply, n: int): (r: Result<Option<Book>>)
  {
    match reply
    case Raised => Err(RemoteFailure)
    case Snapshot(sells, buys) =>
      var topSells := TopSells(sells, n);
      var topBuys := TopBuys(buys, n);
      if |topSells| == 0 || |topBuys| == 0 then Ok(None)
      else
        match Normalise(sells, buys, n, EntryToOrder)
        case Err(e) => Err(e)
        case Ok(book) => Ok(Some(book))
  }

  /**
   * An empty poll is one where either truncated side is empty; otherwise
   * both sides are non-empty, the sells are the first `n` raw sells reversed
   * and the buys the first `n` raw buys, each order taking the entry's
   * `price` and `ethAvailableVolume`; KeyError is raised exactly when both
   * sides are non-empty and some kept entry lacks one of those fields.
   */
  lemma CheckLoopShape(sells: seq<Entry>, buys: seq<Entry>, n: int)
    ensures var r := CheckLoop(Snapshot(sells, buys), n);
            var k, m := SliceEnd(|sells|, n), SliceEnd(|buys|, n);
            && (r == Ok(None) <==> k == 0 || m == 0)
            && (r.Err? ==> r.error.MissingKey?)
            && (r.Err? <==> 0 < k && 0 < m
                            && !((forall i :: 0 <= i < k ==> "price" in sells[i] && "ethAvailableVolume" in sells[i])
                                 && (forall i :: 0 <= i < m ==> "price" in buys[i] && "ethAvailableVolume" in buys[i])))
            && (r.Ok? && r.value.Some? ==>
                  && 0 < |r.value.value.sells| == k
                  && 0 < |r.value.value.buys| == m
                  && (forall i :: 0 <= i < k ==> "price" in sells[i] && "ethAvailableVolume" in sells[i])
                  && (forall i :: 0 <= i < m ==> "price" in buys[i] && "ethAvailableVolume" in buys[i])
                  && (forall i :: 0 <= i < k ==>
                        r.value.value.sells[i] == Order(sells[k - 1 - i]["price"], sells[k - 1 - i]["ethAvailableVolume"]))
                  && (forall i :: 0 <= i < m ==>
                        r.value.value.buys[i] == Order(buys[i]["price"], buys[i]["ethAvailableVolume"])))
  {
    var k, m := SliceEnd(|sells|, n), SliceEnd(|buys|, n);
    if 0 < k && 0 < m {
      NormaliseShape(sells, buys, n, EntryToOrder);
      var r := Normalise(sells, buys, n, EntryToOrder);
      if r.Ok? {
        assert forall i :: 0 <= i < k ==> EntryToOrder(sells[i]).Ok?;
        assert forall i :: 0 <= i < m ==> EntryToOrder(buys[i]).Ok?;
      } else if exists i :: 0 <= i < k && EntryToOrder(sells[i]) == Err(r.error) {
        var i :| 0 <= i < k && EntryToOrder(sells[i]) == Err(r.error);
      } else {
        var i :| 0 <= i < m && EntryToOrder(buys[i]) == Err(r.error);
      }
    }
  }

  /**
   * The only exceptions a poll raises are the service's own and a missing
   * field; an exception from the service always comes through unchanged.
   */
  lemma CheckLoopErrors(reply: Reply, n: int)
    ensures reply.Raised? ==> CheckLoop(reply, n) == Err(RemoteFailure)
    ensures CheckLoop(reply, n).Err? ==> CheckLoop(reply, n).error == RemoteFailure || CheckLoop(reply, n).error.MissingKey?
  {
    if reply.Snapshot? {
      CheckLoopShape(reply.sells, reply.buys, n);
    }
  }

  /** The attempt each scripted reply would give, in order. */
  function Attempts(replies: seq<Reply>, n: int): (a: seq<Attempt>)
    ensures |a| == |replies|
  {
    if replies == [] then [] else [CheckLoop(replies[0], n)] + Attempts(replies[1..], n)
  }

  /** Attempt `i` is `check_loop` applied to the `i`-th reply. */
  lemma {:induction false} AttemptsAt(replies: seq<Reply>, n: int, i: nat)
    requires i < |replies|
    ensures Attempts(replies, n)[i] == CheckLoop(replies[i], n)
  {
    if i > 0 {
      AttemptsAt(replies[1..], n, i - 1);
    }
  }

  /** Every attempt is `check_loop` applied to its reply. */
  lemma AttemptsMatch(replies: seq<Reply>, n: int)
    ensures forall i :: 0 <= i < |replies| ==> Attempts(replies, n)[i] == CheckLoop(replies[i], n)
  {
    forall i | 0 <= i < |replies| ensures Attempts(replies, n)[i] == CheckLoop(replies[i], n) {
      AttemptsAt(replies, n, i);
    }
  }

  /**
   * Against the service's replies: `check_loop` never raises "no orders"
   * itself, so five replies make the call raise it exactly when each of
   * them is an empty poll.
   */
  lemma ExhaustionIffFiveEmptyReplies(tokens: map<string, string>, account: string, ticker: string,
                                      n: int, replies: seq<Reply>)
    requires |replies| == Retries
    requires ticker in tokens
    ensures CheckOrderBookRun(tokens, account, ticker, Attempts(replies, n)).outcome == Err(NoOrders(Retries))
            <==> forall j :: 0 <= j < Retries ==> CheckLoop(replies[j], n) == Ok(None)
  {
    var attempts := Attempts(replies, n);
    forall j | 0 <= j < |attempts| ensures attempts[j] == CheckLoop(replies[j], n) && attempts[j] != Err(NoOrders(Retries)) {
      AttemptsAt(replies, n, j);
      CheckLoopErrors(replies[j], n);
    }
    ExhaustionIffFiveEmptyPolls(tokens, account, ticker, attempts);
  }

  /**
   * Stands in for `EtherDeltaClientService` and `time.sleep`: it answers
   * the scripted `replies` in turn, counting those served, and logs every
   * call in order.
   */
  class Service {
    const replies: seq<Reply>
    var served: nat
    var events: seq<Event>

    ghost predicate Valid()
      reads this
    {
      served <= |replies|
    }

    constructor (replies: seq<Reply>)
      ensures Valid() && this.replies == replies && served == 0 && events == []
    {
      this.replies := replies;
      served := 0;
      events := [];
    }

    /** How many times a call has been made so far. */
    function Count(e: Event): (c: nat)
      reads this
    {
      multiset(events)[e]
    }

    /** The replies not yet served. */
    function Upcoming(): (u: seq<Reply>)
      reads this
      requires Valid()
    {
      replies[served..]
    }

    /** `es.start(user_account, token)`. */
    method Start(account: string, token: string)
      modifies this
      ensures served == old(served) && events == old(events) + [Started(account, token)]
    {
      events := events + [Started(account, token)];
    }

    /** `es.printBalances(token, user_account)`. */
    method PrintBalances(token: string, account: string)
      modifies this
      ensures served == old(served) && events == old(events) + [BalancesPrinted(token, account)]
    {
      events := events + [BalancesPrinted(token, account)];
    }

    /** `es.get_order_book()`: the next scripted reply. */
    method GetOrderBook() returns (reply: Reply)
      requires served < |replies|
      modifies this
      ensures reply == replies[old(served)] && served == old(served) + 1
      ensures events == old(events) + [Fetched]
    {
      reply := replies[served];
      served := served + 1;
      events := events + [Fetched];
    }

    /** `time.sleep(seconds)`. */
    method Sleep(seconds: nat)
      modifies this
      ensures served == old(served) && events == old(events) + [Slept(seconds)]
    {
      events := events + [Slept(seconds)];
    }

    /** `es.terminate()`. */
    method Terminate()
      modifies this
      ensures served == old(served) && events == old(events) + [Terminated]
    {
      events := events + [Terminated];
    }
  }

  /** `EtherDeltaChecker`, holding the token map, the wallet account and the service. */
  class EtherDeltaChecker {
    const tokens: map<string, string>
    const userAccount: string
    const es: Service

    constructor (tokens: map<string, string>, userAccount: string, es: Service)
      ensures this.tokens == tokens && this.userAccount == userAccount && this.es == es
    {
      this.tokens := tokens;
      this.userAccount := userAccount;
      this.es := es;
    }

    /** `check_loop`: one fetch from the service, then `CheckLoop` on the reply. */
    method CheckLoopOnce(n: int) returns (orders: Attempt)
      requires es.served < |es.replies|
      modifies es
      ensures orders == CheckLoop(es.replies[old(es.served)], n)
      ensures es.served == old(es.served) + 1 && es.events == old(es.events) + [Fetched]
    {
      var reply := es.GetOrderBook();
      orders := CheckLoop(reply, n);
    }

    /**
     * The `for i in range(retries)` loop of `check_order_book`: fetch, return
     * the first non-empty result, let an exception through, or sleep and try
     * again; after the last attempt raise "no orders".
     */
    method PollOrderBook(n: int) returns (r: Result<Book>)
      requires es.Valid() && Retries <= |es.Upcoming()|
      modifies es
      ensures var poll := Poll(Attempts(old(es.Upcoming())[..Retries], n));
              && r == poll.outcome
              && es.events == old(es.events) + poll.trace
              && es.served == old(es.served) + multiset(poll.trace)[Fetched]
              && es.Valid()
    {
      ghost var upcoming := es.Upcoming()[..Retries];
      ghost var start := es.served;
      ghost var log := es.events;
      ghost var attempts := Attempts(upcoming, n);
      var i := 0;
      while i < Retries
        invariant 0 <= i <= Retries
        invariant forall j :: 0 <= j < i ==> attempts[j] == Ok(None)
        invariant es.served == start + i
        invariant es.events == log + EmptyRounds(i)
      {
        var orders := CheckLoopOnce(n);
        AttemptsAt(upcoming, n, i);
        assert upcoming[i] == es.replies[start + i];
        Extend(log, EmptyRounds(i), Fetched, Slept(RetryDelay));
        if orders.Err? || orders.value.Some? {
          PollStopsAtFirstNonEmpty(attempts, i);
          return if orders.Err? then Err(orders.error) else Ok(orders.value.value);
        }
        es.Sleep(RetryDelay);
        i := i + 1;
      }
      PollAllEmpty(attempts);
      return Err(NoOrders(Retries));
    }

    /**
     * `check_order_book(ticker, number_of_orders)`: its result and the calls
     * it makes are those of `CheckOrderBookRun` on the replies not yet
     * served, and each fetch is served one reply. The `finally` clause
     * becomes the `Terminate` after polling, reached on every path once the
     * session has started.
     */
    method CheckOrderBook(ticker: string, n: int) returns (r: Result<Book>)
      requires es.Valid() && Retries <= |es.Upcoming()|
      modifies es
      ensures var run := CheckOrderBookRun(tokens, userAccount, ticker, Attempts(old(es.Upcoming())[..Retries], n));
              && r == run.outcome
              && es.events == old(es.events) + run.trace
              && es.served == old(es.served) + multiset(run.trace)[Fetched]
              && es.Valid()
      ensures es.Count(Terminated) == old(es.Count(Terminated)) + (if ticker in tokens then 1 else 0)
    {
      // Built as in the source, which never uses it.
      var symbol := Symbols.EtherDeltaSymbol(ticker);
      if ticker !in tokens {
        return Err(NoToken(ticker));
      }
      var token := tokens[ticker];
      ghost var upcoming := es.Upcoming();
      ghost var before := es.events;
      es.Start(userAccount, token);
      es.PrintBalances(token, userAccount);
      assert es.events == before + Opening(userAccount, token);
      assert es.Upcoming() == upcoming;
      r := PollOrderBook(n);
      es.Terminate();
      RunLog(tokens, userAccount, ticker, Attempts(upcoming[..Retries], n), before);
    }
  }
}
