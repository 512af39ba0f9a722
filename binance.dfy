/** `BinanceChecker`: one depth request, then normalisation; no retry. */
module Binance {
  import opened Results
  import opened Orders
  import Symbols

  /** One raw depth entry `[price, quantity, ...]`, its fields already numeric. */
  type Entry = seq<real>

  /** What the depth endpoint answers: the two raw sides, or an exception. */
  datatype Reply = Depth(asks: seq<Entry>, bids: seq<Entry>) | Failure

  /** `Order(float(entry[0]), float(entry[1]))`. */
  function EntryToOrder(entry: Entry): (r: Result<Order>)
  {
    if |entry| < 2 then Err(MissingField) else Ok(Order(entry[0], entry[1]))
  }

  /** The value `check_order_book` returns, or raises, for a depth reply. */
  function Outcome(reply: Reply, n: int): (r: Result<Book>)
  {
    match reply
    case Failure => Err(RemoteFailure)
    case Depth(asks, bids) => Normalise(asks, bids, n, EntryToOrder)
  }

  /**
   * The sell side is the first `n` asks reversed and the buy side the first
   * `n` bids, each order taking its price from field 0 and its volume from
   * field 1; the call raises an IndexError exactly when one of those entries
   * lacks a field.
   */
  lemma {:induction false} OutcomeFields(asks: seq<Entry>, bids: seq<Entry>, n: int)
    ensures var r := Outcome(Depth(asks, bids), n);
            var k, m := SliceEnd(|asks|, n), SliceEnd(|bids|, n);
            && (r.Ok? <==> (forall i :: 0 <= i < k ==> |asks[i]| >= 2) && (forall i :: 0 <= i < m ==> |bids[i]| >= 2))
            && (r.Err? ==> r.error == MissingField)
            && (r.Ok? ==> |r.value.sells| == k && |r.value.buys| == m)
            && (r.Ok? ==> forall i :: 0 <= i < k ==> r.value.sells[i] == Order(asks[k - 1 - i][0], asks[k - 1 - i][1]))
            && (r.Ok? ==> forall i :: 0 <= i < m ==> r.value.buys[i] == Order(bids[i][0], bids[i][1]))
  {
    NormaliseShape(asks, bids, n, EntryToOrder);
    var r := Normalise(asks, bids, n, EntryToOrder);
    var k, m := SliceEnd(|asks|, n), SliceEnd(|bids|, n);
    assert (forall i :: 0 <= i < k ==> |asks[i]| >= 2) <==> (forall i :: 0 <= i < k ==> EntryToOrder(asks[i]).Ok?);
    assert (forall i :: 0 <= i < m ==> |bids[i]| >= 2) <==> (forall i :: 0 <= i < m ==> EntryToOrder(bids[i]).Ok?);
    if r.Err? {
      if exists i :: 0 <= i < k && EntryToOrder(asks[i]) == Err(r.error) {
        var i :| 0 <= i < k && EntryToOrder(asks[i]) == Err(r.error);
      } else {
        var i :| 0 <= i < m && EntryToOrder(bids[i]) == Err(r.error);
      }
    }
  }

  /** With a non-negative depth each side has `min(n, available)` orders. */
  lemma SidesHaveDepth(asks: seq<Entry>, bids: seq<Entry>, n: int)
    requires 0 <= n
    requires Outcome(Depth(asks, bids), n).Ok?
    ensures var b := Outcome(Depth(asks, bids), n).value;
            && |b.sells| == (if n < |asks| then n else |asks|)
            && |b.buys| == (if n < |bids| then n else |bids|)
  {
    OutcomeFields(asks, bids, n);
  }

  /**
   * The cheapest asks, most expensive first: the three asks
   * (0.01, 5), (0.02, 3), (0.03, 1) at depth 2 become the sells
   * (0.02, 3), (0.01, 5).
   */
  lemma ReversedAsksExample()
    ensures Outcome(Depth([[0.01, 5.0], [0.02, 3.0], [0.03, 1.0]], []), 2)
            == Ok(Book([Order(0.02, 3.0), Order(0.01, 5.0)], []))
  {
    var asks: seq<Entry> := [[0.01, 5.0], [0.02, 3.0], [0.03, 1.0]];
    OutcomeFields(asks, [], 2);
    var b := Outcome(Depth(asks, []), 2).value;
    assert |b.sells| == 2 && b.sells[0] == Order(0.02, 3.0) && b.sells[1] == Order(0.01, 5.0);
    assert b.sells == [Order(0.02, 3.0), Order(0.01, 5.0)];
  }

  /** Stands in for the Binance REST client: answers scripted replies and records the symbols asked for. */
  class Client {
    var pending: seq<Reply>
    var requests: seq<string>

    constructor (replies: seq<Reply>)
      ensures pending == replies && requests == []
    {
      pending := replies;
      requests := [];
    }

    /** `get_order_book(symbol=symbol)`. */
    method GetOrderBook(symbol: string) returns (reply: Reply)
      requires pending != []
      modifies this
      ensures reply == old(pending)[0] && pending == old(pending)[1..]
      ensures requests == old(requests) + [symbol]
    {
      reply := pending[0];
      pending := pending[1..];
      requests := requests + [symbol];
    }
  }

  /** `BinanceChecker`, holding its client. */
  class BinanceChecker {
    const client: Client

    constructor (client: Client)
      ensures this.client == client
    {
      this.client := client;
    }

    /**
     * `check_order_book(ticker, number_of_orders)`: asks for the upper-cased
     * ticker against ETH once and normalises the answer.
     */
    method CheckOrderBook(ticker: string, n: int) returns (r: Result<Book>)
      requires client.pending != []
      modifies client
      ensures client.requests == old(client.requests) + [Symbols.BinanceSymbol(ticker)]
      ensures client.pending == old(client.pending)[1..]
      ensures r == Outcome(old(client.pending)[0], n)
    {
      var symbol := Symbols.BinanceSymbol(ticker);
      var depth := client.GetOrderBook(symbol);
      match depth
      case Failure =>
        r := Err(RemoteFailure);
      case Depth(asks, bids) =>
        var topSells := TopSells(asks, n);
        var topBuys := TopBuys(bids, n);
        var sells := MapEntries(topSells, EntryToOrder);
        if sells.Err? {
          r := Err(sells.error);
        } else {
          var buys := MapEntries(topBuys, EntryToOrder);
          if buys.Err? {
            r := Err(buys.error);
          } else {
            r := Ok(Book(sells.value, buys.value));
          }
        }
    }
  }
}
