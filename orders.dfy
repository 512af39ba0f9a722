/**
 * Order-book normalisation shared by both checkers: keep the first `n`
 * raw entries of each side, reverse the sell side, and convert every
 * entry into an `Order`.
 */
module Orders {
  import opened Results

  /** One price level of an order book. */
  datatype Order = Order(price: real, volume: real)

  /** The pair (sell orders, buy orders) that `check_order_book` returns. */
  datatype Book = Book(sells: seq<Order>, buys: seq<Order>)

  /**
   * The length of the Python slice `s[0:n]` of a list of length `len`:
   * a non-negative `n` is clamped to `len`, a negative `n` counts from the end.
   */
  function SliceEnd(len: nat, n: int): (k: nat)
    ensures k <= len
    ensures 0 <= n ==> k <= n && (k == n || k == len)
    ensures n < 0 ==> k == (if len + n < 0 then 0 else len + n)
  {
    if 0 <= n then (if n < len then n else len)
    else if len + n < 0 then 0 else len + n
  }

  /** Python's `s[0:n]`. */
  function Prefix<T>(s: seq<T>, n: int): (r: seq<T>)
    ensures |r| == SliceEnd(|s|, n)
    ensures r == s[..|r|]
  {
    s[..SliceEnd(|s|, n)]
  }

  /** `list(reversed(s))`. */
  function Reverse<T>(s: seq<T>): (r: seq<T>)
    ensures |r| == |s|
    ensures forall i :: 0 <= i < |s| ==> r[i] == s[|s| - 1 - i]
  {
    if s == [] then [] else [s[|s| - 1]] + Reverse(s[..|s| - 1])
  }

  /** The sell side before conversion: the first `n` asks, reversed. */
  function TopSells<T>(asks: seq<T>, n: int): (r: seq<T>)
  {
    Reverse(Prefix(asks, n))
  }

  /** The buy side before conversion: the first `n` bids, in their order. */
  function TopBuys<T>(bids: seq<T>, n: int): (r: seq<T>)
  {
    Prefix(bids, n)
  }

  /**
   * `list(map(convert, entries))`: converts the entries front to back and
   * stops at the first one that raises.
   */
  function MapEntries<E>(entries: seq<E>, convert: E -> Result<Order>): (r: Result<seq<Order>>)
  {
    if entries == [] then Ok([])
    else
      match convert(entries[0])
      case Err(e) => Err(e)
      case Ok(o) =>
        match MapEntries(entries[1..], convert)
        case Err(e) => Err(e)
        case Ok(os) => Ok([o] + os)
  }

  /**
   * The conversion succeeds exactly when every entry converts, and then
   * yields their orders in the same order; otherwise it raises the error of
   * the first entry that fails.
   */
  lemma {:induction false} MapEntriesShape<E>(entries: seq<E>, convert: E -> Result<Order>)
    ensures var r := MapEntries(entries, convert);
            && (r.Ok? <==> forall i :: 0 <= i < |entries| ==> convert(entries[i]).Ok?)
            && (r.Ok? ==> |r.value| == |entries|)
            && (r.Ok? ==> forall i :: 0 <= i < |entries| ==> r.value[i] == convert(entries[i]).value)
            && (r.Err? ==> exists i :: 0 <= i < |entries| && convert(entries[i]) == Err(r.error)
                                       && forall j :: 0 <= j < i ==> convert(entries[j]).Ok?)
  {
    if entries != [] {
      var tail := entries[1..];
      MapEntriesShape(tail, convert);
      assert forall i :: 0 < i < |entries| ==> entries[i] == tail[i - 1];
      if convert(entries[0]).Ok? && MapEntries(tail, convert).Err? {
        var e := MapEntries(tail, convert).error;
        var i :| 0 <= i < |tail| && convert(tail[i]) == Err(e) && forall j :: 0 <= j < i ==> convert(tail[j]).Ok?;
        assert convert(entries[i + 1]) == Err(e);
      }
    }
  }

  /**
   * Both sides of an order book: the sell side is built from the first `n`
   * asks, reversed, then converted; the buy side from the first `n` bids,
   * in order. The sell side is converted first, so its error wins.
   */
  function Normalise<E>(asks: seq<E>, bids: seq<E>, n: int, convert: E -> Result<Order>): (r: Result<Book>)
  {
    match MapEntries(TopSells(asks, n), convert)
    case Err(e) => Err(e)
    case Ok(sells) =>
      match MapEntries(TopBuys(bids, n), convert)
      case Err(e) => Err(e)
      case Ok(buys) => Ok(Book(sells, buys))
  }

  /**
   * Normalisation succeeds exactly when every kept entry converts; the sell
   * side then has `SliceEnd(|asks|, n)` orders, order `i` converted from ask
   * `k - 1 - i`, and the buy side order `i` converted from bid `i`. A
   * failure is the error of the last bad kept ask, or, when every kept ask
   * converts, of the first bad kept bid.
   */
  lemma NormaliseShape<E>(asks: seq<E>, bids: seq<E>, n: int, convert: E -> Result<Order>)
    ensures var r := Normalise(asks, bids, n, convert);
            var k, m := SliceEnd(|asks|, n), SliceEnd(|bids|, n);
            && (r.Ok? <==> (forall i :: 0 <= i < k ==> convert(asks[i]).Ok?)
                           && (forall i :: 0 <= i < m ==> convert(bids[i]).Ok?))
            && (r.Ok? ==> |r.value.sells| == k && |r.value.buys| == m)
            && (r.Ok? ==> forall i :: 0 <= i < k ==> r.value.sells[i] == convert(asks[k - 1 - i]).value)
            && (r.Ok? ==> forall i :: 0 <= i < m ==> r.value.buys[i] == convert(bids[i]).value)
            && (r.Err? ==>
                  (exists i :: 0 <= i < k && convert(asks[i]) == Err(r.error)
                               && forall j :: i < j < k ==> convert(asks[j]).Ok?)
                  || ((forall i :: 0 <= i < k ==> convert(asks[i]).Ok?)
                      && exists i :: 0 <= i < m && convert(bids[i]) == Err(r.error)
                                     && forall j :: 0 <= j < i ==> convert(bids[j]).Ok?))
  {
    var top := TopSells(asks, n);
    var k := |top|;
    assert forall i :: 0 <= i < k ==> top[i] == asks[k - 1 - i];
    assert forall i :: 0 <= i < k ==> top[k - 1 - i] == asks[i];
    MapEntriesShape(top, convert);
    MapEntriesShape(TopBuys(bids, n), convert);
    var sells := MapEntries(top, convert);
    if sells.Err? {
      var i :| 0 <= i < k && convert(top[i]) == Err(sells.error) && forall j :: 0 <= j < i ==> convert(top[j]).Ok?;
      assert convert(asks[k - 1 - i]) == Err(sells.error);
      forall j | k - 1 - i < j < k ensures convert(asks[j]).Ok? {
        assert asks[j] == top[k - 1 - j];
      }
    }
  }

  /** Reversing twice gives back the original sequence. */
  lemma {:induction false} ReverseInvolutive<T>(s: seq<T>)
    ensures Reverse(Reverse(s)) == s
  {
    var r := Reverse(Reverse(s));
    assert |r| == |s|;
    forall i | 0 <= i < |s| ensures r[i] == s[i] {
      assert r[i] == Reverse(s)[|s| - 1 - i];
    }
  }

  /** Reversing the sell side gives back the exchange's own first `n` asks. */
  lemma SellsUndoToPrefix<T>(asks: seq<T>, n: int)
    ensures Reverse(TopSells(asks, n)) == asks[..SliceEnd(|asks|, n)]
  {
    ReverseInvolutive(Prefix(asks, n));
  }

  /**
   * When the exchange lists its asks cheapest first, the sell side holds the
   * cheapest `n` of them, most expensive first: it is sorted by descending
   * price and no ask left out is cheaper than a displayed one.
   */
  lemma SellsAreCheapestDescending<E>(asks: seq<E>, bids: seq<E>, n: int, convert: E -> Result<Order>)
    requires Normalise(asks, bids, n, convert).Ok?
    requires forall i, j :: 0 <= i < j < |asks| ==>
               convert(asks[i]).Ok? && convert(asks[j]).Ok? && convert(asks[i]).value.price <= convert(asks[j]).value.price
    ensures var sells := Normalise(asks, bids, n, convert).value.sells;
            forall i, j :: 0 <= i < j < |sells| ==> sells[j].price <= sells[i].price
    ensures var sells := Normalise(asks, bids, n, convert).value.sells;
            forall i, j :: 0 <= i < |sells| && SliceEnd(|asks|, n) <= j < |asks| ==>
              sells[i].price <= convert(asks[j]).value.price
  {
    NormaliseShape(asks, bids, n, convert);
    var sells := Normalise(asks, bids, n, convert).value.sells;
    var k := SliceEnd(|asks|, n);
    forall i, j | 0 <= i < j < |sells| ensures sells[j].price <= sells[i].price {
      assert sells[i] == convert(asks[k - 1 - i]).value;
      assert sells[j] == convert(asks[k - 1 - j]).value;
    }
    forall i, j | 0 <= i < |sells| && k <= j < |asks| ensures sells[i].price <= convert(asks[j]).value.price {
      assert sells[i] == convert(asks[k - 1 - i]).value;
    }
  }

  /**
   * When the exchange lists its bids dearest first, the buy side holds the
   * dearest `n` of them in that order: no bid left out is dearer than a
   * displayed one.
   */
  lemma BuysAreDearestDescending<E>(asks: seq<E>, bids: seq<E>, n: int, convert: E -> Result<Order>)
    requires Normalise(asks, bids, n, convert).Ok?
    requires forall i, j :: 0 <= i < j < |bids| ==>
               convert(bids[i]).Ok? && convert(bids[j]).Ok? && convert(bids[j]).value.price <= convert(bids[i]).value.price
    ensures var buys := Normalise(asks, bids, n, convert).value.buys;
            forall i, j :: 0 <= i < j < |buys| ==> buys[j].price <= buys[i].price
    ensures var buys := Normalise(asks, bids, n, convert).value.buys;
            forall i, j :: 0 <= i < |buys| && SliceEnd(|bids|, n) <= j < |bids| ==>
              convert(bids[j]).value.price <= buys[i].price
  {
    NormaliseShape(asks, bids, n, convert);
    var buys := Normalise(asks, bids, n, convert).value.buys;
    forall i, j | 0 <= i < j < |buys| ensures buys[j].price <= buys[i].price {
      assert buys[i] == convert(bids[i]).value;
      assert buys[j] == convert(bids[j]).value;
    }
    forall i, j | 0 <= i < |buys| && SliceEnd(|bids|, n) <= j < |bids|
      ensures convert(bids[j]).value.price <= buys[i].price
    {
      assert buys[i] == convert(bids[i]).value;
    }
  }
}
