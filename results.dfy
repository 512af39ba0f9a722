/** The exceptions the order-book checker can raise, as values. */
module Results {

  /** One constructor per exception the checker raises or lets through. */
  datatype Error =
    | BadChecker(kind: string)   // the factory's failed assertion on an unknown checker type
    | NoToken(ticker: string)    // ValueError: the ticker has no EtherDelta token
    | NoOrders(retries: nat)     // ValueError: every polling attempt came back empty
    | MissingField               // IndexError: a Binance entry has fewer than two fields
    | MissingKey(key: string)    // KeyError: an EtherDelta entry lacks a field
    | RemoteFailure              // an exception raised by the exchange client or service

  /** A computation that either yields a value or raises one of the errors above. */
  datatype Result<T> = Ok(value: T) | Err(error: Error)
}
