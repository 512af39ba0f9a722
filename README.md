# Order-book checkers of the lubi bot, modelled in Dafny

The bot looks up the order book of a token on two exchanges: the Binance
depth endpoint and the EtherDelta order relay. Order-book retrieval lives in
`app/checker.py`, and this project models it in six modules:

- `Results` (results.dfy): the exceptions the checkers raise, as an `Error`
  datatype, and a `Result` wrapper.
- `Orders` (orders.dfy): the normalisation both checkers share.
  - It models Python's `s[0:n]` for every integer `n`, including negative ones.
  - It models `list(reversed(...))`.
  - It models `list(map(convert, ...))`, which raises the error of the first entry that fails.
  - The sell side is the first `n` asks reversed, the buy side the first `n`
    bids in order, and the sell side is converted first.
- `Symbols` (symbols.dfy): the market symbols, `TICKER` + `"ETH"` for Binance
  and `TICKER` + `"-ETH"` for EtherDelta, with ASCII upper-casing.
- `Factory` (factory.dfy): `Checker.factory` as a closed datatype of checker
  kinds, with an error for every other name.
- `Binance` (binance.dfy):
  - `BinanceChecker.check_order_book` is a method over a scripted client class.
  - That class answers one depth reply and records the symbol requested.
- `Session` (session.dfy) and `EtherDelta` (etherdelta.dfy): `EtherDeltaChecker.check_order_book`.
  - `check_loop` is a function of one service reply.
  - `Session` models the retry loop and the try/finally teardown as `Poll` and
    `CheckOrderBookRun`: what the call returns or raises, and the log of
    service calls it makes, given what each attempt sees.
  - In `EtherDelta`, a `Service` class stands in for `EtherDeltaClientService`
    and `time.sleep`. It serves scripted replies one at a time and logs every
    `start`, `printBalances`, fetch, sleep and `terminate`. `Count(e)` is how
    many times call `e` was made.
  - The `EtherDeltaChecker` class runs the `for` loop as a `while` loop over
    that service. Its methods are proved to produce exactly the result and
    log of the functional model.

Prices and volumes are `real`; `float(...)` parsing is outside the model. A
Binance entry is a sequence of numbers, and an EtherDelta entry is a map from
field name to number. The token registry is a given `map<string, string>`.
The network, the sleep and the wallet session are the scripted client and
service classes.

## Behaviour worth knowing

- The factory recognises exactly the names `"ed"` and `"binance"`
  (app/checker.py:87-92).
- `check_loop` counts a poll as empty as soon as EITHER truncated side is
  empty (app/checker.py:152).
- The sell side is the first `n` asks reversed, so for an exchange that lists
  asks cheapest first it comes out most expensive first
  (`Orders.SellsAreCheapestDescending`).
- The loop sleeps after every empty attempt, the fifth included, so
  exhaustion takes five sleeps of ten seconds before the error is raised
  (app/checker.py:171-179).
- The EtherDelta symbol `TICKER-ETH` is built but never used. The token is
  looked up under the ticker as given, not upper-cased (app/checker.py:139-140).

## Model

| member | source | states |
|---|---|---|
| Orders.Prefix | app/checker.py:114-115 | `s[0:n]`: the leading part of `s` whose length `SliceEnd(|s|, n)` fixes |
| Orders.TopSells | app/checker.py:114 | the sell side before conversion, the first `n` asks reversed; `SellsUndoToPrefix` and `NormaliseShape` state its contents |
| Orders.TopBuys | app/checker.py:115 | the buy side before conversion, the first `n` bids in order; `NormaliseShape` states its contents |
| Orders.MapEntries | app/checker.py:117-120 | `list(map(convert, entries))`, raising at the first failing entry; `MapEntriesShape` states its contract |
| Orders.Normalise | app/checker.py:114-120 | both sides truncated, the sells reversed, then converted sells first; `NormaliseShape` states its contract |
| Orders.SliceEnd | app/checker.py:114-115 | the length of `s[0:n]` never exceeds the list. For `n >= 0` it is `n` clamped to the list's length. For negative `n` it is the length minus `-n`, or 0 when `-n` exceeds the length |
| Orders.Reverse | app/checker.py:114 | `reversed` keeps the length, and element `i` is element `|s|-1-i` of the input |
| Orders.ReverseInvolutive | app/checker.py:114 | reversing twice gives back the original list |
| Orders.MapEntriesShape | app/checker.py:117-120 | `list(map(...))` succeeds iff every entry converts, and then order `i` is entry `i` converted. Otherwise it raises the error of the first entry that fails, after all the entries before it converted |
| Orders.NormaliseShape | app/checker.py:114-120 | normalisation succeeds iff every kept ask and kept bid converts. The sells then have `k = SliceEnd(|asks|,n)` orders, sell `i` from ask `k-1-i`; the buys have `SliceEnd(|bids|,n)` orders, buy `i` from bid `i`. A failure carries the error of the last bad kept ask, or, when all kept asks convert, of the first bad kept bid |
| Orders.SellsUndoToPrefix | app/checker.py:114 | reversing the sell side gives back exactly the exchange's first `n` asks |
| Orders.SellsAreCheapestDescending | app/checker.py:114 | for asks listed cheapest first, the sells are in descending price, and no left-out ask is cheaper than a shown sell |
| Orders.BuysAreDearestDescending | app/checker.py:115 | for bids listed dearest first, the buys are in descending price, and no left-out bid is dearer than a shown buy |
| Symbols.BinanceSymbol | app/checker.py:107 | `'{}ETH'.format(ticker.upper())`; `SymbolShape` and `SymbolsAgreeUpToCase` state its contract |
| Symbols.EtherDeltaSymbol | app/checker.py:139 | `'{}-ETH'.format(ticker.upper())`; `SymbolShape` and `SymbolsAgreeUpToCase` state its contract |
| Symbols.Upper | app/checker.py:107 | upper-casing keeps the length and maps every character through ASCII `upper` |
| Symbols.UpperIsCanonical | app/checker.py:107 | an upper-cased ticker has no lower-case letter, and upper-casing again changes nothing |
| Symbols.UpperChangesOnlyLowercase | app/checker.py:107 | only `a`..`z` change, each to the letter 32 code points below |
| Symbols.SymbolShape | app/checker.py:139 | the Binance symbol is the upper-cased ticker followed by `ETH`; the EtherDelta symbol is the upper-cased ticker followed by `-ETH` |
| Symbols.SymbolsAgreeUpToCase | app/checker.py:107 | two tickers give the same symbol, on either exchange, iff they agree once upper-cased |
| Factory.Create | app/checker.py:87-92 | `"ed"` gives the EtherDelta checker and `"binance"` the Binance checker (both iff). Every other name fails with a bad-checker error naming it |
| Factory.CreateInvertsId | app/checker.py:87-92 | each checker kind is created from its own name and from no other |
| Binance.EntryToOrder | app/checker.py:118 | `Order(entry[0], entry[1])`, IndexError for an entry with fewer than two fields; `OutcomeFields` states its effect on the book |
| Binance.Outcome | app/checker.py:111-122 | what `check_order_book` returns or raises for one depth reply; `OutcomeFields` and `SidesHaveDepth` state its contract |
| Binance.OutcomeFields | app/checker.py:111-122 | the call succeeds iff every kept entry has two fields, and otherwise raises IndexError. Sells are the first `n` asks reversed and buys the first `n` bids, price from field 0 and volume from field 1 |
| Binance.SidesHaveDepth | app/checker.py:114-115 | for `n >= 0`, each side has `min(n, entries available)` orders |
| Binance.ReversedAsksExample | app/checker.py:114-118 | the asks 0.01, 0.02, 0.03 at depth 2 come back as the sells 0.02, 0.01 |
| Binance.Client.GetOrderBook | app/checker.py:108 | the client answers its next scripted reply and records the symbol it was asked for |
| Binance.BinanceChecker.CheckOrderBook | app/checker.py:106-122 | exactly one request, for the Binance symbol of the ticker; the result is `Outcome` of the reply |
| EtherDelta.EntryToOrder | app/checker.py:155-158 | an order from the `price` and `ethAvailableVolume` fields, KeyError for the first one missing; `CheckLoopShape` states its effect on the book |
| EtherDelta.CheckLoop | app/checker.py:145-160 | `check_loop` on one service reply; `CheckLoopShape` and `CheckLoopErrors` state its contract |
| EtherDelta.CheckLoopShape | app/checker.py:149-160 | a poll is empty iff either truncated side is empty. It raises iff both sides are non-empty and some kept entry lacks `price` or `ethAvailableVolume`, and the error is then KeyError; otherwise it returns the book. A non-empty poll has both sides non-empty: sells from the reversed first `n` sells, buys from the first `n` buys, fields `price` and `ethAvailableVolume` |
| EtherDelta.CheckLoopErrors | app/checker.py:147-158 | `check_loop` lets the service's exception through and otherwise raises only KeyError |
| EtherDelta.AttemptsAt | app/checker.py:171-172 | attempt `i` is `check_loop` of the `i`-th reply served |
| EtherDelta.AttemptsMatch | app/checker.py:171-172 | every attempt is `check_loop` of its own reply |
| EtherDelta.ExhaustionIffFiveEmptyReplies | app/checker.py:170-179 | with a known ticker, five replies make the call raise "no orders" iff each of them is an empty poll |
| EtherDelta.Service.GetOrderBook | app/checker.py:147 | the service answers the next scripted reply, serves one more, and logs one fetch |
| EtherDelta.Service.Start | app/checker.py:165 | logs the start with the account and token; nothing else changes |
| EtherDelta.Service.PrintBalances | app/checker.py:168 | logs the balance print; nothing else changes |
| EtherDelta.Service.Sleep | app/checker.py:175 | logs the sleep and its length; nothing else changes |
| EtherDelta.Service.Terminate | app/checker.py:181 | logs the teardown; nothing else changes |
| EtherDelta.EtherDeltaChecker.CheckLoopOnce | app/checker.py:145-160 | one fetch, and the result is `check_loop` of the reply served |
| EtherDelta.EtherDeltaChecker.PollOrderBook | app/checker.py:170-179 | the loop returns or raises what `Poll` gives on the next five replies. The service log gains exactly `Poll`'s calls, and the service serves one reply per fetch |
| EtherDelta.EtherDeltaChecker.CheckOrderBook | app/checker.py:138-181 | result and log equal `CheckOrderBookRun` on the next five replies, and one reply is served per fetch. A known ticker adds exactly one teardown and an unknown one none |
| Session.Poll | app/checker.py:170-179 | the retry loop over the attempts; `PollStopsAtFirstNonEmpty`, `PollSuccessIsFirstNonEmpty`, `PollAllEmpty` and `PollExhaustedIffAllEmpty` state its contract |
| Session.CheckOrderBookRun | app/checker.py:162-181 | the whole call: token lookup, opening, retry loop and teardown; `RunCounts`, `SessionIsBracketed`, `FetchesWithinSession` and the exhaustion and first-non-empty lemmas state its contract |
| Session.EmptyRoundsCount | app/checker.py:172-175 | `i` empty attempts make `i` fetches and `i` sleeps of ten seconds and nothing else |
| Session.PollSkipsEmpty | app/checker.py:171-175 | leading empty attempts only add their fetch and sleep; the outcome is decided by what follows |
| Session.PollEvents | app/checker.py:171-177 | the loop only fetches and sleeps, at most once per attempt, and sleeps no more often than it fetches |
| Session.PollStopsAtFirstNonEmpty | app/checker.py:171-177 | the first non-empty attempt `k` ends the loop after `k+1` fetches and `k` sleeps. Its book is returned or its exception raised |
| Session.PollAllEmpty | app/checker.py:170-179 | when every attempt is empty the loop raises "no orders" after one fetch and one sleep per attempt |
| Session.PollSuccessIsFirstNonEmpty | app/checker.py:171-177 | a returned book is the book of the first non-empty attempt, and every earlier attempt was empty |
| Session.PollExhaustedIffAllEmpty | app/checker.py:170-179 | when no attempt raises "no orders" itself, the loop raises it iff every attempt was empty |
| Session.RunCounts | app/checker.py:162-181 | with a known ticker the log is start, balance print, the loop's calls, teardown. There is one start and one teardown, and the fetches and sleeps are the loop's |
| Session.RunLog | app/checker.py:162-181 | appending the run to an earlier log adds exactly one teardown |
| Session.UnknownTokenCallsNothing | app/checker.py:140-143 | an unknown ticker raises before any call: no start, no teardown, no fetch |
| Session.SessionIsBracketed | app/checker.py:162-181 | the session starts with the ticker's token, then prints balances, and is never started again. Teardown comes exactly once, as the last call, whatever the outcome |
| Session.FetchesWithinSession | app/checker.py:165-177 | between the balance print and the teardown there are only fetches and sleeps: at most five fetches, and no more sleeps than fetches |
| Session.ExhaustionIffFiveEmptyPolls | app/checker.py:170-179 | when no attempt raises "no orders" itself, the call raises it iff all five attempts were empty |
| Session.ExhaustionAfterFiveEmptyPolls | app/checker.py:170-179 | five empty attempts: "no orders" is raised after exactly five fetches and five ten-second sleeps, and teardown happens once |
| Session.FirstNonEmptyPollEndsSession | app/checker.py:171-181 | when attempt `k` is the first non-empty one, there are `k+1` fetches and `k` sleeps, and its fetch is the last call before teardown |
| Session.FirstNonEmptyPollDecides | app/checker.py:171-177 | when attempt `k` is the first non-empty one, the call returns its book or raises its exception |
| Session.SuccessIsFirstNonEmptyPoll | app/checker.py:162-177 | a successful call had a known ticker, and returns the book of its first non-empty attempt after only empty ones |
| Session.FifthPollStillSucceeds | app/checker.py:170-177 | four empty attempts and a non-empty fifth: the fifth book is returned and nothing is raised |

## Left out

- `Order.stringify`, `Checker.get_print_table` and `Checker.print_order_book` (app/checker.py:49-50, 75-85): float formatting and table printing.
- `float(...)` parsing of raw fields: entries arrive already numeric. Binance's string fields and a field that fails to parse are not modelled.
- `parse_ed_tokens` (app/checker.py:53-56): file and JSON input. The registry is a given map from ticker to token. A JSON `null` token, which the source also rejects, is not modelled.
- The configuration reads in both constructors, `get_parser`, `check`, the `schedule` loop and `__main__` (app/checker.py:59-64, 98-104, 126-136, 186-205): configuration and process plumbing.
- Logging calls, `app/bot.py` and `config/config_ini.py`: message output, chat handlers and logging setup. Neither is part of this model.
- The internals of the Binance client and of `EtherDeltaClientService`: they are replaced by scripted classes that answer replies in turn. A service failure is a single `RemoteFailure`, without its message.
- Exceptions from `start` and `printBalances`: the model's service calls always succeed. The source would still run `terminate` after a failed `start`, and that path is not modelled.
- Unicode upper-casing: `Symbols.Upper` maps only ASCII `a`..`z`.
- The factory's `assert 0` is modelled as a `BadChecker` error. Its disappearance under `python -O` is not modelled.
- Exception messages: errors carry the ticker, the missing key or the retry count, not the formatted text.
- EtherDelta.EtherDeltaChecker.CheckOrderBook: requires the scripted service to hold at least five unserved replies, because the scripted service has to have a reply ready for every fetch the loop may make; a real service always answers.
- EtherDelta.EtherDeltaChecker.PollOrderBook: requires at least five unserved replies, for the same reason.
- Binance.BinanceChecker.CheckOrderBook: requires the scripted client to hold a reply, for the same reason.
- Session.ExhaustionIffFiveEmptyPolls: requires that no attempt itself raises "no orders". For attempts produced by `check_loop`, `EtherDelta.ExhaustionIffFiveEmptyReplies` discharges this.
