/**
 * The protocol of `EtherDeltaChecker.check_order_book` apart from the
 * service itself: which calls it makes on the service, in which order, and
 * what it returns or raises, given what each poll of the order book gives.
 */
module Session {
  import opened Results
  import opened Orders

  /** How many times the order book is polled. */
  const Retries: nat := 5

  /** Seconds slept after an empty poll. */
  const RetryDelay: nat := 10

  /** The calls the checker makes on the outside world, in the order it makes them. */
  datatype Event =
    | Started(account: string, token: string)
    | BalancesPrinted(token: string, account: string)
    | Fetched
    | Slept(seconds: nat)
    | Terminated

  /** The optional result of one poll. */
  datatype Option<T> = None | Some(value: T)

  /** What one attempt of the loop sees: the value `check_loop` returns, or its exception. */
  type Attempt = Result<Option<Book>>

  /** What one call of `check_order_book` returns or raises, and the calls it makes. */
  datatype Run = Run(outcome: Result<Book>, trace: seq<Event>)

  /**
   * The retry loop over the attempts still allowed: each attempt fetches one
   * reply; an empty one is followed by a sleep, the first non-empty one is
   * returned, an exception stops the loop, and once no attempt is left "no
   * orders" is raised.
   */
  function Poll(attempts: seq<Attempt>): (r: Run)
  {
    if attempts == [] then Run(Err(NoOrders(Retries)), [])
    else
      match attempts[0]
      case Err(e) => Run(Err(e), [Fetched])
      case Ok(Some(book)) => Run(Ok(book), [Fetched])
      case Ok(None) =>
        var rest := Poll(attempts[1..]);
        Run(rest.outcome, [Fetched, Slept(RetryDelay)] + rest.trace)
  }

  /** The calls of the service made before polling starts. */
  function Opening(account: string, token: string): (r: seq<Event>)
  {
    [Started(account, token), BalancesPrinted(token, account)]
  }

  /**
   * `check_order_book(ticker, n)` when its polls would see `attempts` in
   * turn (at most `Retries` of them are made): an unknown ticker raises before
   * anything is called; otherwise the session is started, balances are
   * printed, the book is polled and the session is terminated, whatever the
   * polling gave.
   */
  function CheckOrderBookRun(tokens: map<string, string>, account: string, ticker: string,
                             attempts: seq<Attempt>): (r: Run)
  {
    if ticker !in tokens then Run(Err(NoToken(ticker)), [])
    else
      var poll := Poll(attempts);
      Run(poll.outcome, Opening(account, tokens[ticker]) + poll.trace + [Terminated])
  }

  /** `i` empty attempts: each one fetch and one sleep. */
  function EmptyRounds(i: nat): (r: seq<Event>)
  {
    if i == 0 then [] else EmptyRounds(i - 1) + [Fetched, Slept(RetryDelay)]
  }

  /** An empty round makes one fetch and one sleep and nothing else. */
  lemma {:induction false} EmptyRoundsCount(i: nat)
    ensures |EmptyRounds(i)| == 2 * i
    ensures multiset(EmptyRounds(i))[Fetched] == i
    ensures multiset(EmptyRounds(i))[Slept(RetryDelay)] == i
    ensures forall e :: e in EmptyRounds(i) ==> e == Fetched || e == Slept(RetryDelay)
  {
    if i > 0 {
      EmptyRoundsCount(i - 1);
    }
  }

  /** A poll whose first `i` attempts are empty begins with `i` empty rounds and is decided later. */
  lemma {:induction false} PollSkipsEmpty(attempts: seq<Attempt>, i: nat)
    requires i <= |attempts|
    requires forall j :: 0 <= j < i ==> attempts[j] == Ok(None)
    ensures Poll(attempts).outcome == Poll(attempts[i..]).outcome
    ensures Poll(attempts).trace == EmptyRounds(i) + Poll(attempts[i..]).trace
  {
    if i > 0 {
      PollSkipsEmpty(attempts, i - 1);
      var rest := attempts[i - 1..];
      assert rest[0] == attempts[i - 1];
      assert rest[1..] == attempts[i..];
      assert Poll(rest).trace == [Fetched, Slept(RetryDelay)] + Poll(attempts[i..]).trace;
    }
  }

  /** The polling loop only fetches and sleeps, fetches at most once per attempt, and sleeps no more often. */
  lemma {:induction false} PollEvents(attempts: seq<Attempt>)
    ensures forall e :: e in Poll(attempts).trace ==> e == Fetched || e == Slept(RetryDelay)
    ensures multiset(Poll(attempts).trace)[Fetched] <= |attempts|
    ensures multiset(Poll(attempts).trace)[Slept(RetryDelay)] <= multiset(Poll(attempts).trace)[Fetched]
  {
    if attempts != [] && attempts[0] == Ok(None) {
      PollEvents(attempts[1..]);
    }
  }

  /**
   * The loop stops at the first attempt `k` that is not empty, after `k + 1`
   * fetches and `k` sleeps, fetching nothing afterwards: it returns that
   * attempt's book, or raises that attempt's exception.
   */
  lemma PollStopsAtFirstNonEmpty(attempts: seq<Attempt>, k: nat)
    requires k < |attempts|
    requires forall j :: 0 <= j < k ==> attempts[j] == Ok(None)
    requires attempts[k] != Ok(None)
    ensures Poll(attempts).trace == EmptyRounds(k) + [Fetched]
    ensures multiset(Poll(attempts).trace)[Fetched] == k + 1
    ensures multiset(Poll(attempts).trace)[Slept(RetryDelay)] == k
    ensures attempts[k].Ok? ==> Poll(attempts).outcome == Ok(attempts[k].value.value)
    ensures attempts[k].Err? ==> Poll(attempts).outcome == Err(attempts[k].error)
  {
    PollSkipsEmpty(attempts, k);
    assert attempts[k..][0] == attempts[k];
    EmptyRoundsCount(k);
  }

  /** When every attempt is empty the loop raises "no orders" after one empty round per attempt. */
  lemma PollAllEmpty(attempts: seq<Attempt>)
    requires forall j :: 0 <= j < |attempts| ==> attempts[j] == Ok(None)
    ensures Poll(attempts) == Run(Err(NoOrders(Retries)), EmptyRounds(|attempts|))
    ensures multiset(Poll(attempts).trace)[Fetched] == |attempts|
  {
    PollSkipsEmpty(attempts, |attempts|);
    assert attempts[|attempts|..] == [];
    assert EmptyRounds(|attempts|) + [] == EmptyRounds(|attempts|);
    EmptyRoundsCount(|attempts|);
  }

  /** Extending a log by one event, or by two, regroups as extending it by a longer tail. */
  lemma Extend<T>(log: seq<T>, a: seq<T>, x: T, y: T)
    ensures log + a + [x] == log + (a + [x])
    ensures log + a + [x] + [y] == log + (a + [x, y])
  {
    assert [x] + [y] == [x, y];
  }

  /** Conversely, a successful poll returns the book of its first non-empty attempt. */
  lemma {:induction false} PollSuccessIsFirstNonEmpty(attempts: seq<Attempt>)
    requires Poll(attempts).outcome.Ok?
    ensures exists k :: 0 <= k < |attempts|
                        && (forall j :: 0 <= j < k ==> attempts[j] == Ok(None))
                        && attempts[k] == Ok(Some(Poll(attempts).outcome.value))
  {
    var book := Poll(attempts).outcome.value;
    if attempts[0] == Ok(None) {
      PollSuccessIsFirstNonEmpty(attempts[1..]);
      var k :| 0 <= k < |attempts| - 1
               && (forall j :: 0 <= j < k ==> attempts[1..][j] == Ok(None))
               && attempts[1..][k] == Ok(Some(book));
      assert attempts[k + 1] == Ok(Some(book));
      forall j | 0 <= j < k + 1 ensures attempts[j] == Ok(None) {
        if j > 0 {
          assert attempts[j] == attempts[1..][j - 1];
        }
      }
    } else {
      assert attempts[0] == Ok(Some(book));
    }
  }

  /**
   * When no attempt itself raises "no orders", the loop raises it exactly
   * when every attempt was empty, after one empty round per attempt.
   */
  lemma {:induction false} PollExhaustedIffAllEmpty(attempts: seq<Attempt>)
    requires forall j :: 0 <= j < |attempts| ==> attempts[j] != Err(NoOrders(Retries))
    ensures Poll(attempts).outcome == Err(NoOrders(Retries))
            <==> forall j :: 0 <= j < |attempts| ==> attempts[j] == Ok(None)
    ensures (forall j :: 0 <= j < |attempts| ==> attempts[j] == Ok(None)) ==>
              Poll(attempts).trace == EmptyRounds(|attempts|)
  {
    if attempts != [] {
      assert forall j :: 0 <= j < |attempts| - 1 ==> attempts[1..][j] == attempts[j + 1];
      PollExhaustedIffAllEmpty(attempts[1..]);
      if forall j :: 0 <= j < |attempts| ==> attempts[j] == Ok(None) {
        PollSkipsEmpty(attempts, |attempts|);
      }
    }
  }

  /** Regrouping a log made of four parts. */
  lemma Regroup<T>(a: seq<T>, b: seq<T>, x: T, y: T)
    ensures a + (b + [x]) + [y] == a + b + [x, y]
  {
    assert [x] + [y] == [x, y];
  }

  /** An event between the head and the tail of a log comes from its middle part. */
  lemma InMiddle<T>(a: seq<T>, b: seq<T>, c: seq<T>, i: int)
    requires |a| <= i < |a| + |b|
    ensures (a + b + c)[i] == b[i - |a|] && (a + b + c)[i] in b
  {
  }

  /**
   * With a known ticker the run's log is the opening, the poll's log and a
   * teardown: the session is started and terminated once, and the fetches
   * and sleeps are the poll's.
   */
  lemma RunCounts(tokens: map<string, string>, account: string, ticker: string, attempts: seq<Attempt>)
    requires ticker in tokens
    ensures var poll := Poll(attempts);
            var run := CheckOrderBookRun(tokens, account, ticker, attempts);
            && run.outcome == poll.outcome
            && run.trace == Opening(account, tokens[ticker]) + poll.trace + [Terminated]
            && multiset(run.trace)[Fetched] == multiset(poll.trace)[Fetched]
            && multiset(run.trace)[Slept(RetryDelay)] == multiset(poll.trace)[Slept(RetryDelay)]
            && multiset(run.trace)[Terminated] == 1
            && multiset(run.trace)[Started(account, tokens[ticker])] == 1
  {
    var poll := Poll(attempts);
    var run := CheckOrderBookRun(tokens, account, ticker, attempts);
    PollEvents(attempts);
    assert Terminated !in poll.trace && Started(account, tokens[ticker]) !in poll.trace;
    assert multiset(run.trace) == multiset(Opening(account, tokens[ticker])) + multiset(poll.trace) + multiset{Terminated};
  }

  /** The run's log appended to an earlier log: one more teardown. */
  lemma RunLog(tokens: map<string, string>, account: string, ticker: string,
               attempts: seq<Attempt>, before: seq<Event>)
    requires ticker in tokens
    ensures var run := CheckOrderBookRun(tokens, account, ticker, attempts);
            && before + Opening(account, tokens[ticker]) + Poll(attempts).trace + [Terminated] == before + run.trace
            && multiset(before + run.trace)[Terminated] == multiset(before)[Terminated] + 1
  {
    RunCounts(tokens, account, ticker, attempts);
  }

  /** An unknown ticker raises before the service is touched: no start, no teardown. */
  lemma UnknownTokenCallsNothing(tokens: map<string, string>, account: string, ticker: string,
                                 attempts: seq<Attempt>)
    requires ticker !in tokens
    ensures CheckOrderBookRun(tokens, account, ticker, attempts) == Run(Err(NoToken(ticker)), [])
  {
  }

  /**
   * A known ticker starts the session with its own token, then prints
   * balances, and terminates exactly once, as the last call, whatever the
   * outcome; the session is never started again.
   */
  lemma {:induction false} SessionIsBracketed(tokens: map<string, string>, account: string, ticker: string,
                                              attempts: seq<Attempt>)
    requires ticker in tokens
    ensures var t := CheckOrderBookRun(tokens, account, ticker, attempts).trace;
            && 3 <= |t|
            && t[0] == Started(account, tokens[ticker])
            && t[1] == BalancesPrinted(tokens[ticker], account)
            && t[|t| - 1] == Terminated
            && multiset(t)[Terminated] == 1
            && multiset(t)[Started(account, tokens[ticker])] == 1
            && (forall i :: 0 < i < |t| ==> !t[i].Started?)
  {
    RunCounts(tokens, account, ticker, attempts);
    PollEvents(attempts);
    var poll := Poll(attempts);
    var t := CheckOrderBookRun(tokens, account, ticker, attempts).trace;
    forall i | 0 < i < |t| ensures !t[i].Started? {
      if 2 <= i < |t| - 1 {
        InMiddle(Opening(account, tokens[ticker]), poll.trace, [Terminated], i);
      }
    }
  }

  /**
   * Between the opening and the teardown there are only fetches and sleeps:
   * at most five fetches, and no more sleeps than fetches.
   */
  lemma {:induction false} FetchesWithinSession(tokens: map<string, string>, account: string, ticker: string,
                                                attempts: seq<Attempt>)
    requires |attempts| == Retries
    requires ticker in tokens
    ensures var t := CheckOrderBookRun(tokens, account, ticker, attempts).trace;
            && (forall i :: 2 <= i < |t| - 1 ==> t[i] == Fetched || t[i] == Slept(RetryDelay))
            && multiset(t)[Fetched] <= Retries
            && multiset(t)[Slept(RetryDelay)] <= multiset(t)[Fetched]
  {
    RunCounts(tokens, account, ticker, attempts);
    PollEvents(attempts);
    var poll := Poll(attempts);
    var t := CheckOrderBookRun(tokens, account, ticker, attempts).trace;
    forall i | 2 <= i < |t| - 1 ensures t[i] == Fetched || t[i] == Slept(RetryDelay) {
      InMiddle(Opening(account, tokens[ticker]), poll.trace, [Terminated], i);
    }
  }

  /**
   * As long as no poll itself raises "no orders", the call raises it
   * exactly when all five polls were empty.
   */
  lemma ExhaustionIffFiveEmptyPolls(tokens: map<string, string>, account: string, ticker: string,
                                    attempts: seq<Attempt>)
    requires |attempts| == Retries
    requires ticker in tokens
    requires forall j :: 0 <= j < |attempts| ==> attempts[j] != Err(NoOrders(Retries))
    ensures CheckOrderBookRun(tokens, account, ticker, attempts).outcome == Err(NoOrders(Retries))
            <==> forall j :: 0 <= j < Retries ==> attempts[j] == Ok(None)
  {
    PollExhaustedIffAllEmpty(attempts);
  }

  /**
   * After five empty polls the call raises "no orders" after exactly five
   * fetches and five sleeps of ten seconds, and terminates once.
   */
  lemma {:induction false} ExhaustionAfterFiveEmptyPolls(tokens: map<string, string>, account: string, ticker: string,
                                                         attempts: seq<Attempt>)
    requires |attempts| == Retries
    requires ticker in tokens
    requires forall j :: 0 <= j < Retries ==> attempts[j] == Ok(None)
    ensures var run := CheckOrderBookRun(tokens, account, ticker, attempts);
            && run.outcome == Err(NoOrders(Retries))
            && run.trace == Opening(account, tokens[ticker]) + EmptyRounds(Retries) + [Terminated]
            && multiset(run.trace)[Fetched] == 5
            && multiset(run.trace)[Slept(10)] == 5
            && multiset(run.trace)[Terminated] == 1
  {
    PollSkipsEmpty(attempts, Retries);
    assert attempts[Retries..] == [];
    assert EmptyRounds(Retries) + [] == EmptyRounds(Retries);
    RunCounts(tokens, account, ticker, attempts);
    EmptyRoundsCount(Retries);
  }

  /**
   * When attempt `k` is the first non-empty one, the call makes `k + 1`
   * fetches and `k` sleeps; the fetch of attempt `k` is the last call before
   * teardown.
   */
  lemma {:induction false} FirstNonEmptyPollEndsSession(tokens: map<string, string>, account: string, ticker: string,
                                                        attempts: seq<Attempt>, k: nat)
    requires ticker in tokens
    requires k < |attempts|
    requires forall j :: 0 <= j < k ==> attempts[j] == Ok(None)
    requires attempts[k] != Ok(None)
    ensures var run := CheckOrderBookRun(tokens, account, ticker, attempts);
            && run.trace == Opening(account, tokens[ticker]) + EmptyRounds(k) + [Fetched, Terminated]
            && multiset(run.trace)[Fetched] == k + 1
            && multiset(run.trace)[Slept(RetryDelay)] == k
  {
    PollStopsAtFirstNonEmpty(attempts, k);
    RunCounts(tokens, account, ticker, attempts);
    Regroup(Opening(account, tokens[ticker]), EmptyRounds(k), Fetched, Terminated);
  }

  /**
   * When attempt `k` is the first non-empty one, the call returns its book,
   * or raises its exception.
   */
  lemma {:induction false} FirstNonEmptyPollDecides(tokens: map<string, string>, account: string, ticker: string,
                                                    attempts: seq<Attempt>, k: nat)
    requires ticker in tokens
    requires k < |attempts|
    requires forall j :: 0 <= j < k ==> attempts[j] == Ok(None)
    requires attempts[k] != Ok(None)
    ensures var run := CheckOrderBookRun(tokens, account, ticker, attempts);
            && (attempts[k].Ok? ==> run.outcome == Ok(attempts[k].value.value))
            && (attempts[k].Err? ==> run.outcome == Err(attempts[k].error))
  {
    PollStopsAtFirstNonEmpty(attempts, k);
  }

  /** A successful call returns the book of its first non-empty poll. */
  lemma SuccessIsFirstNonEmptyPoll(tokens: map<string, string>, account: string, ticker: string,
                                   attempts: seq<Attempt>)
    requires CheckOrderBookRun(tokens, account, ticker, attempts).outcome.Ok?
    ensures ticker in tokens
    ensures exists k :: 0 <= k < |attempts|
                        && (forall j :: 0 <= j < k ==> attempts[j] == Ok(None))
                        && attempts[k] == Ok(Some(CheckOrderBookRun(tokens, account, ticker, attempts).outcome.value))
  {
    PollSuccessIsFirstNonEmpty(attempts);
  }

  /** Four empty polls and a non-empty fifth: the fifth book is returned, nothing raised. */
  lemma FifthPollStillSucceeds(tokens: map<string, string>, account: string, ticker: string,
                               attempts: seq<Attempt>, book: Book)
    requires |attempts| == Retries
    requires ticker in tokens
    requires forall j :: 0 <= j < 4 ==> attempts[j] == Ok(None)
    requires attempts[4] == Ok(Some(book))
    ensures CheckOrderBookRun(tokens, account, ticker, attempts).outcome == Ok(book)
  {
    FirstNonEmptyPollDecides(tokens, account, ticker, attempts, 4);
  }
}
