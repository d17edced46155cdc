/**
 * api/api_gateio_bkp.py: `GateioAPI`, a REST client with a per-second
 * request throttle, and the pure parts of its calls: which ticker it
 * returns, the order it builds, and the balance map it reports.
 *
 * The clock, environment variables and the exchange's replies are
 * parameters. A `sleep` is taken to end exactly when asked.
 */
module RestClient {
  import opened Common
  import opened Balances

  /** The throttle's state: the limit, the requests counted and the start of the current window. */
  datatype Throttle = Throttle(limit: int, made: int, last: real)

  /**
   * `rate_limited_fetch` as written: with the limit reached and less than a
   * second gone since `last_request_time`, it sleeps to the end of that
   * second and starts counting again; in every case it then counts the
   * request. Nothing moves `last_request_time` forward otherwise.
   */
  function StepAsWritten(s: Throttle, now: real): Throttle
  {
    var s1 := if s.made >= s.limit && now - s.last < 1.0 then Throttle(s.limit, 0, s.last + 1.0) else s;
    Throttle(s1.limit, s1.made + 1, s1.last)
  }

  /** Every call as written counts itself: the counter is at least 1 afterwards. */
  lemma StepAsWrittenCounts(s: Throttle, now: real)
    requires s.made >= 0
    ensures StepAsWritten(s, now).made >= 1
    ensures StepAsWritten(s, now).made == s.made + 1 || StepAsWritten(s, now).made == 1
  {
  }

  /**
   * With a limit of one request per second, requests at 2.0 s and 2.5 s
   * after the client was made both go out unthrottled: once a second has
   * passed the window never moves, so the counter passes the limit.
   */
  lemma AsWrittenExceedsLimit()
    ensures var s := StepAsWritten(StepAsWritten(Throttle(1, 0, 0.0), 2.0), 2.5);
      s.made == 2 && s.made > s.limit && s.last == 0.0
  {
  }

  /**
   * The throttle as intended: a request a second or more after the window
   * began opens a new window; within the window, a request past the limit
   * waits for the next one.
   */
  function Step(s: Throttle, now: real): (r: Throttle)
    ensures r.limit == s.limit && (s.made >= 0 ==> r.made >= 1)
    ensures now - s.last >= 1.0 ==> r == Throttle(s.limit, 1, now)
  {
    if now - s.last >= 1.0 then Throttle(s.limit, 1, now)
    else if s.made >= s.limit then Throttle(s.limit, 1, s.last + 1.0)
    else Throttle(s.limit, s.made + 1, s.last)
  }

  /** The requests counted in a window never exceed a positive limit. */
  predicate WithinLimit(s: Throttle)
  {
    s.limit >= 1 ==> 0 <= s.made <= s.limit
  }

  /** Every intended step keeps the count within the limit. */
  lemma StepKeepsLimit(s: Throttle, now: real)
    requires WithinLimit(s)
    ensures WithinLimit(Step(s, now))
  {
  }

  /** Any run of requests, at any times, keeps the intended count within the limit. */
  lemma {:induction false} RunKeepsLimit(s: Throttle, times: seq<real>)
    requires WithinLimit(s)
    ensures WithinLimit(Run(s, times))
  {
    if |times| > 0 {
      RunKeepsLimit(s, times[..|times| - 1]);
      StepKeepsLimit(Run(s, times[..|times| - 1]), times[|times| - 1]);
    }
  }

  /** The throttle after a run of requests at the given times. */
  function Run(s: Throttle, times: seq<real>): Throttle
  {
    if |times| == 0 then s else Step(Run(s, times[..|times| - 1]), times[|times| - 1])
  }

  /** The intended throttle holds the example above to its limit: the second request waits for the next second. */
  lemma IntendedHoldsLimit()
    ensures var s := Run(Throttle(1, 0, 0.0), [2.0, 2.5]);
      s.made == 1 && s.last == 3.0
  {
    assert [2.0, 2.5][..1] == [2.0];
    assert [2.0][..0] == [];
  }

  /** `api_key or os.getenv(...)`: a given non-empty value, else the environment's. */
  function KeyOr(given: Option<string>, env: Option<string>): (r: Option<string>)
    ensures given.Some? && given.value != "" ==> r == given
    ensures (given.None? || given.value == "") ==> r == env
  {
    if given.Some? && given.value != "" then given else env
  }

  class GateioAPI {
    var apiKey: Option<string>
    var secretKey: Option<string>
    var rateLimit: int
    var requestsMade: int
    var lastRequestTime: real

    /** A new client: the given keys or the environment's, the given limit or `DefaultRateLimit`, no requests yet. */
    constructor (apiKey: Option<string>, envKey: Option<string>, secretKey: Option<string>, envSecret: Option<string>,
                 rateLimit: Option<int>, now: real)
      ensures this.apiKey == KeyOr(apiKey, envKey) && this.secretKey == KeyOr(secretKey, envSecret)
      ensures this.rateLimit == (if rateLimit.Some? then rateLimit.value else DefaultRateLimit)
      ensures requestsMade == 0 && lastRequestTime == now
      ensures Valid()
    {
      this.apiKey := KeyOr(apiKey, envKey);
      this.secretKey := KeyOr(secretKey, envSecret);
      this.rateLimit := if rateLimit.Some? then rateLimit.value else DefaultRateLimit;
      requestsMade := 0;
      lastRequestTime := now;
    }

    function State(): Throttle
      reads this
    {
      Throttle(rateLimit, requestsMade, lastRequestTime)
    }

    predicate Valid()
      reads this
    {
      WithinLimit(State())
    }

    /** The throttle part of `rate_limited_fetch`, as intended, for a request made at `now`. */
    method RateLimitedFetch(now: real)
      requires Valid()
      modifies this
      ensures Valid()
      ensures State() == Step(old(State()), now)
      ensures apiKey == old(apiKey) && secretKey == old(secretKey)
    {
      if now - lastRequestTime >= 1.0 {
        requestsMade := 0;
        lastRequestTime := now;
      } else if requestsMade >= rateLimit {
        requestsMade := 0;
        lastRequestTime := lastRequestTime + 1.0;
      }
      requestsMade := requestsMade + 1;
      StepKeepsLimit(old(State()), now);
    }
  }

  /** The rate limit a client gets when none is given. */
  const DefaultRateLimit: int := 10

  /**
   * `async_get_ticker_info`: the first ticker of a non-empty reply; `{}` for
   * an empty reply or a client error.
   */
  function TickerInfo(reply: Result<seq<map<string, Json>>>): (r: map<string, Json>)
    ensures reply.Ok? && reply.value != [] ==> r == reply.value[0]
    ensures reply.Err? || reply.value == [] ==> r == map[]
  {
    if reply.Ok? && reply.value != [] then reply.value[0] else map[]
  }

  /** `create_order`'s request: a limit order; the amount and price go as their `str()` text. */
  function CreateOrderPayload(symbol: string, side: string, amountText: string, priceText: string): (order: map<string, string>)
    ensures order.Keys == {"currency_pair", "type", "side", "amount", "price"}
    ensures order["type"] == "limit" && order["currency_pair"] == symbol && order["side"] == side
    ensures order["amount"] == amountText && order["price"] == priceText
  {
    map["currency_pair" := symbol, "type" := "limit", "side" := side, "amount" := amountText, "price" := priceText]
  }

  /** `{account.currency: account.available for account in accounts}`. */
  function AvailableByCurrency(accounts: seq<SpotBalance>): (m: map<string, string>)
    ensures m.Keys == set i | 0 <= i < |accounts| :: accounts[i].currency
  {
    if |accounts| == 0 then map[]
    else
      var last := accounts[|accounts| - 1];
      AvailableByCurrency(accounts[..|accounts| - 1])[last.currency := last.available]
  }

  /** A currency listed more than once keeps the available amount of its last listing. */
  lemma {:induction false} LastListingWins(accounts: seq<SpotBalance>, i: nat)
    requires i < |accounts|
    requires forall j :: i < j < |accounts| ==> accounts[j].currency != accounts[i].currency
    ensures AvailableByCurrency(accounts)[accounts[i].currency] == accounts[i].available
  {
    if i < |accounts| - 1 {
      var init := accounts[..|accounts| - 1];
      assert init[i] == accounts[i];
      LastListingWins(init, i);
    }
  }

  /** `get_account_balance`: currency to available amount, or `{}` when the exchange call raised. */
  function GetAccountBalance(accounts: Result<seq<SpotBalance>>): (m: map<string, string>)
    ensures accounts.Err? ==> m == map[]
    ensures accounts.Ok? ==> m.Keys == set i | 0 <= i < |accounts.value| :: accounts.value[i].currency
  {
    if accounts.Err? then map[] else AvailableByCurrency(accounts.value)
  }
}
