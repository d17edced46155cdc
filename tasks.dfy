/**
 * server/tasks.py: the Celery task that folds one-minute closes into a candle of
 * a higher timeframe and stores it through the server's data handler, and
 * the aggregation it uses.
 *
 * The clock (`time.time()`) is a parameter. The one-minute data comes from
 * `fetch_candlestick_data`, which the data handler of server/data_handler.py
 * does not define; what that call returns (None when it raises) is a
 * parameter too. The retry itself is reduced to its outcome.
 */
module Tasks {
  import opened Common
  import opened Text
  import opened Candles

  /** A higher-timeframe candle as `aggregate_to_higher_timeframe` returns it. */
  datatype Candle = Candle(t: real, o: real, h: real, l: real, c: real, v: real, n: string, a: real)

  /** `max(data)`. */
  function MaxOf(s: seq<real>): (m: real)
    requires |s| > 0
    ensures m in s && forall i :: 0 <= i < |s| ==> s[i] <= m
  {
    if |s| == 1 then s[0]
    else
      var m := MaxOf(s[..|s| - 1]);
      if s[|s| - 1] > m then s[|s| - 1] else m
  }

  /** `min(data)`. */
  function MinOf(s: seq<real>): (m: real)
    requires |s| > 0
    ensures m in s && forall i :: 0 <= i < |s| ==> m <= s[i]
  {
    if |s| == 1 then s[0]
    else
      var m := MinOf(s[..|s| - 1]);
      if s[|s| - 1] < m then s[|s| - 1] else m
  }

  /** `sum(data)`. */
  function Sum(s: seq<real>): real
  {
    if |s| == 0 then 0.0 else Sum(s[..|s| - 1]) + s[|s| - 1]
  }

  /**
   * `aggregate_to_higher_timeframe`: open is the first value, close the
   * last, high the largest, low the smallest, volume and base amount the sum,
   * and the name `timeframe_pair`; an empty list raises IndexError.
   */
  function Aggregate(data: seq<real>, pair: string, timeframe: string, now: real): Result<Candle>
  {
    if |data| == 0 then Err("IndexError: list index out of range")
    else
      var v := Sum(data);
      Ok(Candle(now, data[0], MaxOf(data), MinOf(data), data[|data| - 1], v, timeframe + "_" + pair, v))
  }

  /** The aggregate candle brackets every value, so low <= open, close <= high. */
  lemma AggregateSpec(data: seq<real>, pair: string, timeframe: string, now: real)
    ensures Aggregate(data, pair, timeframe, now).Err? <==> data == []
    ensures Aggregate(data, pair, timeframe, now).Ok? ==>
      var k := Aggregate(data, pair, timeframe, now).value;
      k.o == data[0] && k.c == data[|data| - 1]
      && k.l <= k.o <= k.h && k.l <= k.c <= k.h
      && k.h in data && k.l in data
      && (forall i :: 0 <= i < |data| ==> k.l <= data[i] <= k.h)
      && k.v == Sum(data) && k.a == k.v && k.n == timeframe + "_" + pair
  {
    if data != [] {
      var k := Aggregate(data, pair, timeframe, now).value;
      assert k.h == MaxOf(data) && k.l == MinOf(data);
      assert k.l <= data[0] <= k.h;
      assert k.l <= data[|data| - 1] <= k.h;
    }
  }

  /** `int(timeframe[:-1])`: the timeframe without its unit letter, read as an integer. */
  function TimeframeFactor(timeframe: string): Option<int>
  {
    ParseInt(if |timeframe| == 0 then "" else timeframe[..|timeframe| - 1])
  }

  /** "5m" gives 5: the factor of a number followed by a unit letter is that number. */
  lemma FactorOf(n: int, unit: char)
    ensures TimeframeFactor(ShowInt(n) + [unit]) == Some(n)
  {
    assert (ShowInt(n) + [unit])[..|ShowInt(n)|] == ShowInt(n);
    ParseShowInt(n);
  }

  /** The record handed to `insert_data_to_db`. */
  function Record(k: Candle): map<string, Json>
  {
    map["t" := JNum(k.t), "o" := JNum(k.o), "h" := JNum(k.h), "l" := JNum(k.l), "c" := JNum(k.c),
        "v" := JNum(k.v), "n" := JStr(k.n), "a" := JNum(k.a)]
  }

  datatype TaskOutcome =
    | Inserted(row: CandleRow)   // one row stored with window_close True
    | Skipped                    // not exactly `factor` values: a warning, nothing stored
    | Retry(reason: string)      // something raised: the Celery task is retried

  /**
   * `create_higher_timeframe_candlesticks`: the factor is parsed from the
   * timeframe; exactly `factor` fetched values give one stored candle with
   * `window_close` True; any other count stores nothing; anything that
   * raises makes the Celery task retry.
   */
  function CreateHigherTimeframe(pair: string, timeframe: string, fetched: Option<seq<real>>, now: real): TaskOutcome
  {
    match TimeframeFactor(timeframe)
    case None => Retry("ValueError: invalid literal for int()")
    case Some(factor) =>
      match fetched
      case None => Retry("fetch_candlestick_data raised")
      case Some(data) =>
        if |data| != factor then Skipped
        else match Aggregate(data, pair, timeframe, now)
          case Err(m) => Retry(m)
          case Ok(k) =>
            match InsertRow(Record(k), JBool(true))
            case None => Skipped
            case Some(row) => Inserted(row)
  }

  /**
   * The Celery task stores a candle exactly when the factor parses and exactly that
   * many (and at least one) values were fetched; it retries when the factor
   * does not parse, the fetch raises, or a factor of 0 meets no data; the
   * stored row is the aggregate candle in table order with window_close True.
   */
  lemma CreateHigherTimeframeSpec(pair: string, timeframe: string, fetched: Option<seq<real>>, now: real)
    ensures var r := CreateHigherTimeframe(pair, timeframe, fetched, now);
      (r.Inserted? <==> fetched.Some? && TimeframeFactor(timeframe) == Some(|fetched.value|) && |fetched.value| > 0)
      && (r.Retry? <==> TimeframeFactor(timeframe).None? || fetched.None?
                        || (fetched.value == [] && TimeframeFactor(timeframe) == Some(0)))
      && (r.Inserted? ==>
            var data := fetched.value;
            r.row == CandleRow(Some(now), JNum(data[0]), JNum(MaxOf(data)), JNum(MinOf(data)), JNum(data[|data| - 1]),
                               JNum(Sum(data)), JStr(timeframe + "_" + pair), JNum(Sum(data)), JBool(true)))
  {
    if fetched.Some? && TimeframeFactor(timeframe) == Some(|fetched.value|) && |fetched.value| > 0 {
      var k := Aggregate(fetched.value, pair, timeframe, now).value;
      StoredRow(k);
    }
  }

  /** The record of a candle always converts: its row is the candle's fields in table order. */
  lemma StoredRow(k: Candle)
    ensures InsertRow(Record(k), JBool(true))
      == Some(CandleRow(Some(k.t), JNum(k.o), JNum(k.h), JNum(k.l), JNum(k.c), JNum(k.v), JStr(k.n), JNum(k.a), JBool(true)))
  {
    var r := Record(k);
    assert Get(r, "t") == JNum(k.t) && Get(r, "o") == JNum(k.o) && Get(r, "h") == JNum(k.h);
    assert Get(r, "l") == JNum(k.l) && Get(r, "c") == JNum(k.c) && Get(r, "v") == JNum(k.v);
    assert Get(r, "n") == JStr(k.n) && Get(r, "a") == JNum(k.a);
  }
}
