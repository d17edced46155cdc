/**
 * teknik/taliban.py: a candlestick feed that keeps, per tracked pair, a
 * window of the most recent closes, accepts at most one close a minute
 * across all pairs, and marks when a window is full enough for the moving
 * averages.
 *
 * The clock is a parameter in whole seconds; the averages themselves
 * (TA-Lib) and the printing are not part of this model.
 */
module Taliban {
  import opened Common
  import opened Text
  import opened Candles

  /** `int(j)`: None when `int()` raises; a number is truncated toward zero. */
  function ToInt(j: Json): Option<int>
  {
    match j
    case JNull => None
    case JBool(b) => Some(if b then 1 else 0)
    case JNum(x) => Some(if x >= 0.0 then x.Floor else -((-x).Floor))
    case JStr(s) => ParseInt(s)
    case JContainer(_) => None
  }

  /** `"_".join(name.split('_')[1:])`: the subscription name without its interval field. */
  function PairOfName(name: string): string
  {
    DropFirstField(name, '_')
  }

  /** A name built as `interval_pair`, with no `_` in the interval, names that pair ("1m_BTC_USDT" names "BTC_USDT"). */
  lemma PairOfJoinedName(interval: string, pair: string)
    requires '_' !in interval
    ensures PairOfName(interval + "_" + pair) == pair
  {
    var name := interval + "_" + pair;
    var k := |interval|;
    assert name[k] == '_';
    DropFirstFieldIsSuffix(name, '_');
    assert IndexOf(name, '_') == Some(k);
    assert name[k + 1..] == pair;
  }

  /** `timedelta.seconds` for a difference of whole seconds: the seconds part alone, without the days. */
  function TimedeltaSeconds(delta: int): int
  {
    delta % 86400
  }

  /** The minute gate as written: `(now - last).seconds >= 60`. */
  predicate GateAsWritten(last: Option<int>, now: int)
  {
    last.None? || TimedeltaSeconds(now - last.value) >= 60
  }

  /** A day and thirty seconds after the last accepted close, the gate as written still refuses. */
  lemma GateAsWrittenForgetsDays()
    ensures !GateAsWritten(Some(0), 86430) && 86430 - 0 >= 60
  {
  }

  /** The minute gate as intended: a minute or more since the last accepted close. */
  predicate Gate(last: Option<int>, now: int)
  {
    last.None? || now - last.value >= 60
  }

  /** The intended gate opens exactly when a full minute has passed, however many days that spans. */
  lemma GateSpec(last: int, now: int)
    ensures Gate(Some(last), now) <==> now >= last + 60
    ensures Gate(Some(last), last + 86430) && !Gate(Some(last), last + 59)
  {
  }

  /** `deque(maxlen=cap).append(x)`: x goes on the right and the oldest values fall off the left. */
  function Append(buf: seq<real>, x: real, cap: nat): (r: seq<real>)
    ensures |r| == if |buf| + 1 <= cap then |buf| + 1 else cap
    ensures |buf| <= cap && cap > 0 ==> r[|r| - 1] == x
  {
    var all := buf + [x];
    if |all| <= cap then all else all[|all| - cap..]
  }

  /** The newest `cap` values of `xs`. */
  function Window(xs: seq<real>, cap: nat): (w: seq<real>)
    ensures |w| <= cap
  {
    if |xs| <= cap then xs else xs[|xs| - cap..]
  }

  /** Appending to the window of a history gives the window of the longer history. */
  lemma AppendWindow(xs: seq<real>, x: real, cap: nat)
    ensures Append(Window(xs, cap), x, cap) == Window(xs + [x], cap)
  {
    var all := xs + [x];
    if |xs| > cap {
      assert Window(xs, cap) + [x] == all[|xs| - cap..];
    }
  }

  /** A buffer fed a history of closes from empty holds the newest `cap` of them. */
  lemma {:induction false} AppendAll(xs: seq<real>, cap: nat)
    ensures Feed([], xs, cap) == Window(xs, cap)
  {
    if |xs| > 0 {
      var init := xs[..|xs| - 1];
      var x := xs[|xs| - 1];
      assert init + [x] == xs;
      assert Feed([], xs, cap) == Append(Feed([], init, cap), x, cap);
      AppendAll(init, cap);
      AppendWindow(init, x, cap);
    }
  }

  /** The buffer after appending each of `xs` in turn. */
  function Feed(buf: seq<real>, xs: seq<real>, cap: nat): seq<real>
  {
    if |xs| == 0 then buf else Append(Feed(buf, xs[..|xs| - 1], cap), xs[|xs| - 1], cap)
  }

  /** The part of the feed `on_message` changes. */
  datatype FeedState = FeedState(last: Option<int>, buffers: map<string, seq<real>>, delivered: nat)

  /** What `on_message` does with a message whose `result` is `result` (None when absent or not an object). */
  datatype Reception =
    | Raised(s: FeedState)                     // t, c or n unusable, or the pair untracked
    | Skipped(s: FeedState)                    // no candlestick, or the minute gate closed
    | Accepted(s: FeedState, computed: bool)   // a close was appended; computed when the window is full

  /**
   * `on_message` at time `now` (as intended): a candlestick result is read
   * (t as int, c as float, n as text), the pair taken from n, and behind the
   * minute gate the timer moves and the close is appended; an untracked pair
   * then raises KeyError. A full window of fewer than two closes makes TA-Lib
   * raise (its averages need a period of at least 2) after the append. The
   * callback, when callable, sees every message that did not raise.
   */
  function Receive(st: FeedState, result: Option<map<string, Json>>, now: int, cap: nat, callable: bool): Reception
  {
    var delivered := if callable then st.delivered + 1 else st.delivered;
    if !(result.Some? && "n" in result.value) then Skipped(st.(delivered := delivered))
    else
      var r := result.value;
      var c := ToFloat(Get(r, "c"));
      if ToInt(Get(r, "t")).None? || c.None? || !r["n"].JStr? then Raised(st)
      else if !Gate(st.last, now) then Skipped(st.(delivered := delivered))
      else
        var pair := PairOfName(r["n"].s);
        if pair !in st.buffers then Raised(st.(last := Some(now)))
        else
          var buf := Append(st.buffers[pair], c.value, cap);
          if |buf| == cap && cap < 2 then Raised(FeedState(Some(now), st.buffers[pair := buf], st.delivered))
          else Accepted(FeedState(Some(now), st.buffers[pair := buf], delivered), |buf| == cap)
  }

  /** Every buffer holds at most `cap` closes. */
  predicate Bounded(st: FeedState, cap: nat)
  {
    forall p :: p in st.buffers ==> |st.buffers[p]| <= cap
  }

  /**
   * Receiving keeps every buffer within its capacity and the tracked pairs
   * fixed; a close is appended, as its newest value, to the buffer of the pair
   * the message names and to no other, and only behind an open gate. A message that raises appends nothing, unless
   * it is the averages on a window shorter than two that raise.
   */
  lemma ReceiveSpec(st: FeedState, result: Option<map<string, Json>>, now: int, cap: nat, callable: bool)
    requires Bounded(st, cap)
    ensures var r := Receive(st, result, now, cap, callable);
      Bounded(r.s, cap) && r.s.buffers.Keys == st.buffers.Keys
      && (r.Accepted? || r.s.buffers != st.buffers ==> (Gate(st.last, now) && r.s.last == Some(now)
            && var p := PairOfName(result.value["n"].s);
            p in st.buffers && r.s.buffers == st.buffers[p := Append(st.buffers[p], ToFloat(Get(result.value, "c")).value, cap)]))
      && (r.Skipped? ==> r.s.buffers == st.buffers)
      && (r.Raised? && r.s.buffers != st.buffers ==> cap < 2)
  {
  }

  /** One timer serves every pair: half a minute after a close for one pair, a close for any pair is skipped. */
  lemma SharedTimer(st: FeedState, a: Option<map<string, Json>>, b: Option<map<string, Json>>, now: int, cap: nat, callable: bool)
    requires Receive(st, a, now, cap, callable).Accepted?
    ensures !Receive(Receive(st, a, now, cap, callable).s, b, now + 30, cap, callable).Accepted?
  {
  }

  /** An untracked pair raises only after the timer moved, so it still closes the gate for a minute. */
  lemma UntrackedPairMovesTimer(st: FeedState, result: map<string, Json>, now: int, cap: nat, callable: bool)
    requires "n" in result && result["n"].JStr? && PairOfName(result["n"].s) !in st.buffers
    requires ToInt(Get(result, "t")).Some? && ToFloat(Get(result, "c")).Some? && Gate(st.last, now)
    ensures Receive(st, Some(result), now, cap, callable) == Raised(st.(last := Some(now)))
  {
  }

  class GateIOWebSocket {
    const pairs: seq<string>
    const interval: string
    const length: nat
    /** Whether `message_callback` is callable. */
    const callable: bool
    var lastUpdateTime: Option<int>
    var closePrices: map<string, seq<real>>
    /** How many messages the callback was given. */
    var delivered: nat
    var connected: bool
    var sent: seq<SubscribeFrame>

    function State(): FeedState
      reads this
    {
      FeedState(lastUpdateTime, closePrices, delivered)
    }

    predicate Valid()
      reads this
    {
      Bounded(State(), length) && closePrices.Keys == set p | p in pairs
    }

    /** Without pairs the feed tracks BTC_USDT; each tracked pair starts with an empty window of `length`. */
    constructor (callable: bool, pairs: Option<seq<string>>, interval: string, length: nat)
      ensures this.pairs == (if pairs.None? then ["BTC_USDT"] else pairs.value)
      ensures this.interval == interval && this.length == length && this.callable == callable
      ensures lastUpdateTime == None && delivered == 0 && !connected && sent == []
      ensures closePrices == map p | p in this.pairs :: []
      ensures Valid()
    {
      var ps := if pairs.None? then ["BTC_USDT"] else pairs.value;
      this.pairs := ps;
      this.interval := interval;
      this.length := length;
      this.callable := callable;
      lastUpdateTime := None;
      closePrices := map p | p in ps :: [];
      delivered := 0;
      connected := false;
      sent := [];
    }

    /** `on_message` at time `now`; `computed` tells whether the averages were computed. */
    method OnMessage(result: Option<map<string, Json>>, now: int) returns (computed: bool)
      requires Valid()
      modifies this
      ensures Valid()
      ensures connected == old(connected) && sent == old(sent)
      ensures var r := Receive(old(State()), result, now, length, callable);
        State() == r.s && computed == (r.Accepted? && r.computed)
    {
      computed := false;
      ReceiveSpec(State(), result, now, length, callable);
      if result.Some? && "n" in result.value {
        var r := result.value;
        var c := ToFloat(Get(r, "c"));
        if ToInt(Get(r, "t")).None? || c.None? || !r["n"].JStr? {
          return;
        }
        if !Gate(lastUpdateTime, now) {
          if callable {
            delivered := delivered + 1;
          }
          return;
        }
        var pair := PairOfName(r["n"].s);
        lastUpdateTime := Some(now);
        if pair !in closePrices {
          return;
        }
        var buf := Append(closePrices[pair], c.value, length);
        closePrices := closePrices[pair := buf];
        if |buf| == length && length < 2 {
          return;
        }
        computed := |buf| == length;
      }
      if callable {
        delivered := delivered + 1;
      }
    }

    /** `subscribe(pairs)`: one frame, for the first pair only; no pairs raise IndexError, no socket AttributeError. */
    method Subscribe(ps: seq<string>, time: int) returns (raised: bool)
      modifies this
      ensures State() == old(State()) && connected == old(connected)
      ensures raised <==> ps == [] || !connected
      ensures !raised ==> sent == old(sent) + [SubscribeFor(time, interval, ps[0])]
      ensures raised ==> sent == old(sent)
    {
      if ps == [] || !connected {
        return true;
      }
      sent := sent + [SubscribeFor(time, interval, ps[0])];
      raised := false;
    }
  }
}
