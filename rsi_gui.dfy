/**
 * teknik/rsi_calculator_gui.py: how the indicator window derives its
 * interval and pair choices from subscription names, builds the name it
 * asks for, and refuses to compute indicators on too few rows.
 *
 * The HTTP fetch is a parameter (the fetched frame's `subscription_name`
 * column, or None when the fetch failed); so is what the TA-Lib averages
 * give, which are not part of this model.
 */
module RsiCalculatorGui {
  import opened Common
  import opened Text

  /** `name.split('_')[0]`: the interval. */
  function IntervalOf(name: string): string
  {
    Split(name, '_')[0]
  }

  /** Whether `name.split('_')` has the three fields a pair needs. */
  predicate HasPair(name: string)
  {
    |Split(name, '_')| >= 3
  }

  /** `split('_')[1] + '_' + split('_')[2]`: the pair. */
  function PairOf(name: string): string
    requires HasPair(name)
  {
    Split(name, '_')[1] + "_" + Split(name, '_')[2]
  }

  /**
   * The choices the window offers: the intervals, the pairs, and whether the
   * pair list is pandas' `[nan]` instead (`pairs` is then empty).
   */
  datatype Choices = Choices(intervals: seq<string>, pairs: seq<string>, nanPair: bool)

  /** The interval column of the parsed names. */
  function IntervalColumn(ns: seq<string>): seq<string>
  {
    seq(|ns|, i requires 0 <= i < |ns| => IntervalOf(ns[i]))
  }

  /** The pair column of the parsed names, all of which have a pair. */
  function PairColumn(ns: seq<string>): seq<string>
    requires forall i :: 0 <= i < |ns| ==> HasPair(ns[i])
  {
    seq(|ns|, i requires 0 <= i < |ns| => PairOf(ns[i]))
  }

  /** The interval column holds exactly the names' intervals. */
  lemma IntervalColumnMembers(ns: seq<string>)
    ensures forall x :: x in IntervalColumn(ns) <==> exists i :: 0 <= i < |ns| && IntervalOf(ns[i]) == x
  {
    var c := IntervalColumn(ns);
    forall x | x in c ensures exists i :: 0 <= i < |ns| && IntervalOf(ns[i]) == x {
      var i :| 0 <= i < |c| && c[i] == x;
    }
    forall x | exists i :: 0 <= i < |ns| && IntervalOf(ns[i]) == x ensures x in c {
      var i :| 0 <= i < |ns| && IntervalOf(ns[i]) == x;
      assert c[i] == x;
    }
  }

  /** When every name has a pair, the pair column holds exactly the names' pairs. */
  lemma PairColumnMembers(ns: seq<string>)
    requires forall i :: 0 <= i < |ns| ==> HasPair(ns[i])
    ensures forall x :: x in PairColumn(ns) <==> exists i :: 0 <= i < |ns| && HasPair(ns[i]) && PairOf(ns[i]) == x
  {
    var c := PairColumn(ns);
    forall x | x in c ensures exists i :: 0 <= i < |ns| && HasPair(ns[i]) && PairOf(ns[i]) == x {
      var i :| 0 <= i < |c| && c[i] == x;
    }
    forall x | exists i :: 0 <= i < |ns| && HasPair(ns[i]) && PairOf(ns[i]) == x ensures x in c {
      var i :| 0 <= i < |ns| && HasPair(ns[i]) && PairOf(ns[i]) == x;
      assert c[i] == x;
    }
  }

  /**
   * `fetch_available_intervals_and_pairs`: the sorted distinct intervals and
   * the sorted distinct pairs of the fetched names; no choices when the fetch
   * failed. A name without a pair gives NaN in the pair column: sorting NaN
   * together with a text pair raises TypeError, and when no name has a pair
   * the pair list is the single NaN.
   */
  function FetchIntervalsAndPairs(names: Option<seq<string>>): (r: Result<Choices>)
    ensures names.None? ==> r == Ok(Choices([], [], false))
    ensures names.Some? ==>
      (r.Ok? <==> (forall i :: 0 <= i < |names.value| ==> HasPair(names.value[i]))
                  || (forall i :: 0 <= i < |names.value| ==> !HasPair(names.value[i])))
    ensures r.Ok? ==> StrictlySorted(r.value.intervals) && StrictlySorted(r.value.pairs)
    ensures r.Ok? && names.Some? ==>
      (forall x :: x in r.value.intervals <==> exists i :: 0 <= i < |names.value| && IntervalOf(names.value[i]) == x)
    ensures r.Ok? && names.Some? ==>
      (forall x :: x in r.value.pairs <==>
         exists i :: 0 <= i < |names.value| && HasPair(names.value[i]) && PairOf(names.value[i]) == x)
    ensures r.Ok? ==>
      (r.value.nanPair <==> names.Some? && |names.value| > 0 && forall i :: 0 <= i < |names.value| ==> !HasPair(names.value[i]))
  {
    if names.None? then Ok(Choices([], [], false))
    else
      var ns := names.value;
      var missing := exists i :: 0 <= i < |ns| && !HasPair(ns[i]);
      if missing && exists i :: 0 <= i < |ns| && HasPair(ns[i]) then
        Err("TypeError: '<' not supported between 'float' and 'str'")
      else
        var intervals := IntervalColumn(ns);
        IntervalColumnMembers(ns);
        if missing then
          Ok(Choices(SortedDistinct(intervals), [], true))
        else
          var pairs := PairColumn(ns);
          PairColumnMembers(ns);
          Ok(Choices(SortedDistinct(intervals), SortedDistinct(pairs), false))
  }

  /** Each choice is offered once. */
  lemma ChoicesDistinct(names: Option<seq<string>>)
    requires FetchIntervalsAndPairs(names).Ok?
    ensures var Choices(intervals, pairs, _) := FetchIntervalsAndPairs(names).value;
      (forall i, j :: 0 <= i < j < |intervals| ==> intervals[i] != intervals[j])
      && (forall i, j :: 0 <= i < j < |pairs| ==> pairs[i] != pairs[j])
  {
    var Choices(intervals, pairs, _) := FetchIntervalsAndPairs(names).value;
    StrictlySortedDistinct(intervals);
    StrictlySortedDistinct(pairs);
  }

  /** `start_calculation`'s `f"{interval}_{pair}"`. */
  function SubscriptionName(interval: string, pair: string): string
  {
    interval + "_" + pair
  }

  /**
   * Splitting the name `start_calculation` builds gives back the chosen
   * interval and pair, when the interval has no `_` and the pair exactly one.
   */
  lemma {:induction false} NameRoundTrip(interval: string, base: string, quote: string)
    requires '_' !in interval && '_' !in base && '_' !in quote
    ensures var name := SubscriptionName(interval, base + "_" + quote);
      HasPair(name) && IntervalOf(name) == interval && PairOf(name) == base + "_" + quote
  {
    var parts := [interval, base, quote];
    var name := SubscriptionName(interval, base + "_" + quote);
    assert Join(parts, '_') == name by {
      assert Join(parts[1..], '_') == base + "_" + quote by {
        assert parts[1..][1..] == [quote];
      }
    }
    SplitJoin(parts, '_');
  }

  /** The latest values of the four indicators. */
  datatype Latest = Latest(sma: real, ema: real, wma: real, rsi: real)

  /** `astype(np.float64)` of the close column: None when a value does not convert. */
  function CloseValues(closes: seq<string>): Option<seq<real>>
  {
    if |closes| == 0 then Some([])
    else
      var init := CloseValues(closes[..|closes| - 1]);
      var last := ParseFloat(closes[|closes| - 1]);
      if init.None? || last.None? then None else Some(init.value + [last.value])
  }

  /** The conversion succeeds exactly when every value parses, and then keeps each parsed value in place. */
  lemma {:induction false} CloseValuesSpec(closes: seq<string>)
    ensures CloseValues(closes).Some? <==> forall i :: 0 <= i < |closes| ==> ParseFloat(closes[i]).Some?
    ensures CloseValues(closes).Some? ==>
      var v := CloseValues(closes).value;
      |v| == |closes| && forall i :: 0 <= i < |closes| ==> Some(v[i]) == ParseFloat(closes[i])
  {
    if |closes| > 0 {
      var init := closes[..|closes| - 1];
      var n := |closes| - 1;
      CloseValuesSpec(init);
      assert forall i :: 0 <= i < n ==> init[i] == closes[i];
      if CloseValues(init).Some? && ParseFloat(closes[n]).Some? {
        var v := CloseValues(closes).value;
        assert v == CloseValues(init).value + [ParseFloat(closes[n]).value];
        forall i | 0 <= i < |closes| ensures Some(v[i]) == ParseFloat(closes[i]) {
          if i < n {
            assert v[i] == CloseValues(init).value[i];
          }
        }
      } else if CloseValues(init).None? {
        var i :| 0 <= i < n && ParseFloat(init[i]).None?;
        assert ParseFloat(closes[i]).None?;
      }
    }
  }

  /**
   * `calculate_indicators` on the fetched close column: converting a value
   * that is not a number raises ValueError out of it, before the length is
   * looked at; otherwise None when there are fewer rows than `length`, and
   * what the averages give (None when they raise) when there are enough.
   */
  function CalculateIndicators(closes: seq<string>, length: int, averages: Option<Latest>): (r: Result<Option<Latest>>)
    ensures r.Err? <==> exists i :: 0 <= i < |closes| && ParseFloat(closes[i]).None?
    ensures r.Ok? && |closes| < length ==> r.value.None?
    ensures r.Ok? && |closes| >= length ==> r.value == averages
  {
    CloseValuesSpec(closes);
    if CloseValues(closes).None? then Err("ValueError: could not convert string to float")
    else if |closes| < length then Ok(None)
    else Ok(averages)
  }
}
