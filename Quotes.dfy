/**
 * The arithmetic of `fetch_quote`: turning the provider's short price history of
 * one instrument (ideally two trading sessions) into a snapshot record. Fetching
 * the history is left to the caller, which passes it in as a sequence.
 */
module Quotes {
  import opened Wrappers
  import opened Rounding

  /** One trading session of the provider's history: closing price and traded volume. */
  datatype Session = Session(close: real, volume: int)

  /** The record `fetch_quote` returns for one instrument. */
  datatype Quote = Quote(price: real, change: real, changePct: real, volume: Option<int>)

  /** The close of the session before the last one, or the last close when there is only one. */
  function PreviousClose(hist: seq<Session>): (prev: real)
    requires |hist| > 0
    ensures |hist| == 1 ==> prev == hist[0].close
    ensures |hist| >= 2 ==> prev == hist[|hist| - 2].close
  {
    if |hist| >= 2 then hist[|hist| - 2].close else hist[|hist| - 1].close
  }

  /** `fetch_quote` after the history has been retrieved: `None` for an empty history. */
  function Normalize(hist: seq<Session>): (q: Option<Quote>)
    ensures q.None? <==> |hist| == 0
    ensures q.Some? ==> q.value.price == RoundTo(hist[|hist| - 1].close, 4)
    ensures q.Some? ==> -0.00005 <= q.value.price - hist[|hist| - 1].close <= 0.00005
    ensures q.Some? ==> (q.value.volume.None? <==> hist[|hist| - 1].volume == 0)
    ensures q.Some? && q.value.volume.Some? ==> q.value.volume.value == hist[|hist| - 1].volume
    // a single session compares the price with itself
    ensures |hist| == 1 ==> q.value.change == 0.0 && q.value.changePct == 0.0
    // a zero previous close gives no percentage rather than a division by zero
    ensures q.Some? && PreviousClose(hist) == 0.0 ==> q.value.changePct == 0.0
    // otherwise the percentage is taken of the already rounded change, to two decimals
    ensures q.Some? && PreviousClose(hist) != 0.0 ==>
      -0.005 <= q.value.changePct - q.value.change / PreviousClose(hist) * 100.0 <= 0.005
    // the change is the price difference rounded to four decimals, and the
    // percentage is that rounded change over the previous close, to two decimals
    ensures q.Some? ==> q.value.change == RoundTo(hist[|hist| - 1].close - PreviousClose(hist), 4)
    ensures q.Some? && PreviousClose(hist) != 0.0 ==>
      q.value.changePct == RoundTo(q.value.change / PreviousClose(hist) * 100.0, 2)
    ensures q.Some? ==>
      -0.00005 <= q.value.change - (hist[|hist| - 1].close - PreviousClose(hist)) <= 0.00005
  {
    if |hist| == 0 then None
    else
      var last := hist[|hist| - 1];
      var price := last.close;
      var prev := PreviousClose(hist);
      var change := RoundTo(price - prev, 4);
      var changePct := if prev != 0.0 then RoundTo(change / prev * 100.0, 2) else 0.0;
      var volume := if last.volume != 0 then Some(last.volume) else None;
      RoundToError(price - prev, 4);
      RoundToError(price, 4);
      assert prev != 0.0 ==> -0.005 <= changePct - change / prev * 100.0 <= 0.005 by {
        if prev != 0.0 {
          RoundToError(change / prev * 100.0, 2);
          assert Unshift(0.5, 2) == 0.005;
        }
      }
      RoundToZero(4);
      RoundToZero(2);
      Some(Quote(RoundTo(price, 4), change, changePct, volume))
  }
}
