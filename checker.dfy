/** The `RateChecker` object: a fixed query (key, base, URL) and the payload of its last accepted fetch. */
module Checker {
  import opened Wrappers
  import opened PyText
  import opened Rates

  class RateChecker {
    const key: string
    const base: string
    const link: string
    /** The last accepted payload (`raw_info`); `None` until a fetch is accepted. */
    var rawInfo: Option<Payload>

    /** The object invariant: the URL is built from key and base, the base is upper-case, and no error payload is ever kept. */
    ghost predicate Valid()
      reads this
    {
      && link == Link(key, base)
      && (forall i :: 0 <= i < |base| ==> !IsLowerAscii(base[i]))
      && (rawInfo.Some? ==> rawInfo.value.result != Some("error"))
    }

    /** `RateChecker(key, start_curr="USD")`: upper-cases the base and embeds key and base in the URL. */
    constructor (key: string, startCurr: string := "USD")
      ensures Valid()
      ensures this.key == key && base == Upper(startCurr) && link == Link(key, Upper(startCurr))
      ensures rawInfo == None
    {
      this.key := key;
      base := Upper(startCurr);
      link := Link(key, Upper(startCurr));
      rawInfo := None;
    }

    /**
     * `get_rates()`, with the outcome of the GET request on `link` as the input.
     * Only an accepted response replaces `raw_info`; it returns the payload's
     * `conversion_rates` (an empty map when the key is missing). Every other
     * outcome returns `None`, keeps `raw_info` and reports what went wrong.
     */
    method GetRates(resp: Response) returns (rates: Option<map<string, real>>, notice: Option<Notice>)
      requires Valid()
      modifies this
      ensures Valid()
      ensures Classify(resp).Accepted? ==>
                && rawInfo == Some(resp.body)
                && rates == Some(RateTable(resp.body))
                && notice == None
      ensures Classify(resp).Refused? ==>
                && rawInfo == old(rawInfo)
                && rates == None
                && notice == Some(Classify(resp).notice)
    {
      match resp {
        case Raised(reason) =>
          rates, notice := None, Some(NetworkError(reason));
        case Received(status, data) =>
          if status == 200 {
            if data.result == Some("error") {
              return None, Some(ApiError(data.errorType));
            }
            rawInfo := Some(data);
            rates, notice := Some(data.rates.GetOr(map[])), None;
          } else {
            rates, notice := None, Some(ConnectionFailed(status));
          }
      }
    }

    /**
     * `show_conversions(amount)`: nothing without a non-empty `raw_info`, an
     * aborted header without a timestamp, and otherwise the header and one row
     * per watchlist ticker.
     */
    method ShowConversions(amount: real := 1.0) returns (out: Render)
      ensures out == Rendering(rawInfo, base, amount)
    {
      if rawInfo.None? || !Truthy(rawInfo.value) {
        return Silent;
      }
      var allRates := rawInfo.value.rates.GetOr(map[]);
      if rawInfo.value.updated.None? {
        return Aborted(amount, base);
      }
      var stamp := Take(rawInfo.value.updated.value, StampWidth);
      var rows: seq<Row> := [];
      for n := 0 to |Watchlist|
        invariant rows == ConversionRows(base, allRates, amount)[..n]
      {
        var tick := Watchlist[n];
        ghost var want := ConversionRows(base, allRates, amount);
        assert want[..n + 1] == want[..n] + [RowFor(base, allRates, amount, tick)];
        if tick == base {
          rows := rows + [Priced(tick, 1.0, amount)];
          continue;
        }
        if tick in allRates && allRates[tick] != 0.0 {
          var rate := allRates[tick];
          assert RowFor(base, allRates, amount, tick) == Priced(tick, rate, amount * rate);
          rows := rows + [Priced(tick, rate, amount * rate)];
        } else {
          rows := rows + [NotFound(tick)];
        }
      }
      return Table(amount, base, stamp, rows);
    }
  }
}
