/**
 * The data the rate checker works on and what it computes from it, as values:
 * the provider's JSON payload, an HTTP outcome, the request URL, the watchlist,
 * the conversion rows and the table `show_conversions` displays.
 * Python floats are modelled as `real`.
 */
module Rates {
  import opened Wrappers
  import opened PyText

  /**
   * A decoded JSON object from the provider. The four keys the code reads are
   * fields (absent = `None`); `others` holds the names of any further keys, so
   * that the truthiness of the dict (non-empty) is known.
   */
  datatype Payload = Payload(
    result: Option<string>,                   // "result"
    errorType: Option<string>,                // "error-type"
    updated: Option<string>,                  // "time_last_update_utc"
    rates: Option<map<string, real>>,         // "conversion_rates"
    others: set<string>)

  /** The outcome of `req.get(link)` followed by `res.json()`. */
  datatype Response =
    | Received(status: int, body: Payload)    // a response; `body` is read only when status is 200
    | Raised(reason: string)                  // the HTTP call or the JSON decoding raised

  /** A failure message printed by `get_rates`. */
  datatype Notice =
    | ApiError(errorType: Option<string>)     // " API Error: ..."
    | ConnectionFailed(status: int)           // " Connection failed (Status: ...)"
    | NetworkError(reason: string)            // " Network error: ..."

  /** How `get_rates` classifies a response. */
  datatype Fetch = Accepted(payload: Payload) | Refused(notice: Notice)

  /** One line of the conversion table. */
  datatype Row =
    | Priced(ticker: string, rate: real, value: real)   // "TICK | rate | value TICK"
    | NotFound(ticker: string)                          // "TICK | Not Found | ---"

  /** What one call of `show_conversions` displays. */
  datatype Render =
    | Silent                                            // `raw_info` unset or empty: nothing printed
    | Aborted(amount: real, base: string)               // title printed, then the missing timestamp raises
    | Table(amount: real, base: string, updated: string, rows: seq<Row>)

  const Endpoint: string := "https://v6.exchangerate-api.com/v6/"

  /** The tracked tickers, in display order. */
  const Watchlist: seq<string> := ["USD", "EUR", "JPY", "GBP", "INR", "CNY", "CHF", "AUD", "CAD", "HKD", "SGD"]

  /** Characters of the timestamp kept in the header. */
  const StampWidth: nat := 16

  /** The request URL: key and base are path segments. */
  function Link(key: string, base: string): string
  {
    Endpoint + key + "/latest/" + base
  }

  /** Python truthiness of a decoded JSON object: it is non-empty. */
  predicate Truthy(p: Payload)
  {
    p.result.Some? || p.errorType.Some? || p.updated.Some? || p.rates.Some? || p.others != {}
  }

  /** Python truthiness of what `get_rates` returns: a non-empty map. */
  predicate Got(rates: Option<map<string, real>>)
  {
    rates.Some? && rates.value != map[]
  }

  /** `data.get('conversion_rates', {})`. */
  function RateTable(p: Payload): map<string, real>
  {
    p.rates.GetOr(map[])
  }

  /** `all_rates.get(tick)` read through `if rate:` — a missing entry and a zero entry look the same. */
  function Lookup(rates: map<string, real>, ticker: string): real
  {
    if ticker in rates then rates[ticker] else 0.0
  }

  /** The branches of `get_rates`: only a status-200 payload without `"result": "error"` is accepted. */
  function Classify(resp: Response): (f: Fetch)
    ensures f.Accepted? ==> resp.Received? && resp.status == 200 && f.payload == resp.body
    ensures f.Accepted? ==> f.payload.result != Some("error")
  {
    match resp
    case Raised(reason) => Refused(NetworkError(reason))
    case Received(status, body) =>
      if status != 200 then Refused(ConnectionFailed(status))
      else if body.result == Some("error") then Refused(ApiError(body.errorType))
      else Accepted(body)
  }

  /** The row the loop of `show_conversions` emits for one ticker. */
  function RowFor(base: string, rates: map<string, real>, amount: real, ticker: string): (r: Row)
    ensures r.ticker == ticker
    ensures r.NotFound? <==> ticker != base && Lookup(rates, ticker) == 0.0
    ensures r.Priced? ==> r.value == amount * r.rate
    ensures r.Priced? && ticker != base ==> ticker in rates && r.rate == rates[ticker] != 0.0
  {
    if ticker == base then Priced(ticker, 1.0, amount)
    else if Lookup(rates, ticker) != 0.0 then Priced(ticker, rates[ticker], amount * rates[ticker])
    else NotFound(ticker)
  }

  /** The body of the table: one row per watchlist entry, in watchlist order. */
  function ConversionRows(base: string, rates: map<string, real>, amount: real): (rows: seq<Row>)
    ensures |rows| == |Watchlist|
  {
    seq(|Watchlist|, i requires 0 <= i < |Watchlist| => RowFor(base, rates, amount, Watchlist[i]))
  }

  /** What `show_conversions(amount)` displays for the given `raw_info` and `base`. */
  function Rendering(info: Option<Payload>, base: string, amount: real): Render
  {
    if info.None? || !Truthy(info.value) then Silent
    else match info.value.updated
      case None => Aborted(amount, base)
      case Some(stamp) => Table(amount, base, Take(stamp, StampWidth), ConversionRows(base, RateTable(info.value), amount))
  }

  // ---------------------------------------------------------------------------
  // Properties of the conversion table

  /** The watchlist has eleven tickers and none of them twice. */
  lemma WatchlistDistinct()
    ensures |Watchlist| == 11
    ensures forall i, j :: 0 <= i < j < |Watchlist| ==> Watchlist[i] != Watchlist[j]
  {
  }

  /**
   * Each row belongs to the watchlist ticker at the same position and is of one
   * of the three kinds: the base row, a priced row carrying the provider's rate
   * and `amount * rate`, or a "Not Found" row for a missing or zero rate.
   */
  lemma RowsFollowWatchlist(base: string, rates: map<string, real>, amount: real)
    ensures var rows := ConversionRows(base, rates, amount);
      forall i :: 0 <= i < |rows| ==>
        && rows[i].ticker == Watchlist[i]
        && (Watchlist[i] == base ==> rows[i] == Priced(base, 1.0, amount))
        && (Watchlist[i] != base && Watchlist[i] in rates && rates[Watchlist[i]] != 0.0 ==>
              rows[i] == Priced(Watchlist[i], rates[Watchlist[i]], amount * rates[Watchlist[i]]))
        && (rows[i].NotFound? <==> Watchlist[i] != base && Lookup(rates, Watchlist[i]) == 0.0)
  {
  }

  /**
   * A base code on the watchlist gets exactly one row, and it shows rate 1 and the
   * amount itself, whatever the provider's table holds for that code.
   */
  lemma BaseRowUnique(base: string, rates: map<string, real>, amount: real)
    requires base in Watchlist
    ensures var rows := ConversionRows(base, rates, amount);
      && |set i | 0 <= i < |rows| && rows[i].ticker == base| == 1
      && forall i :: 0 <= i < |rows| && rows[i].ticker == base ==> rows[i] == Priced(base, 1.0, amount)
  {
    var rows := ConversionRows(base, rates, amount);
    WatchlistDistinct();
    var k :| 0 <= k < |Watchlist| && Watchlist[k] == base;
    var at := set i | 0 <= i < |rows| && rows[i].ticker == base;
    assert at == {k} by {
      forall i | i in at ensures i == k {
        assert Watchlist[i] == Watchlist[k];
      }
      assert rows[k].ticker == base;
    }
  }

  /**
   * The table depends on the rate map only through the watchlist tickers other
   * than the base, and only through their `Lookup` values.
   */
  lemma RowsDependOnWatchedRates(base: string, r1: map<string, real>, r2: map<string, real>, amount: real)
    requires forall t :: t in Watchlist && t != base ==> Lookup(r1, t) == Lookup(r2, t)
    ensures ConversionRows(base, r1, amount) == ConversionRows(base, r2, amount)
  {
    var rows1, rows2 := ConversionRows(base, r1, amount), ConversionRows(base, r2, amount);
    forall i | 0 <= i < |Watchlist| ensures rows1[i] == rows2[i] {
      var t := Watchlist[i];
      assert t in Watchlist;
      if t != base { assert Lookup(r1, t) == Lookup(r2, t); }
    }
  }

  /** The provider's own entry for the base code, whatever it is, does not change the table. */
  lemma BaseEntryIgnored(base: string, rates: map<string, real>, x: real, amount: real)
    ensures ConversionRows(base, rates[base := x], amount) == ConversionRows(base, rates, amount)
  {
    RowsDependOnWatchedRates(base, rates[base := x], rates, amount);
  }

  /** A zero rate is treated exactly as a missing one: dropping zero entries does not change the table. */
  lemma ZeroRatesAsMissing(base: string, rates: map<string, real>, amount: real)
    ensures ConversionRows(base, map t | t in rates && rates[t] != 0.0 :: rates[t], amount)
         == ConversionRows(base, rates, amount)
  {
    var nonzero := map t | t in rates && rates[t] != 0.0 :: rates[t];
    forall t | t in Watchlist && t != base ensures Lookup(nonzero, t) == Lookup(rates, t) {
    }
    RowsDependOnWatchedRates(base, nonzero, rates, amount);
  }

  /**
   * The worked example: base USD, amount 1000 and a table holding only EUR 0.9 and
   * JPY 150 give USD 1000, EUR 900, JPY 150000 and "Not Found" for every other ticker.
   */
  lemma UsdExample()
    ensures ConversionRows("USD", map["EUR" := 0.9, "JPY" := 150.0], 1000.0) ==
      [ Priced("USD", 1.0, 1000.0), Priced("EUR", 0.9, 900.0), Priced("JPY", 150.0, 150000.0),
        NotFound("GBP"), NotFound("INR"), NotFound("CNY"), NotFound("CHF"),
        NotFound("AUD"), NotFound("CAD"), NotFound("HKD"), NotFound("SGD") ]
  {
  }

  /**
   * `show_conversions` shows nothing without a non-empty `raw_info`; otherwise it
   * fails on a missing timestamp, or shows the first 16 characters of the
   * timestamp (all of a shorter one) and one row per watchlist ticker built from `conversion_rates`.
   */
  lemma RenderingCases(info: Option<Payload>, base: string, amount: real)
    ensures var out := Rendering(info, base, amount);
      && (out.Silent? <==> info.None? || !Truthy(info.value))
      && (out.Aborted? <==> info.Some? && Truthy(info.value) && info.value.updated.None?)
      && (out.Aborted? ==> out.amount == amount && out.base == base)
      && (out.Table? ==>
            && info.Some? && info.value.updated.Some?
            && out.amount == amount && out.base == base
            && out.updated == info.value.updated.value[..|out.updated|]
            && |out.updated| == (if |info.value.updated.value| < StampWidth then |info.value.updated.value| else StampWidth)
            && out.rows == ConversionRows(base, RateTable(info.value), amount))
  {
  }

  // ---------------------------------------------------------------------------
  // Properties of the fetch classification and of the URL

  /**
   * A response is accepted exactly when it arrived with status 200 and a payload
   * whose "result" is not "error"; a provider error is recognised only under
   * status 200, and every other status reports that status.
   */
  lemma ClassifyCases(resp: Response)
    ensures Classify(resp).Accepted? <==> resp.Received? && resp.status == 200 && resp.body.result != Some("error")
    ensures Classify(resp).Accepted? ==> Classify(resp).payload == resp.body
    ensures Classify(resp).Refused? && Classify(resp).notice.ConnectionFailed? <==> resp.Received? && resp.status != 200
    ensures resp.Received? && resp.status != 200 ==> Classify(resp).notice.status == resp.status
    ensures resp.Received? && resp.status == 200 && resp.body.result == Some("error") ==>
              Classify(resp) == Refused(ApiError(resp.body.errorType))
    ensures resp.Raised? ==> Classify(resp) == Refused(NetworkError(resp.reason))
  {
  }

  /** The URL starts with the fixed endpoint, then the key, then `/latest/`, and ends with the base code. */
  lemma LinkShape(key: string, base: string)
    ensures var url := Link(key, base);
      && |url| == |Endpoint| + |key| + 8 + |base|
      && url[..|Endpoint|] == Endpoint
      && url[|Endpoint|..|Endpoint| + |key|] == key
      && url[|Endpoint| + |key|..|Endpoint| + |key| + 8] == "/latest/"
      && url[|url| - |base|..] == base
  {
  }

  /** A shorter key puts the slash before `latest` where a longer slash-free key still has a key character. */
  lemma LinkSlashAfterKey(k1: string, b1: string, k2: string, b2: string)
    requires |k1| < |k2| && '/' !in k2
    ensures Link(k1, b1)[|Endpoint| + |k1|] != Link(k2, b2)[|Endpoint| + |k1|]
  {
    LinkShape(k1, b1);
    LinkShape(k2, b2);
    assert Link(k1, b1)[|Endpoint| + |k1|] == "/latest/"[0];
    assert Link(k2, b2)[|Endpoint| + |k1|] == k2[|k1|];
    assert k2[|k1|] in k2;
  }

  /** For keys without a slash, the URL determines both the key and the base code. */
  lemma LinkInjective(k1: string, b1: string, k2: string, b2: string)
    requires '/' !in k1 && '/' !in k2
    requires Link(k1, b1) == Link(k2, b2)
    ensures k1 == k2 && b1 == b2
  {
    var n := |Endpoint|;
    var u1, u2 := Link(k1, b1), Link(k2, b2);
    LinkShape(k1, b1);
    LinkShape(k2, b2);
    if |k1| < |k2| {
      LinkSlashAfterKey(k1, b1, k2, b2);
      assert false;
    } else if |k2| < |k1| {
      LinkSlashAfterKey(k2, b2, k1, b1);
      assert false;
    }
    assert k1 == u1[n..n + |k1|] == k2;
    assert |b1| == |b2|;
    assert b1 == u1[|u1| - |b1|..] == b2;
  }
}
