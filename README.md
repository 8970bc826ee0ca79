# Global Value Tracker: a Dafny model of the rate checker

This project models `main.py` of the Global Value Tracker, a console script that
fetches exchange rates from the exchangerate-api.com service. It then prints a table
converting an amount from a base currency into a fixed watchlist of eleven
currencies: USD, EUR, JPY, GBP, INR, CNY, CHF, AUD, CAD, HKD and SGD.

The model covers four things:

- the `RateChecker` object: its constructor, `get_rates` and `show_conversions`;
- how the main block normalises its two console answers;
- the truthiness gate in front of each table;
- the whole two-step session.

Python floats are `real`. The HTTP response, both console answers and Python's
`float` parser are inputs. The model returns as data the GET requests the program issues and the failure
messages, warnings and tables it prints: rows, a table, and a log of events.

Modules, one per file:

- `wrappers.dfy`, module `Wrappers`: `Option`, standing for Python's `None`-or-value.
- `pytext.dfy`, module `PyText`: the Python `str` operations the script uses.
  - `strip()`, with exactly the characters Python counts as whitespace.
  - `upper()`, on ASCII letters.
  - the slice `s[:n]`.
- `rates.dfy`, module `Rates`: the values the script works on.
  - the JSON payload and the HTTP outcome;
  - the request URL;
  - the watchlist and the conversion rows;
  - the table `show_conversions` displays, as pure functions with their lemmas.
- `checker.dfy`, module `Checker`: class `RateChecker`.
  - fields `key`, `base`, `link` and the mutable `rawInfo` (`raw_info`);
  - `GetRates`, which changes `rawInfo` only on an accepted response;
  - `ShowConversions`, a `for` loop over the watchlist, proved equal to the pure
    `Rates.ConversionRows`.
- `cli.dfy`, module `Cli`: the main block.
  - input normalisation;
  - the gate;
  - the event log `SessionLog`;
  - the imperative `Run`, `Preview` and `Custom`.
  - `Run` creates the `RateChecker` objects as the script does, and is proved to
    produce exactly the log `SessionLog`.

Behaviour taken from the code:

- **Responses.** A status-200 response is accepted unless its `"result"` is
  `"error"`. Any other `"result"` value is accepted, and so is a missing one.
- **Rates of 0.** A rate of 0 is shown as "Not Found", because the code tests
  `if rate:`. A negative rate is priced like any other.
- **Short timestamps.** A timestamp shorter than 16 characters is shown whole,
  because Python slicing does not fail.
- **Missing timestamp.** Only a missing `time_last_update_utc` fails: `None[:16]`
  raises a `TypeError` after the title line (`Render.Aborted`). Nothing catches
  it, so in the preview it ends the program before the base prompt.
- **Empty rate map.** An accepted response whose rate map is empty or missing
  sets `raw_info`. It still prints no table, because the caller tests the
  truthiness of the returned map.

## Model

| member | source | states |
|---|---|---|
| PyText.IsSpace | main.py:71 | exactly the characters Python's `str.strip()` removes by default: `\t` to `\r`, `\x1c` to `\x1f`, space, `\x85`, `\xa0`, `\u1680`, `\u2000` to `\u200a`, `\u2028`, `\u2029`, `\u202f`, `\u205f` and `\u3000` |
| PyText.StripLeft | main.py:71 | the left-stripped text never starts with whitespace and is no longer than the input |
| PyText.StripLeftCuts | main.py:71 | left-stripping keeps a suffix of the input and removes only whitespace |
| PyText.StripRight | main.py:71 | the right-stripped text never ends with whitespace and is no longer than the input |
| PyText.StripRightCuts | main.py:71 | right-stripping keeps a prefix of the input and removes only whitespace |
| PyText.Strip | main.py:71 | `strip()` leaves text that neither starts nor ends with whitespace |
| PyText.StripSpec | main.py:71 | `strip()` keeps a contiguous piece of the input, and everything cut off on both sides is whitespace |
| PyText.StripBlank | main.py:72-73 | stripping leaves the empty string exactly when the input is all whitespace |
| PyText.StripIdempotent | main.py:82-83 | stripping an already stripped answer changes nothing, so Python's `float()` stripping the stripped amount text again does not change what is parsed |
| PyText.UpperChar | main.py:6 | one character of `upper()`: the result is never a lower-case ASCII letter, a lower-case letter becomes the capital 32 code points below it, and every other character is kept |
| PyText.Upper | main.py:6 | `upper()` keeps the length and leaves no lower-case letter; other characters stay in place |
| PyText.UpperIdempotent | main.py:79 | upper-casing an upper-cased code again gives the same code |
| PyText.Take | main.py:39 | `s[:16]` is the first 16 characters, or all of `s` when it is shorter |
| Rates.WatchlistDistinct | main.py:34 | the watchlist holds eleven different tickers |
| Rates.Link | main.py:7 | the request URL is the endpoint, the key, `/latest/` and the base; its layout is stated by `LinkShape` |
| Rates.Truthy | main.py:29 | `not self.raw_info` fails exactly for an empty dict: a payload is truthy when it holds at least one key |
| Rates.Got | main.py:67 | `if bot.get_rates():` passes exactly for a returned map that is not `None` and not empty |
| Rates.RateTable | main.py:20 | `data.get('conversion_rates', {})`: the payload's rate map, or the empty map when the key is missing |
| Rates.Lookup | main.py:49-50 | `all_rates.get(tick)` read by `if rate:`: the rate for a present ticker, and 0 (as falsy as `None`) for a missing one |
| Rates.Classify | main.py:14-24 | only a status-200 response whose payload is not `"result": "error"` is accepted, and it is accepted with that payload; `ClassifyCases` gives every branch |
| Rates.RowFor | main.py:45-54 | the row is for the given ticker. It is "Not Found" exactly when the ticker is not the base and its rate is missing or 0. A priced row's value is `amount * rate`, and a priced non-base row carries the provider's non-zero rate |
| Rates.Rendering | main.py:29-39 | what `show_conversions` displays for a given `raw_info`, base and amount; its cases are stated by `RenderingCases` |
| Rates.ConversionRows | main.py:44-54 | the table has one row per watchlist entry |
| Rates.RowsFollowWatchlist | main.py:44-54 | row i is for watchlist ticker i. The base ticker gets rate 1 and the amount itself. A ticker with a non-zero rate gets that rate and `amount * rate`. A row is "Not Found" exactly when the ticker is not the base and its rate is missing or 0 |
| Rates.BaseRowUnique | main.py:45-47 | a base code on the watchlist gets exactly one row, with rate 1 and the amount, whatever the provider sent for it |
| Rates.RowsDependOnWatchedRates | main.py:49-54 | two rate maps that agree on the watched non-base tickers (missing counts as 0) give the same table |
| Rates.BaseEntryIgnored | main.py:45-47 | replacing the provider's entry for the base code does not change the table |
| Rates.ZeroRatesAsMissing | main.py:49-50 | removing the zero entries from the rate map does not change the table |
| Rates.UsdExample | main.py:44-54 | base USD, amount 1000 and rates {EUR 0.9, JPY 150} give USD 1000, EUR 900, JPY 150000 and "Not Found" for the other eight |
| Rates.RenderingCases | main.py:29-39 | the table is silent exactly when `raw_info` is absent or empty. It aborts exactly when the timestamp is missing, after a title line carrying the amount and the base. Otherwise the header shows the first 16 timestamp characters, or the whole timestamp when it is shorter, and the rows are built from `conversion_rates` |
| Rates.ClassifyCases | main.py:14-24 | a response is accepted exactly on status 200 without `"result": "error"`. A provider error is recognised only under 200. Every other status reports that status, and a raised exception reports its reason |
| Rates.LinkShape | main.py:7 | the URL is the fixed endpoint, the key, `/latest/` and the base, in that order |
| Rates.LinkInjective | main.py:7 | for keys without `/`, equal URLs mean equal keys and equal bases |
| Checker.RateChecker.Valid | main.py:4-25 | the object invariant: the URL is built from the key and the base, the base has no lower-case letter, and `raw_info` never holds a `"result": "error"` payload |
| Checker.RateChecker.constructor | main.py:4-8 | the base is upper-cased, the URL embeds key and base, and `raw_info` starts unset |
| Checker.RateChecker.GetRates | main.py:10-25 | an accepted response sets `raw_info` to the payload and returns its `conversion_rates`, or `{}` when missing. A provider error, a non-200 status or an exception returns nothing, keeps `raw_info` and reports the failure. No error payload is ever stored |
| Checker.RateChecker.ShowConversions | main.py:27-55 | with `amount` defaulting to 1.0, the displayed output equals `Rendering(raw_info, base, amount)`. The loop emits exactly `ConversionRows` |
| Cli.NormaliseBase | main.py:71-73 | the normalised code is never empty and has no lower-case letter. Blank input gives INR. Other input gives its stripped form upper-cased, which has the stripped form's length |
| Cli.NormalisedIsTrimmed | main.py:71 | the normalised code has no whitespace at either end |
| Cli.ChooseBase | main.py:75-79 | a code is accepted exactly when the answer is blank or strips to three characters. The accepted code has three characters |
| Cli.ChosenBaseIsCanonical | main.py:71-79 | the accepted code is its own strip and its own upper-case form, so the second checker's base is that code |
| Cli.ChooseAmount | main.py:82-88 | a blank answer gives 1.0 without a warning. A parsable answer gives its value. An unparsable one gives 1.0 after the invalid-number warning |
| Cli.Gate | main.py:67 | `get_rates()` is truthy exactly when the response is accepted and its rate map is non-empty |
| Cli.PreviewFetches | main.py:66-67 | the preview fetches exactly once, for INR |
| Cli.CustomFetches | main.py:75-80 | the second step fetches once, for the normalised code, when it is accepted, and never otherwise |
| Cli.SessionFetches | main.py:63-80 | the program first fetches INR. It fetches again, for the normalised code, exactly when the preview did not raise and the code has three characters |
| Cli.PreviewGate | main.py:66-68 | an accepted empty rate map prints nothing after the fetch. A failure prints only its report. Rates that pass the gate print one non-silent 10000 INR table |
| Cli.CustomSteps | main.py:75-84 | an invalid code prints only the format message. A valid one fetches for that code and goes on to the amount prompt only when rates came back |
| Cli.AmountStepShows | main.py:82-88 | the invalid-number warning appears exactly when the amount is unreadable, and a non-silent table for the chosen amount follows |
| Cli.FetchEvents | main.py:13-24 | one `get_rates` call records the GET request on its URL, followed by the printed failure report `Reported(notice)` of the refusal exactly when the response is refused |
| Cli.PreviewLog | main.py:64-68 | the preview starts with the INR fetch, and shows the 10000 INR table only behind the truthiness gate |
| Cli.PreviewRaises | main.py:39 | the preview's table raises exactly when rates passed the gate and the payload has no timestamp |
| Cli.AmountStep | main.py:82-88 | the amount prompt: the invalid-number warning when the answer is unreadable, then the table for the chosen amount; `AmountStepShows` states its properties |
| Cli.CustomLog | main.py:71-88 | the second step: the format message for an unacceptable code, otherwise the fetch for the code and, behind the gate, the amount step; `CustomSteps` states its cases |
| Cli.SessionLog | main.py:63-88 | the whole run's requests and printed failures, warnings and tables: the preview, then the second step unless the preview raised; `SessionFetches` states which URLs it fetches |
| Cli.Preview | main.py:63-68 | the preview step produces the log `PreviewLog` and tells whether its table raised |
| Cli.Custom | main.py:70-88 | the second step produces the log `CustomLog` |
| Cli.Run | main.py:57-88 | the main block produces exactly the log `SessionLog` |

## Left out

- The HTTP call `req.get`, JSON decoding and the catch-all exception handler are not modelled: the foreign library and the network become the `Response` input. `Raised(reason)` stands for any exception the `except Exception` catches: one from `req.get` or `res.json()`, and also the `AttributeError` from `data.get` when the body is valid JSON but not an object.
- Console I/O is not modelled: `print` and `input` become returned events and string parameters. The welcome and loading banners and the texts of the two `input()` prompts are not events. A `Fetched` event stands for the GET request, which prints nothing.
- Number formatting is not modelled: `:,.2f`, `.4f` and column widths are cosmetic. Rows carry the numbers, not their text.
- Float behaviour is not modelled: `amount * rate` is exact real multiplication, with no rounding, NaN or infinity. Python's `float()` is the `parse` parameter, and its `ValueError` is `parse` returning `None`.
- PyText.Upper, PyText.UpperChar: model ASCII letters only; non-ASCII letters are kept as they are. Python's full Unicode case mapping (for example `'ß'.upper() == 'SS'`, which changes the length) is not modelled. So `Cli.ChooseBase` rejects `" ßx "`, which the model upper-cases to the two characters `ßX`, while Python gives `SSX` and passes the 3-character test.
- JSON values of unexpected types are not modelled. Each payload field is either missing or well-typed, and a key present with `null` counts as missing. So `"conversion_rates": null`, a non-string `"result"` or a non-numeric rate are not covered.
- `Render.Aborted` records that the separator and the title line were printed before the `TypeError`, and the title's amount and base. It does not hold their formatted text.
- The hard-coded API key is not modelled: it is the `key` parameter.
- No ISO 4217 check exists in the code, and none is modelled: the code checks only the length 3.
