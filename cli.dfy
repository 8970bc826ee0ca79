/**
 * The script's main block: a preview for INR and 10000, then a base code and an
 * amount read from the console and a second fetch and table. Console lines are
 * inputs; the GET requests it issues and the messages and tables it prints are
 * returned as a log of events.
 */
module Cli {
  import opened Wrappers
  import opened PyText
  import opened Rates
  import opened Checker

  /** Base and amount of the preview that runs before any prompt. */
  const PreviewBase: string := "INR"
  const PreviewAmount: real := 10000.0
  /** What a blank base prompt stands for. */
  const BlankBase: string := "INR"
  /** What a blank or unreadable amount prompt stands for. */
  const DefaultAmount: real := 1.0
  /** The only accepted length of a base code. */
  const CodeLength: nat := 3

  /** One GET request, or one printed failure message, warning or table. */
  datatype Event =
    | Fetched(link: string)       // `get_rates` issued a GET on this URL
    | Reported(notice: Notice)    // `get_rates` printed a failure
    | Shown(render: Render)       // `show_conversions` ran
    | InvalidFormat               // "Invalid format. Please use a 3-letter currency code."
    | InvalidNumber               // "Invalid number. Showing conversion for 1.00 unit."

  /** The amount a conversion uses, and whether the invalid-number warning came first. */
  datatype Amount = Amount(value: real, warned: bool)

  /**
   * The base-prompt answer after `.strip().upper()` and the blank default: never
   * empty and without lower-case letters; all-blank input gives INR, anything
   * else is its stripped form upper-cased, of the same length.
   */
  function NormaliseBase(input: string): (code: string)
    ensures code != []
    ensures forall i :: 0 <= i < |code| ==> !IsLowerAscii(code[i])
    ensures AllSpace(input) ==> code == BlankBase
    ensures !AllSpace(input) ==> code == Upper(Strip(input)) && |code| == |Strip(input)|
  {
    StripBlank(input);
    var code := Upper(Strip(input));
    if code == [] then BlankBase else code
  }

  /** The normalised code has no whitespace at either end. */
  lemma NormalisedIsTrimmed(input: string)
    ensures var code := NormaliseBase(input); !IsSpace(code[0]) && !IsSpace(code[|code| - 1])
  {
    var trimmed := Strip(input);
    if trimmed != [] {
      UpperKeepsEnds(trimmed);
    }
  }

  /**
   * The code the second step fetches for, or `None` for an invalid format:
   * accepted exactly when the input is blank or strips to three characters.
   */
  function ChooseBase(input: string): (r: Option<string>)
    ensures r.Some? <==> AllSpace(input) || |Strip(input)| == CodeLength
    ensures r.Some? ==> |r.value| == CodeLength && r.value == NormaliseBase(input)
  {
    var code := NormaliseBase(input);
    if |code| == CodeLength then Some(code) else None
  }

  /** The accepted code is the stripped input upper-cased (or INR), and already in the form the constructor gives it. */
  lemma ChosenBaseIsCanonical(input: string)
    requires ChooseBase(input).Some?
    ensures var code := ChooseBase(input).value;
      && Upper(code) == code
      && Strip(code) == code
      && (!AllSpace(input) ==> code == Upper(Strip(input)))
  {
    var code := ChooseBase(input).value;
    UpperFixesUpper(code);
    NormalisedIsTrimmed(input);
    StripKeepsTrimmed(code);
  }

  /**
   * The amount-prompt answer: a blank answer means 1.0; otherwise the stripped
   * text is parsed (`parse` stands for Python's `float`), and a parse failure
   * means 1.0 after a warning.
   */
  function ChooseAmount(text: string, parse: string -> Option<real>): (a: Amount)
    ensures AllSpace(text) ==> a == Amount(DefaultAmount, false)
    ensures !AllSpace(text) && parse(Strip(text)).Some? ==> a == Amount(parse(Strip(text)).value, false)
    ensures a.warned <==> !AllSpace(text) && parse(Strip(text)).None?
    ensures a.warned ==> a.value == DefaultAmount
  {
    StripBlank(text);
    var t := Strip(text);
    if t == [] then Amount(DefaultAmount, false)
    else match parse(t)
      case Some(x) => Amount(x, false)
      case None => Amount(DefaultAmount, true)
  }

  /** The payload behind a truthy `get_rates()` result, if the response gives one. */
  function Gate(resp: Response): (p: Option<Payload>)
    ensures p.Some? <==> Classify(resp).Accepted? && RateTable(Classify(resp).payload) != map[]
    ensures p.Some? ==> p.value == resp.body && Truthy(p.value)
  {
    match Classify(resp)
    case Accepted(body) => if Got(Some(RateTable(body))) then Some(body) else None
    case Refused(_) => None
  }

  /** One `get_rates` call on `link`: the GET request, then the printed failure report if refused. */
  function FetchEvents(link: string, resp: Response): (evs: seq<Event>)
    ensures |evs| == if Classify(resp).Accepted? then 1 else 2
    ensures evs[0] == Fetched(link)
    ensures Classify(resp).Refused? ==> evs[1] == Reported(Classify(resp).notice)
  {
    [Fetched(link)] + match Classify(resp) { case Accepted(_) => [] case Refused(n) => [Reported(n)] }
  }

  /** The preview: fetch INR, and show 10000 INR when rates came back. */
  function PreviewLog(key: string, preview: Response): (log: seq<Event>)
    ensures log != [] && log[0] == Fetched(Link(key, PreviewBase))
  {
    FetchEvents(Link(key, PreviewBase), preview)
      + if Gate(preview).Some? then [Shown(Rendering(Gate(preview), PreviewBase, PreviewAmount))] else []
  }

  /** Whether the preview's table raised on a missing timestamp, which ends the program. */
  predicate PreviewRaises(preview: Response)
  {
    Gate(preview).Some? && Gate(preview).value.updated.None?
  }

  /** The amount prompt and the second table, once the second fetch returned rates in `body`. */
  function AmountStep(code: string, body: Payload, amountText: string, parse: string -> Option<real>): seq<Event>
  {
    var a := ChooseAmount(amountText, parse);
    (if a.warned then [InvalidNumber] else []) + [Shown(Rendering(Some(body), code, a.value))]
  }

  /** The second step, from the base prompt on. */
  function CustomLog(key: string, userBase: string, custom: Response, amountText: string, parse: string -> Option<real>): seq<Event>
  {
    match ChooseBase(userBase)
    case None => [InvalidFormat]
    case Some(code) =>
      FetchEvents(Link(key, code), custom)
        + match Gate(custom) { case None => [] case Some(body) => AmountStep(code, body, amountText, parse) }
  }

  /** The requests and printed messages and tables of a whole run, given the two responses and the two console answers. */
  function SessionLog(key: string, preview: Response, userBase: string, custom: Response,
                      amountText: string, parse: string -> Option<real>): seq<Event>
  {
    PreviewLog(key, preview) + if PreviewRaises(preview) then [] else CustomLog(key, userBase, custom, amountText, parse)
  }

  /** The URLs fetched, in order. */
  function Links(log: seq<Event>): seq<string>
  {
    if log == [] then [] else (if log[0].Fetched? then [log[0].link] else []) + Links(log[1..])
  }

  lemma {:induction false} LinksAppend(a: seq<Event>, b: seq<Event>)
    ensures Links(a + b) == Links(a) + Links(b)
  {
    if a == [] {
      assert a + b == b;
    } else {
      assert (a + b)[0] == a[0];
      assert (a + b)[1..] == a[1..] + b;
      LinksAppend(a[1..], b);
    }
  }

  /** The preview fetches once, for INR. */
  lemma PreviewFetches(key: string, preview: Response)
    ensures Links(PreviewLog(key, preview)) == [Link(key, PreviewBase)]
  {
    var first := FetchEvents(Link(key, PreviewBase), preview);
    var shown := if Gate(preview).Some? then [Shown(Rendering(Gate(preview), PreviewBase, PreviewAmount))] else [];
    LinksOfFetch(Link(key, PreviewBase), preview);
    LinksAppend(first, shown);
    NoFetchIn(shown);
  }

  /** The second step fetches once, for the normalised code, when that code is accepted, and not at all otherwise. */
  lemma CustomFetches(key: string, userBase: string, custom: Response, amountText: string, parse: string -> Option<real>)
    ensures Links(CustomLog(key, userBase, custom, amountText, parse))
         == if ChooseBase(userBase).Some? then [Link(key, NormaliseBase(userBase))] else []
  {
    var rest := CustomLog(key, userBase, custom, amountText, parse);
    match ChooseBase(userBase)
    case None =>
      NoFetchIn(rest);
    case Some(code) =>
      var second := FetchEvents(Link(key, code), custom);
      var tail := match Gate(custom) { case None => [] case Some(body) => AmountStep(code, body, amountText, parse) };
      assert rest == second + tail;
      LinksOfFetch(Link(key, code), custom);
      LinksAppend(second, tail);
      NoFetchIn(tail);
  }

  /**
   * The program fetches the INR preview first; it fetches a second time, for the
   * normalised code, exactly when the preview did not raise and that code has
   * three characters; it never fetches more.
   */
  lemma SessionFetches(key: string, preview: Response, userBase: string, custom: Response,
                       amountText: string, parse: string -> Option<real>)
    ensures var log := SessionLog(key, preview, userBase, custom, amountText, parse);
      && log[0] == Fetched(Link(key, PreviewBase))
      && Links(log) == [Link(key, PreviewBase)]
           + if !PreviewRaises(preview) && ChooseBase(userBase).Some?
             then [Link(key, NormaliseBase(userBase))] else []
  {
    var pre := PreviewLog(key, preview);
    var rest := if PreviewRaises(preview) then [] else CustomLog(key, userBase, custom, amountText, parse);
    PreviewFetches(key, preview);
    LinksAppend(pre, rest);
    if !PreviewRaises(preview) {
      CustomFetches(key, userBase, custom, amountText, parse);
    }
  }

  lemma LinksOfFetch(link: string, resp: Response)
    ensures Links(FetchEvents(link, resp)) == [link]
  {
    var evs := FetchEvents(link, resp);
    assert evs[0] == Fetched(link);
    if Classify(resp).Refused? {
      var rest := [Reported(Classify(resp).notice)];
      assert evs[1..] == rest;
      assert Links(rest) == [] + Links(rest[1..]);
      assert rest[1..] == [];
    } else {
      assert evs[1..] == [];
    }
  }

  lemma {:induction false} NoFetchIn(log: seq<Event>)
    requires forall i :: 0 <= i < |log| ==> !log[i].Fetched?
    ensures Links(log) == []
  {
    if log != [] {
      NoFetchIn(log[1..]);
    }
  }

  /**
   * The preview shows a table only behind a truthy rate map: an accepted
   * response whose rate map is empty (or missing) prints nothing after the
   * fetch, and a failed one prints only its report.
   */
  lemma PreviewGate(key: string, preview: Response)
    ensures var log := PreviewLog(key, preview);
      && (Classify(preview).Accepted? && RateTable(preview.body) == map[] ==> log == [Fetched(Link(key, PreviewBase))])
      && (Classify(preview).Refused? ==> log == [Fetched(Link(key, PreviewBase)), Reported(Classify(preview).notice)])
      && (Gate(preview).Some? ==>
            log == [Fetched(Link(key, PreviewBase)), Shown(Rendering(Gate(preview), PreviewBase, PreviewAmount))]
            && !log[1].render.Silent?)
  {
  }

  /**
   * An unacceptable base code ends the run with the invalid-format message and
   * without a second fetch; an acceptable one fetches for it, and the amount
   * prompt is consulted only when that fetch returned rates.
   */
  lemma CustomSteps(key: string, userBase: string, custom: Response, amountText: string, parse: string -> Option<real>)
    ensures var log := CustomLog(key, userBase, custom, amountText, parse);
      && (ChooseBase(userBase).None? ==> log == [InvalidFormat])
      && (ChooseBase(userBase).Some? ==>
            var code := ChooseBase(userBase).value;
            && log[0] == Fetched(Link(key, code))
            && (Gate(custom).None? ==> log == FetchEvents(Link(key, code), custom))
            && (Gate(custom).Some? ==> log == [Fetched(Link(key, code))] + AmountStep(code, Gate(custom).value, amountText, parse)))
  {
    match ChooseBase(userBase)
    case None =>
    case Some(code) =>
      var first := FetchEvents(Link(key, code), custom);
      assert first[0] == Fetched(Link(key, code));
      if Gate(custom).Some? {
        assert first == [Fetched(Link(key, code))];
      }
  }

  /**
   * After rates came back, the invalid-number warning is printed exactly when the
   * amount answer is neither blank nor a number, and then the table for the
   * chosen amount follows; that table is never silent.
   */
  lemma AmountStepShows(code: string, body: Payload, amountText: string, parse: string -> Option<real>)
    requires Truthy(body)
    ensures var log := AmountStep(code, body, amountText, parse); var a := ChooseAmount(amountText, parse);
      && log[|log| - 1] == Shown(Rendering(Some(body), code, a.value))
      && (InvalidNumber in log <==> a.warned)
      && (a.warned ==> log == [InvalidNumber, Shown(Rendering(Some(body), code, DefaultAmount))])
      && !log[|log| - 1].render.Silent?
  {
    var log := AmountStep(code, body, amountText, parse);
    var a := ChooseAmount(amountText, parse);
    var last := Shown(Rendering(Some(body), code, a.value));
    if a.warned {
      assert log == [InvalidNumber, last];
    } else {
      assert log == [last];
    }
  }

  /** Step 1: the INR preview. `raised` tells whether its table raised, which ends the program. */
  method Preview(key: string, preview: Response) returns (log: seq<Event>, raised: bool)
    ensures log == PreviewLog(key, preview)
    ensures raised == PreviewRaises(preview)
  {
    var defaultBot := new RateChecker(key, PreviewBase);
    UpperFixesUpper(PreviewBase);
    var rates, notice := defaultBot.GetRates(preview);
    log := [Fetched(defaultBot.link)] + (if notice.Some? then [Reported(notice.value)] else []);
    raised := false;
    if rates.Some? && rates.value != map[] {
      assert Gate(preview) == defaultBot.rawInfo;
      var shown := defaultBot.ShowConversions(PreviewAmount);
      log := log + [Shown(shown)];
      raised := shown.Aborted?;
    }
  }

  /** Step 2: the base prompt, the second fetch, the amount prompt and the second table. */
  method Custom(key: string, userBase: string, custom: Response, amountText: string,
                parse: string -> Option<real>) returns (log: seq<Event>)
    ensures log == CustomLog(key, userBase, custom, amountText, parse)
  {
    var userCode := NormaliseBase(userBase);
    if |userCode| != CodeLength {
      return [InvalidFormat];
    }
    assert ChooseBase(userBase) == Some(userCode);
    var bot := new RateChecker(key, userCode);
    UpperFixesUpper(userCode);
    assert bot.base == userCode && bot.link == Link(key, userCode);
    var rates, notice := bot.GetRates(custom);
    log := [Fetched(bot.link)] + (if notice.Some? then [Reported(notice.value)] else []);
    if rates.Some? && rates.value != map[] {
      assert Gate(custom) == bot.rawInfo;
      var amount := ChooseAmount(amountText, parse);
      if amount.warned {
        log := log + [InvalidNumber];
      }
      var shown := bot.ShowConversions(amount.value);
      log := log + [Shown(shown)];
      assert log == FetchEvents(Link(key, userCode), custom) + AmountStep(userCode, custom.body, amountText, parse);
    }
  }

  /**
   * The main block, run against the two fetch outcomes and the two console
   * answers; it returns the requests it issues and the messages and tables it prints.
   */
  method Run(key: string, preview: Response, userBase: string, custom: Response,
             amountText: string, parse: string -> Option<real>) returns (log: seq<Event>)
    ensures log == SessionLog(key, preview, userBase, custom, amountText, parse)
  {
    var raised;
    log, raised := Preview(key, preview);
    if raised {
      return;  // the TypeError from the missing timestamp ends the program
    }
    var rest := Custom(key, userBase, custom, amountText, parse);
    log := log + rest;
  }
}
