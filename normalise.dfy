/**
 * The component's three memos: `data` (the primary record), `etaArray`
 * (the raw countdown source) and `etaElements` (the countdowns in seconds,
 * or the "no ETA" text).
 */
module Normalise {
  import opened Wrappers
  import opened JsText
  import opened JsNumber
  import opened Predictions

  /** `data`: bus data wins whenever it is present at all, even as an empty array; its `[0]` may be undefined. */
  function PrimaryOf(resp: Responses): Option<PrimaryRecord> {
    if resp.bus.Some? then
      if |resp.bus.value| > 0 then Some(BusRecord(resp.bus.value[0])) else None
    else if resp.subway.Some? && |resp.subway.value| > 0 then Some(SubwayRecord(resp.subway.value[0]))
    else None
  }

  /** The raw countdown source: the bus array itself, or the pieces of the subway record's `nextTrains`. */
  datatype EtaSource = BusEtas(etas: seq<BusPrediction>) | SubwayTokens(tokens: seq<string>)

  /**
   * `etaArray` can be computed. Without bus data,
   * `subway.data?.[0].nextTrains.split(",")` throws when the subway array is
   * empty (no `[0]`) and when its first record has no `nextTrains`.
   */
  predicate CanNormalise(resp: Responses) {
    resp.bus.Some? || resp.subway.None? || (|resp.subway.value| > 0 && resp.subway.value[0].nextTrains.Some?)
  }

  /** `etaArray`. */
  function EtaSourceOf(resp: Responses): Option<EtaSource>
    requires CanNormalise(resp)
  {
    if resp.bus.Some? then Some(BusEtas(resp.bus.value))
    else if resp.subway.None? then None
    else Some(SubwayTokens(Split(resp.subway.value[0].nextTrains.value, ',')))
  }

  /** `Number.parseInt(minutes) * 60`; `NaN` stays `NaN`. */
  function Countdown(minutes: string): Option<int> {
    match ParseInt(minutes)
    case None => None
    case Some(m) => Some(m * 60)
  }

  /** The text `parseInt` reads from a field: a missing one converts to `"undefined"`. */
  function FieldText(field: Option<string>): string {
    if field.Some? then field.value else "undefined"
  }

  /** A missing `nextBusMinutes` counts down `NaN`: `parseInt(undefined)` reads no digits. */
  lemma MissingMinutesIsNaN()
    ensures Countdown(FieldText(None)) == None
  {
    ParseIntNoDigits(FieldText(None));
  }

  /** One countdown per subway token, in token order. */
  function CountdownsOf(tokens: seq<string>): (seconds: seq<Option<int>>)
    ensures |seconds| == |tokens|
    ensures forall i :: 0 <= i < |tokens| ==> seconds[i] == Countdown(tokens[i])
  {
    if tokens == [] then [] else [Countdown(tokens[0])] + CountdownsOf(tokens[1..])
  }

  /**
   * One countdown per bus, in upstream order, without re-sorting or
   * filtering; a bus without `nextBusMinutes` keeps its place as `NaN`.
   */
  function BusCountdownsOf(etas: seq<BusPrediction>): (seconds: seq<Option<int>>)
    ensures |seconds| == |etas|
    ensures forall i :: 0 <= i < |etas| ==> seconds[i] == Countdown(FieldText(etas[i].nextBusMinutes))
  {
    if etas == [] then [] else [Countdown(FieldText(etas[0].nextBusMinutes))] + BusCountdownsOf(etas[1..])
  }

  /**
   * `etaElements`: the "no ETA" text; nothing at all (`undefined`, when the
   * first bus has no `nextBusMinutes` and neither shape check passes); or
   * the countdown seconds (`None` for `NaN`).
   */
  datatype EtaView = NoEta | Blank | Countdowns(seconds: seq<Option<int>>)

  function EtaElements(src: Option<EtaSource>): EtaView {
    match src
    case None => NoEta
    case Some(SubwayTokens(tokens)) => if tokens == [] then NoEta else Countdowns(CountdownsOf(tokens))
    case Some(BusEtas(etas)) =>
      if etas == [] then NoEta
      else if etas[0].nextBusMinutes.None? then Blank
      else Countdowns(BusCountdownsOf(etas))
  }

  /** Both memos together, as the rendering sees them. */
  function Normalised(resp: Responses): (Option<PrimaryRecord>, EtaView)
    requires CanNormalise(resp)
  {
    (PrimaryOf(resp), EtaElements(EtaSourceOf(resp)))
  }

  /**
   * Precedence: when bus data is present, even as an empty array, the
   * subway data is ignored; the primary record is the first bus (absent
   * for an empty array) and the countdowns come from the bus list.
   */
  lemma BusTakesPrecedence(resp: Responses)
    requires resp.bus.Some?
    ensures CanNormalise(resp)
    ensures PrimaryOf(resp) == if resp.bus.value == [] then None else Some(BusRecord(resp.bus.value[0]))
    ensures EtaSourceOf(resp) == Some(BusEtas(resp.bus.value))
    ensures Normalised(resp) == Normalised(Responses(None, resp.bus))
  {
  }

  /** Without bus data the primary record is the first subway record and the countdowns come from its `nextTrains`. */
  lemma SubwayWithoutBus(resp: Responses)
    requires resp.bus.None? && CanNormalise(resp)
    ensures resp.subway.None? ==> PrimaryOf(resp) == None && EtaSourceOf(resp) == None
    ensures resp.subway.Some? ==>
              PrimaryOf(resp) == Some(SubwayRecord(resp.subway.value[0])) &&
              EtaSourceOf(resp) == Some(SubwayTokens(Split(resp.subway.value[0].nextTrains.value, ',')))
  {
  }

  /**
   * Subway countdowns: one per comma-separated token, so never none, in
   * token order, each `parseInt(token) * 60`; gluing the tokens back with
   * commas gives `nextTrains`.
   */
  lemma SubwayCountdowns(resp: Responses)
    requires resp.bus.None? && resp.subway.Some? && |resp.subway.value| > 0
    requires resp.subway.value[0].nextTrains.Some?
    ensures CanNormalise(resp)
    ensures var trains := resp.subway.value[0].nextTrains.value;
            var tokens := Split(trains, ',');
            EtaElements(EtaSourceOf(resp)) == Countdowns(CountdownsOf(tokens)) &&
            |CountdownsOf(tokens)| == Count(trains, ',') + 1 &&
            Join(tokens, ',') == trains
  {
    JoinSplit(resp.subway.value[0].nextTrains.value, ',');
  }

  /**
   * Bus countdowns: an empty bus array gives "no ETA"; a first bus without
   * `nextBusMinutes` gives nothing; otherwise one countdown per bus, in
   * upstream order, each `parseInt(nextBusMinutes) * 60`.
   */
  lemma BusCountdowns(resp: Responses)
    requires resp.bus.Some?
    ensures CanNormalise(resp)
    ensures var view := EtaElements(EtaSourceOf(resp));
            var etas := resp.bus.value;
            (view == NoEta <==> etas == []) &&
            (view == Blank <==> etas != [] && etas[0].nextBusMinutes.None?) &&
            (view.Countdowns? ==>
               |view.seconds| == |etas| &&
               forall i :: 0 <= i < |etas| ==> view.seconds[i] == Countdown(FieldText(etas[i].nextBusMinutes)))
  {
  }

  /**
   * Only the first bus is checked for `nextBusMinutes`: a later bus without
   * it still gets a countdown, in its own place, and that countdown is `NaN`.
   */
  lemma LaterBusWithoutMinutesIsNaN(resp: Responses, i: nat)
    requires resp.bus.Some? && 0 < i < |resp.bus.value|
    requires resp.bus.value[0].nextBusMinutes.Some? && resp.bus.value[i].nextBusMinutes.None?
    ensures CanNormalise(resp)
    ensures var view := EtaElements(EtaSourceOf(resp));
            view.Countdowns? && |view.seconds| == |resp.bus.value| && view.seconds[i] == None
  {
    MissingMinutesIsNaN();
  }

  /**
   * Unparseable minutes are not filtered out: a token that `parseInt` reads
   * as `NaN` (see `ParseIntNaNExactly` for exactly which) keeps its place as
   * a `NaN` countdown, and the list keeps its length.
   */
  lemma UnparseableMinutesKeepTheirPlace(tokens: seq<string>, i: nat)
    requires i < |tokens|
    requires ParseInt(tokens[i]) == None
    ensures |CountdownsOf(tokens)| == |tokens| && CountdownsOf(tokens)[i] == None
  {
  }

  /** A numeral followed by non-numeric text, such as `12 min`, is read up to the text. */
  lemma NumeralCountdown(n: int, rest: string)
    requires rest == [] || (!IsDigitIn(rest[0], 10) && (n != 0 || (rest[0] != 'x' && rest[0] != 'X')))
    ensures Countdown(IntToString(n) + rest) == Some(n * 60)
  {
    ParseIntOfNumeral(n, rest);
  }

  /** A minute string that is exactly the numeral of `n` counts down `n * 60` seconds. */
  lemma CountdownOfNumeral(n: int, minutes: string)
    requires IntToString(n) == minutes
    ensures Countdown(minutes) == Some(n * 60)
  {
    NumeralCountdown(n, []);
    assert minutes + [] == minutes;
  }

  /** The minute strings of the two worked examples below. */
  lemma SmallNumerals()
    ensures IntToString(3) == "3" && IntToString(9) == "9" && IntToString(5) == "5"
    ensures IntToString(15) == "15" && IntToString(12) == "12"
  {
    assert NatToString(15) == NatToString(1) + [DecimalDigit(5)];
    assert NatToString(12) == NatToString(1) + [DecimalDigit(2)];
  }

  lemma CountdownAs(minutes: string, n: int, numeral: string)
    requires IntToString(n) == numeral && minutes == numeral
    ensures Countdown(minutes) == Some(n * 60)
  {
    CountdownOfNumeral(n, minutes);
  }

  lemma ThreeCountdowns(tokens: seq<string>, x: Option<int>, y: Option<int>, z: Option<int>)
    requires |tokens| == 3
    requires Countdown(tokens[0]) == x && Countdown(tokens[1]) == y && Countdown(tokens[2]) == z
    ensures CountdownsOf(tokens) == [x, y, z]
  {
    var c := CountdownsOf(tokens);
    assert c == [c[0], c[1], c[2]];
  }

  lemma TwoBusCountdowns(b1: BusPrediction, b2: BusPrediction, x: Option<int>, y: Option<int>)
    requires Countdown(FieldText(b1.nextBusMinutes)) == x && Countdown(FieldText(b2.nextBusMinutes)) == y
    ensures BusCountdownsOf([b1, b2]) == [x, y]
  {
    var c := BusCountdownsOf([b1, b2]);
    assert c == [c[0], c[1]];
  }

  /** The subway record `{nextTrains: "3,9,15"}` gives 180, 540 and 900 seconds. */
  lemma SubwayExample(p: SubwayPrediction)
    requires p.nextTrains == Some("3,9,15")
    ensures EtaElements(EtaSourceOf(Responses(Some([p]), None))) == Countdowns([Some(180), Some(540), Some(900)])
  {
    var trains := p.nextTrains.value;
    var tokens := Split(trains, ',');
    assert Join(["3", "9", "15"], ',') == trains;
    SplitJoin(["3", "9", "15"], ',');
    SmallNumerals();
    CountdownAs(tokens[0], 3, "3");
    CountdownAs(tokens[1], 9, "9");
    CountdownAs(tokens[2], 15, "15");
    ThreeCountdowns(tokens, Some(180), Some(540), Some(900));
  }

  /** The bus list `[{nextBusMinutes: "5"}, {nextBusMinutes: "12"}]` gives 300 and 720 seconds, in that order. */
  lemma BusExample(b1: BusPrediction, b2: BusPrediction, subway: Option<seq<SubwayPrediction>>)
    requires b1.nextBusMinutes == Some("5") && b2.nextBusMinutes == Some("12")
    ensures EtaElements(EtaSourceOf(Responses(subway, Some([b1, b2])))) == Countdowns([Some(300), Some(720)])
  {
    SmallNumerals();
    CountdownAs(FieldText(b1.nextBusMinutes), 5, "5");
    CountdownAs(FieldText(b2.nextBusMinutes), 12, "12");
    TwoBusCountdowns(b1, b2, Some(300), Some(720));
  }
}
