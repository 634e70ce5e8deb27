/**
 * What the component renders, as values: the ordered classification
 * (`!data`, then `data.Error`, then the full view) and the inputs it hands
 * to its rendering collaborators in the READY branch.
 */
module Render {
  import opened Wrappers
  import opened JsText
  import opened JsNumber
  import opened Queries
  import opened Predictions
  import opened Normalise

  datatype RenderState = Loading | NotFound | Ready

  /** No primary record is LOADING; otherwise a set `Error` is NOT_FOUND; otherwise READY. */
  function Classify(primary: Option<PrimaryRecord>): RenderState {
    if primary.None? then Loading
    else if primary.value.Error() then NotFound
    else Ready
  }

  /** Station metadata from the local stop store; only the stop name is used. */
  datatype StationMeta = StationMeta(stopName: string)

  /** The station title and the direction line shown under it. */
  datatype StationHeader = StationHeader(stationTitle: string, directionText: string)

  /** `data.directionText || props.stopNum`: a text or, when the text is empty, the stop number. */
  datatype BookmarkName = DirectionName(text: string) | StopNumber(stopNum: int)

  /** The inputs of the bookmark control. */
  datatype Bookmark = Bookmark(stopId: int, name: BookmarkName, ttcId: int, lines: seq<string>, kind: string)

  /**
   * The rendered screen. LOADING shows the loading title and a refresh
   * button; NOT_FOUND shows the fail-to-locate title and nothing else; READY
   * shows the optional destination title, the optional station header, the
   * alert list for the line, the refresh and bookmark controls, the
   * countdowns (or the "no ETA" text) and the raw primary record.
   */
  datatype Screen =
    | LoadingScreen
    | NotFoundScreen
    | ReadyScreen(destinationTitle: Option<string>, station: Option<StationHeader>, alertLines: seq<int>,
                  bookmark: Bookmark, etas: EtaView, raw: PrimaryRecord)
  {
    function State(): RenderState {
      match this
      case LoadingScreen => Loading
      case NotFoundScreen => NotFound
      case ReadyScreen(_, _, _, _, _, _) => Ready
    }

    /** Whether the screen offers the refresh button. */
    predicate HasRefresh() {
      !NotFoundScreen?
    }
  }

  /** `stop.name.split(" - ")[0]`. */
  function StationTitle(stopName: string): string {
    PrefixBefore(stopName, " - ")
  }

  function BookmarkNameOf(directionText: string, stopNum: int): BookmarkName {
    if directionText != "" then DirectionName(directionText) else StopNumber(stopNum)
  }

  /** The READY branch for a primary record that is present and not an error. */
  function ReadyView(line: int, stopNum: int, data: PrimaryRecord, etas: EtaView, station: Option<StationMeta>): Screen {
    ReadyScreen(
      if SelectSource(line) == Bus then Some(data.DestinationSign()) else None,
      if station.Some? then Some(StationHeader(StationTitle(station.value.stopName), data.DirectionText())) else None,
      [line],
      Bookmark(stopNum, BookmarkNameOf(data.DirectionText(), stopNum), stopNum, [IntToString(line)], "ttc-subway"),
      etas,
      data)
  }

  /** The whole render of `TtcBasicEtaInfo`, given what the two queries hold and the station metadata. */
  function View(line: int, stopNum: int, resp: Responses, station: Option<StationMeta>): (v: Screen)
    requires CanNormalise(resp)
    ensures v.State() == Classify(PrimaryOf(resp))
  {
    var (primary, etas) := Normalised(resp);
    match Classify(primary)
    case Loading => LoadingScreen
    case NotFound => NotFoundScreen
    case Ready => ReadyView(line, stopNum, primary.value, etas, station)
  }

  /**
   * The checks run in order: an absent primary record is LOADING with a
   * refresh button; otherwise `Error` is NOT_FOUND without one, whatever
   * the countdowns hold; otherwise READY, carrying the countdowns and the
   * primary record.
   */
  lemma ClassificationOrder(line: int, stopNum: int, resp: Responses, station: Option<StationMeta>)
    requires CanNormalise(resp)
    ensures var v := View(line, stopNum, resp, station);
            var primary := PrimaryOf(resp);
            (primary.None? ==> v == LoadingScreen && v.HasRefresh()) &&
            (primary.Some? && primary.value.Error() ==> v == NotFoundScreen && !v.HasRefresh()) &&
            (primary.Some? && !primary.value.Error() ==>
               v.ReadyScreen? && v.HasRefresh() && v.raw == primary.value && v.etas == EtaElements(EtaSourceOf(resp)))
  {
  }

  /** An empty bus array is truthy: it wins over any subway data and, having no `[0]`, renders LOADING. */
  lemma EmptyBusArrayIsLoading(line: int, stopNum: int, resp: Responses, station: Option<StationMeta>)
    requires resp.bus == Some([])
    ensures CanNormalise(resp) && View(line, stopNum, resp, station) == LoadingScreen
  {
  }

  /**
   * A READY screen never shows the "no ETA" text: a present bus record
   * comes from a non-empty bus array, and a present subway record's
   * `nextTrains` always splits into at least one piece. It shows nothing in
   * the countdowns' place exactly when its record is a bus without
   * `nextBusMinutes`, and otherwise at least one countdown.
   */
  lemma ReadyHasCountdowns(line: int, stopNum: int, resp: Responses, station: Option<StationMeta>)
    requires CanNormalise(resp)
    ensures var v := View(line, stopNum, resp, station);
            v.ReadyScreen? ==>
              v.etas != NoEta &&
              (v.etas == Blank <==> v.raw.BusRecord? && v.raw.bus.nextBusMinutes.None?) &&
              (v.etas.Countdowns? ==> |v.etas.seconds| >= 1)
  {
    if resp.bus.None? && resp.subway.Some? && |resp.subway.value| > 0 {
      assert |Split(resp.subway.value[0].nextTrains.value, ',')| >= 1;
    }
  }

  /**
   * READY display rules: the destination title only above line 6; the
   * station header only with metadata, titled by the stop name up to the
   * first " - "; alerts and bookmark for this line; the bookmark is named
   * by the direction text, or by the stop number when that text is empty.
   */
  lemma ReadyDisplayRules(line: int, stopNum: int, resp: Responses, station: Option<StationMeta>)
    requires CanNormalise(resp)
    requires View(line, stopNum, resp, station).ReadyScreen?
    ensures var v := View(line, stopNum, resp, station);
            var data := PrimaryOf(resp).value;
            (v.destinationTitle.Some? <==> line > 6) &&
            (v.destinationTitle.Some? ==> v.destinationTitle.value == data.DestinationSign()) &&
            (v.station.Some? <==> station.Some?) &&
            (v.station.Some? ==> v.station.value == StationHeader(StationTitle(station.value.stopName), data.DirectionText())) &&
            v.alertLines == [line] &&
            v.bookmark.stopId == stopNum && v.bookmark.ttcId == stopNum && v.bookmark.lines == [IntToString(line)] &&
            (data.DirectionText() != "" ==> v.bookmark.name == DirectionName(data.DirectionText())) &&
            (data.DirectionText() == "" ==> v.bookmark.name == StopNumber(stopNum))
  {
  }

  /**
   * The station title is the longest prefix of the stop name in front of
   * the first " - ", or the whole name when it has none.
   */
  lemma StationTitleIsPrefixBeforeDash(stopName: string)
    ensures var title := StationTitle(stopName);
            title <= stopName &&
            (|title| == |stopName| || OccursAt(stopName, " - ", |title|)) &&
            forall j :: 0 <= j < |title| ==> !OccursAt(stopName, " - ", j)
  {
  }

  /** The bookmark lists the line as text that reads back as the line number. */
  lemma BookmarkLineReadsBack(line: int, stopNum: int, resp: Responses, station: Option<StationMeta>)
    requires CanNormalise(resp)
    requires View(line, stopNum, resp, station).ReadyScreen?
    ensures var lines := View(line, stopNum, resp, station).bookmark.lines;
            |lines| == 1 && ParseInt(lines[0]) == Some(line)
  {
    ParseIntOfNumeral(line, []);
    assert IntToString(line) + [] == IntToString(line);
  }
}
