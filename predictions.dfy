/**
 * The two upstream response shapes. The countdown fields, which the
 * component reads as they are, may be missing (`None`). The other optional
 * text fields that the upstream leaves out are the empty string (both read
 * as falsy), and a missing `Error` flag is `false`.
 */
module Predictions {
  import opened Wrappers

  /** One platform direction of a subway station; `nextTrains` is a comma-separated list of minutes. */
  datatype SubwayPrediction = SubwayPrediction(destinationSign: string, directionText: string, nextTrains: Option<string>, error: bool)

  /** One upcoming bus; `nextBusMinutes` is its arrival in minutes, as text. */
  datatype BusPrediction = BusPrediction(nextBusMinutes: Option<string>, destinationSign: string, directionText: string, error: bool)

  /** The primary record, `data` in the component: the first element of whichever response won. */
  datatype PrimaryRecord = SubwayRecord(subway: SubwayPrediction) | BusRecord(bus: BusPrediction) {

    function Error(): bool {
      match this
      case SubwayRecord(p) => p.error
      case BusRecord(p) => p.error
    }

    function DestinationSign(): string {
      match this
      case SubwayRecord(p) => p.destinationSign
      case BusRecord(p) => p.destinationSign
    }

    function DirectionText(): string {
      match this
      case SubwayRecord(p) => p.directionText
      case BusRecord(p) => p.directionText
    }
  }

  /**
   * What the two queries currently hold. `None` is a query that has no data
   * (disabled, or still loading); `Some([])` is an empty array, which is
   * present and truthy.
   */
  datatype Responses = Responses(subway: Option<seq<SubwayPrediction>>, bus: Option<seq<BusPrediction>>)
}
