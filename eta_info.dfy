/**
 * The component's one piece of state: `lastUpdatedAt`, the freshness token
 * that is part of both query keys. Refreshing overwrites it with the
 * current time, which the caller passes in.
 */
module EtaInfo {
  import opened Queries

  class TtcBasicEtaInfo {
    const line: int
    const stopNum: int
    var lastUpdatedAt: int

    /** Mounting: the token starts at the time of the first render. */
    constructor (line: int, stopNum: int, now: int)
      ensures this.line == line && this.stopNum == stopNum && lastUpdatedAt == now
    {
      this.line := line;
      this.stopNum := stopNum;
      lastUpdatedAt := now;
    }

    function SubwayIntent(): QueryIntent
      reads this
    {
      SubwayQuery(stopNum, line, lastUpdatedAt)
    }

    function BusIntent(): QueryIntent
      reads this
    {
      BusQuery(stopNum, line, lastUpdatedAt)
    }

    /** The key of the one query that is enabled for this line. */
    function ActiveKey(): seq<string>
      reads this
    {
      if SelectSource(line) == Subway then SubwayIntent().key else BusIntent().key
    }

    /**
     * `fetchPredictions`: the token becomes `now` and nothing else changes.
     * The enabled query's key changes, and so a refetch happens, exactly
     * when `now` differs from the old token; a refresh within the same
     * millisecond keeps the key.
     */
    method FetchPredictions(now: int)
      modifies this`lastUpdatedAt
      ensures lastUpdatedAt == now
      ensures SubwayIntent().enabled == old(SubwayIntent().enabled) && BusIntent().enabled == old(BusIntent().enabled)
      ensures ActiveKey() == old(ActiveKey()) <==> now == old(lastUpdatedAt)
    {
      ghost var before := lastUpdatedAt;
      lastUpdatedAt := now;
      SubwayKeyDeterminedBy(stopNum, line, before, stopNum, line, now);
      BusKeyDeterminedBy(stopNum, line, before, stopNum, line, now);
    }
  }
}
