/**
 * Which upstream query the component enables, and the cache keys it gives
 * them. The key is the fetch's identity: a new freshness token makes a new
 * key, and a new key is what makes the fetch layer fetch again.
 */
module Queries {
  import opened JsText
  import opened JsNumber

  datatype Source = Subway | Bus

  /** Line numbers up to this one are subway lines; everything above is a bus or streetcar route. */
  const LastSubwayLine := 6

  function SelectSource(line: int): Source {
    if line <= LastSubwayLine then Subway else Bus
  }

  /** What one `useQuery` call is given: its cache key and whether it may run. */
  datatype QueryIntent = QueryIntent(key: seq<string>, enabled: bool)

  /** The subway query: key `["ttc-subway-stop-<stopNum>", "<token>"]`. */
  function SubwayQuery(stopNum: int, line: int, token: int): QueryIntent {
    QueryIntent(["ttc-subway-stop-" + IntToString(stopNum), IntToString(token)], SelectSource(line) == Subway)
  }

  /** The bus query: key `["ttc-bus-basic-<line>-<stopNum>", "<token>"]`. */
  function BusQuery(stopNum: int, line: int, token: int): QueryIntent {
    QueryIntent(["ttc-bus-basic-" + IntToString(line) + "-" + IntToString(stopNum), IntToString(token)],
                SelectSource(line) == Bus)
  }

  /** Exactly one query is enabled for any line: the subway one up to line 6, the bus one above. */
  lemma ExactlyOneEnabled(stopNum: int, line: int, token: int)
    ensures SubwayQuery(stopNum, line, token).enabled != BusQuery(stopNum, line, token).enabled
    ensures SubwayQuery(stopNum, line, token).enabled <==> line <= 6
    ensures BusQuery(stopNum, line, token).enabled <==> line > 6
  {
  }

  /** The boundary: line 6 is still subway, line 7 is the first bus line. */
  lemma SourceBoundary()
    ensures SelectSource(6) == Subway && SelectSource(7) == Bus
  {
  }

  lemma CancelPrefix(p: string, a: string, b: string)
    ensures p + a == p + b <==> a == b
  {
    if p + a == p + b {
      assert a == (p + a)[|p|..] && b == (p + b)[|p|..];
    }
  }

  /** The subway key is determined by the stop number and the token, and by nothing else. */
  lemma SubwayKeyDeterminedBy(stopNum1: int, line1: int, token1: int, stopNum2: int, line2: int, token2: int)
    ensures SubwayQuery(stopNum1, line1, token1).key == SubwayQuery(stopNum2, line2, token2).key
            <==> stopNum1 == stopNum2 && token1 == token2
  {
    IntToStringInjective(stopNum1, stopNum2);
    IntToStringInjective(token1, token2);
    CancelPrefix("ttc-subway-stop-", IntToString(stopNum1), IntToString(stopNum2));
  }

  /** In `a + "-" + b`, with `a` carrying a `-` at most in front, the first `-` after index 0 is the separator. */
  lemma DashSeparatorAt(a: string, b: string)
    requires |a| >= 1 && forall i :: 0 < i < |a| ==> a[i] != '-'
    ensures FindFrom(a + "-" + b, "-", 1) == |a|
  {
    var x := a + "-" + b;
    assert x[|a|..|a| + 1] == "-";
    forall j | 1 <= j < |a|
      ensures !OccursAt(x, "-", j)
    {
      assert x[j..j + 1] == [a[j]];
    }
    assert OccursAt(x, "-", |a|);
    var k := FindFrom(x, "-", 1);
    assert k <= |a|;
    assert k < |x|;
  }

  /** `a + "-" + b` can be taken apart again when `a` has a `-` at most in front. */
  lemma DashPairInjective(a1: string, b1: string, a2: string, b2: string)
    requires |a1| >= 1 && forall i :: 0 < i < |a1| ==> a1[i] != '-'
    requires |a2| >= 1 && forall i :: 0 < i < |a2| ==> a2[i] != '-'
    ensures a1 + "-" + b1 == a2 + "-" + b2 <==> a1 == a2 && b1 == b2
  {
    var x1, x2 := a1 + "-" + b1, a2 + "-" + b2;
    if x1 == x2 {
      DashSeparatorAt(a1, b1);
      DashSeparatorAt(a2, b2);
      assert a1 == x1[..|a1|] && a2 == x2[..|a2|];
      assert b1 == x1[|a1| + 1..] && b2 == x2[|a2| + 1..];
    }
  }

  /** The bus key's first component takes apart into the line and the stop number. */
  lemma BusNameDeterminedBy(line1: int, stopNum1: int, line2: int, stopNum2: int)
    ensures "ttc-bus-basic-" + IntToString(line1) + "-" + IntToString(stopNum1)
            == "ttc-bus-basic-" + IntToString(line2) + "-" + IntToString(stopNum2)
            <==> line1 == line2 && stopNum1 == stopNum2
  {
    var p := "ttc-bus-basic-";
    var l1, l2 := IntToString(line1), IntToString(line2);
    var s1, s2 := IntToString(stopNum1), IntToString(stopNum2);
    IntToStringInjective(line1, line2);
    IntToStringInjective(stopNum1, stopNum2);
    IntToStringMinusOnlyFirst(line1);
    IntToStringMinusOnlyFirst(line2);
    DashPairInjective(l1, s1, l2, s2);
    assert p + l1 + "-" + s1 == p + (l1 + "-" + s1);
    assert p + l2 + "-" + s2 == p + (l2 + "-" + s2);
    CancelPrefix(p, l1 + "-" + s1, l2 + "-" + s2);
  }

  /** The bus key is determined by the line, the stop number and the token. */
  lemma BusKeyDeterminedBy(stopNum1: int, line1: int, token1: int, stopNum2: int, line2: int, token2: int)
    ensures BusQuery(stopNum1, line1, token1).key == BusQuery(stopNum2, line2, token2).key
            <==> line1 == line2 && stopNum1 == stopNum2 && token1 == token2
  {
    BusNameDeterminedBy(line1, stopNum1, line2, stopNum2);
    IntToStringInjective(token1, token2);
  }

  lemma SubwayAndBusNamesDiffer(a: string, b: string)
    ensures "ttc-subway-stop-" + a != "ttc-bus-basic-" + b
  {
    assert ("ttc-subway-stop-" + a)[4] == 's';
    assert ("ttc-bus-basic-" + b)[4] == 'b';
  }

  /** A subway key and a bus key never collide. */
  lemma SubwayAndBusKeysDiffer(stopNum1: int, line1: int, token1: int, stopNum2: int, line2: int, token2: int)
    ensures SubwayQuery(stopNum1, line1, token1).key != BusQuery(stopNum2, line2, token2).key
  {
    SubwayAndBusNamesDiffer(IntToString(stopNum1), IntToString(line2) + "-" + IntToString(stopNum2));
    var b := IntToString(line2) + "-" + IntToString(stopNum2);
    assert "ttc-bus-basic-" + IntToString(line2) + "-" + IntToString(stopNum2) == "ttc-bus-basic-" + b;
  }
}
