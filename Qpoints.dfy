/**
 * The reward estimator: a directed city-pair distance table with a flat
 * fallback, a per-cabin accrual rate per 100 km with an economy fallback, the
 * rounded point total of an itinerary and its points-per-HKD ratio.
 */
module Rewards {
  import opened Wrappers
  import opened Schemas

  /** The distance assumed for a city pair missing from the table. */
  const FallbackDistanceKm: real := 2000.0

  /** The distance table, keyed by "FROM-TO". */
  const DistanceTable: map<string, real> := map[
    "HKG-DOH" := 6300.0, "DOH-HKG" := 6300.0,
    "DOH-LHR" := 5200.0, "LHR-DOH" := 5200.0,
    "DOH-LGW" := 5160.0, "LGW-DOH" := 5160.0,
    "DOH-RUH" := 490.0,  "RUH-DOH" := 490.0]

  /** Looks the key `from-to` up in the table, falling back to 2000 km. */
  function ApproxDistance(from: string, to: string): real {
    var key := from + "-" + to;
    if key in DistanceTable then DistanceTable[key] else FallbackDistanceKm
  }

  /** The table read as the directed city pairs it lists. */
  function KnownDistance(from: string, to: string): Option<real> {
    if (from, to) == ("HKG", "DOH") || (from, to) == ("DOH", "HKG") then Some(6300.0)
    else if (from, to) == ("DOH", "LHR") || (from, to) == ("LHR", "DOH") then Some(5200.0)
    else if (from, to) == ("DOH", "LGW") || (from, to) == ("LGW", "DOH") then Some(5160.0)
    else if (from, to) == ("DOH", "RUH") || (from, to) == ("RUH", "DOH") then Some(490.0)
    else None
  }

  /** The key `a-b` names the three-letter pair `x`,`y` only when a == x and b == y. */
  lemma KeySplit(a: string, b: string, x: string, y: string)
    requires |x| == 3 && '-' !in x && '-' !in y
    requires a + "-" + b == x + "-" + y
    ensures a == x && b == y
  {
    var k := a + "-" + b;
    assert k[|a|] == '-';
    assert |a| == 3;
    assert a == k[..|a|] == x;
    assert b == k[|a| + 1..] == y;
  }

  /**
   * The lookup through the string key agrees with the pair table: the eight
   * listed directed pairs get their table value, every other pair 2000 km.
   * The listed keys are taken in two groups of four, which keeps each proof small.
   */
  lemma ApproxDistanceByPair(from: string, to: string)
    ensures ApproxDistance(from, to) == KnownDistance(from, to).GetOr(FallbackDistanceKm)
  {
    var key := from + "-" + to;
    if key == "HKG-DOH" || key == "DOH-HKG" || key == "DOH-LHR" || key == "LHR-DOH" {
      ListedPairsLondon(from, to);
    } else if key == "DOH-LGW" || key == "LGW-DOH" || key == "DOH-RUH" || key == "RUH-DOH" {
      ListedPairsGatwickRiyadh(from, to);
    } else {
      assert key !in DistanceTable;
    }
  }

  /** The Hong Kong and Heathrow keys of the table. */
  lemma ListedPairsLondon(from: string, to: string)
    requires var key := from + "-" + to; key == "HKG-DOH" || key == "DOH-HKG" || key == "DOH-LHR" || key == "LHR-DOH"
    ensures ApproxDistance(from, to) == KnownDistance(from, to).GetOr(FallbackDistanceKm)
  {
    var key := from + "-" + to;
    if key == "HKG-DOH" { KeySplit(from, to, "HKG", "DOH"); }
    else if key == "DOH-HKG" { KeySplit(from, to, "DOH", "HKG"); }
    else if key == "DOH-LHR" { KeySplit(from, to, "DOH", "LHR"); }
    else { KeySplit(from, to, "LHR", "DOH"); }
  }

  /** The Gatwick and Riyadh keys of the table. */
  lemma ListedPairsGatwickRiyadh(from: string, to: string)
    requires var key := from + "-" + to; key == "DOH-LGW" || key == "LGW-DOH" || key == "DOH-RUH" || key == "RUH-DOH"
    ensures ApproxDistance(from, to) == KnownDistance(from, to).GetOr(FallbackDistanceKm)
  {
    var key := from + "-" + to;
    if key == "DOH-LGW" { KeySplit(from, to, "DOH", "LGW"); }
    else if key == "LGW-DOH" { KeySplit(from, to, "LGW", "DOH"); }
    else if key == "DOH-RUH" { KeySplit(from, to, "DOH", "RUH"); }
    else { KeySplit(from, to, "RUH", "DOH"); }
  }

  /** Distances are the same in both directions. */
  lemma ApproxDistanceSymmetric(a: string, b: string)
    ensures ApproxDistance(a, b) == ApproxDistance(b, a)
  {
    ApproxDistanceByPair(a, b);
    ApproxDistanceByPair(b, a);
  }

  /** Every table entry and the fallback are positive. */
  lemma ApproxDistancePositive(a: string, b: string)
    ensures ApproxDistance(a, b) > 0.0
  {
    ApproxDistanceByPair(a, b);
  }

  /** The rate applied to a cabin string the table does not know. */
  const FallbackRate: real := 0.25

  /** Qpoints per 100 km, keyed by cabin name. */
  const RateTable: map<string, real> := map[
    "ECONOMY" := 0.25, "PREMIUM_ECONOMY" := 0.35, "BUSINESS" := 0.6, "FIRST" := 0.8]

  function RatePer100Km(cabin: string): real {
    if cabin in RateTable then RateTable[cabin] else FallbackRate
  }

  /** The accrual rate of each cabin class. */
  function CabinRate(c: Cabin): real {
    match c
    case Economy => 0.25
    case PremiumEconomy => 0.35
    case Business => 0.6
    case First => 0.8
  }

  /** Each enum cabin gets its own rate; any other cabin string gets 0.25. */
  lemma RatePer100KmByCabin(cabin: string)
    ensures RatePer100Km(cabin) == match ParseCabin(cabin) case Some(c) => CabinRate(c) case None => 0.25
  {
    if cabin !in RateTable {
      assert ParseCabin(cabin).None?;
    }
  }

  /** A segment's own distance when present, otherwise the table estimate. */
  function SegmentKm(seg: Segment): real {
    seg.distanceKm.GetOr(ApproxDistance(seg.from, seg.to))
  }

  /** The unrounded points of one segment. */
  function SegmentPoints(seg: Segment): real {
    SegmentKm(seg) / 100.0 * RatePer100Km(seg.cabin)
  }

  /** A known distance makes the endpoints irrelevant: the table is not consulted. */
  lemma OwnDistanceOverridesTable(seg: Segment, from: string, to: string)
    requires seg.distanceKm.Some?
    ensures SegmentPoints(seg) == SegmentPoints(seg.(from := from, to := to))
    ensures SegmentPoints(seg) == seg.distanceKm.value / 100.0 * RatePer100Km(seg.cabin)
  {
  }

  /** The running total of the estimator's loop after the given segments. */
  function TotalPoints(segs: seq<Segment>): real {
    if segs == [] then 0.0 else TotalPoints(segs[..|segs| - 1]) + SegmentPoints(segs[|segs| - 1])
  }

  lemma {:induction false} TotalPointsAppend(a: seq<Segment>, b: seq<Segment>)
    ensures TotalPoints(a + b) == TotalPoints(a) + TotalPoints(b)
    decreases |b|
  {
    if b == [] {
      assert a + b == a;
    } else {
      var b' := b[..|b| - 1];
      assert (a + b)[..|a + b| - 1] == a + b';
      TotalPointsAppend(a, b');
    }
  }

  /** With no negative known distances, every segment adds a non-negative amount. */
  predicate NoNegativeDistance(segs: seq<Segment>) {
    forall i :: 0 <= i < |segs| ==> segs[i].distanceKm.Some? ==> segs[i].distanceKm.value >= 0.0
  }

  lemma {:induction false} TotalPointsNonNegative(segs: seq<Segment>)
    requires NoNegativeDistance(segs)
    ensures TotalPoints(segs) >= 0.0
  {
    if segs != [] {
      var last := segs[|segs| - 1];
      assert NoNegativeDistance(segs[..|segs| - 1]);
      TotalPointsNonNegative(segs[..|segs| - 1]);
      ApproxDistancePositive(last.from, last.to);
      assert SegmentKm(last) >= 0.0;
      assert RatePer100Km(last.cabin) > 0.0;
    }
  }

  /** `Math.round`: the nearest integer, halves rounded up. */
  function Round(x: real): (r: int)
    ensures r as real - 0.5 <= x < r as real + 0.5
  {
    (x + 0.5).Floor
  }

  /** The estimate the ranking attaches to an offer. */
  function Qpoints(o: Offer): int {
    Round(TotalPoints(o.itinerary))
  }

  /** The estimator's loop: accumulate each segment's points, then round. */
  method EstimateQpoints(offer: Offer) returns (q: int)
    ensures q == Qpoints(offer)
  {
    var total := 0.0;
    for i := 0 to |offer.itinerary|
      invariant total == TotalPoints(offer.itinerary[..i])
    {
      var seg := offer.itinerary[i];
      var km := seg.distanceKm.GetOr(ApproxDistance(seg.from, seg.to));
      var rate := RatePer100Km(seg.cabin);
      assert offer.itinerary[..i + 1][..i] == offer.itinerary[..i];
      total := total + (km / 100.0) * rate;
    }
    assert offer.itinerary[..|offer.itinerary|] == offer.itinerary;
    q := Round(total);
  }

  /** Points are the nearest integer to the exact sum; an empty itinerary earns 0. */
  lemma QpointsIsRoundedSum(o: Offer)
    ensures Qpoints(o) as real - 0.5 <= TotalPoints(o.itinerary) < Qpoints(o) as real + 0.5
    ensures o.itinerary == [] ==> Qpoints(o) == 0
  {
  }

  lemma QpointsNonNegative(o: Offer)
    requires NoNegativeDistance(o.itinerary)
    ensures Qpoints(o) >= 0
  {
    TotalPointsNonNegative(o.itinerary);
  }

  /** Rounded points per HKD of the price; a zero price (Infinity or NaN) is outside the model. */
  function QpointsPerHKD(o: Offer): (r: real)
    requires o.price.amount != 0.0
    ensures r * o.price.amount == Qpoints(o) as real
  {
    Qpoints(o) as real / o.price.amount
  }

  lemma QpointsPerHKDNonNegative(o: Offer)
    requires o.price.amount > 0.0 && NoNegativeDistance(o.itinerary)
    ensures QpointsPerHKD(o) >= 0.0
  {
    QpointsNonNegative(o);
  }
}
