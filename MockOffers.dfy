/**
 * The two static catalogs the search serves, as constants, with the values
 * the estimator and the ranking give them. These pin the model to concrete
 * numbers: points per offer, the order in each mode, and the budget filter.
 */
module MockOffers {
  import opened Wrappers
  import opened Schemas
  import opened Rewards
  import opened Ranking
  import opened Routes
  import opened PromptParse

  /** An economy leg on the carrier both catalogs use, without its own distance. */
  function Leg(from: string, to: string, dep: string, arr: string, flightNo: string): Segment {
    Segment(from, to, dep, arr, "QR", flightNo, "ECONOMY", None)
  }

  const LhrOffer: Offer := Offer(
    "QR-HKG-DOH-LHR-01", Money(7800.0, "HKD"),
    [Leg("HKG", "DOH", "2025-10-12T19:40:00", "2025-10-13T00:40:00", "817"),
     Leg("DOH", "LHR", "2025-10-13T02:20:00", "2025-10-13T06:50:00", "7")],
    1140.0, 1.0, Some(false), None)

  const LgwOffer: Offer := Offer(
    "QR-HKG-DOH-LGW-02", Money(9400.0, "HKD"),
    [Leg("HKG", "DOH", "2025-11-07T20:30:00", "2025-11-08T01:35:00", "815"),
     Leg("DOH", "LGW", "2025-11-08T03:10:00", "2025-11-08T07:35:00", "329")],
    1080.0, 1.0, Some(true), None)

  const RuhOffer: Offer := Offer(
    "QR-HKG-DOH-RUH-01", Money(4680.0, "HKD"),
    [Leg("HKG", "DOH", "2025-09-12T19:40:00", "2025-09-13T00:40:00", "817"),
     Leg("DOH", "RUH", "2025-09-13T02:20:00", "2025-09-13T03:40:00", "1168"),
     Leg("RUH", "DOH", "2025-09-14T20:30:00", "2025-09-14T21:50:00", "1169"),
     Leg("DOH", "HKG", "2025-09-14T23:55:00", "2025-09-15T12:50:00", "818")],
    2880.0, 3.0, Some(true), None)

  /** Scenario 1: Hong Kong to London. */
  const HkgLonCatalog: seq<Offer> := [LhrOffer, LgwOffer]

  /** Scenario 2: the status run through Riyadh. */
  const StatusRunCatalog: seq<Offer> := [RuhOffer]

  /** Both catalogs pass the offer schema and no offer is free. */
  lemma CatalogsWellFormed()
    ensures forall o :: o in HkgLonCatalog + StatusRunCatalog ==> OfferValid(o)
    ensures CatalogsPriced(StatusRunCatalog, HkgLonCatalog)
  {
  }

  lemma LegPoints()
    ensures SegmentPoints(Leg("HKG", "DOH", "", "", "")) == 15.75
    ensures SegmentPoints(Leg("DOH", "HKG", "", "", "")) == 15.75
    ensures SegmentPoints(Leg("DOH", "LHR", "", "", "")) == 13.0
    ensures SegmentPoints(Leg("DOH", "LGW", "", "", "")) == 12.9
    ensures SegmentPoints(Leg("DOH", "RUH", "", "", "")) == 1.225
    ensures SegmentPoints(Leg("RUH", "DOH", "", "", "")) == 1.225
  {
    ApproxDistanceByPair("HKG", "DOH");
    ApproxDistanceByPair("DOH", "HKG");
    ApproxDistanceByPair("DOH", "LHR");
    ApproxDistanceByPair("DOH", "LGW");
    ApproxDistanceByPair("DOH", "RUH");
    ApproxDistanceByPair("RUH", "DOH");
  }

  /** A leg's points depend only on its endpoints, its cabin and its own distance. */
  lemma LegPointsOnlyRoute(from: string, to: string, dep: string, arr: string, flightNo: string)
    ensures SegmentPoints(Leg(from, to, dep, arr, flightNo)) == SegmentPoints(Leg(from, to, "", "", ""))
  {
  }

  /** 28.75, 28.65 and 33.95 points round to 29, 29 and 34. */
  lemma CatalogPoints()
    ensures Qpoints(LhrOffer) == 29 && Qpoints(LgwOffer) == 29 && Qpoints(RuhOffer) == 34
  {
    LhrPoints();
    LgwPoints();
    RuhPoints();
  }

  /** Each leg scores as the same route with blank times and flight number. */
  lemma LegsScoreByRoute(legs: seq<Segment>)
    requires forall k :: 0 <= k < |legs| ==> legs[k].carrier == "QR" && legs[k].cabin == "ECONOMY" && legs[k].distanceKm.None?
    ensures forall k :: 0 <= k < |legs| ==> SegmentPoints(legs[k]) == SegmentPoints(Leg(legs[k].from, legs[k].to, "", "", ""))
  {
    forall k | 0 <= k < |legs| ensures SegmentPoints(legs[k]) == SegmentPoints(Leg(legs[k].from, legs[k].to, "", "", "")) {
      LegPointsOnlyRoute(legs[k].from, legs[k].to, legs[k].dep, legs[k].arr, legs[k].flightNo);
    }
  }

  lemma LhrPoints()
    ensures TotalPoints(LhrOffer.itinerary) == 28.75 && Qpoints(LhrOffer) == 29
  {
    var l := LhrOffer.itinerary;
    LegPoints();
    LegsScoreByRoute(l);
    assert l[..1][..0] == [] && l[..1] == [l[0]] && l[..2] == l;
  }

  lemma LgwPoints()
    ensures TotalPoints(LgwOffer.itinerary) == 28.65 && Qpoints(LgwOffer) == 29
  {
    var g := LgwOffer.itinerary;
    LegPoints();
    LegsScoreByRoute(g);
    assert g[..1][..0] == [] && g[..1] == [g[0]] && g[..2] == g;
  }

  lemma RuhPoints()
    ensures TotalPoints(RuhOffer.itinerary) == 33.95 && Qpoints(RuhOffer) == 34
  {
    var r := RuhOffer.itinerary;
    LegPoints();
    LegsScoreByRoute(r);
    assert r[..1][..0] == [] && r[..1] == [r[0]];
    assert TotalPoints(r[..1]) == 15.75;
    assert r[..2][..1] == r[..1];
    assert TotalPoints(r[..2]) == 16.975;
    assert r[..3][..2] == r[..2];
    assert TotalPoints(r[..3]) == 18.2;
    assert r[..4] == r && r[..4][..3] == r[..3];
  }

  /**
   * Scenario 1 in each mode: the cheaper London offer first; the shorter
   * Gatwick one first; the better points-per-HKD London offer first; the
   * weekend-fitting Gatwick one first.
   */
  lemma HkgLonRankings()
    ensures OffersOf(Ranked(HkgLonCatalog, RankMode.Cheapest)) == [LhrOffer, LgwOffer]
    ensures OffersOf(Ranked(HkgLonCatalog, RankMode.Shortest)) == [LgwOffer, LhrOffer]
    ensures OffersOf(Ranked(HkgLonCatalog, QpointsPerHkd)) == [LhrOffer, LgwOffer]
    ensures OffersOf(Ranked(HkgLonCatalog, Weekend)) == [LgwOffer, LhrOffer]
  {
    CatalogPoints();
    RankTwo(LhrOffer, LgwOffer, RankMode.Cheapest);
    RankTwo(LhrOffer, LgwOffer, RankMode.Shortest);
    RankTwo(LhrOffer, LgwOffer, QpointsPerHkd);
    RankTwo(LhrOffer, LgwOffer, Weekend);
  }

  /** A budget of 8000 HKD keeps only the 7800 HKD offer; 10000 keeps both. */
  lemma HkgLonBudget()
    ensures WithinBudget(HkgLonCatalog, 8000.0) == [LhrOffer]
    ensures WithinBudget(HkgLonCatalog, 10000.0) == HkgLonCatalog
    ensures WithinBudget(HkgLonCatalog, 7799.0) == []
  {
    assert HkgLonCatalog[1..] == [LgwOffer] && [LgwOffer][1..] == [];
    assert WithinBudget([LgwOffer], 8000.0) == [];
    assert WithinBudget([LgwOffer], 10000.0) == [LgwOffer];
    assert WithinBudget([LgwOffer], 7799.0) == [];
  }

  /**
   * From prompt to ranking input: a London prompt stating 8000 HKD leaves
   * only the 7800 HKD offer to rank; any status-run prompt within its
   * budget ranks the Riyadh offer alone.
   */
  lemma ParsedPromptSelects(p: string)
    ensures !IsStatusRun(p) && BudgetOf(p) == Some(8000.0) ==>
              Filtered(ParsePrompt(p), SelectCatalog(ParsePrompt(p).goal, StatusRunCatalog, HkgLonCatalog)) == [LhrOffer]
    ensures IsStatusRun(p) && (BudgetOf(p).None? || BudgetOf(p) == Some(0.0) || BudgetOf(p).value >= 4680.0) ==>
              Filtered(ParsePrompt(p), SelectCatalog(ParsePrompt(p).goal, StatusRunCatalog, HkgLonCatalog)) == [RuhOffer]
  {
    HkgLonBudget();
    if IsStatusRun(p) && BudgetSet(BudgetOf(p)) && BudgetOf(p).value >= 4680.0 {
      var b := BudgetOf(p).value;
      assert [RuhOffer][1..] == [] && [RuhOffer][0].price.amount <= b;
      assert WithinBudget(StatusRunCatalog, b) == [RuhOffer] + WithinBudget([], b);
    }
  }
}
