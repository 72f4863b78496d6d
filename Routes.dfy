/**
 * The `/search` pipeline without its HTTP wiring: choose the catalog by the
 * intent's goal, keep the offers within a set budget, rank them, keep the
 * first ten and attach a rationale to each.
 */
module Routes {
  import opened Wrappers
  import opened Schemas
  import opened Rewards
  import opened Ranking
  import opened Text

  /**
   * Number formatting the rationale texts use: `String(x)` for a number and
   * `x.toFixed(3)`. Their digits are not modelled, only where they appear.
   */
  datatype Formatter = Formatter(number: real -> string, fixed3: real -> string)

  /** One entry of the search response. */
  datatype SearchEntry = SearchEntry(offer: Offer, qpoints: int, qPerHKD: real, rationale: string)

  const MaxResults: nat := 10

  /** The status-run catalog for the `status_run` goal, the HKG to London one otherwise. */
  function SelectCatalog(goal: Goal, statusRun: seq<Offer>, hkgLon: seq<Offer>): seq<Offer> {
    if goal == StatusRun then statusRun else hkgLon
  }

  /** A budget filters only when it is truthy: present and not zero. */
  predicate BudgetSet(budgetMax: Option<real>) {
    budgetMax.Some? && budgetMax.value != 0.0
  }

  function WithinBudget(offers: seq<Offer>, budget: real): seq<Offer> {
    if offers == [] then []
    else (if offers[0].price.amount <= budget then [offers[0]] else []) + WithinBudget(offers[1..], budget)
  }

  /** The filter distributes over concatenation, so it keeps the input order. */
  lemma {:induction false} WithinBudgetAppend(a: seq<Offer>, b: seq<Offer>, budget: real)
    ensures WithinBudget(a + b, budget) == WithinBudget(a, budget) + WithinBudget(b, budget)
  {
    if a == [] {
      assert a + b == b;
    } else {
      assert (a + b)[0] == a[0] && (a + b)[1..] == a[1..] + b;
      WithinBudgetAppend(a[1..], b, budget);
    }
  }

  /**
   * Exactly the offers priced at or under the budget survive, each as often
   * as in the input (the bound is inclusive).
   */
  lemma {:induction false} WithinBudgetKeeps(offers: seq<Offer>, budget: real)
    ensures forall o :: o in WithinBudget(offers, budget) ==> o.price.amount <= budget
    ensures forall o :: multiset(WithinBudget(offers, budget))[o]
                        == if o.price.amount <= budget then multiset(offers)[o] else 0
  {
    if offers != [] {
      WithinBudgetKeeps(offers[1..], budget);
      assert offers == [offers[0]] + offers[1..];
    }
  }

  /** The offers the ranking sees. */
  function Filtered(intent: Intent, source: seq<Offer>): seq<Offer> {
    if BudgetSet(intent.budgetMax) then WithinBudget(source, intent.budgetMax.value) else source
  }

  lemma FilteredPriced(intent: Intent, source: seq<Offer>)
    requires Priced(source)
    ensures Priced(Filtered(intent, source))
  {
    if BudgetSet(intent.budgetMax) {
      var f := Filtered(intent, source);
      WithinBudgetKeeps(source, intent.budgetMax.value);
      forall i | 0 <= i < |f| ensures f[i].price.amount != 0.0 {
        assert f[i] in multiset(f);
      }
    }
  }

  /**
   * Every ranked entry of the filtered catalog is an offer of the catalog,
   * within a set budget, with its own points and ratio.
   */
  lemma FilteredRankingSound(intent: Intent, source: seq<Offer>, mode: RankMode)
    requires Priced(source)
    ensures Priced(Filtered(intent, source))
    ensures forall e :: e in Ranked(Filtered(intent, source), mode) ==>
              && e.offer in source
              && (BudgetSet(intent.budgetMax) ==> e.offer.price.amount <= intent.budgetMax.value)
              && e.qpoints == Qpoints(e.offer) && e.qPerHKD == QpointsPerHKD(e.offer)
  {
    var filtered := Filtered(intent, source);
    FilteredPriced(intent, source);
    RankedIsEnrichedPermutation(filtered, mode);
    if BudgetSet(intent.budgetMax) {
      WithinBudgetKeeps(source, intent.budgetMax.value);
      forall e | e in Ranked(filtered, mode) ensures e.offer in source {
        assert e.offer in multiset(filtered);
      }
    }
  }

  /** The rationale texts; an unmatched mode falls through to the price text. */
  function Rationale(offer: Offer, mode: RankMode, qPerHKD: real, qpoints: int, fmt: Formatter): string {
    match mode
    case QpointsPerHkd =>
      "Best Qpoints/HKD: " + fmt.fixed3(qPerHKD) + " · Earns ~" + fmt.number(qpoints as real) + " Qpoints"
    case Weekend =>
      if offer.weekendFit == Some(true) then "Fits weekend pattern" else "Near-weekend option"
    case Shortest =>
      "Shortest duration: " + fmt.number(offer.totalDurationMin) + " min"
    case Cheapest =>
      "Cheapest in set: " + fmt.number(offer.price.amount) + " " + offer.price.currency
  }

  /** Reads back which ranking a rationale text explains. */
  function RationaleMode(text: string): RankMode {
    if StartsWith(text, "Best Qpoints/HKD: ") then QpointsPerHkd
    else if text == "Fits weekend pattern" || text == "Near-weekend option" then Weekend
    else if StartsWith(text, "Shortest duration: ") then RankMode.Shortest
    else RankMode.Cheapest
  }

  /**
   * Every mode has its own text, whatever the formatter prints, and the
   * weekend text tells whether the offer fits the weekend.
   */
  lemma RationaleNamesMode(offer: Offer, mode: RankMode, qPerHKD: real, qpoints: int, fmt: Formatter)
    ensures RationaleMode(Rationale(offer, mode, qPerHKD, qpoints, fmt)) == mode
    ensures mode == Weekend ==>
              (Rationale(offer, mode, qPerHKD, qpoints, fmt) == "Fits weekend pattern" <==> offer.weekendFit == Some(true))
    ensures mode == RankMode.Cheapest ==> StartsWith(Rationale(offer, mode, qPerHKD, qpoints, fmt), "Cheapest in set: ")
  {
    var text := Rationale(offer, mode, qPerHKD, qpoints, fmt);
    match mode
    case QpointsPerHkd =>
      assert text[..18] == "Best Qpoints/HKD: ";
    case Weekend =>
      assert text[0] != "Best Qpoints/HKD: "[0];
    case Shortest =>
      assert text[0] != "Best Qpoints/HKD: "[0];
      assert text[..19] == "Shortest duration: ";
    case Cheapest =>
      assert text[0] != "Best Qpoints/HKD: "[0] && text[0] != "Shortest duration: "[0];
      assert text[..17] == "Cheapest in set: ";
  }

  /** Copies a ranked entry into the response and attaches its rationale. */
  function Annotated(e: Entry, mode: RankMode, fmt: Formatter): (r: SearchEntry)
    ensures r.offer == e.offer && r.qpoints == e.qpoints && r.qPerHKD == e.qPerHKD
  {
    SearchEntry(e.offer, e.qpoints, e.qPerHKD, Rationale(e.offer, mode, e.qPerHKD, e.qpoints, fmt))
  }

  function Min(a: nat, b: nat): nat {
    if a <= b then a else b
  }

  /**
   * What the catalogs must satisfy for the ranking to be defined: every
   * offer has a non-zero price.
   */
  predicate CatalogsPriced(statusRun: seq<Offer>, hkgLon: seq<Offer>) {
    Priced(statusRun) && Priced(hkgLon)
  }

  /**
   * The search: the first (at most ten) entries of the ranking of the
   * catalog for the goal, cut down to the budget when one is set, each with
   * its rationale. So no entry's price exceeds a set budget, every entry
   * carries its own offer's metrics, and with no budget set the response is
   * the head of the unfiltered ranking.
   */
  method Search(intent: Intent, mode: RankMode, statusRun: seq<Offer>, hkgLon: seq<Offer>, fmt: Formatter)
    returns (result: seq<SearchEntry>)
    requires CatalogsPriced(statusRun, hkgLon)
    ensures Priced(Filtered(intent, SelectCatalog(intent.goal, statusRun, hkgLon)))
    ensures |result| == Min(MaxResults, |Filtered(intent, SelectCatalog(intent.goal, statusRun, hkgLon))|)
    ensures forall i :: 0 <= i < |result| ==>
              result[i] == Annotated(Ranked(Filtered(intent, SelectCatalog(intent.goal, statusRun, hkgLon)), mode)[i], mode, fmt)
    ensures forall e :: e in result ==>
              && e.offer in SelectCatalog(intent.goal, statusRun, hkgLon)
              && (BudgetSet(intent.budgetMax) ==> e.offer.price.amount <= intent.budgetMax.value)
              && e.qpoints == Qpoints(e.offer) && e.qPerHKD == QpointsPerHKD(e.offer)
              && e.rationale == Rationale(e.offer, mode, e.qPerHKD, e.qpoints, fmt)
    ensures !BudgetSet(intent.budgetMax) ==>
              |result| == Min(MaxResults, |SelectCatalog(intent.goal, statusRun, hkgLon)|) &&
              forall i :: 0 <= i < |result| ==>
                result[i].offer == Ranked(SelectCatalog(intent.goal, statusRun, hkgLon), mode)[i].offer
  {
    var source := SelectCatalog(intent.goal, statusRun, hkgLon);
    var filtered := if BudgetSet(intent.budgetMax) then WithinBudget(source, intent.budgetMax.value) else source;
    FilteredPriced(intent, source);
    assert filtered == Filtered(intent, source) && Priced(filtered);
    var ranked := RankOffers(filtered, mode);
    var top := ranked[..Min(MaxResults, |ranked|)];
    result := seq(|top|, i requires 0 <= i < |top| => Annotated(top[i], mode, fmt));

    FilteredRankingSound(intent, source, mode);
    forall e | e in result
      ensures && e.offer in source
              && (BudgetSet(intent.budgetMax) ==> e.offer.price.amount <= intent.budgetMax.value)
              && e.qpoints == Qpoints(e.offer) && e.qPerHKD == QpointsPerHKD(e.offer)
              && e.rationale == Rationale(e.offer, mode, e.qPerHKD, e.qpoints, fmt)
    {
      var i :| 0 <= i < |result| && result[i] == e;
      assert ranked[i] in ranked;
    }
  }
}
