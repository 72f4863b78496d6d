/**
 * The request and catalog shapes of the backend and the checks its schemas
 * perform: an Intent (with the defaults its schema fills in), a Segment and an
 * Offer. Field types are fixed by Dafny's types; the predicates below state the
 * value constraints the schemas add on top (lengths, enums, positive integers).
 */
module Schemas {
  import opened Wrappers

  /** The four goals an Intent may name. */
  datatype Goal = Cheapest | StatusRun | WeekendGetaway | Shortest

  function GoalName(g: Goal): string {
    match g
    case Cheapest => "cheapest"
    case StatusRun => "status_run"
    case WeekendGetaway => "weekend_getaway"
    case Shortest => "shortest"
  }

  /** The enum check of the goal field: only the four names are accepted. */
  function ParseGoal(s: string): (r: Option<Goal>)
    ensures r.Some? ==> GoalName(r.value) == s
  {
    if s == "cheapest" then Some(Cheapest)
    else if s == "status_run" then Some(StatusRun)
    else if s == "weekend_getaway" then Some(WeekendGetaway)
    else if s == "shortest" then Some(Shortest)
    else None
  }

  lemma ParseGoalName(g: Goal)
    ensures ParseGoal(GoalName(g)) == Some(g)
  {
  }

  /** The four cabin classes. */
  datatype Cabin = Economy | PremiumEconomy | Business | First

  function CabinName(c: Cabin): string {
    match c
    case Economy => "ECONOMY"
    case PremiumEconomy => "PREMIUM_ECONOMY"
    case Business => "BUSINESS"
    case First => "FIRST"
  }

  /** The enum check of a cabin field. */
  function ParseCabin(s: string): (r: Option<Cabin>)
    ensures r.Some? ==> CabinName(r.value) == s
  {
    if s == "ECONOMY" then Some(Economy)
    else if s == "PREMIUM_ECONOMY" then Some(PremiumEconomy)
    else if s == "BUSINESS" then Some(Business)
    else if s == "FIRST" then Some(First)
    else None
  }

  lemma ParseCabinName(c: Cabin)
    ensures ParseCabin(CabinName(c)) == Some(c)
  {
  }

  predicate IsCabin(s: string) {
    ParseCabin(s).Some?
  }

  /** A JavaScript number that is a positive integer (`z.number().int().positive()`). */
  predicate IsPositiveInt(x: real) {
    x > 0.0 && x.Floor as real == x
  }

  datatype DateWindow = DateWindow(start: string, end: string)

  datatype TripLength = TripLength(min: real, max: real)

  /** Both bounds positive integers; nothing relates `min` to `max`. */
  predicate TripLengthValid(t: TripLength) {
    IsPositiveInt(t.min) && IsPositiveInt(t.max)
  }

  predicate AllCodes(ds: seq<string>) {
    forall i :: 0 <= i < |ds| ==> |ds[i]| == 3
  }

  /** An intent as it arrives, before the schema has filled in its defaults. */
  datatype RawIntent = RawIntent(
    goal: Option<string>,
    origin: string,
    destinations: Option<seq<string>>,
    dateWindow: DateWindow,
    tripLengthDays: Option<TripLength>,
    budgetCurrency: Option<string>,
    budgetMax: Option<real>,
    weekendOnly: Option<bool>,
    passport: Option<string>,
    visasAllowed: Option<seq<string>>,
    codeshareOk: Option<bool>,
    cabinPref: Option<string>,
    notes: Option<string>)

  /** An intent the schema accepted: the defaulted fields are always present. */
  datatype Intent = Intent(
    goal: Goal,
    origin: string,
    destinations: Option<seq<string>>,
    dateWindow: DateWindow,
    tripLengthDays: Option<TripLength>,
    budgetCurrency: string,
    budgetMax: Option<real>,
    weekendOnly: Option<bool>,
    passport: Option<string>,
    visasAllowed: Option<seq<string>>,
    codeshareOk: bool,
    cabinPref: Cabin,
    notes: Option<string>)

  const DefaultGoal: Goal := Cheapest
  const DefaultBudgetCurrency: string := "HKD"
  const DefaultCodeshareOk: bool := true
  const DefaultCabin: Cabin := Economy

  /** The value constraints of the intent schema on a raw intent. */
  predicate RawIntentValid(raw: RawIntent) {
    && (raw.goal.Some? ==> ParseGoal(raw.goal.value).Some?)
    && |raw.origin| == 3
    && (raw.destinations.Some? ==> AllCodes(raw.destinations.value))
    && (raw.tripLengthDays.Some? ==> TripLengthValid(raw.tripLengthDays.value))
    && (raw.cabinPref.Some? ==> IsCabin(raw.cabinPref.value))
  }

  /** The value constraints that every accepted intent satisfies. */
  predicate IntentValid(i: Intent) {
    && |i.origin| == 3
    && (i.destinations.Some? ==> AllCodes(i.destinations.value))
    && (i.tripLengthDays.Some? ==> TripLengthValid(i.tripLengthDays.value))
  }

  /**
   * Parsing with the intent schema: rejects a raw intent that breaks a
   * constraint, otherwise fills `goal`, `budget_currency`, `codeshare_ok` and
   * `cabin_pref` with their defaults where they are absent.
   */
  function ApplyIntentSchema(raw: RawIntent): (r: Option<Intent>)
    ensures r.Some? <==> RawIntentValid(raw)
    ensures r.Some? ==> IntentValid(r.value)
    ensures r.Some? ==> r.value.goal == (if raw.goal.None? then Cheapest else ParseGoal(raw.goal.value).value)
    ensures r.Some? ==> r.value.budgetCurrency == raw.budgetCurrency.GetOr("HKD")
    ensures r.Some? ==> r.value.codeshareOk == raw.codeshareOk.GetOr(true)
    ensures r.Some? ==> r.value.cabinPref == (if raw.cabinPref.None? then Economy else ParseCabin(raw.cabinPref.value).value)
    ensures r.Some? ==> ForgetDefaults(r.value) == StripDefaults(raw)
  {
    if !RawIntentValid(raw) then None
    else
      var goal := if raw.goal.None? then DefaultGoal else ParseGoal(raw.goal.value).value;
      var cabin := if raw.cabinPref.None? then DefaultCabin else ParseCabin(raw.cabinPref.value).value;
      Some(Intent(goal, raw.origin, raw.destinations, raw.dateWindow, raw.tripLengthDays,
                  raw.budgetCurrency.GetOr(DefaultBudgetCurrency), raw.budgetMax, raw.weekendOnly,
                  raw.passport, raw.visasAllowed, raw.codeshareOk.GetOr(DefaultCodeshareOk),
                  cabin, raw.notes))
  }

  /** The fields of an accepted intent that the schema passes through untouched. */
  datatype PassThrough = PassThrough(
    origin: string,
    destinations: Option<seq<string>>,
    dateWindow: DateWindow,
    tripLengthDays: Option<TripLength>,
    budgetMax: Option<real>,
    weekendOnly: Option<bool>,
    passport: Option<string>,
    visasAllowed: Option<seq<string>>,
    notes: Option<string>)

  function ForgetDefaults(i: Intent): PassThrough {
    PassThrough(i.origin, i.destinations, i.dateWindow, i.tripLengthDays, i.budgetMax,
                i.weekendOnly, i.passport, i.visasAllowed, i.notes)
  }

  function StripDefaults(raw: RawIntent): PassThrough {
    PassThrough(raw.origin, raw.destinations, raw.dateWindow, raw.tripLengthDays, raw.budgetMax,
                raw.weekendOnly, raw.passport, raw.visasAllowed, raw.notes)
  }

  /** An accepted intent written out in full, every defaulted field present. */
  function ToRaw(i: Intent): RawIntent {
    RawIntent(Some(GoalName(i.goal)), i.origin, i.destinations, i.dateWindow, i.tripLengthDays,
              Some(i.budgetCurrency), i.budgetMax, i.weekendOnly, i.passport, i.visasAllowed,
              Some(i.codeshareOk), Some(CabinName(i.cabinPref)), i.notes)
  }

  /** Parsing an accepted intent again gives it back unchanged. */
  lemma IntentSchemaRoundTrip(i: Intent)
    requires IntentValid(i)
    ensures ApplyIntentSchema(ToRaw(i)) == Some(i)
  {
    ParseGoalName(i.goal);
    ParseCabinName(i.cabinPref);
  }

  /** Parsing is idempotent: re-parsing an accepted intent changes nothing. */
  lemma IntentSchemaIdempotent(raw: RawIntent)
    requires RawIntentValid(raw)
    ensures ApplyIntentSchema(ToRaw(ApplyIntentSchema(raw).value)) == ApplyIntentSchema(raw)
  {
    IntentSchemaRoundTrip(ApplyIntentSchema(raw).value);
  }

  /** One flight leg of an offer's itinerary. */
  datatype Segment = Segment(
    from: string,
    to: string,
    dep: string,
    arr: string,
    carrier: string,
    flightNo: string,
    cabin: string,
    distanceKm: Option<real>)

  /** The constraints of the segment schema; `distanceKm` may be absent. */
  predicate SegmentValid(s: Segment) {
    |s.from| == 3 && |s.to| == 3 && |s.carrier| == 2 && IsCabin(s.cabin)
  }

  datatype Money = Money(amount: real, currency: string)

  datatype Offer = Offer(
    id: string,
    price: Money,
    itinerary: seq<Segment>,
    totalDurationMin: real,
    stops: real,
    weekendFit: Option<bool>,
    notes: Option<string>)

  /**
   * The constraints of the offer schema: only its segments are checked; the
   * amount may be zero or negative and the itinerary may be empty.
   */
  predicate OfferValid(o: Offer) {
    forall i :: 0 <= i < |o.itinerary| ==> SegmentValid(o.itinerary[i])
  }

  /** The offer schema admits a free offer with no segments. */
  lemma OfferSchemaAdmitsDegenerate(id: string, currency: string, duration: real, stops: real)
    ensures OfferValid(Offer(id, Money(0.0, currency), [], duration, stops, None, None))
    ensures OfferValid(Offer(id, Money(-1.0, currency), [], duration, stops, Some(true), None))
  {
  }
}
