/**
 * The pure part of the offer-card component: the `h m` duration text, and
 * how each card picks its fields from a loosely shaped item with `??`
 * chains and fixed fallbacks.
 */
module OfferCards {
  import opened Wrappers
  import opened Text

  /** JavaScript's `%`: the remainder takes the sign of the dividend. */
  function JsRem(a: int, b: int): (r: int)
    requires b > 0
    ensures -b < r < b && (a >= 0 ==> r >= 0) && (a <= 0 ==> r <= 0)
    ensures exists q :: a == q * b + r
  {
    if a >= 0 then
      assert a == (a / b) * b + a % b;
      a % b
    else
      assert -a == ((-a) / b) * b + (-a) % b;
      assert a == (-((-a) / b)) * b + -((-a) % b);
      -((-a) % b)
  }

  /** `minutesToHhMm`: empty when absent, otherwise whole hours (floored) and the remainder. */
  function MinutesToHhMm(min: Option<int>): (t: string)
    ensures min.None? <==> t == ""
  {
    match min
    case None => ""
    case Some(n) => IntToString(n / 60) + "h " + IntToString(JsRem(n, 60)) + "m"
  }

  /** The length of the leading run of digits. */
  function DigitRun(t: string): (k: nat)
    ensures k <= |t| && AllDigits(t[..k]) && (k == |t| || !IsDigit(t[k]))
  {
    if t != [] && IsDigit(t[0]) then
      var k := 1 + DigitRun(t[1..]);
      assert t[..k] == [t[0]] + t[1..][..k - 1];
      k
    else 0
  }

  /** Reads `"<h>h <m>m"` back into minutes; the inverse of the display for durations. */
  function ParseHhMm(t: string): Option<int> {
    var i := DigitRun(t);
    if 0 < i && i + 2 <= |t| && t[i..i + 2] == "h " then
      var rest := t[i + 2..];
      var j := DigitRun(rest);
      if 0 < j && rest[j..] == "m" then Some(60 * DigitsValue(t[..i]) + DigitsValue(rest[..j])) else None
    else None
  }

  lemma {:induction false} DigitRunOfDigits(d: string, rest: string)
    requires AllDigits(d) && (rest == [] || !IsDigit(rest[0]))
    ensures DigitRun(d + rest) == |d|
  {
    if d != [] {
      assert (d + rest)[0] == d[0] && (d + rest)[1..] == d[1..] + rest;
      DigitRunOfDigits(d[1..], rest);
    } else {
      assert d + rest == rest;
    }
  }

  /**
   * For a whole non-negative number of minutes the text is hours and
   * minutes with `0 <= m < 60` and `60h + m` equal to the input, and
   * reading the text back gives the input.
   */
  lemma {:induction false} MinutesRoundTrip(n: nat)
    ensures MinutesToHhMm(Some(n)) == NatToString(n / 60) + "h " + NatToString(n % 60) + "m"
    ensures 0 <= n % 60 < 60 && 60 * (n / 60) + n % 60 == n
    ensures ParseHhMm(MinutesToHhMm(Some(n))) == Some(n)
  {
    var hs, ms := NatToString(n / 60), NatToString(n % 60);
    var t := hs + "h " + ms + "m";
    assert t == hs + ("h " + ms + "m");
    DigitRunOfDigits(hs, "h " + ms + "m");
    assert t[..|hs|] == hs;
    assert t[|hs|..|hs| + 2] == "h ";
    var rest := t[|hs| + 2..];
    assert rest == ms + "m";
    DigitRunOfDigits(ms, "m");
    assert rest[..|ms|] == ms && rest[|ms|..] == "m";
    DigitsValueOfNatToString(n / 60);
    DigitsValueOfNatToString(n % 60);
  }

  /** A negative duration shows a negative hour count and a negative minute count. */
  lemma MinutesNegative()
    ensures MinutesToHhMm(Some(-30)) == "-1h -30m"
  {
    assert NatToString(1) == "1" && NatToString(30) == "30";
  }

  /** JavaScript's `a ?? b` on optional fields. */
  function Coalesce<T>(a: Option<T>, b: Option<T>): Option<T> {
    if a.Some? then a else b
  }

  /** A `??` chain: the first operand that is present. */
  function FirstPresent<T>(xs: seq<Option<T>>): (r: Option<T>)
    ensures r.Some? ==> r in xs
  {
    if xs == [] then None else Coalesce(xs[0], FirstPresent(xs[1..]))
  }

  /** The chain yields operand `i` exactly when it is present and every earlier one is absent. */
  lemma {:induction false} FirstPresentSpec<T>(xs: seq<Option<T>>)
    ensures FirstPresent(xs).None? <==> forall i :: 0 <= i < |xs| ==> xs[i].None?
    ensures forall i :: 0 <= i < |xs| && xs[i].Some? && (forall j :: 0 <= j < i ==> xs[j].None?) ==>
              FirstPresent(xs) == xs[i]
  {
    if xs != [] {
      FirstPresentSpec(xs[1..]);
      assert forall i :: 1 <= i < |xs| ==> xs[i] == xs[1..][i - 1];
      forall i | 0 <= i < |xs| && xs[i].Some? && (forall j :: 0 <= j < i ==> xs[j].None?)
        ensures FirstPresent(xs) == xs[i]
      {
        if i > 0 {
          assert xs[1..][i - 1] == xs[i];
          assert forall j :: 0 <= j < i - 1 ==> xs[1..][j] == xs[j + 1];
        }
      }
    }
  }

  lemma FirstPresentOfTwo<T>(a: Option<T>, b: Option<T>)
    ensures FirstPresent([a, b]) == if a.Some? then a else b
  {
    assert [a, b][1..] == [b] && [b][1..] == [];
  }

  lemma FirstPresentOfThree<T>(a: Option<T>, b: Option<T>, c: Option<T>)
    ensures FirstPresent([a, b, c]) == if a.Some? then a else if b.Some? then b else c
  {
    assert [a, b, c][1..] == [b, c];
    FirstPresentOfTwo(b, c);
  }

  /** The fields of a segment the card may read. */
  datatype LooseSegment = LooseSegment(origin: string, destination: string)

  datatype LooseMoney = LooseMoney(amount: real, currency: string)

  /** An offer as the card tolerates it: every field optional, under several names. */
  datatype LooseOffer = LooseOffer(
    id: Option<string>, offerId: Option<string>, underscoreId: Option<string>,
    price: Option<LooseMoney>, priceAmount: Option<real>, currency: Option<string>,
    totalDurationMin: Option<int>, durationMin: Option<int>,
    carrier: Option<string>, airline: Option<string>, marketingCarrier: Option<string>,
    origin: Option<string>, from: Option<string>,
    destination: Option<string>, to: Option<string>,
    segments: Option<seq<LooseSegment>>,
    weekendFit: Option<bool>)

  /**
   * One element of `items`: its nested `offer` if any, the same object's own
   * fields read as an offer, and its `rationale` when that is a string.
   */
  datatype Item = Item(offer: Option<LooseOffer>, flat: LooseOffer, rationale: Option<string>)

  /** What one card shows. */
  datatype Card = Card(
    key: string, from: string, to: string, carrier: string,
    duration: string, weekendLabel: string, rationale: Option<string>,
    currency: string, amount: Option<real>, holdable: bool)

  datatype View = NoOffers | Cards(cards: seq<Card>)

  /** The nested offer when present, otherwise the item itself. */
  function Displayed(it: Item): (o: LooseOffer)
    ensures it.offer.Some? ==> o == it.offer.value
    ensures it.offer.None? ==> o == it.flat
  {
    it.offer.GetOr(it.flat)
  }

  function FirstOrigin(segs: Option<seq<LooseSegment>>): Option<string> {
    if segs.Some? && |segs.value| > 0 then Some(segs.value[0].origin) else None
  }

  function LastDestination(segs: Option<seq<LooseSegment>>): Option<string> {
    if segs.Some? && |segs.value| > 0 then Some(segs.value[|segs.value| - 1].destination) else None
  }

  function ResolvedId(o: LooseOffer): Option<string> {
    FirstPresent([o.id, o.offerId, o.underscoreId])
  }

  function ResolvedAmount(o: LooseOffer): Option<real> {
    Coalesce(if o.price.Some? then Some(o.price.value.amount) else None, o.priceAmount)
  }

  function ResolvedCurrency(o: LooseOffer): string {
    FirstPresent([if o.price.Some? then Some(o.price.value.currency) else None, o.currency]).GetOr("HKD")
  }

  function ResolvedDuration(o: LooseOffer): Option<int> {
    Coalesce(o.totalDurationMin, o.durationMin)
  }

  function ResolvedCarrier(o: LooseOffer): string {
    FirstPresent([o.carrier, o.airline, o.marketingCarrier]).GetOr("Airline")
  }

  function ResolvedFrom(o: LooseOffer): string {
    FirstPresent([o.origin, o.from, FirstOrigin(o.segments)]).GetOr("HKG")
  }

  function ResolvedTo(o: LooseOffer): string {
    FirstPresent([o.destination, o.to, LastDestination(o.segments)]).GetOr("LON")
  }

  /** "Weekend fit" for a truthy flag, nothing otherwise. */
  function WeekendLabel(o: LooseOffer): (w: string)
    ensures w == "Weekend fit" <==> o.weekendFit == Some(true)
    ensures w == "" <==> o.weekendFit != Some(true)
  {
    if o.weekendFit == Some(true) then "Weekend fit" else ""
  }

  /** The card for item `idx`. */
  function CardOf(it: Item, idx: nat): Card {
    var o := Displayed(it);
    var id := ResolvedId(o);
    Card(
      id.GetOr("idx-" + NatToString(idx)),
      ResolvedFrom(o), ResolvedTo(o), ResolvedCarrier(o),
      MinutesToHhMm(ResolvedDuration(o)), WeekendLabel(o),
      if it.rationale.Some? && |it.rationale.value| > 0 then it.rationale else None,
      ResolvedCurrency(o), ResolvedAmount(o),
      id.Some? && id.value != "")
  }

  /** The component: the empty state for a missing or empty list, one card per item otherwise. */
  function Render(items: Option<seq<Item>>): (v: View)
    ensures v.NoOffers? <==> items.None? || |items.value| == 0
    ensures v.Cards? ==> |v.cards| == |items.value|
  {
    if items.None? || |items.value| == 0 then NoOffers
    else Cards(seq(|items.value|, k requires 0 <= k < |items.value| => CardOf(items.value[k], k)))
  }

  /** Each card is the one its item resolves to, in the order of the items. */
  lemma RenderCards(items: seq<Item>, k: nat)
    requires k < |items|
    ensures Render(Some(items)).Cards? && Render(Some(items)).cards[k] == CardOf(items[k], k)
  {
  }

  /**
   * The identifier is the first of `id`, `offerId`, `_id` that is present,
   * even an empty string; only when all are absent does the key fall back to
   * the position, and the hold button needs a non-empty identifier.
   */
  lemma CardIdentifier(it: Item, idx: nat)
    ensures var o := Displayed(it);
            && (o.id.Some? ==> CardOf(it, idx).key == o.id.value)
            && (o.id.None? && o.offerId.Some? ==> CardOf(it, idx).key == o.offerId.value)
            && (o.id.None? && o.offerId.None? && o.underscoreId.Some? ==> CardOf(it, idx).key == o.underscoreId.value)
            && (o.id.None? && o.offerId.None? && o.underscoreId.None? ==> CardOf(it, idx).key == "idx-" + NatToString(idx))
            && (CardOf(it, idx).holdable <==> exists v :: ResolvedId(o) == Some(v) && v != "")
  {
    var o := Displayed(it);
    FirstPresentOfThree(o.id, o.offerId, o.underscoreId);
  }

  /** An empty identifier is shown as the key, not replaced, and the card cannot be held. */
  lemma EmptyIdKept(it: Item, idx: nat)
    requires Displayed(it).id == Some("")
    ensures CardOf(it, idx).key == "" && !CardOf(it, idx).holdable
  {
  }

  /** Price and currency: the nested money first, then the flat fields, then "HKD". */
  lemma CardPrice(it: Item, idx: nat)
    ensures var o := Displayed(it); var c := CardOf(it, idx);
            && (o.price.Some? ==> c.amount == Some(o.price.value.amount) && c.currency == o.price.value.currency)
            && (o.price.None? ==> c.amount == o.priceAmount && c.currency == o.currency.GetOr("HKD"))
  {
    var o := Displayed(it);
    FirstPresentOfTwo(if o.price.Some? then Some(o.price.value.currency) else None, o.currency);
  }

  /** Route and carrier: explicit fields first, then the itinerary's ends, then the fixed fallbacks. */
  lemma CardRoute(it: Item, idx: nat)
    ensures var o := Displayed(it); var c := CardOf(it, idx);
            && (o.origin.None? && o.from.None? && o.segments.Some? && |o.segments.value| > 0 ==>
                  c.from == o.segments.value[0].origin)
            && (o.origin.None? && o.from.None? && (o.segments.None? || o.segments.value == []) ==> c.from == "HKG")
            && (o.destination.None? && o.to.None? && o.segments.Some? && |o.segments.value| > 0 ==>
                  c.to == o.segments.value[|o.segments.value| - 1].destination)
            && (o.destination.None? && o.to.None? && (o.segments.None? || o.segments.value == []) ==> c.to == "LON")
            && (o.carrier.None? && o.airline.None? && o.marketingCarrier.None? ==> c.carrier == "Airline")
            && (o.origin.Some? ==> c.from == o.origin.value)
            && (o.origin.None? && o.from.Some? ==> c.from == o.from.value)
            && (o.destination.Some? ==> c.to == o.destination.value)
            && (o.destination.None? && o.to.Some? ==> c.to == o.to.value)
            && (o.carrier.Some? ==> c.carrier == o.carrier.value)
            && (o.carrier.None? && o.airline.Some? ==> c.carrier == o.airline.value)
            && (o.carrier.None? && o.airline.None? && o.marketingCarrier.Some? ==> c.carrier == o.marketingCarrier.value)
  {
    var o := Displayed(it);
    FirstPresentOfThree(o.origin, o.from, FirstOrigin(o.segments));
    FirstPresentOfThree(o.destination, o.to, LastDestination(o.segments));
    FirstPresentOfThree(o.carrier, o.airline, o.marketingCarrier);
  }

  /** The duration shown is `totalDurationMin`, else `durationMin`, and nothing when both are absent. */
  lemma CardDuration(it: Item, idx: nat)
    ensures var o := Displayed(it); var c := CardOf(it, idx);
            && (c.duration == "" <==> o.totalDurationMin.None? && o.durationMin.None?)
            && (o.totalDurationMin.Some? ==> c.duration == MinutesToHhMm(o.totalDurationMin))
            && (o.totalDurationMin.None? && o.durationMin.Some? ==> c.duration == MinutesToHhMm(o.durationMin))
  {
  }
}
