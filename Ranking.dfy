/**
 * The ranking engine: every offer is enriched with its points and its
 * points-per-HKD ratio, then the fresh array of entries is sorted in place,
 * stably, under one of four modes. `StableSort` is the functional
 * specification of that sort; the lemmas show it is sorted, a permutation,
 * stable, and the only sequence with those three properties.
 */
module Ranking {
  import opened Wrappers
  import opened Schemas
  import opened Rewards

  datatype RankMode = Cheapest | Shortest | QpointsPerHkd | Weekend

  /** An offer paired with its computed metrics. */
  datatype Entry = Entry(offer: Offer, qpoints: int, qPerHKD: real)

  /** The enrichment of one offer; the ratio needs a non-zero price. */
  function Enrich(o: Offer): (e: Entry)
    requires o.price.amount != 0.0
    ensures e.offer == o && e.qpoints == Qpoints(o) && e.qPerHKD * o.price.amount == e.qpoints as real
  {
    Entry(o, Qpoints(o), QpointsPerHKD(o))
  }

  /**
   * What the model needs of the offers handed to the ranking: no price is
   * zero, so that every ratio is a finite number.
   */
  predicate Priced(offers: seq<Offer>) {
    forall i :: 0 <= i < |offers| ==> offers[i].price.amount != 0.0
  }

  function EnrichAll(offers: seq<Offer>): (r: seq<Entry>)
    requires Priced(offers)
    ensures |r| == |offers| && forall i :: 0 <= i < |offers| ==> r[i] == Enrich(offers[i])
  {
    seq(|offers|, i requires 0 <= i < |offers| => Enrich(offers[i]))
  }

  /**
   * The sort key: each comparator subtracts two numbers, so it orders the
   * entries ascending by this key. Descending modes negate their number.
   * The weekend key gives an absent flag the value of `false`; the
   * comparator as written does not (see `WeekendCompareAsWritten`).
   */
  function Key(e: Entry, mode: RankMode): real {
    match mode
    case Cheapest => e.offer.price.amount
    case Shortest => e.offer.totalDurationMin
    case QpointsPerHkd => -e.qPerHKD
    case Weekend => if e.offer.weekendFit == Some(true) then -1.0 else 0.0
  }

  predicate Sorted(s: seq<Entry>, mode: RankMode)
  {
    forall i, j :: 0 <= i < j < |s| ==> Key(s[i], mode) <= Key(s[j], mode)
  }

  /** Places `x` after every entry whose key is not greater than its own. */
  function Insert(s: seq<Entry>, x: Entry, mode: RankMode): seq<Entry>
    decreases |s|
  {
    if s == [] then [x]
    else
      var init, last := s[..|s| - 1], s[|s| - 1];
      if Key(last, mode) <= Key(x, mode) then s + [x]
      else Insert(init, x, mode) + [last]
  }

  /** Stable insertion sort: each entry, in input order, is inserted into the sorted prefix. */
  function StableSort(s: seq<Entry>, mode: RankMode): seq<Entry> {
    if s == [] then []
    else Insert(StableSort(s[..|s| - 1], mode), s[|s| - 1], mode)
  }

  /** The entries whose key is `k`, in order. */
  function SameKey(s: seq<Entry>, k: real, mode: RankMode): seq<Entry>
  {
    if s == [] then []
    else
      var last := s[|s| - 1];
      SameKey(s[..|s| - 1], k, mode) + (if Key(last, mode) == k then [last] else [])
  }

  lemma {:induction false} InsertPermutation(s: seq<Entry>, x: Entry, mode: RankMode)
    ensures multiset(Insert(s, x, mode)) == multiset(s) + multiset{x}
    decreases |s|
  {
    if s != [] {
      var init, last := s[..|s| - 1], s[|s| - 1];
      assert s == init + [last];
      if Key(last, mode) > Key(x, mode) {
        InsertPermutation(init, x, mode);
      }
    }
  }

  /** The sorted sequence holds exactly the input entries, as often as the input does. */
  lemma {:induction false} StableSortPermutation(s: seq<Entry>, mode: RankMode)
    ensures multiset(StableSort(s, mode)) == multiset(s)
  {
    if s != [] {
      var init := s[..|s| - 1];
      assert s == init + [s[|s| - 1]];
      StableSortPermutation(init, mode);
      InsertPermutation(StableSort(init, mode), s[|s| - 1], mode);
    }
  }

  lemma {:induction false} InsertSorted(s: seq<Entry>, x: Entry, mode: RankMode)
    requires Sorted(s, mode)
    ensures Sorted(Insert(s, x, mode), mode)
    decreases |s|
  {
    if s != [] {
      var init, last := s[..|s| - 1], s[|s| - 1];
      assert forall i :: 0 <= i < |init| ==> init[i] == s[i];
      if Key(last, mode) > Key(x, mode) {
        SortedPrefix(s, mode);
        InsertSorted(init, x, mode);
        InsertKeysAtMost(init, x, Key(last, mode), mode);
        AppendSorted(Insert(init, x, mode), last, mode);
      } else {
        AppendSorted(s, x, mode);
      }
    }
  }

  /** Inserting keeps every key at or below a bound that the input and `x` respect. */
  lemma InsertKeysAtMost(s: seq<Entry>, x: Entry, b: real, mode: RankMode)
    requires Key(x, mode) <= b && forall i :: 0 <= i < |s| ==> Key(s[i], mode) <= b
    ensures forall i :: 0 <= i < |Insert(s, x, mode)| ==> Key(Insert(s, x, mode)[i], mode) <= b
  {
    var r := Insert(s, x, mode);
    InsertPermutation(s, x, mode);
    forall i | 0 <= i < |r| ensures Key(r[i], mode) <= b {
      assert r[i] in multiset(r);
      if r[i] != x {
        assert r[i] in multiset(s);
        var k :| 0 <= k < |s| && s[k] == r[i];
      }
    }
  }

  /** Appending an entry whose key bounds all others keeps a sequence sorted. */
  lemma AppendSorted(r: seq<Entry>, y: Entry, mode: RankMode)
    requires Sorted(r, mode) && forall i :: 0 <= i < |r| ==> Key(r[i], mode) <= Key(y, mode)
    ensures Sorted(r + [y], mode)
  {
    var t := r + [y];
    forall i, j | 0 <= i < j < |t| ensures Key(t[i], mode) <= Key(t[j], mode) {
      assert t[i] == r[i];
      if j < |r| {
        assert t[j] == r[j];
      }
    }
  }


  lemma {:induction false} StableSortSorted(s: seq<Entry>, mode: RankMode)
    ensures Sorted(StableSort(s, mode), mode)
  {
    if s != [] {
      StableSortSorted(s[..|s| - 1], mode);
      InsertSorted(StableSort(s[..|s| - 1], mode), s[|s| - 1], mode);
    }
  }

  lemma {:induction false} InsertSameKey(s: seq<Entry>, x: Entry, k: real, mode: RankMode)
    ensures SameKey(Insert(s, x, mode), k, mode)
         == SameKey(s, k, mode) + (if Key(x, mode) == k then [x] else [])
    decreases |s|
  {
    var r := Insert(s, x, mode);
    if s == [] {
      assert r[..0] == [];
    } else {
      var init, last := s[..|s| - 1], s[|s| - 1];
      if Key(last, mode) <= Key(x, mode) {
        assert r[..|r| - 1] == s;
      } else {
        assert r[..|r| - 1] == Insert(init, x, mode);
        InsertSameKey(init, x, k, mode);
      }
    }
  }

  /** Stability: for every key, the entries with that key keep their input order. */
  lemma {:induction false} StableSortStable(s: seq<Entry>, k: real, mode: RankMode)
    ensures SameKey(StableSort(s, mode), k, mode) == SameKey(s, k, mode)
  {
    if s != [] {
      var init := s[..|s| - 1];
      StableSortStable(init, k, mode);
      InsertSameKey(StableSort(init, mode), s[|s| - 1], k, mode);
    }
  }

  lemma {:induction false} SameKeyMember(s: seq<Entry>, k: real, mode: RankMode, e: Entry)
    requires e in SameKey(s, k, mode)
    ensures e in s && Key(e, mode) == k
  {
    if s != [] {
      var init, last := s[..|s| - 1], s[|s| - 1];
      if e in SameKey(init, k, mode) {
        SameKeyMember(init, k, mode, e);
        assert s == init + [last];
      }
    }
  }

  /** Every entry with key `Key(e)` shows up in that key's subsequence. */
  lemma {:induction false} SameKeyNonEmpty(s: seq<Entry>, mode: RankMode, e: Entry)
    requires e in s
    ensures SameKey(s, Key(e, mode), mode) != []
  {
    var init, last := s[..|s| - 1], s[|s| - 1];
    if last != e {
      assert s == init + [last];
      SameKeyNonEmpty(init, mode, e);
    }
  }

  lemma SortedAtMostLast(s: seq<Entry>, mode: RankMode, e: Entry)
    requires Sorted(s, mode) && e in s
    ensures Key(e, mode) <= Key(s[|s| - 1], mode)
  {
    var i :| 0 <= i < |s| && s[i] == e;
    if i < |s| - 1 {
      assert Key(s[i], mode) <= Key(s[|s| - 1], mode);
    }
  }

  /** Sorted sequences that agree key by key end in entries with the same key. */
  lemma LastKeysAgree(t: seq<Entry>, u: seq<Entry>, mode: RankMode)
    requires Sorted(t, mode) && Sorted(u, mode)
    requires t != [] && u != []
    requires SameKey(t, Key(t[|t| - 1], mode), mode) == SameKey(u, Key(t[|t| - 1], mode), mode)
    requires SameKey(t, Key(u[|u| - 1], mode), mode) == SameKey(u, Key(u[|u| - 1], mode), mode)
    ensures Key(t[|t| - 1], mode) == Key(u[|u| - 1], mode)
  {
    var lt, lu := t[|t| - 1], u[|u| - 1];
    SameKeyNonEmpty(t, mode, lt);
    var et := SameKey(u, Key(lt, mode), mode)[0];
    SameKeyMember(u, Key(lt, mode), mode, et);
    SortedAtMostLast(u, mode, et);
    SameKeyNonEmpty(u, mode, lu);
    var eu := SameKey(t, Key(lu, mode), mode)[0];
    SameKeyMember(t, Key(lu, mode), mode, eu);
    SortedAtMostLast(t, mode, eu);
  }

  /** Dropping equal last entries keeps two sequences agreeing key by key. */
  lemma DropLastAgrees(t: seq<Entry>, u: seq<Entry>, mode: RankMode, k: real)
    requires t != [] && u != []
    requires t[|t| - 1] == u[|u| - 1]
    requires SameKey(t, k, mode) == SameKey(u, k, mode)
    ensures SameKey(t[..|t| - 1], k, mode) == SameKey(u[..|u| - 1], k, mode)
  {
    var last := t[|t| - 1];
    var tail := if Key(last, mode) == k then [last] else [];
    var c, d := SameKey(t[..|t| - 1], k, mode), SameKey(u[..|u| - 1], k, mode);
    assert c + tail == d + tail;
    assert c == (c + tail)[..|c|] == (d + tail)[..|d|] == d;
  }

  /** Two sorted sequences that agree key by key are equal. */
  lemma {:induction false} SortedUnique(t: seq<Entry>, u: seq<Entry>, mode: RankMode)
    requires Sorted(t, mode) && Sorted(u, mode)
    requires forall k :: SameKey(t, k, mode) == SameKey(u, k, mode)
    ensures t == u
    decreases |t| + |u|
  {
    if t == [] && u != [] {
      SameKeyNonEmpty(u, mode, u[|u| - 1]);
    } else if t != [] && u == [] {
      SameKeyNonEmpty(t, mode, t[|t| - 1]);
    } else if t != [] {
      var t', u' := t[..|t| - 1], u[..|u| - 1];
      LastsAgree(t, u, mode);
      forall k ensures SameKey(t', k, mode) == SameKey(u', k, mode) {
        DropLastAgrees(t, u, mode, k);
      }
      SortedPrefix(t, mode);
      SortedPrefix(u, mode);
      SortedUnique(t', u', mode);
      assert t == t' + [t[|t| - 1]] && u == u' + [u[|u| - 1]];
    }
  }

  /** Two sorted sequences with the same entries per key end in the same entry. */
  lemma LastsAgree(t: seq<Entry>, u: seq<Entry>, mode: RankMode)
    requires Sorted(t, mode) && Sorted(u, mode) && t != [] && u != []
    requires forall k :: SameKey(t, k, mode) == SameKey(u, k, mode)
    ensures t[|t| - 1] == u[|u| - 1]
  {
    var lt, lu := t[|t| - 1], u[|u| - 1];
    var m := Key(lt, mode);
    LastKeysAgree(t, u, mode);
    var a, b := SameKey(t[..|t| - 1], m, mode), SameKey(u[..|u| - 1], m, mode);
    assert a + [lt] == SameKey(t, m, mode) == SameKey(u, m, mode) == b + [lu];
    assert lt == (a + [lt])[|a|] == (b + [lu])[|b|] == lu;
  }

  lemma SortedPrefix(t: seq<Entry>, mode: RankMode)
    requires Sorted(t, mode) && t != []
    ensures Sorted(t[..|t| - 1], mode)
  {
  }


  /**
   * What a stable sort promises (sorted, each key's entries in input order)
   * determines the result: it is `StableSort`.
   */
  lemma StableSortCharacterized(s: seq<Entry>, t: seq<Entry>, mode: RankMode)
    requires Sorted(t, mode)
    requires forall k :: SameKey(t, k, mode) == SameKey(s, k, mode)
    ensures t == StableSort(s, mode)
  {
    StableSortSorted(s, mode);
    forall k ensures SameKey(t, k, mode) == SameKey(StableSort(s, mode), k, mode) {
      StableSortStable(s, k, mode);
    }
    SortedUnique(t, StableSort(s, mode), mode);
  }

  /** The ranking as a value: the stably sorted enrichment of the offers. */
  function Ranked(offers: seq<Offer>, mode: RankMode): (r: seq<Entry>)
    requires Priced(offers)
    ensures |r| == |offers|
  {
    StableSortPermutation(EnrichAll(offers), mode);
    assert |multiset(StableSort(EnrichAll(offers), mode))| == |multiset(EnrichAll(offers))|;
    StableSort(EnrichAll(offers), mode)
  }

  /** The offers of a sequence of entries, in order. */
  function OffersOf(es: seq<Entry>): (r: seq<Offer>)
    ensures |r| == |es| && forall i :: 0 <= i < |es| ==> r[i] == es[i].offer
  {
    seq(|es|, i requires 0 <= i < |es| => es[i].offer)
  }

  lemma {:induction false} InsertOffers(s: seq<Entry>, x: Entry, mode: RankMode)
    ensures multiset(OffersOf(Insert(s, x, mode))) == multiset(OffersOf(s)) + multiset{x.offer}
    decreases |s|
  {
    if s != [] {
      var init, last := s[..|s| - 1], s[|s| - 1];
      assert OffersOf(s) == OffersOf(init) + [last.offer];
      if Key(last, mode) <= Key(x, mode) {
        assert OffersOf(s + [x]) == OffersOf(s) + [x.offer];
      } else {
        InsertOffers(init, x, mode);
        assert OffersOf(Insert(init, x, mode) + [last]) == OffersOf(Insert(init, x, mode)) + [last.offer];
      }
    }
  }

  lemma {:induction false} StableSortOffers(s: seq<Entry>, mode: RankMode)
    ensures multiset(OffersOf(StableSort(s, mode))) == multiset(OffersOf(s))
  {
    if s != [] {
      var init := s[..|s| - 1];
      assert OffersOf(s) == OffersOf(init) + [s[|s| - 1].offer];
      StableSortOffers(init, mode);
      InsertOffers(StableSort(init, mode), s[|s| - 1], mode);
    }
  }

  /**
   * The ranking is a permutation of the offers, of the same length (empty
   * for no offers), and every entry carries its own offer's metrics.
   */
  lemma RankedIsEnrichedPermutation(offers: seq<Offer>, mode: RankMode)
    requires Priced(offers)
    ensures |Ranked(offers, mode)| == |offers|
    ensures multiset(OffersOf(Ranked(offers, mode))) == multiset(offers)
    ensures multiset(Ranked(offers, mode)) == multiset(EnrichAll(offers))
    ensures forall e :: e in Ranked(offers, mode) ==>
              e.offer in offers && e.qpoints == Qpoints(e.offer) && e.qPerHKD == QpointsPerHKD(e.offer)
  {
    var es := EnrichAll(offers);
    var r := Ranked(offers, mode);
    StableSortPermutation(es, mode);
    StableSortOffers(es, mode);
    assert OffersOf(es) == offers;
    assert |r| == |multiset(r)| == |multiset(es)| == |es|;
    forall e | e in r
      ensures e.offer in offers && e.qpoints == Qpoints(e.offer) && e.qPerHKD == QpointsPerHKD(e.offer)
    {
      assert e in multiset(es);
      var i :| 0 <= i < |es| && es[i] == e;
    }
  }

  /** `cheapest`: prices never decrease along the ranking. */
  lemma RankedCheapest(offers: seq<Offer>)
    requires Priced(offers)
    ensures forall i, j :: 0 <= i < j < |Ranked(offers, RankMode.Cheapest)| ==>
              Ranked(offers, RankMode.Cheapest)[i].offer.price.amount <= Ranked(offers, RankMode.Cheapest)[j].offer.price.amount
  {
    StableSortSorted(EnrichAll(offers), RankMode.Cheapest);
  }

  /** `shortest`: total durations never decrease along the ranking. */
  lemma RankedShortest(offers: seq<Offer>)
    requires Priced(offers)
    ensures forall i, j :: 0 <= i < j < |Ranked(offers, RankMode.Shortest)| ==>
              Ranked(offers, RankMode.Shortest)[i].offer.totalDurationMin <= Ranked(offers, RankMode.Shortest)[j].offer.totalDurationMin
  {
    StableSortSorted(EnrichAll(offers), RankMode.Shortest);
  }

  /** `qpoints_per_hkd`: the ratio never increases along the ranking. */
  lemma RankedByRatio(offers: seq<Offer>)
    requires Priced(offers)
    ensures forall i, j :: 0 <= i < j < |Ranked(offers, QpointsPerHkd)| ==>
              Ranked(offers, QpointsPerHkd)[i].qPerHKD >= Ranked(offers, QpointsPerHkd)[j].qPerHKD
  {
    StableSortSorted(EnrichAll(offers), QpointsPerHkd);
  }

  /**
   * `weekend`: no weekend-fit offer comes after one that is not; an absent
   * flag ranks with `false`.
   */
  lemma RankedWeekend(offers: seq<Offer>)
    requires Priced(offers)
    ensures forall i, j :: 0 <= i < j < |Ranked(offers, Weekend)| && Ranked(offers, Weekend)[j].offer.weekendFit == Some(true) ==>
              Ranked(offers, Weekend)[i].offer.weekendFit == Some(true)
  {
    var r := Ranked(offers, Weekend);
    StableSortSorted(EnrichAll(offers), Weekend);
    forall i, j | 0 <= i < j < |r| && r[j].offer.weekendFit == Some(true)
      ensures r[i].offer.weekendFit == Some(true)
    {
      assert Key(r[i], Weekend) <= Key(r[j], Weekend);
    }
  }

  /** `Number(flag)`: 1 or 0 for a present flag, NaN (here `None`) for an absent one. */
  function FlagNumber(f: Option<bool>): Option<real> {
    match f
    case None => None
    case Some(b) => Some(if b then 1.0 else 0.0)
  }

  /**
   * The weekend comparator as written, `Number(b.weekendFit) -
   * Number(a.weekendFit)`, with the sort's reading of a NaN result as 0.
   */
  function WeekendCompareAsWritten(a: Option<bool>, b: Option<bool>): real {
    if FlagNumber(a).None? || FlagNumber(b).None? then 0.0 else FlagNumber(b).value - FlagNumber(a).value
  }

  /** On present flags the comparator as written is exactly the difference of the weekend keys. */
  lemma WeekendCompareIsKeyDifference(a: Entry, b: Entry)
    requires a.offer.weekendFit.Some? && b.offer.weekendFit.Some?
    ensures WeekendCompareAsWritten(a.offer.weekendFit, b.offer.weekendFit) == Key(a, Weekend) - Key(b, Weekend)
  {
  }

  /**
   * With absent flags the comparator as written orders like no key at all:
   * an absent flag ties with both `true` and `false`, which do not tie.
   */
  lemma WeekendComparatorInconsistent(key: Option<bool> -> real)
    ensures !forall a, b ::
              && (WeekendCompareAsWritten(a, b) == 0.0 <==> key(a) == key(b))
              && (WeekendCompareAsWritten(a, b) < 0.0 <==> key(a) < key(b))
  {
    assert WeekendCompareAsWritten(Some(true), None) == 0.0;
    assert WeekendCompareAsWritten(None, Some(false)) == 0.0;
    assert WeekendCompareAsWritten(Some(true), Some(false)) == -1.0;
  }

  /** Ties keep their input order: for every key value, its entries appear as in the input. */
  lemma RankedStable(offers: seq<Offer>, mode: RankMode, k: real)
    requires Priced(offers)
    ensures SameKey(Ranked(offers, mode), k, mode) == SameKey(EnrichAll(offers), k, mode)
  {
    StableSortStable(EnrichAll(offers), k, mode);
  }

  /**
   * Where `x` lands: after `sorted[..j]` when every entry from `j` on has a
   * greater key and the one before `j`, if any, does not.
   */
  lemma {:induction false} InsertAt(sorted: seq<Entry>, x: Entry, j: nat, mode: RankMode)
    requires j <= |sorted|
    requires j == 0 || Key(sorted[j - 1], mode) <= Key(x, mode)
    requires forall k :: j <= k < |sorted| ==> Key(sorted[k], mode) > Key(x, mode)
    ensures Insert(sorted, x, mode) == sorted[..j] + [x] + sorted[j..]
    decreases |sorted|
  {
    if j == |sorted| {
      assert sorted[..j] == sorted && sorted[j..] == [];
    } else {
      var init, last := sorted[..|sorted| - 1], sorted[|sorted| - 1];
      InsertAt(init, x, j, mode);
      assert init[..j] == sorted[..j];
      assert sorted[j..] == init[j..] + [last];
    }
  }

  /** Two offers are ranked in input order when the first key is not greater, and swapped otherwise. */
  lemma RankTwo(a: Offer, b: Offer, mode: RankMode)
    requires a.price.amount != 0.0 && b.price.amount != 0.0
    ensures OffersOf(Ranked([a, b], mode)) == if Key(Enrich(a), mode) <= Key(Enrich(b), mode) then [a, b] else [b, a]
  {
    var s := EnrichAll([a, b]);
    assert s == [Enrich(a), Enrich(b)];
    assert s[..1] == [Enrich(a)] && s[..1][..0] == [];
    assert [Enrich(a)][..0] == [];
    assert StableSort([Enrich(a)], mode) == [Enrich(a)];
    var r := Insert([Enrich(a)], Enrich(b), mode);
    assert StableSort(s, mode) == r;
    if Key(Enrich(a), mode) > Key(Enrich(b), mode) {
      assert r == Insert([], Enrich(b), mode) + [Enrich(a)];
    }
    assert r == if Key(Enrich(a), mode) <= Key(Enrich(b), mode) then [Enrich(a), Enrich(b)] else [Enrich(b), Enrich(a)];
  }

  /**
   * The inner loop of the insertion sort: shifts the sorted prefix `a[..i]`
   * right past every entry whose key is greater than that of `a[i]`, then
   * drops `a[i]` into the gap.
   */
  method InsertInPlace(a: array<Entry>, i: nat, mode: RankMode)
    requires i < a.Length
    modifies a
    ensures a[..i + 1] == Insert(old(a[..i]), old(a[i]), mode)
    ensures a[i + 1..] == old(a[i + 1..])
  {
    var x := a[i];
    ghost var sorted := a[..i];
    var j := i;
    while j > 0 && Key(a[j - 1], mode) > Key(x, mode)
      invariant 0 <= j <= i
      invariant forall k :: 0 <= k < j ==> a[k] == sorted[k]
      invariant forall k :: j < k <= i ==> a[k] == sorted[k - 1]
      invariant forall k :: i < k < a.Length ==> a[k] == old(a[k])
      invariant forall k :: j <= k < i ==> Key(sorted[k], mode) > Key(x, mode)
    {
      a[j] := a[j - 1];
      j := j - 1;
    }
    a[j] := x;
    InsertAt(sorted, x, j, mode);
    Shifted(a[..i + 1], sorted, x, j);
  }

  /** The array after the shift, read as a sequence: `x` dropped into `sorted` at `j`. */
  lemma Shifted(r: seq<Entry>, sorted: seq<Entry>, x: Entry, j: nat)
    requires |r| == |sorted| + 1 && j <= |sorted| && r[j] == x
    requires forall k :: 0 <= k < j ==> r[k] == sorted[k]
    requires forall k :: j < k < |r| ==> r[k] == sorted[k - 1]
    ensures r == sorted[..j] + [x] + sorted[j..]
  {
    var t := sorted[..j] + [x] + sorted[j..];
    forall k | 0 <= k < |r| ensures r[k] == t[k] {
      if k > j {
        assert t[k] == sorted[k - 1];
      }
    }
  }


  /** Sorting one more entry of the input inserts it into the sorted prefix. */
  lemma StableSortSnoc(s: seq<Entry>, i: nat, mode: RankMode)
    requires i < |s|
    ensures StableSort(s[..i + 1], mode) == Insert(StableSort(s[..i], mode), s[i], mode)
  {
    assert s[..i + 1][..i] == s[..i];
  }

  /** Sorts the array in place, stably, by the mode's key (insertion sort). */
  method SortInPlace(a: array<Entry>, mode: RankMode)
    modifies a
    ensures a[..] == StableSort(old(a[..]), mode)
  {
    ghost var input := a[..];
    var i := 0;
    while i < a.Length
      invariant 0 <= i <= a.Length
      invariant a[..i] == StableSort(input[..i], mode)
      invariant a[i..] == input[i..]
    {
      ghost var prefix := a[..i];
      assert a[i] == input[i];
      InsertInPlace(a, i, mode);
      assert a[..i + 1] == Insert(prefix, input[i], mode);
      StableSortSnoc(input, i, mode);
      assert a[i + 1..] == input[i + 1..];
      i := i + 1;
    }
    assert input[..a.Length] == input;
  }

  /** Enriches every offer into a fresh array, then sorts that array by the mode. */
  method RankOffers(offers: seq<Offer>, mode: RankMode) returns (ranked: seq<Entry>)
    requires Priced(offers)
    ensures ranked == Ranked(offers, mode)
  {
    var enriched := new Entry[|offers|];
    for i := 0 to |offers|
      invariant enriched[..i] == EnrichAll(offers)[..i]
    {
      var q := EstimateQpoints(offers[i]);
      enriched[i] := Entry(offers[i], q, QpointsPerHKD(offers[i]));
    }
    assert enriched[..] == EnrichAll(offers);
    SortInPlace(enriched, mode);
    ranked := enriched[..];
  }
}
