/** CurrencyService: exchange rates with a per-day cache and two HTTP sources.
    Each HTTP fetch is an input: `Network` holds what the primary and the
    fallback endpoint answer, or None where the request fails (a timeout, a
    non-2xx status or an exception). The cache holds one row per (from, to,
    date): the rate as the `decimal:6` cast reads it back, and the day the row
    was last saved. `fetches` counts the endpoint requests a call makes. */
module Currency {
  import opened Base
  import opened Calendar

  /** A decoded response body: base code -> quote code -> rate. */
  type Response = map<string, map<string, real>>

  datatype Network = Network(primary: Option<Response>, fallback: Option<Response>)

  datatype CacheRow = CacheRow(rate: real, updatedOn: Date)

  type Cache = map<(string, string, Date), CacheRow>

  datatype Outcome = Outcome(rate: Option<real>, cache: Cache, fetches: nat)

  /** fetchRate's extraction: the quote for `to` under base `from`; a response
      without it is a failure. */
  function Extract(response: Response, from: string, to: string): (r: Option<real>)
    ensures r.Some? <==> from in response && to in response[from]
    ensures r.Some? ==> r.value == response[from][to]
  {
    if from in response && to in response[from] then Some(response[from][to]) else None
  }

  /** fetchRate: the primary endpoint, the fallback only when the primary
      request fails, then the extraction. Returns the rate and the number of
      requests made. */
  function FetchRate(from: string, to: string, net: Network): (r: (Option<real>, nat))
    ensures r.1 == (if net.primary.Some? then 1 else 2)
    ensures net.primary.Some? ==> r.0 == Extract(net.primary.value, from, to)
    ensures net.primary.None? ==> r.0 == (if net.fallback.Some? then Extract(net.fallback.value, from, to) else None)
  {
    match net.primary
    case Some(response) => (Extract(response, from, to), 1)
    case None =>
      match net.fallback
      case Some(response) => (Extract(response, from, to), 2)
      case None => (None, 2)
  }

  /** The `decimal:6` cast: a non-negative rate rounded half up to six decimals. */
  function Round6(x: real): (r: real)
    ensures x - 0.0000005 < r <= x + 0.0000005
    ensures (r * 1000000.0).Floor as real == r * 1000000.0
  {
    ((x * 1000000.0 + 0.5).Floor as real) / 1000000.0
  }

  /** A rate already rounded to six decimals is read back unchanged. */
  lemma Round6Idempotent(x: real)
    ensures Round6(Round6(x)) == Round6(x)
  {
    var n := (x * 1000000.0 + 0.5).Floor;
    assert Round6(x) * 1000000.0 == n as real;
    assert (n as real + 0.5).Floor == n;
  }

  /** The rounding is visible: a fetched 1.23456789 is read back as 1.234568. */
  lemma Round6Example()
    ensures Round6(1.23456789) == 1.234568
  {
    assert (1.23456789 * 1000000.0 + 0.5).Floor == 1234568;
  }

  /** The cache row getRate looks up, if any. */
  function Key(from: string, to: string, date: Option<Date>, today: Date): (string, string, Date) {
    (Lower(from), Lower(to), date.GetOr(today))
  }

  /** A cached row written today. */
  predicate FreshHit(cache: Cache, key: (string, string, Date), today: Date) {
    key in cache && cache[key].updatedOn == today
  }

  /** updateOrCreate(key, ['rate' => rate]): a new row is stamped today; an
      existing row is saved, and so stamped today, only when the rounded rate
      differs from the one it holds, because an unchanged decimal is not dirty. */
  function Upsert(cache: Cache, key: (string, string, Date), rate: real, today: Date): (r: Cache)
    ensures key in r && r[key].rate == Round6(rate)
    ensures r[key].updatedOn == (if key in cache && cache[key].rate == Round6(rate) then cache[key].updatedOn else today)
    ensures forall k :: k in cache && k != key ==> k in r && r[k] == cache[k]
    ensures r.Keys == cache.Keys + {key}
  {
    if key in cache && cache[key].rate == Round6(rate) then cache
    else cache[key := CacheRow(Round6(rate), today)]
  }

  /** getRate(from, to, date). A fetched rate is returned as fetched; the cache
      keeps it rounded, and a hit returns the rounded value. */
  function GetRate(cache: Cache, from: string, to: string, date: Option<Date>, today: Date, net: Network): (r: Outcome)
    ensures r.fetches <= 2
    ensures r.cache.Keys == cache.Keys + (if r.cache == cache then {} else {Key(from, to, date, today)})
  {
    var f := Lower(from);
    var t := Lower(to);
    if f == t then Outcome(Some(1.0), cache, 0)
    else
      var key := (f, t, date.GetOr(today));
      if FreshHit(cache, key, today) then Outcome(Some(cache[key].rate), cache, 0)
      else
        var fetched := FetchRate(f, t, net);
        match fetched.0
        case None => Outcome(if key in cache then Some(cache[key].rate) else None, cache, fetched.1)
        case Some(rate) => Outcome(Some(rate), Upsert(cache, key, rate, today), fetched.1)
  }

  /** Equal codes, compared without case, give 1.0 with no lookup and no request. */
  lemma GetRateSameCurrency(cache: Cache, from: string, to: string, date: Option<Date>, today: Date, net: Network)
    requires Lower(from) == Lower(to)
    ensures GetRate(cache, from, to, date, today, net) == Outcome(Some(1.0), cache, 0)
  {
  }

  /** A request is made exactly when the codes differ and no row for the key
      was written today; the fallback is asked exactly when, in addition, the
      primary request fails. */
  lemma GetRateFetchesOnlyOnMiss(cache: Cache, from: string, to: string, date: Option<Date>, today: Date, net: Network)
    ensures var r := GetRate(cache, from, to, date, today, net);
      var miss := Lower(from) != Lower(to) && !FreshHit(cache, Key(from, to, date, today), today);
      && (r.fetches > 0 <==> miss)
      && (r.fetches == 2 <==> miss && net.primary.None?)
      && (!miss ==> r.cache == cache)
  {
  }

  /** A fresh cached row is returned as is. */
  lemma GetRateFreshHit(cache: Cache, from: string, to: string, date: Option<Date>, today: Date, net: Network)
    requires Lower(from) != Lower(to)
    requires FreshHit(cache, Key(from, to, date, today), today)
    ensures GetRate(cache, from, to, date, today, net).rate == Some(cache[Key(from, to, date, today)].rate)
  {
  }

  /** When the fetch fails (both requests fail, or the answer lacks the quote)
      the cache is untouched and the stale row's rate, if any, is returned. */
  lemma GetRateStaleFallback(cache: Cache, from: string, to: string, date: Option<Date>, today: Date, net: Network)
    requires Lower(from) != Lower(to)
    requires !FreshHit(cache, Key(from, to, date, today), today)
    requires FetchRate(Lower(from), Lower(to), net).0.None?
    ensures var r := GetRate(cache, from, to, date, today, net);
      var key := Key(from, to, date, today);
      && r.cache == cache
      && r.rate == (if key in cache then Some(cache[key].rate) else None)
  {
  }

  /** A quote missing from a successful primary response is a failure even if
      the fallback endpoint would have had it: the fallback is not asked. */
  lemma MissingQuoteSkipsFallback(cache: Cache, from: string, to: string, date: Option<Date>, today: Date, net: Network)
    requires Lower(from) != Lower(to)
    requires !FreshHit(cache, Key(from, to, date, today), today)
    requires net.primary.Some? && Extract(net.primary.value, Lower(from), Lower(to)).None?
    ensures var r := GetRate(cache, from, to, date, today, net);
      var key := Key(from, to, date, today);
      && r.fetches == 1
      && r.cache == cache
      && r.rate == (if key in cache then Some(cache[key].rate) else None)
  {
  }

  /** A fetched rate is returned unrounded and upserted into the key's row
      rounded to six decimals. The row is stamped today unless it already held
      that rounded rate, in which case it keeps its old stamp; every other row
      is kept. */
  lemma GetRateUpserts(cache: Cache, from: string, to: string, date: Option<Date>, today: Date, net: Network)
    requires Lower(from) != Lower(to)
    requires !FreshHit(cache, Key(from, to, date, today), today)
    requires FetchRate(Lower(from), Lower(to), net).0.Some?
    ensures var r := GetRate(cache, from, to, date, today, net);
      var key := Key(from, to, date, today);
      var fetched := FetchRate(Lower(from), Lower(to), net).0.value;
      && r.rate == Some(fetched)
      && key in r.cache && r.cache[key].rate == Round6(fetched)
      && (key in cache && cache[key].rate == Round6(fetched) ==> r.cache[key] == cache[key] && !FreshHit(r.cache, key, today))
      && (!(key in cache && cache[key].rate == Round6(fetched)) ==> r.cache[key].updatedOn == today)
      && (forall k :: k in cache && k != key ==> k in r.cache && r.cache[k] == cache[k])
  {
  }

  /** A second call on the same day for the same key. It is answered without a
      request, whatever the network does then, when the first call needed no
      request or its fetch saved a changed rate; it then answers the first
      call's rate, rounded to six decimals if that was fetched. When the first
      call fell back to a stale row, or fetched a rate that rounds to the
      stale row's own, the row's stamp is not renewed and the second call asks
      the network again. */
  lemma SecondCallHitsCache(cache: Cache, from: string, to: string, date: Option<Date>, today: Date, net: Network, net': Network)
    requires GetRate(cache, from, to, date, today, net).rate.Some?
    ensures var first := GetRate(cache, from, to, date, today, net);
      var second := GetRate(first.cache, from, to, date, today, net');
      var key := Key(from, to, date, today);
      var fetched := FetchRate(Lower(from), Lower(to), net).0;
      var answered := Lower(from) == Lower(to) || FreshHit(cache, key, today);
      var saved := !answered && fetched.Some? && !(key in cache && cache[key].rate == Round6(fetched.value));
      && (second.fetches == 0 <==> answered || saved)
      && (answered ==> second.rate == first.rate && second.cache == first.cache)
      && (saved ==> second.rate == Some(Round6(first.rate.value)) && second.cache == first.cache)
  {
  }

  lemma LowerOfUpper(s: string)
    ensures Lower(Upper(s)) == Lower(s)
  {
    var a := Lower(Upper(s));
    var b := Lower(s);
    forall i | 0 <= i < |s|
      ensures a[i] == b[i]
    {
      var c := s[i];
      assert Upper(s)[i] == ToUpperChar(c);
      if IsLowerAscii(c) {
        assert ToLowerChar(ToUpperChar(c)) as int == c as int;
      }
    }
  }

  /** Currency codes are compared without case: upper-casing them changes nothing. */
  lemma GetRateIgnoresCase(cache: Cache, from: string, to: string, date: Option<Date>, today: Date, net: Network)
    ensures GetRate(cache, Upper(from), Upper(to), date, today, net) == GetRate(cache, from, to, date, today, net)
  {
    LowerOfUpper(from);
    LowerOfUpper(to);
  }

  /** convert(amount, from, to, date): amount x rate, or None without a rate. */
  function Convert(cache: Cache, amount: real, from: string, to: string, date: Option<Date>, today: Date, net: Network): (r: (Option<real>, Cache))
    ensures r.1 == GetRate(cache, from, to, date, today, net).cache
    ensures r.0.None? <==> GetRate(cache, from, to, date, today, net).rate.None?
    ensures r.0.Some? ==> r.0.value == amount * GetRate(cache, from, to, date, today, net).rate.value
  {
    var o := GetRate(cache, from, to, date, today, net);
    match o.rate
    case None => (None, o.cache)
    case Some(rate) => (Some(amount * rate), o.cache)
  }
}
