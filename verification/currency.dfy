/** Currency conversion with a cache of one rate per pair of currencies. A
    cached rate from today is used as it is; an older one is refreshed from
    the rate service, and kept as a fallback when the service fails. The
    service is an oracle: what it answers is a parameter. */
module Currency {
  import opened Common

  /** An ISO 4217 code. */
  type CurrencyCode = string
  type RowId = nat
  /** Exchange rates are positive decimals. */
  type Rate = r: real | r > 0.0 witness 1.0

  /** A cached rate: one unit of `source` is worth `rate` units of `target`,
      as of the day the row was last saved. */
  datatype Conversion = Conversion(source: CurrencyCode, target: CurrencyCode, rate: Rate, day: Day)

  /** What the rate service answers for a pair: a rate, or a failure (an
      unsuccessful answer or a request error). */
  datatype Fetch = Fetched(rate: Rate) | Failed

  /** calculate_price: with the row's own direction the amount is multiplied
      by the rate, against it divided. */
  function CalculatePrice(c: Conversion, source: CurrencyCode, amount: real): (p: real)
    ensures c.source == source ==> p == amount * c.rate
    ensures c.source != source ==> p * c.rate == amount
  {
    if c.source == source then amount * c.rate else amount / c.rate
  }

  /** Whether a row converts between `a` and `b`, in either direction. */
  predicate Matches(c: Conversion, a: CurrencyCode, b: CurrencyCode) {
    (c.source == a && c.target == b) || (c.source == b && c.target == a)
  }

  /** A row converts in both directions: going from `a` to `b` and back gives
      the amount that went in. */
  lemma CalculatePriceRoundTrip(c: Conversion, a: CurrencyCode, b: CurrencyCode, amount: real)
    requires Matches(c, a, b) && a != b
    ensures CalculatePrice(c, b, CalculatePrice(c, a, amount)) == amount
  {
    if c.source == a {
      assert c.source != b;
      calc {
        CalculatePrice(c, b, amount * c.rate) * c.rate;
        amount * c.rate;
      }
    }
  }

  /** A row stored the other way round, with the inverse rate, gives the same
      price: the direction a pair happens to be cached in does not matter. */
  lemma CalculatePriceDirectionFree(a: CurrencyCode, b: CurrencyCode, r: Rate, d: Day, amount: real)
    requires a != b
    ensures CalculatePrice(Conversion(b, a, 1.0 / r, d), a, amount) == CalculatePrice(Conversion(a, b, r, d), a, amount)
  {
    var p := CalculatePrice(Conversion(b, a, 1.0 / r, d), a, amount);
    assert p * (1.0 / r) == amount;
    assert p == p * (1.0 / r) * r;
  }

  /** convert_price given the row the lookup found (if any), today's date and
      what the service would answer: the cached rate when it is from today,
      else a fresh rate, else the stale cached rate, else nothing. */
  function ConvertSpec(found: Option<Conversion>, from: CurrencyCode, to: CurrencyCode, amount: real, today: Day, fetch: Fetch): (r: Option<real>)
  {
    if found.Some? && found.value.day == today then Some(CalculatePrice(found.value, from, amount))
    else if fetch.Fetched? then Some(CalculatePrice(Conversion(from, to, fetch.rate, today), from, amount))
    else if found.Some? then Some(CalculatePrice(found.value, from, amount))
    else None
  }

  /** There is no price only when nothing is cached and the service failed. */
  lemma ConvertSpecNoneIff(found: Option<Conversion>, from: CurrencyCode, to: CurrencyCode, amount: real, today: Day, fetch: Fetch)
    ensures ConvertSpec(found, from, to, amount, today, fetch).None? <==> found.None? && fetch.Failed?
  {
  }

  /** A rate cached today is used whatever the service would say; otherwise
      a fresh rate wins over the stale one. */
  lemma {:induction false} ConvertSpecPrefersFresh(found: Option<Conversion>, from: CurrencyCode, to: CurrencyCode, amount: real, today: Day, fetch: Fetch)
    ensures found.Some? && found.value.day == today ==>
      ConvertSpec(found, from, to, amount, today, fetch) == ConvertSpec(found, from, to, amount, today, Failed)
    ensures !(found.Some? && found.value.day == today) && fetch.Fetched? ==>
      ConvertSpec(found, from, to, amount, today, fetch) == ConvertSpec(None, from, to, amount, today, fetch)
  {
  }

  /** Whatever source the price comes from, it converts `from` into `to`: a
      cached row matching the pair converts the price back into the amount. */
  lemma {:induction false} ConvertSpecDirection(found: Option<Conversion>, from: CurrencyCode, to: CurrencyCode, amount: real, today: Day, fetch: Fetch)
    requires found.Some? ==> Matches(found.value, from, to)
    requires from != to
    ensures var r := ConvertSpec(found, from, to, amount, today, fetch);
      r.Some? ==>
        var c := if (found.Some? && found.value.day == today) || fetch.Failed? then found.value
                 else Conversion(from, to, fetch.rate, today);
        CalculatePrice(c, to, r.value) == amount
  {
    var r := ConvertSpec(found, from, to, amount, today, fetch);
    if r.Some? {
      var c := if (found.Some? && found.value.day == today) || fetch.Failed? then found.value
               else Conversion(from, to, fetch.rate, today);
      CalculatePriceRoundTrip(c, from, to, amount);
    }
  }

  /** convert_price as written: the rate row has no `date` attribute, so
      reading `conversion.date` raises an AttributeError whenever the lookup
      finds a row; `None` stands for that failure. With no row found the
      code goes on to the service as intended. */
  function ConvertAsWritten(found: Option<Conversion>, from: CurrencyCode, to: CurrencyCode, amount: real, today: Day, fetch: Fetch): (r: Option<Option<real>>)
    ensures r.None? <==> found.Some?
    ensures found.None? ==> r == Some(ConvertSpec(found, from, to, amount, today, fetch))
  {
    if found.Some? then None
    else if fetch.Fetched? then Some(Some(CalculatePrice(Conversion(from, to, fetch.rate, today), from, amount)))
    else Some(None)
  }

  /** The discrepancy: a USD to EUR rate of 2 saved today converts 10 USD to
      20 EUR as intended, but the code as written raises before using it. */
  lemma ConvertAsWrittenRaisesOnCachedRow()
    ensures var found := Some(Conversion("USD", "EUR", 2.0, 5));
      && ConvertAsWritten(found, "USD", "EUR", 10.0, 5, Failed).None?
      && ConvertSpec(found, "USD", "EUR", 10.0, 5, Failed) == Some(20.0)
  {
  }

  class RateCache {
    /** CurrencyConversionRate rows by primary key. */
    var rows: map<RowId, Conversion>
    /** The key the next new row gets. */
    var nextRow: RowId

    constructor ()
      ensures rows == map[] && nextRow == 0
    {
      rows := map[];
      nextRow := 0;
    }

    /** At most one row per pair of currencies, in either direction, and
        every key is below the next one handed out. */
    ghost predicate Valid()
      reads this
    {
      && (forall k :: k in rows ==> k < nextRow)
      && OnePerPair(rows)
    }

    /** The keys of the rows converting between `a` and `b`. */
    ghost function MatchIds(a: CurrencyCode, b: CurrencyCode): (r: set<RowId>)
      reads this
      ensures forall k :: k in r <==> k in rows && Matches(rows[k], a, b)
    {
      set k | k in rows && Matches(rows[k], a, b)
    }

    /** The row the lookup finds for a pair, if any. */
    ghost function Cached(a: CurrencyCode, b: CurrencyCode): (r: Option<Conversion>)
      reads this
      ensures r.None? <==> MatchIds(a, b) == {}
      ensures r.Some? ==> exists k :: k in MatchIds(a, b) && rows[k] == r.value
    {
      if MatchIds(a, b) == {} then None
      else
        var k :| k in MatchIds(a, b);
        Some(rows[k])
    }

    /** The lookup in either direction; with one row per pair it finds that
        row. */
    method Find(a: CurrencyCode, b: CurrencyCode) returns (found: Option<RowId>)
      requires Valid()
      ensures found.None? <==> MatchIds(a, b) == {}
      ensures found.Some? ==> MatchIds(a, b) == {found.value}
    {
      if k :| k in rows && Matches(rows[k], a, b) {
        found := Some(k);
        forall k2 | k2 in MatchIds(a, b) ensures k2 == k {
          assert Matches(rows[k2], rows[k].source, rows[k].target);
        }
      } else {
        found := None;
      }
    }

    /** get_conversion: on a rate from the service, saves the row
        `source -> target` dated today, under `pk` when given and under a
        new key otherwise, and returns it; on a failure saves nothing. */
    method GetConversion(source: CurrencyCode, target: CurrencyCode, pk: Option<RowId>, today: Day, fetch: Fetch)
      returns (c: Option<Conversion>)
      modifies this
      ensures fetch.Failed? ==> c.None? && rows == old(rows) && nextRow == old(nextRow)
      ensures fetch.Fetched? ==> c == Some(Conversion(source, target, fetch.rate, today))
      ensures fetch.Fetched? && pk.Some? ==>
        rows == old(rows)[pk.value := c.value] && nextRow == old(nextRow)
      ensures fetch.Fetched? && pk.None? ==>
        rows == old(rows)[old(nextRow) := c.value] && nextRow == old(nextRow) + 1
    {
      if fetch.Failed? {
        return None;
      }
      var conversion := Conversion(source, target, fetch.rate, today);
      if pk.Some? {
        rows := rows[pk.value := conversion];
      } else {
        rows := rows[nextRow := conversion];
        nextRow := nextRow + 1;
      }
      c := Some(conversion);
    }

    /** convert_price: the price of `amount` of `from` in `to`, from the
        cache, a refresh or the stale cache; a refresh overwrites the pair's
        row (now stored `from -> to`) rather than adding another. */
    method ConvertPrice(from: CurrencyCode, to: CurrencyCode, amount: real, today: Day, fetch: Fetch)
      returns (price: Option<real>)
      requires Valid()
      modifies this
      ensures Valid()
      ensures price == ConvertSpec(old(Cached(from, to)), from, to, amount, today, fetch)
      ensures var saved := Conversion(from, to, if fetch.Fetched? then fetch.rate else 1.0, today);
        && ((old(Cached(from, to)).Some? && old(Cached(from, to)).value.day == today) || fetch.Failed? ==>
              rows == old(rows) && nextRow == old(nextRow))
        && (old(Cached(from, to)).Some? && old(Cached(from, to)).value.day != today && fetch.Fetched? ==>
              exists k :: k in old(MatchIds(from, to)) && rows == old(rows)[k := saved] && nextRow == old(nextRow))
        && (old(Cached(from, to)).None? && fetch.Fetched? ==>
              rows == old(rows)[old(nextRow) := saved] && nextRow == old(nextRow) + 1)
    {
      var found := Find(from, to);
      assert found.Some? ==> Cached(from, to) == Some(rows[found.value]);
      if found.Some? && rows[found.value].day == today {
        return Some(CalculatePrice(rows[found.value], from, amount));
      }
      var conversion := if found.Some? then Some(rows[found.value]) else None;
      var refreshed := GetConversion(from, to, found, today, fetch);
      if refreshed.Some? {
        if found.Some? {
          RefreshKeepsOnePerPair(old(rows), found.value, from, to, refreshed.value);
        } else {
          AddKeepsOnePerPair(old(rows), old(nextRow), from, to, refreshed.value);
        }
      }
      if refreshed.Some? {
        assert found.Some? ==> found.value in old(MatchIds(from, to)) && rows == old(rows)[found.value := refreshed.value];
        return Some(CalculatePrice(refreshed.value, from, amount));
      }
      if conversion.Some? {
        return Some(CalculatePrice(conversion.value, from, amount));
      }
      return None;
    }
  }

  /** The uniqueness part of the cache invariant, on values. */
  ghost predicate OnePerPair(rows: map<RowId, Conversion>) {
    forall k1, k2 :: k1 in rows && k2 in rows && Matches(rows[k1], rows[k2].source, rows[k2].target) ==> k1 == k2
  }

  /** Overwriting the one row of a pair with a row for the same pair keeps
      one row per pair. */
  lemma RefreshKeepsOnePerPair(rows: map<RowId, Conversion>, k: RowId, a: CurrencyCode, b: CurrencyCode, c: Conversion)
    requires OnePerPair(rows)
    requires k in rows && Matches(rows[k], a, b)
    requires c.source == a && c.target == b
    ensures OnePerPair(rows[k := c])
  {
  }

  /** Adding a row under a new key for a pair that has no row keeps one row
      per pair. */
  lemma AddKeepsOnePerPair(rows: map<RowId, Conversion>, n: RowId, a: CurrencyCode, b: CurrencyCode, c: Conversion)
    requires OnePerPair(rows)
    requires n !in rows
    requires forall k :: k in rows ==> !Matches(rows[k], a, b)
    requires c.source == a && c.target == b
    ensures OnePerPair(rows[n := c])
  {
  }
}
