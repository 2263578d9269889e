/**
  `calculate_avg_price_by_neighbourhood_group_and_room`: one pass over the
  listings that keeps a running price total and a running count per
  (neighbourhood group, room type) key in two dictionaries, then a pass over
  the keys that divides one by the other.
 */
module Aggregator {
  import opened Wrappers
  import opened Dicts
  import opened Listings

  /**
    `d` is the average-price table of the entries `es`: its keys are those of
    the entries, in order of first occurrence, and each key maps to the total
    of its prices divided by their number, which is at least one.
   */
  ghost predicate AveragesOf(d: OrderedDict<Key, real>, es: seq<Entry>) {
    && d.order == FirstSeen(es)
    && (forall k :: k in d.values <==> k in KeySet(es))
    && forall k :: k in d.values ==>
         CountOf(k, es) >= 1 && d.values[k] == SumOf(k, es) / (CountOf(k, es) as real)
  }

  /**
    `calculate_avg_price_by_neighbourhood_group_and_room`: the averages of
    the listings' prices per (neighbourhood group, room type), or the error of
    the first listing that cannot be read, in which case no table is made.
   */
  method AveragePriceByGroupAndRoom(listings: seq<Record>, toFloat: string -> Option<real>)
    returns (r: Result<OrderedDict<Key, real>, Error>)
    ensures r.Failure? <==> DecodeAll(listings, toFloat).Failure?
    ensures r.Failure? ==> r.error == DecodeAll(listings, toFloat).error
    ensures r.Success? ==> r.value.Valid() && AveragesOf(r.value, DecodeAll(listings, toFloat).value)
  {
    var tallied := TallyListings(listings, toFloat);
    if tallied.Failure? {
      return Failure(tallied.error);
    }
    var t := tallied.value;
    var averages := DivideTotals(t.keys, t.sums, t.counts);
    r := Success(OrderedDict(t.keys, averages));
  }

  /**
    The three tables the first loop builds: `price_sums`, `counts`, and the
    insertion order `keys` that both dictionaries remember (they always gain
    a key together).
   */
  datatype Tables = Tables(keys: seq<Key>, sums: map<Key, real>, counts: map<Key, nat>)

  /**
    `t` holds, for the entries `es`, every key once in order of first
    occurrence, and for each key the total and the number of its prices.
   */
  ghost predicate Tallies(t: Tables, es: seq<Entry>) {
    && t.keys == FirstSeen(es)
    && (forall k :: k in t.sums <==> k in KeySet(es))
    && (forall k :: k in t.counts <==> k in KeySet(es))
    && (forall k :: k in t.sums ==> t.sums[k] == SumOf(k, es))
    && (forall k :: k in t.counts ==> t.counts[k] == CountOf(k, es) && t.counts[k] >= 1)
  }

  /**
    discussion7.py:57-69: walk the listings, reading each one's key and
    price, creating its key at zero on first sight and then adding the price
    to its total and one to its count. The first listing that cannot be read
    stops the walk with its error.
   */
  method TallyListings(listings: seq<Record>, toFloat: string -> Option<real>)
    returns (r: Result<Tables, Error>)
    ensures r.Failure? <==> DecodeAll(listings, toFloat).Failure?
    ensures r.Failure? ==> r.error == DecodeAll(listings, toFloat).error
    ensures r.Success? ==> Tallies(r.value, DecodeAll(listings, toFloat).value)
  {
    var tables := Tables([], map[], map[]);
    ghost var es: seq<Entry> := [];
    var i := 0;
    while i < |listings|
      invariant 0 <= i <= |listings|
      invariant DecodeAll(listings[..i], toFloat) == Success(es)
      invariant Tallies(tables, es)
    {
      // discussion7.py:61-64: look the three columns up and convert the
      // price; the first lookup or conversion that fails ends the call.
      var read := Decode(listings[i], toFloat);
      if read.Failure? {
        r := Failure(read.error);
        StepFails(listings, i, toFloat, es);
        return;
      }
      tables := AddListing(tables, read.value.key, read.value.price, es);
      StepSucceeds(listings, i, toFloat, es);
      es := es + [read.value];
      i := i + 1;
    }
    assert listings[..i] == listings;
    r := Success(tables);
  }

  /**
    discussion7.py:65-69 for one listing: a key seen for the first time is
    created at zero in both dictionaries (and so takes the next place in
    their order); then its total grows by the price and its count by one.
    The tables then describe the entries read so far plus this one.
   */
  method AddListing(t: Tables, key: Key, price: real, ghost es: seq<Entry>) returns (t': Tables)
    requires Tallies(t, es)
    ensures Tallies(t', es + [Entry(key, price)])
  {
    var keys, sums, counts := t.keys, t.sums, t.counts;
    if key !in sums {
      NoneOfKey(key, es);
      sums := sums[key := 0.0];
      counts := counts[key := 0];
      keys := keys + [key];
    }
    sums := sums[key := sums[key] + price];
    counts := counts[key := counts[key] + 1];
    t' := Tables(keys, sums, counts);

    ghost var e := Entry(key, price);
    AppendKeys(es, e);
    forall k | k in sums ensures sums[k] == SumOf(k, es + [e]) {
      AppendTotals(es, e, k);
    }
    forall k | k in counts ensures counts[k] == CountOf(k, es + [e]) && counts[k] >= 1 {
      AppendTotals(es, e, k);
    }
  }

  /**
    discussion7.py:70-71: for each key of `price_sums`, in its insertion order, store
    the total divided by the count, which is never zero.
   */
  method DivideTotals(keys: seq<Key>, sums: map<Key, real>, counts: map<Key, nat>)
    returns (averages: map<Key, real>)
    requires forall k :: k in keys ==> k in sums && k in counts && counts[k] >= 1
    ensures forall k :: k in averages <==> k in keys
    ensures forall k :: k in averages ==> averages[k] == sums[k] / (counts[k] as real)
  {
    averages := map[];
    var j := 0;
    while j < |keys|
      invariant 0 <= j <= |keys|
      invariant forall k :: k in averages <==> k in keys[..j]
      invariant forall k :: k in averages ==> averages[k] == sums[k] / (counts[k] as real)
    {
      var key := keys[j];
      averages := averages[key := sums[key] / (counts[key] as real)];
      assert keys[..j + 1] == keys[..j] + [key];
      j := j + 1;
    }
    assert keys[..j] == keys;
  }

  /** The listing after a readable prefix fails: so does the whole sequence, with its error. */
  lemma StepFails(ls: seq<Record>, i: nat, toFloat: string -> Option<real>, es: seq<Entry>)
    requires i < |ls|
    requires DecodeAll(ls[..i], toFloat) == Success(es)
    requires Decode(ls[i], toFloat).Failure?
    ensures DecodeAll(ls, toFloat) == Failure(Decode(ls[i], toFloat).error)
  {
    PrefixFails(ls, i, toFloat, es);
    FailureStops(ls, i + 1, toFloat);
  }

  /** The listing after a readable prefix fails: so does the prefix that ends with it. */
  lemma PrefixFails(ls: seq<Record>, i: nat, toFloat: string -> Option<real>, es: seq<Entry>)
    requires i < |ls|
    requires DecodeAll(ls[..i], toFloat) == Success(es)
    requires Decode(ls[i], toFloat).Failure?
    ensures DecodeAll(ls[..i + 1], toFloat) == Failure(Decode(ls[i], toFloat).error)
  {
    var p := ls[..i + 1];
    assert p[..|p| - 1] == ls[..i];
    assert p[|p| - 1] == ls[i];
  }

  /** The listing after a readable prefix is readable: the prefix grows by its entry. */
  lemma StepSucceeds(ls: seq<Record>, i: nat, toFloat: string -> Option<real>, es: seq<Entry>)
    requires i < |ls|
    requires DecodeAll(ls[..i], toFloat) == Success(es)
    requires Decode(ls[i], toFloat).Success?
    ensures DecodeAll(ls[..i + 1], toFloat) == Success(es + [Decode(ls[i], toFloat).value])
  {
    var p := ls[..i + 1];
    assert p[..|p| - 1] == ls[..i];
    assert p[|p| - 1] == ls[i];
  }

  /** Once a prefix of the listings fails, the whole sequence fails the same way. */
  lemma {:induction false} FailureStops(ls: seq<Record>, n: nat, toFloat: string -> Option<real>)
    requires n <= |ls|
    requires DecodeAll(ls[..n], toFloat).Failure?
    ensures DecodeAll(ls, toFloat) == DecodeAll(ls[..n], toFloat)
  {
    if n < |ls| {
      var init := ls[..|ls| - 1];
      assert init[..n] == ls[..n];
      FailureStops(init, n, toFloat);
    } else {
      assert ls[..n] == ls;
    }
  }
}
