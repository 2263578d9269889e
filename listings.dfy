/**
  The listing records the aggregator of discussion7.py consumes, how one
  record yields its category key and price, and closed-form definitions of
  what the aggregator computes per key: which keys occur, in which order they
  first occur, how many listings each has and what their prices add up to.
 */
module Listings {
  import opened Wrappers
  import opened Dicts

  /** One row of the listings file: column name to raw text. */
  type Record = map<string, string>

  /** The category key: (neighbourhood group, room type). */
  type Key = (string, string)

  /** A listing once its key has been read and its price converted. */
  datatype Entry = Entry(key: Key, price: real)

  /** What the aggregator raises: a missing column, or a price text `float` rejects. */
  datatype Error = KeyError(column: string) | ValueError(text: string)

  const GroupColumn := "neighbourhood_group"
  const RoomColumn := "room_type"
  const PriceColumn := "price"

  /**
    One iteration's reading of a listing: look up the group, then the room
    type, then the price, and convert the price with `toFloat` (Python's
    `float`, whose parsing is a parameter of the model).
   */
  function Decode(r: Record, toFloat: string -> Option<real>): (d: Result<Entry, Error>)
    ensures d.Success? <==>
      GroupColumn in r && RoomColumn in r && PriceColumn in r && toFloat(r[PriceColumn]).Some?
    ensures d.Success? ==>
      d.value == Entry((r[GroupColumn], r[RoomColumn]), toFloat(r[PriceColumn]).value)
  {
    if GroupColumn !in r then Failure(KeyError(GroupColumn))
    else if RoomColumn !in r then Failure(KeyError(RoomColumn))
    else if PriceColumn !in r then Failure(KeyError(PriceColumn))
    else match toFloat(r[PriceColumn])
      case None => Failure(ValueError(r[PriceColumn]))
      case Some(p) => Success(Entry((r[GroupColumn], r[RoomColumn]), p))
  }

  /**
    A listing that cannot be read reports a missing column exactly when one
    of the three is missing, and then the first missing one in lookup order;
    otherwise it reports the price text that did not convert.
   */
  lemma DecodeError(r: Record, toFloat: string -> Option<real>)
    requires Decode(r, toFloat).Failure?
    ensures var e := Decode(r, toFloat).error;
      && (e.KeyError? <==> !(GroupColumn in r && RoomColumn in r && PriceColumn in r))
      && (e.KeyError? ==>
            && e.column in [GroupColumn, RoomColumn, PriceColumn]
            && e.column !in r
            && (e.column != GroupColumn ==> GroupColumn in r)
            && (e.column == PriceColumn ==> RoomColumn in r))
      && (e.ValueError? ==>
            PriceColumn in r && e.text == r[PriceColumn] && toFloat(e.text).None?)
  {
  }

  /**
    All listings read in order; the first listing that cannot be read
    decides the error, as the loop stops at the first exception.
   */
  function DecodeAll(ls: seq<Record>, toFloat: string -> Option<real>): (r: Result<seq<Entry>, Error>) {
    if ls == [] then Success([])
    else match DecodeAll(ls[..|ls| - 1], toFloat)
      case Failure(e) => Failure(e)
      case Success(es) =>
        match Decode(ls[|ls| - 1], toFloat)
        case Failure(e) => Failure(e)
        case Success(x) => Success(es + [x])
  }

  /**
    Reading all listings succeeds exactly when every listing is readable, and
    then yields one entry per listing, in order; otherwise the error is that
    of the first listing that is not.
   */
  lemma {:induction false} DecodeAllMeaning(ls: seq<Record>, toFloat: string -> Option<real>)
    ensures DecodeAll(ls, toFloat).Success? ==>
      |DecodeAll(ls, toFloat).value| == |ls| &&
      forall i :: 0 <= i < |ls| ==> Decode(ls[i], toFloat) == Success(DecodeAll(ls, toFloat).value[i])
    ensures DecodeAll(ls, toFloat).Failure? <==> exists i :: 0 <= i < |ls| && Decode(ls[i], toFloat).Failure?
    ensures DecodeAll(ls, toFloat).Failure? ==>
      exists i :: 0 <= i < |ls| && Decode(ls[i], toFloat) == Failure(DecodeAll(ls, toFloat).error) &&
        forall j :: 0 <= j < i ==> Decode(ls[j], toFloat).Success?
  {
    if ls != [] {
      var init := ls[..|ls| - 1];
      assert forall i :: 0 <= i < |init| ==> init[i] == ls[i];
      DecodeAllMeaning(init, toFloat);
    }
  }

  /** The keys that occur among the entries. */
  function KeySet(es: seq<Entry>): (keys: set<Key>) {
    set e | e in es :: e.key
  }

  /** The keys in the order of their first occurrence, each once. */
  function FirstSeen(es: seq<Entry>): (keys: seq<Key>)
    ensures Distinct(keys)
    ensures forall k :: k in keys <==> k in KeySet(es)
  {
    if es == [] then []
    else
      var init := es[..|es| - 1];
      var k := es[|es| - 1].key;
      assert es == init + [es[|es| - 1]];
      assert KeySet(es) == KeySet(init) + {k};
      var keys := FirstSeen(init);
      if k in keys then keys else keys + [k]
  }

  /** The position of the first entry with key `k`. */
  function FirstIndex(k: Key, es: seq<Entry>): (i: nat)
    requires k in KeySet(es)
    ensures i < |es| && es[i].key == k
    ensures forall j :: 0 <= j < i ==> es[j].key != k
  {
    if es[0].key == k then 0
    else
      assert exists e :: e in es[1..] && e.key == k by {
        var e :| e in es && e.key == k;
        assert e != es[0];
      }
      1 + FirstIndex(k, es[1..])
  }

  /** Appending an entry leaves the first position of a key that already occurs. */
  lemma FirstIndexKept(k: Key, es: seq<Entry>, e: Entry)
    requires k in KeySet(es)
    ensures k in KeySet(es + [e]) && FirstIndex(k, es + [e]) == FirstIndex(k, es)
  {
    AppendKeys(es, e);
    var a, b := FirstIndex(k, es), FirstIndex(k, es + [e]);
    assert (es + [e])[a] == es[a];
  }

  /** A key that first occurs in the appended entry has that entry's position. */
  lemma FirstIndexNew(es: seq<Entry>, e: Entry)
    requires e.key !in KeySet(es)
    ensures e.key in KeySet(es + [e]) && FirstIndex(e.key, es + [e]) == |es|
  {
    AppendKeys(es, e);
  }

  /**
    `FirstSeen` lists the keys in the order of their first occurrence: of any
    two keys, the one listed earlier occurs first among the entries.
   */
  lemma {:induction false} FirstSeenOrder(es: seq<Entry>)
    ensures forall i, j :: 0 <= i < j < |FirstSeen(es)| ==>
      FirstIndex(FirstSeen(es)[i], es) < FirstIndex(FirstSeen(es)[j], es)
  {
    if es != [] {
      var init, e := es[..|es| - 1], es[|es| - 1];
      assert es == init + [e];
      FirstSeenOrder(init);
      AppendKeys(init, e);
      var keys, keys' := FirstSeen(init), FirstSeen(es);
      forall i, j | 0 <= i < j < |keys'|
        ensures FirstIndex(keys'[i], es) < FirstIndex(keys'[j], es)
      {
        assert keys'[i] == keys[i] && keys[i] in KeySet(init);
        FirstIndexKept(keys[i], init, e);
        if j < |keys| {
          assert keys'[j] == keys[j] && keys[j] in KeySet(init);
          FirstIndexKept(keys[j], init, e);
        } else {
          FirstIndexNew(init, e);
        }
      }
    }
  }

  /** The number of entries with key `k`. */
  function CountOf(k: Key, es: seq<Entry>): (n: nat) {
    if es == [] then 0
    else CountOf(k, es[..|es| - 1]) + (if es[|es| - 1].key == k then 1 else 0)
  }

  /** The sum of the prices of the entries with key `k`. */
  function SumOf(k: Key, es: seq<Entry>): (total: real) {
    if es == [] then 0.0
    else SumOf(k, es[..|es| - 1]) + (if es[|es| - 1].key == k then es[|es| - 1].price else 0.0)
  }

  /** Appending an entry adds its key to the key set, and lists it last if it is new. */
  lemma AppendKeys(es: seq<Entry>, e: Entry)
    ensures KeySet(es + [e]) == KeySet(es) + {e.key}
    ensures FirstSeen(es + [e]) ==
      if e.key in KeySet(es) then FirstSeen(es) else FirstSeen(es) + [e.key]
  {
    assert (es + [e])[..|es + [e]| - 1] == es;
  }

  /** Appending an entry adds one to its key's count and its price to its key's total. */
  lemma AppendTotals(es: seq<Entry>, e: Entry, k: Key)
    ensures CountOf(k, es + [e]) == CountOf(k, es) + (if e.key == k then 1 else 0)
    ensures SumOf(k, es + [e]) == SumOf(k, es) + (if e.key == k then e.price else 0.0)
  {
    assert (es + [e])[..|es + [e]| - 1] == es;
  }

  /** A key has a positive count exactly when it occurs. */
  lemma {:induction false} CountPositiveIffOccurs(k: Key, es: seq<Entry>)
    ensures CountOf(k, es) > 0 <==> k in KeySet(es)
  {
    if es != [] {
      var init := es[..|es| - 1];
      assert es == init + [es[|es| - 1]];
      assert KeySet(es) == KeySet(init) + {es[|es| - 1].key};
      CountPositiveIffOccurs(k, init);
    }
  }

  /** Counts and sums of a concatenation add up. */
  lemma {:induction false} ConcatTotals(k: Key, a: seq<Entry>, b: seq<Entry>)
    ensures CountOf(k, a + b) == CountOf(k, a) + CountOf(k, b)
    ensures SumOf(k, a + b) == SumOf(k, a) + SumOf(k, b)
  {
    if b != [] {
      var init := b[..|b| - 1];
      assert (a + b)[..|a + b| - 1] == a + init;
      ConcatTotals(k, a, init);
    } else {
      assert a + b == a;
    }
  }

  /** Reordering the listings keeps the set of keys. */
  lemma ReorderedKeys(a: seq<Entry>, b: seq<Entry>)
    requires multiset(a) == multiset(b)
    ensures KeySet(a) == KeySet(b)
  {
    forall e ensures e in a <==> e in b {
      assert e in a <==> e in multiset(a);
      assert e in b <==> e in multiset(b);
    }
  }

  /**
    Reordering the listings changes neither the count nor the price total of
    any key, so the averages do not depend on the order of the input.
   */
  lemma {:induction false} ReorderedTotals(k: Key, a: seq<Entry>, b: seq<Entry>)
    requires multiset(a) == multiset(b)
    ensures CountOf(k, a) == CountOf(k, b)
    ensures SumOf(k, a) == SumOf(k, b)
  {
    if a != [] {
      var x := a[|a| - 1];
      var init := a[..|a| - 1];
      assert a == init + [x];
      assert x in multiset(b);
      var j :| 0 <= j < |b| && b[j] == x;
      var rest := RemoveAt(k, b, j);
      calc {
        multiset(init);
        multiset(a) - multiset{x};
        multiset(b) - multiset{x};
        multiset(rest);
      }
      ReorderedTotals(k, init, rest);
    } else {
      assert |multiset(b)| == 0;
    }
  }

  /** Taking one entry out of a sequence, and what that does to the totals. */
  lemma RemoveAt(k: Key, b: seq<Entry>, j: nat) returns (rest: seq<Entry>)
    requires j < |b|
    ensures multiset(b) == multiset(rest) + multiset{b[j]}
    ensures CountOf(k, b) == CountOf(k, rest) + (if b[j].key == k then 1 else 0)
    ensures SumOf(k, b) == SumOf(k, rest) + (if b[j].key == k then b[j].price else 0.0)
  {
    var x := b[j];
    rest := b[..j] + b[j + 1..];
    assert b == b[..j] + [x] + b[j + 1..];
    ConcatTotals(k, b[..j] + [x], b[j + 1..]);
    ConcatTotals(k, b[..j], [x]);
    ConcatTotals(k, b[..j], b[j + 1..]);
    assert [x][..0] == [];
  }

  /** A key carried by exactly one listing totals that listing's price once. */
  lemma {:induction false} SingleListing(k: Key, es: seq<Entry>, i: nat)
    requires i < |es| && es[i].key == k
    requires forall j :: 0 <= j < |es| && j != i ==> es[j].key != k
    ensures CountOf(k, es) == 1
    ensures SumOf(k, es) / (CountOf(k, es) as real) == es[i].price
  {
    var init := es[..|es| - 1];
    if i == |es| - 1 {
      forall e | e in init ensures e.key != k {
        var j :| 0 <= j < |init| && init[j] == e;
        assert es[j] == e;
      }
      NoneOfKey(k, init);
    } else {
      SingleListing(k, init, i);
    }
  }

  /** A key no entry carries has count and total zero. */
  lemma {:induction false} NoneOfKey(k: Key, es: seq<Entry>)
    requires k !in KeySet(es)
    ensures CountOf(k, es) == 0 && SumOf(k, es) == 0.0
  {
    if es != [] {
      var init := es[..|es| - 1];
      assert es == init + [es[|es| - 1]];
      assert KeySet(es) == KeySet(init) + {es[|es| - 1].key};
      NoneOfKey(k, init);
    }
  }

  /**
    The average of a key lies between the cheapest and the dearest price of
    the listings that carry it.
   */
  lemma {:induction false} AverageWithinBounds(k: Key, es: seq<Entry>, lo: real, hi: real)
    requires CountOf(k, es) > 0
    requires forall e :: e in es && e.key == k ==> lo <= e.price <= hi
    ensures lo <= SumOf(k, es) / (CountOf(k, es) as real) <= hi
  {
    TotalWithinBounds(k, es, lo, hi);
    QuotientWithinBounds(SumOf(k, es), CountOf(k, es) as real, lo, hi);
  }

  /** Dividing a total that lies between `n * lo` and `n * hi` by `n > 0`. */
  lemma QuotientWithinBounds(s: real, n: real, lo: real, hi: real)
    requires n > 0.0
    requires n * lo <= s <= n * hi
    ensures lo <= s / n <= hi
  {
    var q := s / n;
    assert q * n == s;
  }

  /** The total of a key lies between `count * lo` and `count * hi`. */
  lemma {:induction false} TotalWithinBounds(k: Key, es: seq<Entry>, lo: real, hi: real)
    requires forall e :: e in es && e.key == k ==> lo <= e.price <= hi
    ensures (CountOf(k, es) as real) * lo <= SumOf(k, es) <= (CountOf(k, es) as real) * hi
  {
    if es != [] {
      var init := es[..|es| - 1];
      assert forall e :: e in init ==> e in es;
      TotalWithinBounds(k, init, lo, hi);
      assert es[|es| - 1] in es;
    }
  }

  /** The listing's own (neighbourhood group, room type) pair is `k`. */
  predicate HasPair(r: Record, k: Key) {
    GroupColumn in r && RoomColumn in r && (r[GroupColumn], r[RoomColumn]) == k
  }

  /**
    The keys of the decoded listings are exactly the (neighbourhood group,
    room type) pairs of the listings themselves: none missing, none extra.
   */
  lemma {:induction false} KeysAreListingPairs(ls: seq<Record>, toFloat: string -> Option<real>, es: seq<Entry>, k: Key)
    requires DecodeAll(ls, toFloat) == Success(es)
    ensures k in KeySet(es) <==> exists i :: 0 <= i < |ls| && HasPair(ls[i], k)
  {
    DecodeAllMeaning(ls, toFloat);
    if k in KeySet(es) {
      var e :| e in es && e.key == k;
      var i :| 0 <= i < |es| && es[i] == e;
      assert Decode(ls[i], toFloat) == Success(es[i]);
      assert HasPair(ls[i], k);
    }
    if exists i :: 0 <= i < |ls| && HasPair(ls[i], k) {
      var i :| 0 <= i < |ls| && HasPair(ls[i], k);
      assert Decode(ls[i], toFloat) == Success(es[i]);
      assert es[i] in es;
    }
  }
}
