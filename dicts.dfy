/**
  Python's `dict` as the aggregator and the writer use it: a finite map that
  also remembers the order in which its keys were first inserted, which is
  the order `for key in d` and `d.items()` visit them.
 */
module Dicts {

  /** No element of `s` occurs twice. */
  predicate Distinct<K(==)>(s: seq<K>) {
    forall i, j :: 0 <= i < j < |s| ==> s[i] != s[j]
  }

  /** `order` is the insertion order of the keys of `values`. */
  datatype OrderedDict<K(!new), V> = OrderedDict(order: seq<K>, values: map<K, V>) {

    /** Every key is listed exactly once, and only keys are listed. */
    ghost predicate Valid() {
      Distinct(order) && forall k :: k in values <==> k in order
    }
  }

  /** A list without repetitions has as many elements as the set it enumerates. */
  lemma {:induction false} DistinctLength<K>(s: seq<K>, keys: set<K>)
    requires Distinct(s)
    requires forall k :: k in keys <==> k in s
    ensures |keys| == |s|
  {
    if s != [] {
      var last := s[|s| - 1];
      var init := s[..|s| - 1];
      assert last !in init by {
        forall i | 0 <= i < |init| ensures init[i] != last {
          assert s[i] == init[i];
        }
      }
      forall k ensures k in keys - {last} <==> k in init {
        if k in s && k != last {
          var i :| 0 <= i < |s| && s[i] == k;
          assert i < |s| - 1 && init[i] == k;
        }
      }
      DistinctLength(init, keys - {last});
    }
  }
}
