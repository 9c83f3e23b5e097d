/** Lists: the last item of a history, what is left without a key, and lists without repetition. */
module Lists {

  function Last<T>(list: seq<T>): T
    requires list != []
  {
    list[|list| - 1]
  }

  function Before<T>(list: seq<T>): seq<T>
    requires list != []
  {
    list[..|list| - 1]
  }

  ghost predicate Distinct<T>(list: seq<T>) {
    forall i, j | 0 <= i < j < |list| :: list[i] != list[j]
  }

  /** No two items share a key. */
  ghost predicate DistinctBy<T, K>(list: seq<T>, key: T -> K) {
    forall i, j | 0 <= i < j < |list| :: key(list[i]) != key(list[j])
  }

  /** The items of another key, in their order. */
  function Without<T, K(==)>(list: seq<T>, key: T -> K, out: K): seq<T> {
    if list == [] then []
    else Without(Before(list), key, out) + (if key(Last(list)) == out then [] else [Last(list)])
  }

  lemma {:induction false} WithoutHolds<T, K>(list: seq<T>, key: T -> K, out: K, item: T)
    ensures item in Without(list, key, out) <==> item in list && key(item) != out
  {
    if list != [] {
      assert list == Before(list) + [Last(list)];
      WithoutHolds(Before(list), key, out, item);
    }
  }

  lemma {:induction false} WithoutSplits<T, K>(left: seq<T>, right: seq<T>, key: T -> K, out: K)
    ensures Without(left + right, key, out) == Without(left, key, out) + Without(right, key, out)
  {
    if right == [] {
      assert left + right == left;
    } else {
      WithoutSplits(left, Before(right), key, out);
      assert Before(left + right) == left + Before(right);
    }
  }

  lemma {:induction false} WithoutStaysDistinct<T, K>(list: seq<T>, key: T -> K, out: K)
    requires DistinctBy(list, key)
    ensures DistinctBy(Without(list, key, out), key)
  {
    if list != [] {
      var rest := Before(list);
      WithoutStaysDistinct(rest, key, out);
      forall i | 0 <= i < |Without(rest, key, out)| ensures key(Without(rest, key, out)[i]) != key(Last(list)) {
        WithoutHolds(rest, key, out, Without(rest, key, out)[i]);
        var k :| 0 <= k < |rest| && rest[k] == Without(rest, key, out)[i];
        assert list[k] == rest[k];
      }
    }
  }

  lemma {:induction false} WithoutNoneKeeps<T, K>(list: seq<T>, key: T -> K, out: K)
    requires forall item <- list :: key(item) != out
    ensures Without(list, key, out) == list
  {
    if list != [] {
      assert list == Before(list) + [Last(list)];
      WithoutNoneKeeps(Before(list), key, out);
    }
  }

  lemma {:induction false} WithoutDropsOne<T, K>(list: seq<T>, key: T -> K, out: K)
    requires DistinctBy(list, key)
    ensures |list| - 1 <= |Without(list, key, out)| <= |list|
  {
    if list != [] {
      if key(Last(list)) == out {
        WithoutNoneKeeps(Before(list), key, out);
      } else {
        WithoutDropsOne(Before(list), key, out);
      }
    }
  }

  ghost predicate Rising(places: seq<nat>) {
    forall i, j | 0 <= i < j < |places| :: places[i] < places[j]
  }

  function Elements(places: seq<nat>): set<nat> {
    set place | place in places
  }

  lemma ElementsOfOneMore(rest: seq<nat>, last: nat)
    requires last !in rest
    ensures |Elements(rest + [last])| == |Elements(rest)| + 1
  {
    assert Elements(rest + [last]) == Elements(rest) + {last};
  }

  lemma {:induction false} RisingCount(places: seq<nat>)
    requires Rising(places)
    ensures |Elements(places)| == |places|
  {
    if places != [] {
      RisingCount(Before(places));
      assert places == Before(places) + [Last(places)];
      ElementsOfOneMore(Before(places), Last(places));
    }
  }

  /** Without its k-th place, the rest. */
  lemma RisingWithout(places: seq<nat>, k: nat)
    requires Rising(places) && k < |places|
    ensures Rising(places[..k] + places[k + 1..])
    ensures forall i :: i in places[..k] + places[k + 1..] <==> i in places && i != places[k]
  {
    var rest := places[..k] + places[k + 1..];
    forall i | i in places && i != places[k] ensures i in rest {
      var j :| 0 <= j < |places| && places[j] == i;
      assert j < k ==> rest[j] == i;
      assert j > k ==> rest[j - 1] == i;
    }
  }

  /** What a list that grew holds after its first `n` items: what the shorter one held there, then the rest. */
  lemma GrownAfter<T>(shorter: seq<T>, longer: seq<T>, n: nat)
    requires shorter <= longer && n <= |shorter|
    ensures longer[n..][..|shorter| - n] == shorter[n..]
    ensures longer[n..][|shorter| - n..] == longer[|shorter|..]
  {
  }

  lemma Associates<T>(left: seq<T>, middle: seq<T>, right: seq<T>)
    ensures (left + middle) + right == left + (middle + right)
  {
  }
}
