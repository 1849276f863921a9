/** Order-keeping selections from sequences, as `filter` and `distinctBy` make them. */
module Seqs {
  import opened Wrappers

  /** `a` is `b` with some elements left out and the rest in their order. */
  predicate Subsequence<T(==)>(a: seq<T>, b: seq<T>)
  {
    if |a| == 0 then true
    else if |b| == 0 then false
    else (a[0] == b[0] && Subsequence(a[1..], b[1..])) || Subsequence(a, b[1..])
  }

  /** Keeping the head of both, or dropping the head of the longer one, keeps the relation. */
  lemma SubsequenceCons<T>(x: T, a: seq<T>, b: seq<T>)
    requires Subsequence(a, b)
    ensures Subsequence([x] + a, [x] + b)
    ensures Subsequence(a, [x] + b)
  {
    assert ([x] + a)[1..] == a;
    assert ([x] + b)[1..] == b;
  }

  /** A subsequence holds only elements of the longer sequence. */
  lemma {:induction false} SubsequenceMembers<T>(a: seq<T>, b: seq<T>)
    requires Subsequence(a, b)
    ensures forall x :: x in a ==> x in b
    ensures |a| <= |b|
  {
    if |a| > 0 && |b| > 0 {
      if a[0] == b[0] && Subsequence(a[1..], b[1..]) {
        SubsequenceMembers(a[1..], b[1..]);
        forall x | x in a ensures x in b {
          if x != a[0] {
            assert x in a[1..];
          }
        }
      } else {
        SubsequenceMembers(a, b[1..]);
      }
    }
  }

  /**
   * `items.filter(keep)` where `keep` may throw: the kept items in order,
   * or the error when `keep` throws on any item.
   */
  function FilterOk<T(==,!new)>(items: seq<T>, keep: T -> Result<bool>): (r: Result<seq<T>>)
    ensures r.Err? <==> exists i :: 0 <= i < |items| && keep(items[i]).Err?
    ensures r.Ok? ==> Subsequence(r.value, items)
    ensures r.Ok? ==> forall x :: x in r.value <==> x in items && keep(x) == Ok(true)
  {
    if |items| == 0 then Ok([])
    else
      var k := keep(items[0]);
      if k.Err? then Err(k.error)
      else
        var rest := FilterOk(items[1..], keep);
        assert items == [items[0]] + items[1..];
        assert forall i :: 0 < i < |items| ==> items[i] == items[1..][i - 1];
        if rest.Err? then Err(rest.error)
        else
          SubsequenceCons(items[0], rest.value, items[1..]);
          Ok(if k.value then [items[0]] + rest.value else rest.value)
  }

  /** Each kept item sits at some position of the input and passed `keep` there. */
  lemma FilterOkOrigin<T(!new)>(items: seq<T>, keep: T -> Result<bool>, i: nat) returns (k: nat)
    requires FilterOk(items, keep).Ok? && i < |FilterOk(items, keep).value|
    ensures k < |items| && items[k] == FilterOk(items, keep).value[i] && keep(items[k]) == Ok(true)
  {
    var kept := FilterOk(items, keep).value;
    assert kept[i] in kept;
    k :| 0 <= k < |items| && items[k] == kept[i];
  }

  /** `items.map(f)` where `f` may throw: every result in order, or the error of the first item that throws. */
  function MapOk<T, U>(items: seq<T>, f: T -> Result<U>): (r: Result<seq<U>>)
    ensures r.Err? <==> exists i :: 0 <= i < |items| && f(items[i]).Err?
    ensures r.Err? ==>
      exists i :: 0 <= i < |items| && f(items[i]) == Err(r.error) && forall j :: 0 <= j < i ==> f(items[j]).Ok?
    ensures r.Ok? ==> |r.value| == |items|
    ensures r.Ok? ==> forall i :: 0 <= i < |items| ==> f(items[i]) == Ok(r.value[i])
  {
    if |items| == 0 then Ok([])
    else
      var h := f(items[0]);
      if h.Err? then Err(h.error)
      else
        var rest := MapOk(items[1..], f);
        assert forall i :: 0 < i < |items| ==> items[i] == items[1..][i - 1];
        if rest.Err? then Err(rest.error)
        else Ok([h.value] + rest.value)
  }

  /** A run of successes over every item is what `MapOk` returns. */
  lemma {:induction false} MapOkAll<T, U>(items: seq<T>, f: T -> Result<U>, vs: seq<U>)
    requires |vs| == |items| && forall i :: 0 <= i < |items| ==> f(items[i]) == Ok(vs[i])
    ensures MapOk(items, f) == Ok(vs)
  {
    if |items| > 0 {
      assert forall i :: 0 <= i < |items[1..]| ==> f(items[1..][i]) == Ok(vs[1..][i]) by {
        forall i | 0 <= i < |items[1..]| ensures f(items[1..][i]) == Ok(vs[1..][i]) {
          assert items[1..][i] == items[i + 1] && vs[1..][i] == vs[i + 1];
        }
      }
      MapOkAll(items[1..], f, vs[1..]);
      assert vs == [vs[0]] + vs[1..];
    }
  }

  /** `MapOk` stops at the first item whose result is an error and reports that error. */
  lemma {:induction false} MapOkFirstError<T, U>(items: seq<T>, f: T -> Result<U>, i: nat)
    requires i < |items| && f(items[i]).Err? && forall j :: 0 <= j < i ==> f(items[j]).Ok?
    ensures MapOk(items, f) == Err(f(items[i]).error)
  {
    if i > 0 {
      assert items[1..][i - 1] == items[i];
      assert forall j :: 0 <= j < i - 1 ==> f(items[1..][j]).Ok? by {
        forall j | 0 <= j < i - 1 ensures f(items[1..][j]).Ok? {
          assert items[1..][j] == items[j + 1];
        }
      }
      MapOkFirstError(items[1..], f, i - 1);
    }
  }

  /** `items.findIndex(p)`, as an index when one is found. */
  function FindFirst<T>(items: seq<T>, p: T -> bool): (r: Option<nat>)
    ensures r.Some? ==> r.value < |items| && p(items[r.value]) && forall j :: 0 <= j < r.value ==> !p(items[j])
    ensures r.None? ==> forall j :: 0 <= j < |items| ==> !p(items[j])
  {
    if |items| == 0 then None
    else if p(items[0]) then Some(0)
    else
      var rest := FindFirst(items[1..], p);
      assert forall j :: 1 <= j < |items| ==> items[j] == items[1..][j - 1];
      if rest.None? then None else Some(rest.value + 1)
  }

  /** `items.find(p)`. */
  function Find<T>(items: seq<T>, p: T -> bool): (r: Option<T>)
    ensures r.Some? <==> exists j :: 0 <= j < |items| && p(items[j])
    ensures r.Some? ==> exists j :: (0 <= j < |items| && items[j] == r.value && p(r.value)
      && forall i :: 0 <= i < j ==> !p(items[i]))
  {
    var k := FindFirst(items, p);
    if k.None? then None else Some(items[k.value])
  }

  /**
   * `distinctBy(items, key)`: the items in order, each dropped when an
   * earlier one, or a key in `seen`, has its key.
   */
  function DistinctFrom<T(==), K(==)>(items: seq<T>, key: T -> K, seen: set<K>): (r: seq<T>)
    ensures Subsequence(r, items)
    ensures forall i :: 0 <= i < |r| ==> key(r[i]) !in seen
    ensures forall i, j :: 0 <= i < j < |r| ==> key(r[i]) != key(r[j])
  {
    if |items| == 0 then []
    else
      var x := items[0];
      assert items == [x] + items[1..];
      assert forall i :: 0 < i < |items| ==> items[i] == items[1..][i - 1];
      if key(x) in seen then
        var rest := DistinctFrom(items[1..], key, seen);
        SubsequenceCons(x, rest, items[1..]);
        rest
      else
        var rest := DistinctFrom(items[1..], key, seen + {key(x)});
        SubsequenceCons(x, rest, items[1..]);
        var r := [x] + rest;
        assert r[0] == x;
        assert forall i :: 0 < i < |r| ==> r[i] == rest[i - 1];
        r
  }

  /** No key is lost: every item whose key is not in `seen` has a kept item with that key. */
  lemma {:induction false} DistinctFromCovers<T, K>(items: seq<T>, key: T -> K, seen: set<K>, i: nat) returns (j: nat)
    requires i < |items| && key(items[i]) !in seen
    ensures j < |DistinctFrom(items, key, seen)| && key(DistinctFrom(items, key, seen)[j]) == key(items[i])
  {
    var x := items[0];
    var tail := items[1..];
    if key(x) in seen {
      assert DistinctFrom(items, key, seen) == DistinctFrom(tail, key, seen);
      assert items[i] == tail[i - 1];
      j := DistinctFromCovers(tail, key, seen, i - 1);
    } else if key(items[i]) == key(x) {
      j := 0;
    } else {
      var seen' := seen + {key(x)};
      var rest := DistinctFrom(tail, key, seen');
      assert DistinctFrom(items, key, seen) == [x] + rest;
      assert items[i] == tail[i - 1];
      var j' := DistinctFromCovers(tail, key, seen', i - 1);
      j := j' + 1;
    }
  }

  function DistinctBy<T(==), K(==)>(items: seq<T>, key: T -> K): seq<T>
  {
    DistinctFrom(items, key, {})
  }

  /**
   * Every item `distinctBy` keeps is the first item of the input with its
   * key: nothing before it shares the key.
   */
  lemma {:induction false} DistinctFromFirst<T, K>(items: seq<T>, key: T -> K, seen: set<K>, i: nat) returns (k: nat)
    requires i < |DistinctFrom(items, key, seen)|
    ensures k < |items| && items[k] == DistinctFrom(items, key, seen)[i]
    ensures forall j :: 0 <= j < k ==> key(items[j]) != key(items[k])
  {
    var x := items[0];
    var tail := items[1..];
    if key(x) in seen {
      var rest := DistinctFrom(tail, key, seen);
      assert DistinctFrom(items, key, seen) == rest;
      var k' := DistinctFromFirst(tail, key, seen, i);
      k := k' + 1;
      assert key(tail[k']) !in seen;
      forall j | 0 <= j < k ensures key(items[j]) != key(items[k]) {
        if j > 0 {
          assert items[j] == tail[j - 1];
        }
      }
    } else if i == 0 {
      k := 0;
    } else {
      var seen' := seen + {key(x)};
      var rest := DistinctFrom(tail, key, seen');
      assert DistinctFrom(items, key, seen) == [x] + rest;
      var k' := DistinctFromFirst(tail, key, seen', i - 1);
      k := k' + 1;
      assert key(tail[k']) !in seen';
      forall j | 0 <= j < k ensures key(items[j]) != key(items[k]) {
        if j > 0 {
          assert items[j] == tail[j - 1];
        }
      }
    }
  }
}
