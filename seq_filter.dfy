/** Keeping the present results of a function applied along a sequence: the
    shape of a generator that yields for some items and skips the others. */
module SeqFilter {
  import opened Wrappers

  /** `[f(x).value for x in s if f(x) is not None]`, in the order of `s`. */
  function FilterMap<T, U>(s: seq<T>, f: T -> Option<U>): (r: seq<U>)
    ensures |r| <= |s|
  {
    if s == [] then [] else Push(FilterMap(s[..|s| - 1], f), f(s[|s| - 1]))
  }

  /** The items so far, followed by the next one if there is one. */
  function Push<U>(items: seq<U>, next: Option<U>): seq<U>
  {
    match next
    case None => items
    case Some(u) => items + [u]
  }

  lemma PushAfter<U>(prefix: seq<U>, items: seq<U>, next: Option<U>)
    ensures prefix + Push(items, next) == Push(prefix + items, next)
  {
    if next.Some? {
      assert prefix + (items + [next.value]) == (prefix + items) + [next.value];
    }
  }

  /** Each item contributes on its own, in place. */
  lemma {:induction false} FilterMapAppend<T, U>(a: seq<T>, b: seq<T>, f: T -> Option<U>)
    ensures FilterMap(a + b, f) == FilterMap(a, f) + FilterMap(b, f)
    decreases |b|
  {
    if b == [] {
      assert a + b == a;
    } else {
      var init, last := b[..|b| - 1], b[|b| - 1];
      assert (a + b)[..|a + b| - 1] == a + init;
      assert (a + b)[|a + b| - 1] == last;
      FilterMapAppend(a, init, f);
      PushAfter(FilterMap(a, f), FilterMap(init, f), f(last));
    }
  }

  /** Nothing is kept exactly when every item gives nothing. */
  lemma {:induction false} FilterMapEmpty<T, U>(s: seq<T>, f: T -> Option<U>)
    ensures FilterMap(s, f) == [] <==> forall k :: 0 <= k < |s| ==> f(s[k]).None?
    decreases |s|
  {
    if s != [] {
      var init := s[..|s| - 1];
      FilterMapEmpty(init, f);
      assert forall k :: 0 <= k < |init| ==> init[k] == s[k];
    }
  }

  /** When every item gives a value, every value is kept, one for one and in order. */
  lemma {:induction false} FilterMapAllPresent<T, U>(s: seq<T>, f: T -> Option<U>)
    requires forall k :: 0 <= k < |s| ==> f(s[k]).Some?
    ensures |FilterMap(s, f)| == |s|
    ensures forall k :: 0 <= k < |s| ==> f(s[k]) == Some(FilterMap(s, f)[k])
    decreases |s|
  {
    if s != [] {
      var init := s[..|s| - 1];
      assert forall k :: 0 <= k < |init| ==> init[k] == s[k];
      FilterMapAllPresent(init, f);
      var r, rInit := FilterMap(s, f), FilterMap(init, f);
      assert r == rInit + [f(s[|s| - 1]).value];
      forall k | 0 <= k < |s| ensures f(s[k]) == Some(r[k]) {
        if k < |init| {
          assert r[k] == rInit[k];
        }
      }
    }
  }

  /** Every value an item gives is kept. */
  lemma FilterMapKeeps<T, U>(s: seq<T>, k: nat, f: T -> Option<U>)
    requires k < |s| && f(s[k]).Some?
    ensures f(s[k]).value in FilterMap(s, f)
  {
    var a, x, b := s[..k], s[k], s[k + 1..];
    SplitAround(s, k);
    FilterMapAppend(a + [x], b, f);
    FilterMapSnoc(a, x, f);
  }

  /** Every kept value is the result of some item. */
  lemma {:induction false} FilterMapOrigin<T, U>(s: seq<T>, f: T -> Option<U>)
    ensures forall u :: u in FilterMap(s, f) ==> exists k :: 0 <= k < |s| && f(s[k]) == Some(u)
    decreases |s|
  {
    if s != [] {
      var init := s[..|s| - 1];
      FilterMapOrigin(init, f);
      forall u | u in FilterMap(s, f) ensures exists k :: 0 <= k < |s| && f(s[k]) == Some(u) {
        if u in FilterMap(init, f) {
          var k :| 0 <= k < |init| && f(init[k]) == Some(u);
          assert init[k] == s[k];
        } else {
          assert f(s[|s| - 1]) == Some(u);
        }
      }
    }
  }

  /** Taking item `i` out takes out exactly its value. */
  lemma FilterMapWithout<T, U>(s: seq<T>, i: nat, f: T -> Option<U>)
    requires i < |s|
    ensures multiset(FilterMap(s, f)) == multiset(FilterMap(s[..i] + s[i + 1..], f)) + multiset(Push([], f(s[i])))
  {
    SplitAround(s, i);
    FilterMapWithoutMiddle(s[..i], s[i], s[i + 1..], f);
  }

  lemma SplitAround<T>(s: seq<T>, i: nat)
    requires i < |s|
    ensures s == s[..i] + [s[i]] + s[i + 1..]
  {
  }

  lemma FilterMapWithoutMiddle<T, U>(a: seq<T>, x: T, b: seq<T>, f: T -> Option<U>)
    ensures multiset(FilterMap(a + [x] + b, f)) == multiset(FilterMap(a + b, f)) + multiset(Push([], f(x)))
  {
    FilterMapAppend(a + [x], b, f);
    FilterMapSnoc(a, x, f);
    FilterMapAppend(a, b, f);
    MultisetPush(FilterMap(a, f), FilterMap(b, f), f(x));
  }

  lemma FilterMapSnoc<T, U>(a: seq<T>, x: T, f: T -> Option<U>)
    ensures FilterMap(a + [x], f) == Push(FilterMap(a, f), f(x))
  {
    assert (a + [x])[..|a|] == a;
  }

  /** A pushed value counts once, wherever the rest of the sequence lies. */
  lemma MultisetPush<U>(p: seq<U>, q: seq<U>, next: Option<U>)
    ensures multiset(Push(p, next) + q) == multiset(p + q) + multiset(Push([], next))
  {
    if next.Some? {
      assert Push(p, next) + q == p + [next.value] + q;
      assert Push([], next) == [next.value];
    } else {
      assert Push([], next) == [];
    }
  }

  /** Taking item `i` out of a sequence takes one copy of it out of its multiset. */
  lemma MultisetWithout<T>(t: seq<T>, i: nat)
    requires i < |t|
    ensures multiset(t[..i] + t[i + 1..]) == multiset(t) - multiset{t[i]}
  {
    assert t == t[..i] + [t[i]] + t[i + 1..];
    assert multiset(t) == multiset(t[..i] + t[i + 1..]) + multiset{t[i]};
  }

  /** Reordering the items reorders the kept values and changes nothing else. */
  lemma {:induction false} FilterMapPermutation<T, U>(s: seq<T>, t: seq<T>, f: T -> Option<U>)
    requires multiset(s) == multiset(t)
    ensures multiset(FilterMap(s, f)) == multiset(FilterMap(t, f))
    decreases |s|
  {
    if s == [] {
      assert |t| == |multiset(t)| == 0;
    } else {
      var n := |s| - 1;
      var x := s[n];
      assert x in multiset(t);
      var i :| 0 <= i < |t| && t[i] == x;
      var s', t' := s[..n] + s[n + 1..], t[..i] + t[i + 1..];
      MultisetWithout(s, n);
      MultisetWithout(t, i);
      assert |s'| < |s|;
      FilterMapPermutation(s', t', f);
      FilterMapWithout(s, n, f);
      FilterMapWithout(t, i, f);
    }
  }
}
