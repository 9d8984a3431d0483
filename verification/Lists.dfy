/** Filtering and mapping lists, and where the elements that stay come from. */
module Lists {

  function Filter<T>(p: T -> bool, s: seq<T>): seq<T> {
    if s == [] then []
    else Filter(p, s[..|s| - 1]) + if p(s[|s| - 1]) then [s[|s| - 1]] else []
  }

  function Map<T, U>(f: T -> U, s: seq<T>): (r: seq<U>)
    ensures |r| == |s| && forall k :: 0 <= k < |s| ==> r[k] == f(s[k])
  {
    seq(|s|, k requires 0 <= k < |s| => f(s[k]))
  }

  lemma {:induction false} FilterMap<T(!new), U>(f: T -> U, q: U -> bool, p: T -> bool, s: seq<T>)
    requires forall x :: p(x) <==> q(f(x))
    ensures Filter(q, Map(f, s)) == Map(f, Filter(p, s))
  {
    if s != [] {
      var n := |s| - 1;
      FilterMap(f, q, p, s[..n]);
      assert Map(f, s)[..n] == Map(f, s[..n]);
      assert Map(f, s)[n] == f(s[n]);
    }
  }

  lemma {:induction false} FilterTwice<T(!new)>(p: T -> bool, q: T -> bool, both: T -> bool, s: seq<T>)
    requires forall x :: both(x) <==> p(x) && q(x)
    ensures Filter(q, Filter(p, s)) == Filter(both, s)
  {
    if s != [] {
      var n := |s| - 1;
      FilterTwice(p, q, both, s[..n]);
      var kept := Filter(p, s[..n]);
      assert Filter(p, s) == if p(s[n]) then kept + [s[n]] else kept;
      assert (kept + [s[n]])[..|kept|] == kept;
    }
  }

  /** Filtering a list is filtering its two halves. */
  lemma {:induction false} FilterSplit<T>(p: T -> bool, a: seq<T>, b: seq<T>)
    ensures Filter(p, a + b) == Filter(p, a) + Filter(p, b)
  {
    if b == [] {
      assert a + b == a;
    } else {
      var n := |b| - 1;
      FilterSplit(p, a, b[..n]);
      assert (a + b)[..|a| + n] == a + b[..n];
    }
  }

  /** `origin` names, in increasing order, the positions in `s` that `kept` was taken from. */
  ghost predicate TakenFrom<T>(kept: seq<T>, s: seq<T>, origin: seq<nat>) {
    && |origin| == |kept|
    && (forall k :: 0 <= k < |kept| ==> origin[k] < |s| && kept[k] == s[origin[k]])
    && (forall j, k :: 0 <= j < k < |kept| ==> origin[j] < origin[k])
  }

  /** The positions below `n` whose element satisfies `p`. */
  function Positions<T>(p: T -> bool, s: seq<T>, n: nat): (r: seq<nat>)
    requires n <= |s|
    ensures forall i :: i in r <==> 0 <= i < n && p(s[i])
    ensures forall j, k :: 0 <= j < k < |r| ==> r[j] < r[k]
  {
    if n == 0 then []
    else
      var r := Positions(p, s, n - 1);
      assert forall k :: 0 <= k < |r| ==> r[k] in r;
      r + if p(s[n - 1]) then [n - 1] else []
  }

  lemma TakenFromPush<T>(kept: seq<T>, s: seq<T>, origin: seq<nat>, i: nat)
    requires TakenFrom(kept, s, origin) && i < |s| && forall k :: 0 <= k < |origin| ==> origin[k] < i
    ensures TakenFrom(kept + [s[i]], s, origin + [i])
  {
  }

  /** Filtering keeps the elements that pass, each once, in order. */
  lemma {:induction false} FilterKeepsOrder<T>(p: T -> bool, s: seq<T>, n: nat)
    requires n <= |s|
    ensures TakenFrom(Filter(p, s[..n]), s, Positions(p, s, n))
  {
    if n > 0 {
      FilterKeepsOrder(p, s, n - 1);
      assert s[..n][..n - 1] == s[..n - 1];
      var before := Positions(p, s, n - 1);
      forall k | 0 <= k < |before| ensures before[k] < n - 1 {
        assert before[k] in before;
      }
      if p(s[n - 1]) {
        TakenFromPush(Filter(p, s[..n - 1]), s, before, n - 1);
      }
    }
  }

  lemma {:induction false} FilterMembers<T>(p: T -> bool, s: seq<T>, x: T)
    ensures x in Filter(p, s) <==> x in s && p(x)
  {
    if s != [] {
      var n := |s| - 1;
      FilterMembers(p, s[..n], x);
      assert s == s[..n] + [s[n]];
    }
  }

  lemma {:induction false} FilterAll<T>(p: T -> bool, s: seq<T>)
    requires forall x :: x in s ==> p(x)
    ensures Filter(p, s) == s
  {
    if s != [] {
      var n := |s| - 1;
      assert s[n] in s;
      forall x | x in s[..n] ensures p(x) {
        assert x in s;
      }
      FilterAll(p, s[..n]);
      assert s == s[..n] + [s[n]];
    }
  }

  lemma {:induction false} FilterCounts<T(!new)>(p: T -> bool, q: T -> bool, s: seq<T>)
    requires forall x :: p(x) <==> !q(x)
    ensures |Filter(p, s)| + |Filter(q, s)| == |s|
  {
    if s != [] {
      FilterCounts(p, q, s[..|s| - 1]);
    }
  }
}
