/** Sort keys as Python compares them: tuples of numbers and texts, component by component,
    a text character by character. */
module SortKeys {
  import Sorting

  /** A number is one component of length one, a text one of its characters' code points. */
  type Key = seq<seq<int>>

  function Text(s: string): seq<int> {
    seq(|s|, i requires 0 <= i < |s| => s[i] as int)
  }

  predicate Before(x: seq<int>, y: seq<int>) {
    y != [] && (x == [] || x[0] < y[0] || (x[0] == y[0] && Before(x[1..], y[1..])))
  }

  predicate KeyBefore(x: Key, y: Key) {
    y != [] && (x == [] || Before(x[0], y[0]) || (x[0] == y[0] && KeyBefore(x[1..], y[1..])))
  }

  lemma {:induction false} BeforeIsOrder(x: seq<int>, y: seq<int>, z: seq<int>)
    ensures Before(x, y) ==> !Before(y, x)
    ensures !Before(x, y) && !Before(y, x) ==> x == y
    ensures !Before(x, y) && !Before(y, z) ==> !Before(x, z)
    decreases |x| + |y| + |z|
  {
    if x != [] && y != [] {
      BeforeIsOrder(x[1..], y[1..], if z != [] then z[1..] else []);
      assert x == [x[0]] + x[1..] && y == [y[0]] + y[1..];
    }
  }

  lemma {:induction false} KeyBeforeIsOrder(x: Key, y: Key, z: Key)
    ensures KeyBefore(x, y) ==> !KeyBefore(y, x)
    ensures !KeyBefore(x, y) && !KeyBefore(y, z) ==> !KeyBefore(x, z)
    decreases |x| + |y| + |z|
  {
    if x != [] && y != [] {
      BeforeIsOrder(x[0], y[0], if z != [] then z[0] else []);
      BeforeIsOrder(y[0], if z != [] then z[0] else [], x[0]);
      KeyBeforeIsOrder(x[1..], y[1..], if z != [] then z[1..] else []);
    }
  }

  /** Any order read off such keys can be sorted by. */
  lemma KeysOrder<T(!new)>(before: (T, T) -> bool, key: T -> Key)
    requires forall x, y :: before(x, y) <==> KeyBefore(key(x), key(y))
    ensures Sorting.StrictWeakOrder(before)
  {
    forall x, y | before(x, y) ensures !before(y, x) {
      KeyBeforeIsOrder(key(x), key(y), key(x));
    }
    forall x, y, z | !before(x, y) && !before(y, z) ensures !before(x, z) {
      KeyBeforeIsOrder(key(x), key(y), key(z));
    }
  }

  // --- What the comparison is -------------------------------------------------------------------

  /** One is before the other when, behind a common beginning, it ends or is lower. */
  predicate FirstDifference(x: seq<int>, y: seq<int>, n: int) {
    0 <= n <= |x| && n < |y| && x[..n] == y[..n] && (n == |x| || x[n] < y[n])
  }

  lemma {:induction false} BeforeMeans(x: seq<int>, y: seq<int>)
    ensures Before(x, y) <==> exists n :: FirstDifference(x, y, n)
    decreases |x|
  {
    forall n | FirstDifference(x, y, n) ensures n == 0 || x[0] == y[0] {
      assert n > 0 ==> x[..n][0] == x[0] && y[..n][0] == y[0];
    }
    if x != [] && y != [] && x[0] == y[0] {
      BeforeMeans(x[1..], y[1..]);
      if n :| FirstDifference(x[1..], y[1..], n) {
        assert x[..n + 1] == [x[0]] + x[1..][..n] && y[..n + 1] == [y[0]] + y[1..][..n];
        assert FirstDifference(x, y, n + 1);
      }
      if n :| FirstDifference(x, y, n) {
        assert n > 0;
        assert x[1..][..n - 1] == x[..n][1..] && y[1..][..n - 1] == y[..n][1..];
        assert FirstDifference(x[1..], y[1..], n - 1);
      }
    } else if Before(x, y) {
      assert FirstDifference(x, y, 0);
    }
  }

  /** Texts: the one that is the other's beginning, or has the lower character where they
      first differ. */
  lemma TextBefore(s: string, t: string)
    ensures Before(Text(s), Text(t)) <==> exists n :: 0 <= n <= |s| && n < |t| && s[..n] == t[..n] && (n == |s| || s[n] < t[n])
    ensures Text(s) == Text(t) <==> s == t
  {
    BeforeMeans(Text(s), Text(t));
    forall n | 0 <= n <= |s| && n <= |t| ensures Text(s)[..n] == Text(t)[..n] <==> s[..n] == t[..n] {
      SameTexts(s[..n], t[..n]);
      assert Text(s)[..n] == Text(s[..n]) && Text(t)[..n] == Text(t[..n]);
    }
    if n :| FirstDifference(Text(s), Text(t), n) {
      assert s[..n] == t[..n];
    }
    if n :| 0 <= n <= |s| && n < |t| && s[..n] == t[..n] && (n == |s| || s[n] < t[n]) {
      assert FirstDifference(Text(s), Text(t), n);
    }
    SameTexts(s, t);
  }

  lemma SameTexts(s: string, t: string)
    ensures Text(s) == Text(t) <==> s == t
  {
    if Text(s) == Text(t) {
      assert |Text(s)| == |s| && |Text(t)| == |t|;
      forall i | 0 <= i < |s| ensures s[i] == t[i] {
        assert Text(s)[i] == Text(t)[i];
      }
    }
  }

  /** Keys: by the first component, then the next. */
  lemma KeyBeforeMeans(a: seq<int>, b: seq<int>, x: Key, y: Key)
    ensures KeyBefore([a] + x, [b] + y) <==> Before(a, b) || (a == b && KeyBefore(x, y))
    ensures !KeyBefore(x, []) && (KeyBefore([], y) <==> y != [])
  {
    assert ([a] + x)[1..] == x && ([b] + y)[1..] == y;
  }

  lemma NumberBefore(m: int, n: int)
    ensures Before([m], [n]) <==> m < n
  {
    assert [m][1..] == [];
  }
}
