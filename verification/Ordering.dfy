/** Go's string order, and what sorting a slice by a string key determines. */
module Ordering {

  /** Go's `a <= b` on strings: lexicographic. */
  predicate StringLeq(a: string, b: string) {
    |a| == 0 || (|b| > 0 && (a[0] < b[0] || (a[0] == b[0] && StringLeq(a[1..], b[1..]))))
  }

  lemma {:induction false} StringLeqTotal(a: string, b: string)
    ensures StringLeq(a, b) || StringLeq(b, a)
  {
    if |a| > 0 && |b| > 0 && a[0] == b[0] {
      StringLeqTotal(a[1..], b[1..]);
    }
  }

  lemma {:induction false} StringLeqAntisymmetric(a: string, b: string)
    requires StringLeq(a, b) && StringLeq(b, a)
    ensures a == b
  {
    if |a| > 0 && |b| > 0 {
      StringLeqAntisymmetric(a[1..], b[1..]);
      assert a == [a[0]] + a[1..] && b == [b[0]] + b[1..];
    }
  }

  lemma {:induction false} StringLeqTransitive(a: string, b: string, c: string)
    requires StringLeq(a, b) && StringLeq(b, c)
    ensures StringLeq(a, c)
  {
    if |a| > 0 && a[0] == b[0] == c[0] {
      StringLeqTransitive(a[1..], b[1..], c[1..]);
    }
  }

  /** Lexicographic order outright: a prefix, or smaller at the first place where the two differ. */
  lemma {:induction false} StringLeqIff(a: string, b: string)
    ensures StringLeq(a, b) <==>
              a <= b || exists k :: 0 <= k < |a| && k < |b| && a[..k] == b[..k] && a[k] < b[k]
  {
    if |a| > 0 && |b| > 0 && a[0] == b[0] {
      StringLeqIff(a[1..], b[1..]);
      assert a == [a[0]] + a[1..] && b == [b[0]] + b[1..];
      if k :| 0 <= k < |a[1..]| && k < |b[1..]| && a[1..][..k] == b[1..][..k] && a[1..][k] < b[1..][k] {
        assert a[..k + 1] == [a[0]] + a[1..][..k] && b[..k + 1] == [b[0]] + b[1..][..k];
        assert a[k + 1] < b[k + 1];
      }
      if k :| 0 <= k < |a| && k < |b| && a[..k] == b[..k] && a[k] < b[k] {
        assert k > 0;
        assert a[1..][..k - 1] == a[..k][1..] && b[1..][..k - 1] == b[..k][1..];
        assert a[1..][k - 1] < b[1..][k - 1];
      }
    } else if |a| > 0 && |b| > 0 && a[0] < b[0] {
      assert a[..0] == b[..0];
    }
  }

  /** `s` is what `all` holds at the places `at`, in order. */
  ghost predicate Picks<T>(s: seq<T>, all: seq<T>, at: seq<nat>) {
    && |at| == |s|
    && (forall i :: 0 <= i < |s| ==> at[i] < |all| && s[i] == all[at[i]])
    && (forall i, j :: 0 <= i < j < |s| ==> at[i] < at[j])
  }

  lemma PicksLonger<T>(s: seq<T>, all: seq<T>, at: seq<nat>, x: T)
    requires Picks(s, all, at)
    ensures Picks(s, all + [x], at) && Picks(s + [x], all + [x], at + [|all|])
  {
  }

  ghost predicate SortedBy<T>(s: seq<T>, key: T -> string) {
    forall i, j :: 0 <= i < j < |s| ==> StringLeq(key(s[i]), key(s[j]))
  }

  /** Distinct elements of `s` have distinct keys. */
  ghost predicate KeysDecide<T(!new)>(s: seq<T>, key: T -> string) {
    forall x, y :: x in s && y in s && key(x) == key(y) ==> x == y
  }

  function Insert<T>(x: T, s: seq<T>, key: T -> string): (r: seq<T>)
    ensures multiset(r) == multiset(s) + multiset{x}
  {
    if |s| == 0 then [x]
    else if StringLeq(key(x), key(s[0])) then [x] + s
    else
      assert s == [s[0]] + s[1..];
      [s[0]] + Insert(x, s[1..], key)
  }

  lemma InsertMembers<T>(x: T, s: seq<T>, key: T -> string, y: T)
    requires y in Insert(x, s, key)
    ensures y == x || y in s
  {
    assert y in multiset(Insert(x, s, key));
    assert y in multiset(s) + multiset{x};
  }

  lemma {:induction false} InsertSorted<T>(x: T, s: seq<T>, key: T -> string)
    requires SortedBy(s, key)
    ensures SortedBy(Insert(x, s, key), key)
  {
    if |s| > 0 {
      var r := Insert(x, s, key);
      if StringLeq(key(x), key(s[0])) {
        forall j | 0 <= j < |s| ensures StringLeq(key(x), key(s[j])) {
          if j > 0 { StringLeqTransitive(key(x), key(s[0]), key(s[j])); }
        }
      } else {
        StringLeqTotal(key(x), key(s[0]));
        InsertSorted(x, s[1..], key);
        var t := Insert(x, s[1..], key);
        forall j | 0 <= j < |t| ensures StringLeq(key(s[0]), key(t[j])) {
          InsertMembers(x, s[1..], key, t[j]);
        }
      }
    }
  }

  /** A sorting routine; Go's own is unstable, so callers use only this contract. */
  method Sort<T>(s: seq<T>, key: T -> string) returns (r: seq<T>)
    ensures multiset(r) == multiset(s)
    ensures SortedBy(r, key)
  {
    r := [];
    for i := 0 to |s|
      invariant multiset(r) == multiset(s[..i])
      invariant SortedBy(r, key)
    {
      InsertSorted(s[i], r, key);
      r := Insert(s[i], r, key);
      assert s[..i + 1] == s[..i] + [s[i]];
    }
    assert s[..|s|] == s;
  }

  /** The first of a sorted sequence has the least key. */
  lemma HeadLeast<T>(s: seq<T>, key: T -> string, x: T)
    requires SortedBy(s, key) && x in s
    ensures StringLeq(key(s[0]), key(x))
  {
    var i :| 0 <= i < |s| && s[i] == x;
    StringLeqTotal(key(x), key(x));
  }

  lemma SameHead<T(!new)>(s: seq<T>, t: seq<T>, key: T -> string)
    requires |s| > 0 && |t| > 0
    requires SortedBy(s, key) && SortedBy(t, key)
    requires multiset(s) == multiset(t)
    requires KeysDecide(s, key)
    ensures s[0] == t[0]
  {
    assert s[0] in multiset(t) && t[0] in multiset(s);
    HeadLeast(s, key, t[0]);
    HeadLeast(t, key, s[0]);
    StringLeqAntisymmetric(key(s[0]), key(t[0]));
  }

  lemma TailMultiset<T>(s: seq<T>)
    requires |s| > 0
    ensures multiset(s[1..]) == multiset(s) - multiset{s[0]}
  {
    assert s == [s[0]] + s[1..];
  }

  lemma SameTail<T>(s: seq<T>, t: seq<T>)
    requires |s| > 0 && |t| > 0 && s[0] == t[0] && multiset(s) == multiset(t)
    ensures multiset(s[1..]) == multiset(t[1..])
  {
    TailMultiset(s);
    TailMultiset(t);
  }

  lemma SameLength<T>(s: seq<T>, t: seq<T>)
    requires multiset(s) == multiset(t)
    ensures |s| == |t|
  {
    assert |multiset(s)| == |s| && |multiset(t)| == |t|;
  }

  /** Two sorted arrangements of the same elements agree when the key decides the element. */
  lemma {:induction false} SortedUnique<T(!new)>(s: seq<T>, t: seq<T>, key: T -> string)
    requires SortedBy(s, key) && SortedBy(t, key)
    requires multiset(s) == multiset(t)
    requires KeysDecide(s, key)
    ensures s == t
  {
    SameLength(s, t);
    if |s| > 0 {
      SameHead(s, t, key);
      SameTail(s, t);
      SortedUnique(s[1..], t[1..], key);
      assert s == [s[0]] + s[1..] && t == [t[0]] + t[1..];
    }
  }
}
