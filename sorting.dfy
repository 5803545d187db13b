/** `Array.prototype.sort` with a three-way comparator on one key: a stable sort, so
    entries whose keys tie keep their input order. Keys are strings (compared
    lexicographically, as JavaScript's `<` and `>` compare strings) or numbers. */
module Sorting {
  import opened Common

  /** JavaScript's relational comparison of two strings: lexicographic by character,
      a proper prefix coming first. */
  predicate StrLess(a: string, b: string)
  {
    if |a| == 0 then |b| > 0
    else if |b| == 0 then false
    else if a[0] != b[0] then a[0] < b[0]
    else StrLess(a[1..], b[1..])
  }

  lemma {:induction false} StrLessIrreflexive(a: string)
    ensures !StrLess(a, a)
  {
    if |a| > 0 {
      StrLessIrreflexive(a[1..]);
    }
  }

  lemma {:induction false} StrLessAsymmetric(a: string, b: string)
    ensures StrLess(a, b) ==> !StrLess(b, a)
  {
    if |a| > 0 && |b| > 0 && a[0] == b[0] {
      StrLessAsymmetric(a[1..], b[1..]);
    }
  }

  lemma {:induction false} StrLessTransitive(a: string, b: string, c: string)
    ensures StrLess(a, b) && StrLess(b, c) ==> StrLess(a, c)
  {
    if |a| > 0 && |b| > 0 && |c| > 0 && a[0] == b[0] && b[0] == c[0] {
      StrLessTransitive(a[1..], b[1..], c[1..]);
    }
  }

  /** Two different strings are ordered one way or the other. */
  lemma {:induction false} StrLessTotal(a: string, b: string)
    ensures a != b ==> StrLess(a, b) || StrLess(b, a)
  {
    if |a| > 0 && |b| > 0 && a[0] == b[0] {
      assert a == [a[0]] + a[1..] && b == [b[0]] + b[1..];
      StrLessTotal(a[1..], b[1..]);
    }
  }

  /** The value a row is sorted by. */
  datatype SortKey = Text(s: string) | Num(x: real)

  /** `a < b` on two keys. Number keys are placed before string keys, which only makes
      the order total; one sort never mixes the two kinds. */
  predicate KeyLess(a: SortKey, b: SortKey)
  {
    match (a, b)
    case (Text(s), Text(t)) => StrLess(s, t)
    case (Num(x), Num(y)) => x < y
    case (Num(_), Text(_)) => true
    case (Text(_), Num(_)) => false
  }

  lemma KeyLessIsStrictTotalOrder(a: SortKey, b: SortKey, c: SortKey)
    ensures !KeyLess(a, a)
    ensures KeyLess(a, b) ==> !KeyLess(b, a)
    ensures KeyLess(a, b) && KeyLess(b, c) ==> KeyLess(a, c)
    ensures a != b ==> KeyLess(a, b) || KeyLess(b, a)
  {
    if a.Text? && b.Text? && c.Text? {
      StrLessIrreflexive(a.s);
      StrLessAsymmetric(a.s, b.s);
      StrLessTransitive(a.s, b.s, c.s);
      StrLessTotal(a.s, b.s);
    } else if a.Text? {
      StrLessIrreflexive(a.s);
      if b.Text? {
        StrLessAsymmetric(a.s, b.s);
        StrLessTotal(a.s, b.s);
      }
    }
  }

  /** The comparator's verdict that `a` goes strictly before `b`: -1 ascending, or +1
      descending when the key comparison is reversed. Tied keys compare as 0. */
  predicate Before<T>(key: T -> SortKey, descending: bool, a: T, b: T)
  {
    if descending then KeyLess(key(b), key(a)) else KeyLess(key(a), key(b))
  }

  lemma BeforeAsymmetric<T>(key: T -> SortKey, descending: bool, a: T, b: T)
    ensures Before(key, descending, a, b) ==> !Before(key, descending, b, a)
  {
    KeyLessIsStrictTotalOrder(key(a), key(b), key(a));
  }

  /** An element placed before `c` is placed before or after any `b` in between:
      "not before" is transitive. */
  lemma BeforeSplits<T>(key: T -> SortKey, descending: bool, a: T, b: T, c: T)
    ensures Before(key, descending, a, c) ==> Before(key, descending, a, b) || Before(key, descending, b, c)
  {
    var ka, kb, kc := key(a), key(b), key(c);
    if descending {
      KeyLessIsStrictTotalOrder(kc, kb, ka);
      KeyLessIsStrictTotalOrder(kb, kc, ka);
    } else {
      KeyLessIsStrictTotalOrder(ka, kb, kc);
      KeyLessIsStrictTotalOrder(kb, ka, kc);
    }
  }

  /** No later element goes strictly before an earlier one. */
  predicate SortedBy<T>(s: seq<T>, key: T -> SortKey, descending: bool)
  {
    forall i, j :: 0 <= i < j < |s| ==> !Before(key, descending, s[j], s[i])
  }

  /** Inserts `x` ahead of the first element it does not come after, so it stays ahead
      of the elements whose keys tie with its own. */
  function Insert<T>(x: T, t: seq<T>, key: T -> SortKey, descending: bool): seq<T>
  {
    if |t| == 0 then [x]
    else if Before(key, descending, t[0], x) then [t[0]] + Insert(x, t[1..], key, descending)
    else [x] + t
  }

  lemma {:induction false} InsertElements<T>(x: T, t: seq<T>, key: T -> SortKey, descending: bool)
    ensures multiset(Insert(x, t, key, descending)) == multiset(t) + multiset{x}
  {
    if |t| > 0 {
      assert t == [t[0]] + t[1..];
      if Before(key, descending, t[0], x) {
        InsertElements(x, t[1..], key, descending);
      }
    }
  }

  lemma {:induction false} InsertSorted<T>(x: T, t: seq<T>, key: T -> SortKey, descending: bool)
    requires SortedBy(t, key, descending)
    ensures SortedBy(Insert(x, t, key, descending), key, descending)
  {
    if |t| > 0 {
      var r := Insert(x, t, key, descending);
      if Before(key, descending, t[0], x) {
        var rest := Insert(x, t[1..], key, descending);
        InsertSorted(x, t[1..], key, descending);
        InsertElements(x, t[1..], key, descending);
        BeforeAsymmetric(key, descending, t[0], x);
        forall j | 0 <= j < |rest|
          ensures !Before(key, descending, rest[j], t[0])
        {
          assert rest[j] in multiset(rest);
          assert rest[j] == x || rest[j] in t[1..];
        }
      } else {
        forall j | 0 <= j < |t|
          ensures !Before(key, descending, t[j], x)
        {
          BeforeSplits(key, descending, t[j], t[0], x);
        }
      }
    }
  }

  /** The comparator sort: insertion of each element, last to first, into the sorted
      rest. */
  function Sort<T>(s: seq<T>, key: T -> SortKey, descending: bool): (r: seq<T>)
  {
    if |s| == 0 then [] else Insert(s[0], Sort(s[1..], key, descending), key, descending)
  }

  /** The result is ordered by the key and is a permutation of the input. */
  lemma {:induction false} SortCorrect<T>(s: seq<T>, key: T -> SortKey, descending: bool)
    ensures SortedBy(Sort(s, key, descending), key, descending)
    ensures multiset(Sort(s, key, descending)) == multiset(s)
  {
    if |s| > 0 {
      SortCorrect(s[1..], key, descending);
      InsertSorted(s[0], Sort(s[1..], key, descending), key, descending);
      InsertElements(s[0], Sort(s[1..], key, descending), key, descending);
      assert s == [s[0]] + s[1..];
    }
  }

  /** Elements whose keys all tie stay in input order. */
  lemma {:induction false} SortTiesKeepOrder<T>(s: seq<T>, key: T -> SortKey, descending: bool)
    requires forall i :: 0 <= i < |s| ==> key(s[i]) == key(s[0])
    ensures Sort(s, key, descending) == s
  {
    if |s| > 0 {
      var t := s[1..];
      SortTiesKeepOrder(t, key, descending);
      KeyLessIsStrictTotalOrder(key(s[0]), key(s[0]), key(s[0]));
      if |t| > 0 {
        assert key(t[0]) == key(s[0]);
      }
    }
  }

  function KeyIs<T>(key: T -> SortKey, k: SortKey): T -> bool
  {
    (x: T) => key(x) == k
  }

  /** Insertion passes only elements whose keys differ from the inserted one's, so among
      the elements with any one key it lands first. */
  lemma {:induction false} InsertKeepsTies<T>(x: T, t: seq<T>, key: T -> SortKey, descending: bool, k: SortKey)
    ensures Filter(Insert(x, t, key, descending), KeyIs(key, k))
            == (if key(x) == k then [x] else []) + Filter(t, KeyIs(key, k))
  {
    var p := KeyIs(key, k);
    var head := if key(x) == k then [x] else [];
    if |t| == 0 {
      assert Filter([x], p) == head + Filter([x][1..], p);
    } else if Before(key, descending, t[0], x) {
      var rest := Insert(x, t[1..], key, descending);
      var r := [t[0]] + rest;
      var h0 := if p(t[0]) then [t[0]] else [];
      InsertKeepsTies(x, t[1..], key, descending, k);
      assert r[0] == t[0] && r[1..] == rest;
      assert Filter(r, p) == h0 + Filter(rest, p);
      assert Filter(t, p) == h0 + Filter(t[1..], p);
      KeyLessIsStrictTotalOrder(key(x), key(x), key(x));
      assert key(x) == k ==> h0 == [];
    } else {
      assert ([x] + t)[1..] == t;
    }
  }

  /** The sort is stable: for every key, the elements with that key come out in their
      input order. */
  lemma {:induction false} SortStable<T>(s: seq<T>, key: T -> SortKey, descending: bool, k: SortKey)
    ensures Filter(Sort(s, key, descending), KeyIs(key, k)) == Filter(s, KeyIs(key, k))
  {
    if |s| > 0 {
      SortStable(s[1..], key, descending, k);
      InsertKeepsTies(s[0], Sort(s[1..], key, descending), key, descending, k);
    }
  }

  /** Filtering a sorted list keeps it sorted. */
  lemma {:induction false} FilterKeepsSorted<T>(s: seq<T>, p: T -> bool, key: T -> SortKey, descending: bool)
    requires SortedBy(s, key, descending)
    ensures SortedBy(Filter(s, p), key, descending)
  {
    if |s| > 0 {
      var rest := Filter(s[1..], p);
      FilterKeepsSorted(s[1..], p, key, descending);
      FilterByIndex(s[1..], p);
      forall j | 0 <= j < |rest|
        ensures !Before(key, descending, rest[j], s[0])
      {
        assert rest[j] in s[1..];
      }
    }
  }
}
