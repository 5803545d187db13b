/** Shared vocabulary of the model: optional values, HTTP-style responses and the
    sequence helpers (first match, sums, counts, filters, ordered de-duplication,
    substring search) that the server controllers and the client code both use. */
module Common {

  /** A value that may be absent: `None` stands for a missing JSON field, `undefined`
      or `null`. */
  datatype Option<T> = None | Some(value: T) {
    function GetOr(default: T): T
    {
      if Some? then value else default
    }
  }

  /** Document ids (Mongo ObjectIds) and sub-document ids. */
  type Id = nat

  /** An HTTP status code and the text of the JSON body's `message` (or `error`) field.
      Handlers whose success body is a document rather than a message use "". */
  datatype Response = Response(status: int, message: string)

  /** JavaScript truthiness of an optional string: present and not "". */
  predicate Truthy(s: Option<string>)
  {
    s.Some? && s.value != ""
  }

  /** JavaScript truthiness of an optional number: present and not 0 (NaN is not modelled). */
  predicate TruthyNum(x: Option<real>)
  {
    x.Some? && x.value != 0.0
  }

  /** Index of the first element satisfying `p`, as Mongo's `findOne` returns the first
      matching document in natural (insertion) order. */
  function FindFirst<T>(s: seq<T>, p: T -> bool): (r: Option<nat>)
    ensures r.Some? ==> r.value < |s| && p(s[r.value])
    ensures r.Some? ==> forall j :: 0 <= j < r.value ==> !p(s[j])
    ensures r.None? <==> forall j :: 0 <= j < |s| ==> !p(s[j])
  {
    if |s| == 0 then None
    else if p(s[0]) then Some(0)
    else match FindFirst(s[1..], p)
      case None => None
      case Some(k) => Some(k + 1)
  }

  /** Sum of `f` over a sequence, as `reduce((acc, x) => acc + f(x), 0)`. */
  function Sum<T>(s: seq<T>, f: T -> real): real
  {
    if |s| == 0 then 0.0 else f(s[0]) + Sum(s[1..], f)
  }

  lemma {:induction false} SumAppend<T>(a: seq<T>, b: seq<T>, f: T -> real)
    ensures Sum(a + b, f) == Sum(a, f) + Sum(b, f)
  {
    if |a| == 0 {
      assert a + b == b;
    } else {
      assert (a + b)[1..] == a[1..] + b;
      SumAppend(a[1..], b, f);
    }
  }

  lemma {:induction false} SumSingleton<T>(x: T, f: T -> real)
    ensures Sum([x], f) == f(x)
  {
    assert [x][1..] == [];
  }

  /** `f` where `p` holds and 0 elsewhere. */
  function Masked<T>(p: T -> bool, f: T -> real): T -> real
  {
    (x: T) => if p(x) then f(x) else 0.0
  }

  /** Summing over the kept elements is summing over all of them with the others
      counted as 0. */
  lemma {:induction false} SumFilter<T>(s: seq<T>, p: T -> bool, f: T -> real)
    ensures Sum(Filter(s, p), f) == Sum(s, Masked(p, f))
  {
    if |s| > 0 {
      SumFilter(s[1..], p, f);
      var head := if p(s[0]) then [s[0]] else [];
      SumAppend(head, Filter(s[1..], p), f);
      if p(s[0]) {
        SumSingleton(s[0], f);
      }
    }
  }

  /** Replacing one element shifts the sum by the difference of the two terms. */
  lemma {:induction false} SumUpdate<T>(s: seq<T>, i: nat, x: T, f: T -> real)
    requires i < |s|
    ensures Sum(s[i := x], f) == Sum(s, f) - f(s[i]) + f(x)
  {
    if i == 0 {
      assert s[i := x][1..] == s[1..];
    } else {
      assert s[i := x][1..] == s[1..][i - 1 := x];
      SumUpdate(s[1..], i - 1, x, f);
    }
  }

  /** Dropping the element at `i` subtracts its term. */
  lemma {:induction false} SumRemoveAt<T>(s: seq<T>, i: nat, f: T -> real)
    requires i < |s|
    ensures Sum(s[..i] + s[i + 1..], f) == Sum(s, f) - f(s[i])
  {
    var front, back := s[..i], s[i + 1..];
    var rest := [s[i]] + back;
    assert s == front + rest;
    SumAppend(front, rest, f);
    SumAppend([s[i]], back, f);
    SumSingleton(s[i], f);
    SumAppend(front, back, f);
  }

  /** The sequence without its element at `k` (a delete by id). */
  function RemoveAt<T>(s: seq<T>, k: nat): (r: seq<T>)
    requires k < |s|
    ensures |r| == |s| - 1
    ensures forall i :: 0 <= i < k ==> r[i] == s[i]
    ensures forall i :: k <= i < |r| ==> r[i] == s[i + 1]
  {
    s[..k] + s[k + 1..]
  }

  /** `s.map(e => p(e) ? x : e)`: every element satisfying `p` replaced by `x`, the others
      kept in place. */
  function ReplaceWhere<T>(s: seq<T>, p: T -> bool, x: T): (r: seq<T>)
    ensures |r| == |s|
    ensures forall i :: 0 <= i < |s| && p(s[i]) ==> r[i] == x
    ensures forall i :: 0 <= i < |s| && !p(s[i]) ==> r[i] == s[i]
  {
    seq(|s|, i requires 0 <= i < |s| => if p(s[i]) then x else s[i])
  }

  /** Elements satisfying `p`, in their original order (JavaScript `filter`). */
  function Filter<T>(s: seq<T>, p: T -> bool): (r: seq<T>)
    ensures |r| <= |s|
  {
    if |s| == 0 then []
    else (if p(s[0]) then [s[0]] else []) + Filter(s[1..], p)
  }

  /** An element is kept exactly when it occurs and satisfies the predicate. */
  lemma {:induction false} FilterMembership<T>(s: seq<T>, p: T -> bool)
    ensures forall x :: x in Filter(s, p) <==> x in s && p(x)
  {
    if |s| > 0 {
      FilterMembership(s[1..], p);
      assert s == [s[0]] + s[1..];
    }
  }

  /** The same facts by position: every kept element occurs in the input and satisfies
      `p`, and every input element that satisfies `p` is kept. */
  lemma FilterByIndex<T>(s: seq<T>, p: T -> bool)
    ensures forall i :: 0 <= i < |Filter(s, p)| ==> Filter(s, p)[i] in s && p(Filter(s, p)[i])
    ensures forall i :: 0 <= i < |s| && p(s[i]) ==> s[i] in Filter(s, p)
  {
    FilterMembership(s, p);
  }

  /** `r` lists, in order, exactly the elements of `s` that satisfy `p`: entry `i` of `r`
      is the element at position `idx[i]` of `s`, the positions increase, and they are
      exactly the positions whose element satisfies `p`. */
  ghost predicate SelectedAt<T>(r: seq<T>, s: seq<T>, p: T -> bool, idx: seq<nat>)
  {
    && |idx| == |r|
    && (forall i :: 0 <= i < |idx| ==> idx[i] < |s| && r[i] == s[idx[i]])
    && (forall i, j :: 0 <= i < j < |idx| ==> idx[i] < idx[j])
    && (forall j :: 0 <= j < |s| ==> (p(s[j]) <==> j in idx))
  }

  function Shifted(idx: seq<nat>): (r: seq<nat>)
    ensures |r| == |idx| && forall i :: 0 <= i < |idx| ==> r[i] == idx[i] + 1
  {
    seq(|idx|, i requires 0 <= i < |idx| => idx[i] + 1)
  }

  /** The positions of `s` whose element satisfies `p`, in increasing order. */
  function KeptPositions<T>(s: seq<T>, p: T -> bool): seq<nat>
  {
    if |s| == 0 then []
    else (if p(s[0]) then [0] else []) + Shifted(KeptPositions(s[1..], p))
  }

  /** `Filter` keeps order and multiplicity: its result is the selection of the positions
      that satisfy the predicate. */
  lemma {:induction false} FilterSelects<T>(s: seq<T>, p: T -> bool)
    ensures SelectedAt(Filter(s, p), s, p, KeptPositions(s, p))
  {
    if |s| > 0 {
      FilterSelects(s[1..], p);
      SelectedCons(s[0], s[1..], p, Filter(s[1..], p), KeptPositions(s[1..], p));
      assert s == [s[0]] + s[1..];
    }
  }

  /** A selection from `t` extends to `[x] + t`, taking `x` first when it satisfies `p`. */
  lemma SelectedCons<T>(x: T, t: seq<T>, p: T -> bool, ft: seq<T>, it: seq<nat>)
    requires SelectedAt(ft, t, p, it)
    ensures SelectedAt((if p(x) then [x] else []) + ft, [x] + t, p, (if p(x) then [0] else []) + Shifted(it))
  {
    var head := if p(x) then [0] else [];
    ConsEntries(x, t, (if p(x) then [x] else []), ft, head, it);
    ConsIncreasing(head, it);
    ConsPositions(x, t, p, head, it);
  }

  lemma ConsEntries<T>(x: T, t: seq<T>, rh: seq<T>, ft: seq<T>, head: seq<nat>, it: seq<nat>)
    requires |it| == |ft| && forall i :: 0 <= i < |it| ==> it[i] < |t| && ft[i] == t[it[i]]
    requires (head == [] && rh == []) || (head == [0] && rh == [x])
    ensures var idx, r := head + Shifted(it), rh + ft;
            |idx| == |r| && forall i :: 0 <= i < |idx| ==> idx[i] < |[x] + t| && r[i] == ([x] + t)[idx[i]]
  {
    var s, idx, r, h := [x] + t, head + Shifted(it), rh + ft, |head|;
    forall i | 0 <= i < |idx|
      ensures idx[i] < |s| && r[i] == s[idx[i]]
    {
      if i >= h {
        assert idx[i] == it[i - h] + 1 && r[i] == ft[i - h];
        assert s[it[i - h] + 1] == t[it[i - h]];
      }
    }
  }

  lemma ConsIncreasing(head: seq<nat>, it: seq<nat>)
    requires forall i, j :: 0 <= i < j < |it| ==> it[i] < it[j]
    requires head == [] || head == [0]
    ensures var idx := head + Shifted(it);
            forall i, j :: 0 <= i < j < |idx| ==> idx[i] < idx[j]
  {
    var idx, h := head + Shifted(it), |head|;
    forall i, j | 0 <= i < j < |idx|
      ensures idx[i] < idx[j]
    {
      assert idx[j] == it[j - h] + 1;
      if i >= h {
        assert idx[i] == it[i - h] + 1;
      }
    }
  }

  lemma ConsPositions<T>(x: T, t: seq<T>, p: T -> bool, head: seq<nat>, it: seq<nat>)
    requires forall j :: 0 <= j < |t| ==> (p(t[j]) <==> j in it)
    requires head == if p(x) then [0] else []
    ensures var s, idx := [x] + t, head + Shifted(it);
            forall j :: 0 <= j < |s| ==> (p(s[j]) <==> j in idx)
  {
    var s, sh := [x] + t, Shifted(it);
    var idx := head + sh;
    ShiftedIn(it);
    forall j | 0 <= j < |s|
      ensures p(s[j]) <==> j in idx
    {
      assert j in idx <==> j in head || j in sh;
      if j > 0 {
        assert s[j] == t[j - 1];
        assert j in sh <==> (j - 1) in it;
        assert j !in head;
      }
    }
  }

  /** Shifting moves each position up by one and never yields 0. */
  lemma ShiftedIn(idx: seq<nat>)
    ensures forall j: nat :: j + 1 in Shifted(idx) <==> j in idx
    ensures 0 !in Shifted(idx)
  {
    var sh := Shifted(idx);
    forall j: nat
      ensures j + 1 in sh <==> j in idx
    {
      if j in idx {
        var i :| 0 <= i < |idx| && idx[i] == j;
        assert sh[i] == j + 1;
      }
    }
  }

  /** An element that fails the predicate makes the result shorter than the input. */
  lemma {:induction false} FilterShorter<T>(s: seq<T>, p: T -> bool, k: nat)
    requires k < |s| && !p(s[k])
    ensures |Filter(s, p)| < |s|
  {
    if k > 0 {
      FilterShorter(s[1..], p, k - 1);
    }
  }

  /** Filtering twice is filtering once by both predicates. */
  lemma {:induction false} FilterTwice<T>(s: seq<T>, p: T -> bool, q: T -> bool, pq: T -> bool)
    requires forall x :: pq(x) <==> p(x) && q(x)
    ensures Filter(Filter(s, p), q) == Filter(s, pq)
  {
    if |s| > 0 {
      FilterTwice(s[1..], p, q, pq);
      var head := if p(s[0]) then [s[0]] else [];
      FilterAppend(head, Filter(s[1..], p), q);
      assert head == [] || head[1..] == [];
    }
  }

  lemma {:induction false} FilterAppend<T>(a: seq<T>, b: seq<T>, p: T -> bool)
    ensures Filter(a + b, p) == Filter(a, p) + Filter(b, p)
  {
    if |a| == 0 {
      assert a + b == b;
    } else {
      var head := if p(a[0]) then [a[0]] else [];
      assert (a + b)[1..] == a[1..] + b;
      assert Filter(a + b, p) == head + Filter(a[1..] + b, p);
      FilterAppend(a[1..], b, p);
      assert head + (Filter(a[1..], p) + Filter(b, p)) == (head + Filter(a[1..], p)) + Filter(b, p);
    }
  }

  /** Filtering by a predicate every element satisfies leaves the sequence unchanged. */
  lemma {:induction false} FilterAll<T>(s: seq<T>, p: T -> bool)
    requires forall i :: 0 <= i < |s| ==> p(s[i])
    ensures Filter(s, p) == s
  {
    if |s| > 0 {
      FilterAll(s[1..], p);
    }
  }

  /** When exactly the element at `k` fails the predicate, filtering removes just it. */
  lemma {:induction false} FilterDropsOne<T>(s: seq<T>, k: nat, p: T -> bool)
    requires k < |s| && !p(s[k])
    requires forall i :: 0 <= i < |s| && i != k ==> p(s[i])
    ensures Filter(s, p) == RemoveAt(s, k)
  {
    var front, back := s[..k], s[k + 1..];
    assert Filter(front, p) == front by {
      forall i | 0 <= i < |front|
        ensures p(front[i])
      {
        assert front[i] == s[i];
      }
      FilterAll(front, p);
    }
    assert Filter(back, p) == back by {
      forall i | 0 <= i < |back|
        ensures p(back[i])
      {
        assert back[i] == s[k + 1 + i];
      }
      FilterAll(back, p);
    }
    assert Filter([s[k]], p) == [] by {
      assert [s[k]][1..] == [];
    }
    assert s == front + ([s[k]] + back);
    FilterAppend(front, [s[k]] + back, p);
    FilterAppend([s[k]], back, p);
    assert [] + back == back;
  }

  /** Number of elements satisfying `p` (Mongo `countDocuments(filter)`). */
  function Count<T>(s: seq<T>, p: T -> bool): (n: nat)
    ensures n <= |s|
    ensures n == 0 <==> forall j :: 0 <= j < |s| ==> !p(s[j])
  {
    if |s| == 0 then 0
    else (if p(s[0]) then 1 else 0) + Count(s[1..], p)
  }

  /** Two complementary filters split a collection between them. */
  lemma {:induction false} CountPartition<T>(s: seq<T>, p: T -> bool, q: T -> bool)
    requires forall x :: p(x) <==> !q(x)
    ensures Count(s, p) + Count(s, q) == |s|
  {
    if |s| > 0 {
      CountPartition(s[1..], p, q);
    }
  }

  predicate NoDuplicates<T(==)>(s: seq<T>)
  {
    forall i, j :: 0 <= i < j < |s| ==> s[i] != s[j]
  }

  /** Distinct elements in order of first occurrence: `Array.from(new Set(s))`. */
  function Dedup<T(==)>(s: seq<T>): seq<T>
  {
    if |s| == 0 then []
    else
      var prev := Dedup(s[..|s| - 1]);
      var x := s[|s| - 1];
      if x in prev then prev else prev + [x]
  }

  /** The de-duplicated sequence has no repeats and the same elements as its input. */
  lemma {:induction false} DedupProperties<T>(s: seq<T>)
    ensures NoDuplicates(Dedup(s))
    ensures forall x :: x in Dedup(s) <==> x in s
  {
    if |s| > 0 {
      var init := s[..|s| - 1];
      DedupProperties(init);
      assert s == init + [s[|s| - 1]];
    }
  }

  /** De-duplicating a longer sequence only appends: earlier first occurrences keep
      their positions. */
  lemma {:induction false} DedupPrefix<T>(a: seq<T>, b: seq<T>)
    ensures Dedup(a) <= Dedup(a + b)
  {
    if |b| > 0 {
      var ab := a + b;
      assert ab[..|ab| - 1] == a + b[..|b| - 1];
      DedupPrefix(a, b[..|b| - 1]);
    } else {
      assert a + b == a;
    }
  }

  /** A sequence without repeats is its own de-duplication. */
  lemma {:induction false} DedupOfDistinct<T>(s: seq<T>)
    requires NoDuplicates(s)
    ensures Dedup(s) == s
  {
    if |s| > 0 {
      var init := s[..|s| - 1];
      DedupOfDistinct(init);
      assert s[|s| - 1] !in init;
      assert s == init + [s[|s| - 1]];
    }
  }

  /** Substring search, as `s.includes(sub)`. */
  predicate Contains(s: string, sub: string)
  {
    sub <= s || (|s| > 0 && Contains(s[1..], sub))
  }

  /** Every string includes the empty string. */
  lemma ContainsEmpty(s: string)
    ensures Contains(s, "")
  {
  }

  /** `toLowerCase` on the ASCII letters (no other case mapping is modelled). */
  function LowerChar(c: char): char
  {
    if 'A' <= c <= 'Z' then (c as int + 32) as char else c
  }

  function Lower(s: string): (r: string)
    ensures |r| == |s|
  {
    seq(|s|, i requires 0 <= i < |s| => LowerChar(s[i]))
  }

  lemma LowerEmpty()
    ensures Lower("") == ""
  {
  }

  function Digit(d: nat): char
    requires d < 10
  {
    "0123456789"[d]
  }

  /** Decimal rendering of an id inside a message template. */
  function NatToString(n: nat): (r: string)
    ensures |r| > 0
    decreases n
  {
    if n < 10 then [Digit(n)] else NatToString(n / 10) + [Digit(n % 10)]
  }

  predicate IsDigit(c: char)
  {
    '0' <= c <= '9'
  }
}
