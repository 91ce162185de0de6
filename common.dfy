/** Values as the JavaScript services see them, and sequence helpers shared by the other modules. */
module Common {

  datatype Option<+T> = None | Some(value: T)

  /** A property of a JSON document or of a request's query: absent, `null`, or a string. */
  datatype Prop = Undefined | Null | Text(s: string)

  /** JavaScript truthiness of such a property: only a non-empty string is truthy. */
  predicate Truthy(p: Prop) {
    p.Text? && p.s != ""
  }

  /** `String(p)`, which is what `+` does to a property when it builds a string. */
  function JsString(p: Prop): string {
    match p
    case Undefined => "undefined"
    case Null => "null"
    case Text(s) => s
  }

  /** `a || b` on properties: the first operand when it is truthy, else the second. */
  function JsOr(a: Prop, b: Prop): (r: Prop)
    ensures Truthy(r) <==> Truthy(a) || Truthy(b)
  {
    if Truthy(a) then a else b
  }

  /** `p ?? d`: both `undefined` and `null` fall back to the default. */
  function Coalesce(p: Prop, d: string): (r: string)
    ensures p.Text? ==> r == p.s
    ensures !p.Text? ==> r == d
  {
    if p.Text? then p.s else d
  }

  /** `Array.prototype.filter` with a pure predicate. */
  function Filter<T>(p: T -> bool, s: seq<T>): (r: seq<T>)
    ensures |r| <= |s|
    ensures forall x :: x in r ==> x in s && p(x)
    decreases |s|
  {
    if |s| == 0 then []
    else if p(s[0]) then [s[0]] + Filter(p, s[1..])
    else Filter(p, s[1..])
  }

  /** Every element of `s` that satisfies `p` is kept. */
  lemma {:induction false} FilterKeeps<T>(p: T -> bool, s: seq<T>, x: T)
    requires x in s && p(x)
    ensures x in Filter(p, s)
    decreases |s|
  {
    if s[0] != x {
      FilterKeeps(p, s[1..], x);
    }
  }

  /** `a` is `b` with some elements dropped and the rest kept in order. */
  predicate IsSubsequence<T(==)>(a: seq<T>, b: seq<T>)
    decreases |b|
  {
    if |a| == 0 then true
    else if |b| == 0 then false
    else if a[0] == b[0] then IsSubsequence(a[1..], b[1..])
    else IsSubsequence(a, b[1..])
  }

  lemma {:induction false} FilterIsSubsequence<T>(p: T -> bool, s: seq<T>)
    ensures IsSubsequence(Filter(p, s), s)
    decreases |s|
  {
    if |s| > 0 {
      FilterIsSubsequence(p, s[1..]);
      if !p(s[0]) {
        SubsequenceOfTail(Filter(p, s[1..]), s);
      }
    }
  }

  lemma {:induction false} SubsequenceOfTail<T>(a: seq<T>, b: seq<T>)
    requires |b| > 0 && IsSubsequence(a, b[1..])
    ensures IsSubsequence(a, b)
    decreases |b|, 0
  {
    if |a| > 0 && a[0] == b[0] {
      SubsequenceDropFirst(a, b[1..]);
    }
  }

  lemma {:induction false} SubsequenceDropFirst<T>(a: seq<T>, b: seq<T>)
    requires |a| > 0 && IsSubsequence(a, b)
    ensures IsSubsequence(a[1..], b)
    decreases |b|, 1
  {
    if a[0] == b[0] {
      if |a| > 1 {
        SubsequenceOfTail(a[1..], b);
      }
    } else {
      SubsequenceDropFirst(a, b[1..]);
      if |a| > 1 {
        SubsequenceOfTail(a[1..], b);
      }
    }
  }

  /** A prefix of a subsequence is a subsequence. */
  lemma {:induction false} SubsequencePrefix<T>(a: seq<T>, b: seq<T>, k: nat)
    requires k <= |a| && IsSubsequence(a, b)
    ensures IsSubsequence(a[..k], b)
    decreases |b|
  {
    if k > 0 {
      var prefix := a[..k];
      if a[0] == b[0] {
        SubsequencePrefix(a[1..], b[1..], k - 1);
        assert prefix[1..] == a[1..][..k - 1];
      } else {
        SubsequencePrefix(a, b[1..], k);
      }
    }
  }

  /** What is left of a subsequence after its first `k` elements is a subsequence. */
  lemma {:induction false} SubsequenceSuffix<T>(a: seq<T>, b: seq<T>, k: nat)
    requires k <= |a| && IsSubsequence(a, b)
    ensures IsSubsequence(a[k..], b)
    decreases k
  {
    if k > 0 {
      SubsequenceSuffix(a, b, k - 1);
      var rest := a[k - 1..];
      SubsequenceDropFirst(rest, b);
      assert rest[1..] == a[k..];
    }
  }

  /** Any slice of a subsequence is a subsequence. */
  lemma SubsequenceSlice<T>(a: seq<T>, b: seq<T>, i: nat, j: nat)
    requires i <= j <= |a| && IsSubsequence(a, b)
    ensures IsSubsequence(a[i..j], b)
  {
    SubsequencePrefix(a, b, j);
    SubsequenceSuffix(a[..j], b, i);
    assert a[..j][i..] == a[i..j];
  }

  /** Filtering a concatenation filters each part. */
  lemma {:induction false} FilterAppend<T>(p: T -> bool, a: seq<T>, b: seq<T>)
    ensures Filter(p, a + b) == Filter(p, a) + Filter(p, b)
    decreases |a|
  {
    if |a| == 0 {
      assert a + b == b;
    } else {
      var rest := a[1..];
      var ab := a + b;
      assert ab[0] == a[0];
      assert ab[1..] == rest + b;
      FilterAppend(p, rest, b);
      assert Filter(p, a) == (if p(a[0]) then [a[0]] else []) + Filter(p, rest);
      assert Filter(p, ab) == (if p(a[0]) then [a[0]] else []) + Filter(p, rest + b);
    }
  }

  /** Filtering one more element of `s` keeps it when it satisfies `p`. */
  lemma FilterSnoc<T>(p: T -> bool, s: seq<T>, i: nat)
    requires i < |s|
    ensures Filter(p, s[..i + 1]) == Filter(p, s[..i]) + (if p(s[i]) then [s[i]] else [])
  {
    assert s[..i + 1] == s[..i] + [s[i]];
    FilterAppend(p, s[..i], [s[i]]);
    assert [s[i]][1..] == [];
  }

  /** Filtering twice is filtering once by both predicates. */
  lemma {:induction false} FilterFilter<T>(p: T -> bool, q: T -> bool, both: T -> bool, s: seq<T>)
    requires forall x :: both(x) == (q(x) && p(x))
    ensures Filter(p, Filter(q, s)) == Filter(both, s)
    decreases |s|
  {
    if |s| > 0 {
      FilterFilter(p, q, both, s[1..]);
      if q(s[0]) {
        var rest := Filter(q, s[1..]);
        assert ([s[0]] + rest)[0] == s[0];
        assert ([s[0]] + rest)[1..] == rest;
      }
    }
  }

  /** The number of elements of `s` that satisfy `p`. */
  function Count<T>(p: T -> bool, s: seq<T>): nat
    decreases |s|
  {
    if |s| == 0 then 0 else (if p(s[0]) then 1 else 0) + Count(p, s[1..])
  }

  lemma {:induction false} CountAppend<T>(p: T -> bool, a: seq<T>, b: seq<T>)
    ensures Count(p, a + b) == Count(p, a) + Count(p, b)
    decreases |a|
  {
    if |a| == 0 {
      assert a + b == b;
    } else {
      assert (a + b)[0] == a[0];
      assert (a + b)[1..] == a[1..] + b;
      CountAppend(p, a[1..], b);
    }
  }

  lemma CountSingleton<T>(p: T -> bool, x: T)
    ensures Count(p, [x]) == if p(x) then 1 else 0
  {
    assert [x][1..] == [];
  }

  /** The concatenation of the first `n` parts, in order. */
  function Flatten<T>(parts: seq<seq<T>>, n: nat): seq<T>
    requires n <= |parts|
    decreases n
  {
    if n == 0 then [] else Flatten(parts, n - 1) + parts[n - 1]
  }

  /** Flattening fewer parts gives a prefix. */
  lemma {:induction false} FlattenPrefix<T>(parts: seq<seq<T>>, m: nat, n: nat)
    requires m <= n <= |parts|
    ensures Flatten(parts, m) <= Flatten(parts, n)
    decreases n
  {
    if m < n {
      FlattenPrefix(parts, m, n - 1);
    }
  }

  /** A count over flattened parts adds up the counts of the parts. */
  lemma CountFlattenStep<T>(p: T -> bool, parts: seq<seq<T>>, i: nat)
    requires i < |parts|
    ensures Count(p, Flatten(parts, i + 1)) == Count(p, Flatten(parts, i)) + Count(p, parts[i])
  {
    CountAppend(p, Flatten(parts, i), parts[i]);
  }

  /** What holds of every element of every part holds of every element of the flattening. */
  lemma {:induction false} FlattenAll<T>(p: T -> bool, parts: seq<seq<T>>, n: nat)
    requires n <= |parts|
    requires forall i, x :: 0 <= i < n && x in parts[i] ==> p(x)
    ensures forall x :: x in Flatten(parts, n) ==> p(x)
    decreases n
  {
    if n > 0 {
      FlattenAll(p, parts, n - 1);
    }
  }

  /** `Array.prototype.some` with a pure predicate. */
  predicate Any<T>(p: T -> bool, s: seq<T>) {
    exists i :: 0 <= i < |s| && p(s[i])
  }

  /** Some element satisfies `p` exactly when the count of such elements is positive. */
  lemma {:induction false} AnyIffCount<T>(p: T -> bool, s: seq<T>)
    ensures Any(p, s) <==> Count(p, s) > 0
    decreases |s|
  {
    if |s| > 0 {
      AnyIffCount(p, s[1..]);
      if Any(p, s[1..]) {
        var i :| 0 <= i < |s[1..]| && p(s[1..][i]);
        assert p(s[i + 1]);
      }
      if Any(p, s) && !p(s[0]) {
        var i :| 0 <= i < |s| && p(s[i]);
        assert s[1..][i - 1] == s[i];
      }
    }
  }

  /** `f` applied to each of the first `n` elements of `s`, the results concatenated in order. */
  function FlatMap<T, U>(f: T -> seq<U>, s: seq<T>, n: nat): seq<U>
    requires n <= |s|
    decreases n
  {
    if n == 0 then [] else FlatMap(f, s, n - 1) + f(s[n - 1])
  }

  /** The results for the element at `m` follow those for the elements before it, and later ones follow them. */
  lemma {:induction false} FlatMapPrefix<T, U>(f: T -> seq<U>, s: seq<T>, m: nat, n: nat)
    requires m < n <= |s|
    ensures FlatMap(f, s, m) + f(s[m]) <= FlatMap(f, s, n)
    decreases n
  {
    if m + 1 < n {
      FlatMapPrefix(f, s, m, n - 1);
    }
  }

  /** Every result comes from one of the elements. */
  lemma {:induction false} FlatMapMember<T, U>(f: T -> seq<U>, s: seq<T>, n: nat, y: U)
    requires n <= |s|
    requires y in FlatMap(f, s, n)
    ensures exists j :: 0 <= j < n && y in f(s[j])
    decreases n
  {
    if y !in f(s[n - 1]) {
      FlatMapMember(f, s, n - 1, y);
    }
  }

  /** At most one result per element gives at most `n` results. */
  lemma {:induction false} FlatMapAtMostOne<T, U>(f: T -> seq<U>, s: seq<T>, n: nat)
    requires n <= |s|
    requires forall j :: 0 <= j < n ==> |f(s[j])| <= 1
    ensures |FlatMap(f, s, n)| <= n
    decreases n
  {
    if n > 0 {
      FlatMapAtMostOne(f, s, n - 1);
    }
  }
}
