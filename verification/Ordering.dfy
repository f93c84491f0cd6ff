/** Sorting as the Go code uses it: `sort.Slice` sorts a slice in place and says nothing of
    the order of equivalent elements, so callers here know of the result only that it is
    a permutation and sorted. Also Go's order on strings. */
module Ordering {

  /** What sort.Slice asks of its `less`: a strict weak order. */
  ghost predicate StrictWeak<T(!new)>(less: (T, T) -> bool) {
    && (forall x, y :: less(x, y) ==> !less(y, x))
    && (forall x, y, z :: !less(x, y) && !less(y, z) ==> !less(x, z))
  }

  ghost predicate Sorted<T>(s: seq<T>, less: (T, T) -> bool) {
    forall i, j :: 0 <= i < j < |s| ==> !less(s[j], s[i])
  }

  ghost predicate IsPermutation<T>(s: seq<T>, t: seq<T>) {
    multiset(s) == multiset(t)
  }

  function Insert<T>(x: T, s: seq<T>, less: (T, T) -> bool): seq<T> {
    if s == [] then [x]
    else if less(s[0], x) then [s[0]] + Insert(x, s[1..], less)
    else [x] + s
  }

  function Sort<T>(s: seq<T>, less: (T, T) -> bool): seq<T> {
    if s == [] then [] else Insert(s[0], Sort(s[1..], less), less)
  }

  lemma {:induction false} InsertIsPermutation<T>(x: T, s: seq<T>, less: (T, T) -> bool)
    ensures multiset(Insert(x, s, less)) == multiset([x] + s)
  {
    if s != [] {
      assert s == [s[0]] + s[1..];
      if less(s[0], x) { InsertIsPermutation(x, s[1..], less); }
    }
  }

  lemma {:induction false} InsertIsSorted<T(!new)>(x: T, s: seq<T>, less: (T, T) -> bool)
    requires StrictWeak(less) && Sorted(s, less)
    ensures Sorted(Insert(x, s, less), less)
  {
    if s != [] {
      if less(s[0], x) {
        var rest := Insert(x, s[1..], less);
        InsertIsSorted(x, s[1..], less);
        InsertIsPermutation(x, s[1..], less);
        forall j | 0 <= j < |rest| ensures !less(rest[j], s[0]) {
          assert rest[j] in multiset([x] + s[1..]);
          if rest[j] != x {
            var k :| 0 <= k < |s| - 1 && s[1..][k] == rest[j];
            assert !less(s[k + 1], s[0]);
          }
        }
      } else {
        forall j | 0 <= j < |s| ensures !less(s[j], x) {
          if j > 0 { assert !less(s[j], s[0]); }
        }
      }
    }
  }

  lemma {:induction false} SortSorts<T(!new)>(s: seq<T>, less: (T, T) -> bool)
    requires StrictWeak(less)
    ensures Sorted(Sort(s, less), less) && IsPermutation(Sort(s, less), s)
  {
    if s != [] {
      var rest := Sort(s[1..], less);
      SortSorts(s[1..], less);
      InsertIsSorted(s[0], rest, less);
      InsertIsPermutation(s[0], rest, less);
      assert s == [s[0]] + s[1..];
    }
  }

  /** sort.Slice. */
  method SortSlice<T(!new)>(a: array<T>, less: (T, T) -> bool)
    requires StrictWeak(less)
    modifies a
    ensures Sorted(a[..], less) && IsPermutation(a[..], old(a[..]))
  {
    var s := Sort(a[..], less);
    SortSorts(a[..], less);
    PermutationSize(s, a[..]);
    for i := 0 to a.Length
      invariant a[..i] == s[..i]
    {
      a[i] := s[i];
    }
    assert a[..] == s;
  }

  lemma PermutationSize<T>(s: seq<T>, t: seq<T>)
    requires IsPermutation(s, t)
    ensures |s| == |t|
  {
    assert |multiset(s)| == |s| && |multiset(t)| == |t|;
  }

  lemma PermutationMembers<T>(s: seq<T>, t: seq<T>)
    requires IsPermutation(s, t)
    ensures forall x :: x in s <==> x in t
  {
    forall x ensures x in s <==> x in t {
      assert x in multiset(s) <==> x in multiset(t);
    }
  }

  // ---- Strings ----

  /** Lexicographic order. */
  predicate CodesLess(a: seq<int>, b: seq<int>) {
    b != [] && (a == [] || a[0] < b[0] || (a[0] == b[0] && CodesLess(a[1..], b[1..])))
  }

  lemma {:induction false} CodesLessIsStrict(a: seq<int>, b: seq<int>)
    requires CodesLess(a, b)
    ensures !CodesLess(b, a)
  {
    if a != [] && a[0] == b[0] { CodesLessIsStrict(a[1..], b[1..]); }
  }

  lemma {:induction false} CodesLessIsNegativelyTransitive(a: seq<int>, b: seq<int>, c: seq<int>)
    requires !CodesLess(a, b) && !CodesLess(b, c)
    ensures !CodesLess(a, c)
  {
    if a != [] && b != [] && c != [] && a[0] == b[0] == c[0] {
      CodesLessIsNegativelyTransitive(a[1..], b[1..], c[1..]);
    }
  }

  /** Of two different sequences one is the less. */
  lemma {:induction false} CodesLessIsTotal(a: seq<int>, b: seq<int>)
    requires a != b
    ensures CodesLess(a, b) || CodesLess(b, a)
  {
    if a != [] && b != [] && a[0] == b[0] {
      assert a == [a[0]] + a[1..] && b == [b[0]] + b[1..];
      CodesLessIsTotal(a[1..], b[1..]);
    }
  }

  /** What makes one sequence less: it is a proper beginning of the other ... */
  lemma {:induction false} BeginningIsLess(a: seq<int>, b: seq<int>)
    requires |a| < |b| && b[..|a|] == a
    ensures CodesLess(a, b)
  {
    if a != [] {
      assert b[..|a|][0] == a[0] && b[..|a|][1..] == b[1..][..|a| - 1] == a[1..];
      BeginningIsLess(a[1..], b[1..]);
    }
  }

  /** ... or less at the first difference, ... */
  lemma {:induction false} DifferenceIsLess(a: seq<int>, b: seq<int>, k: nat)
    requires k < |a| && k < |b| && a[..k] == b[..k] && a[k] < b[k]
    ensures CodesLess(a, b)
    decreases k
  {
    if k > 0 {
      assert a[..k][0] == b[..k][0] && a[..k][1..] == a[1..][..k - 1] && b[..k][1..] == b[1..][..k - 1];
      DifferenceIsLess(a[1..], b[1..], k - 1);
    }
  }

  /** ... and nothing else. */
  lemma {:induction false} LessDiffers(a: seq<int>, b: seq<int>) returns (k: nat)
    requires CodesLess(a, b)
    ensures k <= |a| && k < |b| && a[..k] == b[..k] && (k < |a| ==> a[k] < b[k])
  {
    if a == [] || a[0] < b[0] {
      k := 0;
    } else {
      var n := LessDiffers(a[1..], b[1..]);
      k := n + 1;
      assert a[..k] == [a[0]] + a[1..][..n] && b[..k] == [b[0]] + b[1..][..n];
    }
  }

  /** Lexicographic order, spelled out. */
  lemma CodesLessIs(a: seq<int>, b: seq<int>)
    ensures CodesLess(a, b) <==>
            || (|a| < |b| && b[..|a|] == a)
            || exists k :: 0 <= k < |a| && k < |b| && a[..k] == b[..k] && a[k] < b[k]
  {
    assert a[..|a|] == a;
    if CodesLess(a, b) { var k := LessDiffers(a, b); }
    if |a| < |b| && b[..|a|] == a { BeginningIsLess(a, b); }
    if k :| 0 <= k < |a| && k < |b| && a[..k] == b[..k] && a[k] < b[k] { DifferenceIsLess(a, b, k); }
  }

  function Codes(s: string): (codes: seq<int>)
    ensures |codes| == |s| && forall i :: 0 <= i < |s| ==> codes[i] == s[i] as int
  {
    seq(|s|, i requires 0 <= i < |s| => s[i] as int)
  }

  /** Go compares strings byte by byte in UTF-8, which is the order of their code points. */
  predicate StringLess(a: string, b: string) { CodesLess(Codes(a), Codes(b)) }

  /** Go's `a < b`, spelled out. */
  lemma StringLessIs(a: string, b: string)
    ensures StringLess(a, b) <==> a < b || exists k :: 0 <= k < |a| && k < |b| && a[..k] == b[..k] && a[k] < b[k]
  {
    var x, y := Codes(a), Codes(b);
    CodesLessIs(x, y);
    if StringLess(a, b) && !(|x| < |y| && y[..|x|] == x) {
      var k :| 0 <= k < |x| && k < |y| && x[..k] == y[..k] && x[k] < y[k];
      SamePart(a, b, k);
      assert a[k] < b[k];
    }
    if |x| < |y| && y[..|x|] == x { SamePart(a, b, |a|); assert a[..|a|] == a && x[..|x|] == x; }
    if k :| 0 <= k < |a| && k < |b| && a[..k] == b[..k] && a[k] < b[k] { SamePart(a, b, k); assert x[k] < y[k]; }
    if a < b { SamePart(a, b, |a|); assert a[..|a|] == a && x[..|x|] == x; }
  }

  lemma SamePart(a: string, b: string, k: nat)
    requires k <= |a| && k <= |b|
    ensures Codes(a)[..k] == Codes(b)[..k] <==> a[..k] == b[..k]
  {
    if Codes(a)[..k] == Codes(b)[..k] {
      forall i | 0 <= i < k ensures a[i] == b[i] { assert Codes(a)[..k][i] == Codes(b)[..k][i]; }
    }
    if a[..k] == b[..k] {
      forall i | 0 <= i < k ensures Codes(a)[i] == Codes(b)[i] { assert a[..k][i] == b[..k][i]; }
    }
  }

  lemma CodesIdentify(a: string, b: string)
    requires Codes(a) == Codes(b)
    ensures a == b
  {
    forall i | 0 <= i < |a| ensures a[i] == b[i] {
      assert Codes(a)[i] == Codes(b)[i];
    }
  }

  lemma StringLessIsTotal(a: string, b: string)
    requires a != b
    ensures StringLess(a, b) || StringLess(b, a)
  {
    if Codes(a) == Codes(b) {
      CodesIdentify(a, b);
    }
    CodesLessIsTotal(Codes(a), Codes(b));
  }

  /** The order of the source's `x.Name < y.Name`. */
  function NameOrder<T>(name: T -> string): (T, T) -> bool {
    (x, y) => StringLess(name(x), name(y))
  }

  lemma NameOrderIs<T>(name: T -> string, x: T, y: T)
    ensures NameOrder(name)(x, y) == StringLess(name(x), name(y))
  {
  }

  lemma NamesAreOrdered<T(!new)>(name: T -> string)
    ensures StrictWeak(NameOrder(name))
  {
    var less := NameOrder(name);
    forall x, y | less(x, y) ensures !less(y, x) {
      CodesLessIsStrict(Codes(name(x)), Codes(name(y)));
    }
    forall x, y, z | !less(x, y) && !less(y, z) ensures !less(x, z) {
      CodesLessIsNegativelyTransitive(Codes(name(x)), Codes(name(y)), Codes(name(z)));
    }
  }

  // ---- Sorting by distinct names ----

  predicate DistinctNames<T>(s: seq<T>, name: T -> string) {
    forall i, j :: 0 <= i < j < |s| ==> name(s[i]) != name(s[j])
  }

  lemma TakeOne<T>(s: seq<T>)
    requires s != []
    ensures multiset(s[1..]) == multiset(s) - multiset{s[0]}
  {
    assert s == [s[0]] + s[1..];
  }

  /** Of two different elements one comes before the other. */
  ghost predicate TotalOn<T(!new)>(s: seq<T>, less: (T, T) -> bool) {
    forall x, y :: x in s && y in s && x != y ==> less(x, y) || less(y, x)
  }

  lemma SameHead<T(!new)>(a: seq<T>, b: seq<T>, less: (T, T) -> bool)
    requires IsPermutation(a, b) && TotalOn(a, less) && a != [] && b != []
    requires Sorted(a, less) && Sorted(b, less)
    ensures a[0] == b[0]
  {
    PermutationMembers(a, b);
    assert a[0] in b && b[0] in a;
    var k :| 0 <= k < |b| && b[k] == a[0];
    var j :| 0 <= j < |a| && a[j] == b[0];
    if j > 0 { assert !less(a[j], a[0]); }
    if k > 0 { assert !less(b[k], b[0]); }
  }

  /** A sequence whose elements are totally ordered has one sorted permutation, whatever the
      algorithm. */
  lemma {:induction false} SortedIsUnique<T(!new)>(a: seq<T>, b: seq<T>, less: (T, T) -> bool)
    requires IsPermutation(a, b) && TotalOn(a, less) && Sorted(a, less) && Sorted(b, less)
    ensures a == b
  {
    PermutationSize(a, b);
    if a != [] {
      SameHead(a, b, less);
      TakeOne(a);
      TakeOne(b);
      SortedIsUnique(a[1..], b[1..], less);
      assert a == [a[0]] + a[1..] && b == [b[0]] + b[1..];
    }
  }

  lemma DistinctIsTotal<T(!new)>(s: seq<T>, name: T -> string)
    requires DistinctNames(s, name)
    ensures TotalOn(s, NameOrder(name))
  {
    forall x, y | x in s && y in s && x != y ensures NameOrder(name)(x, y) || NameOrder(name)(y, x) {
      var i :| 0 <= i < |s| && s[i] == x;
      var j :| 0 <= j < |s| && s[j] == y;
      assert name(s[i]) != name(s[j]);
      StringLessIsTotal(name(x), name(y));
    }
  }

  lemma DistinctPermutes<T(!new)>(a: seq<T>, b: seq<T>, name: T -> string)
    requires IsPermutation(a, b) && DistinctNames(b, name)
    ensures DistinctNames(a, name)
  {
    forall i, j | 0 <= i < j < |a| ensures name(a[i]) != name(a[j]) {
      TwoOf(a, i, j);
      PermutationMembers(a, b);
      assert a[i] in b && a[j] in b;
      var k :| 0 <= k < |b| && b[k] == a[i];
      if name(a[i]) == name(a[j]) {
        var m :| 0 <= m < |b| && b[m] == a[j];
        assert m == k;
        OnceOnly(b, k);
      }
    }
  }

  lemma TwoOf<T>(a: seq<T>, i: nat, j: nat)
    requires i < j < |a|
    ensures a[i] == a[j] ==> multiset(a)[a[i]] >= 2
  {
    assert a == a[..i] + [a[i]] + a[i + 1..j] + [a[j]] + a[j + 1..];
  }

  lemma OnceOnly<T>(b: seq<T>, k: nat)
    requires k < |b| && forall m :: 0 <= m < |b| && m != k ==> b[m] != b[k]
    ensures multiset(b)[b[k]] == 1
  {
    assert b == b[..k] + [b[k]] + b[k + 1..];
    assert b[k] !in b[..k] && b[k] !in b[k + 1..];
  }

  /** Sorted by distinct names: each name is less than those after it. */
  lemma AscendingNames<T(!new)>(s: seq<T>, name: T -> string, i: nat, j: nat)
    requires Sorted(s, NameOrder(name)) && DistinctNames(s, name) && i < j < |s|
    ensures StringLess(name(s[i]), name(s[j]))
  {
    assert !NameOrder(name)(s[j], s[i]);
    NameOrderIs(name, s[j], s[i]);
    StringLessIsTotal(name(s[i]), name(s[j]));
  }

  /** sort.Slice where the order leaves no ties between different elements. */
  method SortTotally<T(!new)>(s: seq<T>, less: (T, T) -> bool) returns (sorted: seq<T>)
    requires StrictWeak(less) && TotalOn(s, less)
    ensures sorted == Sort(s, less)
  {
    var a := new T[|s|](i requires 0 <= i < |s| => s[i]);
    assert a[..] == s;
    SortSlice(a, less);
    sorted := a[..];
    SortSorts(s, less);
    PermutationMembers(sorted, s);
    SortedIsUnique(sorted, Sort(s, less), less);
  }

  /** sort.Slice by name on a slice whose names are distinct. */
  method SortByName<T(!new)>(s: seq<T>, name: T -> string) returns (sorted: seq<T>)
    requires DistinctNames(s, name)
    ensures sorted == Sort(s, NameOrder(name))
  {
    NamesAreOrdered(name);
    DistinctIsTotal(s, name);
    sorted := SortTotally(s, NameOrder(name));
  }

  lemma SortedByName<T(!new)>(s: seq<T>, name: T -> string)
    requires DistinctNames(s, name)
    ensures var r := Sort(s, NameOrder(name));
            && Sorted(r, NameOrder(name)) && DistinctNames(r, name) && |r| == |s|
            && forall x :: x in r <==> x in s
  {
    NamesAreOrdered(name);
    SortSorts(s, NameOrder(name));
    var r := Sort(s, NameOrder(name));
    DistinctPermutes(r, s, name);
    PermutationSize(r, s);
    PermutationMembers(r, s);
  }
}
