/** Python's built-in ordering facilities: the lexicographic order on strings and the stable
    sort behind `sorted(xs, key=...)`. */
module Sorting {

  /** Code-point order on strings, as Python compares `str` values. */
  predicate StrLe(a: string, b: string) {
    a == "" || (b != "" && (a[0] < b[0] || (a[0] == b[0] && StrLe(a[1..], b[1..]))))
  }

  lemma {:induction false} StrLeTotal(a: string, b: string)
    ensures StrLe(a, b) || StrLe(b, a)
  {
    if a != "" && b != "" && a[0] == b[0] {
      StrLeTotal(a[1..], b[1..]);
    }
  }

  lemma {:induction false} StrLeAntisymmetric(a: string, b: string)
    requires StrLe(a, b) && StrLe(b, a)
    ensures a == b
  {
    if a != "" && b != "" {
      StrLeAntisymmetric(a[1..], b[1..]);
      assert a == [a[0]] + a[1..] && b == [b[0]] + b[1..];
    }
  }

  lemma {:induction false} StrLeTransitive(a: string, b: string, c: string)
    requires StrLe(a, b) && StrLe(b, c)
    ensures StrLe(a, c)
  {
    if a != "" && a[0] == b[0] && b[0] == c[0] {
      StrLeTransitive(a[1..], b[1..], c[1..]);
    }
  }

  /** One text is at most another if it begins it, or if its character is less where they first differ. */
  lemma {:induction false} StrLeIsLexicographic(a: string, b: string)
    ensures StrLe(a, b) <==>
              a <= b || exists i :: 0 <= i < |a| && i < |b| && a[..i] == b[..i] && a[i] < b[i]
  {
    if a != "" && b != "" && a[0] == b[0] {
      StrLeIsLexicographic(a[1..], b[1..]);
      if i :| 0 <= i < |a| && i < |b| && a[..i] == b[..i] && a[i] < b[i] {
        assert a[1..][..i - 1] == a[..i][1..] && b[1..][..i - 1] == b[..i][1..];
        assert a[1..][i - 1] < b[1..][i - 1];
      }
      if i :| 0 <= i < |a[1..]| && i < |b[1..]| && a[1..][..i] == b[1..][..i] && a[1..][i] < b[1..][i] {
        assert a[..i + 1] == [a[0]] + a[1..][..i] && b[..i + 1] == [b[0]] + b[1..][..i];
        assert a[i + 1] < b[i + 1];
      }
      assert a == [a[0]] + a[1..] && b == [b[0]] + b[1..];
    } else if a != "" && b != "" && a[0] < b[0] {
      assert a[..0] == b[..0];
    }
  }

  ghost predicate TotalPreorder<T(!new)>(le: (T, T) -> bool) {
    && (forall x, y :: le(x, y) || le(y, x))
    && (forall x, y, z :: le(x, y) && le(y, z) ==> le(x, z))
  }

  predicate Sorted<T>(le: (T, T) -> bool, xs: seq<T>) {
    forall i, j :: 0 <= i < j < |xs| ==> le(xs[i], xs[j])
  }

  function Insert<T>(le: (T, T) -> bool, x: T, xs: seq<T>): seq<T> {
    if xs == [] || le(x, xs[0]) then [x] + xs else [xs[0]] + Insert(le, x, xs[1..])
  }

  /** A stable sort: elements that compare equal keep their order. */
  function Sort<T>(le: (T, T) -> bool, xs: seq<T>): seq<T> {
    if xs == [] then [] else Insert(le, xs[0], Sort(le, xs[1..]))
  }

  lemma {:induction false} InsertPermutes<T>(le: (T, T) -> bool, x: T, xs: seq<T>)
    ensures multiset(Insert(le, x, xs)) == multiset(xs) + multiset{x}
  {
    if xs != [] && !le(x, xs[0]) {
      InsertPermutes(le, x, xs[1..]);
      assert xs == [xs[0]] + xs[1..];
    }
  }

  lemma {:induction false} SortPermutes<T>(le: (T, T) -> bool, xs: seq<T>)
    ensures multiset(Sort(le, xs)) == multiset(xs)
    ensures |Sort(le, xs)| == |xs|
  {
    if xs != [] {
      SortPermutes(le, xs[1..]);
      InsertPermutes(le, xs[0], Sort(le, xs[1..]));
      assert xs == [xs[0]] + xs[1..];
    }
    assert |multiset(Sort(le, xs))| == |multiset(xs)|;
  }

  lemma {:induction false} InsertSorts<T(!new)>(le: (T, T) -> bool, x: T, xs: seq<T>)
    requires TotalPreorder(le) && Sorted(le, xs)
    ensures Sorted(le, Insert(le, x, xs))
  {
    if xs != [] && !le(x, xs[0]) {
      InsertSorts(le, x, xs[1..]);
      var rest := Insert(le, x, xs[1..]);
      InsertPermutes(le, x, xs[1..]);
      forall j | 0 <= j < |rest| ensures le(xs[0], rest[j]) {
        assert rest[j] in multiset(rest);
        assert rest[j] == x || rest[j] in xs[1..];
      }
    }
  }

  lemma {:induction false} SortSorts<T(!new)>(le: (T, T) -> bool, xs: seq<T>)
    requires TotalPreorder(le)
    ensures Sorted(le, Sort(le, xs))
  {
    if xs != [] {
      SortSorts(le, xs[1..]);
      InsertSorts(le, xs[0], Sort(le, xs[1..]));
    }
  }

  /** The elements of `xs` that compare equal to `y`, in order. */
  function Peers<T>(le: (T, T) -> bool, y: T, xs: seq<T>): seq<T> {
    if xs == [] then []
    else (if le(xs[0], y) && le(y, xs[0]) then [xs[0]] else []) + Peers(le, y, xs[1..])
  }

  lemma {:induction false} InsertKeepsPeers<T(!new)>(le: (T, T) -> bool, y: T, x: T, xs: seq<T>)
    requires TotalPreorder(le) && Sorted(le, xs)
    ensures Peers(le, y, Insert(le, x, xs)) == Peers(le, y, [x]) + Peers(le, y, xs)
  {
    assert Peers(le, y, [x]) == if le(x, y) && le(y, x) then [x] else [];
    if xs != [] && !le(x, xs[0]) {
      InsertKeepsPeers(le, y, x, xs[1..]);
      assert Insert(le, x, xs)[1..] == Insert(le, x, xs[1..]);
      if le(x, y) && le(y, x) {
        assert !(le(xs[0], y) && le(y, xs[0]));
      }
    } else {
      assert ([x] + xs)[1..] == xs;
    }
  }

  lemma {:induction false} PeersHead<T>(le: (T, T) -> bool, y: T, xs: seq<T>)
    requires xs != []
    ensures Peers(le, y, xs) == Peers(le, y, [xs[0]]) + Peers(le, y, xs[1..])
  {
    assert [xs[0]][1..] == [];
  }

  /** Stability, as Python documents it for `sorted`. */
  lemma {:induction false} SortStable<T(!new)>(le: (T, T) -> bool, y: T, xs: seq<T>)
    requires TotalPreorder(le)
    ensures Peers(le, y, Sort(le, xs)) == Peers(le, y, xs)
  {
    if xs != [] {
      SortStable(le, y, xs[1..]);
      SortSorts(le, xs[1..]);
      InsertKeepsPeers(le, y, xs[0], Sort(le, xs[1..]));
      PeersHead(le, y, xs);
    }
  }

  /** A sorted arrangement is determined by the order of its peers. */
  lemma {:induction false} SortedByPeers<T(!new)>(le: (T, T) -> bool, a: seq<T>, b: seq<T>)
    requires TotalPreorder(le) && Sorted(le, a) && Sorted(le, b) && multiset(a) == multiset(b)
    requires forall y :: Peers(le, y, a) == Peers(le, y, b)
    ensures a == b
  {
    assert |multiset(a)| == |a| && |multiset(b)| == |b|;
    if a != [] {
      SamePeerFirst(le, a, b);
      SameTails(a, b);
      forall y ensures Peers(le, y, a[1..]) == Peers(le, y, b[1..]) {
        PeersHead(le, y, a);
        PeersHead(le, y, b);
        var head := Peers(le, y, [a[0]]);
        assert Peers(le, y, a[1..]) == (head + Peers(le, y, a[1..]))[|head|..];
        assert Peers(le, y, b[1..]) == (head + Peers(le, y, b[1..]))[|head|..];
      }
      SortedByPeers(le, a[1..], b[1..]);
      assert a == [a[0]] + a[1..] && b == [b[0]] + b[1..];
    }
  }

  lemma {:induction false} SamePeerFirst<T(!new)>(le: (T, T) -> bool, a: seq<T>, b: seq<T>)
    requires TotalPreorder(le) && Sorted(le, a) && Sorted(le, b) && multiset(a) == multiset(b) && a != []
    requires forall y :: Peers(le, y, a) == Peers(le, y, b)
    ensures b != [] && a[0] == b[0]
  {
    assert |multiset(a)| == |a| && |multiset(b)| == |b|;
    assert a[0] in multiset(b) && b[0] in multiset(a);
    var x := a[0];
    assert le(x, x) && le(x, b[0]) && le(b[0], x);
    assert Peers(le, x, a)[0] == x && Peers(le, x, b)[0] == b[0];
  }

  // ----- the order of a stable sort -----

  /** `x` comes before `y`. */
  ghost predicate ComesBefore<T>(xs: seq<T>, x: T, y: T) {
    exists i, j :: 0 <= i < j < |xs| && xs[i] == x && xs[j] == y
  }

  lemma ComesBeforeCons<T>(first: T, xs: seq<T>, x: T, y: T)
    requires ComesBefore(xs, x, y) || (x == first && y in xs)
    ensures ComesBefore([first] + xs, x, y)
  {
    var all := [first] + xs;
    if ComesBefore(xs, x, y) {
      var i, j :| 0 <= i < j < |xs| && xs[i] == x && xs[j] == y;
      assert all[i + 1] == x && all[j + 1] == y;
    } else {
      var j :| 0 <= j < |xs| && xs[j] == y;
      assert all[0] == x && all[j + 1] == y;
    }
  }

  lemma {:induction false} InsertKeepsOrder<T>(le: (T, T) -> bool, z: T, xs: seq<T>, x: T, y: T)
    requires ComesBefore(xs, x, y)
    ensures ComesBefore(Insert(le, z, xs), x, y)
  {
    var i, j :| 0 <= i < j < |xs| && xs[i] == x && xs[j] == y;
    if le(z, xs[0]) {
      ComesBeforeCons(z, xs, x, y);
    } else {
      InsertPermutes(le, z, xs[1..]);
      var tail := Insert(le, z, xs[1..]);
      assert Insert(le, z, xs) == [xs[0]] + tail;
      if i > 0 {
        assert xs[1..][i - 1] == x && xs[1..][j - 1] == y;
        InsertKeepsOrder(le, z, xs[1..], x, y);
      } else {
        assert xs[1..][j - 1] == y && y in multiset(tail);
      }
      ComesBeforeCons(xs[0], tail, x, y);
    }
  }

  lemma {:induction false} InsertInFront<T(!new)>(le: (T, T) -> bool, x: T, xs: seq<T>, y: T)
    requires TotalPreorder(le) && Sorted(le, xs) && y in xs && le(x, y)
    ensures ComesBefore(Insert(le, x, xs), x, y)
  {
    if le(x, xs[0]) {
      ComesBeforeCons(x, xs, x, y);
    } else {
      assert xs == [xs[0]] + xs[1..] && y in xs[1..];
      InsertInFront(le, x, xs[1..], y);
      ComesBeforeCons(xs[0], Insert(le, x, xs[1..]), x, y);
    }
  }

  /** What is not out of order keeps its order. */
  lemma {:induction false} SortKeepsOrder<T(!new)>(le: (T, T) -> bool, xs: seq<T>, x: T, y: T)
    requires TotalPreorder(le) && ComesBefore(xs, x, y) && le(x, y)
    ensures ComesBefore(Sort(le, xs), x, y)
  {
    var i, j :| 0 <= i < j < |xs| && xs[i] == x && xs[j] == y;
    var rest := xs[1..];
    assert rest[j - 1] == y;
    SortSorts(le, rest);
    SortPermutes(le, rest);
    if i == 0 {
      assert y in multiset(rest) && y in Sort(le, rest);
      InsertInFront(le, x, Sort(le, rest), y);
    } else {
      assert rest[i - 1] == x;
      SortKeepsOrder(le, rest, x, y);
      InsertKeepsOrder(le, xs[0], Sort(le, rest), x, y);
    }
  }

  ghost predicate NoDuplicates<T>(xs: seq<T>) {
    forall i, j :: 0 <= i < j < |xs| ==> xs[i] != xs[j]
  }

  lemma {:induction false} CountsOfDistinct<T>(xs: seq<T>)
    ensures NoDuplicates(xs) <==> forall x :: multiset(xs)[x] <= 1
  {
    if xs != [] {
      var first, rest := xs[0], xs[1..];
      assert xs == [first] + rest;
      CountsOfDistinct(rest);
      assert forall x :: multiset(xs)[x] == multiset{first}[x] + multiset(rest)[x];
      if NoDuplicates(xs) {
        assert first !in rest;
      } else if NoDuplicates(rest) {
        var i, j :| 0 <= i < j < |xs| && xs[i] == xs[j];
        assert i == 0 && rest[j - 1] == first;
        assert first in rest && multiset(xs)[first] >= 2;
      }
    }
  }

  /** In the sort of distinct elements, of two that compare equal the one that came first is first. */
  lemma {:induction false} SortBreaksTies<T(!new)>(le: (T, T) -> bool, xs: seq<T>, i: nat, j: nat)
    requires TotalPreorder(le) && NoDuplicates(xs) && i < j < |Sort(le, xs)|
    ensures var s := Sort(le, xs);
            le(s[i], s[j]) && (!le(s[j], s[i]) || ComesBefore(xs, s[i], s[j]))
  {
    var s := Sort(le, xs);
    SortSorts(le, xs);
    SortPermutes(le, xs);
    CountsOfDistinct(xs);
    CountsOfDistinct(s);
    if le(s[j], s[i]) && !ComesBefore(xs, s[i], s[j]) {
      assert s[i] in multiset(xs) && s[j] in multiset(xs);
      var a :| 0 <= a < |xs| && xs[a] == s[i];
      var b :| 0 <= b < |xs| && xs[b] == s[j];
      assert b < a;
      SortKeepsOrder(le, xs, s[j], s[i]);
      assert false;
    }
  }

  lemma SameTails<T>(a: seq<T>, b: seq<T>)
    requires a != [] && b != [] && a[0] == b[0] && multiset(a) == multiset(b)
    ensures multiset(a[1..]) == multiset(b[1..])
  {
    assert a == [a[0]] + a[1..] && b == [b[0]] + b[1..];
    assert multiset(a[1..]) == multiset(a) - multiset{a[0]};
    assert multiset(b[1..]) == multiset(b) - multiset{b[0]};
  }

  lemma SameLeast<T(!new)>(le: (T, T) -> bool, a: seq<T>, b: seq<T>)
    requires TotalPreorder(le) && Sorted(le, a) && Sorted(le, b) && multiset(a) == multiset(b)
    requires forall x, y :: x in a && y in a && le(x, y) && le(y, x) ==> x == y
    requires a != []
    ensures b != [] && a[0] == b[0]
  {
    assert |multiset(a)| == |a| && |multiset(b)| == |b|;
    assert a[0] in multiset(b) && b[0] in multiset(a);
    assert le(a[0], b[0]) && le(b[0], a[0]);
  }

  /** On elements where the order is antisymmetric, there is only one sorted arrangement. */
  lemma {:induction false} SortedUnique<T(!new)>(le: (T, T) -> bool, a: seq<T>, b: seq<T>)
    requires TotalPreorder(le) && Sorted(le, a) && Sorted(le, b) && multiset(a) == multiset(b)
    requires forall x, y :: x in a && y in a && le(x, y) && le(y, x) ==> x == y
    ensures a == b
  {
    assert |multiset(a)| == |a| && |multiset(b)| == |b|;
    if a != [] {
      SameLeast(le, a, b);
      SameTails(a, b);
      assert forall x :: x in a[1..] ==> x in a;
      SortedUnique(le, a[1..], b[1..]);
      assert a == [a[0]] + a[1..] && b == [b[0]] + b[1..];
    }
  }

  /** Sorting forgets the order of its input wherever the order is antisymmetric. */
  lemma {:induction false} SortIgnoresOrder<T(!new)>(le: (T, T) -> bool, a: seq<T>, b: seq<T>)
    requires TotalPreorder(le) && multiset(a) == multiset(b)
    requires forall x, y :: x in a && y in a && le(x, y) && le(y, x) ==> x == y
    ensures Sort(le, a) == Sort(le, b)
  {
    SortPermutes(le, a);
    SortPermutes(le, b);
    SortSorts(le, a);
    SortSorts(le, b);
    forall x | x in Sort(le, a) ensures x in a {
      assert x in multiset(Sort(le, a));
    }
    SortedUnique(le, Sort(le, a), Sort(le, b));
  }

  lemma BagSum<T>(a: seq<T>, b: seq<T>, a': seq<T>, b': seq<T>, c: seq<T>, d: seq<T>)
    requires multiset(a) + multiset(a') == multiset(c)
    requires multiset(b) + multiset(b') == multiset(d)
    ensures multiset(a + b) + multiset(a' + b') == multiset(c + d)
  {
  }

  lemma ConcatAssociative<T>(a: seq<T>, b: seq<T>, c: seq<T>)
    ensures (a + b) + c == a + (b + c)
  {
  }

  /** Position `i` in a loop over `xs`. */
  lemma Slices<T>(xs: seq<T>, i: nat)
    requires i < |xs|
    ensures xs[i..] != [] && xs[i..][0] == xs[i] && xs[i..][1..] == xs[i + 1..]
    ensures xs[..i + 1] == xs[..i] + [xs[i]]
    ensures xs[i] in xs
  {
  }

  /** Moving the head of the second part to the end of the first. */
  lemma ShiftHead<T>(a: seq<T>, b: seq<T>)
    requires b != []
    ensures (a + [b[0]]) + b[1..] == a + b
    ensures [b[0]] + b[1..] == b
  {
  }

  lemma ConcatInit<T>(a: seq<T>, b: seq<T>)
    requires b != []
    ensures a + b[..|b| - 1] == (a + b)[..|a + b| - 1]
  {
  }

  /** All of `xs` or all but its last element: what is missing makes up the bag. */
  lemma WholeOrInit<T>(part: seq<T>, xs: seq<T>)
    requires part == xs || (xs != [] && part == xs[..|xs| - 1])
    ensures multiset(part) + multiset(if |part| < |xs| then [xs[|xs| - 1]] else []) == multiset(xs)
  {
    if part != xs {
      assert xs == part + [xs[|xs| - 1]];
    }
  }

  lemma SplitAt<T>(b: seq<T>, j: nat)
    requires j < |b|
    ensures b == b[..j] + ([b[j]] + b[j + 1..])
    ensures multiset(b) == multiset(b[..j] + b[j + 1..]) + multiset{b[j]}
  {
    assert b == b[..j] + ([b[j]] + b[j + 1..]);
  }

  /** Dropping one occurrence of the same element from two arrangements of a bag. */
  lemma DropMatching<T>(a: seq<T>, b: seq<T>, j: nat)
    requires a != [] && j < |b| && a[0] == b[j] && multiset(a) == multiset(b)
    ensures multiset(a[1..]) == multiset(b[..j] + b[j + 1..])
  {
    SplitAt(b, j);
    SplitAt(a, 0);
    assert a[..0] + a[1..] == a[1..];
    var x, y := multiset(a[1..]), multiset(b[..j] + b[j + 1..]);
    assert x + multiset{a[0]} == y + multiset{a[0]};
    assert (x + multiset{a[0]}) - multiset{a[0]} == x && (y + multiset{a[0]}) - multiset{a[0]} == y;
  }

  lemma SameMembers<T>(a: seq<T>, b: seq<T>)
    requires multiset(a) == multiset(b)
    ensures forall x :: x in a <==> x in b
    ensures |a| == |b|
  {
    assert forall x :: x in a <==> x in multiset(a);
    assert forall x :: x in b <==> x in multiset(b);
    assert |multiset(a)| == |a| && |multiset(b)| == |b|;
  }

  lemma SumAssociative<T>(x: multiset<T>, y: multiset<T>, z: multiset<T>)
    ensures (x + y) + z == x + (y + z)
    ensures x + (y + z) == y + (x + z)
  {
  }

  lemma SumRotate<T>(x: multiset<T>, y: multiset<T>, z: multiset<T>)
    ensures y + (z + x) == (x + y) + z
  {
  }

  /** Taking `x` from a bag to which `p` was added. */
  lemma TakeOther<T>(bag: multiset<T>, p: T, x: T)
    requires x in bag + multiset{p} && x != p
    ensures x in bag && (bag + multiset{p}) - multiset{x} == (bag - multiset{x}) + multiset{p}
    ensures (bag - multiset{x}) + multiset{x} == bag
  {
  }
}
