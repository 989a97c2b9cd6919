/** Total orders, sorting a finite set, and the extremes of a finite set of integers. */
module Order {
  ghost predicate TotalOrder<T(!new)>(le: (T, T) -> bool) {
    && (forall x :: le(x, x))
    && (forall x, y :: le(x, y) && le(y, x) ==> x == y)
    && (forall x, y, z :: le(x, y) && le(y, z) ==> le(x, z))
    && (forall x, y :: le(x, y) || le(y, x))
  }

  predicate StrictlySorted<T(==)>(le: (T, T) -> bool, s: seq<T>) {
    forall i, j | 0 <= i < j < |s| :: le(s[i], s[j]) && s[i] != s[j]
  }

  lemma {:induction false} LeastExists<T(!new)>(le: (T, T) -> bool, s: set<T>)
    requires TotalOrder(le) && s != {}
    ensures exists m :: m in s && forall y | y in s :: le(m, y)
    decreases |s|
  {
    var x :| x in s;
    var rest := s - {x};
    if rest == {} {
      assert s == {x};
    } else {
      LeastExists(le, rest);
      var m :| m in rest && forall y | y in rest :: le(m, y);
      var best := if le(x, m) then x else m;
      assert best in s && forall y | y in s :: le(best, y);
    }
  }

  function Least<T(!new, ==)>(le: (T, T) -> bool, s: set<T>): (m: T)
    requires TotalOrder(le) && s != {}
    ensures m in s && forall y | y in s :: le(m, y)
  {
    LeastExists(le, s);
    var m :| m in s && forall y | y in s :: le(m, y); m
  }

  /** The elements of `s` in ascending order: what ORDER BY and Go's sort produce. */
  function SortSet<T(!new, ==)>(le: (T, T) -> bool, s: set<T>): (r: seq<T>)
    requires TotalOrder(le)
    ensures forall x :: x in r <==> x in s
    ensures |r| == |s|
    ensures StrictlySorted(le, r)
    decreases |s|
  {
    if s == {} then []
    else
      var m := Least(le, s);
      var rest := SortSet(le, s - {m});
      LeastFirst(le, s, m, rest);
      [m] + rest
  }

  lemma LeastFirst<T(!new)>(le: (T, T) -> bool, s: set<T>, m: T, rest: seq<T>)
    requires m in s && forall x | x in s :: le(m, x)
    requires (forall x :: x in rest <==> x in s - {m}) && |rest| == |s - {m}| && StrictlySorted(le, rest)
    ensures (forall x :: x in [m] + rest <==> x in s) && |[m] + rest| == |s| && StrictlySorted(le, [m] + rest)
  {
    assert forall i | 0 <= i < |rest| :: rest[i] in rest;
  }

  lemma MemberOfBoth<T>(a: seq<T>, b: seq<T>)
    requires a != [] && forall x :: x in a <==> x in b
    ensures b != []
  {
    assert a[0] in a;
  }

  /** A strictly sorted enumeration of a set is unique. */
  lemma {:induction false} SortedUnique<T(!new)>(le: (T, T) -> bool, a: seq<T>, b: seq<T>)
    requires TotalOrder(le) && StrictlySorted(le, a) && StrictlySorted(le, b)
    requires forall x :: x in a <==> x in b
    ensures a == b
  {
    if b != [] { MemberOfBoth(b, a); }
    if a != [] {
      assert a[0] in b;
      var i :| 0 <= i < |b| && b[i] == a[0];
      assert b[0] in a;
      var j :| 0 <= j < |a| && a[j] == b[0];
      assert le(a[0], b[0]) && le(b[0], a[0]);
      forall x
        ensures x in a[1..] <==> x in b[1..]
      {
        if x in a[1..] { var k :| 0 <= k < |a[1..]| && a[1..][k] == x; assert a[k + 1] == x; assert x in b; }
        if x in b[1..] { var k :| 0 <= k < |b[1..]| && b[1..][k] == x; assert b[k + 1] == x; assert x in a; }
      }
      SortedUnique(le, a[1..], b[1..]);
      assert a == [a[0]] + a[1..] && b == [b[0]] + b[1..];
    }
  }

  predicate IntLe(x: int, y: int) { x <= y }

  function Min(s: set<int>): (m: int)
    requires s != {}
    ensures m in s && forall y | y in s :: m <= y
  {
    LeastExists(IntLe, s);
    assert exists m :: m in s && forall y | y in s :: m <= y by {
      var w :| w in s && forall y | y in s :: IntLe(w, y);
      assert forall y | y in s :: IntLe(w, y) && w <= y;
    }
    var m :| m in s && forall y | y in s :: m <= y; m
  }

  predicate IntGe(x: int, y: int) { x >= y }

  function Max(s: set<int>): (m: int)
    requires s != {}
    ensures m in s && forall y | y in s :: y <= m
  {
    LeastExists(IntGe, s);
    assert exists m :: m in s && forall y | y in s :: y <= m by {
      var w :| w in s && forall y | y in s :: IntGe(w, y);
      assert forall y | y in s :: IntGe(w, y) && y <= w;
    }
    var m :| m in s && forall y | y in s :: y <= m; m
  }

  /** Byte-wise string order, as in Go's sort.Strings and PostgreSQL's C collation. */
  predicate TextLe(a: string, b: string) {
    a == [] || (b != [] && (a[0] < b[0] || (a[0] == b[0] && TextLe(a[1..], b[1..]))))
  }

  lemma {:induction false} TextLeTotal(a: string, b: string)
    ensures TextLe(a, b) || TextLe(b, a)
  {
    if a != [] && b != [] { TextLeTotal(a[1..], b[1..]); }
  }

  lemma {:induction false} TextLeAntisymmetric(a: string, b: string)
    requires TextLe(a, b) && TextLe(b, a)
    ensures a == b
  {
    if a != [] && b != [] {
      TextLeAntisymmetric(a[1..], b[1..]);
      assert a == [a[0]] + a[1..] && b == [b[0]] + b[1..];
    }
  }

  lemma {:induction false} TextLeTransitive(a: string, b: string, c: string)
    requires TextLe(a, b) && TextLe(b, c)
    ensures TextLe(a, c)
  {
    if a != [] && a[0] == b[0] && b[0] == c[0] { TextLeTransitive(a[1..], b[1..], c[1..]); }
  }

  lemma TextOrder()
    ensures TotalOrder(TextLe)
  {
    forall x ensures TextLe(x, x) { TextLeTotal(x, x); }
    forall x, y | TextLe(x, y) && TextLe(y, x) ensures x == y { TextLeAntisymmetric(x, y); }
    forall x, y, z | TextLe(x, y) && TextLe(y, z) ensures TextLe(x, z) { TextLeTransitive(x, y, z); }
    forall x, y ensures TextLe(x, y) || TextLe(y, x) { TextLeTotal(x, y); }
  }

  function SortTexts(s: set<string>): (r: seq<string>)
    ensures forall x :: x in r <==> x in s
    ensures |r| == |s|
    ensures StrictlySorted(TextLe, r)
  {
    TextOrder();
    SortSet(TextLe, s)
  }

  /** Order of (step, ts) and (ts, step) pairs: ORDER BY a, b. */
  predicate PairLe(a: (int, int), b: (int, int)) {
    a.0 < b.0 || (a.0 == b.0 && a.1 <= b.1)
  }

  function SortPairs(s: set<(int, int)>): (r: seq<(int, int)>)
    ensures forall x :: x in r <==> x in s
    ensures |r| == |s|
    ensures StrictlySorted(PairLe, r)
  {
    assert TotalOrder(PairLe);
    SortSet(PairLe, s)
  }

  lemma SomeMember<T>(s: set<T>) returns (x: T)
    requires s != {}
    ensures x in s
  {
    x :| x in s;
  }

  /** ORDER BY rank LIMIT n over a pool: at most n of them, and nothing with a smaller rank left out. */
  ghost predicate Lowest<T(!new)>(pool: set<T>, rank: T -> int, chosen: seq<T>, limit: nat) {
    && |chosen| <= limit
    && (forall i, j | 0 <= i < j < |chosen| :: chosen[i] != chosen[j] && rank(chosen[i]) <= rank(chosen[j]))
    && (forall x | x in chosen :: x in pool)
    && (forall x | x in pool && x !in chosen :: |chosen| == limit && forall y | y in chosen :: rank(y) <= rank(x))
  }

  method SelectLowest<T(!new, ==)>(pool: set<T>, rank: T -> int, limit: nat) returns (chosen: seq<T>)
    ensures Lowest(pool, rank, chosen, limit)
  {
    chosen := [];
    var rest := pool;
    while |chosen| < limit && rest != {}
      invariant |chosen| <= limit
      invariant forall x :: x in pool <==> x in rest || x in chosen
      invariant forall x | x in rest :: x !in chosen
      invariant forall x, y | x in rest && y in chosen :: rank(y) <= rank(x)
      invariant forall i, j | 0 <= i < j < |chosen| :: chosen[i] != chosen[j] && rank(chosen[i]) <= rank(chosen[j])
      decreases rest
    {
      var x := LowestOf(rest, rank);
      chosen := chosen + [x];
      rest := rest - {x};
    }
  }

  method LowestOf<T(!new, ==)>(pool: set<T>, rank: T -> int) returns (x: T)
    requires pool != {}
    ensures x in pool && forall y | y in pool :: rank(x) <= rank(y)
  {
    var ranks := set y | y in pool :: rank(y);
    var some :| some in pool;
    assert rank(some) in ranks;
    var lowest := Min(ranks);
    x :| x in pool && rank(x) == lowest;
    assert forall y | y in pool :: rank(y) in ranks;
  }
}
