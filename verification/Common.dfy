/** Small vocabulary shared by every module: options, duplicate-free sequences and
    the name order that `Array.prototype.sort` gives. */
module Common {
  datatype Option<+T> = None | Some(value: T)

  function Min(a: int, b: int): int { if a < b then a else b }

  function Max(a: int, b: int): int { if a < b then b else a }

  ghost predicate Distinct<T>(s: seq<T>) {
    forall i, j :: 0 <= i < j < |s| ==> s[i] != s[j]
  }

  function Elems<T>(s: seq<T>): set<T> {
    set x | x in s
  }

  lemma {:induction false} DistinctCount<T>(s: seq<T>)
    requires Distinct(s)
    ensures |Elems(s)| == |s|
  {
    if s != [] {
      DistinctCount(s[1..]);
      assert s == [s[0]] + s[1..];
      assert Elems(s) == {s[0]} + Elems(s[1..]);
    }
  }

  lemma DistinctConcat<T>(a: seq<T>, b: seq<T>)
    requires Distinct(a) && Distinct(b) && forall x :: x in a ==> x !in b
    ensures Distinct(a + b)
  {
    forall i, j | 0 <= i < j < |a + b| ensures (a + b)[i] != (a + b)[j] {
      if i < |a| <= j { assert a[i] in a && b[j - |a|] in b; }
    }
  }

  lemma SubsetSize<T>(a: set<T>, b: set<T>)
    requires a <= b
    ensures |a| <= |b|
    ensures |a| == |b| <==> a == b
  {
    assert b == a + (b - a);
  }

  // A one-to-one image of a set is as large as the set.
  lemma {:induction false} ImageSize<T, U>(s: set<T>, f: T -> U, image: set<U>)
    requires forall a, b :: a in s && b in s && f(a) == f(b) ==> a == b
    requires forall a :: a in s ==> f(a) in image
    requires forall y :: y in image ==> exists a :: a in s && f(a) == y
    ensures |image| == |s|
    decreases |s|
  {
    if s == {} {
      assert image == {};
    } else {
      var a :| a in s;
      ImageSize(s - {a}, f, image - {f(a)});
    }
  }

  // How often `x` occurs in `s`.
  function Count<T(==)>(s: seq<T>, x: T): nat {
    if s == [] then 0
    else Count(s[..|s| - 1], x) + if s[|s| - 1] == x then 1 else 0
  }

  lemma CountSnoc<T>(s: seq<T>, y: T, x: T)
    ensures Count(s + [y], x) == Count(s, x) + if x == y then 1 else 0
  {
  }

  lemma {:induction false} CountMember<T>(s: seq<T>, x: T)
    ensures x in s <==> Count(s, x) > 0
  {
    if s != [] {
      CountMember(s[..|s| - 1], x);
      assert s == s[..|s| - 1] + [s[|s| - 1]];
    }
  }

  lemma {:induction false} CountPrefix<T>(s: seq<T>, j: nat, x: T)
    requires j <= |s|
    ensures Count(s[..j], x) <= Count(s, x)
    ensures j < |s| && s[j] == x ==> Count(s[..j], x) < Count(s, x)
  {
    if j < |s| {
      var front := s[..|s| - 1];
      assert front[..j] == s[..j];
      if j < |s| - 1 { CountPrefix(front, j, x); } else { assert s[..j] == front; }
    } else {
      assert s[..j] == s;
    }
  }

  // The two agree before position `k` and differ at it.
  ghost predicate Differ(a: string, b: string, k: nat) {
    k < |a| && k < |b| && a[..k] == b[..k] && a[k] != b[k]
  }

  // Strict lexicographic order on strings, character by character.
  predicate Before(a: string, b: string) {
    if b == "" then false
    else if a == "" then true
    else a[0] < b[0] || (a[0] == b[0] && Before(a[1..], b[1..]))
  }

  /** The dictionary order: at the first difference the smaller character decides, and a proper
      prefix comes first. */
  lemma {:induction false} BeforeMeans(a: string, b: string)
    ensures Before(a, b) <==> a < b || exists k: nat :: Differ(a, b, k) && a[k] < b[k]
  {
    if a == "" || b == "" {
    } else if a[0] != b[0] {
      assert Differ(a, b, 0);
      assert forall k: nat :: Differ(a, b, k) && k > 0 ==> a[..k][0] == b[..k][0];
    } else {
      BeforeMeans(a[1..], b[1..]);
      assert a == [a[0]] + a[1..] && b == [b[0]] + b[1..];
      forall k: nat | Differ(a[1..], b[1..], k) ensures Differ(a, b, k + 1) && a[k + 1] == a[1..][k] {
        assert a[..k + 1] == [a[0]] + a[1..][..k] && b[..k + 1] == [b[0]] + b[1..][..k];
      }
      forall k: nat | Differ(a, b, k)
        ensures k > 0 && Differ(a[1..], b[1..], k - 1) && a[k] == a[1..][k - 1] && b[k] == b[1..][k - 1]
      {
        assert a[1..][..k - 1] == a[..k][1..] && b[1..][..k - 1] == b[..k][1..];
      }
    }
  }

  lemma {:induction false} BeforeTotal(a: string, b: string)
    ensures Before(a, b) || Before(b, a) || a == b
  {
    if a != "" && b != "" && a[0] == b[0] {
      BeforeTotal(a[1..], b[1..]);
      if a[1..] == b[1..] {
        assert a == [a[0]] + a[1..] && b == [b[0]] + b[1..];
      }
    }
  }

  lemma {:induction false} BeforeTransitive(a: string, b: string, c: string)
    requires Before(a, b) && Before(b, c)
    ensures Before(a, c)
  {
    if a != "" && a[0] == b[0] == c[0] {
      BeforeTransitive(a[1..], b[1..], c[1..]);
    }
  }

  ghost predicate Ascending(s: seq<string>) {
    forall i, j :: 0 <= i < j < |s| ==> Before(s[i], s[j])
  }

  lemma InsertNameFirst(s: seq<string>, n: string)
    requires s != [] && Ascending(s) && Before(n, s[0])
    ensures Ascending([n] + s)
  {
    forall i | 0 < i < |s| ensures Before(n, s[i]) { BeforeTransitive(n, s[0], s[i]); }
  }

  lemma InsertNameLater(s: seq<string>, n: string, rest: seq<string>)
    requires s != [] && Ascending(s) && Before(s[0], n)
    requires Ascending(rest) && multiset(rest) == multiset(s[1..]) + multiset{n}
    ensures Ascending([s[0]] + rest)
  {
    forall i | 0 <= i < |rest| ensures Before(s[0], rest[i]) {
      assert rest[i] in multiset(rest);
      if rest[i] != n { assert rest[i] in s[1..]; }
    }
  }

  function InsertName(s: seq<string>, n: string): (r: seq<string>)
    requires Ascending(s) && n !in multiset(s)
    ensures Ascending(r) && multiset(r) == multiset(s) + multiset{n}
  {
    if s == [] then [n]
    else if Before(n, s[0]) then
      assert forall i | 0 < i < |s| :: Before(s[0], s[i]);
      InsertNameFirst(s, n);
      [n] + s
    else
      BeforeTotal(n, s[0]);
      assert s == [s[0]] + s[1..];
      var rest := InsertName(s[1..], n);
      InsertNameLater(s, n, rest);
      [s[0]] + rest
  }

  lemma {:induction false} BeforeIrreflexive(a: string)
    ensures !Before(a, a)
  {
    if a != "" { BeforeIrreflexive(a[1..]); }
  }

  lemma AscendingDistinct(names: seq<string>)
    requires Ascending(names)
    ensures Distinct(names)
  {
    forall a, b | 0 <= a < b < |names| ensures names[a] != names[b] { BeforeIrreflexive(names[a]); }
  }

  /** A duplicate-free list of names, sorted. */
  function SortedNames(names: seq<string>): (r: seq<string>)
    requires Distinct(names)
    ensures Ascending(r) && multiset(r) == multiset(names)
  {
    if names == [] then []
    else
      assert names == names[..|names| - 1] + [names[|names| - 1]];
      InsertName(SortedNames(names[..|names| - 1]), names[|names| - 1])
  }

  lemma SameElements(a: seq<string>, b: seq<string>)
    requires multiset(a) == multiset(b)
    ensures Elems(a) == Elems(b)
  {
    forall n ensures n in Elems(a) <==> n in Elems(b) {
      assert n in a <==> n in multiset(a);
      assert n in b <==> n in multiset(b);
    }
  }

  /** The elements of a set, in name order. */
  method SortedElements(s: set<string>) returns (names: seq<string>)
    ensures Ascending(names) && Elems(names) == s
  {
    var found: seq<string>, rest := [], s;
    while rest != {}
      invariant Distinct(found) && Elems(found) + rest == s && Elems(found) !! rest
      decreases rest
    {
      var n :| n in rest;
      found, rest := found + [n], rest - {n};
    }
    names := SortedNames(found);
    SameElements(names, found);
  }
}
