/** Failure-compatible result types shared by the models. */
module Wrappers {
  datatype Option<+T> = None | Some(value: T)

  datatype Result<+T> = Success(value: T) | Failure(error: string)
}

/** Go's bytewise string order, on which the time windows and the hostPort sort rely. */
module Lexicographic {

  predicate Less(s: string, t: string) {
    t != [] && (s == [] || s[0] < t[0] || (s[0] == t[0] && Less(s[1..], t[1..])))
  }

  predicate AtMost(s: string, t: string) {
    s == t || Less(s, t)
  }

  lemma {:induction false} Trichotomy(s: string, t: string)
    ensures Less(s, t) || s == t || Less(t, s)
    ensures !(Less(s, t) && Less(t, s))
    ensures !Less(s, s)
  {
    if s == [] || t == [] {
      assert !Less(s, s) by { Irreflexive(s); }
    } else {
      Irreflexive(s);
      Trichotomy(s[1..], t[1..]);
      if s[0] == t[0] && s[1..] == t[1..] {
        assert s == [s[0]] + s[1..] == t;
      }
    }
  }

  /** The first place where the strings differ decides, and a proper prefix comes first. */
  lemma {:induction false} LessIff(s: string, t: string)
    ensures Less(s, t) <==> exists k :: Decides(s, t, k)
  {
    if s == [] || t == [] {
      if t != [] {
        assert Decides(s, t, 0);
      }
    } else {
      LessIff(s[1..], t[1..]);
      assert s == [s[0]] + s[1..] && t == [t[0]] + t[1..];
      if s[0] != t[0] {
        assert s[0] < t[0] ==> Decides(s, t, 0);
      } else {
        if k :| Decides(s[1..], t[1..], k) {
          assert s[..k + 1] == [s[0]] + s[1..][..k] && t[..k + 1] == [t[0]] + t[1..][..k];
          assert Decides(s, t, k + 1);
        }
        if k :| Decides(s, t, k) {
          assert k > 0;
          assert s[1..][..k - 1] == s[..k][1..] && t[1..][..k - 1] == t[..k][1..];
          assert Decides(s[1..], t[1..], k - 1);
        }
      }
    }
  }

  predicate Decides(s: string, t: string, k: int) {
    0 <= k <= |s| && k < |t| && s[..k] == t[..k] && (k == |s| || s[k] < t[k])
  }

  lemma {:induction false} Irreflexive(s: string)
    ensures !Less(s, s)
  {
    if s != [] {
      Irreflexive(s[1..]);
    }
  }

  lemma {:induction false} Transitive(s: string, t: string, u: string)
    requires Less(s, t) && Less(t, u)
    ensures Less(s, u)
  {
    if s != [] && s[0] == t[0] == u[0] {
      Transitive(s[1..], t[1..], u[1..]);
    }
  }
}

/** Go's int64: products wrap around, and division truncates toward zero. */
module Int64 {
  const TWO_63: int := 0x8000_0000_0000_0000
  const TWO_64: int := 0x1_0000_0000_0000_0000
  const MAX: int := TWO_63 - 1

  predicate Fits(x: int) {
    -TWO_63 <= x < TWO_63
  }

  /** The int64 value of an integer expression evaluated modulo 2^64. */
  function Wrap(x: int): (r: int)
    ensures Fits(r)
    ensures Fits(x) ==> r == x
  {
    (x + TWO_63) % TWO_64 - TWO_63
  }

  function Quotient(x: int, y: int): (r: int)
    requires y > 0
    ensures x >= 0 ==> r == x / y
    ensures x < 0 ==> r <= 0
    ensures x >= 0 ==> r * y <= x < r * y + y
    ensures x < 0 ==> r * y - y < x <= r * y
  {
    if x >= 0 then x / y else -((-x) / y)
  }
}

/** Lists in a different order. */
module Permutations {

  function RemoveAt<T>(s: seq<T>, j: nat): seq<T>
    requires j < |s|
  {
    s[..j] + s[j + 1..]
  }

  lemma RemoveAtMultiset<T>(s: seq<T>, j: nat)
    requires j < |s|
    ensures multiset(RemoveAt(s, j)) == multiset(s) - multiset{s[j]}
    ensures multiset(s) == multiset(RemoveAt(s, j)) + multiset{s[j]}
  {
    assert s == s[..j] + ([s[j]] + s[j + 1..]);
  }

  /** The head of a list has a place in every permutation, and the rests are permutations again. */
  lemma FindHead<T>(a: seq<T>, b: seq<T>) returns (j: nat)
    requires a != [] && multiset(a) == multiset(b)
    ensures j < |b| && b[j] == a[0]
    ensures multiset(a[1..]) == multiset(RemoveAt(b, j))
  {
    assert a[0] in multiset(b);
    j :| 0 <= j < |b| && b[j] == a[0];
    RemoveAtMultiset(b, j);
    TailMultiset(a);
  }

  lemma DropHeads<T>(a: seq<T>, b: seq<T>)
    requires a != [] && b != [] && a[0] == b[0] && multiset(a) == multiset(b)
    ensures multiset(a[1..]) == multiset(b[1..])
  {
    TailMultiset(a);
    TailMultiset(b);
  }

  lemma TailMultiset<T>(s: seq<T>)
    requires s != []
    ensures multiset(s[1..]) == multiset(s) - multiset{s[0]}
  {
    RemoveAtMultiset(s, 0);
    assert RemoveAt(s, 0) == s[1..];
  }

  lemma EmptyPermutation<T>(a: seq<T>, b: seq<T>)
    requires a == [] && multiset(a) == multiset(b)
    ensures b == []
  {
    assert |b| == |multiset(b)| == 0;
  }

  lemma RestoreHeads<T>(a: seq<T>, i: nat, b: seq<T>, j: nat)
    requires i < |a| && j < |b| && a[i] == b[j] && multiset(RemoveAt(a, i)) == multiset(RemoveAt(b, j))
    ensures multiset(a) == multiset(b)
  {
    RemoveAtMultiset(a, i);
    RemoveAtMultiset(b, j);
  }

  function Map<T, U>(f: T -> U, s: seq<T>): (r: seq<U>)
    ensures |r| == |s| && forall i :: 0 <= i < |s| ==> r[i] == f(s[i])
  {
    seq(|s|, i requires 0 <= i < |s| => f(s[i]))
  }

  lemma {:induction false} MapPermutation<T, U>(f: T -> U, a: seq<T>, b: seq<T>)
    requires multiset(a) == multiset(b)
    ensures multiset(Map(f, a)) == multiset(Map(f, b))
  {
    if a == [] {
      EmptyPermutation(a, b);
    } else {
      var j := FindHead(a, b);
      MapPermutation(f, a[1..], RemoveAt(b, j));
      assert Map(f, RemoveAt(b, j)) == RemoveAt(Map(f, b), j);
      assert Map(f, a[1..]) == RemoveAt(Map(f, a), 0);
      RestoreHeads(Map(f, a), 0, Map(f, b), j);
    }
  }

  function Flat<T>(lists: seq<seq<T>>): seq<T> {
    if lists == [] then [] else Flat(lists[..|lists| - 1]) + lists[|lists| - 1]
  }

  lemma FlatSnoc<T>(lists: seq<seq<T>>, last: seq<T>)
    ensures Flat(lists + [last]) == Flat(lists) + last
  {
    assert (lists + [last])[..|lists|] == lists;
  }

  lemma {:induction false} FlatWithout<T>(lists: seq<seq<T>>, j: nat)
    requires j < |lists|
    ensures multiset(Flat(lists)) == multiset(Flat(RemoveAt(lists, j))) + multiset(lists[j])
  {
    var n := |lists| - 1;
    var before, last := lists[..n], lists[n];
    assert lists == before + [last];
    FlatSnoc(before, last);
    if j == n {
      assert RemoveAt(lists, n) == before;
    } else {
      FlatWithout(before, j);
      FlatSnoc(RemoveAt(before, j), last);
      assert RemoveAt(lists, j) == RemoveAt(before, j) + [last];
      assert multiset(Flat(RemoveAt(lists, j))) == multiset(Flat(RemoveAt(before, j))) + multiset(last);
    }
  }

  lemma {:induction false} FlatPermutation<T>(a: seq<seq<T>>, b: seq<seq<T>>)
    requires multiset(a) == multiset(b)
    ensures multiset(Flat(a)) == multiset(Flat(b))
  {
    if a == [] {
      EmptyPermutation(a, b);
    } else {
      var j := FindHead(a, b);
      FlatPermutation(a[1..], RemoveAt(b, j));
      FlatWithout(b, j);
      FlatWithout(a, 0);
      assert RemoveAt(a, 0) == a[1..];
    }
  }
}
