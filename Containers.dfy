/** The usual optional-value and result wrappers. */
module Wrappers {
  datatype Option<+T> = None | Some(value: T)

  datatype Result<+T, +E> = Ok(value: T) | Err(error: E)
}

// Sequence helpers shared by the menu and list-view models: the two
// removal helpers, `remove_element_from_container` (called by
// Menu::remove) and `remove_from_container` (called by
// ListView::removeItem), both taken here as dropping every occurrence
// (`Without`), and `std::vector::insert`.

module Containers {

  /** `s` with every occurrence of `x` taken out, the rest in order. */
  function Without<T(==)>(s: seq<T>, x: T): (r: seq<T>)
    ensures |r| <= |s|
  {
    if s == [] then []
    else (if s[0] == x then [] else [s[0]]) + Without(s[1..], x)
  }

  /** No element occurs twice. */
  predicate NoDups<T(==)>(s: seq<T>) {
    forall i, j :: 0 <= i < |s| && 0 <= j < |s| && i != j ==> s[i] != s[j]
  }

  /** Taking `x` out leaves exactly the other elements. */
  lemma {:induction false} WithoutMembers<T>(s: seq<T>, x: T)
    ensures forall y :: y in Without(s, x) <==> y in s && y != x
  {
    if s != [] {
      WithoutMembers(s[1..], x);
      assert s == [s[0]] + s[1..];
    }
  }

  /** Filtering out `x` removes it from the multiset and keeps every other count. */
  lemma {:induction false} WithoutMultiset<T>(s: seq<T>, x: T)
    ensures multiset(Without(s, x)) == multiset(s)[x := 0]
  {
    if s != [] {
      WithoutMultiset(s[1..], x);
      assert s == [s[0]] + s[1..];
    }
  }

  /** A container without duplicates loses exactly the element at the position of `x`. */
  lemma {:induction false} WithoutAt<T>(s: seq<T>, k: nat)
    requires k < |s| && NoDups(s)
    ensures Without(s, s[k]) == s[..k] + s[k + 1..]
  {
    if k == 0 {
      WithoutAbsent(s[1..], s[0]);
      assert s[..0] + s[1..] == s[1..];
    } else {
      assert NoDups(s[1..]) by {
        forall i, j | 0 <= i < |s[1..]| && 0 <= j < |s[1..]| && i != j
          ensures s[1..][i] != s[1..][j]
        {
          assert s[1..][i] == s[i + 1] && s[1..][j] == s[j + 1];
        }
      }
      WithoutAt(s[1..], k - 1);
      assert s[1..][k - 1] == s[k];
      assert s[0] != s[k];
      assert s[..k] == [s[0]] + s[1..][..k - 1];
      assert s[k + 1..] == s[1..][k..];
    }
  }

  /** Taking out an absent element changes nothing. */
  lemma {:induction false} WithoutAbsent<T>(s: seq<T>, x: T)
    requires x !in s
    ensures Without(s, x) == s
  {
    if s != [] {
      WithoutAbsent(s[1..], x);
      assert s == [s[0]] + s[1..];
    }
  }

  /** Filtering keeps a duplicate-free container duplicate-free. */
  lemma {:induction false} WithoutNoDups<T>(s: seq<T>, x: T)
    requires NoDups(s)
    ensures NoDups(Without(s, x))
  {
    if s != [] {
      var tail := s[1..];
      assert NoDups(tail) by {
        forall i, j | 0 <= i < |tail| && 0 <= j < |tail| && i != j
          ensures tail[i] != tail[j]
        {
          assert tail[i] == s[i + 1] && tail[j] == s[j + 1];
        }
      }
      WithoutNoDups(tail, x);
      WithoutMembers(tail, x);
      assert s[0] !in tail by {
        forall i | 0 <= i < |tail| ensures tail[i] != s[0] {
          assert tail[i] == s[i + 1];
        }
      }
      var head := if s[0] == x then [] else [s[0]];
      var r := head + Without(tail, x);
      forall i, j | 0 <= i < |r| && 0 <= j < |r| && i != j
        ensures r[i] != r[j]
      {
        if head != [] && (i == 0 || j == 0) {
          var other := if i == 0 then j else i;
          assert r[other] in Without(tail, x);
        }
      }
    }
  }

  /** `s` with `x` placed before position `i` (`std::vector::insert`). */
  function InsertAt<T>(s: seq<T>, i: nat, x: T): (r: seq<T>)
    requires i <= |s|
    ensures |r| == |s| + 1 && r[i] == x
    ensures forall k :: 0 <= k < i ==> r[k] == s[k]
    ensures forall k :: i < k < |r| ==> r[k] == s[k - 1]
  {
    s[..i] + [x] + s[i..]
  }

  /** The position of the first `x` in `s`, or -1 when there is none. */
  function IndexOf<T(==)>(s: seq<T>, x: T): (r: int)
    ensures -1 <= r < |s|
    ensures r == -1 <==> x !in s
    ensures 0 <= r ==> s[r] == x && x !in s[..r]
  {
    if s == [] then -1
    else if s[0] == x then 0
    else
      var k := IndexOf(s[1..], x);
      assert k >= 0 ==> s[1..][..k] == s[1..k + 1] && s[..k + 1] == [s[0]] + s[1..k + 1];
      if k == -1 then -1 else k + 1
  }

  /** Filtering distributes over concatenation. */
  lemma {:induction false} WithoutConcat<T>(a: seq<T>, b: seq<T>, x: T)
    ensures Without(a + b, x) == Without(a, x) + Without(b, x)
  {
    if a != [] {
      WithoutConcat(a[1..], b, x);
      assert (a + b)[1..] == a[1..] + b;
    } else {
      assert a + b == b;
    }
  }

  /** An element inserted where it was absent is found at the position it was put. */
  lemma IndexOfInserted<T>(s: seq<T>, i: nat, x: T)
    requires i <= |s| && x !in s
    ensures IndexOf(InsertAt(s, i, x), x) == i
  {
    var r := InsertAt(s, i, x);
    assert r[..i] == s[..i];
  }

  /** Taking `x` out of a container with one `x` between absent parts joins the parts. */
  lemma {:induction false} WithoutBetween<T>(front: seq<T>, x: T, back: seq<T>)
    requires x !in front && x !in back
    ensures Without(front + [x] + back, x) == front + back
  {
    WithoutConcat(front + [x], back, x);
    WithoutConcat(front, [x], x);
    WithoutAbsent(front, x);
    WithoutAbsent(back, x);
    assert Without([x], x) == [];
  }

  /** Taking out an element inserted where it was absent restores the container. */
  lemma WithoutInserted<T>(s: seq<T>, i: nat, x: T)
    requires i <= |s| && x !in s
    ensures Without(InsertAt(s, i, x), x) == s
  {
    assert x !in s[..i] && x !in s[i..];
    WithoutBetween(s[..i], x, s[i..]);
    assert s[..i] + s[i..] == s;
  }

  /**
   * Inserting an element that was not there puts it exactly at the
   * requested position, and taking it out again restores the container.
   */
  lemma InsertThenRemove<T>(s: seq<T>, i: nat, x: T)
    requires i <= |s| && x !in s
    ensures IndexOf(InsertAt(s, i, x), x) == i
    ensures Without(InsertAt(s, i, x), x) == s
  {
    IndexOfInserted(s, i, x);
    WithoutInserted(s, i, x);
  }

  /** Inserting keeps a container free of duplicates when the new element is new. */
  lemma InsertNoDups<T>(s: seq<T>, i: nat, x: T)
    requires i <= |s| && x !in s && NoDups(s)
    ensures NoDups(InsertAt(s, i, x))
  {
    var r := InsertAt(s, i, x);
    forall a, b | 0 <= a < |r| && 0 <= b < |r| && a != b
      ensures r[a] != r[b]
    {
      var a' := if a < i then a else a - 1;
      var b' := if b < i then b else b - 1;
      if a != i && b != i {
        assert r[a] == s[a'] && r[b] == s[b'];
      } else if a == i {
        assert r[b] == s[b'];
      } else {
        assert r[a] == s[a'];
      }
    }
  }
}
