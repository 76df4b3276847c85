/** The operations the controllers perform on lists of ids: `includes`,
    `indexOf` + `splice`, `filter` / `$pull`, guarded `push`, and the
    like/unlike toggle built from them. */
module Lists {

  /** No id occurs twice. */
  ghost predicate NoDup<T>(s: seq<T>) {
    forall i, j :: 0 <= i < j < |s| ==> s[i] != s[j]
  }

  /** `indexOf` / `findIndex`: the first position holding x, or -1. */
  function IndexOf<T(==)>(s: seq<T>, x: T): (r: int)
    ensures -1 <= r < |s|
    ensures r == -1 <==> x !in s
    ensures 0 <= r ==> s[r] == x && x !in s[..r]
  {
    if s == [] then -1
    else if s[0] == x then 0
    else
      var k := IndexOf(s[1..], x);
      if k == -1 then -1
      else
        assert s[..k + 1] == [s[0]] + s[1..][..k];
        k + 1
  }

  /** `splice(i, 1)`. */
  function RemoveAt<T>(s: seq<T>, i: nat): (r: seq<T>)
    requires i < |s|
    ensures |r| == |s| - 1
    ensures r[..i] + [s[i]] + r[i..] == s
  {
    assert s == s[..i] + [s[i]] + s[i + 1..];
    s[..i] + s[i + 1..]
  }

  /** `indexOf` then `splice` when found: only the first occurrence of x
      goes, and putting x back at its old position gives back s. */
  function RemoveFirst<T(==)>(s: seq<T>, x: T): (r: seq<T>)
    ensures x !in s ==> r == s
    ensures x in s ==> |r| == |s| - 1 && r[..IndexOf(s, x)] + [x] + r[IndexOf(s, x)..] == s
    ensures multiset(r) == multiset(s) - multiset{x}
  {
    var i := IndexOf(s, x);
    if i == -1 then s
    else
      var r := RemoveAt(s, i);
      calc {
        multiset(s);
        multiset(r[..i] + [x] + r[i..]);
        multiset(r[..i]) + multiset{x} + multiset(r[i..]);
        { assert r == r[..i] + r[i..]; }
        multiset(r) + multiset{x};
      }
      r
  }

  /** `filter(m => m !== x)` and Mongo's `$pull`: every occurrence goes,
      every other element stays, in order. */
  function RemoveAll<T(==,!new)>(s: seq<T>, x: T): (r: seq<T>)
    ensures x !in r
    ensures |r| <= |s|
    ensures forall y :: y != x ==> (y in r <==> y in s)
    ensures forall y :: y != x ==> multiset(r)[y] == multiset(s)[y]
    ensures x !in s ==> r == s
  {
    if s == [] then []
    else
      var rest := RemoveAll(s[1..], x);
      assert s == [s[0]] + s[1..];
      if s[0] == x then rest else [s[0]] + rest
  }

  /** `if (!s.includes(x)) s.push(x)`: x becomes a member and s is kept as
      a prefix. */
  function AddIfAbsent<T(==,!new)>(s: seq<T>, x: T): (r: seq<T>)
    ensures x in r
    ensures x in s ==> r == s
    ensures x !in s ==> r == s + [x]
    ensures |s| <= |r| <= |s| + 1 && r[..|s|] == s
    ensures forall y :: y in r <==> y in s || y == x
    ensures NoDup(s) ==> NoDup(r)
  {
    if x in s then s else s + [x]
  }

  /** The like/unlike toggle: remove the first occurrence when present,
      otherwise append. */
  function Toggle<T(==,!new)>(s: seq<T>, x: T): (r: seq<T>)
    ensures x in s ==> r == RemoveFirst(s, x) && multiset(r)[x] == multiset(s)[x] - 1
    ensures x !in s ==> r == s + [x]
    ensures forall y :: y != x ==> multiset(r)[y] == multiset(s)[y]
  {
    if x in s then RemoveFirst(s, x) else s + [x]
  }

  /** Removing the first occurrence of an element just appended, when it did
      not occur before, gives the original list back. */
  lemma {:induction false} RemoveFirstOfAppended<T>(s: seq<T>, x: T)
    requires x !in s
    ensures RemoveFirst(s + [x], x) == s
  {
    var t := s + [x];
    assert t[..|s|] == s;
    assert IndexOf(t, x) == |s|;
  }

  /** Toggling an absent id twice restores the list exactly. */
  lemma ToggleTwiceAbsent<T(!new)>(s: seq<T>, x: T)
    requires x !in s
    ensures Toggle(Toggle(s, x), x) == s
  {
    RemoveFirstOfAppended(s, x);
  }

  /** Toggling an id that occurs at most once twice restores the list's
      contents (its multiset); the order may differ when x was present. */
  lemma ToggleTwiceRestoresContents<T(!new)>(s: seq<T>, x: T)
    requires multiset(s)[x] <= 1
    ensures multiset(Toggle(Toggle(s, x), x)) == multiset(s)
  {
    if x in s {
      var t := Toggle(s, x);
      assert multiset(t)[x] == 0;
      assert x !in t;
      assert multiset(t + [x]) == multiset(t) + multiset{x};
    } else {
      ToggleTwiceAbsent(s, x);
    }
  }

  /** `indexOf` on a list whose head is not x counts from the tail. */
  lemma IndexOfTail<T>(s: seq<T>, x: T)
    requires s != [] && s[0] != x && x in s
    ensures IndexOf(s, x) == IndexOf(s[1..], x) + 1
  {
    assert x in s[1..] by {
      var j :| 0 <= j < |s| && s[j] == x;
      assert s[1..][j - 1] == x;
    }
  }

  /** Removing the first occurrence is the splice at the found index. */
  lemma RemoveFirstSplice<T>(s: seq<T>, x: T)
    requires x in s
    ensures RemoveFirst(s, x) == s[..IndexOf(s, x)] + s[IndexOf(s, x) + 1..]
  {
  }

  /** Past a head that is not x, the splice happens one position later. */
  lemma RemoveFirstPastHead<T>(s: seq<T>, x: T, k: nat)
    requires s != [] && s[0] != x && x in s[1..] && k == IndexOf(s[1..], x)
    ensures RemoveFirst(s, x) == s[..k + 1] + s[k + 2..]
  {
    IndexOfTail(s, x);
    RemoveFirstSplice(s, x);
  }

  /** A splice past the head is the head followed by a splice of the tail. */
  lemma SplicePastHead<T>(s: seq<T>, k: nat)
    requires k + 1 < |s|
    ensures s[..k + 1] + s[k + 2..] == [s[0]] + (s[1..][..k] + s[1..][k + 1..])
  {
    assert s[..k + 1] == [s[0]] + s[1..][..k];
    assert s[k + 2..] == s[1..][k + 1..];
  }

  /** The case of `RemoveFirstCons` where x occurs in the tail. */
  lemma RemoveFirstConsFound<T>(s: seq<T>, x: T)
    requires s != [] && s[0] != x && x in s[1..]
    ensures RemoveFirst(s, x) == [s[0]] + RemoveFirst(s[1..], x)
  {
    var k := IndexOf(s[1..], x);
    RemoveFirstPastHead(s, x, k);
    SplicePastHead(s, k);
    RemoveFirstSplice(s[1..], x);
  }

  /** Removing the first occurrence of x from a list that does not start
      with x keeps the head and removes from the tail. */
  lemma {:induction false} RemoveFirstCons<T>(s: seq<T>, x: T)
    requires s != [] && s[0] != x
    ensures RemoveFirst(s, x) == [s[0]] + RemoveFirst(s[1..], x)
  {
    if x in s[1..] {
      RemoveFirstConsFound(s, x);
    } else {
      assert x !in s;
      assert s == [s[0]] + s[1..];
    }
  }

  /** On a duplicate-free list, removing the first occurrence and removing
      every occurrence agree. */
  lemma {:induction false} RemoveFirstIsRemoveAll<T(!new)>(s: seq<T>, x: T)
    requires NoDup(s)
    ensures RemoveFirst(s, x) == RemoveAll(s, x)
  {
    if s == [] {
    } else {
      var t := s[1..];
      assert NoDup(t) by {
        forall i, j | 0 <= i < j < |t| ensures t[i] != t[j] {
          assert t[i] == s[i + 1] && t[j] == s[j + 1];
        }
      }
      if s[0] == x {
        assert x !in t by {
          forall j | 0 <= j < |t| ensures t[j] != x {
            assert t[j] == s[j + 1];
          }
        }
      } else {
        RemoveFirstCons(s, x);
        RemoveFirstIsRemoveAll(t, x);
      }
    }
  }

  /** Removing the first occurrence keeps a duplicate-free list
      duplicate-free, and x is then gone. */
  lemma RemoveFirstNoDup<T(!new)>(s: seq<T>, x: T)
    requires NoDup(s)
    ensures NoDup(RemoveFirst(s, x)) && x !in RemoveFirst(s, x)
  {
    RemoveFirstIsRemoveAll(s, x);
    RemoveAllNoDup(s, x);
  }

  /** `filter` keeps a duplicate-free list duplicate-free. */
  lemma {:induction false} RemoveAllNoDup<T(!new)>(s: seq<T>, x: T)
    requires NoDup(s)
    ensures NoDup(RemoveAll(s, x))
  {
    if s != [] {
      var t := s[1..];
      assert NoDup(t) by {
        forall i, j | 0 <= i < j < |t| ensures t[i] != t[j] {
          assert t[i] == s[i + 1] && t[j] == s[j + 1];
        }
      }
      RemoveAllNoDup(t, x);
      if s[0] != x {
        assert s[0] !in t by {
          forall j | 0 <= j < |t| ensures t[j] != s[0] {
            assert t[j] == s[j + 1];
          }
        }
        assert s[0] !in RemoveAll(t, x);
      }
    }
  }

  /** `filter` distributes over concatenation, so it keeps the relative
      order of the elements it keeps. */
  lemma {:induction false} RemoveAllAppend<T(!new)>(a: seq<T>, b: seq<T>, x: T)
    ensures RemoveAll(a + b, x) == RemoveAll(a, x) + RemoveAll(b, x)
  {
    if a == [] {
      assert a + b == b;
    } else {
      assert (a + b)[1..] == a[1..] + b;
      RemoveAllAppend(a[1..], b, x);
    }
  }
}
