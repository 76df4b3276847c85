/** Like documents: one (user, subject) record per like, where the subject is
    a post, a reel or a story. Liking creates a record, unliking deletes
    the first matching one, and the subject keeps a separate counter. */
module Likes {
  import opened Base
  import opened Lists

  datatype Like = Like(user: UserId, subject: RecordId)

  /** The number of like records about one subject. */
  function CountFor(likes: seq<Like>, subject: RecordId): (n: nat)
    ensures n <= |likes|
  {
    if likes == [] then 0
    else
      var last := if likes[|likes| - 1].subject == subject then 1 else 0;
      CountFor(likes[..|likes| - 1], subject) + last
  }

  lemma {:induction false} CountForAppend(a: seq<Like>, b: seq<Like>, subject: RecordId)
    ensures CountFor(a + b, subject) == CountFor(a, subject) + CountFor(b, subject)
    decreases |b|
  {
    if b == [] {
      assert a + b == a;
    } else {
      var b' := b[..|b| - 1];
      assert (a + b)[..|a + b| - 1] == a + b';
      CountForAppend(a, b', subject);
    }
  }

  /** `findOne` then `deleteOne`, or `new Like(...).save()`: the count for
      the like's subject moves by one, every other count stays. */
  lemma CountForToggle(likes: seq<Like>, l: Like, subject: RecordId)
    ensures CountFor(Toggle(likes, l), subject)
         == CountFor(likes, subject) + (if l.subject != subject then 0 else if l in likes then -1 else 1)
  {
    if l in likes {
      var r := Toggle(likes, l);
      var i := IndexOf(likes, l);
      assert r[..i] + [l] + r[i..] == likes;
      assert r == r[..i] + r[i..];
      CountForAppend(r[..i] + [l], r[i..], subject);
      CountForAppend(r[..i], [l], subject);
      CountForAppend(r[..i], r[i..], subject);
      assert CountFor([l], subject) == (if l.subject == subject then 1 else 0) by {
        assert [l][..0] == [];
      }
    } else {
      CountForAppend(likes, [l], subject);
      assert CountFor([l], subject) == (if l.subject == subject then 1 else 0) by {
        assert [l][..0] == [];
      }
    }
  }

  /** `Math.max(lo, n)`. */
  function Max(lo: int, n: int): (r: int)
    ensures r >= lo && r >= n
    ensures r == lo || r == n
  {
    if n > lo then n else lo
  }
}
