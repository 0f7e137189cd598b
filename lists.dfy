/**
 * The list operations the models perform on their JSON list fields
 * (`collection_things`, `collection_invites`, `thing_deal`, `thing_faq`,
 * `user_things`, the user's shared collections): append-if-absent, Python's
 * `list.remove` (which drops the first occurrence), and filtering a table.
 */
module Lists {

  /** No element occurs twice. */
  predicate NoDup<T(==,!new)>(s: seq<T>) {
    forall i, j :: 0 <= i < j < |s| ==> s[i] != s[j]
  }

  /** `if x not in s: s.append(x)` */
  function AppendIfAbsent<T(==,!new)>(s: seq<T>, x: T): (r: seq<T>)
    ensures x in r
    ensures forall y :: y in r <==> y in s || y == x
    ensures |s| <= |r| <= |s| + 1 && r[..|s|] == s
    ensures x in s ==> r == s
    ensures NoDup(s) ==> NoDup(r)
  {
    if x in s then s else s + [x]
  }

  /** Appending an element that is already there changes nothing, so a second append is a no-op. */
  lemma AppendIfAbsentIdempotent<T(!new)>(s: seq<T>, x: T)
    ensures AppendIfAbsent(AppendIfAbsent(s, x), x) == AppendIfAbsent(s, x)
  {
  }

  /** The position of the first occurrence of `x` in `s`. */
  function IndexOf<T(==,!new)>(s: seq<T>, x: T): (i: nat)
    requires x in s
    ensures i < |s| && s[i] == x && x !in s[..i]
  {
    if s[0] == x then 0 else
      var k := IndexOf(s[1..], x);
      assert s[1..][..k] == s[1..k + 1];
      k + 1
  }

  /** Python's `s.remove(x)` guarded by `if x in s`: drops the first occurrence of `x`, if any. */
  function RemoveFirst<T(==,!new)>(s: seq<T>, x: T): (r: seq<T>)
    ensures x !in s ==> r == s
    ensures x in s ==> r == s[..IndexOf(s, x)] + s[IndexOf(s, x) + 1..]
  {
    if s == [] then []
    else if s[0] == x then s[1..]
    else
      var rest := RemoveFirst(s[1..], x);
      assert x in s ==> x in s[1..] && IndexOf(s, x) == IndexOf(s[1..], x) + 1;
      [s[0]] + rest
  }

  /** Removing an element takes exactly one copy of it out of the list, when there is one. */
  lemma {:induction false} RemoveFirstMultiset<T(!new)>(s: seq<T>, x: T)
    ensures multiset(RemoveFirst(s, x)) == multiset(s) - multiset{x}
  {
    if x in s {
      DropMultiset(s, IndexOf(s, x));
    }
  }

  lemma DropMultiset<T>(s: seq<T>, i: nat)
    requires i < |s|
    ensures multiset(s[..i] + s[i + 1..]) == multiset(s) - multiset{s[i]}
  {
    assert s == s[..i] + [s[i]] + s[i + 1..];
    assert multiset(s) == multiset(s[..i]) + multiset{s[i]} + multiset(s[i + 1..]);
  }

  /** After removing `x` from a list without duplicates, `x` is gone, every other element stays, and the list stays duplicate-free. */
  lemma {:induction false} RemoveFirstFromNoDup<T(!new)>(s: seq<T>, x: T)
    requires NoDup(s)
    ensures x !in RemoveFirst(s, x)
    ensures forall y :: y != x ==> (y in RemoveFirst(s, x) <==> y in s)
    ensures NoDup(RemoveFirst(s, x))
    ensures x in s ==> |RemoveFirst(s, x)| == |s| - 1
  {
    if x in s {
      var i := IndexOf(s, x);
      var r := s[..i] + s[i + 1..];
      assert RemoveFirst(s, x) == r;
      assert x !in s[i + 1..] by {
        forall j | i + 1 <= j < |s| ensures s[j] != x {
          assert s[i] == x;
        }
      }
      forall y | y != x ensures y in r <==> y in s {
        assert s == s[..i] + [x] + s[i + 1..];
      }
      NoDupAfterDrop(s, i);
    }
  }

  /** Dropping the element at position `i` keeps a list duplicate-free. */
  lemma NoDupAfterDrop<T(!new)>(s: seq<T>, i: nat)
    requires NoDup(s) && i < |s|
    ensures NoDup(s[..i] + s[i + 1..])
  {
    var r := s[..i] + s[i + 1..];
    forall a, b | 0 <= a < b < |r| ensures r[a] != r[b] {
      var a' := if a < i then a else a + 1;
      var b' := if b < i then b else b + 1;
      assert r[a] == s[a'] && r[b] == s[b'] && a' < b';
    }
  }

  /** The elements of `s` that satisfy `p`, in their original order (a table filter). */
  function Filter<T(!new)>(s: seq<T>, p: T -> bool): (r: seq<T>)
    ensures |r| <= |s|
    ensures forall x :: x in r <==> x in s && p(x)
    ensures forall x :: multiset(r)[x] == if p(x) then multiset(s)[x] else 0
  {
    if s == [] then []
    else
      var rest := Filter(s[1..], p);
      assert s == [s[0]] + s[1..];
      if p(s[0]) then [s[0]] + rest else rest
  }
}
