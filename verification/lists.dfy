/** Python list operations that the bridge planner relies on:
    `list.remove` (drop the first occurrence of a value) and the
    uniqueness of dictionary keys. */
module Lists {

  /** No value occurs twice (what a dictionary guarantees of its keys). */
  ghost predicate Distinct<T(!new)>(s: seq<T>)
  {
    forall x :: multiset(s)[x] <= 1
  }

  /** Two different positions of a duplicate-free sequence hold different values. */
  lemma DistinctAt<T(!new)>(s: seq<T>, i: nat, j: nat)
    requires Distinct(s)
    requires i < j < |s|
    ensures s[i] != s[j]
  {
    assert s == s[..j] + [s[j]] + s[j + 1..];
    assert s[i] in multiset(s[..j]);
    assert multiset(s)[s[j]] == multiset(s[..j])[s[j]] + 1 + multiset(s[j + 1..])[s[j]];
  }

  /** A sub-multiset of a duplicate-free sequence is duplicate-free. */
  lemma DistinctSub<T(!new)>(s: seq<T>, u: seq<T>)
    requires Distinct(u)
    requires multiset(s) <= multiset(u)
    ensures Distinct(s)
  {
    forall x ensures multiset(s)[x] <= 1 {
      assert multiset(s)[x] <= multiset(u)[x];
    }
  }

  /** Two different members of a sequence form a sub-multiset of it. */
  lemma PairIn<T>(x: T, y: T, s: seq<T>)
    requires x != y && x in s && y in s
    ensures multiset([x, y]) <= multiset(s)
  {
    assert x in multiset(s) && y in multiset(s);
    forall z ensures multiset([x, y])[z] <= multiset(s)[z] {
      assert multiset([x, y]) == multiset{x} + multiset{y};
    }
  }

  /** Position of the first occurrence of `x` in `s`. */
  function IndexOf<T(==)>(s: seq<T>, x: T): (i: nat)
    requires x in s
    ensures i < |s| && s[i] == x
    ensures x !in s[..i]
  {
    if s[0] == x then 0 else 1 + IndexOf(s[1..], x)
  }

  /** `list.remove(x)`: the sequence without the first occurrence of `x`. */
  function Remove<T(==)>(s: seq<T>, x: T): (r: seq<T>)
    requires x in s
    ensures |r| == |s| - 1
  {
    var i := IndexOf(s, x);
    s[..i] + s[i + 1..]
  }

  /** `Remove` takes away exactly one `x` and nothing else. */
  lemma RemoveDropsOne<T>(s: seq<T>, x: T)
    requires x in s
    ensures multiset(Remove(s, x)) == multiset(s) - multiset{x}
  {
    var i := IndexOf(s, x);
    assert s == s[..i] + [x] + s[i + 1..];
    assert multiset(s) == multiset(s[..i]) + multiset{x} + multiset(s[i + 1..]);
    assert multiset(Remove(s, x)) == multiset(s[..i]) + multiset(s[i + 1..]);
  }

  /** What `Remove` drops is the first occurrence: everything before it
      and everything after it stays, in order. */
  lemma RemoveIsFirst<T>(s: seq<T>, x: T)
    requires x in s
    ensures exists i :: 0 <= i < |s| && s[i] == x && x !in s[..i] && Remove(s, x) == s[..i] + s[i + 1..]
  {
    var i := IndexOf(s, x);
    assert Remove(s, x) == s[..i] + s[i + 1..];
  }

  /** After removing the first of `people` from `a`, the rest of `people`
      is still contained in what is left, and taking the rest away from
      that leaves what taking all of `people` from `a` leaves. */
  lemma RemoveFirstOf<T(!new)>(a: seq<T>, people: seq<T>)
    requires multiset(people) <= multiset(a)
    requires people != []
    ensures people[0] in a
    ensures multiset(people[1..]) <= multiset(Remove(a, people[0]))
    ensures multiset(Remove(a, people[0])) - multiset(people[1..]) == multiset(a) - multiset(people)
  {
    var p, rest := people[0], people[1..];
    assert people == [p] + rest;
    assert p in multiset(a);
    var a' := Remove(a, p);
    RemoveDropsOne(a, p);
    forall x ensures (multiset(a') - multiset(rest))[x] == (multiset(a) - multiset(people))[x] {
      assert multiset(people)[x] == multiset(rest)[x] + (if x == p then 1 else 0);
      assert multiset(a')[x] == multiset(a)[x] - (if x == p then 1 else 0);
    }
  }

  /** Moving `people` from one side to the end of the other changes
      neither who is present nor how often. */
  lemma MoveKeepsEveryone<T(!new)>(a: seq<T>, a': seq<T>, b: seq<T>, people: seq<T>)
    requires multiset(people) <= multiset(a)
    requires multiset(a') == multiset(a) - multiset(people)
    ensures multiset(a') + multiset(b + people) == multiset(a) + multiset(b)
  {
    assert multiset(b + people) == multiset(b) + multiset(people);
    forall x ensures (multiset(a') + multiset(b + people))[x] == (multiset(a) + multiset(b))[x] {
      assert multiset(a')[x] == multiset(a)[x] - multiset(people)[x];
    }
  }
}
