/** The greedy "bridge and torch" planner: at most two people cross at a
    time, a pair walks at the pace of its slower member, and somebody has
    to bring the single lamp back after every crossing that leaves people
    behind. The planner keeps the two fastest people as lamp carriers and
    otherwise sends the pair with the largest combined time. */
module BridgeCrossing {
  import opened Lists

  type Label = string

  /** A Python dictionary from person to crossing time: its keys in
      insertion order, and the lookup table. */
  datatype Dict = Dict(keys: seq<Label>, times: map<Label, int>) {
    ghost predicate Valid()
    {
      && Distinct(keys)
      && (forall k :: k in keys <==> k in times)
    }
  }

  /** Every label of `s` has a crossing time. */
  ghost predicate Timed(s: seq<Label>, t: map<Label, int>)
  {
    forall k :: k in s ==> k in t
  }

  function Max(x: int, y: int): (m: int)
    ensures m >= x && m >= y && (m == x || m == y)
  {
    if x >= y then x else y
  }

  // ---------------------------------------------------------------------
  // Sorting the dictionary by time (a stable sort)
  // ---------------------------------------------------------------------

  /** Crossing times never decrease along `s`. */
  ghost predicate SortedByTime(s: seq<Label>, t: map<Label, int>)
    requires Timed(s, t)
  {
    forall i, j :: 0 <= i < j < |s| ==> t[s[i]] <= t[s[j]]
  }

  /** The labels of `s` whose time is `v`, in the order of `s`. */
  function WithTime(s: seq<Label>, t: map<Label, int>, v: int): seq<Label>
    requires Timed(s, t)
  {
    if s == [] then []
    else (if t[s[0]] == v then [s[0]] else []) + WithTime(s[1..], t, v)
  }

  /** Puts `k` in front of the first label that is not faster than it, so
      that `k`, which came first in the input, stays ahead of equal times. */
  function Insert(k: Label, s: seq<Label>, t: map<Label, int>): (r: seq<Label>)
    requires k in t && Timed(s, t)
    ensures Timed(r, t)
  {
    if s == [] then [k]
    else if t[k] <= t[s[0]] then [k] + s
    else [s[0]] + Insert(k, s[1..], t)
  }

  /** Inserting adds `k` and loses nobody. */
  lemma {:induction false} InsertPermutes(k: Label, s: seq<Label>, t: map<Label, int>)
    requires k in t && Timed(s, t)
    ensures multiset(Insert(k, s, t)) == multiset(s) + multiset{k}
  {
    if s != [] && t[k] > t[s[0]] {
      InsertPermutes(k, s[1..], t);
      assert s == [s[0]] + s[1..];
    }
  }

  /** `sorted(d.items(), key=time)`: a stable insertion sort by time. */
  function SortByTime(s: seq<Label>, t: map<Label, int>): (r: seq<Label>)
    requires Timed(s, t)
    ensures Timed(r, t)
  {
    if s == [] then []
    else Insert(s[0], SortByTime(s[1..], t), t)
  }

  /** The sort reorders and neither loses nor adds anybody. */
  lemma {:induction false} SortPermutes(s: seq<Label>, t: map<Label, int>)
    requires Timed(s, t)
    ensures multiset(SortByTime(s, t)) == multiset(s)
  {
    if s != [] {
      SortPermutes(s[1..], t);
      InsertPermutes(s[0], SortByTime(s[1..], t), t);
      assert s == [s[0]] + s[1..];
    }
  }

  lemma {:induction false} InsertSorted(k: Label, s: seq<Label>, t: map<Label, int>)
    requires k in t && Timed(s, t) && SortedByTime(s, t)
    ensures SortedByTime(Insert(k, s, t), t)
    ensures Insert(k, s, t)[0] == k || (s != [] && Insert(k, s, t)[0] == s[0])
  {
    var r := Insert(k, s, t);
    if s == [] {
    } else if t[k] <= t[s[0]] {
      assert r == [k] + s;
      ConsSorted(k, s, t);
    } else {
      var rest := Insert(k, s[1..], t);
      InsertSorted(k, s[1..], t);
      assert r == [s[0]] + rest;
      assert t[s[0]] <= t[rest[0]];
      ConsSorted(s[0], rest, t);
    }
  }

  /** Putting a person no slower than the head of a sorted list in front
      keeps it sorted. */
  lemma ConsSorted(x: Label, s: seq<Label>, t: map<Label, int>)
    requires x in t && Timed(s, t) && SortedByTime(s, t)
    requires s != [] ==> t[x] <= t[s[0]]
    ensures SortedByTime([x] + s, t)
  {
    var r := [x] + s;
    forall i, j | 0 <= i < j < |r| ensures t[r[i]] <= t[r[j]] {
      if i > 0 {
        assert r[i] == s[i - 1] && r[j] == s[j - 1];
      } else {
        assert r[j] == s[j - 1];
      }
    }
  }

  lemma {:induction false} SortIsSorted(s: seq<Label>, t: map<Label, int>)
    requires Timed(s, t)
    ensures SortedByTime(SortByTime(s, t), t)
  {
    if s != [] {
      SortIsSorted(s[1..], t);
      InsertSorted(s[0], SortByTime(s[1..], t), t);
    }
  }

  /** Inserting `k` puts it ahead of everybody else with its time and
      keeps the others in order: everybody it passes is strictly faster. */
  lemma {:induction false} InsertKeepsTies(k: Label, s: seq<Label>, t: map<Label, int>, v: int)
    requires k in t && Timed(s, t)
    ensures WithTime(Insert(k, s, t), t, v) == (if t[k] == v then [k] else []) + WithTime(s, t, v)
  {
    if s == [] || t[k] <= t[s[0]] {
      assert Insert(k, s, t) == [k] + s;
      WithTimeCons(k, s, t, v);
    } else {
      InsertKeepsTies(k, s[1..], t, v);
      PassHeadKeepsTies(k, s, t, v);
    }
  }

  /** The step of `InsertKeepsTies` when `k` goes past a strictly faster
      first element. */
  lemma PassHeadKeepsTies(k: Label, s: seq<Label>, t: map<Label, int>, v: int)
    requires k in t && Timed(s, t) && s != [] && t[s[0]] < t[k]
    requires WithTime(Insert(k, s[1..], t), t, v) == (if t[k] == v then [k] else []) + WithTime(s[1..], t, v)
    ensures WithTime(Insert(k, s, t), t, v) == (if t[k] == v then [k] else []) + WithTime(s, t, v)
  {
    var rest := Insert(k, s[1..], t);
    var w := WithTime(s[1..], t, v);
    assert WithTime(Insert(k, s, t), t, v) == (if t[s[0]] == v then [s[0]] else []) + WithTime(rest, t, v) by {
      assert Insert(k, s, t) == [s[0]] + rest;
      WithTimeCons(s[0], rest, t, v);
    }
    assert WithTime(s, t, v) == (if t[s[0]] == v then [s[0]] else []) + w by {
      assert s == [s[0]] + s[1..];
      WithTimeCons(s[0], s[1..], t, v);
    }
    if t[k] == v {
      assert t[s[0]] != v;
      assert WithTime(rest, t, v) == [k] + w;
      assert [] + WithTime(rest, t, v) == WithTime(rest, t, v);
      assert [] + w == w;
    } else {
      assert WithTime(rest, t, v) == [] + w;
      assert [] + w == w;
      assert [] + WithTime(s, t, v) == WithTime(s, t, v);
    }
  }

  /** `WithTime` on a list with a known first element. */
  lemma WithTimeCons(x: Label, s: seq<Label>, t: map<Label, int>, v: int)
    requires x in t && Timed(s, t)
    ensures WithTime([x] + s, t, v) == (if t[x] == v then [x] else []) + WithTime(s, t, v)
  {
    assert ([x] + s)[1..] == s;
  }

  /** The sort is stable: the people sharing any one time keep their
      relative input order. */
  lemma {:induction false} SortIsStable(s: seq<Label>, t: map<Label, int>, v: int)
    requires Timed(s, t)
    ensures WithTime(SortByTime(s, t), t, v) == WithTime(s, t, v)
  {
    if s != [] {
      InsertKeepsTies(s[0], SortByTime(s[1..], t), t, v);
      SortIsStable(s[1..], t, v);
    }
  }

  /** The dictionary comprehension that rebuilds `d` with its keys in
      ascending order of time; the times themselves are unchanged. */
  function SortedDict(d: Dict): (r: Dict)
    requires d.Valid()
    ensures r.Valid() && r.times == d.times
    ensures multiset(r.keys) == multiset(d.keys)
  {
    var r := Dict(SortByTime(d.keys, d.times), d.times);
    SortPermutes(d.keys, d.times);
    DistinctSub(r.keys, d.keys);
    assert forall k :: k in r.keys <==> k in multiset(d.keys);
    r
  }

  // ---------------------------------------------------------------------
  // get_fastest_pair
  // ---------------------------------------------------------------------

  /** `list(d.keys())[:2]`: the first two keys, or fewer if there are fewer. */
  function GetFastestPair(d: Dict): (p: seq<Label>)
    ensures p <= d.keys
    ensures |p| == if |d.keys| < 2 then |d.keys| else 2
  {
    if |d.keys| < 2 then d.keys else d.keys[..2]
  }

  /** On the time-sorted dictionary, the fastest pair is the fastest person
      and the fastest of the others; among equal times the one entered
      first in the input wins. */
  lemma FastestPairIsTwoFastest(d: Dict)
    requires d.Valid() && |d.keys| >= 2
    ensures var p := GetFastestPair(SortedDict(d));
      && |p| == 2 && p[0] != p[1] && p[0] in d.keys && p[1] in d.keys
      && (forall k :: k in d.keys ==> d.times[p[0]] <= d.times[k])
      && (forall k :: k in d.keys && k != p[0] ==> d.times[p[1]] <= d.times[k])
  {
    var t := d.times;
    var r := SortedDict(d).keys;
    assert |r| == |d.keys| by {
      assert |multiset(r)| == |multiset(d.keys)|;
    }
    assert GetFastestPair(SortedDict(d)) == [r[0], r[1]];
    assert SortedByTime(r, t) by {
      SortIsSorted(d.keys, t);
    }
    DistinctAt(r, 0, 1);
    assert r[0] in multiset(d.keys) && r[1] in multiset(d.keys);
    forall k | k in d.keys ensures t[r[0]] <= t[k] && (k != r[0] ==> t[r[1]] <= t[k]) {
      assert k in multiset(r);
      var i :| 0 <= i < |r| && r[i] == k;
      if i >= 1 {
        assert t[r[1]] <= t[r[i]];
      }
    }
  }

  /** Among equal times the fastest pair follows the input order: the
      first of the pair is the first person in the input with its time,
      and the second is the next one with that time, or else the first
      person in the input with the second's time. */
  lemma FastestPairTieBreak(d: Dict)
    requires d.Valid() && |d.keys| >= 2
    ensures var p := GetFastestPair(SortedDict(d));
      && |p| == 2 && p[0] in d.times && p[1] in d.times
      && |WithTime(d.keys, d.times, d.times[p[0]])| >= 1
      && WithTime(d.keys, d.times, d.times[p[0]])[0] == p[0]
      && (d.times[p[1]] == d.times[p[0]] ==>
            |WithTime(d.keys, d.times, d.times[p[0]])| >= 2 &&
            WithTime(d.keys, d.times, d.times[p[0]])[1] == p[1])
      && (d.times[p[1]] != d.times[p[0]] ==>
            |WithTime(d.keys, d.times, d.times[p[1]])| >= 1 &&
            WithTime(d.keys, d.times, d.times[p[1]])[0] == p[1])
  {
    var t := d.times;
    var r := SortedDict(d).keys;
    assert |r| == |d.keys| by {
      assert |multiset(r)| == |multiset(d.keys)|;
    }
    assert GetFastestPair(SortedDict(d)) == [r[0], r[1]];
    assert r == [r[0]] + r[1..] && r[1..] == [r[1]] + r[2..];
    var v1 := t[r[0]];
    SortIsStable(d.keys, t, v1);
    WithTimeCons(r[0], r[1..], t, v1);
    if t[r[1]] == v1 {
      WithTimeCons(r[1], r[2..], t, v1);
    } else {
      var v2 := t[r[1]];
      SortIsStable(d.keys, t, v2);
      WithTimeCons(r[0], r[1..], t, v2);
      WithTimeCons(r[1], r[2..], t, v2);
    }
  }


  // ---------------------------------------------------------------------
  // get_slowest_pair
  // ---------------------------------------------------------------------

  /** A row of the candidate list: two people, the sum of their times
      (the selection key) and the max of their times (the cost). */
  datatype Candidate = Candidate(x: Label, y: Label, sum: int, max: int)

  /** `itertools.combinations(s, 2)`: every pair of positions i < j, in
      lexicographic order of (i, j). */
  function Combinations(s: seq<Label>): (r: seq<(Label, Label)>)
    ensures forall n :: 0 <= n < |r| ==> r[n].0 in s && r[n].1 in s
  {
    if |s| < 2 then []
    else
      var rest := Combinations(s[1..]);
      seq(|s| - 1, j requires 0 <= j < |s| - 1 => (s[0], s[j + 1])) + rest
  }

  /** `x` and `y` stand at two positions of `s`, `x` first. */
  ghost predicate IsPairOf(s: seq<Label>, x: Label, y: Label)
  {
    exists i, j :: 0 <= i < j < |s| && x == s[i] && y == s[j]
  }

  /** Every pair of positions appears among the combinations. */
  lemma {:induction false} CombinationsComplete(s: seq<Label>, i: nat, j: nat)
    requires i < j < |s|
    ensures (s[i], s[j]) in Combinations(s)
  {
    var first := seq(|s| - 1, j requires 0 <= j < |s| - 1 => (s[0], s[j + 1]));
    assert Combinations(s) == first + Combinations(s[1..]);
    if i == 0 {
      assert first[j - 1] == (s[i], s[j]);
    } else {
      CombinationsComplete(s[1..], i - 1, j - 1);
    }
  }

  /** Every combination is a pair of positions, the earlier one first. */
  lemma {:induction false} CombinationsSound(s: seq<Label>, n: nat)
    requires n < |Combinations(s)|
    ensures IsPairOf(s, Combinations(s)[n].0, Combinations(s)[n].1)
  {
    var first := seq(|s| - 1, j requires 0 <= j < |s| - 1 => (s[0], s[j + 1]));
    var rest := Combinations(s[1..]);
    assert Combinations(s) == first + rest;
    if n < |first| {
      assert Combinations(s)[n] == (s[0], s[n + 1]);
    } else {
      CombinationsSound(s[1..], n - |first|);
      var i, j :| 0 <= i < j < |s| - 1 && rest[n - |first|] == (s[1..][i], s[1..][j]);
      assert Combinations(s)[n] == (s[i + 1], s[j + 1]);
    }
  }

  /** Where `combinations` of a list of length `n` puts the pair of
      positions (i, j): after the n - 1 pairs starting at position 0, the
      n - 2 starting at position 1, and so on. */
  function PairIndex(n: nat, i: nat, j: nat): nat
    requires i < j < n
  {
    if i == 0 then j - 1 else (n - 1) + PairIndex(n - 1, i - 1, j - 1)
  }

  /** The pair of positions (i, j) sits at `PairIndex` in the combinations. */
  lemma {:induction false} PairIndexAt(s: seq<Label>, i: nat, j: nat)
    requires i < j < |s|
    ensures PairIndex(|s|, i, j) < |Combinations(s)|
    ensures Combinations(s)[PairIndex(|s|, i, j)] == (s[i], s[j])
  {
    var first := seq(|s| - 1, j requires 0 <= j < |s| - 1 => (s[0], s[j + 1]));
    assert Combinations(s) == first + Combinations(s[1..]);
    if i > 0 {
      PairIndexAt(s[1..], i - 1, j - 1);
    }
  }

  /** Every index of the combinations is the place of some pair of positions. */
  lemma {:induction false} PairAt(s: seq<Label>, k: nat) returns (i: nat, j: nat)
    requires k < |Combinations(s)|
    ensures i < j < |s| && PairIndex(|s|, i, j) == k
  {
    var first := seq(|s| - 1, j requires 0 <= j < |s| - 1 => (s[0], s[j + 1]));
    assert Combinations(s) == first + Combinations(s[1..]);
    if k < |s| - 1 {
      i, j := 0, k + 1;
    } else {
      var i', j' := PairAt(s[1..], k - (|s| - 1));
      i, j := i' + 1, j' + 1;
    }
  }

  /** `combinations` lists the pairs of positions in lexicographic order. */
  lemma {:induction false} PairIndexOrdered(n: nat, i: nat, j: nat, i': nat, j': nat)
    requires i < j < n && i' < j' < n
    requires i < i' || (i == i' && j < j')
    ensures PairIndex(n, i, j) < PairIndex(n, i', j')
  {
    if i > 0 {
      PairIndexOrdered(n - 1, i - 1, j - 1, i' - 1, j' - 1);
    }
  }

  /** The list comprehension building `(x, y, t[x] + t[y], max(t[x], t[y]))`
      for every combination. */
  function Candidates(s: seq<Label>, t: map<Label, int>): (cs: seq<Candidate>)
    requires Timed(s, t)
    ensures |cs| == |Combinations(s)|
    ensures forall n :: 0 <= n < |cs| ==>
      && (cs[n].x, cs[n].y) == Combinations(s)[n]
      && cs[n].sum == t[cs[n].x] + t[cs[n].y]
      && cs[n].max == Max(t[cs[n].x], t[cs[n].y])
  {
    var ps := Combinations(s);
    seq(|ps|, n requires 0 <= n < |ps| =>
      Candidate(ps[n].0, ps[n].1, t[ps[n].0] + t[ps[n].1], Max(t[ps[n].0], t[ps[n].1])))
  }

  /** Index of the last candidate with the largest sum: what
      `pairs.sort(key=sum)` followed by `pairs[-1]` selects, since the sort
      is stable and keeps equal sums in list order. */
  function LastArgMax(cs: seq<Candidate>): (k: nat)
    requires |cs| > 0
    ensures k < |cs|
    ensures forall n :: 0 <= n < |cs| ==> cs[n].sum <= cs[k].sum
    ensures forall n :: k < n < |cs| ==> cs[n].sum < cs[k].sum
  {
    if |cs| == 1 then 0
    else
      var k := LastArgMax(cs[..|cs| - 1]);
      if cs[|cs| - 1].sum >= cs[k].sum then |cs| - 1 else k
  }

  /** `get_slowest_pair(endpoint_a, dict_times)`: the last candidate once
      the candidates are sorted by sum. */
  function GetSlowestPair(s: seq<Label>, t: map<Label, int>): (c: Candidate)
    requires |s| >= 2 && Timed(s, t)
    ensures IsPairOf(s, c.x, c.y)
    ensures c.x in t && c.y in t
    ensures c.sum == t[c.x] + t[c.y] && c.max == Max(t[c.x], t[c.y])
  {
    var cs := Candidates(s, t);
    CombinationsComplete(s, 0, 1);
    var k := LastArgMax(cs);
    CombinationsSound(s, k);
    cs[k]
  }

  /** The slowest pair is the pair on A whose times add up to the most;
      among pairs with that sum it is the last in combination order. */
  lemma SlowestPairIsSlowest(s: seq<Label>, t: map<Label, int>)
    requires |s| >= 2 && Timed(s, t)
    ensures var c := GetSlowestPair(s, t);
      && (forall i, j :: 0 <= i < j < |s| ==> t[s[i]] + t[s[j]] <= c.sum)
      && var cs := Candidates(s, t);
         exists k :: 0 <= k < |cs| && cs[k] == c && forall n :: k < n < |cs| ==> cs[n].sum < c.sum
  {
    var cs := Candidates(s, t);
    CombinationsComplete(s, 0, 1);
    var k := LastArgMax(cs);
    assert GetSlowestPair(s, t) == cs[k];
    forall i, j | 0 <= i < j < |s| ensures t[s[i]] + t[s[j]] <= cs[k].sum {
      CombinationsComplete(s, i, j);
      var n :| 0 <= n < |cs| && Combinations(s)[n] == (s[i], s[j]);
      assert cs[n].sum == t[s[i]] + t[s[j]];
    }
  }

  // ---------------------------------------------------------------------
  // crossing_routine
  // ---------------------------------------------------------------------

  /** The two banks: `a` is where everybody starts, `b` the far side. */
  datatype Sides = Sides(a: seq<Label>, b: seq<Label>)

  /** One trip over the bridge: a pair going over, or one person coming back. */
  datatype Move = Over(first: Label, second: Label) | Back(who: Label)

  /** What the routine's loop keeps: the two lists and the stopwatch, plus the
      trips made so far (a trace the routine does not keep, used to say what
      the stopwatch adds up). */
  datatype State = State(a: seq<Label>, b: seq<Label>, stopwatch: int, moves: seq<Move>)

  /** What the routine ends with: its final lists and stopwatch, or the
      `IndexError` raised when the input has fewer than two people. */
  datatype Outcome =
    | Finished(endpointA: seq<Label>, endpointB: seq<Label>, stopwatch: int)
    | IndexError

  /** `cross(people)`: each person in turn leaves A and joins the end of B. */
  function Crossed(a: seq<Label>, b: seq<Label>, people: seq<Label>): (r: Sides)
    requires multiset(people) <= multiset(a)
    ensures r.b == b + people
    ensures |r.a| == |a| - |people|
    decreases |people|
  {
    if people == [] then Sides(a, b)
    else
      RemoveFirstOf(a, people);
      var r := Crossed(Remove(a, people[0]), b + [people[0]], people[1..]);
      assert b + [people[0]] + people[1..] == b + people;
      r
  }

  /** Crossing takes exactly `people` away from A. */
  lemma {:induction false} CrossedLeaves(a: seq<Label>, b: seq<Label>, people: seq<Label>)
    requires multiset(people) <= multiset(a)
    ensures multiset(Crossed(a, b, people).a) == multiset(a) - multiset(people)
    decreases |people|
  {
    if people != [] {
      RemoveFirstOf(a, people);
      CrossedLeaves(Remove(a, people[0]), b + [people[0]], people[1..]);
    }
  }

  /** Crossing moves people between the sides and loses or adds nobody. */
  lemma CrossKeepsEveryone(a: seq<Label>, b: seq<Label>, people: seq<Label>)
    requires multiset(people) <= multiset(a)
    ensures var r := Crossed(a, b, people);
      multiset(r.a) + multiset(r.b) == multiset(a) + multiset(b)
  {
    CrossedLeaves(a, b, people);
    MoveKeepsEveryone(a, Crossed(a, b, people).a, b, people);
  }

  /** `cross_back(person)`: the person leaves B and joins the end of A. */
  function CrossBack(a: seq<Label>, b: seq<Label>, person: Label): (r: Sides)
    requires person in b
    ensures r.a == a + [person] && |r.b| == |b| - 1
  {
    Sides(a + [person], Remove(b, person))
  }

  /** Walking back moves one person from B to A and loses or adds nobody. */
  lemma CrossBackKeepsEveryone(a: seq<Label>, b: seq<Label>, person: Label)
    requires person in b
    ensures var r := CrossBack(a, b, person);
      && multiset(r.b) == multiset(b) - multiset{person}
      && multiset(r.a) + multiset(r.b) == multiset(a) + multiset(b)
  {
    RemoveDropsOne(b, person);
  }

  /** The time of a label; every label the routine moves has one (see
      `SidesOfInv`), and an unknown label counts for nothing. */
  function TimeOf(x: Label, t: map<Label, int>): int
  {
    if x in t then t[x] else 0
  }

  /** A pair walks at the pace of its slower member; a return trip takes
      the walker's own time. */
  function Cost(m: Move, t: map<Label, int>): int
  {
    match m
    case Over(x, y) => Max(TimeOf(x, t), TimeOf(y, t))
    case Back(x) => TimeOf(x, t)
  }

  /** The elapsed time of a sequence of trips: the sum of their costs. */
  function Elapsed(ms: seq<Move>, t: map<Label, int>): int
  {
    if ms == [] then 0 else Elapsed(ms[..|ms| - 1], t) + Cost(ms[|ms| - 1], t)
  }

  /** What holds at the top of every pass of the loop: everybody is on
      exactly one side, A is either empty or holds at least two people one
      of whom is the fastest, and the stopwatch is the elapsed time of the
      trips made. */
  ghost predicate Inv(st: State, d: Dict, f1: Label, f2: Label)
  {
    && d.Valid()
    && f1 != f2 && f1 in d.times && f2 in d.times
    && multiset(st.a) + multiset(st.b) == multiset(d.keys)
    && (st.a == [] || (|st.a| >= 2 && f1 in st.a))
    && st.stopwatch == Elapsed(st.moves, d.times)
  }

  lemma SidesOfInv(st: State, d: Dict, f1: Label, f2: Label)
    requires Inv(st, d, f1, f2)
    ensures Timed(st.a, d.times) && Timed(st.b, d.times)
    ensures Distinct(st.a) && Distinct(st.b)
    ensures forall k :: k in d.keys <==> k in st.a || k in st.b
    ensures forall k :: k in st.a ==> k !in st.b
  {
    DistinctSub(st.a, d.keys);
    DistinctSub(st.b, d.keys);
    forall k ensures (k in d.keys <==> k in st.a || k in st.b) && (k in st.a ==> k !in st.b) {
      assert multiset(d.keys)[k] == multiset(st.a)[k] + multiset(st.b)[k];
    }
  }

  /** Lines 99-106: the two fastest when both are still on A, otherwise the
      slowest pair on A. */
  function CrossingPair(a: seq<Label>, t: map<Label, int>, f1: Label, f2: Label): (p: seq<Label>)
    requires |a| >= 2 && Timed(a, t)
    ensures |p| == 2 && p[0] in a && p[1] in a
    ensures p == [f1, f2] <==> f1 in a && f2 in a
  {
    if f1 in a && f2 in a then [f1, f2]
    else
      var c := GetSlowestPair(a, t);
      PairOfIn(a, c.x, c.y);
      [c.x, c.y]
  }

  /** The two people of a pair of positions are members of the list. */
  lemma PairOfIn(s: seq<Label>, x: Label, y: Label)
    requires IsPairOf(s, x, y)
    ensures x in s && y in s
  {
    var i, j :| 0 <= i < j < |s| && x == s[i] && y == s[j];
  }

  /** The crossing pair is two different people standing on A. */
  lemma CrossingPairOnA(a: seq<Label>, t: map<Label, int>, f1: Label, f2: Label)
    requires |a| >= 2 && Timed(a, t) && Distinct(a) && f1 != f2
    ensures var p := CrossingPair(a, t, f1, f2);
      |p| == 2 && p[0] != p[1] && p[0] in t && p[1] in t && multiset(p) <= multiset(a)
  {
    var p := CrossingPair(a, t, f1, f2);
    if f1 in a && f2 in a {
      assert p == [f1, f2];
    } else {
      var c := GetSlowestPair(a, t);
      assert c.x != c.y && c.x in a && c.y in a && c.x in t && c.y in t by {
        SlowestPairOnA(a, t);
      }
      assert p == [c.x, c.y];
    }
    PairIn(p[0], p[1], a);
  }

  /** The tie-break by position: the slowest pair stands at positions
      i < j of the list, and every pair of positions that comes after
      (i, j) in lexicographic order has a strictly smaller sum. */
  lemma SlowestPairIsLast(s: seq<Label>, t: map<Label, int>)
    requires |s| >= 2 && Timed(s, t)
    ensures var c := GetSlowestPair(s, t);
      exists i, j :: 0 <= i < j < |s| && c.x == s[i] && c.y == s[j] &&
        forall i', j' :: 0 <= i' < j' < |s| && (i < i' || (i == i' && j < j')) ==>
          t[s[i']] + t[s[j']] < c.sum
  {
    var cs := Candidates(s, t);
    CombinationsComplete(s, 0, 1);
    var k := LastArgMax(cs);
    var c := GetSlowestPair(s, t);
    assert c == cs[k];
    var i, j := PairAt(s, k);
    PairIndexAt(s, i, j);
    forall i', j' | 0 <= i' < j' < |s| && (i < i' || (i == i' && j < j'))
      ensures t[s[i']] + t[s[j']] < c.sum
    {
      PairIndexAt(s, i', j');
      PairIndexOrdered(|s|, i, j, i', j');
      var n := PairIndex(|s|, i', j');
      assert cs[n].sum == t[s[i']] + t[s[j']];
    }
  }

  /** Lines 102-106: when the two fastest are not both on A, the crossing
      pair has the largest sum of times on A, and it is the last such pair
      in position order. */
  lemma CrossingPairSlowest(a: seq<Label>, t: map<Label, int>, f1: Label, f2: Label)
    requires |a| >= 2 && Timed(a, t) && !(f1 in a && f2 in a)
    ensures var p := CrossingPair(a, t, f1, f2);
      && p[0] in t && p[1] in t
      && (forall i, j :: 0 <= i < j < |a| ==> t[a[i]] + t[a[j]] <= t[p[0]] + t[p[1]])
      && exists i, j :: 0 <= i < j < |a| && p[0] == a[i] && p[1] == a[j] &&
           forall i', j' :: 0 <= i' < j' < |a| && (i < i' || (i == i' && j < j')) ==>
             t[a[i']] + t[a[j']] < t[p[0]] + t[p[1]]
  {
    SlowestPairIsSlowest(a, t);
    SlowestPairIsLast(a, t);
  }

  /** The slowest pair is two different people of the list. */
  lemma SlowestPairOnA(a: seq<Label>, t: map<Label, int>)
    requires |a| >= 2 && Timed(a, t) && Distinct(a)
    ensures var c := GetSlowestPair(a, t);
      c.x != c.y && c.x in a && c.y in a
  {
    var c := GetSlowestPair(a, t);
    var i, j :| 0 <= i < j < |a| && c.x == a[i] && c.y == a[j];
    DistinctAt(a, i, j);
  }

  lemma ElapsedAppend(ms: seq<Move>, m: Move, t: map<Label, int>)
    ensures Elapsed(ms + [m], t) == Elapsed(ms, t) + Cost(m, t)
  {
    assert (ms + [m])[..|ms|] == ms;
  }

  /** `cross(pair)` followed by `stopwatch += max(...)`: the pair goes
      over and the stopwatch takes the pace of its slower member. */
  function SendOver(st: State, pair: seq<Label>, t: map<Label, int>): (r: State)
    requires |pair| == 2 && multiset(pair) <= multiset(st.a)
    ensures |r.a| == |st.a| - 2 && r.b == st.b + pair
    ensures r.stopwatch == st.stopwatch + Max(TimeOf(pair[0], t), TimeOf(pair[1], t))
    ensures r.moves == st.moves + [Over(pair[0], pair[1])]
  {
    var s := Crossed(st.a, st.b, pair);
    State(s.a, s.b, st.stopwatch + Cost(Over(pair[0], pair[1]), t), st.moves + [Over(pair[0], pair[1])])
  }

  /** Lines 99-106: send the crossing pair over. */
  function CrossStep(st: State, d: Dict, f1: Label, f2: Label): (r: State)
    requires Inv(st, d, f1, f2) && st.a != []
    ensures |r.a| == |st.a| - 2 && |r.b| == |st.b| + 2
    ensures |r.moves| == |st.moves| + 1 && r.moves[..|st.moves|] == st.moves && r.moves[|st.moves|].Over?
  {
    SidesOfInv(st, d, f1, f2);
    CrossingPairOnA(st.a, d.times, f1, f2);
    SendOver(st, CrossingPair(st.a, d.times, f1, f2), d.times)
  }

  /** A person on B walks back to A alone; the stopwatch takes their time. */
  function WalkBack(st: State, who: Label, t: map<Label, int>): (r: State)
    requires who in st.b && who in t
    ensures r.a == st.a + [who] && |r.b| == |st.b| - 1
    ensures r.stopwatch == st.stopwatch + t[who] && r.moves == st.moves + [Back(who)]
  {
    var s := CrossBack(st.a, st.b, who);
    State(s.a, s.b, st.stopwatch + t[who], st.moves + [Back(who)])
  }

  /** Lines 108-116: if anybody is left on A, `fastest1` walks back if it is
      on B, otherwise `fastest2` if it is. */
  function ReturnStep(st: State, d: Dict, f1: Label, f2: Label): (r: State)
    requires f1 in d.times && f2 in d.times
    ensures st.a == [] ==> r == st
    ensures st.a != [] && f1 in st.b ==> r == WalkBack(st, f1, d.times)
    ensures st.a != [] && f1 !in st.b && f2 in st.b ==> r == WalkBack(st, f2, d.times)
    ensures r.moves == st.moves || r.moves == st.moves + [Back(f1)] || r.moves == st.moves + [Back(f2)]
  {
    if st.a == [] then st
    else if f1 in st.b then WalkBack(st, f1, d.times)
    else if f2 in st.b then WalkBack(st, f2, d.times)
    else st
  }

  /** One pass of the `while` loop (lines 97-116). */
  function Pass(st: State, d: Dict, f1: Label, f2: Label): (r: State)
    requires Inv(st, d, f1, f2) && st.a != []
    ensures |st.moves| < |r.moves| <= |st.moves| + 2
    ensures r.moves[..|st.moves|] == st.moves && r.moves[|st.moves|].Over?
  {
    ReturnStep(CrossStep(st, d, f1, f2), d, f1, f2)
  }

  /** What holds between the crossing and the return trip: everybody is on
      exactly one side, the stopwatch is the elapsed time of the trips, and
      at least one of the two fastest is on B. */
  ghost predicate MidInv(st: State, d: Dict, f1: Label, f2: Label)
  {
    && d.Valid()
    && f1 != f2 && f1 in d.times && f2 in d.times
    && multiset(st.a) + multiset(st.b) == multiset(d.keys)
    && (f1 in st.b || f2 in st.b)
    && st.stopwatch == Elapsed(st.moves, d.times)
  }

  /** Sending over two people of A, who are the two fastest whenever both
      of those are still on A, leaves one of the two fastest on B and keeps
      the stopwatch equal to the elapsed time. */
  lemma SendOverKeepsEveryone(st: State, d: Dict, f1: Label, f2: Label, pair: seq<Label>)
    requires Inv(st, d, f1, f2) && st.a != []
    requires |pair| == 2 && multiset(pair) <= multiset(st.a)
    requires f1 in st.a && f2 in st.a ==> pair == [f1, f2]
    ensures var c := SendOver(st, pair, d.times);
      MidInv(c, d, f1, f2) && |c.a| == |st.a| - 2
  {
    var t := d.times;
    var s := Crossed(st.a, st.b, pair);
    var c := SendOver(st, pair, t);
    assert multiset(s.a) + multiset(s.b) == multiset(d.keys) by {
      CrossKeepsEveryone(st.a, st.b, pair);
    }
    assert c.stopwatch == Elapsed(c.moves, t) by {
      ElapsedAppend(st.moves, Over(pair[0], pair[1]), t);
    }
    if !(f1 in st.a && f2 in st.a) {
      assert f2 in st.b by {
        SidesOfInv(st, d, f1, f2);
        assert f2 in d.keys;
      }
    }
  }

  /** The crossing removes the pair from A, records it, adds its cost, and
      leaves one of the two fastest on B: either the pair was the two
      fastest, or `fastest2` was already on B. */
  lemma CrossStepKeepsEveryone(st: State, d: Dict, f1: Label, f2: Label)
    requires Inv(st, d, f1, f2) && st.a != []
    ensures Timed(st.a, d.times)
    ensures var c := CrossStep(st, d, f1, f2);
      var p := CrossingPair(st.a, d.times, f1, f2);
      && |p| == 2 && p[0] in d.times && p[1] in d.times
      && MidInv(c, d, f1, f2)
      && |c.a| == |st.a| - 2
      && c.moves == st.moves + [Over(p[0], p[1])]
      && c.stopwatch == st.stopwatch + Cost(Over(p[0], p[1]), d.times)
  {
    assert Timed(st.a, d.times) && Distinct(st.a) by {
      SidesOfInv(st, d, f1, f2);
    }
    var pair := CrossingPair(st.a, d.times, f1, f2);
    assert |pair| == 2 && pair[0] in d.times && pair[1] in d.times && multiset(pair) <= multiset(st.a) by {
      CrossingPairOnA(st.a, d.times, f1, f2);
    }
    SendOverKeepsEveryone(st, d, f1, f2, pair);
  }

  /** The return step brings exactly one of the two fastest back when A is
      not empty (`fastest1` if it is on B, else `fastest2`), adds that
      person's time, and leaves `fastest1` on A. */
  lemma ReturnStepRestores(c: State, d: Dict, f1: Label, f2: Label)
    requires MidInv(c, d, f1, f2)
    ensures var r := ReturnStep(c, d, f1, f2);
      && (c.a == [] ==> r == c)
      && (c.a != [] ==>
            var who := if f1 in c.b then f1 else f2;
            && r.moves == c.moves + [Back(who)]
            && r.stopwatch == c.stopwatch + d.times[who]
            && |r.a| == |c.a| + 1 && f1 in r.a
            && multiset(r.a) + multiset(r.b) == multiset(d.keys)
            && r.stopwatch == Elapsed(r.moves, d.times))
  {
    if c.a != [] {
      var t := d.times;
      var who := if f1 in c.b then f1 else f2;
      var r := ReturnStep(c, d, f1, f2);
      assert r == WalkBack(c, who, t);
      assert r.a == c.a + [who] && r.moves == c.moves + [Back(who)] && r.stopwatch == c.stopwatch + t[who];
      assert multiset(r.a) + multiset(r.b) == multiset(d.keys) by {
        CrossBackKeepsEveryone(c.a, c.b, who);
      }
      assert r.stopwatch == Elapsed(r.moves, t) by {
        ElapsedAppend(c.moves, Back(who), t);
      }
      assert f1 in r.a by {
        if who != f1 {
          assert f1 in multiset(c.a) + multiset(c.b) by {
            assert f1 in d.keys;
          }
        }
      }
    }
  }

  /** A pass keeps the loop invariant, makes A smaller and only appends
      trips. */
  lemma PassProgress(st: State, d: Dict, f1: Label, f2: Label)
    requires Inv(st, d, f1, f2) && st.a != []
    ensures var r := Pass(st, d, f1, f2);
      Inv(r, d, f1, f2) && |r.a| < |st.a| && st.moves <= r.moves
  {
    PassKeepsInv(st, d, f1, f2);
  }

  /** After a crossing `over` that took A from `st` to `c`, the return
      step restores the loop invariant. A ends up empty exactly when it held
      two people; otherwise it loses exactly one person net, because exactly
      one person, `fastest1` or `fastest2`, walks back, and the stopwatch
      also takes that person's time. */
  lemma ReturnAfterCrossing(st: State, c: State, over: Move, d: Dict, f1: Label, f2: Label)
    requires MidInv(c, d, f1, f2) && |st.a| >= 2
    requires |c.a| == |st.a| - 2
    requires c.moves == st.moves + [over] && c.stopwatch == st.stopwatch + Cost(over, d.times)
    ensures var r := ReturnStep(c, d, f1, f2);
      var cost := Cost(over, d.times);
      && Inv(r, d, f1, f2)
      && (r.a == [] <==> |st.a| == 2)
      && (r.a == [] ==> r.moves == st.moves + [over] && r.stopwatch == st.stopwatch + cost)
      && (r.a != [] ==>
            && |r.a| == |st.a| - 1
            && ((r.moves == st.moves + [over, Back(f1)] && r.stopwatch == st.stopwatch + cost + d.times[f1])
             || (r.moves == st.moves + [over, Back(f2)] && r.stopwatch == st.stopwatch + cost + d.times[f2])))
  {
    var t := d.times;
    var r := ReturnStep(c, d, f1, f2);
    if c.a == [] {
      assert r == c;
    } else {
      var who := if f1 in c.b then f1 else f2;
      assert r.moves == c.moves + [Back(who)] && r.stopwatch == c.stopwatch + t[who]
        && |r.a| == |c.a| + 1 && f1 in r.a
        && multiset(r.a) + multiset(r.b) == multiset(d.keys)
        && r.stopwatch == Elapsed(r.moves, t) by {
        ReturnStepRestores(c, d, f1, f2);
      }
      assert r.moves == st.moves + [over, Back(who)] by {
        assert st.moves + [over] + [Back(who)] == st.moves + [over, Back(who)];
      }
    }
  }

  /** A pass keeps the loop invariant; it sends the pair
      `CrossingPairOnA` describes, and `ReturnAfterCrossing` says the rest. */
  lemma PassKeepsInv(st: State, d: Dict, f1: Label, f2: Label)
    requires Inv(st, d, f1, f2) && st.a != []
    ensures Timed(st.a, d.times)
    ensures var r := Pass(st, d, f1, f2);
      var p := CrossingPair(st.a, d.times, f1, f2);
      && |p| == 2 && p[0] in d.times && p[1] in d.times
      && var over := Over(p[0], p[1]);
      && var cost := Cost(over, d.times);
      && Inv(r, d, f1, f2)
      && (r.a == [] <==> |st.a| == 2)
      && (r.a == [] ==> r.moves == st.moves + [over] && r.stopwatch == st.stopwatch + cost)
      && (r.a != [] ==>
            && |r.a| == |st.a| - 1
            && ((r.moves == st.moves + [over, Back(f1)] && r.stopwatch == st.stopwatch + cost + d.times[f1])
             || (r.moves == st.moves + [over, Back(f2)] && r.stopwatch == st.stopwatch + cost + d.times[f2])))
  {
    assert Timed(st.a, d.times) && Distinct(st.a) by {
      SidesOfInv(st, d, f1, f2);
    }
    var pair := CrossingPair(st.a, d.times, f1, f2);
    assert |pair| == 2 && pair[0] in d.times && pair[1] in d.times && multiset(pair) <= multiset(st.a) by {
      CrossingPairOnA(st.a, d.times, f1, f2);
    }
    var c := SendOver(st, pair, d.times);
    assert Pass(st, d, f1, f2) == ReturnStep(c, d, f1, f2);
    SendOverKeepsEveryone(st, d, f1, f2, pair);
    ReturnAfterCrossing(st, c, Over(pair[0], pair[1]), d, f1, f2);
  }

  /** `while endpoint_a:` run pass after pass until A is empty. At the end
      B holds everybody and the stopwatch is the elapsed time of the trips. */
  function Run(st: State, d: Dict, f1: Label, f2: Label): (r: State)
    requires Inv(st, d, f1, f2)
    ensures Inv(r, d, f1, f2) && r.a == []
    ensures st.moves <= r.moves
    decreases |st.a|
  {
    if st.a == [] then st
    else
      PassProgress(st, d, f1, f2);
      var p := Pass(st, d, f1, f2);
      var r := Run(p, d, f1, f2);
      r
  }

  /** The state the loop starts from: everybody on A, nobody on B, the
      stopwatch at zero. */
  function Start(d: Dict): (r: State)
    ensures r.a == d.keys && r.b == [] && r.moves == []
    ensures r.stopwatch == Elapsed(r.moves, d.times) == 0
  {
    State(d.keys, [], 0, [])
  }

  /** With two or more people the fastest pair is two people and the loop
      invariant holds at the start. */
  lemma StartInv(d: Dict)
    requires d.Valid() && |d.keys| >= 2
    ensures var p := GetFastestPair(SortedDict(d));
      |p| == 2 && Inv(Start(d), d, p[0], p[1])
  {
    var p := GetFastestPair(SortedDict(d));
    assert |p| == 2 && p[0] != p[1] && p[0] in d.keys && p[1] in d.keys by {
      FastestPairIsTwoFastest(d);
    }
    assert multiset(d.keys) + multiset([]) == multiset(d.keys);
  }

  /** The state `crossing_routine` ends in, for an input of two or more people. */
  function Final(d: Dict): (r: State)
    requires d.Valid() && |d.keys| >= 2
    ensures r.a == [] && multiset(r.b) == multiset(d.keys)
    ensures r.stopwatch == Elapsed(r.moves, d.times)
  {
    StartInv(d);
    var p := GetFastestPair(SortedDict(d));
    Run(Start(d), d, p[0], p[1])
  }

  /** From position `k` on, the trips alternate over, back, over, ...,
      and every return trip is made by `f1` or `f2`. */
  ghost predicate Alternating(ms: seq<Move>, k: nat, f1: Label, f2: Label)
  {
    forall n :: k <= n < |ms| ==>
      && (ms[n].Over? <==> (n - k) % 2 == 0)
      && (ms[n].Back? ==> ms[n].who == f1 || ms[n].who == f2)
  }

  /** A crossing and a return by `f1` or `f2` in front of an alternating
      stretch make an alternating stretch. */
  lemma AlternatingCons(ms: seq<Move>, k: nat, f1: Label, f2: Label)
    requires k + 2 <= |ms| && ms[k].Over? && ms[k + 1].Back?
    requires ms[k + 1].who == f1 || ms[k + 1].who == f2
    requires Alternating(ms, k + 2, f1, f2)
    ensures Alternating(ms, k, f1, f2)
  {
    forall n | k <= n < |ms|
      ensures && (ms[n].Over? <==> (n - k) % 2 == 0)
              && (ms[n].Back? ==> ms[n].who == f1 || ms[n].who == f2)
    {
      if n >= k + 2 {
        assert (n - k) % 2 == (n - (k + 2)) % 2;
      }
    }
  }

  /** A single crossing at the end is an alternating stretch. */
  lemma AlternatingLast(ms: seq<Move>, k: nat, f1: Label, f2: Label)
    requires |ms| == k + 1 && ms[k].Over?
    ensures Alternating(ms, k, f1, f2)
  {
  }

  /** An alternating stretch of odd length starts and ends with a crossing. */
  lemma AlternatingEnds(ms: seq<Move>, k: nat, f1: Label, f2: Label)
    requires Alternating(ms, k, f1, f2) && k < |ms| && (|ms| - k) % 2 == 1
    ensures ms[k].Over? && ms[|ms| - 1].Over?
  {
  }

  /** From a state with people on A, the loop makes 2|A| - 3 more trips,
      alternating over and back from a crossing on, every return made by
      `fastest1` or `fastest2`. */
  lemma {:induction false} RunShape(st: State, d: Dict, f1: Label, f2: Label)
    requires Inv(st, d, f1, f2) && st.a != []
    ensures var r := Run(st, d, f1, f2);
      && |r.moves| == |st.moves| + 2 * |st.a| - 3
      && Alternating(r.moves, |st.moves|, f1, f2)
    decreases |st.a|
  {
    var k := |st.moves|;
    var p := Pass(st, d, f1, f2);
    assert && Inv(p, d, f1, f2)
           && st.moves <= p.moves && p.moves[k].Over?
           && (p.a == [] ==> |st.a| == 2 && |p.moves| == k + 1)
           && (p.a != [] ==>
                 && |p.a| == |st.a| - 1 && |p.moves| == k + 2 && p.moves[k + 1].Back?
                 && (p.moves[k + 1].who == f1 || p.moves[k + 1].who == f2)) by {
      PassKeepsInv(st, d, f1, f2);
    }
    var r := Run(st, d, f1, f2);
    assert r == Run(p, d, f1, f2);
    if p.a == [] {
      assert r.moves == p.moves;
      assert Alternating(r.moves, k, f1, f2) by {
        AlternatingLast(r.moves, k, f1, f2);
      }
    } else {
      RunShape(p, d, f1, f2);
      assert p.moves <= r.moves;
      assert r.moves[k] == p.moves[k] && r.moves[k + 1] == p.moves[k + 1];
      AlternatingCons(r.moves, k, f1, f2);
    }
  }

  /** The whole routine: 2n - 3 trips for n people, alternating over and
      back from a crossing on, every return made by one of the two fastest
      (so, by `AlternatingEnds`, the first and the last trip are crossings). */
  lemma FinalShape(d: Dict)
    requires d.Valid() && |d.keys| >= 2
    ensures var p := GetFastestPair(SortedDict(d));
      var ms := Final(d).moves;
      && |p| == 2
      && |ms| == 2 * |d.keys| - 3
      && Alternating(ms, 0, p[0], p[1])
  {
    StartInv(d);
    var p := GetFastestPair(SortedDict(d));
    RunShape(Start(d), d, p[0], p[1]);
  }

  /** `cross(people)` with its `for` loop over the people. */
  method Cross(a: seq<Label>, b: seq<Label>, people: seq<Label>) returns (a': seq<Label>, b': seq<Label>)
    requires multiset(people) <= multiset(a)
    ensures Sides(a', b') == Crossed(a, b, people)
  {
    a', b' := a, b;
    for i := 0 to |people|
      invariant multiset(people[i..]) <= multiset(a')
      invariant Crossed(a', b', people[i..]) == Crossed(a, b, people)
    {
      RemoveFirstOf(a', people[i..]);
      assert people[i..][1..] == people[i + 1..];
      a' := Remove(a', people[i]);
      b' := b' + [people[i]];
    }
  }

  /** Lines 99-106 of the loop: pick the two fastest if both are on A,
      otherwise the slowest pair on A. Computes `CrossingPair`; what the
      pair is follows from `CrossingPairOnA` and `CrossingPairSlowest`. */
  method ChoosePair(a: seq<Label>, t: map<Label, int>, fastest1: Label, fastest2: Label) returns (pair: seq<Label>)
    requires |a| >= 2 && Timed(a, t)
    ensures pair == CrossingPair(a, t, fastest1, fastest2)
  {
    if fastest1 in a && fastest2 in a {
      pair := [fastest1, fastest2];
    } else {
      var slowest := GetSlowestPair(a, t);
      pair := [slowest.x, slowest.y];
    }
  }

  /** `cross(pair)` followed by `stopwatch += max(...)` (lines 100-101 and
      105-106). Computes `SendOver`; `SendOverKeepsEveryone` says what
      that keeps. */
  method CrossTimed(a: seq<Label>, b: seq<Label>, stopwatch: int, ghost moves: seq<Move>,
                    pair: seq<Label>, t: map<Label, int>)
    returns (a': seq<Label>, b': seq<Label>, stopwatch': int, ghost moves': seq<Move>)
    requires |pair| == 2 && pair[0] in t && pair[1] in t && multiset(pair) <= multiset(a)
    ensures a' == SendOver(State(a, b, stopwatch, moves), pair, t).a && b' == SendOver(State(a, b, stopwatch, moves), pair, t).b
    ensures stopwatch' == SendOver(State(a, b, stopwatch, moves), pair, t).stopwatch
    ensures moves' == SendOver(State(a, b, stopwatch, moves), pair, t).moves
  {
    a', b' := Cross(a, b, pair);
    stopwatch' := stopwatch + Max(t[pair[0]], t[pair[1]]);
    moves' := moves + [Over(pair[0], pair[1])];
  }

  /** Lines 99-106 of the loop: send the two fastest if both are on A,
      otherwise the slowest pair on A, and add the pace of the slower of the
      two to the stopwatch. Computes `CrossStep`, about which
      `CrossStepKeepsEveryone` speaks. */
  method SendPair(a: seq<Label>, b: seq<Label>, stopwatch: int, ghost moves: seq<Move>,
                  d: Dict, fastest1: Label, fastest2: Label)
    returns (a': seq<Label>, b': seq<Label>, stopwatch': int, ghost moves': seq<Move>)
    requires Inv(State(a, b, stopwatch, moves), d, fastest1, fastest2) && a != []
    ensures a' == CrossStep(State(a, b, stopwatch, moves), d, fastest1, fastest2).a && b' == CrossStep(State(a, b, stopwatch, moves), d, fastest1, fastest2).b
    ensures stopwatch' == CrossStep(State(a, b, stopwatch, moves), d, fastest1, fastest2).stopwatch
    ensures moves' == CrossStep(State(a, b, stopwatch, moves), d, fastest1, fastest2).moves
  {
    var t := d.times;
    assert Timed(a, t) && Distinct(a) by {
      SidesOfInv(State(a, b, stopwatch, moves), d, fastest1, fastest2);
    }
    var pair := ChoosePair(a, t, fastest1, fastest2);
    assert |pair| == 2 && pair[0] in t && pair[1] in t && multiset(pair) <= multiset(a) by {
      CrossingPairOnA(a, t, fastest1, fastest2);
    }
    a', b', stopwatch', moves' := CrossTimed(a, b, stopwatch, moves, pair, t);
    assert CrossStep(State(a, b, stopwatch, moves), d, fastest1, fastest2)
        == SendOver(State(a, b, stopwatch, moves), pair, t);
  }

  /** Lines 108-116 of the loop: while anybody is left on A, `fastest1`
      walks back if it is on B, otherwise `fastest2` if it is. Computes
      `ReturnStep`, about which `ReturnStepRestores` speaks. */
  method ReturnFastest(a: seq<Label>, b: seq<Label>, stopwatch: int, ghost moves: seq<Move>,
                       d: Dict, fastest1: Label, fastest2: Label)
    returns (a': seq<Label>, b': seq<Label>, stopwatch': int, ghost moves': seq<Move>)
    requires fastest1 in d.times && fastest2 in d.times
    ensures a' == ReturnStep(State(a, b, stopwatch, moves), d, fastest1, fastest2).a && b' == ReturnStep(State(a, b, stopwatch, moves), d, fastest1, fastest2).b
    ensures stopwatch' == ReturnStep(State(a, b, stopwatch, moves), d, fastest1, fastest2).stopwatch
    ensures moves' == ReturnStep(State(a, b, stopwatch, moves), d, fastest1, fastest2).moves
  {
    var t := d.times;
    a', b', stopwatch', moves' := a, b, stopwatch, moves;
    if a != [] {
      if fastest1 in b {
        var s := CrossBack(a, b, fastest1);
        a', b' := s.a, s.b;
        stopwatch' := stopwatch + t[fastest1];
        moves' := moves + [Back(fastest1)];
      } else if fastest2 in b {
        var s := CrossBack(a, b, fastest2);
        a', b' := s.a, s.b;
        stopwatch' := stopwatch + t[fastest2];
        moves' := moves + [Back(fastest2)];
      }
    }
  }

  /** `crossing_routine(dict_times)`, returning what the source prints at
      the end: the two lists and the stopwatch. */
  method CrossingRoutine(d: Dict) returns (r: Outcome)
    requires d.Valid()
    ensures r == IndexError <==> |d.keys| < 2
    ensures |d.keys| >= 2 ==> r == Finished(Final(d).a, Final(d).b, Final(d).stopwatch)
    ensures r.Finished? ==> r.endpointA == [] && multiset(r.endpointB) == multiset(d.keys)
  {
    var dictTimes := SortedDict(d);
    var fastestPair := GetFastestPair(dictTimes);
    assert |dictTimes.keys| == |d.keys| by {
      assert |multiset(dictTimes.keys)| == |multiset(d.keys)|;
    }
    if |fastestPair| < 2 {
      return IndexError;
    }
    StartInv(d);
    var fastest1, fastest2 := fastestPair[0], fastestPair[1];
    var endpointA, endpointB, stopwatch := d.keys, [], 0;
    ghost var moves: seq<Move> := [];
    while endpointA != []
      invariant Inv(State(endpointA, endpointB, stopwatch, moves), d, fastest1, fastest2)
      invariant Run(State(endpointA, endpointB, stopwatch, moves), d, fastest1, fastest2) == Final(d)
      decreases |endpointA|
    {
      ghost var before := State(endpointA, endpointB, stopwatch, moves);
      endpointA, endpointB, stopwatch, moves := SendPair(endpointA, endpointB, stopwatch, moves, d, fastest1, fastest2);
      endpointA, endpointB, stopwatch, moves := ReturnFastest(endpointA, endpointB, stopwatch, moves, d, fastest1, fastest2);
      PassProgress(before, d, fastest1, fastest2);
    }
    r := Finished(endpointA, endpointB, stopwatch);
  }
}
