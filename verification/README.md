# Bridge and torch: a verified model of the greedy planner

`bridge_crossing.py` plans a night crossing for a group of people. Each
person has a crossing time. At most two people cross at a time, a pair
walks at the pace of its slower member, and the single lamp has to be
carried back after every crossing that leaves people behind. The planner
does the following:

- It sorts the dictionary of times (a stable sort) and takes its first two
  keys as the lamp carriers, `fastest1` and `fastest2` (`get_fastest_pair`).
- It starts with everybody on side A, in the input dictionary's key order.
  Each pass of its loop does two things:
  - It sends the two fastest over when both are on A. Otherwise it sends
    the pair on A whose times add up to the most (`get_slowest_pair`).
  - While anybody is left on A, it sends `fastest1` back if it is on B,
    and otherwise `fastest2`.
- The stopwatch adds the slower time of each pair that crosses and the
  time of each person who walks back.

The model has three files:

- `lists.dfy` (module `Lists`): the Python list operations the planner
  uses. `list.remove` drops the first occurrence of a value. A dictionary's
  keys have no duplicates.
- `bridge_crossing.dfy` (module `BridgeCrossing`):
  - The pure parts are functions: the stable sort, `get_fastest_pair`, and
    `get_slowest_pair` as `itertools.combinations` followed by a last-wins
    argmax by sum.
  - The loop is specified by `CrossStep`, `ReturnStep`, `Pass` and `Run`.
  - It is implemented imperatively by the methods `Cross`, `ChoosePair`,
    `CrossTimed`, `SendPair`, `ReturnFastest` and `CrossingRoutine`.
  - `ChoosePair` computes the crossing pair; the other methods update the
    two lists, and `CrossTimed`, `SendPair`, `ReturnFastest` and
    `CrossingRoutine` also the stopwatch. Each is proved equal to its
    specification.
  - The loop also carries a ghost trace of the trips, which the source
    does not keep, so that "the stopwatch is the sum of the trips' costs"
    can be stated.
- `example.dfy` (module `BridgeExample`): the script's own input
  `{'b': 2, 'a': 1, 'c': 7, 'd': 10}` worked out pass by pass. It ends
  after 17 time units, as the docstring says.

`crossing_routine` prints its final state instead of returning it. The
model returns that state: `Finished(endpointA, endpointB, stopwatch)`. For
fewer than two people it returns `IndexError`, which models the
`IndexError` raised at line 95 (`fastest_pair[0]` with no people,
`fastest_pair[1]` with one).

## Model

| member | source | states |
|---|---|---|
| Lists.Remove | bridge_crossing.py:83 | `list.remove` shortens the list by exactly one |
| Lists.IndexOf | bridge_crossing.py:83 | the search inside `list.remove`: a position holding the value, with the value absent before it (the first occurrence) |
| Lists.RemoveDropsOne | bridge_crossing.py:83 | removing takes away one copy of the value and leaves every other value's count unchanged |
| Lists.RemoveIsFirst | bridge_crossing.py:83 | the removed element is the first occurrence; what comes before and after it stays, in order |
| Lists.RemoveFirstOf | bridge_crossing.py:82-84 | after the first person of `people` leaves A, the rest of `people` is still on A, and removing them leaves what removing all of `people` leaves |
| Lists.MoveKeepsEveryone | bridge_crossing.py:82-84 | moving people from one list to the end of the other keeps the multiset union of the two lists |
| BridgeCrossing.Max | bridge_crossing.py:101 | `max` is an upper bound of both arguments and equals one of them |
| BridgeCrossing.Insert | bridge_crossing.py:71-72 | inserting into the sorted prefix keeps every label timed |
| BridgeCrossing.InsertPermutes | bridge_crossing.py:71-72 | inserting adds exactly the new key |
| BridgeCrossing.SortByTime | bridge_crossing.py:71-72 | the sort only outputs labels that have times |
| BridgeCrossing.SortPermutes | bridge_crossing.py:71-72 | the sorted keys are a permutation of the input keys |
| BridgeCrossing.InsertSorted | bridge_crossing.py:71-72 | inserting into a time-sorted list keeps it sorted, and the new head is either the key or the old head |
| BridgeCrossing.ConsSorted | bridge_crossing.py:71-72 | a label no slower than the head of a sorted list can go in front |
| BridgeCrossing.SortIsSorted | bridge_crossing.py:71-72 | the sort yields non-decreasing times |
| BridgeCrossing.InsertKeepsTies | bridge_crossing.py:71-72 | an inserted key goes ahead of all keys with its time and keeps their order |
| BridgeCrossing.PassHeadKeepsTies | bridge_crossing.py:71-72 | the step of the above where the key passes a strictly faster head |
| BridgeCrossing.WithTimeCons | bridge_crossing.py:71-72 | the keys with a given time, of a list with a known head |
| BridgeCrossing.SortIsStable | bridge_crossing.py:71-72 | the sort is stable: the keys with any one time keep their input order |
| BridgeCrossing.SortedDict | bridge_crossing.py:71-72 | the rebuilt dictionary has the same times and the same keys, still without duplicates |
| BridgeCrossing.GetFastestPair | bridge_crossing.py:26-29 | `list(d.keys())[:2]`: a prefix of the keys, of length two, or all keys when there are fewer |
| BridgeCrossing.FastestPairIsTwoFastest | bridge_crossing.py:26-29 | on the sorted dictionary the first two keys are two different people; the first has the smallest time and the second the smallest time among the rest |
| BridgeCrossing.FastestPairTieBreak | bridge_crossing.py:26-29 | ties follow input order: the first of the pair is the first input key with its time; the second is the next key with that time, or else the first input key with its own time |
| BridgeCrossing.Combinations | bridge_crossing.py:48 | every combination is made of members of the list |
| BridgeCrossing.CombinationsComplete | bridge_crossing.py:48 | every pair of positions i < j appears among the combinations |
| BridgeCrossing.CombinationsSound | bridge_crossing.py:48 | every combination is a pair of positions i < j, the earlier one first |
| BridgeCrossing.PairIndexAt | bridge_crossing.py:48 | the pair of positions (i, j) sits at index `PairIndex(n, i, j)` of the combinations |
| BridgeCrossing.PairAt | bridge_crossing.py:48 | every index of the combinations is the `PairIndex` of some pair of positions i < j |
| BridgeCrossing.PairIndexOrdered | bridge_crossing.py:48 | combinations come in lexicographic order of their positions |
| BridgeCrossing.Candidates | bridge_crossing.py:52-53 | one candidate per combination, in the same order, with `sum = t[x] + t[y]` and `max = max(t[x], t[y])` |
| BridgeCrossing.LastArgMax | bridge_crossing.py:54-56 | the chosen index has the largest sum, and every later candidate's sum is strictly smaller (what a stable sort by sum then `[-1]` picks) |
| BridgeCrossing.GetSlowestPair | bridge_crossing.py:32-56 | the result is `(x, y)` from two positions of the list with `x` first, its third field is `t[x] + t[y]` and its fourth `max(t[x], t[y])` |
| BridgeCrossing.SlowestPairIsSlowest | bridge_crossing.py:48-56 | no pair of the list has a larger sum; among pairs with that sum the result is the last in combination order |
| BridgeCrossing.SlowestPairIsLast | bridge_crossing.py:48-56 | the tie-break by position: the pair stands at positions i < j and every pair of positions after (i, j) in lexicographic order has a strictly smaller sum |
| BridgeCrossing.SlowestPairOnA | bridge_crossing.py:104 | on a list without duplicates the slowest pair is two different people of the list |
| BridgeCrossing.Crossed | bridge_crossing.py:80-85 | `cross(people)` appends the people to B in order and shortens A by their number |
| BridgeCrossing.CrossedLeaves | bridge_crossing.py:80-85 | `cross(people)` takes exactly `people` away from A |
| BridgeCrossing.CrossKeepsEveryone | bridge_crossing.py:80-85 | `cross` keeps the multiset union of A and B |
| BridgeCrossing.CrossBack | bridge_crossing.py:87-91 | `cross_back(p)` appends `p` to A and shortens B by one |
| BridgeCrossing.CrossBackKeepsEveryone | bridge_crossing.py:87-91 | `cross_back(p)` takes one `p` off B and keeps the multiset union of A and B |
| BridgeCrossing.SidesOfInv | bridge_crossing.py:97-116 | under the loop invariant everybody is on exactly one side, and both sides are timed and without duplicates |
| BridgeCrossing.CrossingPair | bridge_crossing.py:99-106 | the crossing pair is two people on A, and it is `[fastest1, fastest2]` exactly when both of them are on A (the other branch is stated by `CrossingPairSlowest`) |
| BridgeCrossing.CrossingPairSlowest | bridge_crossing.py:102-106 | when the two fastest are not both on A, the crossing pair has the largest sum of times of any pair on A, and every pair after it in position order has a strictly smaller sum |
| BridgeCrossing.CrossingPairOnA | bridge_crossing.py:99-106 | the pair chosen for crossing is two different people standing on A |
| BridgeCrossing.ElapsedAppend | bridge_crossing.py:101 | a further trip adds its cost to the elapsed time |
| BridgeCrossing.SendOver | bridge_crossing.py:100-101 | `cross(pair)` plus the stopwatch update: A loses two, the pair joins the end of B, the stopwatch gains the slower time, the trace gains the crossing |
| BridgeCrossing.CrossStep | bridge_crossing.py:99-106 | the first half of a pass: A loses two, B gains two, and the only new trip is a crossing |
| BridgeCrossing.WalkBack | bridge_crossing.py:111-112 | one person walks back: appended to A, one fewer on B, their time added, a return trip recorded |
| BridgeCrossing.ReturnStep | bridge_crossing.py:107-116 | nothing happens when A is empty; otherwise `fastest1` walks back if on B, else `fastest2` if on B; at most one return trip is added, by `fastest1` or `fastest2` |
| BridgeCrossing.Pass | bridge_crossing.py:97-116 | one pass keeps the earlier trips, starts with a crossing and adds one or two trips |
| BridgeCrossing.SendOverKeepsEveryone | bridge_crossing.py:99-106 | after the crossing, everybody is still on exactly one side, A has lost two people, one of the two fastest is on B, and the stopwatch is the elapsed time |
| BridgeCrossing.CrossStepKeepsEveryone | bridge_crossing.py:99-106 | the crossing step records the chosen pair, adds the slower of its times, shrinks A by two and leaves a lamp carrier on B |
| BridgeCrossing.ReturnStepRestores | bridge_crossing.py:107-116 | with A non-empty, exactly one person walks back: `fastest1` if on B, else `fastest2`; that person's time is added, A grows by one, `fastest1` is on A, nobody is lost |
| BridgeCrossing.ReturnAfterCrossing | bridge_crossing.py:107-116 | after a crossing, A ends empty exactly when it held two; otherwise it has lost one person net and the trace gained the crossing and one return by `fastest1` or `fastest2` |
| BridgeCrossing.PassKeepsInv | bridge_crossing.py:97-116 | one pass keeps the invariant and adds the crossing pair's max time, plus the returner's time when A is still non-empty |
| BridgeCrossing.PassProgress | bridge_crossing.py:97-116 | one pass keeps the invariant, shrinks A and only appends trips |
| BridgeCrossing.Run | bridge_crossing.py:97-116 | the loop terminates with A empty, the invariant holding and the earlier trips kept |
| BridgeCrossing.Start | bridge_crossing.py:75-77 | everybody on A in key order, nobody on B, no trips, stopwatch 0 |
| BridgeCrossing.StartInv | bridge_crossing.py:94-97 | with two or more people the fastest pair has two people and the invariant holds on entry to the loop |
| BridgeCrossing.Final | bridge_crossing.py:59-118 | the routine ends with A empty, B a permutation of the input keys and the stopwatch the sum of the trips' costs |
| BridgeCrossing.AlternatingCons | bridge_crossing.py:97-116 | a crossing and a return by a lamp carrier in front of an alternating stretch give an alternating stretch |
| BridgeCrossing.AlternatingLast | bridge_crossing.py:97-116 | a single final crossing is an alternating stretch |
| BridgeCrossing.AlternatingEnds | bridge_crossing.py:97-116 | an alternating stretch of odd length begins and ends with a crossing |
| BridgeCrossing.RunShape | bridge_crossing.py:97-116 | from a state with people on A the loop makes 2k − 3 further trips for k people on A, alternating over and back, every return by `fastest1` or `fastest2` |
| BridgeCrossing.FinalShape | bridge_crossing.py:59-118 | for n people the routine makes 2n − 3 trips, alternating over and back, every return by one of the two fastest |
| BridgeCrossing.Cross | bridge_crossing.py:80-85 | the `for` loop of `cross` computes `Crossed` |
| BridgeCrossing.ChoosePair | bridge_crossing.py:99-106 | the branch on `issuperset` picks the crossing pair: the two fastest when both are on A, otherwise the slowest pair on A (via `CrossingPairOnA` and `CrossingPairSlowest`) |
| BridgeCrossing.CrossTimed | bridge_crossing.py:99-106 | `cross(pair)` and the stopwatch update give the state `SendOver` describes |
| BridgeCrossing.SendPair | bridge_crossing.py:99-106 | the first half of a pass gives `CrossStep` |
| BridgeCrossing.ReturnFastest | bridge_crossing.py:107-116 | the second half of a pass gives `ReturnStep` |
| BridgeCrossing.CrossingRoutine | bridge_crossing.py:59-118 | `IndexError` exactly when there are fewer than two people; otherwise the final lists and stopwatch are those of `Final`, with A empty and B a permutation of the input keys |
| BridgeExample.SampleFastest | bridge_crossing.py:122-124 | on the script's input the lamp carriers are `a` and `b` |
| BridgeExample.SampleSlowest | bridge_crossing.py:104 | of `c`, `d`, `a` the slowest pair is `c`, `d` |
| BridgeExample.Choose2 | bridge_crossing.py:99-106 | in the second pass, with `a` back on A but `b` on B, the crossing pair is `c`, `d` |
| BridgeExample.SampleRun | bridge_crossing.py:122-124 | three passes take the script's input to A empty, B = `c, d, a, b`, stopwatch 17 |
| BridgeExample.SampleTotal | bridge_crossing.py:18 | the script's input takes 17 via (a+b) (−a) (c+d) (−b) (a+b) |

## Left out

- The `print` calls (bridge_crossing.py:78 and 117) are left out. The final
  state they print is what `CrossingRoutine` returns.
- `endpoint_a` is built from the module-level global `single_times`
  (bridge_crossing.py:75). The model builds it from the parameter's keys in
  insertion order. At the only call site (bridge_crossing.py:122-124) the
  two are the same dictionary.
- Crossing times are modelled as `int`. Python would accept floats as
  well; float arithmetic is not modelled.
- There is no input validation, because the code performs none. A
  dictionary's keys are unique by construction (`Dict.Valid`). Non-positive
  times go through the routine unchecked, as they do in the source.
- On a tie in the sum of times, `get_slowest_pair` is modelled as the code
  behaves: it takes the last such pair in combination order, not "any"
  pair.
- The nested closures `cross` and `cross_back` mutate the enclosing
  function's lists. `cross` is the method `Cross`, which takes the two lists
  and returns the updated ones. `cross_back` is the function `CrossBack`,
  which the method `ReturnFastest` calls. Aliasing of the lists is not
  modelled.
- The errors the Python would raise on a call the routine never makes are
  excluded by preconditions rather than modelled: `IndexError` from
  `pairs[-1]` with fewer than two people (bridge_crossing.py:56, excluded by
  `GetSlowestPair`'s `|s| >= 2`), `ValueError` from `list.remove` of an
  absent person (bridge_crossing.py:83 and 89, excluded by `x in s` on
  `Remove` and `IndexOf`), and `KeyError` from a missing time
  (bridge_crossing.py:52, excluded by `Timed`). `PassKeepsInv`,
  `CrossingPairOnA` and `SidesOfInv` show `crossing_routine` never reaches
  them.
- `TimeOf` counts an unknown label as 0. The routine never reaches that
  case, because every label it moves has a time (`SidesOfInv`).
- The optimality of the plan is not claimed. The docstring calls the plan
  optimal, but the greedy rule is not optimal for every input.
- RunShape: it does not state directly that the last trip is a crossing.
  That follows from its alternation clause by `AlternatingEnds`, because
  2k − 3 trips is an odd number.
- `monty_hall.py` is not part of this model. It is a seeded random
  simulation with numpy and matplotlib plotting.
- The commented-out alternative input (bridge_crossing.py:123) is not
  worked out.
