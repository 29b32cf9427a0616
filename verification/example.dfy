/** The run the planner's script makes on its own sample input,
    `{'b': 2, 'a': 1, 'c': 7, 'd': 10}`, worked out pass by pass. */
module BridgeExample {
  import opened Lists
  import opened BridgeCrossing

  const Times: map<Label, int> := map["b" := 2, "a" := 1, "c" := 7, "d" := 10]
  const Sample: Dict := Dict(["b", "a", "c", "d"], Times)

  lemma SampleValid()
    ensures Sample.Valid()
  {
    assert multiset(Sample.keys) == multiset{"b", "a", "c", "d"};
  }

  lemma SampleSorted()
    ensures SortByTime(Sample.keys, Times) == ["a", "b", "c", "d"]
  {
    assert SortByTime(["d"], Times) == ["d"];
    assert SortByTime(["c", "d"], Times) == ["c", "d"];
    assert SortByTime(["a", "c", "d"], Times) == ["a", "c", "d"];
  }

  /** The lamp carriers are `a` and `b`. */
  lemma SampleFastest()
    ensures Sample.Valid() && GetFastestPair(SortedDict(Sample)) == ["a", "b"]
  {
    SampleValid();
    SampleSorted();
  }

  /** Of `c`, `d` and `a`, the pair with the largest combined time is `c`, `d`. */
  lemma SampleSlowest()
    ensures var c := GetSlowestPair(["c", "d", "a"], Times);
      c.x == "c" && c.y == "d"
  {
    var s: seq<Label> := ["c", "d", "a"];
    assert Combinations(["a"]) == [];
    assert Combinations(["d", "a"]) == [("d", "a")];
    assert Combinations(s) == [("c", "d"), ("c", "a"), ("d", "a")];
    var cs := Candidates(s, Times);
    assert cs == [Candidate("c", "d", 17, 10), Candidate("c", "a", 8, 7), Candidate("d", "a", 11, 10)];
    assert LastArgMax(cs[..1]) == 0;
    assert LastArgMax(cs[..2]) == 0;
    assert LastArgMax(cs) == 0;
  }

  /** The states of the run: `S0` at the start, `X1` after the first
      crossing, `S1` after the first return trip, and so on. */
  const S0: State := State(["b", "a", "c", "d"], [], 0, [])
  const X1: State := State(["c", "d"], ["a", "b"], 2, [Over("a", "b")])
  const S1: State := State(["c", "d", "a"], ["b"], 3, X1.moves + [Back("a")])
  const X2: State := State(["a"], ["b", "c", "d"], 13, S1.moves + [Over("c", "d")])
  const S2: State := State(["a", "b"], ["c", "d"], 15, X2.moves + [Back("b")])
  const S3: State := State([], ["c", "d", "a", "b"], 17, S2.moves + [Over("a", "b")])

  // First pass: `a` and `b` are both on A, so they cross (2), and `a`
  // walks back (1).

  lemma RemoveA()
    ensures Remove(["b", "a", "c", "d"], "a") == ["b", "c", "d"]
  {
    var s: seq<Label> := ["b", "a", "c", "d"];
    assert s[0] != "a";
    assert IndexOf(s, "a") == 1;
  }

  lemma Cross1()
    ensures Crossed(["b", "a", "c", "d"], [], ["a", "b"]) == Sides(["c", "d"], ["a", "b"])
  {
    RemoveA();
  }

  lemma Send1()
    requires Inv(S0, Sample, "a", "b")
    ensures CrossStep(S0, Sample, "a", "b") == X1
  {
    assert CrossingPair(S0.a, Times, "a", "b") == ["a", "b"];
    Cross1();
  }

  lemma Return1()
    ensures CrossBack(["c", "d"], ["a", "b"], "a") == Sides(["c", "d", "a"], ["b"])
  {
  }

  lemma Back1()
    ensures ReturnStep(X1, Sample, "a", "b") == S1
  {
    Return1();
  }

  // Second pass: `b` is on B, so the slowest pair `c`, `d` crosses (10),
  // `a` is on A, so `b` walks back (2).

  lemma Cross2()
    ensures Crossed(["c", "d", "a"], ["b"], ["c", "d"]) == Sides(["a"], ["b", "c", "d"])
  {
  }

  /** `b` is no longer on A, so the slowest pair crosses. */
  lemma Choose2()
    ensures CrossingPair(["c", "d", "a"], Times, "a", "b") == ["c", "d"]
  {
    SampleSlowest();
  }

  lemma Send2()
    requires Inv(S1, Sample, "a", "b")
    ensures CrossStep(S1, Sample, "a", "b") == X2
  {
    Choose2();
    Cross2();
  }

  lemma Return2()
    ensures CrossBack(["a"], ["b", "c", "d"], "b") == Sides(["a", "b"], ["c", "d"])
  {
  }

  lemma Back2()
    ensures ReturnStep(X2, Sample, "a", "b") == S2
  {
    assert "a" !in X2.b;
    Return2();
  }

  // Third pass: `a` and `b` cross (2) and A is empty.

  lemma Cross3()
    ensures Crossed(["a", "b"], ["c", "d"], ["a", "b"]) == Sides([], ["c", "d", "a", "b"])
  {
  }

  lemma Send3()
    requires Inv(S2, Sample, "a", "b")
    ensures CrossStep(S2, Sample, "a", "b") == S3
  {
    assert CrossingPair(S2.a, Times, "a", "b") == ["a", "b"];
    Cross3();
  }

  /** The three passes of the loop on the sample. */
  lemma Pass1()
    requires Inv(S0, Sample, "a", "b")
    ensures Pass(S0, Sample, "a", "b") == S1
  {
    Send1();
    Back1();
  }

  lemma Pass2()
    requires Inv(S1, Sample, "a", "b")
    ensures Pass(S1, Sample, "a", "b") == S2
  {
    Send2();
    Back2();
  }

  lemma Pass3()
    requires Inv(S2, Sample, "a", "b")
    ensures Pass(S2, Sample, "a", "b") == S3
  {
    Send3();
  }

  /** A run that starts with a pass into `r` goes on from `r`. */
  lemma RunOn(st: State, d: Dict, f1: Label, f2: Label, r: State)
    requires Inv(st, d, f1, f2) && st.a != [] && Pass(st, d, f1, f2) == r
    ensures Inv(r, d, f1, f2) && Run(st, d, f1, f2) == Run(r, d, f1, f2)
  {
    PassProgress(st, d, f1, f2);
  }

  /** The loop starts from `S0` with `a` and `b` as the lamp carriers. */
  lemma SampleStart()
    ensures Sample.Valid() && |Sample.keys| >= 2
    ensures Inv(S0, Sample, "a", "b")
    ensures Final(Sample) == Run(S0, Sample, "a", "b")
  {
    SampleFastest();
    StartInv(Sample);
  }

  /** Three passes take the sample from `S0` to `S3`, where the loop stops. */
  lemma SampleRun()
    ensures Sample.Valid() && |Sample.keys| >= 2
    ensures Final(Sample) == S3
  {
    SampleStart();
    Pass1();
    RunOn(S0, Sample, "a", "b", S1);
    Pass2();
    RunOn(S1, Sample, "a", "b", S2);
    Pass3();
    RunOn(S2, Sample, "a", "b", S3);
  }

  lemma SampleTrace()
    ensures S3.moves == [Over("a", "b"), Back("a"), Over("c", "d"), Back("b"), Over("a", "b")]
  {
  }

  /** The outcome the script's comment promises: everybody crosses in 17
      time units, by the trips a+b over, a back, c+d over, b back, a+b over. */
  lemma SampleTotal()
    ensures Sample.Valid() && |Sample.keys| >= 2
    ensures Final(Sample).stopwatch == 17
    ensures Final(Sample).b == ["c", "d", "a", "b"]
    ensures Final(Sample).moves == [Over("a", "b"), Back("a"), Over("c", "d"), Back("b"), Over("a", "b")]
  {
    SampleRun();
    SampleTrace();
  }
}
