/** The rank-group step of classification: run-length encoding of the sorted ranks
    (`dedup_with_count`) and sorting the runs by (count, rank), largest first. */
module Grouping {
  import opened Cards
  import opened Sorting

  /** A run of `count` equal ranks, as the `(count, rank)` pair `dedup_with_count` yields. */
  datatype Group = Group(count: nat, rank: Rank)

  function Repeat(n: nat, r: Rank): seq<Rank> {
    seq(n, _ => r)
  }

  /** The rank sequence a list of runs stands for. */
  function Expand(gs: seq<Group>): seq<Rank> {
    if |gs| == 0 then [] else Repeat(gs[0].count, gs[0].rank) + Expand(gs[1..])
  }

  /** Total number of ranks over all runs. */
  function Total(gs: seq<Group>): nat {
    if |gs| == 0 then 0 else gs[0].count + Total(gs[1..])
  }

  /** `dedup_with_count`: the maximal runs of equal adjacent ranks, in order. Expanding the
      runs gives back the input, and no run is empty or continues the previous one. */
  function RunLengths(rs: seq<Rank>): seq<Group> {
    if |rs| == 0 then []
    else
      var tail := RunLengths(rs[1..]);
      if |tail| > 0 && tail[0].rank == rs[0] then [Group(tail[0].count + 1, rs[0])] + tail[1..]
      else [Group(1, rs[0])] + tail
  }

  /** Every run is non-empty and no run continues the previous one. */
  predicate Maximal(gs: seq<Group>) {
    && (forall i :: 0 <= i < |gs| ==> gs[i].count >= 1)
    && (forall i :: 0 <= i < |gs| - 1 ==> gs[i].rank != gs[i + 1].rank)
  }

  /** The runs expand back to the ranks; each is non-empty, neighbours differ in rank, and
      the first run starts with the first rank. */
  lemma {:induction false} RunLengthsShape(rs: seq<Rank>)
    ensures var gs := RunLengths(rs);
            && Expand(gs) == rs
            && Maximal(gs)
            && (|gs| > 0 <==> |rs| > 0)
            && (|gs| > 0 ==> gs[0].rank == rs[0])
    decreases |rs|
  {
    if |rs| > 0 {
      var r := rs[0];
      var tail := RunLengths(rs[1..]);
      RunLengthsShape(rs[1..]);
      assert rs == [r] + rs[1..];
      if |tail| > 0 && tail[0].rank == r {
        ExpandGrow(tail, r);
        MaximalGrow(tail, r);
      } else {
        ExpandCons(Group(1, r), tail);
        MaximalCons(Group(1, r), tail);
      }
    }
  }

  /** A non-empty run of a rank other than the next run's keeps the runs maximal. */
  lemma MaximalCons(g: Group, gs: seq<Group>)
    requires Maximal(gs) && g.count >= 1
    requires |gs| > 0 ==> g.rank != gs[0].rank
    ensures Maximal([g] + gs)
  {
    var s := [g] + gs;
    assert forall i :: 1 <= i < |s| ==> s[i] == gs[i - 1];
  }

  /** Lengthening the first run keeps the runs maximal. */
  lemma MaximalGrow(gs: seq<Group>, r: Rank)
    requires Maximal(gs) && |gs| > 0 && gs[0].rank == r
    ensures Maximal([Group(gs[0].count + 1, r)] + gs[1..])
  {
    var s := [Group(gs[0].count + 1, r)] + gs[1..];
    assert forall i :: 1 <= i < |s| ==> s[i] == gs[i];
  }

  /** A run in front stands for its ranks in front. */
  lemma {:induction false} ExpandCons(g: Group, gs: seq<Group>)
    ensures Expand([g] + gs) == Repeat(g.count, g.rank) + Expand(gs)
  {
    assert ([g] + gs)[1..] == gs;
  }

  /** One more rank in front of a run of that rank lengthens the run. */
  lemma {:induction false} ExpandGrow(gs: seq<Group>, r: Rank)
    requires |gs| > 0 && gs[0].rank == r
    ensures Expand([Group(gs[0].count + 1, r)] + gs[1..]) == [r] + Expand(gs)
  {
    ExpandCons(Group(gs[0].count + 1, r), gs[1..]);
    assert Repeat(gs[0].count + 1, r) == [r] + Repeat(gs[0].count, r);
  }

  /** The order on `(count, rank)` pairs, as an injective integer key. */
  function GroupKey(g: Group): int {
    g.count * 13 + g.rank.Index()
  }

  /** Comparing keys is comparing counts first and ranks second. */
  lemma GroupKeyIsLexicographic(a: Group, b: Group)
    ensures GroupKey(a) < GroupKey(b)
        <==> a.count < b.count || (a.count == b.count && a.rank.Index() < b.rank.Index())
  {
    RankIndexRoundTrip(a.rank);
    RankIndexRoundTrip(b.rank);
  }

  lemma GroupKeyInjective()
    ensures Injective(GroupKey)
  {
    forall a: Group, b: Group | GroupKey(a) == GroupKey(b) ensures a == b {
      RankIndexRoundTrip(a.rank);
      RankIndexRoundTrip(b.rank);
      assert a.count == b.count;
    }
  }

  /** `groups.sort_by(|a, b| b.cmp(a))`. */
  function SortGroups(gs: seq<Group>): seq<Group> {
    SortDesc(gs, GroupKey)
  }

  lemma RepeatMultiplicity(n: nat, r: Rank, x: Rank)
    ensures multiset(Repeat(n, r))[x] == if x == r then n else 0
  {
    if n > 0 {
      assert Repeat(n, r) == [r] + Repeat(n - 1, r);
      RepeatMultiplicity(n - 1, r, x);
    }
  }

  /** Each run's rank is below the previous run's. */
  predicate StepsDown(gs: seq<Group>) {
    forall i :: 0 <= i < |gs| - 1 ==> gs[i + 1].rank.Index() < gs[i].rank.Index()
  }

  /** Every run's rank is below every earlier run's. */
  predicate RanksDecrease(gs: seq<Group>) {
    forall i, j :: 0 <= i < j < |gs| ==> gs[j].rank.Index() < gs[i].rank.Index()
  }

  /** Runs of a non-increasing rank sequence have decreasing ranks, pair by adjacent pair. */
  lemma {:induction false} RunsOfSortedStepDown(rs: seq<Rank>)
    requires SortedBy(rs, IndexOf)
    ensures StepsDown(RunLengths(rs))
  {
    if |rs| > 1 {
      var gs := RunLengths(rs);
      var tail := RunLengths(rs[1..]);
      RunLengthsShape(rs[1..]);
      TailSorted(rs, IndexOf);
      RunsOfSortedStepDown(rs[1..]);
      assert IndexOf(rs[1]) <= IndexOf(rs[0]);
      RankIndexRoundTrip(rs[0]);
      RankIndexRoundTrip(rs[1]);
      if tail[0].rank == rs[0] {
        assert gs == [Group(tail[0].count + 1, rs[0])] + tail[1..];
        forall i | 0 <= i < |gs| - 1 ensures gs[i + 1].rank.Index() < gs[i].rank.Index() {
          assert gs[i + 1] == tail[i + 1];
          assert tail[i + 1].rank.Index() < tail[i].rank.Index();
          if i > 0 {
            assert gs[i] == tail[i];
          }
        }
      } else {
        assert gs == [Group(1, rs[0])] + tail;
        forall i | 0 <= i < |gs| - 1 ensures gs[i + 1].rank.Index() < gs[i].rank.Index() {
          assert gs[i + 1] == tail[i];
          if i > 0 {
            assert gs[i] == tail[i - 1];
          }
        }
      }
    }
  }

  /** Ranks that step down pair by adjacent pair decrease throughout. */
  lemma StepsDownDecrease(gs: seq<Group>)
    requires StepsDown(gs)
    ensures RanksDecrease(gs)
  {
    forall i, j | 0 <= i < j < |gs| ensures gs[j].rank.Index() < gs[i].rank.Index() {
      var k := i;
      while k < j
        invariant i <= k <= j
        invariant gs[k].rank.Index() <= gs[i].rank.Index()
        invariant k > i ==> gs[k].rank.Index() < gs[i].rank.Index()
      {
        assert gs[k + 1].rank.Index() < gs[k].rank.Index();
        k := k + 1;
      }
    }
  }

  /** Runs of a non-increasing rank sequence have pairwise distinct ranks. */
  lemma RunsOfSortedDistinct(rs: seq<Rank>)
    requires SortedBy(rs, IndexOf)
    ensures RanksDecrease(RunLengths(rs))
  {
    RunsOfSortedStepDown(rs);
    StepsDownDecrease(RunLengths(rs));
  }

  /** With distinct ranks, each run's count is the multiplicity of its rank, every rank
      present has a run, and the counts add up to the length. */
  lemma {:induction false} ExpandCounts(gs: seq<Group>)
    requires forall i, j :: 0 <= i < j < |gs| ==> gs[i].rank != gs[j].rank
    ensures forall i :: 0 <= i < |gs| ==> multiset(Expand(gs))[gs[i].rank] == gs[i].count
    ensures forall x :: multiset(Expand(gs))[x] > 0 ==> exists i :: 0 <= i < |gs| && gs[i].rank == x
    ensures |Expand(gs)| == Total(gs)
  {
    if |gs| > 0 {
      var rest := gs[1..];
      ExpandCounts(rest);
      assert multiset(Expand(gs)) == multiset(Repeat(gs[0].count, gs[0].rank)) + multiset(Expand(rest));
      forall i | 0 <= i < |gs| ensures multiset(Expand(gs))[gs[i].rank] == gs[i].count {
        RepeatMultiplicity(gs[0].count, gs[0].rank, gs[i].rank);
        if i > 0 {
          assert rest[i - 1] == gs[i];
        }
      }
      forall x | multiset(Expand(gs))[x] > 0 ensures exists i :: 0 <= i < |gs| && gs[i].rank == x {
        RepeatMultiplicity(gs[0].count, gs[0].rank, x);
        if x != gs[0].rank {
          var k :| 0 <= k < |rest| && rest[k].rank == x;
          assert gs[k + 1].rank == x;
        }
      }
    }
  }

  lemma {:induction false} TotalOfInsert(g: Group, gs: seq<Group>)
    ensures Total(Insert(g, gs, GroupKey)) == g.count + Total(gs)
  {
    if |gs| > 0 && GroupKey(g) < GroupKey(gs[0]) {
      TotalOfInsert(g, gs[1..]);
      assert ([gs[0]] + Insert(g, gs[1..], GroupKey))[1..] == Insert(g, gs[1..], GroupKey);
    } else if |gs| > 0 {
      assert ([g] + gs)[1..] == gs;
    }
  }

  lemma {:induction false} TotalOfSort(gs: seq<Group>)
    ensures Total(SortGroups(gs)) == Total(gs)
  {
    if |gs| > 0 {
      TotalOfSort(gs[1..]);
      TotalOfInsert(gs[0], SortGroups(gs[1..]));
    }
  }

  /** `s` lists the runs of `rs` in some order: one run per distinct rank, each carrying
      that rank's multiplicity, with the counts adding up to the length of `rs`. */
  predicate RunsOf(rs: seq<Rank>, s: seq<Group>) {
    && Total(s) == |rs|
    && (forall i :: 0 <= i < |s| ==> s[i].count >= 1)
    && (forall i :: 0 <= i < |s| ==> multiset(rs)[s[i].rank] == s[i].count)
    && (forall x :: multiset(rs)[x] > 0 ==> exists i :: 0 <= i < |s| && s[i].rank == x)
  }

  /** The unsorted runs of a non-increasing rank sequence describe it, and no two are equal. */
  lemma RunLengthsDescribe(rs: seq<Rank>)
    requires SortedBy(rs, IndexOf)
    ensures RunsOf(rs, RunLengths(rs))
    ensures forall e :: multiset(RunLengths(rs))[e] <= 1
  {
    var gs := RunLengths(rs);
    RunLengthsShape(rs);
    RunsOfSortedDistinct(rs);
    forall i, j | 0 <= i < j < |gs| ensures gs[i].rank != gs[j].rank {
      assert gs[j].rank.Index() < gs[i].rank.Index();
    }
    ExpandCounts(gs);
    DistinctMultiplicity(gs);
  }

  /** Reordering the runs keeps them a description of the same ranks. */
  lemma RunsOfPermutation(rs: seq<Rank>, gs: seq<Group>, s: seq<Group>)
    requires RunsOf(rs, gs)
    requires multiset(s) == multiset(gs) && Total(s) == Total(gs)
    ensures RunsOf(rs, s)
  {
    forall i | 0 <= i < |s| ensures s[i].count >= 1 && multiset(rs)[s[i].rank] == s[i].count {
      assert s[i] in multiset(gs);
    }
    forall x | multiset(rs)[x] > 0 ensures exists i :: 0 <= i < |s| && s[i].rank == x {
      var k :| 0 <= k < |gs| && gs[k].rank == x;
      assert gs[k] in multiset(s);
    }
  }

  /** Sorting distinct runs by the injective group key orders them strictly. */
  lemma SortedDistinctRunsStrict(gs: seq<Group>, s: seq<Group>)
    requires multiset(s) == multiset(gs) && SortedBy(s, GroupKey)
    requires forall e :: multiset(gs)[e] <= 1
    ensures forall i, j :: 0 <= i < j < |s| ==> GroupKey(s[j]) < GroupKey(s[i])
  {
    GroupKeyInjective();
    SortedDistinctIsStrict(s, GroupKey);
  }

  /** The sorted runs of a non-increasing rank sequence still describe it. */
  lemma SortedRunsDescribe(rs: seq<Rank>)
    requires SortedBy(rs, IndexOf)
    ensures var s := SortGroups(RunLengths(rs));
            && (|s| > 0 <==> |rs| > 0)
            && RunsOf(rs, s)
  {
    var gs := RunLengths(rs);
    var s := SortGroups(gs);
    RunLengthsDescribe(rs);
    TotalOfSort(gs);
    RunsOfPermutation(rs, gs, s);
    assert |s| == |multiset(s)| == |gs|;
  }

  /** What classification reads off the sorted runs of a non-increasing rank sequence:
      they describe the ranks, and are strictly decreasing by (count, rank). */
  lemma SortedRunsProfile(rs: seq<Rank>)
    requires SortedBy(rs, IndexOf)
    ensures var s := SortGroups(RunLengths(rs));
            && (|s| > 0 <==> |rs| > 0)
            && RunsOf(rs, s)
            && (forall i, j :: 0 <= i < j < |s| ==> GroupKey(s[j]) < GroupKey(s[i]))
  {
    var gs := RunLengths(rs);
    SortedRunsDescribe(rs);
    RunLengthsDescribe(rs);
    SortedDistinctRunsStrict(gs, SortGroups(gs));
  }
}
