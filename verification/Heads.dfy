/** Who leads a job after a recovery, and the test MPI_Reduce uses to find out that a leader was lost. */
module Heads {
  import opened Mpi
  import opened NodeState
  import opened Ulfm
  import opened Repair
  import opened Recovery

  /** p is the first member of list that is not among the dead. */
  ghost predicate FirstSurvivor(list: seq<Pid>, dead: set<Pid>, p: Pid) {
    exists k :: 0 <= k < |list| && list[k] == p && p !in dead && forall i :: 0 <= i < k ==> list[i] in dead
  }

  lemma {:induction false} HeadOfShrunk(list: seq<Pid>, dead: set<Pid>)
    requires Shrink(list, dead) != []
    ensures FirstSurvivor(list, dead, Shrink(list, dead)[0])
  {
    var front, last := list[..|list| - 1], list[|list| - 1];
    if Shrink(front, dead) == [] {
      forall i | 0 <= i < |front| ensures list[i] in dead {
        assert list[i] == front[i] && front[i] in front;
      }
      assert list[|front|] == last;
    } else {
      HeadOfShrunk(front, dead);
      var k :| 0 <= k < |front| && front[k] == Shrink(front, dead)[0] && front[k] !in dead
               && forall i :: 0 <= i < k ==> front[i] in dead;
      assert list[k] == front[k] && forall i :: 0 <= i < k ==> list[i] == front[i];
    }
  }

  lemma FirstSurvivorIsUnique(list: seq<Pid>, dead: set<Pid>, p: Pid, q: Pid)
    requires FirstSurvivor(list, dead, p) && FirstSurvivor(list, dead, q)
    ensures p == q
  {
  }

  /** A survivor becomes head exactly when the old head died and it comes first in the old order; no head steps down. */
  lemma PromotionIsExact(s: State, jobs: seq<seq<Pid>>, dead: set<Pid>, p: Pid)
    requires Inv(s, jobs) && dead !! s.live && p in s.world && p !in dead
    requires [] !in ShrinkAll(jobs, dead)
    ensures Knows(s.nodes[p], p, s, jobs)
    ensures WellFormed(s.nodes[p], |s.world|) && Translation(Translated(s.world, dead), |s.world|)
    ensures Repaired(s.nodes[p], Translated(s.world, dead)).Some?
    ensures var n, m := s.nodes[p], Repaired(s.nodes[p], Translated(s.world, dead)).value;
            && (n.master ==> m.master)
            && (!n.master && m.master <==> jobs[n.jobId][0] in dead && FirstSurvivor(jobs[n.jobId], dead, p))
  {
    var n := s.nodes[p];
    RepairedKnows(n, p, s, jobs, dead);
    var job := jobs[n.jobId];
    assert ShrinkAll(jobs, dead)[n.jobId] != [];
    HeadOfShrunk(job, dead);
    if FirstSurvivor(job, dead, p) {
      FirstSurvivorIsUnique(job, dead, p, Shrink(job, dead)[0]);
    }
    if n.master {
      assert job[0] == p && FirstSurvivor(job, dead, p);
    }
    if job[0] !in dead {
      assert FirstSurvivor(job, dead, job[0]);
      FirstSurvivorIsUnique(job, dead, job[0], Shrink(job, dead)[0]);
    }
  }

  /** Some member of a job that survives is promoted exactly when the head of that job died. */
  lemma SomeonePromotedIffHeadDied(s: State, jobs: seq<seq<Pid>>, dead: set<Pid>, j: nat)
    requires Inv(s, jobs) && dead !! s.live && j < |jobs|
    requires [] !in ShrinkAll(jobs, dead)
    ensures jobs[j][0] in dead <==> exists p :: p in jobs[j] && Promoted(s, dead, p)
  {
    if jobs[j][0] in dead {
      assert ShrinkAll(jobs, dead)[j] != [];
      var p := Shrink(jobs[j], dead)[0];
      HeadOfShrunk(jobs[j], dead);
      assert p in Shrink(jobs[j], dead);
      PromotionIsExact(s, jobs, dead, p);
    }
    if p :| p in jobs[j] && Promoted(s, dead, p) {
      PromotionIsExact(s, jobs, dead, p);
    }
  }

  ghost predicate Promoted(s: State, dead: set<Pid>, p: Pid) {
    && p in s.world && p !in dead && p in s.nodes
    && WellFormed(s.nodes[p], |s.world|) && Translation(Translated(s.world, dead), |s.world|)
    && var r := Repaired(s.nodes[p], Translated(s.world, dead));
       r.Some? && r.value.master && !s.nodes[p].master
  }

  // ---------------------------------------------------------------------------------------------
  // is_failed_node_world_job_comm_root
  // ---------------------------------------------------------------------------------------------

  /** What the comment above the function promises: a head was among the failed. */
  predicate HeadDied(jobs: seq<seq<Pid>>, dead: set<Pid>) {
    exists j :: 0 <= j < |jobs| && jobs[j] != [] && jobs[j][0] in dead
  }

  /** What the function computes: some list starts with one of the failed ranks. */
  ghost predicate RootAnswer(lists: seq<seq<int>>, failed: seq<int>) {
    exists i :: 0 <= i < |lists| && lists[i] != [] && lists[i][0] in failed
  }

  /**
   * The loops of the function: `lists` are the current rank lists, `failed` the ranks the failed had before the shrink.
   */
  method RootTest(lists: seq<seq<int>>, failed: seq<int>) returns (yes: bool)
    requires forall j :: 0 <= j < |lists| ==> lists[j] != []
    ensures yes <==> RootAnswer(lists, failed)
  {
    for i := 0 to |lists|
      invariant forall k :: 0 <= k < i ==> lists[k][0] !in failed
    {
      for j := 0 to |failed|
        invariant lists[i][0] !in failed[..j]
      {
        if lists[i][0] == failed[j] {
          return true;
        }
      }
    }
    yes := false;
  }

  /** q is, after the recovery, the head of a job, and has the rank that d had before it. */
  ghost predicate HeadInherits(world: seq<Pid>, jobs: seq<seq<Pid>>, dead: set<Pid>, d: Pid, q: Pid) {
    IsHead(ShrinkAll(jobs, dead), q) && q in Shrink(world, dead) && RankOf(Shrink(world, dead), q) == RankOf(world, d)
  }

  ghost predicate IsHead(jobs: seq<seq<Pid>>, q: Pid) {
    exists j :: 0 <= j < |jobs| && jobs[j] != [] && jobs[j][0] == q
  }

  /** The code says yes exactly when a head of the repaired table inherited the old rank of a dead process. */
  lemma RootTestMeaning(lists: seq<seq<int>>, group: seq<Pid>, world: seq<Pid>, jobs: seq<seq<Pid>>, dead: set<Pid>)
    requires Distinct(world) && forall d :: d in group <==> d in dead && d in world
    requires InRange(lists, |Shrink(world, dead)|)
    requires JobPids(lists, Shrink(world, dead)) == ShrinkAll(jobs, dead)
    ensures RootAnswer(lists, TranslateRanks(group, world)) <==>
            exists d, q :: d in group && HeadInherits(world, jobs, dead, d, q)
  {
    var after, failed := Shrink(world, dead), TranslateRanks(group, world);
    ShrinkIsDistinct(world, dead);
    if RootAnswer(lists, failed) {
      var i :| 0 <= i < |lists| && lists[i] != [] && lists[i][0] in failed;
      var k :| 0 <= k < |failed| && failed[k] == lists[i][0];
      assert ShrinkAll(jobs, dead)[i] == Pids(lists[i], after) && Within(lists[i], |after|);
      RankIsUnique(after, lists[i][0]);
      assert HeadInherits(world, jobs, dead, group[k], after[lists[i][0]]);
    }
    if d, q :| d in group && HeadInherits(world, jobs, dead, d, q) {
      var i :| 0 <= i < |jobs| && ShrinkAll(jobs, dead)[i] != [] && ShrinkAll(jobs, dead)[i][0] == q;
      assert ShrinkAll(jobs, dead)[i] == Pids(lists[i], after) && Within(lists[i], |after|);
      RankIsUnique(after, lists[i][0]);
      var k :| 0 <= k < |group| && group[k] == d;
      assert failed[k] == lists[i][0];
    }
  }

  /** When only d is taken out, its rank goes to the process behind it. */
  lemma NextInherits(world: seq<Pid>, jobs: seq<seq<Pid>>, d: Pid, q: Pid)
    requires Distinct(world) && d in world
    ensures HeadInherits(world, jobs, {d}, d, q) <==>
            RankOf(world, d) + 1 < |world| && q == world[RankOf(world, d) + 1] && IsHead(ShrinkAll(jobs, {d}), q)
  {
    var r, after := RankOf(world, d), Shrink(world, {d});
    ShrinkByOne(world, r);
    ShrinkIsDistinct(world, {d});
    assert after == world[..r] + world[r + 1..];
    if r + 1 < |world| {
      RankIsUnique(after, r);
    }
  }

  /** After one failure the code looks at the process one rank behind the dead one, instead of at the dead one. */
  lemma RootTestForOneFailure(lists: seq<seq<int>>, world: seq<Pid>, jobs: seq<seq<Pid>>, d: Pid)
    requires Distinct(world) && d in world
    requires InRange(lists, |Shrink(world, {d})|)
    requires JobPids(lists, Shrink(world, {d})) == ShrinkAll(jobs, {d})
    ensures var next := RankOf(world, d) + 1;
            RootAnswer(lists, TranslateRanks([d], world)) <==>
              next < |world| && IsHead(ShrinkAll(jobs, {d}), world[next])
    ensures HeadDied(jobs, {d}) <==> IsHead(jobs, d)
  {
    RootTestMeaning(lists, [d], world, jobs, {d});
    forall q ensures HeadInherits(world, jobs, {d}, d, q) <==>
                     RankOf(world, d) + 1 < |world| && q == world[RankOf(world, d) + 1]
                     && IsHead(ShrinkAll(jobs, {d}), q) {
      NextInherits(world, jobs, d, q);
    }
    var next := RankOf(world, d) + 1;
    if next < |world| {
      assert HeadInherits(world, jobs, {d}, d, world[next]) <==> IsHead(ShrinkAll(jobs, {d}), world[next]);
    }
  }

  lemma FourWithoutOne(world: seq<Pid>)
    requires world == [0, 1, 2, 3]
    ensures Shrink(world, {1}) == [0, 2, 3] && RankOf(world, 1) == 1
  {
    ShrinkByOne(world, 1);
    RankIsUnique(world, 1);
  }

  lemma RanksOfThree(after: seq<Pid>)
    requires after == [0, 2, 3]
    ensures RankOf(after, 0) == 0 && RankOf(after, 1) == MPI_UNDEFINED && RankOf(after, 2) == 1 && RankOf(after, 3) == 2
  {
    RankIsUnique(after, 0);
    RankIsUnique(after, 1);
    RankIsUnique(after, 2);
  }

  lemma WithoutProcessOne(world: seq<Pid>)
    requires world == [0, 1, 2, 3]
    ensures Translated(world, {1}) == [0, MPI_UNDEFINED, 1, 2]
    ensures TranslateRanks([1], world) == [1]
  {
    FourWithoutOne(world);
    RanksOfThree(Shrink(world, {1}));
  }

  lemma ListsWithoutProcessOne(lists: seq<seq<int>>, tr: seq<int>)
    requires |lists| == 2 && lists[0] == [0, 2] && lists[1] == [1, 3]
    requires |tr| == 4 && tr[0] == 0 && tr[1] == MPI_UNDEFINED && tr[2] == 1 && tr[3] == 2
    ensures InRange(lists, 4)
    ensures CompactAll(lists, tr)[0] == [0, 1] && CompactAll(lists, tr)[1] == [2]
  {
    assert Within(lists[0], 4) && Within(lists[1], 4);
    CompactPair(lists[0], tr);
    CompactPair(lists[1], tr);
  }

  /** Jobs [0,2] and [1,3], process 1 dies: a head is gone, and the code says no. */
  lemma RootTestMissesAHead(world: seq<Pid>, lists: seq<seq<int>>)
    requires world == [0, 1, 2, 3]
    requires |lists| == 2 && lists[0] == [0, 2] && lists[1] == [1, 3]
    ensures InRange(lists, |world|) && HeadDied(JobPids(lists, world), {1})
    ensures !RootAnswer(CompactAll(lists, Translated(world, {1})), TranslateRanks([1], world))
  {
    WithoutProcessOne(world);
    ListsWithoutProcessOne(lists, Translated(world, {1}));
    assert JobPids(lists, world)[1] == Pids(lists[1], world);
    assert JobPids(lists, world)[1][0] == 1;
  }

  lemma CompactPair(list: seq<int>, tr: seq<int>)
    requires |list| == 2 && Within(list, |tr|)
    ensures Compact(list, tr) == (if tr[list[0]] == MPI_UNDEFINED then [] else [tr[list[0]]])
                               + (if tr[list[1]] == MPI_UNDEFINED then [] else [tr[list[1]]])
  {
    CompactStep(list, tr, 0);
    CompactStep(list, tr, 1);
    assert list[..2] == list;
  }
}
