/** What the renumbering of src/mpi/ulfm.c means: read as processes, it only takes the dead out of every list. */
module Repair {
  import opened Mpi
  import opened NodeState
  import opened Ulfm

  /** The translation rep_errhandler hands to update_job_list after a shrink that excludes `dead`. */
  function Translated(world: seq<Pid>, dead: set<Pid>): (tr: seq<int>)
    ensures |tr| == |world|
    ensures forall r :: 0 <= r < |world| ==> tr[r] == RankOf(Shrink(world, dead), world[r])
  {
    TranslateRanks(world, Shrink(world, dead))
  }

  lemma TranslatedIsTranslation(world: seq<Pid>, dead: set<Pid>)
    ensures Translation(Translated(world, dead), |world|)
  {
  }

  /** One in-place compaction is an order-preserving filter of the processes behind the ranks. */
  lemma {:induction false} CompactIsShrink(list: seq<int>, world: seq<Pid>, dead: set<Pid>)
    requires Within(list, |world|)
    ensures Within(Compact(list, Translated(world, dead)), |Shrink(world, dead)|)
    ensures Pids(Compact(list, Translated(world, dead)), Shrink(world, dead)) == Shrink(Pids(list, world), dead)
  {
    if list != [] {
      var front, last := list[..|list| - 1], list[|list| - 1];
      CompactIsShrink(front, world, dead);
      assert Pids(list, world)[..|list| - 1] == Pids(front, world);
      assert world[last] in world;
      var c := Compact(front, Translated(world, dead));
      if world[last] !in dead {
        assert Compact(list, Translated(world, dead)) == c + [RankOf(Shrink(world, dead), world[last])];
      } else {
        assert Compact(list, Translated(world, dead)) == c;
      }
    }
  }

  function ShrinkAll(jobs: seq<seq<Pid>>, dead: set<Pid>): (r: seq<seq<Pid>>)
    ensures |r| == |jobs|
    ensures forall j :: 0 <= j < |jobs| ==> r[j] == Shrink(jobs[j], dead)
  {
    seq(|jobs|, j requires 0 <= j < |jobs| => Shrink(jobs[j], dead))
  }

  lemma CompactAllIsShrinkAll(lists: seq<seq<int>>, world: seq<Pid>, dead: set<Pid>)
    requires InRange(lists, |world|)
    ensures InRange(CompactAll(lists, Translated(world, dead)), |Shrink(world, dead)|)
    ensures JobPids(CompactAll(lists, Translated(world, dead)), Shrink(world, dead))
        == ShrinkAll(JobPids(lists, world), dead)
  {
    var tr := Translated(world, dead);
    forall j | 0 <= j < |lists|
      ensures Within(Compact(lists[j], tr), |Shrink(world, dead)|)
      ensures Pids(Compact(lists[j], tr), Shrink(world, dead)) == Shrink(Pids(lists[j], world), dead)
    {
      CompactIsShrink(lists[j], world, dead);
    }
  }

  lemma SameEmptiness<T, U>(a: seq<seq<T>>, b: seq<seq<U>>)
    requires |a| == |b| && forall j :: 0 <= j < |a| ==> |a[j]| == |b[j]|
    ensures [] in a <==> [] in b
  {
    if [] in a {
      var j :| 0 <= j < |a| && a[j] == [];
      assert b[j] == [];
    }
    if [] in b {
      var j :| 0 <= j < |b| && b[j] == [];
      assert a[j] == [];
    }
  }

  /** update_job_list refines taking the dead out of the job table; it aborts exactly when a job is left with nobody. */
  lemma RepairRefinesFilter(n: Node, world: seq<Pid>, dead: set<Pid>)
    requires WellFormed(n, |world|)
    ensures Translation(Translated(world, dead), |world|)
    ensures Repaired(n, Translated(world, dead)).None? <==>
            [] in ShrinkAll(JobPids(n.lists, world), dead)
    ensures Repaired(n, Translated(world, dead)).Some? ==>
            var after := Repaired(n, Translated(world, dead)).value;
            && InRange(after.lists, |Shrink(world, dead)|)
            && JobPids(after.lists, Shrink(world, dead)) == ShrinkAll(JobPids(n.lists, world), dead)
  {
    TranslatedIsTranslation(world, dead);
    CompactAllIsShrinkAll(n.lists, world, dead);
    SameEmptiness(CompactAll(n.lists, Translated(world, dead)), ShrinkAll(JobPids(n.lists, world), dead));
  }

  // ---------------------------------------------------------------------------------------------
  // Two recoveries in a row
  // ---------------------------------------------------------------------------------------------

  function Compose(first: seq<int>, second: seq<int>): (tr: seq<int>)
    requires forall r :: 0 <= r < |first| ==> first[r] == MPI_UNDEFINED || 0 <= first[r] < |second|
    ensures |tr| == |first|
  {
    seq(|first|, r requires 0 <= r < |first| => if first[r] == MPI_UNDEFINED then MPI_UNDEFINED else second[first[r]])
  }

  lemma {:induction false} CompactTwice(list: seq<int>, first: seq<int>, second: seq<int>)
    requires Within(list, |first|)
    requires forall r :: 0 <= r < |first| ==> first[r] == MPI_UNDEFINED || 0 <= first[r] < |second|
    ensures Within(Compact(list, first), |second|)
    ensures Compact(Compact(list, first), second) == Compact(list, Compose(first, second))
  {
    if list != [] {
      var front, last := list[..|list| - 1], list[|list| - 1];
      CompactTwice(front, first, second);
      if first[last] != MPI_UNDEFINED {
        assert Compact(list, first)[..|Compact(list, first)| - 1] == Compact(front, first);
      }
    }
  }

  /** The rank translation of two shrinks is the composition of their translations. */
  lemma TranslationsCompose(world: seq<Pid>, d1: set<Pid>, d2: set<Pid>)
    requires Distinct(world)
    ensures forall r :: 0 <= r < |world| ==>
              Translated(world, d1)[r] == MPI_UNDEFINED || 0 <= Translated(world, d1)[r] < |Shrink(world, d1)|
    ensures Compose(Translated(world, d1), Translated(Shrink(world, d1), d2)) == Translated(world, d1 + d2)
  {
    ShrinkTwice(world, d1, d2);
    forall r | 0 <= r < |world|
      ensures Compose(Translated(world, d1), Translated(Shrink(world, d1), d2))[r] == Translated(world, d1 + d2)[r]
    {
      assert world[r] in world;
    }
  }

  ghost predicate Follows(first: seq<int>, second: seq<int>) {
    && Translation(first, |first|) && Translation(second, |second|) && |second| <= |first|
    && forall r :: 0 <= r < |first| ==> first[r] == MPI_UNDEFINED || 0 <= first[r] < |second|
  }

  lemma ListsCompose(lists: seq<seq<int>>, first: seq<int>, second: seq<int>)
    requires Follows(first, second) && InRange(lists, |first|)
    ensures InRange(CompactAll(lists, first), |second|)
    ensures CompactAll(CompactAll(lists, first), second) == CompactAll(lists, Compose(first, second))
  {
    forall j | 0 <= j < |lists|
      ensures Within(Compact(lists[j], first), |second|)
      ensures Compact(Compact(lists[j], first), second) == Compact(lists[j], Compose(first, second))
    {
      CompactTwice(lists[j], first, second);
    }
  }

  /** Same lists, same head flag, and the same entries for every listed rank. */
  ghost predicate SameView(a: Node, b: Node) {
    && a.lists == b.lists && a.rank == b.rank && a.master == b.master && a.jobId == b.jobId
    && forall j, x {:trigger x in a.lists[j]} :: 0 <= j < |a.lists| && x in a.lists[j] ==> SameEntry(a, b, x)
  }

  ghost predicate SameEntry(a: Node, b: Node, x: int) {
    && 0 <= x < |a.rank2job| && x < |b.rank2job| && x < |a.ignored| && x < |b.ignored|
    && a.rank2job[x] == b.rank2job[x]
    && !a.ignored[x] && !b.ignored[x]
  }

  /** Tables rewritten from the same lists agree at every listed rank. */
  lemma RewrittenAlike(a: Node, b: Node, n: Node, m: Node, size: nat)
    requires a.lists == b.lists && InRange(a.lists, size)
    requires a.rank2job == Entries(n.rank2job, a.lists) && a.ignored == Cleared(n.ignored, a.lists)
    requires b.rank2job == Entries(m.rank2job, a.lists) && b.ignored == Cleared(m.ignored, a.lists)
    requires size <= |n.rank2job| && size <= |n.ignored| && size <= |m.rank2job| && size <= |m.ignored|
    ensures forall j, x {:trigger x in a.lists[j]} :: 0 <= j < |a.lists| && x in a.lists[j] ==> SameEntry(a, b, x)
  {
    forall j, x {:trigger x in a.lists[j]} | 0 <= j < |a.lists| && x in a.lists[j] ensures SameEntry(a, b, x) {
      assert Within(a.lists[j], size);
      ListedHasOwner(a.lists, |a.lists|, j, x);
    }
  }

  /** Recovering twice equals recovering once under the composed translation: lists, heads, rank_2_job and flags. */
  lemma TwoRecoveriesAreOne(n: Node, first: seq<int>, second: seq<int>)
    requires WellFormed(n, |first|) && Follows(first, second)
    requires first[n.rank] != MPI_UNDEFINED
    requires Repaired(n, first).Some?
    ensures WellFormed(Repaired(n, first).value, |second|)
    ensures Translation(Compose(first, second), |first|)
    ensures var once := Repaired(n, Compose(first, second));
            var twice := Repaired(Repaired(n, first).value, second);
            && (once.Some? <==> twice.Some?)
            && (once.Some? ==> SameView(once.value, twice.value))
  {
    ListsCompose(n.lists, first, second);
    var mid := Repaired(n, first).value;
    var both := Compose(first, second);
    var lists := CompactAll(n.lists, both);
    CompactedInRange(n.lists, both, |both|);
    assert CompactAll(mid.lists, second) == lists;
    if Repaired(n, both).Some? {
      RewrittenAlike(Repaired(n, both).value, Repaired(mid, second).value, n, mid, |both|);
    }
  }

  /**
   * Recovering from the death of d1 and then of d2 leaves a survivor
   * with the same view as recovering from both at once.
   */
  lemma RecoveringTwice(n: Node, world: seq<Pid>, d1: set<Pid>, d2: set<Pid>)
    requires Distinct(world) && WellFormed(n, |world|) && world[n.rank] !in d1
    requires Translation(Translated(world, d1), |world|) && Repaired(n, Translated(world, d1)).Some?
    ensures var mid, second := Repaired(n, Translated(world, d1)).value, Translated(Shrink(world, d1), d2);
            && Translation(Translated(world, d1 + d2), |world|) && Translation(second, |Shrink(world, d1)|)
            && WellFormed(mid, |Shrink(world, d1)|)
            && var once, twice := Repaired(n, Translated(world, d1 + d2)), Repaired(mid, second);
            && (once.Some? <==> twice.Some?)
            && (once.Some? ==> SameView(once.value, twice.value))
  {
    var first, second := Translated(world, d1), Translated(Shrink(world, d1), d2);
    TranslatedIsTranslation(world, d1);
    TranslatedIsTranslation(Shrink(world, d1), d2);
    TranslationsCompose(world, d1, d2);
    assert world[n.rank] in world;
    TwoRecoveriesAreOne(n, first, second);
  }

  /** If the first of two recoveries aborts, so does the one for both sets. */
  lemma FirstAbortIsFinal(n: Node, world: seq<Pid>, d1: set<Pid>, d2: set<Pid>)
    requires WellFormed(n, |world|)
    ensures Translation(Translated(world, d1), |world|) && Translation(Translated(world, d1 + d2), |world|)
    ensures Repaired(n, Translated(world, d1)).None? ==> Repaired(n, Translated(world, d1 + d2)).None?
  {
    RepairRefinesFilter(n, world, d1);
    RepairRefinesFilter(n, world, d1 + d2);
    var jobs := JobPids(n.lists, world);
    if [] in ShrinkAll(jobs, d1) {
      var j :| 0 <= j < |jobs| && ShrinkAll(jobs, d1)[j] == [];
      ShrinkTwice(jobs[j], d1, d2);
      assert ShrinkAll(jobs, d1 + d2)[j] == [];
    }
  }
}
