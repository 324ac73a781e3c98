/** src/mpi/ulfm.c: repairing the job table of one process after the world was shrunk. */
module Ulfm {
  import opened Mpi
  import opened NodeState

  /** A rank translation is usable for a world of the given size. */
  ghost predicate Translation(tr: seq<int>, size: nat) {
    && |tr| == size
    && forall r :: 0 <= r < size ==> tr[r] == MPI_UNDEFINED || 0 <= tr[r] < size
  }

  /** The survivors of a rank list, renumbered, in their old order. */
  function Compact(list: seq<int>, tr: seq<int>): (c: seq<int>)
    requires Within(list, |tr|)
    ensures |c| <= |list|
    ensures Translation(tr, |tr|) ==> Within(c, |tr|)
  {
    if list == [] then []
    else
      var front, last := list[..|list| - 1], list[|list| - 1];
      var c := Compact(front, tr);
      if tr[last] == MPI_UNDEFINED then c else c + [tr[last]]
  }

  lemma CompactStep(list: seq<int>, tr: seq<int>, k: nat)
    requires Within(list, |tr|) && k < |list|
    ensures Compact(list[..k + 1], tr)
         == if tr[list[k]] == MPI_UNDEFINED then Compact(list[..k], tr) else Compact(list[..k], tr) + [tr[list[k]]]
  {
    assert list[..k + 1][..k] == list[..k];
  }

  /** The array after the value v has been written at each index in `at`, one after the other. */
  function Stamp<T>(a: seq<T>, at: seq<int>, v: T): (s: seq<T>)
    requires Within(at, |a|)
    ensures |s| == |a|
  {
    if at == [] then a
    else Stamp(a, at[..|at| - 1], v)[at[|at| - 1] := v]
  }

  lemma StampStep<T>(a: seq<T>, at: seq<int>, v: T, x: int)
    requires Within(at, |a|) && 0 <= x < |a|
    ensures Stamp(a, at + [x], v) == Stamp(a, at, v)[x := v]
  {
    assert (at + [x])[..|at|] == at;
  }

  lemma {:induction false} StampAt<T>(a: seq<T>, at: seq<int>, v: T, x: nat)
    requires Within(at, |a|) && x < |a|
    ensures Stamp(a, at, v)[x] == if x in at then v else a[x]
  {
    if at != [] {
      StampAt(a, at[..|at| - 1], v, x);
      assert at == at[..|at| - 1] + [at[|at| - 1]];
    }
  }

  function CompactAll(lists: seq<seq<int>>, tr: seq<int>): (c: seq<seq<int>>)
    requires InRange(lists, |tr|)
    ensures |c| == |lists|
    ensures forall j :: 0 <= j < |lists| ==> c[j] == Compact(lists[j], tr)
  {
    seq(|lists|, j requires 0 <= j < |lists| => Compact(lists[j], tr))
  }

  lemma CompactedInRange(lists: seq<seq<int>>, tr: seq<int>, size: nat)
    requires InRange(lists, size) && Translation(tr, size)
    ensures InRange(CompactAll(lists, tr), size)
  {
    forall j | 0 <= j < |lists| ensures Within(CompactAll(lists, tr)[j], size) {
    }
  }

  /** rank_2_job after the first k jobs have been repaired. */
  function StampJobs(rank2job: seq<int>, lists: seq<seq<int>>, k: nat): (s: seq<int>)
    requires k <= |lists|
    requires InRange(lists, |rank2job|)
    ensures |s| == |rank2job|
  {
    if k == 0 then rank2job
    else Stamp(StampJobs(rank2job, lists, k - 1), lists[k - 1], k - 1)
  }

  /** rank_ignore_list after the first k jobs have been repaired. */
  function ClearJobs(ignored: seq<bool>, lists: seq<seq<int>>, k: nat): (s: seq<bool>)
    requires k <= |lists|
    requires InRange(lists, |ignored|)
    ensures |s| == |ignored|
  {
    if k == 0 then ignored
    else Stamp(ClearJobs(ignored, lists, k - 1), lists[k - 1], false)
  }

  /** The last of the first k jobs that lists x, or -1. */
  function Owner<T(==)>(lists: seq<seq<T>>, k: nat, x: T): (o: int)
    requires k <= |lists|
    ensures -1 <= o < k
    ensures o >= 0 ==> x in lists[o]
  {
    if k == 0 then -1 else if x in lists[k - 1] then k - 1 else Owner(lists, k - 1, x)
  }

  lemma {:induction false} ListedHasOwner<T>(lists: seq<seq<T>>, k: nat, j: nat, x: T)
    requires j < k <= |lists| && x in lists[j]
    ensures Owner(lists, k, x) >= j
  {
    if x !in lists[k - 1] {
      ListedHasOwner(lists, k - 1, j, x);
    }
  }

  /** Stamping the jobs in order leaves, at each rank, the last job that lists it. */
  lemma {:induction false} StampJobsAt(rank2job: seq<int>, lists: seq<seq<int>>, k: nat, x: nat)
    requires k <= |lists| && InRange(lists, |rank2job|) && x < |rank2job|
    ensures StampJobs(rank2job, lists, k)[x] == if Owner(lists, k, x) < 0 then rank2job[x] else Owner(lists, k, x)
  {
    if k > 0 {
      StampAt(StampJobs(rank2job, lists, k - 1), lists[k - 1], k - 1, x);
      StampJobsAt(rank2job, lists, k - 1, x);
    }
  }

  lemma {:induction false} ClearJobsAt(ignored: seq<bool>, lists: seq<seq<int>>, k: nat, x: nat)
    requires k <= |lists| && InRange(lists, |ignored|) && x < |ignored|
    ensures ClearJobs(ignored, lists, k)[x] == (ignored[x] && Owner(lists, k, x) < 0)
  {
    if k > 0 {
      StampAt(ClearJobs(ignored, lists, k - 1), lists[k - 1], false, x);
      ClearJobsAt(ignored, lists, k - 1, x);
    }
  }

  /**
   * rank_2_job once every listed rank was entered: the last job that lists a rank wins, other ranks keep their entry.
   */
  function Entries(rank2job: seq<int>, lists: seq<seq<int>>): (t: seq<int>)
    ensures |t| == |rank2job|
    ensures forall x :: 0 <= x < |t| ==>
              t[x] == if Owner(lists, |lists|, x) < 0 then rank2job[x] else Owner(lists, |lists|, x)
  {
    seq(|rank2job|, x requires 0 <= x < |rank2job| =>
      if Owner(lists, |lists|, x) < 0 then rank2job[x] else Owner(lists, |lists|, x))
  }

  /** rank_ignore_list once the mark of every listed rank was taken away. */
  function Cleared(ignored: seq<bool>, lists: seq<seq<int>>): (t: seq<bool>)
    ensures |t| == |ignored|
    ensures forall x :: 0 <= x < |t| ==> t[x] == (ignored[x] && Owner(lists, |lists|, x) < 0)
  {
    seq(|ignored|, x requires 0 <= x < |ignored| => ignored[x] && Owner(lists, |lists|, x) < 0)
  }

  lemma StampedIsEntries(rank2job: seq<int>, lists: seq<seq<int>>)
    requires InRange(lists, |rank2job|)
    ensures StampJobs(rank2job, lists, |lists|) == Entries(rank2job, lists)
  {
    forall x | 0 <= x < |rank2job| ensures StampJobs(rank2job, lists, |lists|)[x] == Entries(rank2job, lists)[x] {
      StampJobsAt(rank2job, lists, |lists|, x);
    }
  }

  lemma ClearingIsCleared(ignored: seq<bool>, lists: seq<seq<int>>)
    requires InRange(lists, |ignored|)
    ensures ClearJobs(ignored, lists, |lists|) == Cleared(ignored, lists)
  {
    forall x | 0 <= x < |ignored| ensures ClearJobs(ignored, lists, |lists|)[x] == Cleared(ignored, lists)[x] {
      ClearJobsAt(ignored, lists, |lists|, x);
    }
  }

  predicate SomeJobLost(lists: seq<seq<int>>, tr: seq<int>)
    requires InRange(lists, |tr|)
  {
    [] in CompactAll(lists, tr)
  }

  /** The tables after update_job_list, or None when PMPI_Abort was called. */
  function Repaired(n: Node, tr: seq<int>): (r: Option<Node>)
    requires WellFormed(n, |tr|) && Translation(tr, |tr|)
    ensures r.Some? ==> r.value.lists == CompactAll(n.lists, tr)
    ensures r.Some? ==> |r.value.rank2job| == |n.rank2job| && |r.value.ignored| == |n.ignored|
  {
    if SomeJobLost(n.lists, tr) then None
    else
      var lists := CompactAll(n.lists, tr);
      Some(n.(
        lists := lists,
        rank2job := Entries(n.rank2job, lists),
        ignored := Cleared(n.ignored, lists),
        rank := tr[n.rank],
        master := lists[n.jobId][0] == tr[n.rank]))
  }

  /** rank_ignore_list after the failed ranks were marked by the other branch of rep_errhandler. */
  function Marked(ignored: seq<bool>, failed: seq<int>): (m: seq<bool>)
    ensures |m| == |ignored|
    ensures forall r :: 0 <= r < |m| ==> (m[r] <==> ignored[r] || r in failed)
  {
    seq(|ignored|, r requires 0 <= r < |ignored| => ignored[r] || r in failed)
  }

  // ---------------------------------------------------------------------------------------------
  // The in-place algorithm
  // ---------------------------------------------------------------------------------------------

  /** The two tables show that the ranks c, in this order, were entered for job i. */
  ghost predicate Entered(i: nat, rank2job: array<int>, ignored: array<bool>,
                          table: seq<int>, marks: seq<bool>, c: seq<int>)
    reads rank2job, ignored
  {
    && Within(c, |table|) && Within(c, |marks|)
    && rank2job[..] == Stamp(table, c, i) && ignored[..] == Stamp(marks, c, false)
  }

  /** Keeps rank x of job i: it is written back into the list and entered in the two tables. */
  method Keep(i: nat, x: int, list: array<int>, at: nat, rank2job: array<int>, ignored: array<bool>,
              ghost table: seq<int>, ghost marks: seq<bool>, ghost c: seq<int>)
    requires at < list.Length && list != rank2job
    requires 0 <= x < rank2job.Length && x < ignored.Length
    requires Entered(i, rank2job, ignored, table, marks, c)
    modifies list, rank2job, ignored
    ensures list[..] == old(list[..])[at := x]
    ensures Entered(i, rank2job, ignored, table, marks, c + [x])
  {
    StampStep(table, c, i, x);
    StampStep(marks, c, false, x);
    list[at] := x;
    rank2job[x] := i;
    ignored[x] := false;
  }

  /**
   * Round j of the compaction of `was`: the survivors so far are at the
   * front of `now`, what was not read yet is in place.
   */
  ghost predicate Moved(now: seq<int>, was: seq<int>, c: seq<int>, j: nat) {
    && |c| <= j <= |was| <= |now|
    && (forall k :: 0 <= k < |c| ==> now[k] == c[k])
    && (forall k :: j <= k < |was| ==> now[k] == was[k])
  }

  lemma MovedOn(now: seq<int>, was: seq<int>, c: seq<int>, j: nat, x: int)
    requires Moved(now, was, c, j) && j < |was|
    ensures now[j] == was[j]
    ensures Moved(now, was, c, j + 1)
    ensures Moved(now[|c| := x], was, c + [x], j + 1)
  {
  }

  class Job {
    var workerCount: nat
    // malloc'ed once for this struct; a new map brings new structs
    const rankList: array<int>

    constructor (ranks: array<int>)
      ensures workerCount == ranks.Length && rankList == ranks
    {
      workerCount := ranks.Length;
      rankList := ranks;
    }

    /** The live part of the rank list is `list`. */
    ghost predicate Holds(list: seq<int>)
      reads this, rankList
    {
      workerCount == |list| <= rankList.Length && forall k :: 0 <= k < |list| ==> rankList[k] == list[k]
    }

    /** One round of the outer loop of update_job_list, for job number i: false means PMPI_Abort. */
    method CompactInPlace(i: nat, tr: seq<int>, rank2job: array<int>, ignored: array<bool>, ghost was: seq<int>)
      returns (ok: bool)
      requires Holds(was) && was != [] && Within(was, |tr|)
      requires rankList != rank2job && Translation(tr, |tr|)
      requires |tr| <= rank2job.Length && |tr| <= ignored.Length
      modifies this`workerCount, rankList, rank2job, ignored
      ensures ok <==> Compact(was, tr) != []
      ensures ok ==> Holds(Compact(was, tr))
      ensures ok ==> rank2job[..] == Stamp(old(rank2job[..]), Compact(was, tr), i)
      ensures ok ==> ignored[..] == Stamp(old(ignored[..]), Compact(was, tr), false)
    {
      ghost var table, marks := rank2job[..], ignored[..];
      ghost var c, now := [], rankList[..];
      var overwrite, total := 0, workerCount;
      for j := 0 to total
        invariant c == Compact(was[..j], tr) && overwrite == |c| <= j
        invariant workerCount == total - (j - overwrite) && workerCount > 0
        invariant rankList[..] == now
        invariant |now| == rankList.Length && Moved(now, was, c, j)
        invariant Entered(i, rank2job, ignored, table, marks, c)
      {
        var r := rankList[j];
        MovedOn(now, was, c, j, tr[was[j]]);
        CompactStep(was, tr, j);
        if tr[r] == MPI_UNDEFINED {
          workerCount := workerCount - 1;
          if workerCount == 0 {
            assert was[..j + 1] == was;
            return false;
          }
        } else {
          Keep(i, tr[r], rankList, overwrite, rank2job, ignored, table, marks, c);
          now := now[overwrite := tr[r]];
          overwrite := overwrite + 1;
          c := c + [tr[r]];
        }
      }
      assert was[..total] == was;
      ok := true;
    }
  }

  // The mallocs behind job_list are distinct, and distinct from rank_2_job.
  ghost predicate Separate(jobs: seq<Job>, rank2job: array<int>) {
    && (forall i :: 0 <= i < |jobs| ==> jobs[i].rankList != rank2job)
    && (forall i, j :: 0 <= i < j < |jobs| ==> jobs[i] != jobs[j] && jobs[i].rankList != jobs[j].rankList)
  }

  // `fp` contains everything update_job_list may write, apart from the process itself.
  ghost predicate Covers(fp: set<object>, jobs: seq<Job>, rank2job: array<int>, ignored: array<bool>) {
    && rank2job in fp && ignored in fp
    && (forall i :: 0 <= i < |jobs| ==> jobs[i] in fp && jobs[i].rankList in fp)
  }

  // job_list, rank_2_job and rank_ignore_list hold these three values.
  ghost predicate Shows(fp: set<object>, jobs: seq<Job>, rank2job: array<int>, ignored: array<bool>,
                        lists: seq<seq<int>>, table: seq<int>, marks: seq<bool>)
    reads fp
  {
    && Covers(fp, jobs, rank2job, ignored)
    && |lists| == |jobs|
    && (forall k :: 0 <= k < |jobs| ==> jobs[k].Holds(lists[k]))
    && rank2job[..] == table && ignored[..] == marks
  }

  /** One round of the loop of update_job_list, seen from all the tables. */
  method RepairJob(jobs: seq<Job>, i: nat, tr: seq<int>, rank2job: array<int>, ignored: array<bool>,
                   ghost fp: set<object>, ghost lists: seq<seq<int>>, ghost table: seq<int>, ghost marks: seq<bool>)
    returns (ok: bool)
    requires Separate(jobs, rank2job) && Shows(fp, jobs, rank2job, ignored, lists, table, marks)
    requires i < |jobs| && Translation(tr, |tr|) && Within(lists[i], |tr|) && lists[i] != []
    requires |tr| <= |table| && |tr| <= |marks|
    modifies fp
    ensures ok <==> Compact(lists[i], tr) != []
    ensures ok ==>
      var c := Compact(lists[i], tr);
      Shows(fp, jobs, rank2job, ignored, lists[i := c], Stamp(table, c, i), Stamp(marks, c, false))
  {
    ok := jobs[i].CompactInPlace(i, tr, rank2job, ignored, lists[i]);
  }

  /** The lists when the first i of them have been compacted. */
  function Mixed<T>(before: seq<T>, after: seq<T>, i: nat): (m: seq<T>)
    requires i <= |before| == |after|
    ensures |m| == |after|
  {
    after[..i] + before[i..]
  }

  lemma MixedStep<T>(before: seq<T>, after: seq<T>, i: nat)
    requires i < |before| == |after|
    ensures Mixed(before, after, i)[i] == before[i]
    ensures Mixed(before, after, i)[i := after[i]] == Mixed(before, after, i + 1)
  {
  }

  /** The tables after the first i jobs have been repaired. */
  ghost predicate ShowsAt(fp: set<object>, jobs: seq<Job>, rank2job: array<int>, ignored: array<bool>,
                          n: Node, after: seq<seq<int>>, i: nat)
    requires i <= |n.lists| == |after|
    reads fp
  {
    && InRange(after, |n.rank2job|) && InRange(after, |n.ignored|)
    && Shows(fp, jobs, rank2job, ignored, Mixed(n.lists, after, i), StampJobs(n.rank2job, after, i),
             ClearJobs(n.ignored, after, i))
  }

  predicate NoneEmpty(lists: seq<seq<int>>, i: nat)
    requires i <= |lists|
  {
    forall k :: 0 <= k < i ==> lists[k] != []
  }

  /** Stamping all compacted lists gives the repaired tables. */
  lemma RepairedTables(n: Node, tr: seq<int>, after: seq<seq<int>>)
    requires WellFormed(n, |tr|) && Translation(tr, |tr|) && after == CompactAll(n.lists, tr)
    ensures InRange(after, |tr|) && InRange(after, |n.rank2job|) && InRange(after, |n.ignored|)
    ensures Repaired(n, tr).Some? <==> NoneEmpty(after, |after|)
    ensures Repaired(n, tr).Some? ==>
      var m := Repaired(n, tr).value;
      && m.lists == after && m.rank2job == StampJobs(n.rank2job, after, |after|)
      && m.ignored == ClearJobs(n.ignored, after, |after|)
  {
    CompactedInRange(n.lists, tr, |tr|);
    InLargerRange(after, |tr|, |n.rank2job|);
    InLargerRange(after, |tr|, |n.ignored|);
    StampedIsEntries(n.rank2job, after);
    ClearingIsCleared(n.ignored, after);
    if SomeJobLost(n.lists, tr) {
      var k :| 0 <= k < |after| && after[k] == [];
      assert !NoneEmpty(after, |after|);
    }
  }

  /** The loop over the jobs has come to job i, and no list it has compacted is empty. */
  ghost predicate RepairedUpTo(fp: set<object>, jobs: seq<Job>, rank2job: array<int>, ignored: array<bool>,
                               n: Node, after: seq<seq<int>>, i: nat)
    requires i <= |n.lists| == |after|
    reads fp
  {
    ShowsAt(fp, jobs, rank2job, ignored, n, after, i) && NoneEmpty(after, i)
  }

  lemma MixedEnds<T>(before: seq<T>, after: seq<T>)
    requires |before| == |after|
    ensures Mixed(before, after, 0) == before && Mixed(before, after, |after|) == after
  {
  }

  lemma JobReady(n: Node, tr: seq<int>, i: nat)
    requires WellFormed(n, |tr|) && i < |n.lists|
    ensures Within(n.lists[i], |tr|) && n.lists[i] != []
  {
  }

  /** One round of the loop over the jobs, with the tables as they are after the rounds before it. */
  method RepairNext(jobs: seq<Job>, i: nat, tr: seq<int>, rank2job: array<int>, ignored: array<bool>,
                    ghost fp: set<object>, ghost n: Node, ghost after: seq<seq<int>>)
    returns (ok: bool)
    requires WellFormed(n, |tr|) && Translation(tr, |tr|) && i < |jobs| == |n.lists|
    requires after == CompactAll(n.lists, tr) && InRange(after, |tr|)
    requires Separate(jobs, rank2job) && RepairedUpTo(fp, jobs, rank2job, ignored, n, after, i)
    modifies fp
    ensures ok <==> after[i] != []
    ensures ok ==> RepairedUpTo(fp, jobs, rank2job, ignored, n, after, i + 1)
  {
    JobReady(n, tr, i);
    MixedStep(n.lists, after, i);
    ok := RepairJob(jobs, i, tr, rank2job, ignored, fp, Mixed(n.lists, after, i), StampJobs(n.rank2job, after, i),
                    ClearJobs(n.ignored, after, i));
  }

  /** The loop of update_job_list over the jobs. */
  method RepairJobs(jobs: seq<Job>, tr: seq<int>, rank2job: array<int>, ignored: array<bool>,
                    ghost fp: set<object>, ghost n: Node, ghost after: seq<seq<int>>)
    returns (ok: bool)
    requires WellFormed(n, |tr|) && Translation(tr, |tr|) && |jobs| == |n.lists|
    requires after == CompactAll(n.lists, tr) && InRange(after, |tr|)
    requires Separate(jobs, rank2job) && RepairedUpTo(fp, jobs, rank2job, ignored, n, after, 0)
    modifies fp
    ensures ok <==> NoneEmpty(after, |after|)
    ensures ok ==> RepairedUpTo(fp, jobs, rank2job, ignored, n, after, |after|)
  {
    var i := 0;
    while i < |jobs|
      invariant 0 <= i <= |jobs|
      invariant RepairedUpTo(fp, jobs, rank2job, ignored, n, after, i)
    {
      ok := RepairNext(jobs, i, tr, rank2job, ignored, fp, n, after);
      if !ok {
        return;
      }
      i := i + 1;
    }
    ok := true;
  }

  method RepairTables(jobs: seq<Job>, tr: seq<int>, rank2job: array<int>, ignored: array<bool>,
                      ghost fp: set<object>, ghost n: Node)
    returns (ok: bool)
    requires Separate(jobs, rank2job) && Shows(fp, jobs, rank2job, ignored, n.lists, n.rank2job, n.ignored)
    requires WellFormed(n, |tr|) && Translation(tr, |tr|)
    modifies fp
    ensures ok <==> Repaired(n, tr).Some?
    ensures ok ==>
      var after := Repaired(n, tr).value;
      Shows(fp, jobs, rank2job, ignored, after.lists, after.rank2job, after.ignored)
  {
    ghost var after := CompactAll(n.lists, tr);
    RepairedTables(n, tr, after);
    MixedEnds(n.lists, after);
    ok := RepairJobs(jobs, tr, rank2job, ignored, fp, n, after);
  }

  class Process {
    var jobs: seq<Job>
    const rank2job: array<int>
    const ignored: array<bool>
    var jobId: int
    var rank: int
    var staticRank: Pid
    var age: int
    var transit: TransitState
    var master: bool

    ghost var tables: set<object>

    /** The globals before the first map is parsed: the job is marked unset with -1. */
    constructor (rank: Pid, rank2job: array<int>, ignored: array<bool>)
      ensures this.rank2job == rank2job && this.ignored == ignored && jobs == [] && jobId == -1
      ensures this.rank == rank && staticRank == rank && age == 0 && transit == NodeDataNone && !master
    {
      jobs, this.rank2job, this.ignored := [], rank2job, ignored;
      jobId, this.rank, staticRank, age, transit, master := -1, rank, rank, 0, NodeDataNone, false;
      tables := {rank2job, ignored};
    }

    /** The state of this process is the value n. */
    ghost predicate Is(n: Node)
      reads this, tables
    {
      && Separate(jobs, rank2job) && this !in tables
      && Shows(tables, jobs, rank2job, ignored, n.lists, n.rank2job, n.ignored)
      && n == Node(jobId, rank, staticRank, age, transit, master, n.lists, n.rank2job, n.ignored)
    }

    /** The branch of rep_errhandler that only notes which ranks of the world have failed. */
    method NoteFailures(failed: seq<int>, ghost n: Node)
      requires Is(n)
      requires forall i :: 0 <= i < |failed| ==> failed[i] == MPI_UNDEFINED || 0 <= failed[i] < |n.ignored|
      modifies ignored
      ensures Is(n.(ignored := Marked(n.ignored, failed)))
    {
      for i := 0 to |failed|
        invariant ignored[..] == Marked(n.ignored, failed[..i])
      {
        assert failed[..i + 1] == failed[..i] + [failed[i]];
        if failed[i] != MPI_UNDEFINED {
          ignored[failed[i]] := true;
        }
      }
      assert failed[..|failed|] == failed;
    }

    /** update_job_list: false means PMPI_Abort. */
    method UpdateJobList(tr: seq<int>, ghost n: Node) returns (ok: bool)
      requires Is(n) && WellFormed(n, |tr|) && Translation(tr, |tr|)
      modifies this`rank, this`master, tables
      ensures ok <==> Repaired(n, tr).Some?
      ensures ok ==> Is(Repaired(n, tr).value)
    {
      ok := RepairTables(jobs, tr, rank2job, ignored, tables, n);
      if ok {
        ghost var after := Repaired(n, tr).value;
        assert jobs[jobId].Holds(after.lists[jobId]);
        assert after.lists[jobId] != [] && jobs[jobId].rankList[0] == after.lists[jobId][0];
        rank := tr[rank];
        master := jobs[jobId].rankList[0] == rank;
      }
    }
  }
}
