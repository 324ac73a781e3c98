/** MPI_Bcast of src/mpi/init.c: trials on the world communicator until everybody has the data. */
module Bcast {
  import opened Mpi
  import opened NodeState
  import opened Repair
  import opened Recovery
  import opened Agreement

  // NO_TRIALS in src/mpi/init.c: reaching this many trials aborts.
  const NO_TRIALS: nat := 10

  datatype Result = Done | JobLost | AllDead | OutOfTrials

  function ResultOf(e: Ending): Result {
    match e
    case Finished => Done
    case Aborted => JobLost
    case NobodyLeft => AllDead
  }

  /** No member of comm is dead: then a collective on it cannot fail. */
  predicate Intact(comm: seq<Pid>, live: set<Pid>) {
    forall p :: p in comm ==> p in live
  }

  /**
   * Does PMPI_Bcast report success to p? With a dead root nobody gets
   * anything; otherwise failures are reported to some.
   */
  predicate BcastOk(s: State, f: Fault, root: Pid, p: Pid) {
    root in s.live && (Intact(s.world, s.live - f.die) || p !in f.fail)
  }

  /** Which bytes of a receive buffer a failing broadcast has written already, by clock, process and position. */
  type Torn = (nat, Pid, nat) -> bool

  function Mixed(was: Bytes, sent: Bytes, wrote: nat -> bool): (b: Bytes)
    requires |was| == |sent|
    ensures |b| == |was|
    ensures was == sent ==> b == sent
  {
    seq(|was|, k requires 0 <= k < |was| => if wrote(k) then sent[k] else was[k])
  }

  /** All receive buffers after PMPI_Bcast. */
  function AfterBcast(s: State, f: Fault, root: Pid, buffers: map<Pid, Bytes>, torn: Torn, t: nat,
                      size: nat): (b: map<Pid, Bytes>)
    requires root in s.world && Buffered(s.world, buffers, size)
    ensures forall p :: p in s.world <==> p in b
    ensures forall p :: p in s.world ==> |b[p]| == size
    ensures forall p :: p in s.world && BcastOk(s, f, root, p) ==> b[p] == buffers[root]
    ensures forall p :: p in s.world && buffers[p] == buffers[root] ==> b[p] == buffers[root]
    ensures root !in s.live ==> forall p :: p in s.world ==> b[p] == buffers[p]
  {
    map p | p in s.world ::
      if BcastOk(s, f, root, p) then buffers[root]
      else if root in s.live then Mixed(buffers[p], buffers[root], (k: nat) => torn(t, p, k))
      else buffers[p]
  }

  /** The rank of the root as process p reads it from its own list: `job_list[root].rank_list[0]`. */
  function RootAt(s: State, p: Pid, root: nat): Pid
    requires p in s.nodes && root < |s.nodes[p].lists| && s.nodes[p].lists[root] != []
    requires 0 <= s.nodes[p].lists[root][0] < |s.world|
  {
    s.world[s.nodes[p].lists[root][0]]
  }

  /** Everybody reads the same root: the head of the root job. */
  lemma RootIsHead(s: State, jobs: seq<seq<Pid>>, p: Pid, root: nat)
    requires Inv(s, jobs) && p in s.world && root < |jobs|
    ensures root < |s.nodes[p].lists| && s.nodes[p].lists[root] != [] && 0 <= s.nodes[p].lists[root][0] < |s.world|
    ensures jobs[root] != [] && RootAt(s, p, root) == jobs[root][0]
  {
    assert Knows(s.nodes[p], p, s, jobs);
    assert jobs[root] == Pids(s.nodes[p].lists[root], s.world);
    assert Within(s.nodes[p].lists[root], |s.world|);
  }

  ghost predicate Buffered(world: seq<Pid>, buffers: map<Pid, Bytes>, size: nat) {
    forall p :: p in world ==> p in buffers && |buffers[p]| == size
  }

  ghost predicate Delivered(live: set<Pid>, buffers: map<Pid, Bytes>, data: Bytes) {
    forall p :: p in live ==> p in buffers && buffers[p] == data
  }

  /** Every live worker of the root job holds the data. */
  ghost predicate Holds(job: seq<Pid>, live: set<Pid>, buffers: map<Pid, Bytes>, data: Bytes) {
    forall p :: p in job && p in live ==> p in buffers && buffers[p] == data
  }

  lemma ReachedTrans(s0: State, jobs0: seq<seq<Pid>>, s: State, jobs: seq<seq<Pid>>, gone: set<Pid>,
                     t: State, after: seq<seq<Pid>>, more: set<Pid>)
    requires Reached(s0, jobs0, s, jobs, gone) && Reached(s, jobs, t, after, more)
    ensures Reached(s0, jobs0, t, after, gone + more)
  {
    ShrinkAllTwice(jobs0, gone, more);
    ShrinkTwice(s0.world, gone, more);
  }

  /** A job without a live worker had none in the larger lists either. */
  lemma LostFromTheStart(jobs0: seq<seq<Pid>>, jobs: seq<seq<Pid>>, gone: set<Pid>, live: set<Pid>)
    requires jobs == ShrinkAll(jobs0, gone) && gone !! live && !JobsAlive(jobs, live)
    ensures !JobsAlive(jobs0, live)
  {
    var j :| 0 <= j < |jobs| && !Alive(jobs[j], live);
    assert !Alive(jobs0[j], live) by {
      forall p | p in jobs0[j] ensures p !in live {
        assert p in gone || p in jobs[j];
      }
    }
  }

  // ---------------------------------------------------------------------------------------------
  // One trial
  // ---------------------------------------------------------------------------------------------

  /** flag = (MPI_SUCCESS == mpi_status) at everybody. */
  function BcastFlags(s: State, f: Fault, root: Pid): (flags: map<Pid, bv32>)
    ensures forall p :: p in flags <==> p in s.world
    ensures forall p :: p in flags ==> flags[p] == if BcastOk(s, f, root, p) then 1 else 0
  {
    map p | p in s.world :: if BcastOk(s, f, root, p) then 1 else 0
  }

  /** When the agreed flag is 1, all who are left have received the data of the root job. */
  lemma SuccessMeansDelivered(s: State, jobs: seq<seq<Pid>>, f: Fault, root: nat, buffers: map<Pid, Bytes>,
                              b: map<Pid, Bytes>, t: State, after: seq<seq<Pid>>, gone: set<Pid>, v: bv32, data: Bytes)
    requires root < |jobs| && jobs[root] != []
    requires Agreed(s.(live := s.live - f.die), jobs, BcastFlags(s, f, jobs[root][0]), 1, t, after, gone, v)
    requires Holds(jobs[root], s.live, buffers, data) && jobs[root][0] in buffers
    requires forall p :: p in s.world && BcastOk(s, f, jobs[root][0], p) ==> p in b && b[p] == buffers[jobs[root][0]]
    requires v == 1
    ensures Delivered(t.live, b, data)
  {
    var h := jobs[root][0];
    forall p | p in t.live ensures p in b && b[p] == data {
      assert BcastOk(s, f, h, p) && p in s.world;
      assert h in jobs[root] && h in s.live;
    }
  }

  /** When the agreed flag is 0, the world has lost a member. */
  lemma FailureCostsAMember(s: State, f: Fault, root: Pid, jobs: seq<seq<Pid>>, t: State, after: seq<seq<Pid>>,
                            gone: set<Pid>, v: bv32)
    requires root in s.world && forall p :: p in s.live ==> p in s.world
    requires Agreed(s.(live := s.live - f.die), jobs, BcastFlags(s, f, root), 1, t, after, gone, v)
    requires v != 1
    ensures t.world != s.world
  {
    var live := s.live - f.die;
    var flags := BcastFlags(s, f, root);
    if forall p :: p in live ==> flags[p] == 1 {
      assert false;
    }
    assert !Intact(s.world, live);
  }

  /** A trial leaves the live workers of the root job with the data they had. */
  lemma TrialKeepsData(s: State, jobs: seq<seq<Pid>>, f: Fault, root: nat, buffers: map<Pid, Bytes>, torn: Torn,
                       t0: nat, size: nat, t: State, after: seq<seq<Pid>>, gone: set<Pid>, data: Bytes)
    requires root < |jobs| && Inv(s, jobs) && after == ShrinkAll(jobs, gone) && t.live <= s.live - f.die
    requires Holds(jobs[root], s.live, buffers, data)
    requires Buffered(s.world, buffers, size)
    ensures jobs[root] != [] && jobs[root][0] in s.world
    ensures Holds(after[root], t.live, AfterBcast(s, f, jobs[root][0], buffers, torn, t0, size), data)
  {
    var h := jobs[root][0];
    assert h in jobs[root];
    var b := AfterBcast(s, f, h, buffers, torn, t0, size);
    forall p | p in after[root] && p in t.live ensures p in b && b[p] == data {
      assert p in jobs[root] && p in s.live && p in s.world;
      assert buffers[p] == data;
      if h in s.live {
        assert buffers[h] == data;
      }
    }
  }

  /** The processes that were in the world and are dead. */
  ghost function Departed(world: seq<Pid>, live: set<Pid>): set<Pid> {
    set p | p in world && p !in live
  }

  lemma {:induction false} DepartedCount(world: seq<Pid>, gone: set<Pid>, live: set<Pid>)
    requires Distinct(world) && gone !! live
    ensures |world| - |Shrink(world, gone)| <= |Departed(world, live)|
  {
    if world != [] {
      var front, last := world[..|world| - 1], world[|world| - 1];
      assert world == front + [last];
      DepartedCount(front, gone, live);
      assert last !in Departed(front, live);
      assert Departed(world, live) == Departed(front, live) + if last in live then {} else {last};
    }
  }

  datatype TrialEnd =
    | Agreeing(s: State, buffers: map<Pid, Bytes>, flag: bool, t: nat)
    | Broken(ending: Ending, s: State, t: nat)

  /**
   * One round of the loop of MPI_Bcast, at all processes at once. A failing broadcast on the world also runs the shrink
   * branch of the error handler at the processes it fails at; they meet there the others, whose agreement fails, so it
   * is counted as that repair.
   */
  method Trial(s: State, jobs: seq<seq<Pid>>, root: nat, buffers: map<Pid, Bytes>, size: nat, ghost data: Bytes,
               env: Schedule, torn: Torn, t: nat)
    returns (r: TrialEnd, gone: set<Pid>)
    requires Inv(s, jobs) && Small(s.world) && s.live != {} && root < |jobs|
    requires Buffered(s.world, buffers, size)
    requires Holds(jobs[root], s.live, buffers, data)
    ensures r.Agreeing? ==>
      && Reached(s, jobs, r.s, ShrinkAll(jobs, gone), gone) && r.s.live != {}
      && Buffered(r.s.world, r.buffers, size)
      && Holds(ShrinkAll(jobs, gone)[root], r.s.live, r.buffers, data)
      && (r.flag ==> Delivered(r.s.live, r.buffers, data))
      && (!r.flag ==> |r.s.world| < |s.world|) && |r.s.world| <= |s.world|
    ensures r.Broken? ==> r.ending != Finished
    ensures r.Broken? && r.ending == Aborted ==> !JobsAlive(jobs, r.s.live)
    ensures r.Broken? ==> (r.ending == NobodyLeft <==> r.s.live == {})
    ensures Outlive(s.live, env, t, r.t, r.s.live)
  {
    var f := env(t);
    var any :| any in s.live;
    RootIsHead(s, jobs, any, root);
    var h := RootAt(s, any, root);
    gone := {};
    OutliveOne(s.live, env, t);
    if s.live - f.die == {} {
      return Broken(NobodyLeft, s.(live := {}), t + 1), {};
    }
    var s1 := s.(live := s.live - f.die);
    var flags := BcastFlags(s, f, h);
    FewerAlive(s, jobs, s1.live);
    var ending, s2, jobs2, v, t2, shrinks, lastDead, lastJobs, lost := AgreeLoop(s1, jobs, flags, 1, env, t + 1);
    OutliveMore(s.live, env, t, t + 1, s1.live, t2, s2.live);
    if ending != Finished {
      return Broken(ending, s2, t2), {};
    }
    gone := lost;
    var b := AfterBcast(s, f, h, buffers, torn, t, size);
    TrialKeepsData(s, jobs, f, root, buffers, torn, t, size, s2, jobs2, gone, data);
    if v == 1 {
      SuccessMeansDelivered(s, jobs, f, root, buffers, b, s2, jobs2, gone, v, data);
    } else {
      FailureCostsAMember(s, f, h, jobs, s2, jobs2, gone, v);
    }
    r := Agreeing(s2, b, v != 0, t2);
  }

  method Broadcast(s0: State, jobs0: seq<seq<Pid>>, root: nat, buffers0: map<Pid, Bytes>, size: nat, ghost data: Bytes,
                   env: Schedule, torn: Torn)
    returns (result: Result, s: State, jobs: seq<seq<Pid>>, buffers: map<Pid, Bytes>, trials: nat, gone: set<Pid>,
             t: nat)
    requires Inv(s0, jobs0) && Small(s0.world) && s0.live != {} && root < |jobs0|
    requires Buffered(s0.world, buffers0, size)
    requires Holds(jobs0[root], s0.live, buffers0, data)
    ensures result == Done ==> Delivered(s.live, buffers, data)
    ensures result == Done || result == OutOfTrials ==>
      Reached(s0, jobs0, s, jobs, gone) && trials <= 1 + |Departed(s0.world, s.live)|
    ensures result == OutOfTrials ==> |Departed(s0.world, s.live)| > 8
    ensures result == Done ==> trials < 10
    ensures result == OutOfTrials ==> trials == 10
    ensures result == JobLost ==> !JobsAlive(jobs0, s.live)
    ensures result == AllDead <==> s.live == {}
    ensures Outlive(s0.live, env, 0, t, s.live)
  {
    s, jobs, buffers, trials, gone := s0, jobs0, buffers0, 0, {};
    t := 0;
    var flag := false;
    OutliveNothing(s0.live, env, 0);
    LoopStarts(s0, jobs0, map p | p in s0.world :: 1, 1);
    while !flag
      invariant Reached(s0, jobs0, s, jobs, gone) && s.live != {}
      invariant Buffered(s.world, buffers, size)
      invariant Holds(jobs[root], s.live, buffers, data)
      invariant flag ==> Delivered(s.live, buffers, data)
      invariant trials + |s.world| <= |s0.world| + (if flag then 1 else 0)
      invariant trials < NO_TRIALS
      invariant Outlive(s0.live, env, 0, t, s.live)
      decreases NO_TRIALS - trials
    {
      trials := trials + 1;
      if trials >= NO_TRIALS {
        DepartedCount(s0.world, gone, s.live);
        result := OutOfTrials;
        return;
      }
      var r, lost := Trial(s, jobs, root, buffers, size, data, env, torn, t);
      OutliveMore(s0.live, env, 0, t, s.live, r.t, r.s.live);
      if r.Broken? {
        if r.ending == Aborted {
          LostFromTheStart(jobs0, jobs, gone, r.s.live);
        }
        result, s, t := ResultOf(r.ending), r.s, r.t;
        return;
      }
      ReachedTrans(s0, jobs0, s, jobs, gone, r.s, ShrinkAll(jobs, lost), lost);
      s, buffers, flag, t := r.s, r.buffers, r.flag, r.t;
      jobs, gone := ShrinkAll(jobs, lost), gone + lost;
    }
    DepartedCount(s0.world, gone, s.live);
    result := Done;
  }
}
