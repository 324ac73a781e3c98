/** MPI_Reduce of src/mpi/init.c: reduce over the heads, then broadcast inside the root job, until no head was lost. */
module Reduce {
  import opened Mpi
  import opened NodeState
  import opened Repair
  import opened Recovery
  import opened Heads
  import opened Communicators
  import opened Agreement
  import opened Bcast
  import opened Folding

  // What the loop changes at each process besides the tables: the flag, the last return code, the receive buffer.
  datatype Locals<V> = Locals(flags: map<Pid, bv32>, ok: map<Pid, bool>, recv: map<Pid, V>)

  ghost predicate Filled<V>(world: seq<Pid>, l: Locals<V>) {
    forall p :: p in world ==> p in l.flags && p in l.ok && p in l.recv
  }

  /** SET_FLAG_ON_SUCCESS: a failed call leaves the flag alone. */
  function FlagsSet(world: seq<Pid>, flags: map<Pid, bv32>, ok: map<Pid, bool>): (r: map<Pid, bv32>)
    requires forall p :: p in world ==> p in flags && p in ok
    ensures forall p :: p in world <==> p in r
    ensures forall p :: p in world && ok[p] ==> r[p] == MINUS_ONE
  {
    map p | p in world :: if ok[p] then MINUS_ONE else flags[p]
  }

  /** The contributions in the order of a communicator. */
  function Parts<V>(comm: seq<Pid>, send: map<Pid, V>): (parts: seq<V>)
    requires forall p :: p in comm ==> p in send
    ensures |parts| == |comm| && forall i :: 0 <= i < |comm| ==> parts[i] == send[comm[i]]
  {
    seq(|comm|, i requires 0 <= i < |comm| => send[comm[i]])
  }

  /** The return codes after a collective on comm: success at all members if all live, untouched at the others. */
  ghost predicate Returned<V>(comm: seq<Pid>, world: seq<Pid>, live: set<Pid>, l: Locals<V>, m: Locals<V>)
    requires Filled(world, l) && Filled(world, m)
  {
    forall p :: p in world ==> if p in comm then Intact(comm, live) ==> m.ok[p] else m.ok[p] == l.ok[p]
  }

  /**
   * PMPI_Reduce on `comm`, run by its members only. With all members alive it succeeds everywhere; otherwise any member
   * may see success or failure, and the receive buffer of the root may hold anything (`junk`).
   */
  function AfterReduce<V>(comm: seq<Pid>, root: nat, op: (V, V) -> V, send: map<Pid, V>, world: seq<Pid>,
                          live: set<Pid>,
                          f: Fault, junk: V, l: Locals<V>): (r: Locals<V>)
    requires root < |comm| && (forall p :: p in comm ==> p in send) && Filled(world, l)
    ensures Filled(world, r) && r.flags == l.flags && Returned(comm, world, live, l, r)
    ensures Intact(comm, live) ==> r.recv == l.recv[comm[root] := Fold(op, Parts(comm, send))]
  {
    Locals(l.flags,
           map p | p in world :: if p in comm then Intact(comm, live) || p !in f.fail else l.ok[p],
           l.recv[comm[root] := if Intact(comm, live) then Fold(op, Parts(comm, send)) else junk])
  }

  /** PMPI_Bcast from rank 0 of the communicator of the root job; all others take MPI_SUCCESS. */
  function AfterJobBcast<V>(comm: seq<Pid>, world: seq<Pid>, live: set<Pid>, f: Fault, junk: Pid -> V,
                            l: Locals<V>): (r: Locals<V>)
    requires comm != [] && comm[0] in l.recv && Filled(world, l)
    ensures Filled(world, r) && r.flags == l.flags
    ensures comm[0] in r.recv && r.recv[comm[0]] == l.recv[comm[0]]
    ensures Intact(comm, live) ==> forall p :: p in comm ==> p in r.recv && r.recv[p] == l.recv[comm[0]]
    ensures Intact(comm, live) ==> forall p :: p in world ==> r.ok[p]
    ensures forall p :: p in world && p !in comm ==> r.ok[p]
  {
    Locals(l.flags,
           map p | p in world :: if p in comm then Intact(comm, live) || p !in f.fail else true,
           map p | p in l.recv.Keys + (set q | q in comm) ::
             if p in comm && p != comm[0] then (if Intact(comm, live) then l.recv[comm[0]] else junk(p))
             else l.recv[p])
  }

  // ---------------------------------------------------------------------------------------------
  // What an agreement says about the heads
  // ---------------------------------------------------------------------------------------------

  ghost predicate AtMostTwo(jobs: seq<seq<Pid>>) {
    forall j :: 0 <= j < |jobs| ==> |jobs[j]| <= 2
  }

  lemma StillAtMostTwo(jobs: seq<seq<Pid>>, gone: set<Pid>)
    requires AtMostTwo(jobs)
    ensures AtMostTwo(ShrinkAll(jobs, gone))
  {
  }

  lemma OnlyTwo(job: seq<Pid>, p: Pid, q: Pid)
    requires |job| <= 2 && p in job && q in job && p != q
    ensures forall x :: x in job ==> x == p || x == q
  {
  }

  /** A head that survives stays head. */
  lemma NobodyDemoted(s: State, jobs: seq<seq<Pid>>, t: State, gone: set<Pid>, p: Pid)
    requires Inv(s, jobs) && Inv(t, ShrinkAll(jobs, gone)) && p in s.world && p in t.world && p !in gone
    ensures p in s.nodes && p in t.nodes && (s.nodes[p].master ==> t.nodes[p].master)
  {
    MasterMeansHead(s, jobs, p);
    MasterMeansHead(t, ShrinkAll(jobs, gone), p);
    var j := s.nodes[p].jobId;
    if s.nodes[p].master {
      HeadStays(jobs[j], gone);
      var k := t.nodes[p].jobId;
      assert p in ShrinkAll(jobs, gone)[k] && p in jobs[k];
      assert JobOf(jobs, p) == k;
    }
  }

  /** In a job of at most two workers, the only one left besides a lost head has become head. */
  lemma SurvivorLeads(job: seq<Pid>, gone: set<Pid>, q: Pid)
    requires |job| <= 2 && job != [] && q in Shrink(job, gone)
    ensures Shrink(job, gone) != [] && (Shrink(job, gone)[0] == job[0] || Shrink(job, gone)[0] == q)
  {
    var h := Shrink(job, gone)[0];
    assert h in Shrink(job, gone);
    if job[0] !in gone {
      HeadStays(job, gone);
    }
  }

  /**
   * With at most two workers per job, all of them still with somebody alive, an agreed -1 means that no head was lost.
   */
  lemma SuccessKeepsHeads(s0: State, jobs0: seq<seq<Pid>>, flags0: map<Pid, bv32>, s: State, jobs: seq<seq<Pid>>,
                          gone: set<Pid>)
    requires Inv(s0, jobs0) && AtMostTwo(jobs0)
    requires Agreed(s0, jobs0, flags0, MINUS_ONE, s, jobs, gone, MINUS_ONE) && JobsAlive(jobs, s.live)
    ensures SameHeads(jobs0, jobs)
    ensures forall j :: 0 <= j < |jobs0| ==> jobs0[j][0] in s0.live
  {
    forall j | 0 <= j < |jobs0|
      ensures jobs0[j] != [] && jobs[j] != [] && jobs[j][0] == jobs0[j][0] && jobs0[j][0] in s0.live
    {
      assert Alive(jobs[j], s.live);
      var w :| w in jobs[j] && w in s.live;
      SurvivorLeads(jobs0[j], gone, w);
      assert w in jobs0[j] && w in s.world && w in s0.world;
      MasterMeansHead(s0, jobs0, w);
      MasterMeansHead(s, jobs, w);
      assert JobOf(jobs0, w) == j && JobOf(jobs, w) == j;
      assert jobs[j][0] in jobs[j];
    }
  }

  /** The heads that are no longer in the world. */
  ghost function LostHeads(jobs: seq<seq<Pid>>, world: seq<Pid>): set<Pid> {
    set j | 0 <= j < |jobs| && jobs[j] != [] && jobs[j][0] !in world :: jobs[j][0]
  }

  ghost predicate HeadLost(jobs: seq<seq<Pid>>, world: seq<Pid>) {
    LostHeads(jobs, world) != {}
  }

  /** If everybody passed -1 and the agreed value is another one, a head was lost. */
  lemma FailureLosesHead(s0: State, jobs0: seq<seq<Pid>>, flags0: map<Pid, bv32>, s: State, jobs: seq<seq<Pid>>,
                         gone: set<Pid>, v: bv32)
    requires Agreed(s0, jobs0, flags0, MINUS_ONE, s, jobs, gone, v) && v != MINUS_ONE
    requires forall p :: p in s0.live ==> p in flags0 && flags0[p] == MINUS_ONE
    requires Inv(s0, jobs0)
    ensures HeadLost(jobs0, s.world) && !SameHeads(jobs0, jobs) && s.world != s0.world
  {
    assert !SameHeads(jobs0, jobs);
    var j :| 0 <= j < |jobs0| && !(jobs0[j] != [] && jobs[j] != [] && jobs0[j][0] == jobs[j][0]);
    assert jobs0[j] != [] && jobs[j] != [];
    if jobs0[j][0] !in gone {
      HeadStays(jobs0[j], gone);
    }
    assert jobs0[j][0] in jobs0[j] && jobs0[j][0] !in s.world;
    assert jobs0[j][0] in LostHeads(jobs0, s.world);
  }

  // ---------------------------------------------------------------------------------------------
  // One call and the agreement after it
  // ---------------------------------------------------------------------------------------------

  /** While every job is alive, whoever is not a head has a successful return code. */
  ghost predicate Standing<V>(s: State, jobs: seq<seq<Pid>>, l: Locals<V>) {
    JobsAlive(jobs, s.live) ==> forall p :: p in s.live && p in s.nodes && p in l.ok && !s.nodes[p].master ==> l.ok[p]
  }

  lemma AliveBefore(jobs: seq<seq<Pid>>, gone: set<Pid>, live: set<Pid>, later: set<Pid>)
    requires JobsAlive(ShrinkAll(jobs, gone), later) && later <= live
    ensures JobsAlive(jobs, live)
  {
    forall j | 0 <= j < |jobs| ensures Alive(jobs[j], live) {
      assert Alive(ShrinkAll(jobs, gone)[j], later);
      var p :| p in ShrinkAll(jobs, gone)[j] && p in later;
      assert p in jobs[j] && p in live;
    }
  }

  /** Everybody has a send buffer, and all workers of a job have the same. */
  ghost predicate Contributes<V>(world: seq<Pid>, jobs: seq<seq<Pid>>, send: map<Pid, V>, parts: seq<V>) {
    && |parts| == |jobs| && (forall p :: p in world ==> p in send)
    && forall j, p {:trigger p in jobs[j]} :: 0 <= j < |jobs| && p in jobs[j] && p in send ==> send[p] == parts[j]
  }

  /** comm consists of the heads, in job order. */
  ghost predicate HeadsOf(comm: seq<Pid>, s: State, jobs: seq<seq<Pid>>) {
    && |comm| == |jobs| && (forall i :: 0 <= i < |jobs| ==> jobs[i] != [] && comm[i] == jobs[i][0])
    && forall p :: p in comm <==> p in s.world && p in s.nodes && s.nodes[p].master
  }

  /** The contributions of the heads are those of the jobs, in job order. */
  lemma PartsOfJobs<V>(s: State, jobs: seq<seq<Pid>>, send: map<Pid, V>, parts: seq<V>)
    requires Inv(s, jobs) && Contributes(s.world, jobs, send, parts)
    ensures HeadsOf(ActiveComm(s), s, jobs)
    ensures (forall p :: p in ActiveComm(s) ==> p in send) && Parts(ActiveComm(s), send) == parts
  {
    ActiveCommNamesJobs(s, jobs);
    var comm := ActiveComm(s);
    SplitFacts(s.world, Masters(s), map p | p in s.world :: s.nodes[p].jobId);
    forall i | 0 <= i < |comm| ensures send[comm[i]] == parts[i] {
      assert comm[i] in comm && comm[i] in jobs[i];
    }
  }

  /** The agreement after the reduction says -1: no head was lost, so the head of the root job has the result. */
  lemma MainSucceeded<V>(s: State, jobs: seq<seq<Pid>>, comm: seq<Pid>, root: nat, result: V, live: set<Pid>,
                         flags: map<Pid, bv32>, m: Locals<V>, t: State, after: seq<seq<Pid>>, gone: set<Pid>)
    requires AtMostTwo(jobs) && root < |jobs| && Inv(s.(live := live), jobs)
    requires HeadsOf(comm, s, jobs)
    requires Intact(comm, live) ==> comm[root] in m.recv && m.recv[comm[root]] == result
    requires Agreed(s.(live := live), jobs, flags, MINUS_ONE, t, after, gone, MINUS_ONE) && JobsAlive(after, t.live)
    ensures root < |after| && HeadHolds(after[root], m, result)
  {
    SuccessKeepsHeads(s.(live := live), jobs, flags, t, after, gone);
    HeadsAreIntact(comm, s, jobs, live);
  }

  lemma HeadsAreIntact(comm: seq<Pid>, s: State, jobs: seq<seq<Pid>>, live: set<Pid>)
    requires HeadsOf(comm, s, jobs) && forall j :: 0 <= j < |jobs| ==> jobs[j][0] in live
    ensures Intact(comm, live)
  {
    forall p | p in comm ensures p in live {
      var i :| 0 <= i < |comm| && comm[i] == p;
      assert p == jobs[i][0];
    }
  }

  /** The agreement after the reduction says something else: a head was lost. */
  lemma MainFailed<V>(s: State, jobs: seq<seq<Pid>>, comm: seq<Pid>, live: set<Pid>, flags: map<Pid, bv32>,
                      l: Locals<V>, m: Locals<V>,
                      t: State, after: seq<seq<Pid>>, gone: set<Pid>, v: bv32)
    requires Filled(s.world, l) && Filled(s.world, m) && Standing(s, jobs, l) && JobsAlive(jobs, s.live)
             && live <= s.live
    requires Inv(s.(live := live), jobs) && HeadsOf(comm, s, jobs)
    requires Returned(comm, s.world, live, l, m)
    requires flags == FlagsSet(s.world, l.flags, m.ok)
    requires Agreed(s.(live := live), jobs, flags, MINUS_ONE, t, after, gone, v) && v != MINUS_ONE
    ensures HeadLost(jobs, t.world)
  {
    if Intact(comm, live) {
      FailureLosesHead(s.(live := live), jobs, flags, t, after, gone, v);
    } else {
      var p :| p in comm && p !in live;
      var i :| 0 <= i < |comm| && comm[i] == p;
      assert jobs[i][0] in LostHeads(jobs, t.world);
    }
  }

  lemma MainIsJudged<V>(s: State, jobs: seq<seq<Pid>>, comm: seq<Pid>, root: nat, result: V, live: set<Pid>,
                        flags: map<Pid, bv32>,
                        l: Locals<V>, m: Locals<V>, t: State, after: seq<seq<Pid>>, gone: set<Pid>, v: bv32)
    requires AtMostTwo(jobs) && root < |jobs| && Inv(s.(live := live), jobs) && HeadsOf(comm, s, jobs) && live <= s.live
    requires Filled(s.world, l) && Filled(s.world, m) && Standing(s, jobs, l) && Returned(comm, s.world, live, l, m)
    requires Intact(comm, live) ==> comm[root] in m.recv && m.recv[comm[root]] == result
    requires flags == FlagsSet(s.world, l.flags, m.ok)
    requires Agreed(s.(live := live), jobs, flags, MINUS_ONE, t, after, gone, v)
    ensures v == MINUS_ONE && JobsAlive(after, t.live) ==> root < |after| && HeadHolds(after[root], m, result)
    ensures v != MINUS_ONE && JobsAlive(jobs, s.live) ==> HeadLost(jobs, t.world)
  {
    if v != MINUS_ONE {
      if JobsAlive(jobs, s.live) {
        MainFailed(s, jobs, comm, live, flags, l, m, t, after, gone, v);
      }
    } else if JobsAlive(after, t.live) {
      MainSucceeded(s, jobs, comm, root, result, live, flags, m, t, after, gone);
    }
  }

  lemma MainKeepsStanding<V>(s: State, jobs: seq<seq<Pid>>, comm: seq<Pid>, live: set<Pid>, l: Locals<V>, m: Locals<V>,
                             t: State, gone: set<Pid>)
    requires Inv(s, jobs) && Inv(t, ShrinkAll(jobs, gone)) && Filled(s.world, l) && Standing(s, jobs, l)
    requires t.live <= s.live && t.live !! gone && HeadsOf(comm, s, jobs)
    requires Filled(s.world, m) && Returned(comm, s.world, live, l, m)
    ensures Standing(t, ShrinkAll(jobs, gone), m)
  {
    if JobsAlive(ShrinkAll(jobs, gone), t.live) {
      AliveBefore(jobs, gone, s.live, t.live);
      forall p | p in t.live && p in t.nodes && p in m.ok && !t.nodes[p].master ensures m.ok[p] {
        NobodyDemoted(s, jobs, t, gone, p);
      }
    }
  }

  // ---------------------------------------------------------------------------------------------
  // The broadcast inside the root job
  // ---------------------------------------------------------------------------------------------

  /** Every live worker of the root job holds the result. */
  ghost predicate HasResult<V>(job: seq<Pid>, live: set<Pid>, l: Locals<V>, result: V) {
    forall p :: p in job && p in live ==> p in l.recv && l.recv[p] == result
  }

  ghost predicate HeadHolds<V>(job: seq<Pid>, l: Locals<V>, result: V) {
    job != [] && job[0] in l.recv && l.recv[job[0]] == result
  }

  ghost predicate AllFlags<V>(live: set<Pid>, l: Locals<V>) {
    forall p :: p in live ==> p in l.flags && l.flags[p] == MINUS_ONE
  }

  /** comm is the communicator of the job: the same members, the head at rank 0. */
  ghost predicate CommOf(comm: seq<Pid>, job: seq<Pid>) {
    comm != [] && job != [] && comm[0] == job[0] && forall p :: p in comm <==> p in job
  }

  lemma WorldJobCommIsCommOf(s: State, jobs: seq<seq<Pid>>, j: nat)
    requires Inv(s, jobs) && j < |jobs|
    ensures CommOf(WorldJobComm(s, j), jobs[j])
  {
    WorldJobCommHasHeadFirst(s, jobs, j);
    var comm, h := WorldJobComm(s, j), jobs[j][0];
    assert h in jobs[j];
    forall p ensures p in comm <==> p in jobs[j] {
      assert p in comm <==> p == h || p in Keep(s.world, (set q | q in jobs[j]) - {h});
    }
  }

  /** The agreement after the broadcast says -1: everybody left in the root job has the result. */
  lemma JobSucceeded<V>(s: State, jobs: seq<seq<Pid>>, comm: seq<Pid>, root: nat, result: V, live: set<Pid>,
                        flags: map<Pid, bv32>, m: Locals<V>, t: State, after: seq<seq<Pid>>, gone: set<Pid>)
    requires AtMostTwo(jobs) && root < |jobs| && Inv(s.(live := live), jobs) && CommOf(comm, jobs[root])
    requires HeadHolds(jobs[root], m, result)
    requires Intact(comm, live) ==> forall p :: p in comm ==> p in m.recv && m.recv[p] == result
    requires Agreed(s.(live := live), jobs, flags, MINUS_ONE, t, after, gone, MINUS_ONE) && JobsAlive(after, t.live)
    ensures root < |after| && HasResult(after[root], t.live, m, result)
  {
    SuccessKeepsHeads(s.(live := live), jobs, flags, t, after, gone);
    var h := jobs[root][0];
    forall p | p in after[root] && p in t.live ensures p in m.recv && m.recv[p] == result {
      assert p in jobs[root] && h in live && p in live;
      if p != h {
        OnlyTwo(jobs[root], h, p);
        assert Intact(comm, live);
      }
    }
  }

  /** The agreement after the broadcast says something else: somebody died, and if all flags were raised, a head. */
  lemma JobFailed<V>(s: State, jobs: seq<seq<Pid>>, comm: seq<Pid>, live: set<Pid>, flags: map<Pid, bv32>,
                     l: Locals<V>, m: Locals<V>,
                     t: State, after: seq<seq<Pid>>, gone: set<Pid>, v: bv32)
    requires Filled(s.world, l) && Filled(s.world, m) && live <= s.live
    requires Inv(s.(live := live), jobs) && forall p :: p in comm ==> p in s.world
    requires Intact(comm, live) ==> forall p :: p in s.world ==> m.ok[p]
    requires flags == FlagsSet(s.world, l.flags, m.ok)
    requires Agreed(s.(live := live), jobs, flags, MINUS_ONE, t, after, gone, v) && v != MINUS_ONE
    ensures t.world != s.world
    ensures AllFlags(s.live, l) ==> HeadLost(jobs, t.world) && !SameHeads(jobs, after)
  {
    if AllFlags(s.live, l) || Intact(comm, live) {
      FailureLosesHead(s.(live := live), jobs, flags, t, after, gone, v);
    }
  }

  lemma JobIsJudged<V>(s: State, jobs: seq<seq<Pid>>, comm: seq<Pid>, root: nat, result: V, live: set<Pid>,
                       flags: map<Pid, bv32>,
                       l: Locals<V>, m: Locals<V>, t: State, after: seq<seq<Pid>>, gone: set<Pid>, v: bv32)
    requires AtMostTwo(jobs) && root < |jobs| && Inv(s.(live := live), jobs) && CommOf(comm, jobs[root])
             && live <= s.live
    requires Filled(s.world, l) && Filled(s.world, m) && forall p :: p in comm ==> p in s.world
    requires HeadHolds(jobs[root], l, result) ==> HeadHolds(jobs[root], m, result)
    requires HeadHolds(jobs[root], l, result) && Intact(comm, live) ==>
      forall p :: p in comm ==> p in m.recv && m.recv[p] == result
    requires Intact(comm, live) ==> forall p :: p in s.world ==> m.ok[p]
    requires flags == FlagsSet(s.world, l.flags, m.ok)
    requires Agreed(s.(live := live), jobs, flags, MINUS_ONE, t, after, gone, v)
    ensures v == MINUS_ONE && JobsAlive(after, t.live) && HeadHolds(jobs[root], l, result) ==>
              root < |after| && HasResult(after[root], t.live, m, result)
    ensures v != MINUS_ONE ==> t.world != s.world
    ensures v != MINUS_ONE && AllFlags(s.live, l) ==> HeadLost(jobs, t.world) && !SameHeads(jobs, after)
  {
    if v != MINUS_ONE {
      JobFailed(s, jobs, comm, live, flags, l, m, t, after, gone, v);
    } else if JobsAlive(after, t.live) && HeadHolds(jobs[root], l, result) {
      JobSucceeded(s, jobs, comm, root, result, live, flags, m, t, after, gone);
    }
  }

  lemma ChangedHeads(jobs: seq<seq<Pid>>, dead: set<Pid>)
    requires !SameHeads(jobs, ShrinkAll(jobs, dead))
    requires forall j :: 0 <= j < |jobs| ==> jobs[j] != [] && ShrinkAll(jobs, dead)[j] != []
    ensures HeadDied(jobs, dead)
  {
    var after := ShrinkAll(jobs, dead);
    var j :| 0 <= j < |jobs| && jobs[j][0] != after[j][0];
    if jobs[j][0] !in dead {
      HeadStays(jobs[j], dead);
    }
  }

  /** With one repair at most in the agreement, the failed group of that repair contains the lost head. */
  lemma LastRepairTookHead(s: State, jobs: seq<seq<Pid>>, t: State, after: seq<seq<Pid>>, repairs: nat,
                           lastDead: set<Pid>, lastJobs: seq<seq<Pid>>)
    requires Inv(s, jobs) && Inv(t, after)
    requires repairs == 0 ==> after == jobs
    requires repairs > 0 ==> after == ShrinkAll(lastJobs, lastDead)
    requires repairs == 1 ==> lastJobs == jobs
    ensures repairs <= 1 && !SameHeads(jobs, after) ==> HeadDied(lastJobs, lastDead)
  {
    if repairs == 1 && !SameHeads(jobs, after) {
      ChangedHeads(jobs, lastDead);
    }
  }

  lemma JobKeepsStanding<V>(s: State, jobs: seq<seq<Pid>>, comm: seq<Pid>, root: nat, live: set<Pid>, m: Locals<V>,
                            t: State, gone: set<Pid>)
    requires Inv(s, jobs) && Inv(t, ShrinkAll(jobs, gone)) && AtMostTwo(jobs) && root < |jobs|
             && CommOf(comm, jobs[root])
    requires t.live <= live <= s.live && t.live !! gone && forall p :: p in t.world ==> p in live && p in s.world
    requires forall p :: p in s.world && p !in comm ==> p in m.ok && m.ok[p]
    requires Intact(comm, live) ==> forall p :: p in s.world ==> p in m.ok && m.ok[p]
    ensures Standing(t, ShrinkAll(jobs, gone), m)
  {
    forall p | p in t.live && p in t.nodes && p in m.ok && !t.nodes[p].master ensures m.ok[p] {
      assert p in t.world;
      NobodyDemoted(s, jobs, t, gone, p);
      MasterMeansHead(t, ShrinkAll(jobs, gone), p);
      if p in comm && !Intact(comm, live) {
        LeadsAlone(jobs, root, gone, comm, live, t, p);
      }
    }
  }

  /** With its only companion dead, p leads the root job. */
  lemma LeadsAlone(jobs: seq<seq<Pid>>, root: nat, gone: set<Pid>, comm: seq<Pid>, live: set<Pid>, t: State, p: Pid)
    requires Inv(t, ShrinkAll(jobs, gone)) && AtMostTwo(jobs) && root < |jobs| && CommOf(comm, jobs[root])
    requires p in t.live && p in t.world && p in live && p in comm && !Intact(comm, live)
    requires forall q :: q in t.world ==> q in live
    requires p !in gone
    ensures p in t.nodes && t.nodes[p].master
  {
    var after := ShrinkAll(jobs, gone);
    var q :| q in comm && q !in live;
    assert p in jobs[root] && q in jobs[root] && p != q;
    OnlyTwo(jobs[root], p, q);
    assert p in after[root] && after[root][0] in after[root];
    assert after[root][0] == p;
    MasterMeansHead(t, after, p);
    assert JobOf(after, p) == root;
  }

  // ---------------------------------------------------------------------------------------------
  // The loops
  // ---------------------------------------------------------------------------------------------

  /** One call and the agreement after it: v is the agreed flag, the last repair took lastDead out of lastJobs. */
  datatype Phase<V> =
    | Settled(s: State, jobs: seq<seq<Pid>>, l: Locals<V>, v: bv32, t: nat, repairs: nat, lastDead: set<Pid>,
              lastJobs: seq<seq<Pid>>)
    | Stuck(ending: Ending, s: State, t: nat)

  /** is_failed_node_world_job_comm_root after a repair that took `dead` out of `jobs`, called at some time. */
  type HeadTest = (seq<seq<Pid>>, set<Pid>, nat) -> bool

  /** What the comment above the function promises: it says yes whenever a head died. It may say yes at other times. */
  ghost predicate Reliable(test: HeadTest) {
    forall jobs, dead, t :: HeadDied(jobs, dead) ==> test(jobs, dead, t)
  }

  /** What the loops keep about the machine and the local variables. */
  ghost predicate Steady<V>(s: State, jobs: seq<seq<Pid>>, l: Locals<V>) {
    Inv(s, jobs) && s.live != {} && Small(s.world) && Filled(s.world, l) && Standing(s, jobs, l)
  }

  /** The phase ended in an agreement, having taken `gone` out. */
  ghost predicate Follows<V>(s: State, jobs: seq<seq<Pid>>, r: Phase<V>, gone: set<Pid>)
    requires r.Settled?
  {
    && Reached(s, jobs, r.s, r.jobs, gone) && Steady(r.s, r.jobs, r.l)
    && (forall p :: p in r.s.world ==> r.l.flags[p] == r.v)
  }

  /** The phase ended the program: all jobs that can still be asked for a worker have one. */
  ghost predicate GivesUp<V>(s: State, jobs: seq<seq<Pid>>, r: Phase<V>)
    requires r.Stuck?
  {
    && r.ending != Finished && r.s.live <= s.live
    && (r.ending == Aborted ==> !JobsAlive(jobs, r.s.live)) && (r.ending == NobodyLeft <==> r.s.live == {})
  }

  lemma OneMorePhase<V>(s: State, jobs: seq<seq<Pid>>, r: Phase<V>, gone: set<Pid>, next: Phase<V>, more: set<Pid>)
    requires r.Settled? && Follows(s, jobs, r, gone)
    requires if next.Settled? then Follows(r.s, r.jobs, next, more) else GivesUp(r.s, r.jobs, next)
    ensures if next.Settled? then Follows(s, jobs, next, gone + more) else GivesUp(s, jobs, next)
  {
    if next.Settled? {
      ReachedTrans(s, jobs, r.s, r.jobs, gone, next.s, next.jobs, more);
    } else if next.ending == Aborted {
      LostFromTheStart(jobs, r.jobs, gone, next.s.live);
    }
  }

  /** What everybody's variables are after the agreement. */
  function AfterAgreement<V>(world: seq<Pid>, l: Locals<V>, v: bv32): Locals<V> {
    Locals(map p | p in world :: v, l.ok, l.recv)
  }

  /** PMPI_Reduce over the heads, SET_FLAG_ON_SUCCESS and DO_COMM_AGREE. */
  method MainPhase<V>(s: State, jobs: seq<seq<Pid>>, root: nat, op: (V, V) -> V, send: map<Pid, V>, ghost parts: seq<V>,
                      l: Locals<V>, junk: nat -> V, env: Schedule, t: nat)
    returns (r: Phase<V>, gone: set<Pid>)
    requires Steady(s, jobs, l) && AtMostTwo(jobs) && root < |jobs| && Contributes(s.world, jobs, send, parts)
    ensures r.Settled? ==>
      && Follows(s, jobs, r, gone)
      && (r.v == MINUS_ONE && JobsAlive(r.jobs, r.s.live) ==>
        root < |r.jobs| && HeadHolds(r.jobs[root], r.l, Fold(op, parts)))
      && (r.v != MINUS_ONE && JobsAlive(jobs, s.live) ==> HeadLost(jobs, r.s.world))
    ensures r.Stuck? ==> GivesUp(s, jobs, r)
    ensures Outlive(s.live, env, t, r.t, r.s.live)
  {
    var f, live := env(t), s.live - env(t).die;
    gone := {};
    OutliveOne(s.live, env, t);
    if live == {} {
      return Stuck(NobodyLeft, s.(live := {}), t + 1), {};
    }
    var comm := ActiveComm(s);
    PartsOfJobs(s, jobs, send, parts);
    var m := AfterReduce(comm, root, op, send, s.world, live, f, junk(t), l);
    var flags := FlagsSet(s.world, m.flags, m.ok);
    FewerAlive(s, jobs, live);
    var ending, s2, jobs2, v, t2, repairs, lastDead, lastJobs, lost :=
        AgreeLoop(s.(live := live), jobs, flags, MINUS_ONE, env, t + 1);
    OutliveMore(s.live, env, t, t + 1, live, t2, s2.live);
    if ending != Finished {
      return Stuck(ending, s2, t2), {};
    }
    gone := lost;
    MainKeepsStanding(s, jobs, comm, live, l, m, s2, gone);
    MainIsJudged(s, jobs, comm, root, Fold(op, parts), live, flags, l, m, s2, jobs2, gone, v);
    r := Settled(s2, jobs2, AfterAgreement(s2.world, m, v), v, t2, repairs, lastDead, lastJobs);
  }

  /**
   * -1 means that the workers of the root job have the result its head had; otherwise a head was lost, and found lost.
   */
  ghost predicate JobPromise<V>(s: State, jobs: seq<seq<Pid>>, root: nat, result: V, l: Locals<V>, r: Phase<V>)
    requires r.Settled? && root < |jobs|
  {
    if r.v == MINUS_ONE then
      JobsAlive(r.jobs, r.s.live) && HeadHolds(jobs[root], l, result) ==>
        root < |r.jobs| && HasResult(r.jobs[root], r.s.live, r.l, result)
    else
      HeadLost(jobs, r.s.world) && HeadDied(r.lastJobs, r.lastDead)
  }

  /** PMPI_Bcast in the root job, SET_FLAG_ON_SUCCESS and DO_COMM_AGREE. */
  method JobPhase<V>(s: State, jobs: seq<seq<Pid>>, root: nat, ghost result: V, l: Locals<V>, junk: (nat, Pid) -> V,
                     env: Schedule, t: nat)
    returns (r: Phase<V>, gone: set<Pid>)
    requires Steady(s, jobs, l) && AtMostTwo(jobs) && root < |jobs|
    ensures r.Settled? ==>
      && Follows(s, jobs, r, gone)
      && (AllFlags(s.live, l) && r.repairs <= 1 ==> JobPromise(s, jobs, root, result, l, r))
      && (r.v != MINUS_ONE ==> |r.s.world| < |s.world|) && |r.s.world| + r.repairs <= |s.world|
    ensures r.Stuck? ==> GivesUp(s, jobs, r)
    ensures Outlive(s.live, env, t, r.t, r.s.live)
  {
    var f, live := env(t), s.live - env(t).die;
    gone := {};
    OutliveOne(s.live, env, t);
    if live == {} {
      return Stuck(NobodyLeft, s.(live := {}), t + 1), {};
    }
    var comm := WorldJobComm(s, root);
    WorldJobCommIsCommOf(s, jobs, root);
    assert comm[0] in comm && comm[0] in jobs[root];
    var m := AfterJobBcast(comm, s.world, live, f, p => junk(t, p), l);
    var flags := FlagsSet(s.world, m.flags, m.ok);
    FewerAlive(s, jobs, live);
    var ending, s2, jobs2, v, t2, repairs, lastDead, lastJobs, lost :=
        AgreeLoop(s.(live := live), jobs, flags, MINUS_ONE, env, t + 1);
    OutliveMore(s.live, env, t, t + 1, live, t2, s2.live);
    if ending != Finished {
      return Stuck(ending, s2, t2), {};
    }
    gone := lost;
    JobKeepsStanding(s, jobs, comm, root, live, m, s2, gone);
    JobIsJudged(s, jobs, comm, root, result, live, flags, l, m, s2, jobs2, gone, v);
    LastRepairTookHead(s, jobs, s2, jobs2, repairs, lastDead, lastJobs);
    r := Settled(s2, jobs2, AfterAgreement(s2.world, m, v), v, t2, repairs, lastDead, lastJobs);
  }

  /** Two repairs in one agreement take at least two processes, and a test that missed a head at least one. */
  predicate Excused(before: seq<Pid>, after: seq<Pid>, multi: bool, missed: bool) {
    |after| <= |before| && (multi ==> |after| + 2 <= |before|) && (missed ==> |after| < |before|)
  }

  ghost predicate Fair(spoilt: bool, jobs: seq<seq<Pid>>, live: set<Pid>) {
    !spoilt && JobsAlive(jobs, live)
  }

  /**
   * The inner do-while: it ends on an agreed -1, or when is_failed_node_world_job_comm_root says that a head was lost,
   * which is whatever `test` answers. `multi` records whether an agreement needed more than one repair, `missed`
   * whether the test said no although the last repair took a head out.
   */
  method JobRounds<V>(s: State, jobs: seq<seq<Pid>>, root: nat, ghost result: V, l: Locals<V>, junk: (nat, Pid) -> V,
                      test: HeadTest, env: Schedule, t: nat)
    returns (r: Phase<V>, gone: set<Pid>, multi: bool, missed: bool)
    requires Steady(s, jobs, l) && AtMostTwo(jobs) && root < |jobs|
    ensures r.Settled? ==>
      && Follows(s, jobs, r, gone)
      && (AllFlags(s.live, l) && !multi && !missed ==> JobPromise(s, jobs, root, result, l, r))
      && Excused(s.world, r.s.world, multi, missed)
    ensures r.Stuck? ==> GivesUp(s, jobs, r)
    ensures Outlive(s.live, env, t, r.t, r.s.live)
    ensures Reliable(test) ==> !missed
  {
    r, gone := JobPhase(s, jobs, root, result, l, junk, env, t);
    multi, missed := r.Settled? && r.repairs > 1, false;
    while r.Settled? && r.v != MINUS_ONE && !test(r.lastJobs, r.lastDead, r.t)
      invariant if r.Settled? then Follows(s, jobs, r, gone) else GivesUp(s, jobs, r)
      invariant Outlive(s.live, env, t, r.t, r.s.live)
      invariant r.Settled? && AllFlags(s.live, l) && !multi && !missed ==> JobPromise(s, jobs, root, result, l, r)
      invariant Reliable(test) ==> !missed
      invariant r.Settled? ==>
        Excused(s.world, r.s.world, multi, missed) && (r.v != MINUS_ONE ==> |r.s.world| < |s.world|)
      decreases r.Settled?, |r.s.world|, r.Settled? && r.v != MINUS_ONE
    {
      missed := missed || HeadDied(r.lastJobs, r.lastDead);
      StillAtMostTwo(jobs, gone);
      var next, more := JobPhase(r.s, r.jobs, root, result, r.l, junk, env, r.t);
      OneMorePhase(s, jobs, r, gone, next, more);
      OutliveMore(s.live, env, t, r.t, r.s.live, next.t, next.s.live);
      multi := multi || (next.Settled? && next.repairs > 1);
      r, gone := next, gone + more;
    }
  }

  // ---------------------------------------------------------------------------------------------
  // MPI_Reduce
  // ---------------------------------------------------------------------------------------------

  lemma FewerContribute<V>(world: seq<Pid>, jobs: seq<seq<Pid>>, send: map<Pid, V>, parts: seq<V>, gone: set<Pid>)
    requires Contributes(world, jobs, send, parts)
    ensures Contributes(Shrink(world, gone), ShrinkAll(jobs, gone), send, parts)
  {
    forall j, p | 0 <= j < |jobs| && p in ShrinkAll(jobs, gone)[j] && p in send ensures send[p] == parts[j] {
      assert p in jobs[j];
    }
  }

  lemma {:induction false} MoreElements(a: set<Pid>, b: set<Pid>)
    requires a <= b
    ensures |a| <= |b|
    ensures a != b ==> |a| < |b|
  {
    if a != {} {
      var x :| x in a;
      MoreElements(a - {x}, b - {x});
    }
  }

  /** Every repair that loses a head loses one of the first heads: a second head is the last worker of its job. */
  lemma OneMoreFirstHead(s0: State, jobs0: seq<seq<Pid>>, s: State, jobs: seq<seq<Pid>>, gone: set<Pid>,
                         t: State, after: seq<seq<Pid>>, more: set<Pid>)
    requires Inv(s0, jobs0) && AtMostTwo(jobs0)
    requires Reached(s0, jobs0, s, jobs, gone) && Reached(s, jobs, t, after, more)
    ensures |LostHeads(jobs0, s.world)| <= |LostHeads(jobs0, t.world)|
    ensures HeadLost(jobs, t.world) ==> |LostHeads(jobs0, s.world)| < |LostHeads(jobs0, t.world)|
  {
    var a, b := LostHeads(jobs0, s.world), LostHeads(jobs0, t.world);
    if HeadLost(jobs, t.world) {
      var h :| h in LostHeads(jobs, t.world);
      var j :| 0 <= j < |jobs| && jobs[j] != [] && jobs[j][0] == h && h !in t.world;
      FirstHeadOrLast(jobs0[j], gone, more, h);
      assert h in jobs[j] && h in s.world;
      assert h in b && h !in a;
    }
    MoreElements(a, b);
  }

  lemma FirstHeadOrLast(job: seq<Pid>, gone: set<Pid>, more: set<Pid>, h: Pid)
    requires |job| <= 2 && Distinct(job)
    requires Shrink(job, gone) != [] && Shrink(job, gone)[0] == h && h in more
    requires Shrink(Shrink(job, gone), more) != []
    ensures job[0] == h
  {
    var q := Shrink(Shrink(job, gone), more)[0];
    assert q in Shrink(Shrink(job, gone), more) && q in job && q != h;
    assert h in Shrink(job, gone) && h in job;
    OnlyTwo(job, h, q);
    if job[0] == q {
      HeadStays(job, gone);
    }
  }

  lemma AliveAfter(jobs: seq<seq<Pid>>, gone: set<Pid>, live: set<Pid>)
    requires JobsAlive(jobs, live) && gone !! live
    ensures JobsAlive(ShrinkAll(jobs, gone), live)
  {
    forall j | 0 <= j < |jobs| ensures Alive(ShrinkAll(jobs, gone)[j], live) {
      assert Alive(jobs[j], live);
      var p :| p in jobs[j] && p in live;
      assert p in ShrinkAll(jobs, gone)[j];
    }
  }

  /** One round of the outer loop: -1 brings the result to the root job, anything else costs one of the first heads. */
  ghost predicate TrialPromise<V>(jobs0: seq<seq<Pid>>, before: seq<Pid>, root: nat, result: V, r: Phase<V>)
    requires r.Settled?
  {
    if r.v == MINUS_ONE then root < |r.jobs| && HasResult(r.jobs[root], r.s.live, r.l, result)
    else |LostHeads(jobs0, before)| < |LostHeads(jobs0, r.s.world)|
  }

  lemma TrialWithoutResult<V>(s0: State, jobs0: seq<seq<Pid>>, s: State, jobs: seq<seq<Pid>>, gone: set<Pid>,
                              root: nat, result: V, r: Phase<V>, lost: set<Pid>)
    requires Inv(s0, jobs0) && AtMostTwo(jobs0) && Reached(s0, jobs0, s, jobs, gone)
    requires r.Settled? && Follows(s, jobs, r, lost) && r.v != MINUS_ONE
    requires JobsAlive(jobs, s.live) ==> HeadLost(jobs, r.s.world)
    ensures JobsAlive(r.jobs, r.s.live) ==> TrialPromise(jobs0, s.world, root, result, r)
  {
    if JobsAlive(r.jobs, r.s.live) {
      AliveBefore(jobs, lost, s.live, r.s.live);
      OneMoreFirstHead(s0, jobs0, s, jobs, gone, r.s, r.jobs, lost);
    }
  }

  lemma AllRaised<V>(s: State, jobs: seq<seq<Pid>>, r: Phase<V>, gone: set<Pid>)
    requires r.Settled? && Follows(s, jobs, r, gone) && r.v == MINUS_ONE
    ensures AllFlags(r.s.live, r.l)
  {
  }

  /** A head lost in the second of two repairs. */
  lemma HeadLostLater(s0: State, jobs0: seq<seq<Pid>>, s: State, jobs: seq<seq<Pid>>, gone: set<Pid>,
                      mid: State, midJobs: seq<seq<Pid>>, lost: set<Pid>,
                      t: State, after: seq<seq<Pid>>, more: set<Pid>)
    requires Inv(s0, jobs0) && AtMostTwo(jobs0) && Reached(s0, jobs0, s, jobs, gone)
    requires Reached(s, jobs, mid, midJobs, lost) && Reached(mid, midJobs, t, after, more)
    requires HeadLost(midJobs, t.world)
    ensures |LostHeads(jobs0, s.world)| < |LostHeads(jobs0, t.world)|
  {
    OneMoreFirstHead(s0, jobs0, s, jobs, gone, mid, midJobs, lost);
    ReachedTrans(s0, jobs0, s, jobs, gone, mid, midJobs, lost);
    OneMoreFirstHead(s0, jobs0, mid, midJobs, gone + lost, t, after, more);
  }

  lemma TrialWithRounds<V>(s0: State, jobs0: seq<seq<Pid>>, s: State, jobs: seq<seq<Pid>>, gone: set<Pid>,
                           root: nat, result: V, mid: Phase<V>, lost: set<Pid>, r: Phase<V>, more: set<Pid>)
    requires Inv(s0, jobs0) && AtMostTwo(jobs0) && Reached(s0, jobs0, s, jobs, gone)
    requires mid.Settled? && Follows(s, jobs, mid, lost) && r.Settled? && Follows(mid.s, mid.jobs, r, more)
    requires root < |mid.jobs| && JobPromise(mid.s, mid.jobs, root, result, mid.l, r)
    requires JobsAlive(mid.jobs, mid.s.live) ==> HeadHolds(mid.jobs[root], mid.l, result)
    ensures JobsAlive(r.jobs, r.s.live) ==> TrialPromise(jobs0, s.world, root, result, r)
  {
    if JobsAlive(r.jobs, r.s.live) {
      AliveBefore(mid.jobs, more, mid.s.live, r.s.live);
      if r.v != MINUS_ONE {
        HeadLostLater(s0, jobs0, s, jobs, gone, mid.s, mid.jobs, lost, r.s, r.jobs, more);
      }
    }
  }

  method ReduceTrial<V>(ghost s0: State, ghost jobs0: seq<seq<Pid>>, s: State, jobs: seq<seq<Pid>>,
                        ghost gone: set<Pid>,
                        root: nat, op: (V, V) -> V, send: map<Pid, V>, ghost parts: seq<V>, l: Locals<V>,
                        junk: (nat, Pid) -> V, test: HeadTest, env: Schedule, t: nat)
    returns (r: Phase<V>, ghost lost: set<Pid>, multi: bool, missed: bool)
    requires Inv(s0, jobs0) && AtMostTwo(jobs0) && Reached(s0, jobs0, s, jobs, gone)
    requires Steady(s, jobs, l) && root < |jobs| && Contributes(s.world, jobs, send, parts)
    ensures r.Settled? ==> Follows(s, jobs, r, lost) && Excused(s.world, r.s.world, multi, missed)
    ensures r.Settled? && Fair(multi || missed, r.jobs, r.s.live) ==>
      TrialPromise(jobs0, s.world, root, Fold(op, parts), r)
    ensures r.Stuck? ==> GivesUp(s, jobs, r)
    ensures Outlive(s.live, env, t, r.t, r.s.live)
    ensures Reliable(test) ==> !missed
  {
    StillAtMostTwo(jobs0, gone);
    var mid, first := MainPhase(s, jobs, root, op, send, parts, l, (n: nat) => junk(n, 0), env, t);
    if mid.Stuck? || mid.v != MINUS_ONE {
      r, lost, multi, missed := mid, first, false, false;
      if r.Settled? {
        TrialWithoutResult(s0, jobs0, s, jobs, gone, root, Fold(op, parts), r, lost);
      }
      return;
    }
    StillAtMostTwo(jobs, first);
    var more;
    r, more, multi, missed := JobRounds(mid.s, mid.jobs, root, Fold(op, parts), mid.l, junk, test, env, mid.t);
    lost := first + more;
    OneMorePhase(s, jobs, mid, first, r, more);
    OutliveMore(s.live, env, t, mid.t, mid.s.live, r.t, r.s.live);
    AllRaised(s, jobs, mid, first);
    if r.Settled? && !multi && !missed {
      TrialWithRounds(s0, jobs0, s, jobs, gone, root, Fold(op, parts), mid, first, r, more);
    }
  }

  /** Every trial but a successful last one has cost a first head; after success the root job has the result. */
  ghost predicate Progress<V>(jobs0: seq<seq<Pid>>, s: State, jobs: seq<seq<Pid>>, root: nat, result: V, l: Locals<V>,
                              done: bool, trials: nat, spoilt: bool)
  {
    Fair(spoilt, jobs, s.live) ==>
      && trials <= |LostHeads(jobs0, s.world)| + (if done then 1 else 0)
      && (done ==> root < |jobs| && HasResult(jobs[root], s.live, l, result))
  }

  lemma OneMoreTrial<V>(s0: State, jobs0: seq<seq<Pid>>, s: State, jobs: seq<seq<Pid>>, gone: set<Pid>, root: nat,
                        result: V,
                        l: Locals<V>, trials: nat, spoilt: bool, r: Phase<V>, lost: set<Pid>, again: bool)
    requires Inv(s0, jobs0) && AtMostTwo(jobs0) && Reached(s0, jobs0, s, jobs, gone)
    requires Progress(jobs0, s, jobs, root, result, l, false, trials, spoilt)
    requires r.Settled? && Follows(s, jobs, r, lost)
    requires Fair(again, r.jobs, r.s.live) ==> TrialPromise(jobs0, s.world, root, result, r)
    ensures Progress(jobs0, r.s, r.jobs, root, result, r.l, r.v == MINUS_ONE, trials + 1, spoilt || again)
    ensures Reached(s0, jobs0, r.s, r.jobs, gone + lost)
  {
    ReachedTrans(s0, jobs0, s, jobs, gone, r.s, r.jobs, lost);
    OneMoreFirstHead(s0, jobs0, s, jobs, gone, r.s, r.jobs, lost);
    if Fair(spoilt || again, r.jobs, r.s.live) {
      AliveBefore(jobs, lost, s.live, r.s.live);
    }
  }

  lemma ProgressAtTheEnd<V>(s0: State, jobs0: seq<seq<Pid>>, s: State, jobs: seq<seq<Pid>>, gone: set<Pid>, root: nat,
                            result: V,
                            l: Locals<V>, done: bool, trials: nat, spoilt: bool)
    requires Reached(s0, jobs0, s, jobs, gone) && root < |jobs0|
    requires Progress(jobs0, s, jobs, root, result, l, done, trials, spoilt)
    ensures Fair(spoilt, jobs0, s.live) ==> trials <= |LostHeads(jobs0, s.world)| + (if done then 1 else 0)
    ensures Fair(spoilt, jobs0, s.live) && done ==> HasResult(jobs0[root], s.live, l, result)
  {
    if Fair(spoilt, jobs0, s.live) {
      AliveAfter(jobs0, gone, s.live);
      assert forall p :: p in jobs0[root] && p in s.live ==> p in jobs[root];
    }
  }

  /** The invariant of the outer loop. */
  ghost predicate Underway<V>(s0: State, jobs0: seq<seq<Pid>>, s: State, jobs: seq<seq<Pid>>, gone: set<Pid>, root: nat,
                              send: map<Pid, V>, parts: seq<V>, result: V, l: Locals<V>,
                              done: bool, trials: nat, spoilt: bool)
  {
    && Reached(s0, jobs0, s, jobs, gone) && Steady(s, jobs, l)
    && Contributes(s.world, jobs, send, parts)
    && Progress(jobs0, s, jobs, root, result, l, done, trials, spoilt)
  }

  lemma BeforeTheTrials<V>(s0: State, jobs0: seq<seq<Pid>>, root: nat, send: map<Pid, V>, parts: seq<V>, result: V,
                           flags0: map<Pid, bv32>, l: Locals<V>)
    requires Inv(s0, jobs0) && Small(s0.world) && s0.live != {} && Contributes(s0.world, jobs0, send, parts)
    requires (forall p :: p in s0.world ==> p in flags0) && Filled(s0.world, l) && forall p :: p in l.ok ==> l.ok[p]
    ensures Underway(s0, jobs0, s0, jobs0, {}, root, send, parts, result, l, false, 0, false)
  {
    LoopStarts(s0, jobs0, flags0, MINUS_ONE);
  }

  lemma AnotherTrial<V>(s0: State, jobs0: seq<seq<Pid>>, s: State, jobs: seq<seq<Pid>>, gone: set<Pid>, root: nat,
                        send: map<Pid, V>, parts: seq<V>, result: V, l: Locals<V>, trials: nat, spoilt: bool,
                        r: Phase<V>, lost: set<Pid>, again: bool)
    requires Inv(s0, jobs0) && AtMostTwo(jobs0)
    requires Underway(s0, jobs0, s, jobs, gone, root, send, parts, result, l, false, trials, spoilt)
    requires r.Settled? && Follows(s, jobs, r, lost)
    requires Fair(again, r.jobs, r.s.live) ==> TrialPromise(jobs0, s.world, root, result, r)
    ensures Underway(s0, jobs0, r.s, r.jobs, gone + lost, root, send, parts, result, r.l,
                     r.v == MINUS_ONE, trials + 1, spoilt || again)
  {
    OneMoreTrial(s0, jobs0, s, jobs, gone, root, result, l, trials, spoilt, r, lost, again);
    FewerContribute(s.world, jobs, send, parts, lost);
  }

  /** One round of the outer do-while, seen from the start of the run. */
  method OuterRound<V>(ghost s0: State, ghost jobs0: seq<seq<Pid>>, s: State, jobs: seq<seq<Pid>>, ghost gone: set<Pid>,
                       root: nat, op: (V, V) -> V, send: map<Pid, V>, ghost parts: seq<V>, l: Locals<V>,
                       ghost trials: nat, ghost spoilt: bool,
                       junk: (nat, Pid) -> V, test: HeadTest, env: Schedule, t: nat)
    returns (r: Phase<V>, ghost lost: set<Pid>, multi: bool, missed: bool)
    requires Inv(s0, jobs0) && AtMostTwo(jobs0) && root < |jobs0| == |parts|
    requires Underway(s0, jobs0, s, jobs, gone, root, send, parts, Fold(op, parts), l, false, trials, spoilt)
    requires Outlive(s0.live, env, 0, t, s.live)
    ensures r.Settled? ==>
      && Underway(s0, jobs0, r.s, r.jobs, gone + lost, root, send, parts, Fold(op, parts), r.l,
                  r.v == MINUS_ONE, trials + 1, spoilt || multi || missed)
      && Excused(s.world, r.s.world, multi, missed)
    ensures r.Stuck? ==> GivesUp(s0, jobs0, r)
    ensures Outlive(s0.live, env, 0, r.t, r.s.live)
    ensures Reliable(test) ==> !missed
  {
    r, lost, multi, missed := ReduceTrial(s0, jobs0, s, jobs, gone, root, op, send, parts, l, junk, test, env, t);
    OutliveMore(s0.live, env, 0, t, s.live, r.t, r.s.live);
    if r.Settled? {
      AnotherTrial(s0, jobs0, s, jobs, gone, root, send, parts, Fold(op, parts), l, trials, spoilt, r, lost,
                   multi || missed);
    } else if r.ending == Aborted {
      LostFromTheStart(jobs0, jobs, gone, r.s.live);
    }
  }

  /**
   * MPI_Reduce at all processes at once. Flags and receive buffers start with anything. The claims are for at most two
   * workers per job with equal send buffers, and for runs in which no agreement needed a second repair (`multi`) and
   * the test for a lost head never said no when there was one (`missed`).
   */
  method Run<V>(s0: State, jobs0: seq<seq<Pid>>, root: nat, op: (V, V) -> V, send: map<Pid, V>, ghost parts: seq<V>,
                flags0: map<Pid, bv32>, recv0: map<Pid, V>, junk: (nat, Pid) -> V, test: HeadTest, env: Schedule)
    returns (result: Result, s: State, jobs: seq<seq<Pid>>, l: Locals<V>, trials: nat, multi: bool, missed: bool,
             ghost gone: set<Pid>, t: nat)
    requires Inv(s0, jobs0) && Small(s0.world) && s0.live != {} && root < |jobs0| && AtMostTwo(jobs0)
    requires Contributes(s0.world, jobs0, send, parts)
    requires forall p :: p in s0.world ==> p in flags0 && p in recv0
    ensures result == Done || result == OutOfTrials ==> Reached(s0, jobs0, s, jobs, gone)
    ensures result == Done && Fair(multi || missed, jobs0, s.live) ==>
      HasResult(jobs0[root], s.live, l, Fold(op, parts))
    ensures result == Done && Fair(multi || missed, jobs0, s.live) ==> trials <= 1 + |LostHeads(jobs0, s.world)|
    ensures result == OutOfTrials && Fair(multi || missed, jobs0, s.live) ==> |LostHeads(jobs0, s.world)| > 8
    ensures result == Done ==> trials < 10
    ensures result == OutOfTrials ==> trials == 10
    ensures result == JobLost ==> !JobsAlive(jobs0, s.live)
    ensures result == AllDead <==> s.live == {}
    ensures Outlive(s0.live, env, 0, t, s.live)
    ensures Reliable(test) ==> !missed
    ensures result == Done || result == OutOfTrials ==> Excused(s0.world, s.world, multi, missed)
  {
    s, jobs, trials, multi, missed, gone, t := s0, jobs0, 0, false, false, {}, 0;
    l := Locals(flags0, map p | p in s0.world :: true, recv0);
    var v: bv32 := 0;
    BeforeTheTrials(s0, jobs0, root, send, parts, Fold(op, parts), flags0, l);
    OutliveNothing(s0.live, env, 0);
    while v != MINUS_ONE
      invariant Underway(s0, jobs0, s, jobs, gone, root, send, parts, Fold(op, parts), l, v == MINUS_ONE, trials,
                         multi || missed)
      invariant Outlive(s0.live, env, 0, t, s.live)
      invariant (Reliable(test) ==> !missed) && Excused(s0.world, s.world, multi, missed)
      invariant trials < NO_TRIALS
      decreases NO_TRIALS - trials
    {
      if trials + 1 >= NO_TRIALS {
        ProgressAtTheEnd(s0, jobs0, s, jobs, gone, root, Fold(op, parts), l, false, trials, multi || missed);
        result, trials := OutOfTrials, trials + 1;
        return;
      }
      var r, lost, again, blind :=
          OuterRound(s0, jobs0, s, jobs, gone, root, op, send, parts, l, trials, multi || missed,
                                              junk, test, env, t);
      if r.Stuck? {
        result, s, t := ResultOf(r.ending), r.s, r.t;
        return;
      }
      s, jobs, l, v, t := r.s, r.jobs, r.l, r.v, r.t;
      gone, trials, multi, missed := gone + lost, trials + 1, multi || again, missed || blind;
    }
    ProgressAtTheEnd(s0, jobs0, s, jobs, gone, root, Fold(op, parts), l, true, trials, multi || missed);
    result := Done;
  }

  /** MPI_Reduce with MPI_SUM: every live worker of the root job is left with the sum over the jobs. */
  method RunSum(s0: State, jobs0: seq<seq<Pid>>, root: nat, send: map<Pid, int>, ghost parts: seq<int>,
                flags0: map<Pid, bv32>, recv0: map<Pid, int>, junk: (nat, Pid) -> int, test: HeadTest, env: Schedule)
    returns (result: Result, s: State, l: Locals<int>, trials: nat, multi: bool, missed: bool, t: nat)
    requires Inv(s0, jobs0) && Small(s0.world) && s0.live != {} && root < |jobs0| && AtMostTwo(jobs0)
    requires Contributes(s0.world, jobs0, send, parts)
    requires forall p :: p in s0.world ==> p in flags0 && p in recv0
    ensures result == Done && Fair(multi || missed, jobs0, s.live) ==>
      forall p :: p in jobs0[root] && p in s.live ==> p in l.recv && l.recv[p] == Sum(parts)
    ensures result == OutOfTrials && Fair(multi || missed, jobs0, s.live) ==> |LostHeads(jobs0, s.world)| > 8
    ensures result == JobLost ==> !JobsAlive(jobs0, s.live)
    ensures result == AllDead <==> s.live == {}
    ensures Outlive(s0.live, env, 0, t, s.live)
    ensures Reliable(test) ==> !missed
    ensures result == Done || result == OutOfTrials ==> Excused(s0.world, s.world, multi, missed)
  {
    var op := (a: int, b: int) => a + b;
    var jobs;
    ghost var gone;
    result, s, jobs, l, trials, multi, missed, gone, t :=
      Run(s0, jobs0, root, op, send, parts, flags0, recv0, junk, test, env);
    SumOfFold(op, parts);
  }
}
