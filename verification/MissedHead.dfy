/** MPI_Reduce of src/mpi/init.c with the test for a lost head as src/mpi/ulfm.c has it: when the test is wrong. */
module MissedHead {
  import opened Mpi
  import opened NodeState
  import opened Repair
  import opened Recovery
  import opened Heads
  import opened Communicators
  import opened Agreement
  import opened Bcast
  import opened Reduce

  /** All processes of the world live, and the root job has two workers. */
  ghost predicate Complete(s: State, jobs: seq<seq<Pid>>, root: nat, d: Pid, q: Pid) {
    && Inv(s, jobs) && Small(s.world) && (forall p :: p in s.world ==> p in s.live)
    && root < |jobs| && jobs[root] == [d, q]
  }

  lemma OnlySecondLeft(d: Pid, q: Pid)
    requires d != q
    ensures Shrink([d, q], {d}) == [q]
  {
    ShrinkByOne([d, q], 0);
    assert [d, q][..0] + [d, q][1..] == [q];
  }

  lemma JobsWithoutHead(s: State, jobs: seq<seq<Pid>>, root: nat, d: Pid, q: Pid)
    requires Complete(s, jobs, root, d, q)
    ensures d in s.world && q in s.world && d != q
    ensures [] !in ShrinkAll(jobs, {d}) && ShrinkAll(jobs, {d})[root] == [q]
  {
    assert d in jobs[root] && q in jobs[root] && jobs[root][0] != jobs[root][1];
    OnlySecondLeft(d, q);
    forall j | 0 <= j < |jobs| ensures Shrink(jobs[j], {d}) != [] {
      assert jobs[j][0] in jobs[j];
      if jobs[j][0] == d {
        assert JobOf(jobs, d) == j == root;
      } else {
        HeadStays(jobs[j], {d});
      }
    }
  }

  /** d has died, and no job with it. */
  ghost predicate CanLose(s: State, d: Pid) {
    CanRecover(s.(live := s.live - {d}), {d}) && !JobIsLost(s.(live := s.live - {d}), {d})
  }

  /** The machine after the repair that takes d out. */
  ghost function Without(s: State, d: Pid): State
    requires CanLose(s, d)
  {
    RecoverAll(s.(live := s.live - {d}), {d})
  }

  /** The repair after the death of d makes q the head of the root job. */
  lemma SecondLeads(s: State, jobs: seq<seq<Pid>>, root: nat, d: Pid, q: Pid)
    requires Complete(s, jobs, root, d, q)
    ensures d in s.world && q in s.world && d != q && CanLose(s, d)
    ensures Without(s, d).world == Shrink(s.world, {d}) && Without(s, d).live == s.live - {d}
    ensures Inv(Without(s, d), ShrinkAll(jobs, {d})) && ShrinkAll(jobs, {d})[root] == [q]
    ensures q in Without(s, d).world && Without(s, d).nodes[q].master && !s.nodes[q].master
  {
    var now := s.(live := s.live - {d});
    JobsWithoutHead(s, jobs, root, d, q);
    assert q in now.live;
    FewerAlive(s, jobs, now.live);
    InvCanRecover(now, jobs, {d});
    RecoverAllKeepsInv(now, jobs, {d});
    var t := RecoverAll(now, {d});
    assert q in jobs[root] && q in ShrinkAll(jobs, {d})[root];
    OneHeadPerJob(s, jobs, root, q);
    OneHeadPerJob(t, ShrinkAll(jobs, {d}), root, q);
  }

  /** The flags after the agreement that failed because of d, and the repair. */
  ghost function FlagsThen(s: State, d: Pid, flags: map<Pid, bv32>, f: Fault): map<Pid, bv32>
    requires Small(s.world) && forall p :: p in s.world ==> p in flags && p in s.nodes
    requires CanLose(s, d)
  {
    FlagsAfterRound(s.(live := s.live - {d}), Without(s, d), flags, MasterFlags(s), f, true)
  }

  /**
   * What is_failed_node_world_job_comm_root answers to a process with these tables after d was taken out of the world.
   */
  ghost predicate CodeSaysYes(n: Node, world: seq<Pid>, d: Pid) {
    RootAnswer(n.lists, TranslateRanks([d], world))
  }

  /** The process one rank behind d is a head. */
  ghost predicate HeadBehind(world: seq<Pid>, jobs: seq<seq<Pid>>, d: Pid)
    requires d in world
  {
    RankOf(world, d) + 1 < |world| && IsHead(jobs, world[RankOf(world, d) + 1])
  }

  lemma AnswerOf(t: State, after: seq<seq<Pid>>, world: seq<Pid>, jobs: seq<seq<Pid>>, d: Pid, p: Pid)
    requires Distinct(world) && d in world && t.world == Shrink(world, {d}) && after == ShrinkAll(jobs, {d})
    requires Inv(t, after) && p in t.world
    ensures CodeSaysYes(t.nodes[p], world, d) <==> HeadBehind(world, after, d)
  {
    assert Knows(t.nodes[p], p, t, after);
    RootTestForOneFailure(t.nodes[p].lists, world, jobs, d);
  }

  /** The code's answer, at any survivor p: it looks at the process one rank behind d. */
  lemma AnswerAt(s: State, jobs: seq<seq<Pid>>, root: nat, d: Pid, q: Pid, p: Pid)
    requires Complete(s, jobs, root, d, q) && p in s.world && p != d
    ensures HeadDied(jobs, {d}) && d in s.world
    ensures CanLose(s, d) && p in Without(s, d).nodes
    ensures CodeSaysYes(Without(s, d).nodes[p], s.world, d) <==> HeadBehind(s.world, ShrinkAll(jobs, {d}), d)
  {
    SecondLeads(s, jobs, root, d, q);
    assert jobs[root][0] in {d};
    AnswerOf(Without(s, d), ShrinkAll(jobs, {d}), s.world, jobs, d, p);
  }

  /** The broadcast that follows a "no" succeeds at everybody, and q is its root: q keeps what is in its buffer. */
  lemma BroadcastOfNothing<V>(t: State, jobs: seq<seq<Pid>>, root: nat, q: Pid, f: Fault, junk: Pid -> V, l: Locals<V>)
    requires Inv(t, jobs) && root < |jobs| && jobs[root] == [q] && Filled(t.world, l)
    requires forall p :: p in t.world ==> p in t.live
    ensures WorldJobComm(t, root) != [] && WorldJobComm(t, root)[0] == q && q in l.recv
    ensures var m := AfterJobBcast(WorldJobComm(t, root), t.world, t.live, f, junk, l);
            && q in m.recv && m.recv[q] == l.recv[q]
            && AndOver(t.world, t.live, FlagsSet(t.world, m.flags, m.ok)) == MINUS_ONE
  {
    var comm := WorldJobComm(t, root);
    WorldJobCommIsCommOf(t, jobs, root);
    assert q in jobs[root] && q in t.world;
    assert Intact(comm, t.live);
    var m := AfterJobBcast(comm, t.world, t.live, f, junk, l);
    AndIsMinusOne(t.world, t.live, FlagsSet(t.world, m.flags, m.ok));
  }

  /**
   * The head d of the root job dies in the broadcast of the result. The agreement after it is not -1, so the inner loop
   * asks whether a head was lost. The code says yes exactly when the process one rank behind d is a head; when it says
   * no the broadcast is repeated with q at its root, everybody agrees on -1 and leaves, and q is left with what the
   * failed broadcast had put into its buffer.
   */
  lemma ResultIsLost<V>(s: State, jobs: seq<seq<Pid>>, root: nat, d: Pid, q: Pid, l: Locals<V>,
                        f: Fault, g: Fault, h: Fault, junk: Pid -> V, later: Pid -> V)
    returns (m: Locals<V>, t: State, flags: map<Pid, bv32>, v: bv32, n: Locals<V>)
    requires Complete(s, jobs, root, d, q) && Filled(s.world, l) && AllFlags(s.live, l)
    // the broadcast in which d dies, the repair, and the first agreement
    ensures WorldJobComm(s, root) != [] && WorldJobComm(s, root)[0] in l.recv
    ensures m == AfterJobBcast(WorldJobComm(s, root), s.world, s.live - {d}, f, junk, l)
    ensures CanLose(s, d) && t == Without(s, d) && q in t.live
    ensures flags == FlagsThen(s, d, FlagsSet(s.world, m.flags, m.ok), g)
    ensures Filled(t.world, m) && forall p :: p in t.world ==> p in flags
    ensures v == AndOver(t.world, t.live, flags) && v != MINUS_ONE
    // the broadcast that follows when the answer is no, and its agreement
    ensures WorldJobComm(t, root) != [] && WorldJobComm(t, root)[0] == q && q in m.recv
    ensures n == AfterJobBcast(WorldJobComm(t, root), t.world, t.live, h, later, AfterAgreement(t.world, m, v))
    ensures AndOver(t.world, t.live, FlagsSet(t.world, n.flags, n.ok)) == MINUS_ONE
    ensures q in n.recv && n.recv[q] == junk(q)
  {
    WorldJobCommIsCommOf(s, jobs, root);
    SecondLeads(s, jobs, root, d, q);
    var comm := WorldJobComm(s, root);
    assert d in jobs[root] && q in jobs[root] && !Intact(comm, s.live - {d});
    m, t := AfterJobBcast(comm, s.world, s.live - {d}, f, junk, l), Without(s, d);
    assert m.recv[q] == junk(q);
    PromotionIsNoticed(t, AfterFailedAgree(s.(live := s.live - {d}), FlagsSet(s.world, m.flags, m.ok), g),
                       MasterFlags(s), t.live, q);
    flags := FlagsThen(s, d, FlagsSet(s.world, m.flags, m.ok), g);
    v := AndOver(t.world, t.live, flags);
    BroadcastOfNothing(t, ShrinkAll(jobs, {d}), root, q, h, later, AfterAgreement(t.world, m, v));
    n := AfterJobBcast(WorldJobComm(t, root), t.world, t.live, h, later, AfterAgreement(t.world, m, v));
  }
}
