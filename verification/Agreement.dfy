/** MPI_Comm_agree in a loop, as every collective of src/mpi/init.c runs it: repair the world until the flags agree. */
module Agreement {
  import opened Mpi
  import opened NodeState
  import opened Ulfm
  import opened Repair
  import opened Recovery

  // What goes wrong during one MPI call: who dies, which of them die before their part in the call is done, which
  // members of a failing collective see the failure, who takes part in a failing agreement (whoever has a shrink
  // pending does not), and whose flag it combines all the same.
  datatype Fault = Fault(die: set<Pid>, early: set<Pid>, fail: set<Pid>, joined: set<Pid>, combined: set<Pid>)

  // The faults of a whole run, one for each MPI call. All claims hold for every such function.
  type Schedule = nat -> Fault

  // the flag value -1
  const MINUS_ONE: bv32 := 0xFFFF_FFFF

  datatype Ending = Finished | Aborted | NobodyLeft

  /** Who dies in the calls that start at the times from, .., to - 1. */
  ghost function Died(env: Schedule, from: nat, to: nat): set<Pid> {
    if to <= from then {} else Died(env, from, to - 1) + env(to - 1).die
  }

  lemma {:induction false} DiedTwice(env: Schedule, from: nat, mid: nat, to: nat)
    requires from <= mid <= to
    ensures Died(env, from, to) == Died(env, from, mid) + Died(env, mid, to)
  {
    if mid < to {
      DiedTwice(env, from, mid, to - 1);
    }
  }

  /** Of those alive at the time `from`, exactly `after` outlive the calls before the time `to`. */
  ghost predicate Outlive(before: set<Pid>, env: Schedule, from: nat, to: nat, after: set<Pid>) {
    from <= to && after == before - Died(env, from, to)
  }

  lemma OutliveNothing(before: set<Pid>, env: Schedule, t: nat)
    ensures Outlive(before, env, t, t, before)
  {
  }

  lemma OutliveOne(before: set<Pid>, env: Schedule, t: nat)
    ensures Outlive(before, env, t, t + 1, before - env(t).die)
  {
    assert Died(env, t, t) == {};
  }

  lemma OutliveNext(before: set<Pid>, env: Schedule, from: nat, t: nat, now: set<Pid>)
    requires Outlive(before, env, from, t, now)
    ensures Outlive(before, env, from, t + 1, now - env(t).die)
  {
  }

  lemma OutliveMore(before: set<Pid>, env: Schedule, from: nat, mid: nat, between: set<Pid>, to: nat, after: set<Pid>)
    requires Outlive(before, env, from, mid, between) && Outlive(between, env, mid, to, after)
    ensures Outlive(before, env, from, to, after)
  {
    DiedTwice(env, from, mid, to);
  }

  // ---------------------------------------------------------------------------------------------
  // The agreed value
  // ---------------------------------------------------------------------------------------------

  /** The bitwise AND of what the contributors pass. */
  function AndOver(world: seq<Pid>, contributors: set<Pid>, flags: map<Pid, bv32>): bv32
    requires forall p :: p in world ==> p in flags
  {
    if world == [] then MINUS_ONE
    else
      var rest := AndOver(world[1..], contributors, flags);
      if world[0] in contributors then flags[world[0]] & rest else rest
  }

  lemma AndOfTwo(a: bv32, b: bv32)
    ensures a & b == MINUS_ONE <==> a == MINUS_ONE && b == MINUS_ONE
  {
  }

  lemma AndOfBits(a: bv32, b: bv32)
    requires a == 0 || a == 1
    ensures b == 0 || b == 1 || b == MINUS_ONE ==> a & b == if a == 0 || b == 0 then 0 else 1
  {
  }

  /** The flags a loop works with: any value when success is -1, otherwise only 0 and 1. */
  ghost predicate FlagsFor(good: bv32, flags: map<Pid, bv32>) {
    good == MINUS_ONE || (good == 1 && forall p :: p in flags ==> flags[p] == 0 || flags[p] == 1)
  }

  ghost predicate AllPassed(world: seq<Pid>, contributors: set<Pid>, flags: map<Pid, bv32>, good: bv32) {
    forall p :: p in world && p in contributors ==> p in flags && flags[p] == good
  }

  ghost predicate Nobody(world: seq<Pid>, contributors: set<Pid>) {
    forall p :: p in world ==> p !in contributors
  }

  lemma {:induction false} AndIsMinusOne(world: seq<Pid>, contributors: set<Pid>, flags: map<Pid, bv32>)
    requires forall p :: p in world ==> p in flags
    ensures AndOver(world, contributors, flags) == MINUS_ONE <==> AllPassed(world, contributors, flags, MINUS_ONE)
  {
    if world != [] {
      var rest := world[1..];
      assert world == [world[0]] + rest;
      AndIsMinusOne(rest, contributors, flags);
      AndOfTwo(flags[world[0]], AndOver(rest, contributors, flags));
    }
  }

  lemma {:induction false} AndIsOne(world: seq<Pid>, contributors: set<Pid>, flags: map<Pid, bv32>)
    requires (forall p :: p in world ==> p in flags) && FlagsFor(1, flags)
    ensures AndOver(world, contributors, flags) ==
            if Nobody(world, contributors) then MINUS_ONE else if AllPassed(world, contributors, flags, 1) then 1 else 0
  {
    if world != [] {
      var rest := world[1..];
      assert world == [world[0]] + rest;
      AndIsOne(rest, contributors, flags);
      AndOfBits(flags[world[0]], AndOver(rest, contributors, flags));
    }
  }

  /** The agreed value means success exactly when every contributor passed success. */
  lemma AndIsGood(world: seq<Pid>, contributors: set<Pid>, flags: map<Pid, bv32>, good: bv32)
    requires (forall p :: p in world ==> p in flags) && FlagsFor(good, flags)
    requires !Nobody(world, contributors)
    ensures AndOver(world, contributors, flags) == good <==> AllPassed(world, contributors, flags, good)
    ensures good == 1 ==> AndOver(world, contributors, flags) == 0 || AndOver(world, contributors, flags) == 1
  {
    if good == MINUS_ONE {
      AndIsMinusOne(world, contributors, flags);
    } else {
      AndIsOne(world, contributors, flags);
    }
  }

  // ---------------------------------------------------------------------------------------------
  // One recovery of everybody
  // ---------------------------------------------------------------------------------------------

  ghost predicate CanRecover(s: State, dead: set<Pid>) {
    && (forall p :: p in Shrink(s.world, dead) ==> p in s.nodes && WellFormed(s.nodes[p], |s.world|))
    && Translation(Translated(s.world, dead), |s.world|)
  }

  /** Does update_job_list call PMPI_Abort somewhere? */
  predicate JobIsLost(s: State, dead: set<Pid>)
    requires CanRecover(s, dead)
  {
    exists p :: p in Shrink(s.world, dead) && Repaired(s.nodes[p], Translated(s.world, dead)).None?
  }

  /** The shrink branch of rep_errhandler, run by all processes that are not excluded. */
  function RecoverAll(s: State, dead: set<Pid>): State
    requires CanRecover(s, dead) && !JobIsLost(s, dead)
  {
    State(Shrink(s.world, dead), s.live,
          map p | p in Shrink(s.world, dead) :: Repaired(s.nodes[p], Translated(s.world, dead)).value)
  }

  lemma InvCanRecover(s: State, jobs: seq<seq<Pid>>, dead: set<Pid>)
    requires Inv(s, jobs) && dead !! s.live && s.live != {}
    ensures CanRecover(s, dead)
    ensures JobIsLost(s, dead) <==> [] in ShrinkAll(jobs, dead)
  {
    forall p | p in Shrink(s.world, dead)
      ensures p in s.nodes && WellFormed(s.nodes[p], |s.world|) && Translation(Translated(s.world, dead), |s.world|)
      ensures Repaired(s.nodes[p], Translated(s.world, dead)).None? <==> [] in ShrinkAll(jobs, dead)
    {
      RepairedKnows(s.nodes[p], p, s, jobs, dead);
    }
    var q :| q in s.live;
    assert q in Shrink(s.world, dead);
  }

  lemma RecoverAllMoves(s: State, dead: set<Pid>)
    requires dead !! s.live && CanRecover(s, dead) && !JobIsLost(s, dead)
    ensures Moves(s, Recover(dead), RecoverAll(s, dead))
  {
    var t := RecoverAll(s, dead);
    forall p | p in t.world
      ensures p in s.nodes && p in t.nodes && WellFormed(s.nodes[p], |s.world|)
      ensures Repaired(s.nodes[p], Translated(s.world, dead)) == Some(t.nodes[p])
    {
      assert p in Shrink(s.world, dead);
      var r := Repaired(s.nodes[p], Translated(s.world, dead));
      assert r.Some?;
    }
  }

  lemma RecoverAllKeepsInv(s: State, jobs: seq<seq<Pid>>, dead: set<Pid>)
    requires Inv(s, jobs) && dead !! s.live && s.live != {}
    requires CanRecover(s, dead) && !JobIsLost(s, dead)
    ensures Inv(RecoverAll(s, dead), ShrinkAll(jobs, dead))
  {
    var t := RecoverAll(s, dead);
    var q :| q in s.live;
    assert q in t.world;
    RecoverAllMoves(s, dead);
    RecoverKeepsInv(s, Recover(dead), t, jobs);
  }

  // ---------------------------------------------------------------------------------------------
  // Heads
  // ---------------------------------------------------------------------------------------------

  ghost predicate SameHeads(a: seq<seq<Pid>>, b: seq<seq<Pid>>) {
    |a| == |b| && forall j :: 0 <= j < |a| ==> a[j] != [] && b[j] != [] && a[j][0] == b[j][0]
  }

  lemma HeadStays(list: seq<Pid>, dead: set<Pid>)
    requires list != [] && list[0] !in dead
    ensures Shrink(list, dead) != [] && Shrink(list, dead)[0] == list[0]
  {
    assert list == [list[0]] + list[1..];
    ShrinkOfConcat([list[0]], list[1..], dead);
    assert Shrink([list[0]], dead) == [list[0]] by {
      assert [list[0]][..0] == [];
    }
  }

  lemma ShrinkAllTwice(jobs: seq<seq<Pid>>, a: set<Pid>, b: set<Pid>)
    ensures ShrinkAll(ShrinkAll(jobs, a), b) == ShrinkAll(jobs, a + b)
  {
    forall j | 0 <= j < |jobs| ensures Shrink(Shrink(jobs[j], a), b) == Shrink(jobs[j], a + b) {
      ShrinkTwice(jobs[j], a, b);
    }
  }

  /** If two repairs in a row leave the heads where they were, so did the first one. */
  lemma HeadsBetween(jobs: seq<seq<Pid>>, a: set<Pid>, b: set<Pid>)
    requires SameHeads(jobs, ShrinkAll(ShrinkAll(jobs, a), b))
    ensures SameHeads(jobs, ShrinkAll(jobs, a)) && SameHeads(ShrinkAll(jobs, a), ShrinkAll(ShrinkAll(jobs, a), b))
  {
    forall j | 0 <= j < |jobs| ensures Shrink(jobs[j], a) != [] && Shrink(jobs[j], a)[0] == jobs[j][0] {
      var last := ShrinkAll(ShrinkAll(jobs, a), b)[j];
      assert last[0] in last && last[0] in Shrink(jobs[j], a);
      HeadStays(jobs[j], a);
    }
  }

  // ---------------------------------------------------------------------------------------------
  // The loop
  // ---------------------------------------------------------------------------------------------

  /** The processes of the world that are dead when the agreement starts: a failure nobody has handled yet. */
  function Unhandled(s: State): set<Pid> {
    set p | p in s.world && p !in s.live
  }

  /** Everybody's flag after an agreement that failed: left alone, or combined over the living who took part. */
  function AfterFailedAgree(s: State, flags: map<Pid, bv32>, f: Fault): map<Pid, bv32>
    requires forall p :: p in s.world ==> p in flags
  {
    map p | p in s.world ::
      if p in s.live * f.joined && p in f.combined then AndOver(s.world, s.live * f.joined, flags) else flags[p]
  }

  /** The body of DO_COMM_AGREE: a process that was made head by the repair puts its own number in its flag. */
  function MarkPromoted(s: State, flags: map<Pid, bv32>, backup: map<Pid, bool>): map<Pid, bv32>
    requires forall p :: p in s.world ==> p in flags && p in backup && p in s.nodes && p < 0x8000_0000
  {
    map p | p in s.world :: if backup[p] != s.nodes[p].master then p as bv32 else flags[p]
  }

  lemma NumberIsNotMinusOne(p: Pid)
    requires p < 0x8000_0000
    ensures (p as bv32) != MINUS_ONE
  {
  }

  /** A process that was promoted and takes part keeps the agreed value from being -1. */
  lemma PromotionIsNoticed(s: State, flags: map<Pid, bv32>, backup: map<Pid, bool>, contributors: set<Pid>, p: Pid)
    requires forall q :: q in s.world ==> q in flags && q in backup && q in s.nodes && q < 0x8000_0000
    requires p in s.world && p in contributors && backup[p] != s.nodes[p].master
    ensures AndOver(s.world, contributors, MarkPromoted(s, flags, backup)) != MINUS_ONE
  {
    var marked := MarkPromoted(s, flags, backup);
    AndIsMinusOne(s.world, contributors, marked);
    NumberIsNotMinusOne(p);
    assert marked[p] == p as bv32;
  }

  function MasterFlags(s: State): map<Pid, bool>
    requires forall p :: p in s.world ==> p in s.nodes
  {
    map p | p in s.world :: s.nodes[p].master
  }

  /** What is known of the machine s, reached from s0 while agreeing: `gone` were taken out of the world. */
  ghost predicate Reached(s0: State, jobs0: seq<seq<Pid>>, s: State, jobs: seq<seq<Pid>>, gone: set<Pid>) {
    && Inv(s, jobs)
    && jobs == ShrinkAll(jobs0, gone)
    && s.world == Shrink(s0.world, gone)
    && gone !! s.live && s.live <= s0.live
  }

  /** A flag that still says success was raised on entry, by a process that was not promoted since. */
  ghost predicate Honest(s0: State, flags0: map<Pid, bv32>, s: State, flags: map<Pid, bv32>, good: bv32) {
    forall p :: p in s.live && p in flags && flags[p] == good ==>
      && p in flags0 && flags0[p] == good
      && (good == MINUS_ONE && p in s.nodes && p in s0.nodes && s.nodes[p].master ==> s0.nodes[p].master)
  }

  /** Unless a head was lost, success of everybody stays success of everybody. */
  ghost predicate Lasting(s0: State, jobs0: seq<seq<Pid>>, flags0: map<Pid, bv32>, s: State, jobs: seq<seq<Pid>>,
                          flags: map<Pid, bv32>, good: bv32) {
    (forall p :: p in s0.live ==> p in flags0 && flags0[p] == good)
    && (good == MINUS_ONE ==> SameHeads(jobs0, jobs)) ==>
      forall p :: p in s.live ==> p in flags && flags[p] == good
  }

  ghost predicate Small(world: seq<Pid>) {
    forall p :: p in world ==> p < 0x8000_0000
  }

  /** A failing agreement does not make a success out of a failure, nor the other way round. */
  lemma FailedAgreeIsHarmless(s: State, flags: map<Pid, bv32>, f: Fault, good: bv32)
    requires (forall p :: p in s.world ==> p in flags) && FlagsFor(good, flags)
    requires s.live != {} && forall p :: p in s.live ==> p in s.world
    ensures var after := AfterFailedAgree(s, flags, f);
            && (forall p :: p in s.world ==> p in after) && FlagsFor(good, after)
            && (forall p :: p in s.live && after[p] == good ==> flags[p] == good)
            && ((forall p :: p in s.live ==> flags[p] == good) ==> forall p :: p in s.live ==> after[p] == good)
  {
    var partners := s.live * f.joined;
    if q :| q in partners {
      assert q in s.world;
      AndIsGood(s.world, partners, flags, good);
    }
  }

  /** The agreement succeeds: the value is success exactly when all contributors passed it. */
  lemma AgreedValue(s: State, flags: map<Pid, bv32>, contributors: set<Pid>, good: bv32)
    requires (forall p :: p in s.world ==> p in flags) && FlagsFor(good, flags)
    requires contributors != {} && forall p :: p in contributors ==> p in s.world
    ensures AndOver(s.world, contributors, flags) == good <==> forall p :: p in contributors ==> flags[p] == good
    ensures good == 1 ==> AndOver(s.world, contributors, flags) == 0 || AndOver(s.world, contributors, flags) == 1
  {
    var q :| q in contributors;
    assert q in s.world;
    AndIsGood(s.world, contributors, flags, good);
  }

  lemma FewerAlive(s: State, jobs: seq<seq<Pid>>, live: set<Pid>)
    requires Inv(s, jobs) && live <= s.live
    ensures Inv(s.(live := live), jobs)
  {
    var t := s.(live := live);
    forall p | p in t.world ensures Knows(t.nodes[p], p, t, jobs) {
      assert Knows(s.nodes[p], p, s, jobs);
    }
  }

  lemma ReachedOneMore(s0: State, jobs0: seq<seq<Pid>>, s: State, jobs: seq<seq<Pid>>, gone: set<Pid>, live: set<Pid>,
                       dead: set<Pid>)
    requires Reached(s0, jobs0, s, jobs, gone)
    requires live <= s.live && live != {} && dead !! live
    ensures CanRecover(s.(live := live), dead)
    ensures JobIsLost(s.(live := live), dead) <==> [] in ShrinkAll(jobs, dead)
    ensures !JobIsLost(s.(live := live), dead) ==>
              Reached(s0, jobs0, RecoverAll(s.(live := live), dead), ShrinkAll(jobs, dead), gone + dead)
  {
    var s1 := s.(live := live);
    FewerAlive(s, jobs, live);
    InvCanRecover(s1, jobs, dead);
    if !JobIsLost(s1, dead) {
      RecoverAllKeepsInv(s1, jobs, dead);
      ShrinkAllTwice(jobs0, gone, dead);
      ShrinkTwice(s0.world, gone, dead);
    }
  }

  lemma MasterMeansHead(s: State, jobs: seq<seq<Pid>>, p: Pid)
    requires Inv(s, jobs) && p in s.world
    ensures p in s.nodes && 0 <= s.nodes[p].jobId < |jobs| && jobs[s.nodes[p].jobId] != []
    ensures s.nodes[p].jobId == JobOf(jobs, p) && p in jobs[s.nodes[p].jobId]
    ensures s.nodes[p].master <==> jobs[s.nodes[p].jobId][0] == p
  {
    assert Knows(s.nodes[p], p, s, jobs);
  }

  /** When a repair leaves the heads alone it promotes nobody. */
  lemma NobodyPromoted(s: State, jobs: seq<seq<Pid>>, t: State, after: seq<seq<Pid>>, p: Pid)
    requires Inv(s, jobs) && Inv(t, after) && SameHeads(jobs, after) && p in s.world && p in t.world
    ensures s.nodes[p].master <==> t.nodes[p].master
  {
    MasterMeansHead(s, jobs, p);
    MasterMeansHead(t, after, p);
    var j, k := s.nodes[p].jobId, t.nodes[p].jobId;
    if s.nodes[p].master {
      assert after[j][0] == p && p in after[j];
    }
    if t.nodes[p].master {
      assert jobs[k][0] == p && p in jobs[k];
    }
  }

  /** Everybody has a flag and has backed up whether it is a head; backups are up to date when promotions matter. */
  ghost predicate Held(s: State, flags: map<Pid, bv32>, backup: map<Pid, bool>, good: bv32) {
    && Small(s.world) && s.live != {} && (forall p :: p in s.live ==> p in s.world)
    && (forall p :: p in s.world ==> p in flags && p in backup && p in s.nodes)
    && (good == MINUS_ONE ==> forall p :: p in s.world ==> backup[p] == s.nodes[p].master)
  }

  /** t comes after s: nobody was added to the world, nobody came back to life. */
  ghost predicate Follower(s: State, t: State) {
    && t.live <= s.live && t.live != {}
    && (forall p :: p in t.live ==> p in t.world)
    && (forall p :: p in t.world ==> p in s.world && p in t.nodes)
  }

  /** The flags after one failed agreement and the repair it caused. */
  function FlagsAfterRound(s: State, t: State, flags: map<Pid, bv32>, backup: map<Pid, bool>, f: Fault,
                           promote: bool): map<Pid, bv32>
    requires forall p :: p in s.world ==> p in flags && p in backup
    requires forall p :: p in t.world ==> p in s.world && p in t.nodes && p < 0x8000_0000
  {
    var mixed := AfterFailedAgree(s, flags, f);
    assert forall p :: p in t.world ==> p in mixed;
    if promote then MarkPromoted(t, mixed, backup) else mixed
  }

  lemma HonestOneMore(s0: State, flags0: map<Pid, bv32>, s: State, flags: map<Pid, bv32>, backup: map<Pid, bool>,
                      t: State, f: Fault, good: bv32)
    requires Honest(s0, flags0, s, flags, good) && FlagsFor(good, flags)
    requires Held(s, flags, backup, good) && Follower(s, t)
    ensures var after := FlagsAfterRound(s, t, flags, backup, f, good == MINUS_ONE);
            && FlagsFor(good, after)
            && Honest(s0, flags0, t, after, good)
            && Held(t, after, MasterFlags(t), good)
  {
    FailedAgreeIsHarmless(s, flags, f, good);
    var after := FlagsAfterRound(s, t, flags, backup, f, good == MINUS_ONE);
    forall p | p in t.live && p in after && after[p] == good
      ensures p in flags0 && flags0[p] == good
      ensures good == MINUS_ONE && p in t.nodes && p in s0.nodes && t.nodes[p].master ==> s0.nodes[p].master
    {
      NumberIsNotMinusOne(p);
      assert p in s.live && p in s.world && flags[p] == good;
    }
  }

  /** Whoever is alive in t leads its job exactly if it did in s. */
  ghost predicate SameMasters(s: State, t: State) {
    forall p :: p in t.live ==> p in s.nodes && p in t.nodes && (s.nodes[p].master <==> t.nodes[p].master)
  }

  lemma NobodyPromotedAtAll(s: State, jobs: seq<seq<Pid>>, t: State, after: seq<seq<Pid>>)
    requires Inv(s, jobs) && Inv(t, after) && SameHeads(jobs, after)
    requires forall p :: p in t.world ==> p in s.world
    ensures SameMasters(s, t)
  {
    forall p | p in t.live ensures p in s.nodes && p in t.nodes && (s.nodes[p].master <==> t.nodes[p].master) {
      NobodyPromoted(s, jobs, t, after, p);
    }
  }

  lemma AllGoodStays(s: State, flags: map<Pid, bv32>, backup: map<Pid, bool>, t: State, f: Fault, good: bv32)
    requires Held(s, flags, backup, good) && Follower(s, t) && FlagsFor(good, flags)
    requires good == MINUS_ONE ==> SameMasters(s, t)
    requires forall p :: p in s.live ==> flags[p] == good
    ensures forall p :: p in t.live ==>
              p in FlagsAfterRound(s, t, flags, backup, f, good == MINUS_ONE)
              && FlagsAfterRound(s, t, flags, backup, f, good == MINUS_ONE)[p] == good
  {
    FailedAgreeIsHarmless(s, flags, f, good);
  }

  lemma LastingOneMore(s0: State, jobs0: seq<seq<Pid>>, flags0: map<Pid, bv32>, s: State, jobs: seq<seq<Pid>>,
                       flags: map<Pid, bv32>, backup: map<Pid, bool>,
                       t: State, after: seq<seq<Pid>>, f: Fault, good: bv32)
    requires Lasting(s0, jobs0, flags0, s, jobs, flags, good) && FlagsFor(good, flags)
    requires Held(s, flags, backup, good) && Follower(s, t)
    requires good == MINUS_ONE && SameHeads(jobs0, after) ==> SameHeads(jobs0, jobs) && SameMasters(s, t)
    ensures Lasting(s0, jobs0, flags0, t, after, FlagsAfterRound(s, t, flags, backup, f, good == MINUS_ONE), good)
  {
    if (forall p :: p in s0.live ==> p in flags0 && flags0[p] == good)
       && (good == MINUS_ONE ==> SameHeads(jobs0, after)) {
      AllGoodStays(s, flags, backup, t, f, good);
    }
  }

  ghost predicate Alive(job: seq<Pid>, live: set<Pid>) {
    exists p :: p in job && p in live
  }

  /** Every job has a live worker. */
  ghost predicate JobsAlive(jobs: seq<seq<Pid>>, live: set<Pid>) {
    forall j :: 0 <= j < |jobs| ==> Alive(jobs[j], live)
  }

  lemma LostIsNotAlive(jobs: seq<seq<Pid>>, gone: set<Pid>, dead: set<Pid>, live: set<Pid>)
    requires [] in ShrinkAll(ShrinkAll(jobs, gone), dead) && gone !! live && dead !! live
    ensures !JobsAlive(jobs, live)
  {
    var after := ShrinkAll(ShrinkAll(jobs, gone), dead);
    var j :| 0 <= j < |after| && after[j] == [];
    assert !Alive(jobs[j], live) by {
      forall p | p in jobs[j] ensures p !in live {
        assert p !in Shrink(Shrink(jobs[j], gone), dead);
      }
    }
  }

  /** What a loop around MPI_Comm_agree guarantees when it ends with the value v at every survivor. */
  ghost predicate Agreed(s0: State, jobs0: seq<seq<Pid>>, flags0: map<Pid, bv32>, good: bv32,
                         s: State, jobs: seq<seq<Pid>>, gone: set<Pid>, v: bv32)
  {
    && Reached(s0, jobs0, s, jobs, gone)
    // nobody who was dead before is left in the world
    && (forall p :: p in s.world ==> p in s0.live)
    && (v == good ==> forall p :: p in s.live ==> p in flags0 && flags0[p] == good)
    && (v == good == MINUS_ONE ==>
          forall p :: p in s.live && p in s0.nodes && p in s.nodes && s.nodes[p].master ==> s0.nodes[p].master)
    && ((forall p :: p in s0.live ==> p in flags0 && flags0[p] == good)
        && (good == MINUS_ONE ==> SameHeads(jobs0, jobs)) ==>
          v == good)
  }

  /** The last agreement: no member of the world was dead when it started. */
  lemma AgreementSucceeds(s0: State, jobs0: seq<seq<Pid>>, flags0: map<Pid, bv32>, good: bv32,
                          s: State, jobs: seq<seq<Pid>>, flags: map<Pid, bv32>, gone: set<Pid>, f: Fault)
    requires Reached(s0, jobs0, s, jobs, gone) && FlagsFor(good, flags)
    requires forall p :: p in s.world ==> p in flags
    requires Honest(s0, flags0, s, flags, good) && Lasting(s0, jobs0, flags0, s, jobs, flags, good)
    requires Unhandled(s) == {} && s.live - f.die != {}
    ensures Agreed(s0, jobs0, flags0, good, s.(live := s.live - f.die), jobs, gone,
                   AndOver(s.world, s.live - (f.die * f.early), flags))
  {
    FewerAlive(s, jobs, s.live - f.die);
    AgreedValue(s, flags, s.live - (f.die * f.early), good);
    forall p | p in s.world ensures p in s.live {
      assert p !in Unhandled(s);
    }
  }

  /** The invariant of the loop, as far as it concerns the flags. */
  ghost predicate Carrying(s0: State, jobs0: seq<seq<Pid>>, flags0: map<Pid, bv32>, good: bv32,
                           s: State, jobs: seq<seq<Pid>>, flags: map<Pid, bv32>, backup: map<Pid, bool>)
  {
    && FlagsFor(good, flags)
    && Held(s, flags, backup, good)
    && Honest(s0, flags0, s, flags, good)
    && Lasting(s0, jobs0, flags0, s, jobs, flags, good)
  }

  lemma LoopStarts(s0: State, jobs0: seq<seq<Pid>>, flags0: map<Pid, bv32>, good: bv32)
    requires Inv(s0, jobs0) && Small(s0.world) && s0.live != {}
    requires (forall p :: p in s0.world ==> p in flags0) && FlagsFor(good, flags0)
    ensures Reached(s0, jobs0, s0, jobs0, {})
    ensures Carrying(s0, jobs0, flags0, good, s0, jobs0, flags0, MasterFlags(s0))
  {
    ShrinkAllByNone(jobs0);
    ShrinkByNone(s0.world, {});
  }

  /** The tables and the world after one more repair. */
  lemma OneMoreRepair(s0: State, jobs0: seq<seq<Pid>>, s: State, jobs: seq<seq<Pid>>, gone: set<Pid>,
                      live: set<Pid>, dead: set<Pid>)
    requires Reached(s0, jobs0, s, jobs, gone)
    requires live <= s.live && live != {} && dead !! live
    ensures CanRecover(s.(live := live), dead)
    ensures JobIsLost(s.(live := live), dead) ==> !JobsAlive(jobs0, live)
    ensures !JobIsLost(s.(live := live), dead) ==>
      var next := RecoverAll(s.(live := live), dead);
      && Reached(s0, jobs0, next, ShrinkAll(jobs, dead), gone + dead)
      && Follower(s, next)
  {
    ReachedOneMore(s0, jobs0, s, jobs, gone, live, dead);
    if JobIsLost(s.(live := live), dead) {
      LostIsNotAlive(jobs0, gone, dead, live);
    }
  }

  lemma HeadsWhileRepairing(s0: State, jobs0: seq<seq<Pid>>, s: State, jobs: seq<seq<Pid>>, gone: set<Pid>,
                            t: State, dead: set<Pid>)
    requires Reached(s0, jobs0, s, jobs, gone) && Reached(s0, jobs0, t, ShrinkAll(jobs, dead), gone + dead)
    requires Follower(s, t) && SameHeads(jobs0, ShrinkAll(jobs, dead))
    ensures SameHeads(jobs0, jobs) && SameMasters(s, t)
  {
    HeadsBetween(jobs0, gone, dead);
    NobodyPromotedAtAll(s, jobs, t, ShrinkAll(jobs, dead));
  }

  /** The flags after one more repair. */
  lemma OneMoreMarking(s0: State, jobs0: seq<seq<Pid>>, flags0: map<Pid, bv32>, good: bv32,
                       s: State, jobs: seq<seq<Pid>>, flags: map<Pid, bv32>, backup: map<Pid, bool>,
                       t: State, after: seq<seq<Pid>>, f: Fault)
    requires Carrying(s0, jobs0, flags0, good, s, jobs, flags, backup) && Follower(s, t)
    requires SameHeads(jobs0, after) ==> SameHeads(jobs0, jobs) && SameMasters(s, t)
    ensures Carrying(s0, jobs0, flags0, good, t, after, FlagsAfterRound(s, t, flags, backup, f, good == MINUS_ONE),
                     MasterFlags(t))
  {
    HonestOneMore(s0, flags0, s, flags, backup, t, f, good);
    LastingOneMore(s0, jobs0, flags0, s, jobs, flags, backup, t, after, f, good);
  }

  lemma LoopEnds(s0: State, jobs0: seq<seq<Pid>>, flags0: map<Pid, bv32>, good: bv32,
                 s: State, jobs: seq<seq<Pid>>, flags: map<Pid, bv32>, backup: map<Pid, bool>, gone: set<Pid>, f: Fault)
    requires Reached(s0, jobs0, s, jobs, gone) && Carrying(s0, jobs0, flags0, good, s, jobs, flags, backup)
    requires Unhandled(s) == {} && s.live - f.die != {}
    ensures var v := AndOver(s.world, s.live - (f.die * f.early), flags);
            && Agreed(s0, jobs0, flags0, good, s.(live := s.live - f.die), jobs, gone, v)
            && (good == 1 ==> v == 0 || v == 1)
  {
    AgreementSucceeds(s0, jobs0, flags0, good, s, jobs, flags, gone, f);
    AgreedValue(s, flags, s.live - (f.die * f.early), good);
  }

  datatype Round =
    | Again(s: State, flags: map<Pid, bv32>, backup: map<Pid, bool>, dead: set<Pid>)
    | Stopped(ending: Ending, s: State)

  /** One MPI_Comm_agree that reports a failure, the repair by the error handler, and the body of the loop after it. */
  method FailedAgree(s0: State, jobs0: seq<seq<Pid>>, flags0: map<Pid, bv32>, good: bv32,
                     s: State, jobs: seq<seq<Pid>>, flags: map<Pid, bv32>, backup: map<Pid, bool>, gone: set<Pid>,
                     env: Schedule, ghost t0: nat, t: nat)
    returns (r: Round)
    requires Reached(s0, jobs0, s, jobs, gone) && Carrying(s0, jobs0, flags0, good, s, jobs, flags, backup)
    requires Unhandled(s) != {} || s.live - env(t).die == {}
    requires Outlive(s0.live, env, t0, t, s.live)
    ensures r.Again? ==>
      && Reached(s0, jobs0, r.s, ShrinkAll(jobs, r.dead), gone + r.dead)
      && Carrying(s0, jobs0, flags0, good, r.s, ShrinkAll(jobs, r.dead), r.flags, r.backup)
      && r.s.world == Shrink(s.world, r.dead) && |r.s.world| < |s.world|
    ensures Outlive(s0.live, env, t0, t + 1, r.s.live)
    // the shrink takes out who was dead before, and who has died too early to take part
    ensures r.Again? ==> forall p :: p in r.s.world <==> p in s.world && p in s.live && p !in env(t).die * env(t).early
    ensures r.Stopped? ==>
      (r.ending == NobodyLeft && r.s.live == {})
      || (r.ending == Aborted && r.s.live != {} && !JobsAlive(jobs0, r.s.live))
  {
    var f := env(t);
    var now := s.(live := s.live - f.die);
    OutliveNext(s0.live, env, t0, t, s.live);
    if now.live == {} {
      return Stopped(NobodyLeft, now);
    }
    var dead := Unhandled(s) + (f.die * f.early);
    OneMoreRepair(s0, jobs0, s, jobs, gone, now.live, dead);
    if JobIsLost(now, dead) {
      return Stopped(Aborted, now);
    }
    var next := RecoverAll(now, dead);
    if SameHeads(jobs0, ShrinkAll(jobs, dead)) {
      HeadsWhileRepairing(s0, jobs0, s, jobs, gone, next, dead);
    }
    OneMoreMarking(s0, jobs0, flags0, good, s, jobs, flags, backup, next, ShrinkAll(jobs, dead), f);
    ShrinkLosesMembers(s.world, dead);
    r := Again(next, FlagsAfterRound(s, next, flags, backup, f, good == MINUS_ONE), MasterFlags(next), dead);
  }

  /**
   * `while(MPI_SUCCESS != MPI_Comm_agree(comm, &flag))`, at all processes at once. With good == MINUS_ONE it is the
   * macro DO_COMM_AGREE, whose body marks promotions; with good == 1 it is the loop of MPI_Bcast, whose body is empty.
   */
  method AgreeLoop(s0: State, jobs0: seq<seq<Pid>>, flags0: map<Pid, bv32>, good: bv32, env: Schedule, t0: nat)
    returns (ending: Ending, s: State, jobs: seq<seq<Pid>>, v: bv32, t: nat,
             shrinks: nat, lastDead: set<Pid>, lastJobs: seq<seq<Pid>>, gone: set<Pid>)
    requires Inv(s0, jobs0) && Small(s0.world) && s0.live != {}
    requires (forall p :: p in s0.world ==> p in flags0) && FlagsFor(good, flags0)
    ensures ending == Finished ==> Agreed(s0, jobs0, flags0, good, s, jobs, gone, v) && s.live != {}
    ensures ending == Finished && good == 1 ==> v == 0 || v == 1
    ensures ending == Finished && shrinks == 0 ==> s.world == s0.world && jobs == jobs0
    ensures ending == Finished && shrinks > 0 ==>
      |s.world| + shrinks <= |s0.world| && jobs == ShrinkAll(lastJobs, lastDead)
    ensures ending == Finished && shrinks == 1 ==> lastJobs == jobs0
    ensures ending == Aborted ==> !JobsAlive(jobs0, s.live)
    ensures ending == NobodyLeft <==> s.live == {}
    ensures t0 < t && Outlive(s0.live, env, t0, t, s.live)
  {
    s, jobs, t := s0, jobs0, t0;
    gone, lastDead, lastJobs, shrinks := {}, {}, jobs0, 0;
    var flags, backup := flags0, MasterFlags(s0);
    LoopStarts(s0, jobs0, flags0, good);
    OutliveNothing(s0.live, env, t0);
    while Unhandled(s) != {} || s.live - env(t).die == {}
      invariant Reached(s0, jobs0, s, jobs, gone)
      invariant Carrying(s0, jobs0, flags0, good, s, jobs, flags, backup)
      invariant Outlive(s0.live, env, t0, t, s.live)
      invariant shrinks == 0 ==> s.world == s0.world && jobs == jobs0
      invariant shrinks > 0 ==> |s.world| + shrinks <= |s0.world| && jobs == ShrinkAll(lastJobs, lastDead)
      invariant shrinks == 1 ==> lastJobs == jobs0
      decreases |s.world|
    {
      var r := FailedAgree(s0, jobs0, flags0, good, s, jobs, flags, backup, gone, env, t0, t);
      t := t + 1;
      if r.Stopped? {
        ending, s, v := r.ending, r.s, 0;
        return;
      }
      flags, backup := r.flags, r.backup;
      gone, lastDead, lastJobs, shrinks := gone + r.dead, r.dead, jobs, shrinks + 1;
      s, jobs := r.s, ShrinkAll(jobs, r.dead);
    }
    var f := env(t);
    LoopEnds(s0, jobs0, flags0, good, s, jobs, flags, backup, gone, f);
    v := AndOver(s.world, s.live - (f.die * f.early), flags);
    OutliveNext(s0.live, env, t0, t, s.live);
    ending, s, t := Finished, s.(live := s.live - f.die), t + 1;
  }

  lemma ShrinkAllByNone(jobs: seq<seq<Pid>>)
    ensures ShrinkAll(jobs, {}) == jobs
  {
    forall j | 0 <= j < |jobs| ensures Shrink(jobs[j], {}) == jobs[j] {
      ShrinkByNone(jobs[j], {});
    }
  }
}
