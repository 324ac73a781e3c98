/** Whole runs of failures, recoveries and remaps: every process keeps the same correct picture of the job. */
module Recovery {
  import opened Mpi
  import opened NodeState
  import opened Ulfm
  import opened Repair
  import opened Comm

  /** The job that lists p. */
  function JobOf(jobs: seq<seq<Pid>>, p: Pid): (j: int)
    ensures -1 <= j < |jobs|
    ensures j >= 0 ==> p in jobs[j]
  {
    Owner(jobs, |jobs|, p)
  }

  /** Every job has workers, no worker is listed twice, and together the jobs are exactly the world. */
  ghost predicate Partition(jobs: seq<seq<Pid>>, world: seq<Pid>) {
    && (forall j :: 0 <= j < |jobs| ==> jobs[j] != [] && Distinct(jobs[j]))
    && (forall j, p {:trigger p in jobs[j]} :: 0 <= j < |jobs| && p in jobs[j] ==> p in world && JobOf(jobs, p) == j)
    && (forall p :: p in world ==> JobOf(jobs, p) >= 0)
  }

  /** What process p of the world should know when the processes are assigned to jobs as in `jobs`. */
  ghost predicate Knows(n: Node, p: Pid, s: State, jobs: seq<seq<Pid>>) {
    && n.staticRank == p
    && InRange(n.lists, |s.world|) && JobPids(n.lists, s.world) == jobs
    && n.rank == RankOf(s.world, p)
    && n.jobId == JobOf(jobs, p) >= 0
    && (n.master <==> jobs[n.jobId][0] == p)
    && |n.rank2job| >= |s.world| && |n.ignored| >= |s.world|
    && (forall r :: 0 <= r < |s.world| ==> n.rank2job[r] == JobOf(jobs, s.world[r]))
    && (forall r :: 0 <= r < |s.world| && n.ignored[r] ==> s.world[r] !in s.live)
  }

  /** The recovery invariant: every process of the world holds the tables of one partition of the world into jobs. */
  ghost predicate Inv(s: State, jobs: seq<seq<Pid>>) {
    && Distinct(s.world)
    && (forall p :: p in s.live ==> p in s.world)
    && Partition(jobs, s.world)
    && (forall p :: p in s.world ==> p in s.nodes)
    && (forall p {:trigger Knows(s.nodes[p], p, s, jobs)} :: p in s.world ==> Knows(s.nodes[p], p, s, jobs))
  }

  /** Inv in the words of the tables: everybody holds the same lists, and nobody alive is ignored. */
  lemma EverybodyAgrees(s: State, jobs: seq<seq<Pid>>, p: Pid, q: Pid)
    requires Inv(s, jobs) && p in s.world && q in s.world
    ensures Knows(s.nodes[p], p, s, jobs) && Knows(s.nodes[q], q, s, jobs)
    ensures s.nodes[p].lists == s.nodes[q].lists
    ensures q in s.live ==> !s.nodes[p].ignored[s.nodes[q].rank]
  {
    var np, nq := s.nodes[p].lists, s.nodes[q].lists;
    assert Knows(s.nodes[p], p, s, jobs) && Knows(s.nodes[q], q, s, jobs);
    assert |np| == |JobPids(np, s.world)| == |JobPids(nq, s.world)| == |nq|;
    forall i | 0 <= i < |np| ensures np[i] == nq[i] {
      SameRanks(np[i], nq[i], s.world);
    }
  }

  lemma SameRanks(a: seq<int>, b: seq<int>, world: seq<Pid>)
    requires Distinct(world) && Within(a, |world|) && Within(b, |world|) && Pids(a, world) == Pids(b, world)
    ensures a == b
  {
    assert |a| == |Pids(a, world)| == |Pids(b, world)| == |b|;
    forall k | 0 <= k < |a| ensures a[k] == b[k] {
      assert world[a[k]] == Pids(a, world)[k] == Pids(b, world)[k] == world[b[k]];
    }
  }

  /** rank_2_job is the inverse of the lists: it names the only job that lists a rank. */
  lemma TableInvertsLists(s: State, jobs: seq<seq<Pid>>, p: Pid, r: nat)
    requires Inv(s, jobs) && p in s.world && r < |s.world|
    ensures Knows(s.nodes[p], p, s, jobs) && |s.nodes[p].lists| == |jobs|
    ensures var lists, o := s.nodes[p].lists, s.nodes[p].rank2job[r];
            0 <= o < |lists| && r in lists[o] && forall i :: 0 <= i < |lists| && r in lists[i] ==> i == o
  {
    assert Knows(s.nodes[p], p, s, jobs);
    assert s.world[r] in s.world;
    ListedRanks(s.nodes[p].lists, s.world, r);
  }

  /** In every job exactly one process has the head flag: the first of the list. */
  lemma OneHeadPerJob(s: State, jobs: seq<seq<Pid>>, j: nat, q: Pid)
    requires Inv(s, jobs) && j < |jobs|
    ensures jobs[j] != [] && jobs[j][0] in s.world
    ensures q in jobs[j] ==> q in s.world && (s.nodes[q].master <==> q == jobs[j][0])
  {
    assert jobs[j][0] in jobs[j];
    if q in jobs[j] {
      assert Knows(s.nodes[q], q, s, jobs);
    }
  }

  /** A rank is in a list exactly when the process with that rank is in the list of processes. */
  lemma ListedRanks(lists: seq<seq<int>>, world: seq<Pid>, r: nat)
    requires Distinct(world) && InRange(lists, |world|) && r < |world|
    ensures forall j :: 0 <= j < |lists| ==> (r in lists[j] <==> world[r] in JobPids(lists, world)[j])
  {
    forall j | 0 <= j < |lists| ensures r in lists[j] <==> world[r] in JobPids(lists, world)[j] {
      assert Within(lists[j], |world|);
      if r in lists[j] {
        var k :| 0 <= k < |lists[j]| && lists[j][k] == r;
        assert Pids(lists[j], world)[k] == world[r];
      }
      if world[r] in JobPids(lists, world)[j] {
        var k :| 0 <= k < |lists[j]| && Pids(lists[j], world)[k] == world[r];
        assert lists[j][k] == r;
      }
    }
  }

  lemma {:induction false} SameOwner<T, U>(a: seq<seq<T>>, b: seq<seq<U>>, k: nat, x: T, y: U)
    requires k <= |a| && k <= |b|
    requires forall j :: 0 <= j < k ==> (x in a[j] <==> y in b[j])
    ensures Owner(a, k, x) == Owner(b, k, y)
  {
    if k > 0 {
      SameOwner(a, b, k - 1, x, y);
    }
  }

  // ---------------------------------------------------------------------------------------------
  // One recovery
  // ---------------------------------------------------------------------------------------------

  lemma PartitionShrinks(jobs: seq<seq<Pid>>, world: seq<Pid>, dead: set<Pid>)
    requires Partition(jobs, world)
    requires [] !in ShrinkAll(jobs, dead)
    ensures Partition(ShrinkAll(jobs, dead), Shrink(world, dead))
    ensures forall p :: p in world && p !in dead ==> JobOf(ShrinkAll(jobs, dead), p) == JobOf(jobs, p)
  {
    var after := ShrinkAll(jobs, dead);
    forall p | p in world && p !in dead ensures JobOf(after, p) == JobOf(jobs, p) {
      SameOwner(after, jobs, |jobs|, p, p);
    }
    forall j | 0 <= j < |jobs| ensures Distinct(after[j]) {
      ShrinkIsDistinct(jobs[j], dead);
    }
  }

  lemma KnowsIsWellFormed(n: Node, p: Pid, s: State, jobs: seq<seq<Pid>>)
    requires Partition(jobs, s.world) && p in s.world && Knows(n, p, s, jobs)
    ensures WellFormed(n, |s.world|)
  {
    forall j | 0 <= j < |n.lists| ensures n.lists[j] != [] {
      assert jobs[j] == Pids(n.lists[j], s.world);
    }
  }

  /** Entering the lists of a partition in the tables makes them right at every rank. */
  lemma TableEntries(lists: seq<seq<int>>, world: seq<Pid>, jobs: seq<seq<Pid>>, table: seq<int>, marks: seq<bool>,
                     r: nat)
    requires Distinct(world) && InRange(lists, |world|) && JobPids(lists, world) == jobs && Partition(jobs, world)
    requires r < |world| <= |table| && |world| <= |marks|
    ensures Entries(table, lists)[r] == JobOf(jobs, world[r])
    ensures !Cleared(marks, lists)[r]
  {
    assert world[r] in world;
    ListedRanks(lists, world, r);
    SameOwner(lists, jobs, |jobs|, r, world[r]);
  }

  /** The head of a list of ranks is the head of the list of processes. */
  lemma HeadOfList(list: seq<int>, world: seq<Pid>, p: Pid)
    requires Distinct(world) && Within(list, |world|) && list != [] && p in world
    ensures list[0] == RankOf(world, p) <==> Pids(list, world)[0] == p
  {
    RankIsUnique(world, list[0]);
  }

  /** A node whose tables were rewritten from the lists of a partition knows that partition. */
  lemma RewrittenKnows(m: Node, p: Pid, table: seq<int>, marks: seq<bool>, s: State, jobs: seq<seq<Pid>>)
    requires m.staticRank == p && m.jobId == JobOf(jobs, p) && p in s.world && m.rank == RankOf(s.world, p)
    requires Distinct(s.world) && Partition(jobs, s.world)
    requires InRange(m.lists, |s.world|) && JobPids(m.lists, s.world) == jobs
    requires m.rank2job == Entries(table, m.lists) && m.ignored == Cleared(marks, m.lists)
    requires |s.world| <= |table| && |s.world| <= |marks|
    requires m.lists[m.jobId] != [] && m.master == (m.lists[m.jobId][0] == m.rank)
    ensures Knows(m, p, s, jobs)
  {
    assert jobs[m.jobId] == Pids(m.lists[m.jobId], s.world);
    HeadOfList(m.lists[m.jobId], s.world, p);
    forall r | 0 <= r < |s.world|
      ensures m.rank2job[r] == JobOf(jobs, s.world[r]) && !m.ignored[r]
    {
      TableEntries(m.lists, s.world, jobs, table, marks, r);
    }
  }

  /** update_job_list at one survivor. */
  lemma RepairedKnows(n: Node, p: Pid, s: State, jobs: seq<seq<Pid>>, dead: set<Pid>)
    requires Distinct(s.world) && Partition(jobs, s.world)
    requires p in s.world && p !in dead && Knows(n, p, s, jobs)
    ensures WellFormed(n, |s.world|)
    ensures Translation(Translated(s.world, dead), |s.world|)
    ensures Repaired(n, Translated(s.world, dead)).None? <==> [] in ShrinkAll(jobs, dead)
    ensures Repaired(n, Translated(s.world, dead)).Some? ==>
              Knows(Repaired(n, Translated(s.world, dead)).value, p, s.(world := Shrink(s.world, dead)),
                    ShrinkAll(jobs, dead))
  {
    KnowsIsWellFormed(n, p, s, jobs);
    var world, tr := Shrink(s.world, dead), Translated(s.world, dead);
    var after := ShrinkAll(jobs, dead);
    RepairRefinesFilter(n, s.world, dead);
    if Repaired(n, tr).Some? {
      ShrinkIsDistinct(s.world, dead);
      PartitionShrinks(jobs, s.world, dead);
      var m := Repaired(n, tr).value;
      assert m.lists[m.jobId] != [];
      RewrittenKnows(m, p, n.rank2job, n.ignored, s.(world := world), after);
    }
  }

  // ---------------------------------------------------------------------------------------------
  // One map
  // ---------------------------------------------------------------------------------------------

  /** A map that assigns exactly the current world to jobs. */
  ghost predicate MapOf(m: MapFile, world: seq<Pid>, jobs: seq<seq<Pid>>) {
    && Ordered(m)
    && InRange(RanksOf(m), |world|)
    && JobPids(RanksOf(m), world) == jobs
    && Partition(jobs, world)
  }

  /** What must hold of a process before it reads a map; its job may still be unset. */
  ghost predicate Ready(n: Node, p: Pid, s: State) {
    && n.staticRank == p && n.rank == RankOf(s.world, p)
    && |n.rank2job| >= |s.world| && |n.ignored| >= |s.world|
    && (forall r :: 0 <= r < |s.world| && n.ignored[r] ==> s.world[r] !in s.live)
  }

  /** The transit state parse_map_file leaves in a process that belongs to job j of the map and to job `was` before. */
  function TransitOf(m: MapFile, j: int, head: bool, was: int): (t: TransitState)
    requires 0 <= j < |m.lines|
  {
    if m.lines[j].updateBit != 1 then NodeDataNone
    else if was != j then NodeDataReceiver
    else if head && |m.lines[j].ranks| > 1 then NodeDataSender
    else NodeDataNone
  }

  /** The position of p in the map. */
  lemma PlaceOf(m: MapFile, world: seq<Pid>, jobs: seq<seq<Pid>>, p: Pid) returns (pos: nat)
    requires Distinct(world) && MapOf(m, world, jobs) && p in world
    ensures 0 <= JobOf(jobs, p) < |m.lines|
    ensures pos < |m.lines[JobOf(jobs, p)].ranks| == |jobs[JobOf(jobs, p)]|
    ensures m.lines[JobOf(jobs, p)].ranks[pos] == RankOf(world, p)
    ensures pos == 0 <==> jobs[JobOf(jobs, p)][0] == p
    ensures Distinct(m.lines[JobOf(jobs, p)].ranks)
    ensures forall k :: 0 <= k < |m.lines| && k != JobOf(jobs, p) ==> RankOf(world, p) !in m.lines[k].ranks
  {
    var j, lists := JobOf(jobs, p), RanksOf(m);
    var list := m.lines[j].ranks;
    assert list == lists[j] && jobs[j] == Pids(list, world) && Distinct(jobs[j]);
    assert Within(lists[j], |world|);
    pos :| 0 <= pos < |jobs[j]| && jobs[j][pos] == p;
    RankIsUnique(world, list[pos]);
    forall i, k | 0 <= i < k < |list| ensures list[i] != list[k] {
      assert jobs[j][i] != jobs[j][k];
    }
    ListedRanks(lists, world, RankOf(world, p));
    forall k | 0 <= k < |m.lines| && k != j ensures RankOf(world, p) !in m.lines[k].ranks {
      assert m.lines[k].ranks == lists[k];
    }
  }

  lemma MapIsUsable(n: Node, world: seq<Pid>, jobs: seq<seq<Pid>>, m: MapFile)
    requires MapOf(m, world, jobs) && |n.rank2job| >= |world|
    ensures Usable(m, n)
  {
    var lists := RanksOf(m);
    InLargerRange(lists, |world|, |n.rank2job|);
    forall i | 0 <= i < |m.lines| ensures m.lines[i].ranks != [] && Within(m.lines[i].ranks, |n.rank2job|) {
      assert lists[i] == m.lines[i].ranks && |jobs[i]| == |lists[i]|;
    }
  }

  /** The tables after parsing are those of the map. */
  lemma ParsedTables(n: Node, world: seq<Pid>, jobs: seq<seq<Pid>>, m: MapFile)
    requires Distinct(world) && MapOf(m, world, jobs) && |n.rank2job| >= |world| && |n.ignored| >= |world|
             && Usable(m, n)
    ensures Parsed(n, m).lists == RanksOf(m) && |Parsed(n, m).rank2job| == |n.rank2job|
    ensures forall r :: 0 <= r < |world| ==> Parsed(n, m).rank2job[r] == JobOf(jobs, world[r])
  {
    var lists := RanksOf(m);
    InLargerRange(lists, |world|, |n.rank2job|);
    LinesStamp(n, m, |m.lines|);
    ListsReadInOrder(m, |m.lines|);
    assert ListsRead(m, |m.lines|) == lists;
    StampedIsEntries(n.rank2job, lists);
    forall r | 0 <= r < |world| ensures Entries(n.rank2job, lists)[r] == JobOf(jobs, world[r]) {
      TableEntries(lists, world, jobs, n.rank2job, n.ignored, r);
    }
  }

  /** What parsing makes of the other fields of a process that is listed in job j. */
  lemma ParsedFields(n: Node, p: Pid, world: seq<Pid>, jobs: seq<seq<Pid>>, m: MapFile, j: nat)
    requires Distinct(world) && MapOf(m, world, jobs) && p in world && n.rank == RankOf(world, p) && Usable(m, n)
    requires j == JobOf(jobs, p) && (m.lines[j].updateBit == 1 || n.jobId == j)
    ensures var r := Parsed(n, m);
            && r.staticRank == n.staticRank && r.rank == n.rank && r.ignored == n.ignored
            && r.jobId == j && (r.master <==> jobs[j][0] == p)
            && r.transit == TransitOf(m, j, p == jobs[j][0], n.jobId)
            && r.age == (if m.lines[j].updateBit != 1 then n.age else if n.jobId != j then 1 else n.age + 1)
  {
    var pos := PlaceOf(m, world, jobs, p);
    LinesOfOwn(n, m, j, pos, |m.lines|);
  }

  /** parse_map_file at one process: it knows the new partition, and whether to send or to receive. */
  lemma ParsedKnows(n: Node, p: Pid, s: State, jobs: seq<seq<Pid>>, m: MapFile)
    requires Distinct(s.world) && MapOf(m, s.world, jobs) && p in s.world && Ready(n, p, s)
    requires m.lines[JobOf(jobs, p)].updateBit == 1 || n.jobId == JobOf(jobs, p)
    ensures Usable(m, n)
    ensures Knows(Parsed(n, m), p, s, jobs)
    ensures Parsed(n, m).transit == TransitOf(m, JobOf(jobs, p), p == jobs[JobOf(jobs, p)][0], n.jobId)
  {
    MapIsUsable(n, s.world, jobs, m);
    ParsedTables(n, s.world, jobs, m);
    ParsedFields(n, p, s.world, jobs, m, JobOf(jobs, p));
  }

  // ---------------------------------------------------------------------------------------------
  // The start
  // ---------------------------------------------------------------------------------------------

  /** MPI_COMM_WORLD: every process has its own name as its rank. */
  function FirstWorld(size: nat): (world: seq<Pid>)
    ensures |world| == size && forall r :: 0 <= r < size ==> world[r] == r
    ensures Distinct(world)
  {
    seq(size, r => r)
  }

  /** The globals of process p when init_node hands them to parse_map_file: the job is marked unset with -1. */
  function Blank(p: Pid, size: nat, table: seq<int>): Node {
    Node(-1, p, p, 0, NodeDataNone, false, [], table, seq(size, _ => false))
  }

  /** init_node: a first map makes every process look like a receiver, which is corrected at the end. */
  function InitNode(p: Pid, size: nat, table: seq<int>, m: MapFile): Node
    requires Usable(m, Blank(p, size, table))
  {
    Parsed(Blank(p, size, table), m).(transit := NodeDataNone)
  }

  /** After init_node everybody knows the first partition, whatever the malloc'ed rank_2_job contained. */
  lemma InitEstablishesInv(s: State, m: MapFile, size: nat, jobs: seq<seq<Pid>>, table: seq<int>)
    requires s.world == FirstWorld(size) && (forall p :: p in s.live ==> p in s.world)
    requires |table| == size && MapOf(m, s.world, jobs)
    requires forall i :: 0 <= i < |m.lines| ==> m.lines[i].updateBit == 1
    requires forall p :: p in s.world ==> Usable(m, Blank(p, size, table))
    requires forall p :: p in s.world ==> p in s.nodes && s.nodes[p] == InitNode(p, size, table, m)
    ensures Inv(s, jobs)
    ensures forall p :: p in s.world ==> s.nodes[p].transit == NodeDataNone && s.nodes[p].age == 1
  {
    forall p | p in s.world ensures Knows(s.nodes[p], p, s, jobs) && s.nodes[p].age == 1 {
      RankIsUnique(s.world, p);
      ParsedKnows(Blank(p, size, table), p, s, jobs, m);
      ParsedFields(Blank(p, size, table), p, s.world, jobs, m, JobOf(jobs, p));
    }
  }

  // ---------------------------------------------------------------------------------------------
  // Runs
  // ---------------------------------------------------------------------------------------------

  datatype Event =
    | Die(p: Pid)
    | Notice(p: Pid, failed: seq<Pid>)   // p marks failed processes while sending or receiving
    | Recover(dead: set<Pid>)            // all processes that are left run the shrink branch of rep_errhandler
    | Remap(m: MapFile)                  // all processes parse a new map

  ghost predicate Moves(s: State, e: Event, t: State) {
    match e
    case Die(p) =>
      p in s.live && t == s.(live := s.live - {p})
    case Notice(p, failed) =>
      && p in s.live && p in s.nodes
      && (forall i :: 0 <= i < |failed| ==> failed[i] !in s.live)
      && t == s.(nodes :=
          s.nodes[p := s.nodes[p].(ignored := Marked(s.nodes[p].ignored, TranslateRanks(failed, s.world)))])
    case Recover(dead) =>
      && dead !! s.live
      && t.world == Shrink(s.world, dead) && t.live == s.live
      && forall p :: p in t.world ==>
           && p in s.nodes && p in t.nodes
           && WellFormed(s.nodes[p], |s.world|) && Translation(Translated(s.world, dead), |s.world|)
           && Repaired(s.nodes[p], Translated(s.world, dead)) == Some(t.nodes[p])
    case Remap(m) =>
      && t.world == s.world && t.live == s.live
      && InRange(RanksOf(m), |s.world|)
      && MapOf(m, s.world, JobPids(RanksOf(m), s.world))
      && forall p :: p in s.world ==>
           && p in s.nodes && p in t.nodes
           && Tells(m, s.world, p, s.nodes[p].jobId)
           && Usable(m, s.nodes[p]) && t.nodes[p] == Parsed(s.nodes[p], m)
  }

  /** The update bit is set whenever the map moves p away from the job it is in. */
  ghost predicate Tells(m: MapFile, world: seq<Pid>, p: Pid, was: int)
    requires InRange(RanksOf(m), |world|)
  {
    var j := JobOf(JobPids(RanksOf(m), world), p);
    j >= 0 && (m.lines[j].updateBit == 1 || was == j)
  }

  /** The same event on the one partition that all tables describe. */
  ghost function Reassigned(jobs: seq<seq<Pid>>, world: seq<Pid>, e: Event): seq<seq<Pid>>
    requires e.Remap? ==> InRange(RanksOf(e.m), |world|)
  {
    match e
    case Recover(dead) => ShrinkAll(jobs, dead)
    case Remap(m) => JobPids(RanksOf(m), world)
    case _ => jobs
  }

  lemma NoticeKeepsInv(s: State, e: Event, t: State, jobs: seq<seq<Pid>>)
    requires Inv(s, jobs) && e.Notice? && Moves(s, e, t)
    ensures Inv(t, jobs)
  {
    MarkedKnows(s.nodes[e.p], e.p, s, jobs, e.failed);
    forall p | p in t.world ensures Knows(t.nodes[p], p, t, jobs) {
      assert Knows(s.nodes[p], p, s, jobs);
    }
  }

  lemma MarkedKnows(n: Node, p: Pid, s: State, jobs: seq<seq<Pid>>, failed: seq<Pid>)
    requires Knows(n, p, s, jobs) && forall i :: 0 <= i < |failed| ==> failed[i] !in s.live
    ensures Knows(n.(ignored := Marked(n.ignored, TranslateRanks(failed, s.world))), p, s, jobs)
  {
    var ranks := TranslateRanks(failed, s.world);
    forall r | 0 <= r < |s.world| && r in ranks ensures s.world[r] !in s.live {
      var i :| 0 <= i < |ranks| && ranks[i] == r;
      assert failed[i] in s.world;
    }
  }

  lemma RecoverKeepsInv(s: State, e: Event, t: State, jobs: seq<seq<Pid>>)
    requires Inv(s, jobs) && e.Recover? && Moves(s, e, t) && t.world != []
    ensures Inv(t, ShrinkAll(jobs, e.dead))
  {
    ShrinkIsDistinct(s.world, e.dead);
    var after := ShrinkAll(jobs, e.dead);
    assert t.world[0] in t.world;
    assert [] !in after by {
      RepairedKnows(s.nodes[t.world[0]], t.world[0], s, jobs, e.dead);
    }
    PartitionShrinks(jobs, s.world, e.dead);
    forall p | p in t.world ensures Knows(t.nodes[p], p, t, after) {
      RepairedKnows(s.nodes[p], p, s, jobs, e.dead);
      assert Knows(t.nodes[p], p, s.(world := t.world), after);
    }
  }

  lemma RemapKeepsInv(s: State, e: Event, t: State, jobs: seq<seq<Pid>>)
    requires Inv(s, jobs) && e.Remap? && Moves(s, e, t)
    ensures Inv(t, JobPids(RanksOf(e.m), s.world))
  {
    var after := JobPids(RanksOf(e.m), s.world);
    forall p | p in t.world ensures Knows(t.nodes[p], p, t, after) {
      assert Knows(s.nodes[p], p, s, jobs);
      ParsedKnows(s.nodes[p], p, s, after, e.m);
      assert Knows(t.nodes[p], p, s, after);
    }
  }

  /** One step keeps the invariant, and the common partition follows the step. */
  lemma StepKeepsInv(s: State, e: Event, t: State, jobs: seq<seq<Pid>>)
    requires Inv(s, jobs) && Moves(s, e, t) && t.live != {}
    ensures Inv(t, Reassigned(jobs, s.world, e))
  {
    match e
    case Die(p) =>
      forall q | q in t.world ensures Knows(t.nodes[q], q, t, jobs) {
        assert Knows(s.nodes[q], q, s, jobs);
      }
    case Notice(_, _) => NoticeKeepsInv(s, e, t, jobs);
    case Recover(dead) =>
      var p :| p in t.live;
      assert p in t.world;
      RecoverKeepsInv(s, e, t, jobs);
    case Remap(_) => RemapKeepsInv(s, e, t, jobs);
  }

  ghost predicate IsRun(states: seq<State>, events: seq<Event>) {
    && |states| == |events| + 1
    && forall i {:trigger events[i]} :: 0 <= i < |events| ==>
      Moves(states[i], events[i], states[i + 1]) && states[i + 1].live != {}
  }

  /** The partition after a run: each recovery takes its dead out, each map replaces it. */
  ghost function RunOf(jobs: seq<seq<Pid>>, states: seq<State>, events: seq<Event>, k: nat): seq<seq<Pid>>
    requires IsRun(states, events) && k <= |events|
  {
    if k == 0 then jobs
    else
      assert Moves(states[k - 1], events[k - 1], states[k]);
      Reassigned(RunOf(jobs, states, events, k - 1), states[k - 1].world, events[k - 1])
  }

  /** Over every run without an abort, all tables keep describing the one partition that RunOf computes. */
  lemma {:induction false} RunKeepsInv(jobs: seq<seq<Pid>>, states: seq<State>, events: seq<Event>, k: nat)
    requires IsRun(states, events) && k <= |events| && Inv(states[0], jobs)
    ensures Inv(states[k], RunOf(jobs, states, events, k))
  {
    if k > 0 {
      RunKeepsInv(jobs, states, events, k - 1);
      var s, e, t := states[k - 1], events[k - 1], states[k];
      assert Moves(s, e, t) && t.live != {};
      var before := RunOf(jobs, states, events, k - 1);
      assert RunOf(jobs, states, events, k) == Reassigned(before, s.world, e);
      StepKeepsInv(s, e, t, before);
    }
  }

  ghost predicate Lost(job: seq<Pid>, dead: set<Pid>) {
    forall q :: q in job ==> q in dead
  }

  /** A recovery aborts at one survivor exactly when it aborts at all of them: when a job has lost its last worker. */
  lemma AbortsAreUniform(s: State, jobs: seq<seq<Pid>>, dead: set<Pid>, p: Pid)
    requires Inv(s, jobs) && dead !! s.live && p in s.live
    ensures WellFormed(s.nodes[p], |s.world|) && Translation(Translated(s.world, dead), |s.world|)
    ensures Repaired(s.nodes[p], Translated(s.world, dead)).None? <==>
            exists j :: 0 <= j < |jobs| && Lost(jobs[j], dead)
  {
    RepairedKnows(s.nodes[p], p, s, jobs, dead);
    LostJob(jobs, dead);
  }

  lemma {:induction false} LostLeavesNobody(job: seq<Pid>, dead: set<Pid>)
    ensures Lost(job, dead) <==> Shrink(job, dead) == []
  {
    if job != [] {
      var front, last := job[..|job| - 1], job[|job| - 1];
      assert job == front + [last];
      LostLeavesNobody(front, dead);
      assert Lost(job, dead) <==> Lost(front, dead) && last in dead;
    }
  }

  lemma LostJob(jobs: seq<seq<Pid>>, dead: set<Pid>)
    ensures [] in ShrinkAll(jobs, dead) <==> exists j :: 0 <= j < |jobs| && Lost(jobs[j], dead)
  {
    var after := ShrinkAll(jobs, dead);
    forall j | 0 <= j < |jobs| ensures after[j] == [] <==> Lost(jobs[j], dead) {
      LostLeavesNobody(jobs[j], dead);
    }
    if [] in after {
      var j :| 0 <= j < |after| && after[j] == [];
      assert Lost(jobs[j], dead);
    }
    if j :| 0 <= j < |jobs| && Lost(jobs[j], dead) {
      assert after[j] in after;
    }
  }
}
