/** Whole runs of map versions: the manager writes, every process parses, the migration communicators fit. */
module Rounds {
  import opened Mpi
  import opened NodeState
  import opened Ulfm
  import opened Comm
  import opened Recovery
  import opened Communicators
  import M = Manager

  /** The numbers WriteToFile prints for the ranks of a job. */
  function Ids(ranks: seq<M.Rank>): (ids: seq<int>)
    ensures |ids| == |ranks| && forall k :: 0 <= k < |ids| ==> ids[k] == ranks[k].rank
  {
    seq(|ranks|, k requires 0 <= k < |ranks| => ranks[k].rank)
  }

  /** The map file WriteToFile writes, as numbers. */
  function Written(v: seq<M.JobState>, size: nat): (m: MapFile)
    ensures |m.lines| == |v| && forall j :: 0 <= j < |v| ==> m.lines[j] == MapLine(v[j].modified, j, Ids(v[j].ranks))
  {
    MapFile(size, seq(|v|, j requires 0 <= j < |v| => MapLine(v[j].modified, j, Ids(v[j].ranks))))
  }

  /** The processes of each job, in a world that was never shrunk. */
  function Assignment(v: seq<M.JobState>): (jobs: seq<seq<Pid>>)
    ensures |jobs| == |v|
    ensures forall j :: 0 <= j < |v| ==>
      |jobs[j]| == |v[j].ranks| && forall k :: 0 <= k < |jobs[j]| ==> jobs[j][k] == v[j].ranks[k].rank
  {
    seq(|v|, j requires 0 <= j < |v| => seq(|v[j].ranks|, k requires 0 <= k < |v[j].ranks| => v[j].ranks[k].rank))
  }

  // ---------------------------------------------------------------------------------------------
  // A written map is a partition of the world
  // ---------------------------------------------------------------------------------------------

  lemma {:induction false} OccursAt(ranks: seq<M.Rank>, y: nat, k: nat)
    requires k < |ranks| && ranks[k].rank == y
    ensures M.Occurs(ranks, y) >= 1
  {
    if k < |ranks| - 1 {
      OccursAt(ranks[..|ranks| - 1], y, k);
    }
  }

  lemma {:induction false} OccursTwice(ranks: seq<M.Rank>, y: nat, i: nat, k: nat)
    requires i < k < |ranks| && ranks[i].rank == y == ranks[k].rank
    ensures M.Occurs(ranks, y) >= 2
  {
    if k < |ranks| - 1 {
      OccursTwice(ranks[..|ranks| - 1], y, i, k);
    } else {
      OccursAt(ranks[..k], y, i);
    }
  }

  lemma {:induction false} OccursSomewhere(ranks: seq<M.Rank>, y: nat) returns (k: nat)
    requires M.Occurs(ranks, y) >= 1
    ensures k < |ranks| && ranks[k].rank == y
  {
    if ranks[|ranks| - 1].rank == y {
      k := |ranks| - 1;
    } else {
      k := OccursSomewhere(ranks[..|ranks| - 1], y);
    }
  }

  lemma {:induction false} TotalBounds(v: seq<M.JobState>, y: nat, i: nat, j: nat)
    requires i < |v| && j < |v|
    ensures M.Occurs(v[j].ranks, y) <= M.Total(v, y)
    ensures i != j ==> M.Occurs(v[i].ranks, y) + M.Occurs(v[j].ranks, y) <= M.Total(v, y)
  {
    var front, last := v[..|v| - 1], |v| - 1;
    if i < last && j < last {
      TotalBounds(front, y, i, j);
    } else if j < last {
      TotalBounds(front, y, j, j);
    } else if i < last {
      TotalBounds(front, y, i, i);
    }
  }

  lemma {:induction false} TotalSomewhere(v: seq<M.JobState>, y: nat) returns (j: nat)
    requires M.Total(v, y) >= 1
    ensures j < |v| && M.Occurs(v[j].ranks, y) >= 1
  {
    if M.Occurs(v[|v| - 1].ranks, y) >= 1 {
      j := |v| - 1;
    } else {
      j := TotalSomewhere(v[..|v| - 1], y);
    }
  }

  /** Every job map that holds each rank once is a partition of the world into jobs. */
  lemma CompleteIsPartition(v: seq<M.JobState>, size: nat)
    requires M.AllSmall(v) && M.Complete(v, size)
    ensures Partition(Assignment(v), FirstWorld(size))
    ensures forall j, k :: 0 <= j < |v| && 0 <= k < |v[j].ranks| ==> v[j].ranks[k].rank < size
  {
    var jobs, world := Assignment(v), FirstWorld(size);
    forall j, k | 0 <= j < |v| && 0 <= k < |v[j].ranks| ensures v[j].ranks[k].rank < size {
      OccursAt(v[j].ranks, v[j].ranks[k].rank, k);
      TotalBounds(v, v[j].ranks[k].rank, j, j);
    }
    forall j | 0 <= j < |jobs| ensures jobs[j] != [] && Distinct(jobs[j]) {
      forall i, k | 0 <= i < k < |jobs[j]| ensures jobs[j][i] != jobs[j][k] {
        var y := jobs[j][i];
        if jobs[j][k] == y {
          OccursTwice(v[j].ranks, y, i, k);
          TotalBounds(v, y, j, j);
        }
      }
    }
    forall j, p | 0 <= j < |jobs| && p in jobs[j] ensures p in world && JobOf(jobs, p) == j {
      var k :| 0 <= k < |jobs[j]| && jobs[j][k] == p;
      assert world[p] == p;
      ListedHasOwner(jobs, |jobs|, j, p);
      var o := JobOf(jobs, p);
      var i :| 0 <= i < |jobs[o]| && jobs[o][i] == p;
      if o != j {
        OccursAt(v[j].ranks, p, k);
        OccursAt(v[o].ranks, p, i);
        TotalBounds(v, p, o, j);
      }
    }
    forall p | p in world ensures JobOf(jobs, p) >= 0 {
      var j := TotalSomewhere(v, p);
      var k := OccursSomewhere(v[j].ranks, p);
      assert jobs[j][k] == p;
      ListedHasOwner(jobs, |jobs|, j, p);
    }
  }

  // ---------------------------------------------------------------------------------------------
  // The number of ranks in the first line of the file
  // ---------------------------------------------------------------------------------------------

  /** How often the ranks below m occur, taken together. */
  function OccursBelow(ranks: seq<M.Rank>, m: nat): nat {
    if m == 0 then 0 else OccursBelow(ranks, m - 1) + M.Occurs(ranks, m - 1)
  }

  function TotalBelow(v: seq<M.JobState>, m: nat): nat {
    if m == 0 then 0 else TotalBelow(v, m - 1) + M.Total(v, m - 1)
  }

  lemma {:induction false} OccursBelowStep(ranks: seq<M.Rank>, m: nat)
    requires ranks != []
    ensures OccursBelow(ranks, m)
         == OccursBelow(ranks[..|ranks| - 1], m) + if ranks[|ranks| - 1].rank < m then 1 else 0
  {
    if m > 0 {
      OccursBelowStep(ranks, m - 1);
    }
  }

  lemma {:induction false} EveryRankOccurs(ranks: seq<M.Rank>, m: nat)
    requires forall k :: 0 <= k < |ranks| ==> ranks[k].rank < m
    ensures OccursBelow(ranks, m) == |ranks|
  {
    if ranks == [] {
      NothingOccurs(ranks, m);
    } else {
      OccursBelowStep(ranks, m);
      EveryRankOccurs(ranks[..|ranks| - 1], m);
    }
  }

  lemma {:induction false} NothingOccurs(ranks: seq<M.Rank>, m: nat)
    requires ranks == []
    ensures OccursBelow(ranks, m) == 0
  {
    if m > 0 {
      NothingOccurs(ranks, m - 1);
    }
  }

  lemma {:induction false} TotalBelowStep(v: seq<M.JobState>, m: nat)
    ensures v == [] ==> TotalBelow(v, m) == 0
    ensures v != [] ==> TotalBelow(v, m) == TotalBelow(v[..|v| - 1], m) + OccursBelow(v[|v| - 1].ranks, m)
  {
    if m > 0 {
      TotalBelowStep(v, m - 1);
    }
  }

  lemma {:induction false} CountIsTotal(v: seq<M.JobState>, m: nat)
    requires forall j, k :: 0 <= j < |v| && 0 <= k < |v[j].ranks| ==> v[j].ranks[k].rank < m
    ensures M.CountTotalRanks(v) == TotalBelow(v, m)
  {
    TotalBelowStep(v, m);
    if v != [] {
      EveryRankOccurs(v[|v| - 1].ranks, m);
      CountIsTotal(v[..|v| - 1], m);
    }
  }

  lemma {:induction false} TotalOfComplete(v: seq<M.JobState>, size: nat, m: nat)
    requires M.Complete(v, size) && m <= size
    ensures TotalBelow(v, m) == m
  {
    if m > 0 {
      TotalOfComplete(v, size, m - 1);
    }
  }

  /** The number that is printed first is the number of processes. */
  lemma CountIsSize(v: seq<M.JobState>, size: nat)
    requires M.AllSmall(v) && M.Complete(v, size)
    ensures M.CountTotalRanks(v) == size
  {
    CompleteIsPartition(v, size);
    CountIsTotal(v, size);
    TotalOfComplete(v, size, size);
  }

  /** The map that is written describes that partition. */
  lemma WrittenIsMap(v: seq<M.JobState>, size: nat)
    requires M.AllSmall(v) && M.Complete(v, size)
    ensures InRange(RanksOf(Written(v, size)), size)
    ensures JobPids(RanksOf(Written(v, size)), FirstWorld(size)) == Assignment(v)
    ensures MapOf(Written(v, size), FirstWorld(size), Assignment(v))
  {
    CompleteIsPartition(v, size);
    var m, world := Written(v, size), FirstWorld(size);
    forall j | 0 <= j < |v|
      ensures Within(RanksOf(m)[j], size) && Pids(RanksOf(m)[j], world) == Assignment(v)[j]
    {
      assert RanksOf(m)[j] == Ids(v[j].ranks);
    }
  }

  // ---------------------------------------------------------------------------------------------
  // Versions
  // ---------------------------------------------------------------------------------------------

  /** The job map the next round starts from: the marks are reset, stack addresses may have been entered. */
  ghost predicate Prepared(v: seq<M.JobState>, b: seq<M.JobState>) {
    |b| == |v| && forall j :: 0 <= j < |v| ==> b[j].modified == 0 && Ids(b[j].ranks) == Ids(v[j].ranks)
  }

  lemma ResetIsPrepared(v: seq<M.JobState>, mappings: map<nat, nat>)
    ensures Prepared(v, M.Reset(v)) && Prepared(v, M.Readdressed(M.Reset(v), mappings))
  {
    forall j | 0 <= j < |v| ensures Ids(M.Readdressed(M.Reset(v), mappings)[j].ranks) == Ids(v[j].ranks) {
    }
  }

  /** One version of the map after another. */
  ghost predicate NextVersion(v: seq<M.JobState>, w: seq<M.JobState>) {
    exists b :: Prepared(v, b) && M.Round(b, w)
  }

  ghost predicate Versions(vs: seq<seq<M.JobState>>, jobs: nat, size: nat) {
    && 0 < jobs <= size <= 2 * jobs && vs != []
    && M.Round(M.Initial(jobs, size), vs[0])
    && forall i {:trigger vs[i]} :: 0 < i < |vs| ==> NextVersion(vs[i - 1], vs[i])
  }

  lemma {:induction false} SameIdsOccur(a: seq<M.Rank>, b: seq<M.Rank>, y: nat)
    requires Ids(a) == Ids(b)
    ensures M.Occurs(a, y) == M.Occurs(b, y)
  {
    assert |a| == |Ids(a)| == |Ids(b)| == |b|;
    if a != [] {
      var n := |a| - 1;
      assert Ids(a[..n]) == Ids(a)[..n] == Ids(b)[..n] == Ids(b[..n]);
      assert a[n].rank == Ids(a)[n] == Ids(b)[n] == b[n].rank;
      SameIdsOccur(a[..n], b[..n], y);
    }
  }

  lemma {:induction false} SameIdsTotal(v: seq<M.JobState>, b: seq<M.JobState>, y: nat)
    requires |v| == |b| && forall j :: 0 <= j < |v| ==> Ids(b[j].ranks) == Ids(v[j].ranks)
    ensures M.Total(v, y) == M.Total(b, y)
  {
    if v != [] {
      var n := |v| - 1;
      SameIdsOccur(v[n].ranks, b[n].ranks, y);
      SameIdsTotal(v[..n], b[..n], y);
    }
  }

  lemma NextIsComplete(v: seq<M.JobState>, w: seq<M.JobState>, size: nat)
    requires NextVersion(v, w) && M.Complete(v, size)
    ensures |w| == |v| && M.AllSmall(w) && M.Complete(w, size)
  {
    var b: seq<M.JobState> :| Prepared(v, b) && M.Round(b, w);
    forall y: nat ensures M.Total(w, y) == if y < size then 1 else 0 {
      SameIdsTotal(v, b, y);
    }
  }

  /** No version ever loses or duplicates a rank, and each job always has one or two. */
  lemma {:induction false} EveryVersionIsComplete(vs: seq<seq<M.JobState>>, jobs: nat, size: nat, i: nat)
    requires Versions(vs, jobs, size) && i < |vs|
    ensures |vs[i]| == jobs && M.AllSmall(vs[i]) && M.Complete(vs[i], size)
  {
    if i == 0 {
      M.InitialIsComplete(jobs, size);
    } else {
      EveryVersionIsComplete(vs, jobs, size, i - 1);
      assert NextVersion(vs[i - 1], vs[i]);
      NextIsComplete(vs[i - 1], vs[i], size);
    }
  }

  /** A job that is not marked has the list last written; in a marked one the first rank was there before. */
  lemma MarksAreHonest(v: seq<M.JobState>, w: seq<M.JobState>, j: nat)
    requires NextVersion(v, w) && j < |v|
    ensures |w| == |v| && w[j].ranks != []
    ensures w[j].modified == 0 || w[j].modified == 1
    ensures w[j].modified == 0 ==> Assignment(w)[j] == Assignment(v)[j]
    ensures Assignment(w)[j][0] in Assignment(v)[j]
  {
    var b: seq<M.JobState> :| Prepared(v, b) && M.Round(b, w);
    assert M.Follows(b[j], w[j]) && Ids(b[j].ranks) == Ids(v[j].ranks);
    assert |b[j].ranks| == |Ids(b[j].ranks)| == |v[j].ranks|;
    forall k | 0 <= k < |b[j].ranks| ensures b[j].ranks[k].rank == Assignment(v)[j][k] {
      assert Ids(b[j].ranks)[k] == Ids(v[j].ranks)[k];
    }
    var k :| 0 <= k < |b[j].ranks| && b[j].ranks[k] == w[j].ranks[0];
    assert Assignment(v)[j][k] == w[j].ranks[0].rank;
  }

  /** The update bits say enough: whoever moves finds its new job marked, and new heads come from within. */
  lemma BitsSayEnough(v: seq<M.JobState>, w: seq<M.JobState>, size: nat, p: Pid)
    requires NextVersion(v, w) && M.AllSmall(v) && M.Complete(v, size) && p in FirstWorld(size)
    ensures HeadsStay(Written(w, size), Assignment(v), Assignment(w))
    ensures InRange(RanksOf(Written(w, size)), size)
    ensures Tells(Written(w, size), FirstWorld(size), p, JobOf(Assignment(v), p))
  {
    NextIsComplete(v, w, size);
    WrittenIsMap(w, size);
    CompleteIsPartition(v, size);
    forall j | 0 <= j < |w| ensures Assignment(w)[j] != [] && Assignment(w)[j][0] in Assignment(v)[j] {
      MarksAreHonest(v, w, j);
    }
    var j := JobOf(Assignment(w), p);
    MarksAreHonest(v, w, j);
  }

  // ---------------------------------------------------------------------------------------------
  // Runs of the processes
  // ---------------------------------------------------------------------------------------------

  lemma WrittenIsUsable(v: seq<M.JobState>, size: nat, n: Node)
    requires M.AllSmall(v) && M.Complete(v, size) && |n.rank2job| >= size
    ensures Usable(Written(v, size), n)
  {
    WrittenIsMap(v, size);
    forall j | 0 <= j < |v| ensures Within(Ids(v[j].ranks), |n.rank2job|) && Ids(v[j].ranks) != [] {
      assert RanksOf(Written(v, size))[j] == Ids(v[j].ranks);
    }
  }

  /** Every process parses the map m. */
  ghost predicate Parses(s: State, m: MapFile, t: State) {
    && t.world == s.world && t.live == s.live
    && forall p :: p in s.world ==>
      p in s.nodes && p in t.nodes && (Usable(m, s.nodes[p]) ==> t.nodes[p] == Parsed(s.nodes[p], m))
  }

  /** init_node with the first version. */
  ghost predicate Starts(s: State, m: MapFile, size: nat, table: seq<int>) {
    && s.world == FirstWorld(size) && |table| == size && (forall p :: p in s.live ==> p in s.world)
    && forall p :: p in s.world ==>
         p in s.nodes && (Usable(m, Blank(p, size, table)) ==> s.nodes[p] == InitNode(p, size, table, m))
  }

  /** The processes parse every version, one after the other, and nobody shrinks the world in between. */
  ghost predicate RemapRun(vs: seq<seq<M.JobState>>, states: seq<State>, jobs: nat, size: nat, table: seq<int>) {
    && Versions(vs, jobs, size) && |states| == |vs|
    && Starts(states[0], Written(vs[0], size), size, table)
    && forall i {:trigger states[i]} :: 0 < i < |vs| ==> Parses(states[i - 1], Written(vs[i], size), states[i])
  }

  lemma ParsingMoves(s: State, v: seq<M.JobState>, w: seq<M.JobState>, t: State, size: nat)
    requires Inv(s, Assignment(v)) && s.world == FirstWorld(size)
    requires M.AllSmall(v) && M.Complete(v, size) && NextVersion(v, w) && Parses(s, Written(w, size), t)
    ensures Moves(s, Remap(Written(w, size)), t)
  {
    var m := Written(w, size);
    NextIsComplete(v, w, size);
    WrittenIsMap(w, size);
    forall p | p in s.world
      ensures Tells(m, s.world, p, s.nodes[p].jobId) && Usable(m, s.nodes[p]) && t.nodes[p] == Parsed(s.nodes[p], m)
    {
      assert Knows(s.nodes[p], p, s, Assignment(v));
      BitsSayEnough(v, w, size, p);
      WrittenIsUsable(w, size, s.nodes[p]);
    }
  }

  /** After every version, every process knows the jobs of that version. */
  lemma {:induction false} EveryVersionIsKnown(vs: seq<seq<M.JobState>>, states: seq<State>, jobs: nat, size: nat,
                                               table: seq<int>, k: nat)
    requires RemapRun(vs, states, jobs, size, table) && k < |vs|
    ensures Inv(states[k], Assignment(vs[k])) && states[k].world == FirstWorld(size)
    ensures k > 0 ==> Moves(states[k - 1], Remap(Written(vs[k], size)), states[k])
  {
    EveryVersionIsComplete(vs, jobs, size, k);
    if k == 0 {
      assert forall j :: 0 <= j < jobs ==> M.Follows(M.Initial(jobs, size)[j], vs[0][j]);
      FirstVersionIsKnown(vs[0], states[0], size, table);
    } else {
      EveryVersionIsComplete(vs, jobs, size, k - 1);
      EveryVersionIsKnown(vs, states, jobs, size, table, k - 1);
      assert NextVersion(vs[k - 1], vs[k]) && Parses(states[k - 1], Written(vs[k], size), states[k]);
      ParsingMoves(states[k - 1], vs[k - 1], vs[k], states[k], size);
      WrittenIsMap(vs[k], size);
      RemapKeepsInv(states[k - 1], Remap(Written(vs[k], size)), states[k], Assignment(vs[k - 1]));
    }
  }

  lemma FirstVersionIsKnown(v: seq<M.JobState>, s: State, size: nat, table: seq<int>)
    requires M.AllSmall(v) && M.Complete(v, size) && Starts(s, Written(v, size), size, table)
    requires forall j :: 0 <= j < |v| ==> v[j].modified == 1
    ensures Inv(s, Assignment(v))
  {
    WrittenIsMap(v, size);
    forall p | p in s.world ensures Usable(Written(v, size), Blank(p, size, table)) {
      WrittenIsUsable(v, size, Blank(p, size, table));
    }
    InitEstablishesInv(s, Written(v, size), size, Assignment(v), table);
  }

  /**
   * After every later version, in every job: a receiver meets one
   * sender, at rank 0, who leads the job and was in it before.
   */
  lemma EveryHandshakeFits(vs: seq<seq<M.JobState>>, states: seq<State>, jobs: nat, size: nat, table: seq<int>, k: nat,
                           j: nat)
    requires RemapRun(vs, states, jobs, size, table) && 0 < k < |vs| && j < jobs
    ensures |vs[k - 1]| == |vs[k]| == jobs
    ensures Populated(states[k])
    ensures Handshake(states[k], MigrationComm(states[k], j), Assignment(vs[k - 1])[j], Assignment(vs[k])[j])
    ensures forall q :: q in Assignment(vs[k])[j] && q !in Assignment(vs[k - 1])[j] ==> q in MigrationComm(states[k], j)
  {
    EveryVersionIsKnown(vs, states, jobs, size, table, k - 1);
    EveryVersionIsKnown(vs, states, jobs, size, table, k);
    EveryVersionIsComplete(vs, jobs, size, k - 1);
    EveryVersionIsComplete(vs, jobs, size, k);
    WrittenIsMap(vs[k], size);
    assert 0 in FirstWorld(size) by {
      assert FirstWorld(size)[0] == 0;
    }
    assert NextVersion(vs[k - 1], vs[k]);
    BitsSayEnough(vs[k - 1], vs[k], size, 0);
    HandshakeFits(states[k - 1], Written(vs[k], size), states[k], Assignment(vs[k - 1]), Assignment(vs[k]), j);
  }
}
