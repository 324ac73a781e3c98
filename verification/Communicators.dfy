/**
 * update_comms and create_migration_comm in src/mpi/comm.c: the communicators that every process splits off on its own.
 */
module Communicators {
  import opened Mpi
  import opened NodeState
  import opened Comm
  import opened Recovery

  /** The members of the world that pass a colour, in world order. */
  function Keep(world: seq<Pid>, chosen: set<Pid>): (s: seq<Pid>)
    ensures forall p :: p in s <==> p in world && p in chosen
  {
    Shrink(world, set p | p in world && p !in chosen)
  }

  ghost predicate Populated(s: State) {
    forall p :: p in s.world ==> p in s.nodes
  }

  function Masters(s: State): set<Pid>
    requires Populated(s)
  {
    set p | p in s.world && s.nodes[p].master
  }

  function Members(s: State, j: int): set<Pid>
    requires Populated(s)
  {
    set p | p in s.world && s.nodes[p].jobId == j
  }

  /** Only the masters pass a colour; the key is the job id. */
  function ActiveComm(s: State): seq<Pid>
    requires Populated(s)
  {
    SplitOrder(Keep(s.world, Masters(s)), map p | p in s.world :: s.nodes[p].jobId)
  }

  /** The colour is the job id; the key puts the master first. */
  function WorldJobComm(s: State, j: int): seq<Pid>
    requires Populated(s)
  {
    SplitOrder(Keep(s.world, Members(s, j)), map p | p in s.world :: if s.nodes[p].master then 0 else 1)
  }

  /** The colour is the job id of a process in transit; the key puts senders first. */
  function MigrationComm(s: State, j: int): seq<Pid>
    requires Populated(s)
  {
    SplitOrder(Keep(s.world, set p | p in Members(s, j) && s.nodes[p].transit != NodeDataNone),
               map p | p in s.world :: if s.nodes[p].transit == NodeDataSender then 0 else 1)
  }

  // ---------------------------------------------------------------------------------------------
  // Order facts
  // ---------------------------------------------------------------------------------------------

  lemma {:induction false} CountOfDistinct<T>(s: seq<T>, x: T)
    requires Distinct(s)
    ensures multiset(s)[x] <= 1
  {
    if s != [] {
      var front, last := s[..|s| - 1], s[|s| - 1];
      assert s == front + [last];
      CountOfDistinct(front, x);
      assert last !in front;
    }
  }

  lemma DistinctByElements<T>(a: seq<T>, b: seq<T>)
    requires multiset(a) == multiset(b) && Distinct(a)
    ensures Distinct(b)
  {
    forall i, j | 0 <= i < j < |b| ensures b[i] != b[j] {
      assert b == b[..j] + b[j..];
      assert b[i] in multiset(b[..j]) by {
        assert b[..j][i] == b[i];
      }
      assert b[j] in multiset(b[j..]) by {
        assert b[j..][0] == b[j];
      }
      CountOfDistinct(a, b[i]);
    }
  }

  lemma SplitFacts(world: seq<Pid>, chosen: set<Pid>, key: map<Pid, int>)
    requires Distinct(world) && forall p :: p in world ==> p in key
    ensures var r := SplitOrder(Keep(world, chosen), key);
            && Distinct(r) && (forall p :: p in r <==> p in world && p in chosen)
            && (forall p :: p in r ==> p in key) && SortedBy(r, key)
  {
    var members := Keep(world, chosen);
    ShrinkIsDistinct(world, set p | p in world && p !in chosen);
    SameElements(SplitOrder(members, key), members);
    SplitIsSorted(members, key);
    DistinctByElements(members, SplitOrder(members, key));
  }

  /** An increasing sequence that contains exactly the numbers below n is 0, 1, 2 and so on. */
  lemma {:induction false} Counting(ks: seq<int>, n: nat, i: nat)
    requires forall a, b :: 0 <= a < b < |ks| ==> ks[a] < ks[b]
    requires forall a :: 0 <= a < |ks| ==> 0 <= ks[a] < n
    requires forall k :: 0 <= k < n ==> k in ks
    requires i <= |ks|
    ensures forall a :: 0 <= a < i ==> ks[a] == a
    ensures i == |ks| ==> |ks| == n
  {
    if i > 0 {
      Counting(ks, n, i - 1);
      assert ks[i - 1] >= i - 1 by {
        if i > 1 {
          assert ks[i - 2] < ks[i - 1];
        }
      }
      assert i - 1 in ks;
      var b :| 0 <= b < |ks| && ks[b] == i - 1;
      assert b >= i - 1;
    }
    assert i < n ==> i in ks;
  }

  // ---------------------------------------------------------------------------------------------
  // update_comms
  // ---------------------------------------------------------------------------------------------

  lemma MastersAreHeads(s: State, jobs: seq<seq<Pid>>, p: Pid)
    requires Inv(s, jobs) && p in s.world
    ensures 0 <= s.nodes[p].jobId < |jobs| && p in jobs[s.nodes[p].jobId]
    ensures s.nodes[p].master <==> p == jobs[s.nodes[p].jobId][0]
  {
    assert Knows(s.nodes[p], p, s, jobs);
  }

  lemma HeadsAreMasters(s: State, jobs: seq<seq<Pid>>, j: nat)
    requires Inv(s, jobs) && j < |jobs|
    ensures jobs[j] != [] && jobs[j][0] in s.world
    ensures s.nodes[jobs[j][0]].master && s.nodes[jobs[j][0]].jobId == j
  {
    var h := jobs[j][0];
    assert h in jobs[j];
    assert Knows(s.nodes[h], h, s, jobs);
  }

  /** active_comm has one member per job, and its rank i is the head of job i. */
  lemma ActiveCommNamesJobs(s: State, jobs: seq<seq<Pid>>)
    requires Inv(s, jobs)
    ensures |ActiveComm(s)| == |jobs|
    ensures forall i :: 0 <= i < |jobs| ==> jobs[i] != [] && ActiveComm(s)[i] == jobs[i][0]
  {
    var key := map p | p in s.world :: s.nodes[p].jobId;
    var r := ActiveComm(s);
    SplitFacts(s.world, Masters(s), key);
    forall a | 0 <= a < |r| ensures 0 <= key[r[a]] < |jobs| && jobs[key[r[a]]] != [] && r[a] == jobs[key[r[a]]][0] {
      assert r[a] in r;
      MastersAreHeads(s, jobs, r[a]);
    }
    forall k | 0 <= k < |jobs| ensures jobs[k] != [] && jobs[k][0] in r && key[jobs[k][0]] == k {
      HeadsAreMasters(s, jobs, k);
    }
    OneOfEachKey(r, key, jobs);
  }

  lemma OneOfEachKey(r: seq<Pid>, key: map<Pid, int>, jobs: seq<seq<Pid>>)
    requires Distinct(r) && (forall p :: p in r ==> p in key) && SortedBy(r, key)
    requires forall a :: 0 <= a < |r| ==> 0 <= key[r[a]] < |jobs| && jobs[key[r[a]]] != [] && r[a] == jobs[key[r[a]]][0]
    requires forall k :: 0 <= k < |jobs| ==> jobs[k] != [] && jobs[k][0] in r && key[jobs[k][0]] == k
    ensures |r| == |jobs| && forall i :: 0 <= i < |r| ==> r[i] == jobs[i][0]
  {
    var ks := seq(|r|, a requires 0 <= a < |r| => key[r[a]]);
    forall a, b | 0 <= a < b < |ks| ensures ks[a] < ks[b] {
      assert key[r[a]] <= key[r[b]] && r[a] != r[b];
    }
    forall k | 0 <= k < |jobs| ensures k in ks {
      assert jobs[k][0] in r;
      var a :| 0 <= a < |r| && r[a] == jobs[k][0];
      assert ks[a] == k;
    }
    Counting(ks, |jobs|, |r|);
    assert forall i :: 0 <= i < |r| ==> key[r[i]] == ks[i];
  }

  /** Rank 0 of each world_job_comm is the head of the job; the other workers follow in world order. */
  lemma WorldJobCommHasHeadFirst(s: State, jobs: seq<seq<Pid>>, j: nat)
    requires Inv(s, jobs) && j < |jobs|
    ensures jobs[j] != []
    ensures WorldJobComm(s, j) == [jobs[j][0]] + Keep(s.world, (set p | p in jobs[j]) - {jobs[j][0]})
  {
    HeadsAreMasters(s, jobs, j);
    var h := jobs[j][0];
    var key := map p | p in s.world :: if s.nodes[p].master then 0 else 1;
    var r, members := WorldJobComm(s, j), Keep(s.world, Members(s, j));
    SplitFacts(s.world, Members(s, j), key);
    forall p | p in s.world ensures p in Members(s, j) <==> p in jobs[j] {
      MastersAreHeads(s, jobs, p);
      assert Knows(s.nodes[p], p, s, jobs);
    }
    forall p | p in r ensures key[p] == 0 <==> p == h {
      MastersAreHeads(s, jobs, p);
    }
    FirstByKey(r, key, h);
    SplitIsStable(members, key, 1);
    SelectRest(s.world, members, Members(s, j), key, h, set p | p in jobs[j]);
  }

  /** When only h has key 0 and all others have key 1, the sorted sequence is h followed by the others. */
  lemma FirstByKey(r: seq<Pid>, key: map<Pid, int>, h: Pid)
    requires Distinct(r) && h in r && (forall p :: p in r ==> p in key) && SortedBy(r, key)
    requires forall p :: p in r ==> (key[p] == if p == h then 0 else 1)
    ensures r == [h] + Shrink(r, OtherKeys(key, 1))
  {
    var m :| 0 <= m < |r| && r[m] == h;
    assert r[0] in r && r[m] in r;
    assert m == 0;
    HeadTaken(r, OtherKeys(key, 1));
  }

  lemma HeadTaken(r: seq<Pid>, out: set<Pid>)
    requires r != [] && r[0] in out && forall i :: 1 <= i < |r| ==> r[i] !in out
    ensures r == [r[0]] + Shrink(r, out)
  {
    assert r == [r[0]] + r[1..];
    HeadBefore(r[0], r[1..], out);
  }

  lemma HeadBefore(h: Pid, rest: seq<Pid>, out: set<Pid>)
    requires h in out && forall i :: 0 <= i < |rest| ==> rest[i] !in out
    ensures Shrink([h] + rest, out) == rest
  {
    ShrinkOfConcat([h], rest, out);
    ShrinkByNone(rest, out);
    AloneTaken(h, out);
  }

  lemma AloneTaken(h: Pid, out: set<Pid>)
    requires h in out
    ensures Shrink([h], out) == []
  {
    assert [h][..0] == [];
  }

  lemma SelectRest(world: seq<Pid>, members: seq<Pid>, chosen: set<Pid>, key: map<Pid, int>, h: Pid, job: set<Pid>)
    requires members == Keep(world, chosen) && forall p :: p in world ==> p in key
    requires forall p :: p in world ==> (p in chosen <==> p in job)
    requires forall p :: p in members ==> (key[p] == if p == h then 0 else 1)
    ensures Shrink(members, OtherKeys(key, 1)) == Keep(world, job - {h})
  {
    var out := set p | p in world && p !in chosen;
    ShrinkTwice(world, out, OtherKeys(key, 1));
    SameShrink(world, out + OtherKeys(key, 1), set p | p in world && p !in job - {h});
  }

  lemma {:induction false} SameShrink(comm: seq<Pid>, a: set<Pid>, b: set<Pid>)
    requires forall p :: p in comm ==> (p in a <==> p in b)
    ensures Shrink(comm, a) == Shrink(comm, b)
  {
    if comm != [] {
      assert comm == comm[..|comm| - 1] + [comm[|comm| - 1]];
      SameShrink(comm[..|comm| - 1], a, b);
    }
  }

  // ---------------------------------------------------------------------------------------------
  // create_migration_comm
  // ---------------------------------------------------------------------------------------------

  /** When a map marks a job, its new head was in that job already. */
  ghost predicate HeadsStay(m: MapFile, before: seq<seq<Pid>>, after: seq<seq<Pid>>) {
    && |m.lines| == |before| == |after|
    && forall j :: 0 <= j < |after| && m.lines[j].updateBit == 1 ==> after[j] != [] && after[j][0] in before[j]
  }

  /** The decision each process takes alone while parsing, in terms of the two partitions. */
  lemma TransitAfterParse(s: State, m: MapFile, t: State, before: seq<seq<Pid>>, p: Pid)
    requires Inv(s, before) && Moves(s, Remap(m), t) && p in s.world
    ensures var after := JobPids(RanksOf(m), s.world);
            var j := JobOf(after, p);
            && p in t.nodes && 0 <= j < |after| && |after| == |m.lines|
            && t.nodes[p].jobId == j
            && t.nodes[p].transit == TransitOf(m, j, p == after[j][0], JobOf(before, p))
  {
    var after := JobPids(RanksOf(m), s.world);
    assert Knows(s.nodes[p], p, s, before);
    ParsedKnows(s.nodes[p], p, s, after, m);
  }

  function MigrationMembers(s: State, j: int): set<Pid> {
    set p | p in s.world && p in s.nodes && s.nodes[p].jobId == j && s.nodes[p].transit != NodeDataNone
  }

  /** p's role in the migration communicator of job j: `was` are the workers before the map, `now` those after it. */
  ghost predicate HasRole(t: State, j: int, marked: bool, was: seq<Pid>, now: seq<Pid>, p: Pid)
    requires now != []
  {
    && p in t.nodes
    && (p in MigrationMembers(t, j) <==> p in now && marked && (p !in was || (p == now[0] && |now| > 1)))
    && (p in MigrationMembers(t, j) ==>
          && (t.nodes[p].transit == NodeDataSender <==> p in was)
          && (t.nodes[p].transit == NodeDataReceiver <==> p !in was)
          && (p in was ==> p == now[0]))
  }

  lemma MigrationRole(s: State, m: MapFile, t: State, before: seq<seq<Pid>>, after: seq<seq<Pid>>, j: nat, p: Pid)
    requires Inv(s, before) && Moves(s, Remap(m), t) && p in s.world
    requires after == JobPids(RanksOf(m), s.world) && HeadsStay(m, before, after) && j < |after| && after[j] != []
    ensures HasRole(t, j, m.lines[j].updateBit == 1, before[j], after[j], p)
  {
    TransitAfterParse(s, m, t, before, p);
    assert Knows(s.nodes[p], p, s, before);
    assert |m.lines[j].ranks| == |after[j]| by {
      assert after[j] == Pids(RanksOf(m)[j], s.world);
    }
    assert p in after[j] <==> JobOf(after, p) == j;
    assert p in before[j] <==> JobOf(before, p) == j;
  }

  /**
   * A receiver meets exactly one sender, at rank 0, who was in the job already and leads it; all others receive too.
   */
  ghost predicate Handshake(t: State, comm: seq<Pid>, was: seq<Pid>, now: seq<Pid>) {
    && (forall i :: 0 <= i < |comm| ==> comm[i] in t.nodes && comm[i] in now)
    && forall i :: 0 <= i < |comm| && t.nodes[comm[i]].transit == NodeDataReceiver ==>
         && comm[0] in was && now != [] && comm[0] == now[0]
         && t.nodes[comm[0]].transit == NodeDataSender
         && forall k :: 1 <= k < |comm| ==> comm[k] !in was && t.nodes[comm[k]].transit == NodeDataReceiver
  }

  /** The roles, without the communicator: its members, in an order that puts senders first. */
  lemma RolesFitIn(t: State, j: int, marked: bool, was: seq<Pid>, now: seq<Pid>, comm: seq<Pid>)
    requires now != [] && Distinct(comm)
             && (forall i :: 0 <= i < |comm| ==>
               HasRole(t, j, marked, was, now, comm[i]) && comm[i] in MigrationMembers(t, j))
    requires HasRole(t, j, marked, was, now, now[0]) && (now[0] in MigrationMembers(t, j) ==> now[0] in comm)
    requires marked ==> now[0] in was
    requires forall i, k :: 0 <= i < k < |comm| && t.nodes[comm[k]].transit == NodeDataSender ==>
      t.nodes[comm[i]].transit == NodeDataSender
    ensures Handshake(t, comm, was, now)
  {
    if i :| 0 <= i < |comm| && t.nodes[comm[i]].transit == NodeDataReceiver {
      OtherMember(now, comm[i]);
      var k :| 0 <= k < |comm| && comm[k] == now[0];
      assert t.nodes[comm[k]].transit == NodeDataSender;
      assert t.nodes[comm[0]].transit == NodeDataSender;
    }
  }

  lemma SendersComeFirst(t: State, comm: seq<Pid>, key: map<Pid, int>)
    requires (forall p :: p in comm ==> p in key && p in t.nodes) && SortedBy(comm, key)
    requires forall p :: p in comm ==> (key[p] == if t.nodes[p].transit == NodeDataSender then 0 else 1)
    ensures forall i, k :: 0 <= i < k < |comm| && t.nodes[comm[k]].transit == NodeDataSender ==>
      t.nodes[comm[i]].transit == NodeDataSender
  {
    forall i, k | 0 <= i < k < |comm| && t.nodes[comm[k]].transit == NodeDataSender
      ensures t.nodes[comm[i]].transit == NodeDataSender
    {
      assert comm[i] in comm && comm[k] in comm && key[comm[i]] <= key[comm[k]];
    }
  }

  lemma RolesFit(t: State, j: int, marked: bool, was: seq<Pid>, now: seq<Pid>)
    requires Distinct(t.world) && now != [] && now[0] in t.world && Distinct(now)
    requires marked ==> now[0] in was
    requires forall p :: p in t.world ==> HasRole(t, j, marked, was, now, p)
    ensures Populated(t) && Handshake(t, MigrationComm(t, j), was, now)
    ensures forall p :: p in t.world ==> (p in MigrationComm(t, j) <==> p in MigrationMembers(t, j))
  {
    assert forall p :: p in t.world ==> HasRole(t, j, marked, was, now, p) && p in t.nodes;
    var key := map p | p in t.world :: if t.nodes[p].transit == NodeDataSender then 0 else 1;
    var members := set p | p in Members(t, j) && t.nodes[p].transit != NodeDataNone;
    assert members == MigrationMembers(t, j);
    SplitFacts(t.world, members, key);
    var comm := MigrationComm(t, j);
    forall i | 0 <= i < |comm| ensures HasRole(t, j, marked, was, now, comm[i]) && comm[i] in MigrationMembers(t, j) {
      assert comm[i] in comm;
    }
    SendersComeFirst(t, comm, key);
    RolesFitIn(t, j, marked, was, now, comm);
  }

  lemma OtherMember(list: seq<Pid>, p: Pid)
    requires list != [] && p in list && p != list[0]
    ensures |list| > 1
  {
  }

  /** The decisions fit together in every job, and everybody who is new in a job takes part in its migration. */
  lemma HandshakeFits(s: State, m: MapFile, t: State, before: seq<seq<Pid>>, after: seq<seq<Pid>>, j: nat)
    requires Inv(s, before) && Moves(s, Remap(m), t)
    requires after == JobPids(RanksOf(m), s.world) && HeadsStay(m, before, after) && j < |after|
    ensures Populated(t)
    ensures Handshake(t, MigrationComm(t, j), before[j], after[j])
    ensures forall q :: q in after[j] && q !in before[j] ==> q in MigrationComm(t, j)
  {
    assert after[j] != [] && Distinct(after[j]) && after[j][0] in after[j];
    var marked := m.lines[j].updateBit == 1;
    forall p | p in t.world ensures HasRole(t, j, marked, before[j], after[j], p) {
      MigrationRole(s, m, t, before, after, j, p);
    }
    RolesFit(t, j, marked, before[j], after[j]);
    forall q | q in after[j] && q !in before[j] ensures q in MigrationComm(t, j) {
      NewcomerIsMarked(s, m, t, before, after, j, q);
      assert HasRole(t, j, marked, before[j], after[j], q);
    }
  }

  /** A process that is new in job j finds the update bit of that job set. */
  lemma NewcomerIsMarked(s: State, m: MapFile, t: State, before: seq<seq<Pid>>, after: seq<seq<Pid>>, j: nat, q: Pid)
    requires Inv(s, before) && Moves(s, Remap(m), t)
    requires after == JobPids(RanksOf(m), s.world) && |before| == |after| && j < |after|
    requires q in after[j] && q !in before[j]
    ensures m.lines[j].updateBit == 1 && q in s.world
  {
    assert q in s.world && JobOf(after, q) == j;
    assert Knows(s.nodes[q], q, s, before);
    assert Tells(m, s.world, q, s.nodes[q].jobId);
  }
}
