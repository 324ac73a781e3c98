/**
 * The loops that read a replication map: parse_map_file of src/mpi/comm.c and initReplicationMap of the fault injector.
 */
module Parse {
  import opened NodeState
  import opened Text
  import opened Ulfm
  import opened Comm
  import opened MapFiles

  /** Apart from the job list, the process is in the state n. */
  ghost predicate Fields(p: Process, n: Node)
    reads p, p.rank2job, p.ignored
  {
    && p.rank2job[..] == n.rank2job && p.ignored[..] == n.ignored
    && p.jobId == n.jobId && p.rank == n.rank && p.staticRank == n.staticRank
    && p.age == n.age && p.transit == n.transit && p.master == n.master
  }

  /** The body of the innermost loop: the rank w was read at position j of a line. */
  method NoteRank(p: Process, updateBit: int, jId: int, wC: nat, j: nat, w: int, ghost n: Node, ghost line: MapLine)
    requires Fields(p, n) && j < |line.ranks| == wC && line.updateBit == updateBit && line.jobId == jId
             && line.ranks[j] == w
    requires 0 <= w < p.rank2job.Length
    modifies p`master, p`age, p`jobId, p`transit, p.rank2job
    ensures Fields(p, ReadRank(n, line, j))
  {
    p.rank2job[w] := jId;
    if j == 0 && w == p.rank {
      p.master := true;
    }
    if w == p.rank && updateBit == 1 {
      if p.jobId != jId {
        p.age := 1;
        p.jobId := jId;
        p.transit := NodeDataReceiver;
      } else {
        p.age := p.age + 1;
        if j == 0 && wC > 1 {
          p.transit := NodeDataSender;
        } else {
          p.transit := NodeDataNone;
        }
      }
    }
  }

  lemma RestOfRanks(t: string, k: nat, r: Scanned<seq<int>>)
    requires k > 0 && ScanRanks(t, k) == Some(r)
    ensures ScanInt(t).Some? && ScanInt(t).value.value == r.value[0]
    ensures ScanRanks(ScanInt(t).value.rest, k - 1) == Some(Scanned(r.value[1..], r.rest))
  {
  }

  /** One round of the outer loop, behind the three numbers at the head of the line. */
  method ReadWorkers(p: Process, updateBit: int, jId: int, wC: nat, t0: string, ghost n: Node, ghost line: MapLine,
                     ghost rest: string)
    returns (job: Job, t: string)
    requires Fields(p, n)
    requires ScanRanks(t0, wC) == Some(Scanned(line.ranks, rest)) && line.updateBit == updateBit && line.jobId == jId
    requires Within(line.ranks, p.rank2job.Length)
    modifies p`master, p`age, p`jobId, p`transit, p.rank2job
    ensures Fields(p, ReadRanks(n, line, |line.ranks|)) && t == rest
    ensures fresh(job) && fresh(job.rankList) && job.Holds(line.ranks)
  {
    var list := new int[wC];
    t := t0;
    for j := 0 to wC
      invariant ScanRanks(t, wC - j) == Some(Scanned(line.ranks[j..], rest))
      invariant Fields(p, ReadRanks(n, line, j))
      invariant forall k :: 0 <= k < j ==> list[k] == line.ranks[k]
    {
      RestOfRanks(t, wC - j, Scanned(line.ranks[j..], rest));
      var s := ScanInt(t).value;
      NoteRank(p, updateBit, jId, wC, j, s.value, ReadRanks(n, line, j), line);
      list[j] := s.value;
      t := s.rest;
    }
    job := new Job(list);
  }

  lemma RestOfLines(t: string, jobs: int, k: nat, ls: seq<MapLine>)
    requires k > 0 && ScanLines(t, jobs, k) == Some(ls)
    ensures ScanHead(t, jobs).Some? && ls != []
    ensures var h := ScanHead(t, jobs).value;
            && h.value.0 == ls[0].updateBit && h.value.1 == ls[0].jobId && h.value.2 == |ls[0].ranks|
            && ScanRanks(h.rest, h.value.2).Some?
            && var r := ScanRanks(h.rest, h.value.2).value;
               r.value == ls[0].ranks && ScanLines(r.rest, jobs, k - 1) == Some(ls[1..])
  {
  }

  // Job structures that hold the given lists; `mine` contains them and their arrays.
  ghost predicate Built(list: seq<Job>, lists: seq<seq<int>>, mine: set<object>)
    reads mine
  {
    && |list| == |lists|
    && (forall k :: 0 <= k < |list| ==> list[k] in mine && list[k].rankList in mine && list[k].Holds(lists[k]))
    && (forall i, k :: 0 <= i < k < |list| ==> list[i] != list[k] && list[i].rankList != list[k].rankList)
  }

  /** The malloc of the job list. */
  method AllocateJobs(count: nat) returns (list: seq<Job>, ghost mine: set<object>)
    ensures Built(list, seq(count, _ => []), mine) && fresh(mine)
  {
    list, mine := [], {};
    for i := 0 to count
      invariant Built(list, seq(i, _ => []), mine) && fresh(mine)
    {
      var none := new int[0];
      var job := new Job(none);
      list, mine := list + [job], mine + {job, none};
    }
  }

  /** One round of the outer loop. */
  method ReadJob(p: Process, list: seq<Job>, count: nat, t0: string, ghost n: Node, ghost ls: seq<MapLine>,
                 ghost lists: seq<seq<int>>, ghost mine: set<object>)
    returns (after: seq<Job>, t: string, ghost job: Job)
    requires Fields(p, n) && Built(list, lists, mine) && p !in mine && p.rank2job !in mine
    requires ls != [] && ScanLines(t0, count, |ls|) == Some(ls) && count == |list|
    requires Within(ls[0].ranks, |n.rank2job|)
    modifies p`master, p`age, p`jobId, p`transit, p.rank2job
    ensures 0 <= ls[0].jobId < count
    ensures Fields(p, ReadRanks(n, ls[0], |ls[0].ranks|)) && ScanLines(t, count, |ls| - 1) == Some(ls[1..])
    ensures fresh(job) && fresh(job.rankList)
    ensures Built(after, lists[ls[0].jobId := ls[0].ranks], mine + {job, job.rankList})
  {
    RestOfLines(t0, count, |ls|, ls);
    var h := ScanHead(t0, count).value;
    var read, rest :=
        ReadWorkers(p, h.value.0, h.value.1, h.value.2, h.rest, n, ls[0], ScanRanks(h.rest, h.value.2).value.rest);
    job := read;
    after, t := list[h.value.1 := read], rest;
  }

  /** The outer loop of parse_map_file. */
  method ReadJobs(p: Process, count: nat, t0: string, ghost n: Node, ghost m: MapFile)
    returns (list: seq<Job>, ghost mine: set<object>)
    requires Usable(m, n) && Fields(p, ReadLines(n, m, 0)) && count == |m.lines|
    requires ScanLines(t0, count, count) == Some(m.lines)
    modifies p`master, p`age, p`jobId, p`transit, p.rank2job
    ensures Fields(p, ReadLines(n, m, |m.lines|)) && Built(list, ListsRead(m, |m.lines|), mine) && fresh(mine)
  {
    list, mine := AllocateJobs(count);
    var t := t0;
    for i := 0 to count
      invariant ScanLines(t, count, count - i) == Some(m.lines[i..])
      invariant Fields(p, ReadLines(n, m, i))
      invariant Built(list, ListsRead(m, i), mine) && fresh(mine)
    {
      ghost var job;
      ghost var ls := m.lines[i..];
      assert ls[0] == m.lines[i] && ls[1..] == m.lines[i + 1..];
      list, t, job := ReadJob(p, list, count, t, ReadLines(n, m, i), ls, ListsRead(m, i), mine);
      mine := mine + {job, job.rankList};
    }
  }

  /** parse_map_file, on a file that meets its assertions. */
  method ParseMapFile(p: Process, text: string, ghost n: Node)
    requires Fields(p, n)
    requires ScanMap(text).Some? && Usable(ScanMap(text).value, n)
    modifies p, p.rank2job
    ensures p.Is(Parsed(n, ScanMap(text).value))
  {
    ghost var m := ScanMap(text).value;
    var cores := ScanInt(text).value;
    var jobs := ScanInt(cores.rest).value;
    p.master, p.transit := false, NodeDataNone;
    var count: nat := if jobs.value < 0 then 0 else jobs.value;
    var list, mine := ReadJobs(p, count, jobs.rest, n, m);
    p.jobs := list;
    p.tables := mine + {p.rank2job, p.ignored};
  }

  /** The loop over the fields of one line of the map; None is the panic of an index out of range. */
  method ReadPair(parts: seq<string>) returns (cr: Option<CR>)
    ensures cr == if |parts| > 5 then None else Some(CR(FieldOr(parts, 3), FieldOr(parts, 4)))
  {
    var r := CR(-1, -1);
    var j := 3;
    while j < |parts|
      invariant 3 <= j <= 5
      invariant j > 3 ==> j <= |parts|
      invariant r == CR(if j > 3 then Atoi(parts[3]) else -1, if j > 4 then Atoi(parts[4]) else -1)
    {
      var rank := Atoi(parts[j]);
      if j - 3 >= 2 {
        return None;
      }
      r := if j == 3 then r.(compute := rank) else r.(replica := rank);
      j := j + 1;
    }
    cr := Some(r);
  }

  /** initReplicationMap */
  method InitReplicationMap(text: string) returns (r: Option<map<int, CR>>)
    ensures r == SplitMap(text)
  {
    var head := Split(ReadLine(text), '\t');
    if |head| < 2 {
      return None;
    }
    var numJobs := Atoi(head[1]);
    var t, replicationMap := BehindLine(text), map[];
    var i := 0;
    while i < numJobs
      invariant 0 <= i && (i <= numJobs || i == 0)
      invariant SplitMap(text) == SplitLines(t, if i < numJobs then numJobs - i else 0, replicationMap)
    {
      var parts := Split(ReadLine(t), '\t');
      if |parts| < 2 {
        return None;
      }
      var cr := ReadPair(parts);
      if cr.None? {
        return None;
      }
      replicationMap := replicationMap[Atoi(parts[1]) := cr.value];
      t := BehindLine(t);
      i := i + 1;
    }
    r := Some(replicationMap);
  }
}
