/** src/mpi/comm.c: what a process makes of a replication map, and the communicators it then takes part in. */
module Comm {
  import opened Mpi
  import opened NodeState
  import opened Ulfm

  datatype MapLine = MapLine(updateBit: int, jobId: int, ranks: seq<int>)
  datatype MapFile = MapFile(cores: int, lines: seq<MapLine>)

  // ---------------------------------------------------------------------------------------------
  // parse_map_file, after the numbers were scanned
  // ---------------------------------------------------------------------------------------------

  /** What parse_map_file asserts or needs: job ids below the number of jobs, workers in every job, ranks that exist. */
  ghost predicate Usable(m: MapFile, n: Node) {
    && (forall i :: 0 <= i < |m.lines| ==> 0 <= m.lines[i].jobId < |m.lines|)
    && (forall i :: 0 <= i < |m.lines| ==> m.lines[i].ranks != [] && Within(m.lines[i].ranks, |n.rank2job|))
    && (forall i, k :: 0 <= i < k < |m.lines| ==> m.lines[i].jobId != m.lines[k].jobId)
  }

  /** The body of the innermost loop: the rank at position k of a line was read. */
  function ReadRank(n: Node, line: MapLine, k: nat): (r: Node)
    requires k < |line.ranks| && 0 <= line.ranks[k] < |n.rank2job|
    ensures |r.rank2job| == |n.rank2job| && r.lists == n.lists
  {
    var w := line.ranks[k];
    var a := n.(rank2job := n.rank2job[w := line.jobId]);
    var b := if k == 0 && w == n.rank then a.(master := true) else a;
    if w == n.rank && line.updateBit == 1 then
      if n.jobId != line.jobId then b.(age := 1, jobId := line.jobId, transit := NodeDataReceiver)
      else b.(age := n.age + 1, transit := if k == 0 && |line.ranks| > 1 then NodeDataSender else NodeDataNone)
    else b
  }

  function ReadRanks(n: Node, line: MapLine, k: nat): (r: Node)
    requires k <= |line.ranks| && Within(line.ranks, |n.rank2job|)
    ensures |r.rank2job| == |n.rank2job| && r.lists == n.lists
  {
    if k == 0 then n else ReadRank(ReadRanks(n, line, k - 1), line, k - 1)
  }

  /** The node after the first i lines. */
  function ReadLines(n: Node, m: MapFile, i: nat): (r: Node)
    requires i <= |m.lines|
    requires forall k :: 0 <= k < |m.lines| ==> Within(m.lines[k].ranks, |n.rank2job|)
    ensures |r.rank2job| == |n.rank2job| && r.lists == n.lists
  {
    if i == 0 then n.(master := false, transit := NodeDataNone)
    else ReadRanks(ReadLines(n, m, i - 1), m.lines[i - 1], |m.lines[i - 1].ranks|)
  }

  /** The freshly malloc'ed job list after the first i lines. */
  function ListsRead(m: MapFile, i: nat): (lists: seq<seq<int>>)
    requires i <= |m.lines|
    requires forall k :: 0 <= k < |m.lines| ==> 0 <= m.lines[k].jobId < |m.lines|
    ensures |lists| == |m.lines|
  {
    if i == 0 then seq(|m.lines|, _ => [])
    else ListsRead(m, i - 1)[m.lines[i - 1].jobId := m.lines[i - 1].ranks]
  }

  /** The node after parse_map_file. */
  function Parsed(n: Node, m: MapFile): (r: Node)
    requires forall k :: 0 <= k < |m.lines| ==> 0 <= m.lines[k].jobId < |m.lines|
    requires forall k :: 0 <= k < |m.lines| ==> Within(m.lines[k].ranks, |n.rank2job|)
  {
    ReadLines(n, m, |m.lines|).(lists := ListsRead(m, |m.lines|))
  }

  /** The rank lists of a map, in the order of its lines. */
  function RanksOf(m: MapFile): (lists: seq<seq<int>>)
    ensures |lists| == |m.lines|
    ensures forall i :: 0 <= i < |lists| ==> lists[i] == m.lines[i].ranks
  {
    seq(|m.lines|, i requires 0 <= i < |m.lines| => m.lines[i].ranks)
  }

  /** The lines come in job order, as WriteToFile prints them. */
  ghost predicate Ordered(m: MapFile) {
    forall i :: 0 <= i < |m.lines| ==> m.lines[i].jobId == i
  }

  lemma {:induction false} ListsReadInOrder(m: MapFile, i: nat)
    requires Ordered(m) && i <= |m.lines|
    ensures forall k :: 0 <= k < |m.lines| ==> ListsRead(m, i)[k] == if k < i then m.lines[k].ranks else []
  {
    if i > 0 {
      ListsReadInOrder(m, i - 1);
    }
  }

  lemma {:induction false} RanksStamp(n: Node, line: MapLine, k: nat)
    requires k <= |line.ranks| && Within(line.ranks, |n.rank2job|)
    ensures ReadRanks(n, line, k).rank2job == Stamp(n.rank2job, line.ranks[..k], line.jobId)
  {
    if k > 0 {
      RanksStamp(n, line, k - 1);
      assert line.ranks[..k] == line.ranks[..k - 1] + [line.ranks[k - 1]];
      StampStep(n.rank2job, line.ranks[..k - 1], line.jobId, line.ranks[k - 1]);
    }
  }

  lemma {:induction false} LinesStamp(n: Node, m: MapFile, i: nat)
    requires Ordered(m) && i <= |m.lines| && InRange(RanksOf(m), |n.rank2job|)
    ensures forall k :: 0 <= k < |m.lines| ==> Within(m.lines[k].ranks, |n.rank2job|)
    ensures ReadLines(n, m, i).rank2job == StampJobs(n.rank2job, RanksOf(m), i)
  {
    assert forall k :: 0 <= k < |m.lines| ==> Within(RanksOf(m)[k], |n.rank2job|);
    if i > 0 {
      LinesStamp(n, m, i - 1);
      var line := m.lines[i - 1];
      RanksStamp(ReadLines(n, m, i - 1), line, |line.ranks|);
      assert line.ranks[..|line.ranks|] == line.ranks;
    }
  }

  /** What reading its own rank, at position k of a line, does to a process. */
  function Placed(n: Node, line: MapLine, k: nat): (r: Node)
    ensures r.rank2job == n.rank2job
  {
    var b := if k == 0 then n.(master := true) else n;
    if line.updateBit == 1 then
      if n.jobId != line.jobId then b.(age := 1, jobId := line.jobId, transit := NodeDataReceiver)
      else b.(age := n.age + 1, transit := if k == 0 && |line.ranks| > 1 then NodeDataSender else NodeDataNone)
    else b
  }

  lemma {:induction false} RanksOfOthers(n: Node, line: MapLine, k: nat)
    requires k <= |line.ranks| && Within(line.ranks, |n.rank2job|)
    requires n.rank !in line.ranks[..k]
    ensures ReadRanks(n, line, k) == n.(rank2job := ReadRanks(n, line, k).rank2job)
  {
    if k > 0 {
      assert line.ranks[..k] == line.ranks[..k - 1] + [line.ranks[k - 1]];
      RanksOfOthers(n, line, k - 1);
    }
  }

  lemma {:induction false} OwnRankOnce(n: Node, line: MapLine, pos: nat, k: nat)
    requires pos < k <= |line.ranks| && Within(line.ranks, |n.rank2job|)
    requires Distinct(line.ranks) && line.ranks[pos] == n.rank
    ensures ReadRanks(n, line, k) == Placed(n, line, pos).(rank2job := ReadRanks(n, line, k).rank2job)
  {
    if k == pos + 1 {
      assert n.rank !in line.ranks[..pos];
      RanksOfOthers(n, line, pos);
    } else {
      OwnRankOnce(n, line, pos, k - 1);
    }
  }

  lemma {:induction false} LinesOfOthers(n: Node, m: MapFile, i: nat)
    requires i <= |m.lines|
    requires forall k :: 0 <= k < |m.lines| ==> Within(m.lines[k].ranks, |n.rank2job|)
    requires forall k :: 0 <= k < i ==> n.rank !in m.lines[k].ranks
    ensures ReadLines(n, m, i) == n.(master := false, transit := NodeDataNone, rank2job := ReadLines(n, m, i).rank2job)
  {
    if i > 0 {
      LinesOfOthers(n, m, i - 1);
      var line := m.lines[i - 1];
      assert line.ranks[..|line.ranks|] == line.ranks;
      RanksOfOthers(ReadLines(n, m, i - 1), line, |line.ranks|);
    }
  }

  /** A process that is listed once, at position pos of line j, ends as if only that entry had been read. */
  lemma {:induction false} LinesOfOwn(n: Node, m: MapFile, j: nat, pos: nat, i: nat)
    requires j < i <= |m.lines| && pos < |m.lines[j].ranks|
    requires forall k :: 0 <= k < |m.lines| ==> Within(m.lines[k].ranks, |n.rank2job|)
    requires Distinct(m.lines[j].ranks) && m.lines[j].ranks[pos] == n.rank
    requires forall k :: 0 <= k < i && k != j ==> n.rank !in m.lines[k].ranks
    ensures ReadLines(n, m, i)
         == Placed(n.(master := false, transit := NodeDataNone), m.lines[j], pos)
            .(rank2job := ReadLines(n, m, i).rank2job)
  {
    var line := m.lines[i - 1];
    var before := ReadLines(n, m, i - 1);
    if i == j + 1 {
      LinesOfOthers(n, m, j);
      OwnRankOnce(before, line, pos, |line.ranks|);
    } else {
      LinesOfOwn(n, m, j, pos, i - 1);
      assert line.ranks[..|line.ranks|] == line.ranks;
      RanksOfOthers(before, line, |line.ranks|);
    }
  }
}
