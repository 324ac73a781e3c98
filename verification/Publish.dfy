/**
 * A map from the manager to a process: what WriteToFile prints, parse_map_file turns into the tables of that version.
 */
module Publish {
  import opened Mpi
  import opened NodeState
  import opened Ulfm
  import opened Comm
  import opened Recovery
  import opened Text
  import opened MapFiles
  import opened Parse
  import M = Manager
  import R = Rounds

  /** The text stands for the version that was printed, the number of processes in its first line included. */
  lemma PrintedIsWritten(v: seq<M.JobState>, note: string, size: nat)
    requires M.AllSmall(v) && M.Complete(v, size)
    ensures ScanMap(M.Printed(v, note)) == Some(R.Written(v, size))
  {
    ScanOfPrinted(v, note);
    R.CountIsSize(v, size);
  }

  /** It meets the assertions of parse_map_file, in every process whose rank_2_job has room for that many entries. */
  lemma PrintedIsParsed(v: seq<M.JobState>, note: string, size: nat, n: Node)
    requires M.AllSmall(v) && M.Complete(v, size) && size <= |n.rank2job|
    ensures ScanMap(M.Printed(v, note)) == Some(R.Written(v, size)) && Usable(R.Written(v, size), n)
  {
    PrintedIsWritten(v, note, size);
    R.WrittenIsUsable(v, size, n);
  }

  /** The manager writes the version v, and the process p in the state n reads it. */
  method Publish(manager: M.JobMap, p: Process, note: string, ghost v: seq<M.JobState>, ghost size: nat, ghost n: Node)
    requires manager.Is(v) && M.AllSmall(v) && M.Complete(v, size)
    requires Fields(p, n) && size <= |n.rank2job|
    modifies p, p.rank2job
    ensures Usable(R.Written(v, size), n) && p.Is(Parsed(n, R.Written(v, size)))
  {
    var text := manager.WriteToFile(note, v);
    PrintedIsParsed(v, note, size, n);
    ParseMapFile(p, text, n);
  }

  /** init_node: the first parse mallocs rank_2_job with as many entries as the file says that there are cores. */
  method StartNode(text: string, rank: Pid, commSize: nat) returns (p: Process, ghost table: seq<int>)
    requires ScanMap(text).Some? && ScanMap(text).value.cores >= 0
    requires Usable(ScanMap(text).value, Blank(rank, commSize, seq(ScanMap(text).value.cores, _ => 0)))
    ensures fresh(p) && |table| == ScanMap(text).value.cores
    ensures Usable(ScanMap(text).value, Blank(rank, commSize, table))
    ensures p.Is(InitNode(rank, commSize, table, ScanMap(text).value))
  {
    var cores := ScanInt(text).value.value;
    var rank2job := new int[cores];
    var ignored := new bool[commSize](_ => false);
    table := rank2job[..];
    p := new Process(rank, rank2job, ignored);
    ghost var n := Blank(rank, commSize, table);
    assert ignored[..] == n.ignored;
    ParseMapFile(p, text, n);
    p.transit := NodeDataNone;
  }

  /** The first version: nothing is assumed of the size of any table, the file itself says it. */
  method PublishFirst(manager: M.JobMap, rank: Pid, note: string, ghost v: seq<M.JobState>, size: nat)
    returns (p: Process, ghost table: seq<int>)
    requires manager.Is(v) && M.AllSmall(v) && M.Complete(v, size)
    ensures fresh(p) && |table| == size && Usable(R.Written(v, size), Blank(rank, size, table))
    ensures p.Is(InitNode(rank, size, table, R.Written(v, size)))
  {
    var text := manager.WriteToFile(note, v);
    PrintedIsParsed(v, note, size, Blank(rank, size, seq(size, _ => 0)));
    p, table := StartNode(text, rank, size);
  }
}
