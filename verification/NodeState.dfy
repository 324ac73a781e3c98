/** What one process knows about the job: the structures of src/shared.h and the tables beside them. */
module NodeState {
  import opened Mpi

  datatype Option<+T> = None | Some(value: T)

  datatype TransitState = NodeDataNone | NodeDataSender | NodeDataReceiver

  // `lists[j]` is the live part of job_list[j].rank_list, so |lists[j]| is its worker_count;
  // `rank2job` and `ignored` are the tables rank_2_job and rank_ignore_list.
  datatype Node = Node(
    jobId: int,
    rank: int,
    staticRank: Pid,
    age: int,
    transit: TransitState,
    master: bool,
    lists: seq<seq<int>>,
    rank2job: seq<int>,
    ignored: seq<bool>)

  predicate Within(list: seq<int>, size: nat) {
    forall k :: 0 <= k < |list| ==> 0 <= list[k] < size
  }

  /** The processes a list of ranks stands for. */
  function Pids(list: seq<int>, world: seq<Pid>): (s: seq<Pid>)
    requires Within(list, |world|)
    ensures |s| == |list|
    ensures forall k :: 0 <= k < |list| ==> s[k] == world[list[k]]
  {
    seq(|list|, k requires 0 <= k < |list| => world[list[k]])
  }

  predicate InRange(lists: seq<seq<int>>, size: nat) {
    forall j :: 0 <= j < |lists| ==> Within(lists[j], size)
  }

  lemma InLargerRange(lists: seq<seq<int>>, size: nat, larger: nat)
    requires InRange(lists, size) && size <= larger
    ensures InRange(lists, larger)
  {
    forall j | 0 <= j < |lists| ensures Within(lists[j], larger) {
    }
  }

  /** The whole job table, read as processes. */
  function JobPids(lists: seq<seq<int>>, world: seq<Pid>): (jobs: seq<seq<Pid>>)
    requires InRange(lists, |world|)
    ensures |jobs| == |lists|
    ensures forall j :: 0 <= j < |lists| ==> jobs[j] == Pids(lists[j], world)
  {
    seq(|lists|, j requires 0 <= j < |lists| => Pids(lists[j], world))
  }

  /** What update_job_list relies on: every index it uses is in range and no job is empty. */
  ghost predicate WellFormed(n: Node, size: nat) {
    && 0 <= n.rank < size
    && 0 <= n.jobId < |n.lists|
    && (forall j :: 0 <= j < |n.lists| ==> n.lists[j] != [])
    && InRange(n.lists, size)
    && size <= |n.rank2job|
    && size <= |n.ignored|
  }

  // The whole machine: the world communicator, who is still alive, and what each process knows. A process that
  // died after the last repair is still in the world, with the state it died in.
  datatype State = State(world: seq<Pid>, live: set<Pid>, nodes: map<Pid, Node>)
}
