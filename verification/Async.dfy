/**
 * MPI_Irecv and MPI_Wait of src/mpi/init.c, and src/mpi/async.c: one receive from every worker of a job, one result.
 */
module Async {
  import opened Mpi
  import opened NodeState
  import opened Recovery

  // MPI_Status: the sender, or a negative number for an empty status, and whether the error is MPI_SUCCESS
  datatype Status = Status(source: int, ok: bool)

  predicate Good(st: Status, ignored: seq<bool>) {
    st.source >= 0 && st.ok && !(st.source < |ignored| && ignored[st.source])
  }

  /** The first slot that holds a message of a worker that is not ignored; |statuses| when there is none. */
  function FirstGood(statuses: seq<Status>, ignored: seq<bool>, from: nat): (i: nat)
    requires from <= |statuses|
    ensures from <= i <= |statuses|
    ensures i < |statuses| ==> Good(statuses[i], ignored)
    ensures forall k :: from <= k < i ==> !Good(statuses[k], ignored)
    decreases |statuses| - from
  {
    if from == |statuses| || Good(statuses[from], ignored) then from else FirstGood(statuses, ignored, from + 1)
  }

  // What PMPI_Waitall reports at each attempt, and rank_ignore_list after it.
  datatype Attempt = Attempt(statuses: seq<Status>, ignored: seq<bool>)

  type Attempts = nat -> Attempt

  predicate Succeeds(a: Attempt) {
    FirstGood(a.statuses, a.ignored, 0) < |a.statuses|
  }

  /** The first attempt from `from` on that finds a message, if one of those below 5 does. */
  function FirstSuccess(attempts: Attempts, from: nat): (a: nat)
    requires from <= 5
    ensures from <= a <= 5
    ensures a < 5 ==> Succeeds(attempts(a))
    ensures forall k :: from <= k < a ==> !Succeeds(attempts(k))
    decreases 5 - from
  {
    if from == 5 || Succeeds(attempts(from)) then from else FirstSuccess(attempts, from + 1)
  }

  lemma Offsets(i: nat, size: nat, count: nat)
    requires i < count
    ensures 0 <= i * size && i * size + size <= size * count
  {
    assert size * count == i * size + size + (count - i - 1) * size;
  }

  method Fill(to: array<bv8>, start: nat, message: Bytes)
    requires start + |message| <= to.Length
    modifies to
    ensures to[start..start + |message|] == message
  {
    for k := 0 to |message|
      invariant forall j :: 0 <= j < k ==> to[start + j] == message[j]
    {
      to[start + k] := message[k];
    }
  }

  method CopyBytes(to: array<bv8>, from: array<bv8>, start: nat)
    requires to != from && start + to.Length <= from.Length
    modifies to
    ensures to[..] == from[start..start + to.Length]
  {
    for k := 0 to to.Length
      invariant forall j :: 0 <= j < k ==> to[j] == from[start + j]
    {
      to[k] := from[start + k];
    }
  }

  // Aggregate_Request. With one worker the temporary buffer is the caller's buffer itself.
  class AggRequest {
    const count: nat
    const size: nat
    const original: array<bv8>
    const temp: array<bv8>
    const nodeRank: array<int>
    // false for MPI_REQUEST_NULL
    const posted: array<bool>

    ghost predicate Valid()
      reads this
    {
      && original.Length == size && nodeRank.Length == count == posted.Length
      && (if count == 1 then temp == original else temp != original && temp.Length == size * count)
    }

    /** new_agg_request */
    constructor (original: array<bv8>, workerCount: nat)
      ensures Valid() && this.original == original && size == original.Length && count == workerCount
      ensures fresh(nodeRank) && fresh(posted) && (count != 1 ==> fresh(temp))
    {
      count, size, this.original := workerCount, original.Length, original;
      nodeRank, posted := new int[workerCount], new bool[workerCount];
      if workerCount == 1 {
        temp := original;
      } else {
        temp := new bv8[original.Length * workerCount];
      }
    }

    lemma SlotFits(i: nat)
      requires Valid() && i < count
      ensures 0 <= i * size && i * size + size <= temp.Length
    {
      if count != 1 {
        Offsets(i, size, count);
      }
    }

    /** The part of the temporary buffer that belongs to worker i. */
    ghost function Slot(i: nat): Bytes
      requires Valid() && i < count
      reads this, temp
    {
      SlotFits(i);
      temp[i * size..i * size + size]
    }

    /** PMPI_Waitall completes one request: the message of worker i is in its slot. */
    method Arrive(i: nat, message: Bytes)
      requires Valid() && i < count && |message| == size
      modifies temp
      ensures Slot(i) == message
    {
      SlotFits(i);
      Fill(temp, i * size, message);
    }

    /** memcpy(ori_buf, temp_buf, buffer_size), when there is more than one slot. */
    method CopyOut(i: nat)
      requires Valid() && i < count
      modifies original
      ensures original[..] == old(Slot(i))
    {
      SlotFits(i);
      if count != 1 {
        CopyBytes(original, temp, i * size);
      }
    }
  }

  /** MPI_Irecv from a named job: a receive is posted for each of its workers that is not ignored. */
  method Irecv(list: seq<int>, ignored: seq<bool>, buf: array<bv8>) returns (req: AggRequest)
    requires Within(list, |ignored|)
    ensures fresh(req) && req.Valid() && req.original == buf && req.count == |list|
            && (req.temp == buf || fresh(req.temp))
    ensures req.nodeRank[..] == list
    ensures forall i :: 0 <= i < |list| ==> req.posted[i] == !ignored[list[i]]
  {
    req := new AggRequest(buf, |list|);
    for i := 0 to |list|
      invariant req.nodeRank[..i] == list[..i]
      invariant forall k :: 0 <= k < i ==> req.posted[k] == !ignored[list[k]]
    {
      req.nodeRank[i] := list[i];
      req.posted[i] := !ignored[list[i]];
    }
    assert req.nodeRank[..|list|] == req.nodeRank[..] && list[..|list|] == list;
  }

  /** Only posted requests complete, each with the worker it was posted for. */
  ghost predicate Answers(attempts: Attempts, list: seq<int>, posted: seq<bool>) {
    forall a: nat :: AnswersAt(attempts(a), list, posted)
  }

  ghost predicate AnswersAt(a: Attempt, list: seq<int>, posted: seq<bool>) {
    && |a.statuses| == |list| == |posted|
    && forall i :: 0 <= i < |list| && a.statuses[i].source >= 0 && a.statuses[i].ok ==>
      posted[i] && a.statuses[i].source == list[i]
  }

  /** Slot i holds a message without an error, from a worker that rank_ignore_list does not mark. */
  predicate Arrived(a: Attempt, i: nat)
    requires i < |a.statuses|
  {
    var s := a.statuses[i];
    0 <= s.source < |a.ignored| && s.ok && !a.ignored[s.source]
  }

  lemma FirstIsFirst(attempts: Attempts)
    ensures forall b: nat, i: nat :: b < 5 && i < |attempts(b).statuses| && Arrived(attempts(b), i) ==>
              var a := FirstSuccess(attempts, 0);
              a < 5 && (a < b || (a == b && FirstGood(attempts(a).statuses, attempts(a).ignored, 0) <= i))
  {
    forall b: nat, i: nat | b < 5 && i < |attempts(b).statuses| && Arrived(attempts(b), i)
      ensures Succeeds(attempts(b)) && Good(attempts(b).statuses[i], attempts(b).ignored)
    {
    }
  }

  /**
   * MPI_Wait with a status: PMPI_Waitall is tried until one slot holds a message of a worker that is not ignored.
   * The sixth attempt ends the program, whatever it finds; `messages` are what the workers have sent.
   */
  method Wait(req: AggRequest, rank2job: seq<int>, attempts: Attempts, messages: seq<Bytes>, ghost list: seq<int>)
    returns (exited: bool, source: int, slot: nat, a: nat)
    requires req.Valid() && req.nodeRank[..] == list && Answers(attempts, list, req.posted[..])
    requires Within(list, |rank2job|)
    requires |messages| == req.count && forall i :: 0 <= i < |messages| ==> |messages[i]| == req.size
    modifies req.temp, req.original
    ensures exited <==> FirstSuccess(attempts, 0) == 5
    ensures !exited ==>
      a == FirstSuccess(attempts, 0) && slot == FirstGood(attempts(a).statuses, attempts(a).ignored, 0) < req.count
    ensures !exited ==> req.original[..] == messages[slot] && source == rank2job[list[slot]]
    // the slot has a message of its worker, who is not ignored, and there is none before it
    ensures !exited ==>
      && attempts(a).statuses[slot] == Status(list[slot], true)
      && (list[slot] < |attempts(a).ignored| ==> !attempts(a).ignored[list[slot]])
    ensures forall b: nat, i: nat :: b < 5 && i < |attempts(b).statuses| && Arrived(attempts(b), i) ==>
              !exited && (a < b || (a == b && slot <= i))
  {
    ghost var posted := req.posted[..];
    assert |list| == req.count;
    FirstIsFirst(attempts);
    a := 0;
    while true
      invariant 0 <= a <= 5 && FirstSuccess(attempts, 0) == FirstSuccess(attempts, a)
      invariant a == 5 ==> FirstSuccess(attempts, 0) == 5
      decreases 6 - a
    {
      assert AnswersAt(attempts(a), list, posted);
      var i := 0;
      while i < req.count && !Good(attempts(a).statuses[i], attempts(a).ignored)
        invariant 0 <= i <= req.count
        invariant FirstGood(attempts(a).statuses, attempts(a).ignored, 0)
            == FirstGood(attempts(a).statuses, attempts(a).ignored, i)
      {
        i := i + 1;
      }
      if a > 4 {
        exited, source, slot := true, -1, 0;
        return;
      }
      if i < req.count {
        exited, source, slot := false, rank2job[attempts(a).statuses[i].source], i;
        req.Arrive(i, messages[i]);
        req.CopyOut(i);
        return;
      }
      a := a + 1;
    }
  }

  // ---------------------------------------------------------------------------------------------
  // The receive as a whole
  // ---------------------------------------------------------------------------------------------

  /** The rank in every slot belongs to the job that was asked for. */
  lemma SourceIsTheJob(n: Node, p: Pid, s: State, jobs: seq<seq<Pid>>, source: nat, slot: nat)
    requires Distinct(s.world) && Partition(jobs, s.world) && Knows(n, p, s, jobs)
    requires source < |n.lists| && slot < |n.lists[source]|
    ensures 0 <= n.lists[source][slot] < |s.world| && n.rank2job[n.lists[source][slot]] == source
  {
    assert jobs[source] == Pids(n.lists[source], s.world);
    assert Within(n.lists[source], |s.world|);
    var q := s.world[n.lists[source][slot]];
    assert jobs[source][slot] == q && q in jobs[source];
  }

  /** Irecv and Wait at one process, from the job `source`, whose workers all send `message`. */
  method Receive(n: Node, ghost p: Pid, ghost s: State, ghost jobs: seq<seq<Pid>>, source: nat, buf: array<bv8>,
                 attempts: Attempts, messages: seq<Bytes>, ghost message: Bytes)
    returns (exited: bool, from: int)
    requires Distinct(s.world) && Partition(jobs, s.world) && Knows(n, p, s, jobs) && source < |n.lists|
    requires Within(n.lists[source], |n.ignored|) && Within(n.lists[source], |n.rank2job|)
    requires Answers(attempts, n.lists[source], PostedFor(n.lists[source], n.ignored))
    requires |messages| == |n.lists[source]| && |message| == buf.Length
    requires forall i :: 0 <= i < |messages| ==> messages[i] == message
    modifies buf
    ensures exited <==> FirstSuccess(attempts, 0) == 5
    ensures !exited ==> buf[..] == message && from == source
  {
    var req := Irecv(n.lists[source], n.ignored, buf);
    assert req.posted[..] == PostedFor(n.lists[source], n.ignored);
    var slot, a;
    exited, from, slot, a := Wait(req, n.rank2job, attempts, messages, n.lists[source]);
    if !exited {
      SourceIsTheJob(n, p, s, jobs, source, slot);
    }
  }

  function PostedFor(list: seq<int>, ignored: seq<bool>): (posted: seq<bool>)
    requires Within(list, |ignored|)
    ensures |posted| == |list| && forall i :: 0 <= i < |list| ==> posted[i] == !ignored[list[i]]
  {
    seq(|list|, i requires 0 <= i < |list| => !ignored[list[i]])
  }

  /** It ends well exactly when one of the first five attempts brings a message of a worker that is not ignored. */
  lemma EndsWellIff(attempts: Attempts)
    ensures FirstSuccess(attempts, 0) < 5 <==>
            exists a: nat, i: nat ::
                a < 5 && i < |attempts(a).statuses| && Good(attempts(a).statuses[i], attempts(a).ignored)
  {
    var f := FirstSuccess(attempts, 0);
    if f < 5 {
      var i := FirstGood(attempts(f).statuses, attempts(f).ignored, 0);
      assert i < |attempts(f).statuses| && Good(attempts(f).statuses[i], attempts(f).ignored);
    }
    if a: nat, i: nat :| a < 5 && i < |attempts(a).statuses| && Good(attempts(a).statuses[i], attempts(a).ignored) {
      assert Succeeds(attempts(a));
    }
  }
}
