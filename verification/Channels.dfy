/**
 * MPI_Send and MPI_Recv of src/mpi/init.c between replicated jobs, in
 * every interleaving with crashes, without a shrink.
 */
module Channels {
  import opened Mpi

  // The worker at position idx of the rank list of a job.
  datatype Worker = Worker(job: nat, idx: nat)

  datatype Action = Send(dest: nat, tag: int, msg: Bytes) | Recv(source: nat, tag: int) | Halt

  // A call that has returned, with what the receive buffer held then.
  datatype Event = Sent(dest: nat, tag: int, msg: Bytes) | Got(source: nat, tag: int, msg: Bytes)

  // The program of a job is deterministic: the calls that have returned determine the next one.
  type Program = (nat, seq<Event>) -> Action

  // The rank lists and the programs; both stay the same while nobody shrinks the world.
  datatype Setting = Setting(ranks: seq<seq<Pid>>, prog: Program)

  // Where a process is inside a call: at position i of the rank list of the other side.
  datatype Phase = Idle | Sending(i: nat) | Receiving(i: nat, buf: Bytes)

  datatype Proc = Proc(log: seq<Event>, phase: Phase, ignored: set<Worker>)

  datatype Key = Key(src: Worker, dst: Worker, tag: int)

  datatype Net = Net(live: set<Worker>, procs: map<Worker, Proc>, chan: map<Key, seq<Bytes>>)

  function SetTag(rank: Pid, tag: int): int {
    100 * (rank + 1) + tag
  }

  predicate IsWorker(c: Setting, w: Worker) {
    w.job < |c.ranks| && w.idx < |c.ranks[w.job]|
  }

  /** Messages on their way from q to p under an application tag: both sides put the rank of the sender into the tag. */
  function Wire(c: Setting, q: Worker, p: Worker, tag: int): Key
    requires IsWorker(c, q)
  {
    Key(q, p, SetTag(c.ranks[q.job][q.idx], tag))
  }

  function InFlight(s: Net, k: Key): seq<Bytes> {
    if k in s.chan then s.chan[k] else []
  }

  /** The call process p is in, or would make next. */
  function Call(c: Setting, s: Net, p: Worker): Action
    requires p in s.procs
  {
    c.prog(p.job, s.procs[p].log)
  }

  /** The worker the loop of p is about to serve. */
  function Target(c: Setting, s: Net, p: Worker): Worker
    requires p in s.procs && !s.procs[p].phase.Idle? && !Call(c, s, p).Halt?
  {
    var a := Call(c, s, p);
    Worker(if a.Send? then a.dest else a.source, s.procs[p].phase.i)
  }

  // ---------------------------------------------------------------------------------------------
  // Steps
  // ---------------------------------------------------------------------------------------------

  datatype Label =
    | Begin(p: Worker, stale: Bytes)             // a call starts; `stale` is what a receive buffer holds before
    | SendOne(p: Worker)
    | RecvOne(p: Worker)
    | Skip(p: Worker)                          // rank_ignore_list says so
    // the peer is dead; the error handler marks the failed processes it knows of, and the
    // receive buffer is left as `torn`, with parts of the message that was arriving
    | Fail(p: Worker, marked: set<Worker>, arriving: Bytes, torn: Bytes)
    | Finish(p: Worker)
    | Crash(p: Worker)

  predicate Ready(c: Setting, s: Net, p: Worker) {
    p in s.live && p in s.procs && IsWorker(c, p)
  }

  /** p is inside a call and its loop is not through. */
  predicate AtTarget(c: Setting, s: Net, p: Worker) {
    && Ready(c, s, p)
    && match Call(c, s, p)
       case Send(d, _, _) => d < |c.ranks| && s.procs[p].phase.Sending? && s.procs[p].phase.i < |c.ranks[d]|
       case Recv(a, _) => a < |c.ranks| && s.procs[p].phase.Receiving? && s.procs[p].phase.i < |c.ranks[a]|
       case Halt => false
  }

  predicate AtEnd(c: Setting, s: Net, p: Worker) {
    && Ready(c, s, p)
    && match Call(c, s, p)
       case Send(d, _, _) => d < |c.ranks| && s.procs[p].phase == Sending(|c.ranks[d]|)
       case Recv(a, _) => a < |c.ranks| && s.procs[p].phase.Receiving? && s.procs[p].phase.i == |c.ranks[a]|
       case Halt => false
  }

  function Next(ph: Phase): Phase {
    match ph
    case Idle => Idle
    case Sending(i) => Sending(i + 1)
    case Receiving(i, buf) => Receiving(i + 1, buf)
  }

  function EventOf(a: Action, ph: Phase): Event
    requires !a.Halt? && (a.Recv? ==> ph.Receiving?)
  {
    match a
    case Send(d, t, m) => Sent(d, t, m)
    case Recv(src, t) => Got(src, t, ph.buf)
  }

  /** m is the message p was about to get from q: it is on its way, or q died before its send of it to p was through. */
  predicate Arriving(c: Setting, s: Net, q: Worker, p: Worker, tag: int, m: Bytes)
    requires q in s.procs && IsWorker(c, q)
  {
    var flight, a := InFlight(s, Wire(c, q, p, tag)), Call(c, s, q);
    if flight != [] then m == flight[0]
    else s.procs[q].phase.Sending? && s.procs[q].phase.i <= p.idx && a == Send(p.job, tag, m)
  }

  /** Each byte is the old one or that of the message. */
  predicate TornBy(was: Bytes, m: Bytes, torn: Bytes) {
    |was| == |m| == |torn| && forall i :: 0 <= i < |was| ==> torn[i] == was[i] || torn[i] == m[i]
  }

  function FailedPhase(ph: Phase, torn: Bytes): Phase {
    match ph
    case Receiving(i, _) => Receiving(i + 1, torn)
    case _ => Next(ph)
  }

  ghost predicate Step(c: Setting, s: Net, l: Label, t: Net) {
    match l
    case Begin(p, stale) =>
      && Ready(c, s, p) && s.procs[p].phase.Idle?
      && var pr := s.procs[p];
         (match Call(c, s, p)
          case Send(d, _, _) => d < |c.ranks| && t == s.(procs := s.procs[p := pr.(phase := Sending(0))])
          case Recv(a, _) => a < |c.ranks| && t == s.(procs := s.procs[p := pr.(phase := Receiving(0, stale))])
          case Halt => false)
    case SendOne(p) =>
      && AtTarget(c, s, p) && Call(c, s, p).Send?
      && var pr, a, q := s.procs[p], Call(c, s, p), Target(c, s, p);
         && q !in pr.ignored
         && var k := Wire(c, p, q, a.tag);
            t == s.(procs := s.procs[p := pr.(phase := Next(pr.phase))], chan := s.chan[k := InFlight(s, k) + [a.msg]])
    case RecvOne(p) =>
      && AtTarget(c, s, p) && Call(c, s, p).Recv?
      && var pr, a, q := s.procs[p], Call(c, s, p), Target(c, s, p);
         && q !in pr.ignored
         && var k := Wire(c, q, p, a.tag);
            && InFlight(s, k) != []
            && t == s.(procs := s.procs[p := pr.(phase := Receiving(pr.phase.i + 1, InFlight(s, k)[0]))],
                       chan := s.chan[k := InFlight(s, k)[1..]])
    case Skip(p) =>
      && AtTarget(c, s, p) && Target(c, s, p) in s.procs[p].ignored
      && t == s.(procs := s.procs[p := s.procs[p].(phase := Next(s.procs[p].phase))])
    case Fail(p, marked, m, torn) =>
      && AtTarget(c, s, p)
      && var pr, q := s.procs[p], Target(c, s, p);
         && q !in pr.ignored && q !in s.live && q in marked && marked !! s.live
         && (pr.phase.Receiving? ==>
              torn == pr.phase.buf
              || (q in s.procs && Arriving(c, s, q, p, Call(c, s, p).tag, m) && TornBy(pr.phase.buf, m, torn)))
         && t == s.(procs := s.procs[p := pr.(phase := FailedPhase(pr.phase, torn), ignored := pr.ignored + marked)])
    case Finish(p) =>
      && AtEnd(c, s, p)
      && var pr := s.procs[p];
         t == s.(procs := s.procs[p := pr.(log := pr.log + [EventOf(Call(c, s, p), pr.phase)], phase := Idle)])
    case Crash(p) =>
      p in s.live && t == s.(live := s.live - {p})
  }

  // ---------------------------------------------------------------------------------------------
  // The logical channels
  // ---------------------------------------------------------------------------------------------

  /** The messages a job has sent to job b under a tag. */
  function Sends(log: seq<Event>, b: nat, tag: int): seq<Bytes> {
    if log == [] then []
    else
      var e := log[|log| - 1];
      Sends(log[..|log| - 1], b, tag) + if e.Sent? && e.dest == b && e.tag == tag then [e.msg] else []
  }

  /** What the receives of a job from job a under a tag have left in the buffer. */
  function Gots(log: seq<Event>, a: nat, tag: int): seq<Bytes> {
    if log == [] then []
    else
      var e := log[|log| - 1];
      Gots(log[..|log| - 1], a, tag) + if e.Got? && e.source == a && e.tag == tag then [e.msg] else []
  }

  /** A history together with the send the program makes next, if it does: some of its messages may be out already. */
  function Ahead(c: Setting, j: nat, log: seq<Event>): seq<Event> {
    match c.prog(j, log)
    case Send(d, t, m) => log + [Sent(d, t, m)]
    case _ => log
  }

  /** The logical stream from job a to job b, when the histories of the jobs are h. */
  function Stream(c: Setting, h: seq<seq<Event>>, a: nat, b: nat, tag: int): seq<Bytes>
    requires a < |h|
  {
    Sends(Ahead(c, a, h[a]), b, tag)
  }

  predicate Fits(a: Action, e: Event) {
    match a
    case Send(d, t, m) => e == Sent(d, t, m)
    case Recv(src, t) => e.Got? && e.source == src && e.tag == t
    case Halt => false
  }

  lemma SendsStep(log: seq<Event>, e: Event, b: nat, tag: int)
    ensures Sends(log + [e], b, tag)
         == Sends(log, b, tag) + if e.Sent? && e.dest == b && e.tag == tag then [e.msg] else []
    ensures Gots(log + [e], b, tag)
         == Gots(log, b, tag) + if e.Got? && e.source == b && e.tag == tag then [e.msg] else []
  {
    assert (log + [e])[..|log|] == log;
  }

  lemma {:induction false} SendsOfPrefix(x: seq<Event>, y: seq<Event>, b: nat, tag: int)
    requires x <= y
    ensures Sends(x, b, tag) <= Sends(y, b, tag) && Gots(x, b, tag) <= Gots(y, b, tag)
  {
    if |x| < |y| {
      SendsOfPrefix(x, y[..|y| - 1], b, tag);
    } else {
      assert x == y;
    }
  }

  /** When a history grows by the event its program allows, its streams only get longer. */
  lemma StreamGrows(c: Setting, h: seq<seq<Event>>, j: nat, e: Event, a: nat, b: nat, tag: int)
    requires j < |h| && a < |h| && Fits(c.prog(j, h[j]), e)
    ensures Stream(c, h, a, b, tag) <= Stream(c, h[j := h[j] + [e]], a, b, tag)
  {
    if a == j {
      SendsOfPrefix(Ahead(c, j, h[j]), Ahead(c, j, h[j] + [e]), b, tag);
    }
  }

  // ---------------------------------------------------------------------------------------------
  // The invariant
  // ---------------------------------------------------------------------------------------------

  /** How many messages q has sent to p under a tag, counting the call it is in. */
  function Produced(c: Setting, s: Net, q: Worker, p: Worker, tag: int): nat
    requires q in s.procs
  {
    var pr, a := s.procs[q], Call(c, s, q);
    |Sends(pr.log, p.job, tag)|
    + if pr.phase.Sending? && a.Send? && a.dest == p.job && a.tag == tag && p.idx < pr.phase.i then 1 else 0
  }

  /** How many messages of q under a tag p has received, counting the call it is in. */
  function Consumed(c: Setting, s: Net, q: Worker, p: Worker, tag: int): nat
    requires p in s.procs
  {
    var pr, a := s.procs[p], Call(c, s, p);
    |Gots(pr.log, q.job, tag)|
    + if pr.phase.Receiving? && a.Recv? && a.source == q.job && a.tag == tag && q.idx < pr.phase.i then 1 else 0
  }

  /**
   * Between q and a live p that still listens to q, exactly the part of
   * the logical stream is on its way that p still lacks.
   */
  ghost predicate Lane(c: Setting, h: seq<seq<Event>>, s: Net, q: Worker, p: Worker, tag: int)
    requires IsWorker(c, q) && q in s.procs && p in s.procs && q.job < |h|
  {
    p in s.live && q !in s.procs[p].ignored ==>
      var stream, from, to := Stream(c, h, q.job, p.job, tag), Consumed(c, s, q, p, tag), Produced(c, s, q, p, tag);
      from <= to <= |stream| && InFlight(s, Wire(c, q, p, tag)) == stream[from..to]
  }

  /** m is the first message of the stream that was not taken yet. */
  predicate NextOf(taken: seq<Bytes>, stream: seq<Bytes>, m: Bytes) {
    |taken| < |stream| && m == stream[|taken|]
  }

  ghost predicate SomeServed(live: set<Worker>, a: nat, i: nat) {
    exists x: nat :: x < i && Worker(a, x) in live
  }

  /** Inside a receive, after a live worker was served, the buffer holds the next message of the logical stream. */
  ghost predicate Loaded(c: Setting, h: seq<seq<Event>>, s: Net, p: Worker)
    requires p in s.procs
  {
    var pr, a := s.procs[p], Call(c, s, p);
    pr.phase.Receiving? && a.Recv? && a.source < |h| && SomeServed(s.live, a.source, pr.phase.i) ==>
      NextOf(Gots(pr.log, a.source, a.tag), Stream(c, h, a.source, p.job, a.tag), pr.phase.buf)
  }

  /** The phase belongs to the call, and only the dead are ignored. */
  ghost predicate InCall(c: Setting, s: Net, p: Worker)
    requires p in s.procs
  {
    var pr, a := s.procs[p], Call(c, s, p);
    && (pr.phase.Sending? ==> a.Send? && a.dest < |c.ranks| && pr.phase.i <= |c.ranks[a.dest]|)
    && (pr.phase.Receiving? ==> a.Recv? && a.source < |c.ranks| && pr.phase.i <= |c.ranks[a.source]|)
    && pr.ignored !! s.live
  }

  /** Every event of every history is the one its program makes at that point. */
  ghost predicate Lawful(c: Setting, h: seq<seq<Event>>) {
    forall j, n {:trigger h[j][n]} :: 0 <= j < |h| && 0 <= n < |h[j]| ==> Fits(c.prog(j, h[j][..n]), h[j][n])
  }

  /** Seen as one process per job, every channel is FIFO: what was received is a prefix of what was sent. */
  ghost predicate Fifo(c: Setting, h: seq<seq<Event>>) {
    forall a: nat, b: nat, tag {:trigger Gots(h[b], a, tag)} :: a < |h| && b < |h| ==>
      Gots(h[b], a, tag) <= Stream(c, h, a, b, tag)
  }

  ghost predicate Everybody(c: Setting, h: seq<seq<Event>>, s: Net) {
    |h| == |c.ranks| && forall p :: IsWorker(c, p) ==> p in s.procs
  }

  /** h are the histories of the jobs: each process has come some way along the history of its job. */
  ghost predicate Inv(c: Setting, h: seq<seq<Event>>, s: Net) {
    && Everybody(c, h, s) && Lawful(c, h) && Fifo(c, h)
    && (forall p {:trigger s.procs[p].log} :: IsWorker(c, p) ==> s.procs[p].log <= h[p.job])
    && (forall p {:trigger InCall(c, s, p)} :: IsWorker(c, p) ==> InCall(c, s, p))
    && (forall p {:trigger Loaded(c, h, s, p)} :: IsWorker(c, p) ==> Loaded(c, h, s, p))
    && (forall q, p, tag {:trigger Lane(c, h, s, q, p, tag)} :: IsWorker(c, q) && IsWorker(c, p) ==>
      Lane(c, h, s, q, p, tag))
  }

  /** Whatever a process sends next is part of the logical stream. */
  lemma AheadOfAll(c: Setting, h: seq<seq<Event>>, j: nat, log: seq<Event>)
    requires j < |h| && Lawful(c, h) && log <= h[j]
    ensures Ahead(c, j, log) <= Ahead(c, j, h[j])
  {
    if |log| < |h[j]| {
      assert h[j][..|log|] == log;
      assert Fits(c.prog(j, log), h[j][|log|]);
    } else {
      assert log == h[j];
    }
  }

  lemma NextSend(c: Setting, h: seq<seq<Event>>, j: nat, log: seq<Event>)
    requires j < |h| && Lawful(c, h) && log <= h[j] && c.prog(j, log).Send?
    ensures var a := c.prog(j, log);
            var k, stream := |Sends(log, a.dest, a.tag)|, Stream(c, h, j, a.dest, a.tag);
            k < |stream| && stream[k] == a.msg
  {
    var a := c.prog(j, log);
    AheadOfAll(c, h, j, log);
    SendsStep(log, Sent(a.dest, a.tag, a.msg), a.dest, a.tag);
    SendsOfPrefix(Ahead(c, j, log), Ahead(c, j, h[j]), a.dest, a.tag);
  }

  lemma WiresDiffer(c: Setting, q: Worker, p: Worker, tag: int, q2: Worker, p2: Worker, tag2: int)
    requires IsWorker(c, q) && IsWorker(c, q2)
    ensures Wire(c, q, p, tag) == Wire(c, q2, p2, tag2) <==> q == q2 && p == p2 && tag == tag2
  {
  }

  /** A step that leaves a lane alone keeps it, even when the stream behind it grows. */
  lemma LaneCarries(c: Setting, h: seq<seq<Event>>, s: Net, g: seq<seq<Event>>, t: Net, q: Worker, p: Worker, tag: int)
    requires Everybody(c, h, s) && Everybody(c, g, t) && IsWorker(c, q) && IsWorker(c, p) && Lane(c, h, s, q, p, tag)
    requires p in t.live && q !in t.procs[p].ignored ==> p in s.live && q !in s.procs[p].ignored
    requires Produced(c, s, q, p, tag) == Produced(c, t, q, p, tag)
             && Consumed(c, s, q, p, tag) == Consumed(c, t, q, p, tag)
    requires InFlight(s, Wire(c, q, p, tag)) == InFlight(t, Wire(c, q, p, tag))
    requires Stream(c, h, q.job, p.job, tag) <= Stream(c, g, q.job, p.job, tag)
    ensures Lane(c, g, t, q, p, tag)
  {
  }

  lemma CountsAfterSend(c: Setting, s: Net, l: Label, t: Net, q: Worker, p: Worker, tag: int)
    requires q in s.procs && p in s.procs && IsWorker(c, q) && l.SendOne? && Step(c, s, l, t)
    ensures q in t.procs && p in t.procs
    ensures Consumed(c, t, q, p, tag) == Consumed(c, s, q, p, tag)
    ensures var hit := q == l.p && p == Target(c, s, l.p) && tag == Call(c, s, l.p).tag;
            && Produced(c, t, q, p, tag) == Produced(c, s, q, p, tag) + (if hit then 1 else 0)
            && (hit ==> Produced(c, s, q, p, tag) == |Sends(s.procs[q].log, p.job, tag)|)
            && InFlight(t, Wire(c, q, p, tag))
            == InFlight(s, Wire(c, q, p, tag)) + if hit then [Call(c, s, q).msg] else []
  {
    WiresDiffer(c, q, p, tag, l.p, Target(c, s, l.p), Call(c, s, l.p).tag);
  }

  lemma LaneAfterSend(c: Setting, h: seq<seq<Event>>, s: Net, l: Label, t: Net, q: Worker, p: Worker, tag: int)
    requires Everybody(c, h, s) && IsWorker(c, q) && IsWorker(c, p) && Lane(c, h, s, q, p, tag)
    requires l.SendOne? && Step(c, s, l, t) && Lawful(c, h) && s.procs[l.p].log <= h[l.p.job]
    ensures q in t.procs && p in t.procs && Lane(c, h, t, q, p, tag)
  {
    CountsAfterSend(c, s, l, t, q, p, tag);
    NextSend(c, h, l.p.job, s.procs[l.p].log);
  }

  lemma LaneAfterRecv(c: Setting, h: seq<seq<Event>>, s: Net, l: Label, t: Net, q: Worker, p: Worker, tag: int)
    requires Everybody(c, h, s) && IsWorker(c, q) && IsWorker(c, p) && Lane(c, h, s, q, p, tag)
    requires l.RecvOne? && Step(c, s, l, t)
    ensures q in t.procs && p in t.procs && Lane(c, h, t, q, p, tag)
  {
    var a := Call(c, s, l.p);
    WiresDiffer(c, q, p, tag, Target(c, s, l.p), l.p, a.tag);
  }

  lemma LaneAfterBegin(c: Setting, h: seq<seq<Event>>, s: Net, l: Label, t: Net, q: Worker, p: Worker, tag: int)
    requires Everybody(c, h, s) && IsWorker(c, q) && IsWorker(c, p) && Lane(c, h, s, q, p, tag)
    requires (l.Begin? || l.Crash?) && Step(c, s, l, t)
    ensures q in t.procs && p in t.procs && Lane(c, h, t, q, p, tag)
  {
    LaneCarries(c, h, s, h, t, q, p, tag);
  }

  lemma CountsAfterPass(c: Setting, s: Net, l: Label, t: Net, q: Worker, p: Worker, tag: int)
    requires q in s.procs && p in s.procs && IsWorker(c, q) && IsWorker(c, p)
    requires (l.Skip? || l.Fail?) && Step(c, s, l, t) && InCall(c, s, l.p)
    ensures q in t.procs && p in t.procs && s.procs[p].ignored <= t.procs[p].ignored
    ensures InFlight(t, Wire(c, q, p, tag)) == InFlight(s, Wire(c, q, p, tag))
    ensures p in t.live && q !in t.procs[p].ignored ==>
              Consumed(c, t, q, p, tag) == Consumed(c, s, q, p, tag)
              && Produced(c, t, q, p, tag) == Produced(c, s, q, p, tag)
  {
    assert Target(c, s, l.p) in t.procs[l.p].ignored;
  }

  /** A worker that is passed over is dead, or is not listened to any more. */
  lemma LaneAfterPass(c: Setting, h: seq<seq<Event>>, s: Net, l: Label, t: Net, q: Worker, p: Worker, tag: int)
    requires Everybody(c, h, s) && IsWorker(c, q) && IsWorker(c, p) && Lane(c, h, s, q, p, tag)
    requires (l.Skip? || l.Fail?) && Step(c, s, l, t) && InCall(c, s, l.p)
    ensures q in t.procs && p in t.procs && Lane(c, h, t, q, p, tag)
  {
    CountsAfterPass(c, s, l, t, q, p, tag);
    if p in t.live && q !in t.procs[p].ignored {
      LaneCarries(c, h, s, h, t, q, p, tag);
    }
  }

  // ---------------------------------------------------------------------------------------------
  // A call returns
  // ---------------------------------------------------------------------------------------------

  function Done(c: Setting, s: Net, p: Worker): Event
    requires AtEnd(c, s, p)
  {
    EventOf(Call(c, s, p), s.procs[p].phase)
  }

  /** The histories grow when a process that has come to the end of its history returns from a call. */
  function Grown(c: Setting, h: seq<seq<Event>>, s: Net, l: Label): (g: seq<seq<Event>>)
    ensures |g| == |h|
  {
    if l.Finish? && AtEnd(c, s, l.p) && l.p.job < |h| && s.procs[l.p].log == h[l.p.job]
    then h[l.p.job := h[l.p.job] + [Done(c, s, l.p)]]
    else h
  }

  ghost predicate JobsAlive(c: Setting, live: set<Worker>) {
    forall j: nat :: j < |c.ranks| ==> SomeServed(live, j, |c.ranks[j]|)
  }

  /** A process behind the others repeats their event: the same message is sent, the same message is received. */
  lemma SameEvent(c: Setting, h: seq<seq<Event>>, s: Net, p: Worker)
    requires Everybody(c, h, s) && Lawful(c, h) && Fifo(c, h) && AtEnd(c, s, p) && Loaded(c, h, s, p)
    requires s.procs[p].log <= h[p.job] && |s.procs[p].log| < |h[p.job]|
    requires JobsAlive(c, s.live)
    ensures h[p.job][|s.procs[p].log|] == Done(c, s, p)
  {
    var log, a, full := s.procs[p].log, Call(c, s, p), h[p.job];
    var e := full[|log|];
    assert full[..|log|] == log && Fits(a, e);
    if a.Recv? {
      SendsStep(log, e, a.source, a.tag);
      assert log + [e] == full[..|log| + 1];
      SendsOfPrefix(log + [e], full, a.source, a.tag);
      assert Gots(full, a.source, a.tag) <= Stream(c, h, a.source, p.job, a.tag);
      assert SomeServed(s.live, a.source, |c.ranks[a.source]|);
    }
  }

  lemma GrownFits(c: Setting, s: Net, l: Label, t: Net)
    requires l.Finish? && Step(c, s, l, t)
    ensures Fits(c.prog(l.p.job, s.procs[l.p].log), Done(c, s, l.p))
    ensures t.procs[l.p].log == s.procs[l.p].log + [Done(c, s, l.p)]
  {
  }

  lemma CountsAfterFinish(c: Setting, s: Net, l: Label, t: Net, q: Worker, p: Worker, tag: int)
    requires q in s.procs && p in s.procs && IsWorker(c, q) && IsWorker(c, p) && l.Finish? && Step(c, s, l, t)
    ensures q in t.procs && p in t.procs
    ensures Consumed(c, t, q, p, tag) == Consumed(c, s, q, p, tag)
    ensures Produced(c, t, q, p, tag) == Produced(c, s, q, p, tag)
  {
    var log, e := s.procs[l.p].log, Done(c, s, l.p);
    SendsStep(log, e, p.job, tag);
    SendsStep(log, e, q.job, tag);
  }

  lemma LaneAfterFinish(c: Setting, h: seq<seq<Event>>, s: Net, l: Label, t: Net, q: Worker, p: Worker, tag: int)
    requires Everybody(c, h, s) && IsWorker(c, q) && IsWorker(c, p) && Lane(c, h, s, q, p, tag)
    requires l.Finish? && Step(c, s, l, t)
    ensures q in t.procs && p in t.procs && Lane(c, Grown(c, h, s, l), t, q, p, tag)
  {
    CountsAfterFinish(c, s, l, t, q, p, tag);
    GrownFits(c, s, l, t);
    if s.procs[l.p].log == h[l.p.job] {
      StreamGrows(c, h, l.p.job, Done(c, s, l.p), q.job, p.job, tag);
    }
    LaneCarries(c, h, s, Grown(c, h, s, l), t, q, p, tag);
  }

  lemma LoadedAfterFinish(c: Setting, h: seq<seq<Event>>, s: Net, l: Label, t: Net, p: Worker)
    requires Everybody(c, h, s) && IsWorker(c, p) && Loaded(c, h, s, p)
    requires l.Finish? && Step(c, s, l, t)
    ensures p in t.procs && Loaded(c, Grown(c, h, s, l), t, p)
  {
    GrownFits(c, s, l, t);
    var a := Call(c, s, p);
    if p != l.p && a.Recv? && a.source < |h| && s.procs[l.p].log == h[l.p.job] {
      StreamGrows(c, h, l.p.job, Done(c, s, l.p), a.source, p.job, a.tag);
    }
  }

  lemma FifoAfterFinish(c: Setting, h: seq<seq<Event>>, s: Net, l: Label, t: Net, a: nat, b: nat, tag: int)
    requires Everybody(c, h, s) && Fifo(c, h) && a < |h| && b < |h|
    requires l.Finish? && Step(c, s, l, t) && Loaded(c, h, s, l.p) && JobsAlive(c, s.live)
    ensures Gots(Grown(c, h, s, l)[b], a, tag) <= Stream(c, Grown(c, h, s, l), a, b, tag)
  {
    GrownFits(c, s, l, t);
    assert Gots(h[b], a, tag) <= Stream(c, h, a, b, tag);
    if s.procs[l.p].log == h[l.p.job] {
      StreamGrows(c, h, l.p.job, Done(c, s, l.p), a, b, tag);
      SendsStep(h[l.p.job], Done(c, s, l.p), a, tag);
      if l.p.job == b && Done(c, s, l.p).Got? {
        LastIsNext(c, h, s, l.p);
      }
    }
  }

  /** A receive that returns returns the next message of the stream. */
  lemma LastIsNext(c: Setting, h: seq<seq<Event>>, s: Net, p: Worker)
    requires Everybody(c, h, s) && AtEnd(c, s, p) && Loaded(c, h, s, p) && JobsAlive(c, s.live) && Done(c, s, p).Got?
    ensures var e := Done(c, s, p);
            e.source < |h| && NextOf(Gots(s.procs[p].log, e.source, e.tag), Stream(c, h, e.source, p.job, e.tag), e.msg)
  {
    var a := Call(c, s, p);
    assert SomeServed(s.live, a.source, |c.ranks[a.source]|);
  }

  lemma LawfulAfterFinish(c: Setting, h: seq<seq<Event>>, s: Net, l: Label, t: Net)
    requires Everybody(c, h, s) && Lawful(c, h) && l.Finish? && Step(c, s, l, t)
    ensures Lawful(c, Grown(c, h, s, l))
  {
    GrownFits(c, s, l, t);
    var g := Grown(c, h, s, l);
    forall j, n | 0 <= j < |g| && 0 <= n < |g[j]| ensures Fits(c.prog(j, g[j][..n]), g[j][n]) {
      if n < |h[j]| {
        assert g[j][..n] == h[j][..n] && g[j][n] == h[j][n];
      } else {
        assert g[j][..n] == h[j];
      }
    }
  }

  // ---------------------------------------------------------------------------------------------
  // Progress
  // ---------------------------------------------------------------------------------------------

  /** Tags below 100 of different senders never meet on the wire. */
  lemma TagsNameSenders(r1: Pid, t1: int, r2: Pid, t2: int)
    requires 0 <= t1 < 100 && 0 <= t2 < 100
    ensures SetTag(r1, t1) == SetTag(r2, t2) <==> r1 == r2 && t1 == t2
    ensures SetTag(r1, t1) >= 100
  {
  }

  /** p waits for a live worker that has not sent yet. */
  predicate Waiting(c: Setting, s: Net, p: Worker) {
    && AtTarget(c, s, p) && Call(c, s, p).Recv?
    && var q := Target(c, s, p);
       q in s.live && q !in s.procs[p].ignored && IsWorker(c, q) && InFlight(s, Wire(c, q, p, Call(c, s, p).tag)) == []
  }

  /** The program asks for a job that exists. */
  predicate CallsJob(c: Setting, a: Action) {
    match a
    case Send(d, _, _) => d < |c.ranks|
    case Recv(j, _) => j < |c.ranks|
    case Halt => false
  }

  /** No process is ever stuck: it can go on, whoever has died, unless it waits for a message of a live worker. */
  lemma NeverStuck(c: Setting, s: Net, p: Worker, stale: Bytes) returns (l: Label, t: Net)
    requires Ready(c, s, p) && InCall(c, s, p) && CallsJob(c, Call(c, s, p)) && !Waiting(c, s, p)
    ensures l.p == p && Step(c, s, l, t)
  {
    var pr, a := s.procs[p], Call(c, s, p);
    if pr.phase.Idle? {
      l := Begin(p, stale);
      t := s.(procs := s.procs[p := pr.(phase := if a.Send? then Sending(0) else Receiving(0, stale))]);
    } else if AtEnd(c, s, p) {
      l := Finish(p);
      t := s.(procs := s.procs[p := pr.(log := pr.log + [EventOf(a, pr.phase)], phase := Idle)]);
    } else {
      var q := Target(c, s, p);
      if q in pr.ignored {
        l := Skip(p);
        t := s.(procs := s.procs[p := pr.(phase := Next(pr.phase))]);
      } else if q !in s.live {
        var kept := if pr.phase.Receiving? then pr.phase.buf else [];
        l := Fail(p, {q}, [], kept);
        t := s.(procs := s.procs[p := pr.(phase := FailedPhase(pr.phase, kept), ignored := pr.ignored + {q})]);
      } else if a.Send? {
        var k := Wire(c, p, q, a.tag);
        l := SendOne(p);
        t := s.(procs := s.procs[p := pr.(phase := Next(pr.phase))], chan := s.chan[k := InFlight(s, k) + [a.msg]]);
      } else {
        var k := Wire(c, q, p, a.tag);
        l := RecvOne(p);
        t := s.(procs := s.procs[p := pr.(phase := Receiving(pr.phase.i + 1, InFlight(s, k)[0]))],
                chan := s.chan[k := InFlight(s, k)[1..]]);
      }
    }
  }

  // ---------------------------------------------------------------------------------------------
  // Runs
  // ---------------------------------------------------------------------------------------------

  lemma LaneAfter(c: Setting, h: seq<seq<Event>>, s: Net, l: Label, t: Net, q: Worker, p: Worker, tag: int)
    requires Inv(c, h, s) && Step(c, s, l, t) && IsWorker(c, q) && IsWorker(c, p)
    ensures q in t.procs && p in t.procs && Lane(c, Grown(c, h, s, l), t, q, p, tag)
  {
    assert Lane(c, h, s, q, p, tag);
    match l
    case SendOne(x) =>
      assert s.procs[x].log <= h[x.job];
      LaneAfterSend(c, h, s, l, t, q, p, tag);
    case RecvOne(_) => LaneAfterRecv(c, h, s, l, t, q, p, tag);
    case Finish(_) => LaneAfterFinish(c, h, s, l, t, q, p, tag);
    case Begin(_, _) => LaneAfterBegin(c, h, s, l, t, q, p, tag);
    case Crash(_) => LaneAfterBegin(c, h, s, l, t, q, p, tag);
    case Skip(x) =>
      assert InCall(c, s, x);
      LaneAfterPass(c, h, s, l, t, q, p, tag);
    case Fail(x, _, _, _) =>
      assert InCall(c, s, x);
      LaneAfterPass(c, h, s, l, t, q, p, tag);
  }

  lemma InCallAfter(c: Setting, s: Net, l: Label, t: Net, p: Worker)
    requires p in s.procs && Step(c, s, l, t) && InCall(c, s, p)
    ensures p in t.procs && InCall(c, t, p)
  {
  }

  lemma LoadedAfter(c: Setting, h: seq<seq<Event>>, s: Net, l: Label, t: Net, p: Worker)
    requires Inv(c, h, s) && Step(c, s, l, t) && IsWorker(c, p)
    ensures p in t.procs && Loaded(c, Grown(c, h, s, l), t, p)
  {
    assert Loaded(c, h, s, p) && InCall(c, s, p);
    match l
    case Finish(_) => LoadedAfterFinish(c, h, s, l, t, p);
    case RecvOne(_) => LoadedAfterRecv(c, h, s, l, t, p);
    case Fail(_, _, _, _) => LoadedAfterFail(c, h, s, l, t, p);
    case _ => LoadedAfterOther(c, h, s, l, t, p);
  }

  /** What is taken out of a lane is the next message of the stream. */
  lemma LoadedAfterRecv(c: Setting, h: seq<seq<Event>>, s: Net, l: Label, t: Net, p: Worker)
    requires Inv(c, h, s) && l.RecvOne? && Step(c, s, l, t) && IsWorker(c, p)
    ensures p in t.procs && Loaded(c, h, t, p)
  {
    assert Loaded(c, h, s, p);
    if p == l.p {
      assert Lane(c, h, s, Target(c, s, p), p, Call(c, s, p).tag);
    }
  }

  /** The message that arrives from a dead worker when its receive fails is the next one of the stream all the same. */
  lemma ArrivingIsNext(c: Setting, h: seq<seq<Event>>, s: Net, q: Worker, p: Worker, m: Bytes)
    requires Inv(c, h, s) && IsWorker(c, q) && IsWorker(c, p) && AtTarget(c, s, p) && Call(c, s, p).Recv?
    requires q == Target(c, s, p) && q !in s.procs[p].ignored && Arriving(c, s, q, p, Call(c, s, p).tag, m)
    ensures NextOf(Gots(s.procs[p].log, q.job, Call(c, s, p).tag), Stream(c, h, q.job, p.job, Call(c, s, p).tag), m)
  {
    assert Lane(c, h, s, q, p, Call(c, s, p).tag);
    assert s.procs[q].log <= h[q.job];
    if InFlight(s, Wire(c, q, p, Call(c, s, p).tag)) == [] {
      NextSend(c, h, q.job, s.procs[q].log);
    }
  }

  lemma TornOfNext(taken: seq<Bytes>, stream: seq<Bytes>, was: Bytes, m: Bytes, torn: Bytes)
    requires NextOf(taken, stream, was)
    requires torn == was || (TornBy(was, m, torn) && NextOf(taken, stream, m))
    ensures NextOf(taken, stream, torn)
  {
    assert torn == was;
  }

  /** So a failed receive cannot spoil a buffer that a live worker has filled. */
  lemma LoadedAfterFail(c: Setting, h: seq<seq<Event>>, s: Net, l: Label, t: Net, p: Worker)
    requires Inv(c, h, s) && l.Fail? && Step(c, s, l, t) && IsWorker(c, p)
    ensures p in t.procs && Loaded(c, h, t, p)
  {
    assert Loaded(c, h, s, p) && InCall(c, s, p);
    var a := Call(c, s, p);
    if t.procs[p].phase.Receiving? && a.Recv? && a.source < |h| && SomeServed(t.live, a.source, t.procs[p].phase.i) {
      var x: nat :| x < t.procs[p].phase.i && Worker(a.source, x) in t.live;
      assert x < s.procs[p].phase.i && Worker(a.source, x) in s.live;
      if p == l.p {
        var q, stream := Target(c, s, p), Stream(c, h, a.source, p.job, a.tag);
        if Arriving(c, s, q, p, a.tag, l.arriving) {
          ArrivingIsNext(c, h, s, q, p, l.arriving);
        }
        TornOfNext(Gots(s.procs[p].log, a.source, a.tag), stream, s.procs[p].phase.buf, l.arriving, l.torn);
      }
    }
  }

  lemma LoadedAfterOther(c: Setting, h: seq<seq<Event>>, s: Net, l: Label, t: Net, p: Worker)
    requires Everybody(c, h, s) && !l.Finish? && !l.RecvOne? && !l.Fail? && Step(c, s, l, t) && IsWorker(c, p)
    requires Loaded(c, h, s, p) && InCall(c, s, p)
    ensures p in t.procs && Loaded(c, h, t, p)
  {
    if t.procs[p].phase.Receiving? && SomeServed(t.live, Call(c, t, p).source, t.procs[p].phase.i) {
      var x: nat :| x < t.procs[p].phase.i && Worker(Call(c, t, p).source, x) in t.live;
      assert x < s.procs[p].phase.i && Worker(Call(c, s, p).source, x) in s.live;
    }
  }

  lemma LogAfter(c: Setting, h: seq<seq<Event>>, s: Net, l: Label, t: Net, p: Worker)
    requires Inv(c, h, s) && Step(c, s, l, t) && IsWorker(c, p) && (l.Finish? ==> JobsAlive(c, s.live))
    ensures p in t.procs && t.procs[p].log <= Grown(c, h, s, l)[p.job]
  {
    assert s.procs[p].log <= h[p.job];
    if l.Finish? && p == l.p {
      assert Loaded(c, h, s, p);
      GrownFits(c, s, l, t);
      if |s.procs[p].log| < |h[p.job]| {
        SameEvent(c, h, s, p);
      }
    }
  }

  /** One step keeps the invariant; a call returns only while every job still has a live worker. */
  lemma StepKeepsInv(c: Setting, h: seq<seq<Event>>, s: Net, l: Label, t: Net)
    requires Inv(c, h, s) && Step(c, s, l, t) && (l.Finish? ==> JobsAlive(c, s.live))
    ensures Inv(c, Grown(c, h, s, l), t)
  {
    var g := Grown(c, h, s, l);
    forall p | IsWorker(c, p)
      ensures p in t.procs && t.procs[p].log <= g[p.job] && InCall(c, t, p) && Loaded(c, g, t, p)
    {
      assert InCall(c, s, p);
      LogAfter(c, h, s, l, t, p);
      InCallAfter(c, s, l, t, p);
      LoadedAfter(c, h, s, l, t, p);
    }
    forall q, p, tag | IsWorker(c, q) && IsWorker(c, p)
      ensures q in t.procs && p in t.procs && Lane(c, g, t, q, p, tag)
    {
      LaneAfter(c, h, s, l, t, q, p, tag);
    }
    if l.Finish? {
      LawfulAfterFinish(c, h, s, l, t);
      assert Loaded(c, h, s, l.p);
      forall a: nat, b: nat, tag | a < |g| && b < |g| ensures Gots(g[b], a, tag) <= Stream(c, g, a, b, tag) {
        FifoAfterFinish(c, h, s, l, t, a, b, tag);
      }
    }
  }

  /**
   * One step of the system without replicas: a job makes the next call of its program. A send
   * puts its message at the end of the logical channel, a receive takes the first message it
   * has not taken yet, and needs one that was sent or is being sent.
   */
  ghost predicate LogicalStep(c: Setting, h: seq<seq<Event>>, g: seq<seq<Event>>, j: nat) {
    && j < |h| && |g| == |h|
    && exists e :: g == h[j := h[j] + [e]] && Fits(c.prog(j, h[j]), e)
         && (e.Got? ==> e.source < |h| && NextOf(Gots(h[j], e.source, e.tag), Stream(c, h, e.source, j, e.tag), e.msg))
  }

  /** Every step of the replicated system is invisible to the jobs, or is one step of the system without replicas. */
  lemma StepRefines(c: Setting, h: seq<seq<Event>>, s: Net, l: Label, t: Net)
    requires Inv(c, h, s) && Step(c, s, l, t) && (l.Finish? ==> JobsAlive(c, s.live))
    ensures Grown(c, h, s, l) == h || (l.Finish? && LogicalStep(c, h, Grown(c, h, s, l), l.p.job))
  {
    if l.Finish? && s.procs[l.p].log == h[l.p.job] {
      var e, a := Done(c, s, l.p), Call(c, s, l.p);
      GrownFits(c, s, l, t);
      assert Loaded(c, h, s, l.p);
      if a.Recv? {
        assert SomeServed(s.live, a.source, |c.ranks[a.source]|);
      }
      assert Grown(c, h, s, l) == h[l.p.job := h[l.p.job] + [e]];
    }
  }

  ghost predicate Started(c: Setting, s: Net) {
    && s.chan == map[]
    && forall p :: IsWorker(c, p) ==> p in s.procs && s.procs[p] == Proc([], Idle, {})
  }

  ghost predicate IsRun(c: Setting, states: seq<Net>, labels: seq<Label>) {
    && |states| == |labels| + 1 && Started(c, states[0])
    && forall i {:trigger labels[i]} :: 0 <= i < |labels| ==> Step(c, states[i], labels[i], states[i + 1])
  }

  /** The histories of the jobs after k steps. */
  ghost function Histories(c: Setting, states: seq<Net>, labels: seq<Label>, k: nat): (h: seq<seq<Event>>)
    requires |states| == |labels| + 1 && k <= |labels|
    ensures |h| == |c.ranks|
  {
    if k == 0 then seq(|c.ranks|, _ => [])
    else Grown(c, Histories(c, states, labels, k - 1), states[k - 1], labels[k - 1])
  }

  lemma AliveBefore(c: Setting, live: set<Worker>, later: set<Worker>)
    requires later <= live && JobsAlive(c, later)
    ensures JobsAlive(c, live)
  {
    forall j: nat | j < |c.ranks| ensures SomeServed(live, j, |c.ranks[j]|) {
      assert SomeServed(later, j, |c.ranks[j]|);
      var x: nat :| x < |c.ranks[j]| && Worker(j, x) in later;
      assert Worker(j, x) in live;
    }
  }

  /** The invariant holds after every step of every run that leaves each job a live worker. */
  lemma {:induction false} RunKeepsInv(c: Setting, states: seq<Net>, labels: seq<Label>, k: nat)
    requires IsRun(c, states, labels) && k <= |labels| && JobsAlive(c, states[k].live)
    ensures Inv(c, Histories(c, states, labels, k), states[k])
  {
    if k > 0 {
      var s, l, t := states[k - 1], labels[k - 1], states[k];
      assert Step(c, s, l, t);
      AliveBefore(c, s.live, t.live);
      RunKeepsInv(c, states, labels, k - 1);
      StepKeepsInv(c, Histories(c, states, labels, k - 1), s, l, t);
    }
  }

  /** Replicas at the same program point have made the same calls and received the same messages. */
  lemma ReplicasAgree(c: Setting, states: seq<Net>, labels: seq<Label>, k: nat, p: Worker, q: Worker)
    requires IsRun(c, states, labels) && k <= |labels| && JobsAlive(c, states[k].live)
    requires IsWorker(c, p) && IsWorker(c, q) && p.job == q.job
    ensures p in states[k].procs && q in states[k].procs
    ensures var x, y := states[k].procs[p].log, states[k].procs[q].log;
            (x <= y || y <= x) && (|x| == |y| ==> x == y)
  {
    RunKeepsInv(c, states, labels, k);
    var h := Histories(c, states, labels, k);
    assert states[k].procs[p].log <= h[p.job] && states[k].procs[q].log <= h[q.job];
  }

  /** Some process has come to the end of the history of its job. */
  ghost predicate Front(c: Setting, s: Net, j: nat, log: seq<Event>) {
    exists p :: IsWorker(c, p) && p.job == j && p in s.procs && s.procs[p].log == log
  }

  lemma {:induction false} HistoryIsReached(c: Setting, states: seq<Net>, labels: seq<Label>, k: nat, j: nat)
    requires IsRun(c, states, labels) && k <= |labels| && JobsAlive(c, states[k].live) && j < |c.ranks|
    ensures Front(c, states[k], j, Histories(c, states, labels, k)[j])
  {
    if k == 0 {
      assert SomeServed(states[0].live, j, |c.ranks[j]|);
      assert IsWorker(c, Worker(j, 0));
    } else {
      var s, l, t := states[k - 1], labels[k - 1], states[k];
      assert Step(c, s, l, t);
      AliveBefore(c, s.live, t.live);
      HistoryIsReached(c, states, labels, k - 1, j);
      var h := Histories(c, states, labels, k - 1);
      var p :| IsWorker(c, p) && p.job == j && p in s.procs && s.procs[p].log == h[j];
      if l.Finish? && s.procs[l.p].log == h[l.p.job] && l.p.job == j {
        GrownFits(c, s, l, t);
        assert IsWorker(c, l.p) && l.p in t.procs && t.procs[l.p].log == Histories(c, states, labels, k)[j];
      } else {
        assert p in t.procs && t.procs[p].log == h[j];
      }
    }
  }

  /**
   * The n-th receive of a tag leaves the n-th message of the source job: the one that every source worker sends n-th.
   */
  lemma NthReceive(c: Setting, states: seq<Net>, labels: seq<Label>, k: nat, p: Worker, a: nat, tag: int, n: nat)
    returns (sender: Worker)
    requires IsRun(c, states, labels) && k <= |labels| && JobsAlive(c, states[k].live)
    requires IsWorker(c, p) && a < |c.ranks| && p in states[k].procs && n < |Gots(states[k].procs[p].log, a, tag)|
    ensures IsWorker(c, sender) && sender.job == a && sender in states[k].procs
    ensures var sent := Sends(Ahead(c, a, states[k].procs[sender].log), p.job, tag);
            n < |sent| && Gots(states[k].procs[p].log, a, tag)[n] == sent[n]
    ensures forall q :: IsWorker(c, q) && q.job == a && q in states[k].procs ==>
              var sent := Sends(states[k].procs[q].log, p.job, tag);
              n < |sent| ==> Gots(states[k].procs[p].log, a, tag)[n] == sent[n]
  {
    var s, h := states[k], Histories(c, states, labels, k);
    RunKeepsInv(c, states, labels, k);
    HistoryIsReached(c, states, labels, k, a);
    sender :| IsWorker(c, sender) && sender.job == a && sender in s.procs && s.procs[sender].log == h[a];
    assert s.procs[p].log <= h[p.job];
    SendsOfPrefix(s.procs[p].log, h[p.job], a, tag);
    assert Gots(h[p.job], a, tag) <= Stream(c, h, a, p.job, tag);
    forall q | IsWorker(c, q) && q.job == a && q in s.procs
      ensures Sends(s.procs[q].log, p.job, tag) <= Stream(c, h, a, p.job, tag)
    {
      assert s.procs[q].log <= h[a] <= Ahead(c, a, h[a]);
      SendsOfPrefix(s.procs[q].log, Ahead(c, a, h[a]), p.job, tag);
    }
  }
}
