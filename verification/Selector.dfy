/** src/manager/fault_injector/selector/selector.go: choosing the ranks to kill. */
module Selector {
  import opened Mpi
  import opened NodeState
  import opened Ulfm
  import opened Repair
  import opened Recovery
  import opened MapFiles
  import M = Manager
  import R = Rounds

  const KILL_COMPUTE := 0
  const KILL_REPLICA := 1
  const KILL_ANY := 2

  datatype Opts = Opts(imageToKill: int, killEvenIfNotReplicated: bool)

  // One round of the loop of getNew: start again, start again and count, or take this rank.
  datatype Outcome = Again | Counted | Take(rank: int)

  // getNew returns a rank or an error; the loop may also go on for longer than anybody watches.
  datatype Found = Rank(rank: int) | Error | StillLooking

  function Entry(cr: CR, index: nat): int {
    if index == 0 then cr.compute else cr.replica
  }

  /** Which of the two ranks of a job is looked at; `drawn` is used only by KILL_ANY. */
  function IndexFor(opts: Option<Opts>, drawn: nat): (x: nat)
    requires drawn < 2
    ensures x < 2
  {
    match opts
    case None => 0
    case Some(o) => if o.imageToKill == KILL_ANY then drawn else if o.imageToKill == KILL_REPLICA then 1 else 0
  }

  predicate Reckless(opts: Option<Opts>) {
    opts.Some? && opts.value.killEvenIfNotReplicated
  }

  function Try(cr: CR, opts: Option<Opts>, queued: set<int>, drawn: nat): Outcome
    requires drawn < 2
  {
    var x := IndexFor(opts, drawn);
    var rank, other := Entry(cr, x), Entry(cr, 1 - x);
    if rank < 0 then Again
    else if !Reckless(opts) && (other == -1 || other in queued) then Again
    else if rank in queued then Counted
    else Take(rank)
  }

  // ---------------------------------------------------------------------------------------------
  // What queueing keeps
  // ---------------------------------------------------------------------------------------------

  predicate Has(cr: CR, rank: int) {
    rank >= 0 && (cr.compute == rank || cr.replica == rank)
  }

  /** No rank is listed twice, and the only entry that is not a rank is -1. */
  ghost predicate Clean(repMap: seq<CR>) {
    && (forall j :: 0 <= j < |repMap| ==>
      repMap[j].compute >= 0 && repMap[j].replica >= -1 && repMap[j].compute != repMap[j].replica)
    && forall i, j, r :: 0 <= i < j < |repMap| && Has(repMap[i], r) ==> !Has(repMap[j], r)
  }

  /** The job keeps a rank that nobody has queued. */
  ghost predicate Spared(cr: CR, queued: set<int>) {
    exists r :: Has(cr, r) && r !in queued
  }

  ghost predicate EveryJobSpared(repMap: seq<CR>, queued: set<int>) {
    forall j :: 0 <= j < |repMap| ==> Spared(repMap[j], queued)
  }

  /** At most one rank of each job is queued, and none of a job without a replica. */
  ghost predicate OnePerJob(repMap: seq<CR>, queued: set<int>) {
    forall j :: 0 <= j < |repMap| ==>
      !(repMap[j].compute in queued && (repMap[j].replica == -1 || repMap[j].replica in queued))
  }

  lemma OnePerJobSpares(repMap: seq<CR>, queued: set<int>)
    requires Clean(repMap) && OnePerJob(repMap, queued)
    ensures EveryJobSpared(repMap, queued)
  {
    forall j | 0 <= j < |repMap| ensures Spared(repMap[j], queued) {
      assert Has(repMap[j], repMap[j].compute);
      assert repMap[j].replica >= 0 ==> Has(repMap[j], repMap[j].replica);
    }
  }

  /** A rank that is taken was not queued before, and its job keeps the other one. */
  lemma TakingSpares(repMap: seq<CR>, opts: Option<Opts>, queued: set<int>, j: nat, drawn: nat)
    requires Clean(repMap) && j < |repMap| && drawn < 2 && !Reckless(opts)
    requires OnePerJob(repMap, queued) && Try(repMap[j], opts, queued, drawn).Take?
    ensures OnePerJob(repMap, queued + {Try(repMap[j], opts, queued, drawn).rank})
  {
    var rank := Try(repMap[j], opts, queued, drawn).rank;
    assert Has(repMap[j], rank);
    forall i | 0 <= i < |repMap| && i != j ensures repMap[i].compute != rank && repMap[i].replica != rank {
      assert !Has(repMap[i], rank);
    }
  }

  /** With KillEvenIfNotReplicated, the only worker of a job is taken like any other. */
  lemma RecklessTakesTheLast(cr: CR, opts: Option<Opts>, queued: set<int>, drawn: nat)
    requires drawn < 2 && IndexFor(opts, drawn) == 0 && cr.compute >= 0 && cr.replica == -1 && cr.compute !in queued
    ensures Spared(cr, queued) && !Spared(cr, queued + {cr.compute})
    ensures Try(cr, opts, queued, drawn) == Take(cr.compute) <==> Reckless(opts)
  {
    assert Has(cr, cr.compute);
  }

  /** What `patience` rounds of the loop of getNew come to, and the next draw. */
  function Look(repMap: seq<CR>, opts: Option<Opts>, queued: set<int>, which: M.Draws, index: M.Draws, t: nat,
                cnt: nat, patience: nat)
    : (Found, nat)
    requires M.Below(which, |repMap|) && M.Below(index, 2)
    decreases patience
  {
    if patience == 0 then (StillLooking, t)
    else
      match Try(repMap[which(t)], opts, queued, index(t))
      case Again => Look(repMap, opts, queued, which, index, t + 1, cnt, patience - 1)
      case Counted =>
        if cnt == 5 then (Error, t + 1)
        else Look(repMap, opts, queued, which, index, t + 1, cnt + 1, patience - 1)
      case Take(rank) => (Rank(rank), t + 1)
  }

  // ---------------------------------------------------------------------------------------------
  // Which rank is taken
  // ---------------------------------------------------------------------------------------------

  /** The image of the job that the options ask for: its first rank, its replica, or the one that was drawn. */
  ghost predicate Aims(cr: CR, opts: Option<Opts>, drawn: nat, rank: int) {
    && (opts.None? || opts.value.imageToKill == KILL_COMPUTE ==> rank == cr.compute)
    && (opts.Some? && opts.value.imageToKill == KILL_REPLICA ==> rank == cr.replica)
    && (opts.Some? && opts.value.imageToKill == KILL_ANY ==> rank == if drawn == 0 then cr.compute else cr.replica)
    && (rank == cr.compute || rank == cr.replica)
  }

  /** The options that the program has names for. */
  predicate Known(opts: Option<Opts>) {
    opts.Some? ==> opts.value.imageToKill in {KILL_COMPUTE, KILL_REPLICA, KILL_ANY}
  }

  /** The job has another rank that nobody has queued, or that does not matter. */
  ghost predicate CanSpare(cr: CR, opts: Option<Opts>, queued: set<int>, rank: int) {
    Reckless(opts) || exists other :: Has(cr, other) && other != rank && other !in queued
  }

  /** A draw that ends the search with this rank. */
  ghost predicate Takeable(cr: CR, opts: Option<Opts>, queued: set<int>, drawn: nat, rank: int) {
    Aims(cr, opts, drawn, rank) && rank >= 0 && rank !in queued && CanSpare(cr, opts, queued, rank)
  }

  /** A draw that is counted: everything is right about the rank, but it is queued already. */
  ghost predicate Wasted(cr: CR, opts: Option<Opts>, queued: set<int>, drawn: nat) {
    exists rank :: Aims(cr, opts, drawn, rank) && rank >= 0 && rank in queued && CanSpare(cr, opts, queued, rank)
  }

  ghost function CountWasted(repMap: seq<CR>, opts: Option<Opts>, queued: set<int>, which: M.Draws, index: M.Draws,
                             from: nat, to: nat): nat
    requires M.Below(which, |repMap|)
    decreases if to <= from then 0 else to - from
  {
    if to <= from then 0
    else (if Wasted(repMap[which(from)], opts, queued, index(from)) then 1 else 0)
         + CountWasted(repMap, opts, queued, which, index, from + 1, to)
  }

  lemma TryMeaning(cr: CR, opts: Option<Opts>, queued: set<int>, drawn: nat)
    requires Known(opts) && drawn < 2 && cr.compute >= 0 && cr.replica >= -1 && cr.compute != cr.replica
    ensures forall rank :: Try(cr, opts, queued, drawn) == Take(rank) <==> Takeable(cr, opts, queued, drawn, rank)
    ensures Try(cr, opts, queued, drawn) == Counted <==> Wasted(cr, opts, queued, drawn)
  {
    var rank, other := Entry(cr, IndexFor(opts, drawn)), Entry(cr, 1 - IndexFor(opts, drawn));
    assert forall r :: Has(cr, r) <==> r >= 0 && (r == rank || r == other);
    assert forall r :: Aims(cr, opts, drawn, r) <==> r == rank;
    assert other != -1 && other !in queued ==> Has(cr, other);
  }

  /**
   * The search from draw t on has ended before draw t2: with the rank of the first draw that qualifies, or at the sixth
   * draw of a rank that is queued already (cnt were seen before), or because nobody has watched any longer.
   */
  ghost predicate EndsWith(repMap: seq<CR>, opts: Option<Opts>, queued: set<int>, which: M.Draws, index: M.Draws,
                           t: nat, cnt: nat, patience: nat, q: Found, t2: nat)
    requires M.Below(which, |repMap|)
  {
    && t <= t2 <= t + patience
    && (forall k, rank :: t <= k < t2 - (if q.Rank? then 1 else 0) ==>
      !Takeable(repMap[which(k)], opts, queued, index(k), rank))
    && (q.Rank? ==> t < t2 && Takeable(repMap[which(t2 - 1)], opts, queued, index(t2 - 1), q.rank))
    && (q.Error? <==> cnt + CountWasted(repMap, opts, queued, which, index, t, t2) == 6)
    && (q.StillLooking? ==> t2 == t + patience)
  }

  lemma OneMoreDraw(repMap: seq<CR>, opts: Option<Opts>, queued: set<int>, which: M.Draws, index: M.Draws,
                    t: nat, cnt: nat, patience: nat, q: Found, t2: nat)
    requires M.Below(which, |repMap|) && patience > 0
    requires forall rank :: !Takeable(repMap[which(t)], opts, queued, index(t), rank)
    requires EndsWith(repMap, opts, queued, which, index, t + 1,
                      cnt + (if Wasted(repMap[which(t)], opts, queued, index(t)) then 1 else 0), patience - 1, q, t2)
    ensures EndsWith(repMap, opts, queued, which, index, t, cnt, patience, q, t2)
  {
  }

  lemma EndsHere(repMap: seq<CR>, opts: Option<Opts>, queued: set<int>, which: M.Draws, index: M.Draws,
                 t: nat, cnt: nat, patience: nat, q: Found)
    requires M.Below(which, |repMap|) && patience > 0 && cnt <= 5
    requires q.Rank? ==> Takeable(repMap[which(t)], opts, queued, index(t), q.rank)
    requires !q.Rank? ==> forall rank :: !Takeable(repMap[which(t)], opts, queued, index(t), rank)
    requires !q.StillLooking? && (q.Error? <==> cnt == 5 && Wasted(repMap[which(t)], opts, queued, index(t)))
    ensures EndsWith(repMap, opts, queued, which, index, t, cnt, patience, q, t + 1)
  {
    assert CountWasted(repMap, opts, queued, which, index, t + 1, t + 1) == 0;
  }

  lemma {:induction false} LookMeaning(repMap: seq<CR>, opts: Option<Opts>, queued: set<int>, which: M.Draws,
                                       index: M.Draws, t: nat, cnt: nat, patience: nat)
    requires Clean(repMap) && Known(opts) && M.Below(which, |repMap|) && M.Below(index, 2) && cnt <= 5
    ensures var (q, t2) := Look(repMap, opts, queued, which, index, t, cnt, patience);
            EndsWith(repMap, opts, queued, which, index, t, cnt, patience, q, t2)
    decreases patience
  {
    if patience > 0 {
      var (q, t2) := Look(repMap, opts, queued, which, index, t, cnt, patience);
      TryMeaning(repMap[which(t)], opts, queued, index(t));
      var outcome := Try(repMap[which(t)], opts, queued, index(t));
      if outcome.Take? || (outcome.Counted? && cnt == 5) {
        EndsHere(repMap, opts, queued, which, index, t, cnt, patience, q);
      } else {
        LookMeaning(repMap, opts, queued, which, index, t + 1, if outcome.Counted? then cnt + 1 else cnt, patience - 1);
        OneMoreDraw(repMap, opts, queued, which, index, t, cnt, patience, q, t2);
      }
    }
  }

  /** The ranks among the outcomes of several calls. */
  function RanksIn(found: seq<Found>): (ranks: seq<int>)
    ensures |ranks| <= |found|
  {
    if found == [] then []
    else RanksIn(found[..|found| - 1]) + if found[|found| - 1].Rank? then [found[|found| - 1].rank] else []
  }

  lemma RanksInStep(found: seq<Found>, q: Found)
    ensures RanksIn(found + [q]) == RanksIn(found) + if q.Rank? then [q.rank] else []
  {
    assert (found + [q])[..|found|] == found;
  }

  /** Each call goes on with the draws where the one before it has stopped, and sees its rank queued. */
  ghost predicate CallsInTurn(repMap: seq<CR>, opts: Option<Opts>, queued: set<int>, which: M.Draws, index: M.Draws,
                              patience: nat, found: seq<Found>, ts: seq<nat>)
    requires M.Below(which, |repMap|) && M.Below(index, 2)
  {
    && |ts| == |found| + 1 && ts[0] == 0
    && forall i {:trigger found[i]} :: 0 <= i < |found| ==>
         CallAt(repMap, opts, queued, which, index, patience, RanksIn(found[..i]), ts[i], found[i], ts[i + 1])
  }

  /** The call that starts with draw t, after these ranks were put into the queue, returns q and ends before draw t2. */
  predicate CallAt(repMap: seq<CR>, opts: Option<Opts>, queued: set<int>, which: M.Draws, index: M.Draws,
                   patience: nat, ranks: seq<int>, t: nat, q: Found, t2: nat)
    requires M.Below(which, |repMap|) && M.Below(index, 2)
  {
    (q, t2) == Look(repMap, opts, queued + (set r | r in ranks), which, index, t, 0, patience)
  }

  lemma OneMoreCall(repMap: seq<CR>, opts: Option<Opts>, queued: set<int>, which: M.Draws, index: M.Draws,
                    patience: nat, found: seq<Found>, ts: seq<nat>, q: Found, t: nat)
    requires M.Below(which, |repMap|) && M.Below(index, 2)
    requires CallsInTurn(repMap, opts, queued, which, index, patience, found, ts)
    requires (q, t)
        == Look(repMap, opts, queued + (set r | r in RanksIn(found)), which, index, ts[|found|], 0, patience)
    ensures CallsInTurn(repMap, opts, queued, which, index, patience, found + [q], ts + [t])
  {
    var more, times := found + [q], ts + [t];
    forall i | 0 <= i < |more|
      ensures CallAt(repMap, opts, queued, which, index, patience, RanksIn(more[..i]), times[i], more[i], times[i + 1])
    {
      if i < |found| {
        assert more[..i] == found[..i] && more[i] == found[i];
      } else {
        assert more[..i] == found;
      }
    }
  }

  /** Some draw aims at this rank. */
  ghost predicate Drawn(repMap: seq<CR>, opts: Option<Opts>, which: M.Draws, index: M.Draws, rank: int)
    requires M.Below(which, |repMap|)
  {
    exists k: nat :: Aims(repMap[which(k)], opts, index(k), rank)
  }

  /** The calls so far have put these ranks into the queue; `was` are the ranks that were queued before. */
  ghost predicate Queueing(repMap: seq<CR>, opts: Option<Opts>, was: set<int>, which: M.Draws, index: M.Draws,
                           patience: nat, found: seq<Found>, ts: seq<nat>, queue: seq<int>, now: set<int>)
    requires M.Below(which, |repMap|) && M.Below(index, 2)
  {
    && CallsInTurn(repMap, opts, was, which, index, patience, found, ts) && queue == RanksIn(found)
    && (forall i, k :: 0 <= i < k < |queue| ==> queue[i] != queue[k])
    && now == was + (set r | r in queue) && (forall r :: r in queue ==> r !in was)
    && (!Reckless(opts) && OnePerJob(repMap, was) ==> OnePerJob(repMap, now))
    && (Known(opts) ==> forall r :: r in queue ==> Drawn(repMap, opts, which, index, r))
  }

  function WithRank(queue: seq<int>, q: Found): seq<int> {
    if q.Rank? then queue + [q.rank] else queue
  }

  lemma OneMoreQueued(repMap: seq<CR>, opts: Option<Opts>, was: set<int>, which: M.Draws, index: M.Draws,
                      patience: nat, found: seq<Found>, ts: seq<nat>, queue: seq<int>, now: set<int>,
                      q: Found, t: nat, next: set<int>)
    requires M.Below(which, |repMap|) && M.Below(index, 2)
    requires Queueing(repMap, opts, was, which, index, patience, found, ts, queue, now)
    requires (q, t) == Look(repMap, opts, now, which, index, ts[|found|], 0, patience)
    requires next == (if q.Rank? then now + {q.rank} else now) && (q.Rank? ==> q.rank !in now)
    requires !Reckless(opts) && OnePerJob(repMap, now) ==> OnePerJob(repMap, next)
    requires Known(opts) && q.Rank? ==> Drawn(repMap, opts, which, index, q.rank)
    ensures Queueing(repMap, opts, was, which, index, patience, found + [q], ts + [t], WithRank(queue, q), next)
  {
    OneMoreCall(repMap, opts, was, which, index, patience, found, ts, q, t);
    RanksInStep(found, q);
  }

  class Selector {
    const repMap: seq<CR>
    const intervals: nat
    const opts: Option<Opts>
    // the keys of RankQueued that are true
    var rankQueued: set<int>

    /** NewSelector */
    constructor (repMap: seq<CR>, intervals: nat, opts: Option<Opts>)
      ensures this.repMap == repMap && this.intervals == intervals && this.opts == opts && rankQueued == {}
    {
      this.repMap, this.intervals, this.opts := repMap, intervals, opts;
      rankQueued := {};
    }

    /** getNew, followed for at most `patience` rounds of its loop. */
    method GetNew(which: M.Draws, index: M.Draws, t0: nat, patience: nat) returns (q: Found, t: nat)
      requires Clean(repMap) && M.Below(which, |repMap|) && M.Below(index, 2)
      modifies this`rankQueued
      ensures (q, t) == Look(repMap, opts, old(rankQueued), which, index, t0, 0, patience)
      ensures q.Rank? ==> q.rank !in old(rankQueued) && rankQueued == old(rankQueued) + {q.rank}
      ensures q.Rank? ==> exists j :: 0 <= j < |repMap| && Has(repMap[j], q.rank)
      ensures !q.Rank? ==> rankQueued == old(rankQueued)
      ensures Known(opts) ==> EndsWith(repMap, opts, old(rankQueued), which, index, t0, 0, patience, q, t)
      ensures !Reckless(opts) && OnePerJob(repMap, old(rankQueued)) ==> OnePerJob(repMap, rankQueued)
    {
      if Known(opts) {
        LookMeaning(repMap, opts, rankQueued, which, index, t0, 0, patience);
      }
      var cnt := 0;
      t := t0;
      while t < t0 + patience
        invariant t0 <= t <= t0 + patience
        invariant Look(repMap, opts, rankQueued, which, index, t, cnt, t0 + patience - t)
               == Look(repMap, opts, rankQueued, which, index, t0, 0, patience)
      {
        var j, drawn := which(t), index(t);
        t := t + 1;
        match Try(repMap[j], opts, rankQueued, drawn) {
          case Again =>
          case Counted =>
            if cnt == 5 {
              return Error, t;
            }
            cnt := cnt + 1;
          case Take(rank) =>
            if !Reckless(opts) && OnePerJob(repMap, rankQueued) {
              TakingSpares(repMap, opts, rankQueued, j, drawn);
            }
            assert Has(repMap[j], rank);
            rankQueued := rankQueued + {rank};
            return Rank(rank), t;
        }
      }
      q := StillLooking;
    }

    /**
     * NextN: the calls of getNew in turn; an error is skipped. The queue holds no rank twice, jobs without a spare rank
     * lose nobody, and every rank is of the image asked for.
     */
    method NextN(n: nat, which: M.Draws, index: M.Draws, patience: nat)
      returns (queue: seq<int>, done: bool, ghost found: seq<Found>, ghost ts: seq<nat>)
      requires Clean(repMap) && M.Below(which, |repMap|) && M.Below(index, 2)
      modifies this`rankQueued
      ensures CallsInTurn(repMap, opts, old(rankQueued), which, index, patience, found, ts) && queue == RanksIn(found)
      ensures done ==> |found| == if n == 0 then intervals else n
      ensures !done ==> found != [] && found[|found| - 1].StillLooking?
      ensures forall i, k :: 0 <= i < k < |queue| ==> queue[i] != queue[k]
      ensures rankQueued == old(rankQueued) + (set r | r in queue) && forall r :: r in queue ==> r !in old(rankQueued)
      ensures !Reckless(opts) && OnePerJob(repMap, old(rankQueued)) ==> OnePerJob(repMap, rankQueued)
      ensures Known(opts) ==> forall r :: r in queue ==> Drawn(repMap, opts, which, index, r)
    {
      queue, found, ts := [], [], [0];
      var iter := if n == 0 then intervals else n;
      var t := 0;
      for i := 0 to iter
        invariant |found| == i && ts != [] && ts[|ts| - 1] == t
        invariant Queueing(repMap, opts, old(rankQueued), which, index, patience, found, ts, queue, rankQueued)
      {
        ghost var now := rankQueued;
        var q, t2 := GetNew(which, index, t, patience);
        OneMoreQueued(repMap, opts, old(rankQueued), which, index, patience, found, ts, queue, now, q, t2, rankQueued);
        found, ts, t := found + [q], ts + [t2], t2;
        queue := WithRank(queue, q);
        if q.StillLooking? {
          done := false;
          return;
        }
      }
      done := true;
    }
  }

  // ---------------------------------------------------------------------------------------------
  // Killing the queued ranks
  // ---------------------------------------------------------------------------------------------

  /** The map the injector has of a written version: one pair per job. */
  function PairsOf(v: seq<M.JobState>): (repMap: seq<CR>)
    ensures |repMap| == |v| && forall j :: 0 <= j < |v| ==> repMap[j] == PairOf(R.Ids(v[j].ranks))
  {
    seq(|v|, j requires 0 <= j < |v| => PairOf(R.Ids(v[j].ranks)))
  }

  /** The pair of a job names exactly its workers. */
  lemma PairNamesWorkers(v: seq<M.JobState>, j: nat, p: Pid)
    requires j < |v| && M.Small(v[j])
    ensures Has(PairsOf(v)[j], p) <==> p in R.Assignment(v)[j]
  {
    var job := R.Assignment(v)[j];
    assert Has(PairsOf(v)[j], p) <==> job[0] == p || (|job| == 2 && job[1] == p);
  }

  lemma PairsAreClean(v: seq<M.JobState>, size: nat)
    requires M.AllSmall(v) && M.Complete(v, size)
    ensures Clean(PairsOf(v))
  {
    R.CompleteIsPartition(v, size);
    var repMap, jobs := PairsOf(v), R.Assignment(v);
    forall j | 0 <= j < |repMap|
      ensures repMap[j].compute >= 0 && repMap[j].replica >= -1 && repMap[j].compute != repMap[j].replica
    {
      assert Distinct(jobs[j]) && repMap[j].compute == jobs[j][0]
             && (|jobs[j]| == 2 ==> repMap[j].replica == jobs[j][1]);
    }
    forall i, j, r | 0 <= i < j < |repMap| && Has(repMap[i], r) ensures !Has(repMap[j], r) {
      PairNamesWorkers(v, i, r);
      PairNamesWorkers(v, j, r);
      assert r in jobs[i] && JobOf(jobs, r) == i;
    }
  }

  /** What is queued for a version of the map: a head, a replica, or either, as the options say. */
  lemma ImageOfVersion(v: seq<M.JobState>, opts: Option<Opts>, which: M.Draws, index: M.Draws, r: int)
    requires M.AllSmall(v) && M.Below(which, |v|) && Known(opts) && Drawn(PairsOf(v), opts, which, index, r) && r >= 0
    ensures opts.Some? && opts.value.imageToKill == KILL_REPLICA ==>
      exists j :: 0 <= j < |v| && |R.Assignment(v)[j]| == 2 && R.Assignment(v)[j][1] == r
    ensures opts.None? || opts.value.imageToKill == KILL_COMPUTE ==>
      exists j :: 0 <= j < |v| && R.Assignment(v)[j] != [] && R.Assignment(v)[j][0] == r
    ensures exists j :: 0 <= j < |v| && r in R.Assignment(v)[j]
  {
    var k: nat :| Aims(PairsOf(v)[which(k)], opts, index(k), r);
    var j, job := which(k), R.Assignment(v)[which(k)];
    assert PairsOf(v)[j] == CR(job[0], if |job| == 2 then job[1] else -1);
    PairNamesWorkers(v, j, r);
    assert job == R.Assignment(v)[j] && job[0] in job;
  }

  /** Whichever queued ranks are killed, each job keeps a worker. */
  lemma KillingSparesJobs(v: seq<M.JobState>, queued: set<int>, dead: set<Pid>)
    requires M.AllSmall(v) && EveryJobSpared(PairsOf(v), queued) && forall p :: p in dead ==> p in queued
    ensures [] !in ShrinkAll(R.Assignment(v), dead)
  {
    var jobs := R.Assignment(v);
    forall j | 0 <= j < |jobs| ensures ShrinkAll(jobs, dead)[j] != [] {
      assert Spared(PairsOf(v)[j], queued);
      var r :| Has(PairsOf(v)[j], r) && r !in queued;
      PairNamesWorkers(v, j, r);
      assert r in Shrink(jobs[j], dead);
    }
  }

  /**
   * The processes know the version v, `gone` were killed and taken out before, `dead` are killed now: if all
   * of them were queued by a selector that spares jobs, no survivor finds a job without workers.
   */
  lemma InjectionNeverAborts(v: seq<M.JobState>, size: nat, queued: set<int>, gone: set<Pid>, dead: set<Pid>, s: State,
                             p: Pid)
    requires M.AllSmall(v) && M.Complete(v, size) && OnePerJob(PairsOf(v), queued)
    requires forall q :: q in gone + dead ==> q in queued
    requires Inv(s, ShrinkAll(R.Assignment(v), gone)) && dead !! s.live && p in s.live
    ensures WellFormed(s.nodes[p], |s.world|) && Translation(Translated(s.world, dead), |s.world|)
    ensures Repaired(s.nodes[p], Translated(s.world, dead)).Some?
  {
    var jobs := ShrinkAll(R.Assignment(v), gone);
    PairsAreClean(v, size);
    OnePerJobSpares(PairsOf(v), queued);
    KillingSparesJobs(v, queued, gone + dead);
    forall j | 0 <= j < |jobs| ensures Shrink(jobs[j], dead) == Shrink(R.Assignment(v)[j], gone + dead) {
      ShrinkTwice(R.Assignment(v)[j], gone, dead);
    }
    assert ShrinkAll(jobs, dead) == ShrinkAll(R.Assignment(v), gone + dead);
    assert Knows(s.nodes[p], p, s, jobs);
    RepairedKnows(s.nodes[p], p, s, jobs, dead);
  }
}
