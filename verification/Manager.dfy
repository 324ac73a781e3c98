/** src/manager/manager/manager.go: reshuffling the ranks between the jobs, one round per map version. */
module Manager {
  import opened Text

  datatype Rank = Rank(rank: nat, prevJob: int, stackAdd: nat)

  // What a Job of the job map holds; its JobID is its position.
  datatype JobState = JobState(ranks: seq<Rank>, modified: nat)

  // The numbers drawn by the random generator, one per round of a loop.
  type Draws = nat -> nat

  ghost predicate Below(draws: Draws, n: nat) {
    forall i :: draws(i) < n
  }

  function RemoveAt<T>(s: seq<T>, i: nat): (r: seq<T>)
    requires i < |s|
    ensures |r| == |s| - 1 && forall x :: x in r ==> x in s
  {
    s[..i] + s[i + 1..]
  }

  predicate NonEmpty(jobs: seq<JobState>) {
    forall j :: 0 <= j < |jobs| ==> jobs[j].ranks != []
  }

  /** A job of one or two ranks. */
  predicate Small(job: JobState) {
    |job.ranks| == 1 || |job.ranks| == 2
  }

  predicate AllSmall(jobs: seq<JobState>) {
    forall j :: 0 <= j < |jobs| ==> Small(jobs[j])
  }

  // ---------------------------------------------------------------------------------------------
  // InitJobMap
  // ---------------------------------------------------------------------------------------------

  /** The ranks below r that are congruent to j, in order. */
  function Dealt(j: nat, jobs: nat, r: nat): (ranks: seq<Rank>)
    requires j < jobs
  {
    if r == 0 then []
    else if (r - 1) % jobs == j then Dealt(j, jobs, r - 1) + [Rank(r - 1, -1, 0)]
    else Dealt(j, jobs, r - 1)
  }

  /** The job map after the first r ranks were dealt out in turn. */
  function Initial(jobs: nat, r: nat): (s: seq<JobState>)
    ensures |s| == jobs && forall j :: 0 <= j < jobs ==> s[j] == JobState(Dealt(j, jobs, r), 1)
  {
    seq(jobs, j requires 0 <= j < jobs => JobState(Dealt(j, jobs, r), 1))
  }

  // ---------------------------------------------------------------------------------------------
  // Choose
  // ---------------------------------------------------------------------------------------------

  datatype Picked = Picked(jobs: seq<JobState>, chosen: seq<Rank>)

  /** The body of the loop of Choose: `j` and `x` are the numbers drawn. */
  function Pick(p: Picked, n: int, j: nat, x: nat): (r: Picked)
    requires NonEmpty(p.jobs) && j < |p.jobs| && x < 2
    ensures NonEmpty(r.jobs) && |r.jobs| == |p.jobs|
  {
    if |p.chosen| >= n || |p.jobs[j].ranks| == 1 then p
    else
      var ranks := p.jobs[j].ranks;
      Picked(p.jobs[j := JobState(RemoveAt(ranks, x), 1)], p.chosen + [ranks[x]])
  }

  /** The job map and the chosen ranks after i rounds of the loop of Choose. */
  function Chosen(jobs: seq<JobState>, n: int, which: Draws, index: Draws, i: nat): (r: Picked)
    requires NonEmpty(jobs) && Below(which, |jobs|) && Below(index, 2)
    ensures NonEmpty(r.jobs) && |r.jobs| == |jobs|
  {
    if i == 0 then Picked(jobs, [])
    else Pick(Chosen(jobs, n, which, index, i - 1), n, which(i - 1), index(i - 1))
  }

  // ---------------------------------------------------------------------------------------------
  // Assign
  // ---------------------------------------------------------------------------------------------

  datatype Placed = Placed(jobs: seq<JobState>, count: nat)

  /** Would Assign put the rank r into job j? */
  predicate Accepts(jobs: seq<JobState>, j: nat, r: Rank)
    requires j < |jobs|
  {
    |jobs[j].ranks| != 2 && r.prevJob != j && jobs[j].ranks != [] && jobs[j].ranks[0].stackAdd == r.stackAdd
  }

  /** The body of the loop of Assign. */
  function Place(p: Placed, list: seq<Rank>, j: nat): (r: Placed)
    requires j < |p.jobs| && p.count <= |list|
    ensures |r.jobs| == |p.jobs| && r.count <= |list|
  {
    if p.count == |list| || !Accepts(p.jobs, j, list[p.count]) then p
    else Placed(p.jobs[j := JobState(p.jobs[j].ranks + [list[p.count]], 1)], p.count + 1)
  }

  /** The job map after t rounds of the loop of Assign, and how many ranks of the list are placed by then. */
  function Assigned(jobs: seq<JobState>, list: seq<Rank>, which: Draws, t: nat): (r: Placed)
    requires Below(which, |jobs|)
    ensures |r.jobs| == |jobs| && r.count <= |list|
  {
    if t == 0 then Placed(jobs, 0) else Place(Assigned(jobs, list, which, t - 1), list, which(t - 1))
  }

  /** Every job is drawn again and again: `next` tells when. */
  ghost predicate Fair(which: Draws, jobs: nat, next: (nat, nat) -> nat) {
    forall t: nat, j: nat {:trigger next(t, j)} :: j < jobs ==> next(t, j) >= t && which(next(t, j)) == j
  }

  // ---------------------------------------------------------------------------------------------
  // No rank is lost or duplicated
  // ---------------------------------------------------------------------------------------------

  /** How often the rank y occurs in a list, and in all lists of the job map. */
  function Occurs(ranks: seq<Rank>, y: nat): nat {
    if ranks == [] then 0
    else Occurs(ranks[..|ranks| - 1], y) + if ranks[|ranks| - 1].rank == y then 1 else 0
  }

  function Total(jobs: seq<JobState>, y: nat): nat {
    if jobs == [] then 0
    else Total(jobs[..|jobs| - 1], y) + Occurs(jobs[|jobs| - 1].ranks, y)
  }

  lemma {:induction false} OccursInBoth(a: seq<Rank>, b: seq<Rank>, y: nat)
    ensures Occurs(a + b, y) == Occurs(a, y) + Occurs(b, y)
  {
    if b == [] {
      assert a + b == a;
    } else {
      assert (a + b)[..|a + b| - 1] == a + b[..|b| - 1];
      OccursInBoth(a, b[..|b| - 1], y);
    }
  }

  lemma OccursInOne(x: Rank, y: nat)
    ensures Occurs([x], y) == if x.rank == y then 1 else 0
  {
    assert [x][..0] == [];
  }

  lemma OccursWithout(ranks: seq<Rank>, i: nat, y: nat)
    requires i < |ranks|
    ensures Occurs(RemoveAt(ranks, i), y) + Occurs([ranks[i]], y) == Occurs(ranks, y)
  {
    OccursInBoth(ranks[..i], ranks[i + 1..], y);
    OccursInBoth(ranks[..i], [ranks[i]], y);
    OccursInBoth(ranks[..i] + [ranks[i]], ranks[i + 1..], y);
    assert ranks == ranks[..i] + [ranks[i]] + ranks[i + 1..];
  }

  lemma {:induction false} ReplaceJob(jobs: seq<JobState>, j: nat, job: JobState, y: nat)
    requires j < |jobs|
    ensures Total(jobs[j := job], y) + Occurs(jobs[j].ranks, y) == Total(jobs, y) + Occurs(job.ranks, y)
  {
    var front, after := jobs[..|jobs| - 1], jobs[j := job];
    if j == |jobs| - 1 {
      assert after[..|after| - 1] == front;
    } else {
      ReplaceJob(front, j, job, y);
      assert after[..|after| - 1] == front[j := job];
    }
  }

  lemma {:induction false} ChosenKeepsRanks(jobs: seq<JobState>, n: int, which: Draws, index: Draws, i: nat, y: nat)
    requires NonEmpty(jobs) && Below(which, |jobs|) && Below(index, 2)
    ensures var r := Chosen(jobs, n, which, index, i); Total(r.jobs, y) + Occurs(r.chosen, y) == Total(jobs, y)
  {
    if i > 0 {
      ChosenKeepsRanks(jobs, n, which, index, i - 1, y);
      var p, j, x := Chosen(jobs, n, which, index, i - 1), which(i - 1), index(i - 1);
      if |p.chosen| < n && |p.jobs[j].ranks| != 1 {
        var ranks := p.jobs[j].ranks;
        ReplaceJob(p.jobs, j, JobState(RemoveAt(ranks, x), 1), y);
        OccursWithout(ranks, x, y);
        OccursInBoth(p.chosen, [ranks[x]], y);
      }
    }
  }

  lemma PlaceKeepsRanks(p: Placed, list: seq<Rank>, j: nat, y: nat)
    requires j < |p.jobs| && p.count <= |list|
    ensures var r := Place(p, list, j);
            Total(r.jobs, y) + Occurs(list[r.count..], y) == Total(p.jobs, y) + Occurs(list[p.count..], y)
  {
    if p.count < |list| && Accepts(p.jobs, j, list[p.count]) {
      var x, rest, ranks := list[p.count], list[p.count + 1..], p.jobs[j].ranks;
      ReplaceJob(p.jobs, j, JobState(ranks + [x], 1), y);
      OccursInBoth(ranks, [x], y);
      assert list[p.count..] == [x] + rest;
      OccursInBoth([x], rest, y);
    }
  }

  lemma {:induction false} AssignedKeepsRanks(jobs: seq<JobState>, list: seq<Rank>, which: Draws, t: nat, y: nat)
    requires Below(which, |jobs|)
    ensures var r := Assigned(jobs, list, which, t);
            Total(r.jobs, y) + Occurs(list[r.count..], y) == Total(jobs, y) + Occurs(list, y)
  {
    if t == 0 {
      assert list[0..] == list;
    } else {
      AssignedKeepsRanks(jobs, list, which, t - 1, y);
      PlaceKeepsRanks(Assigned(jobs, list, which, t - 1), list, which(t - 1), y);
    }
  }

  // ---------------------------------------------------------------------------------------------
  // What a round does to one job
  // ---------------------------------------------------------------------------------------------

  /** All ranks of a job have their stack at one address. */
  predicate Uniform(job: JobState) {
    forall x :: x in job.ranks ==> x.stackAdd == job.ranks[0].stackAdd
  }

  /** What a round may make of a job: it is led by one of its ranks, and unless it is marked, nothing has changed. */
  predicate Follows(was: JobState, now: JobState) {
    && Small(now) && now.ranks[0] in was.ranks
    && (now.modified == 1 || now == was)
  }

  lemma {:induction false} ChosenJob(jobs: seq<JobState>, n: int, which: Draws, index: Draws, i: nat, j: nat)
    requires AllSmall(jobs) && Below(which, |jobs|) && Below(index, 2) && j < |jobs|
    ensures NonEmpty(jobs)
    ensures var job := Chosen(jobs, n, which, index, i).jobs[j];
            && Small(job) && (job == jobs[j] || (job.modified == 1 && |job.ranks| < |jobs[j].ranks|))
            && (forall x :: x in job.ranks ==> x in jobs[j].ranks)
  {
    if i > 0 {
      ChosenJob(jobs, n, which, index, i - 1, j);
    }
  }

  /** x comes from the list, was not in job j before, and has its stack where the first rank of the job has it. */
  predicate Suits(x: Rank, j: nat, job: JobState, list: seq<Rank>) {
    x in list && x.prevJob != j && job.ranks != [] && x.stackAdd == job.ranks[0].stackAdd
  }

  /** A job keeps its ranks and gets at most one more, that suits it; it is marked exactly when it does. */
  lemma {:induction false} AssignedJob(jobs: seq<JobState>, list: seq<Rank>, which: Draws, t: nat, j: nat)
    requires Below(which, |jobs|) && AllSmall(jobs) && j < |jobs|
    ensures var job := Assigned(jobs, list, which, t).jobs[j];
            && Small(job) && job.ranks[0] == jobs[j].ranks[0] && (job.modified == 1 || job == jobs[j])
            && (Uniform(jobs[j]) ==> Uniform(job))
            && jobs[j].ranks <= job.ranks && (job.ranks == jobs[j].ranks ==> job == jobs[j])
            && (forall k :: |jobs[j].ranks| <= k < |job.ranks| ==> Suits(job.ranks[k], j, jobs[j], list))
  {
    if t > 0 {
      AssignedJob(jobs, list, which, t - 1, j);
    }
  }

  ghost predicate NoPrevious(list: seq<Rank>) {
    forall i :: 0 <= i < |list| ==> list[i].prevJob == -1
  }

  lemma {:induction false} AssignedHasNoPrevious(jobs: seq<JobState>, list: seq<Rank>, which: Draws, t: nat, j: nat)
    requires Below(which, |jobs|) && j < |jobs| && NoPrevious(jobs[j].ranks) && NoPrevious(list)
    ensures NoPrevious(Assigned(jobs, list, which, t).jobs[j].ranks)
  {
    if t > 0 {
      AssignedHasNoPrevious(jobs, list, which, t - 1, j);
    }
  }

  // ---------------------------------------------------------------------------------------------
  // When Assign comes to an end
  // ---------------------------------------------------------------------------------------------

  function Count(list: seq<Rank>, address: nat): nat {
    if list == [] then 0
    else Count(list[..|list| - 1], address) + if list[|list| - 1].stackAdd == address then 1 else 0
  }

  predicate Open(job: JobState, address: nat) {
    |job.ranks| == 1 && job.ranks[0].stackAdd == address
  }

  /** The jobs that could take a rank whose stack is at the address. */
  function Slots(jobs: seq<JobState>, address: nat): nat {
    if jobs == [] then 0
    else Slots(jobs[..|jobs| - 1], address) + if Open(jobs[|jobs| - 1], address) then 1 else 0
  }

  lemma {:induction false} SlotsReplaced(jobs: seq<JobState>, j: nat, job: JobState, address: nat)
    requires j < |jobs|
    ensures Slots(jobs[j := job], address) + (if Open(jobs[j], address) then 1 else 0)
         == Slots(jobs, address) + (if Open(job, address) then 1 else 0)
  {
    var front, after := jobs[..|jobs| - 1], jobs[j := job];
    if j == |jobs| - 1 {
      assert after[..|after| - 1] == front;
    } else {
      SlotsReplaced(front, j, job, address);
      assert after[..|after| - 1] == front[j := job];
    }
  }

  lemma CountStep(list: seq<Rank>, k: nat, address: nat)
    requires k < |list|
    ensures Count(list[..k + 1], address) == Count(list[..k], address) + if list[k].stackAdd == address then 1 else 0
  {
    assert list[..k + 1][..k] == list[..k];
  }

  lemma {:induction false} CountOfPrefix(list: seq<Rank>, k: nat, address: nat)
    requires k <= |list|
    ensures Count(list[..k], address) <= Count(list, address)
  {
    if k == |list| {
      assert list[..k] == list;
    } else {
      CountOfPrefix(list[..|list| - 1], k, address);
      assert list[..|list| - 1][..k] == list[..k];
    }
  }

  /** Every placement uses up one slot of the address of its rank, whichever job it goes to. */
  lemma {:induction false} SlotsLeft(jobs: seq<JobState>, list: seq<Rank>, which: Draws, t: nat, address: nat)
    requires Below(which, |jobs|) && AllSmall(jobs)
    ensures var r := Assigned(jobs, list, which, t);
            Slots(r.jobs, address) + Count(list[..r.count], address) == Slots(jobs, address)
  {
    if t > 0 {
      SlotsLeft(jobs, list, which, t - 1, address);
      var p, j := Assigned(jobs, list, which, t - 1), which(t - 1);
      AssignedJob(jobs, list, which, t - 1, j);
      if p.count < |list| && Accepts(p.jobs, j, list[p.count]) {
        SlotsReplaced(p.jobs, j, JobState(p.jobs[j].ranks + [list[p.count]], 1), address);
        CountStep(list, p.count, address);
      }
    }
  }

  lemma {:induction false} SomeJobIsOpen(jobs: seq<JobState>, address: nat) returns (j: nat)
    requires Slots(jobs, address) > 0
    ensures j < |jobs| && Open(jobs[j], address)
  {
    var last := |jobs| - 1;
    if Open(jobs[last], address) {
      j := last;
    } else {
      j := SomeJobIsOpen(jobs[..last], address);
    }
  }

  lemma PickFits(p: Picked, n: int, j: nat, x: nat, address: nat)
    requires AllSmall(p.jobs) && NonEmpty(p.jobs) && j < |p.jobs| && x < 2 && Uniform(p.jobs[j])
    requires Count(p.chosen, address) <= Slots(p.jobs, address)
    ensures var r := Pick(p, n, j, x); Count(r.chosen, address) <= Slots(r.jobs, address)
  {
    if |p.chosen| < n && |p.jobs[j].ranks| != 1 {
      var ranks := p.jobs[j].ranks;
      var rest := RemoveAt(ranks, x);
      SlotsReplaced(p.jobs, j, JobState(rest, 1), address);
      assert rest[0] in ranks && ranks[x] in ranks;
      assert (p.chosen + [ranks[x]])[..|p.chosen|] == p.chosen;
    }
  }

  // ---------------------------------------------------------------------------------------------
  // Which ranks Choose takes
  // ---------------------------------------------------------------------------------------------

  /** Draw k is the first one of a job with two ranks. */
  predicate FirstDraw(jobs: seq<JobState>, which: Draws, k: nat)
    requires Below(which, |jobs|)
  {
    |jobs[which(k)].ranks| == 2 && forall m :: 0 <= m < k ==> which(m) != which(k)
  }

  /** How many of the first k draws are first draws. */
  function FirstDraws(jobs: seq<JobState>, which: Draws, k: nat): nat
    requires Below(which, |jobs|)
  {
    if k == 0 then 0 else FirstDraws(jobs, which, k - 1) + if FirstDraw(jobs, which, k - 1) then 1 else 0
  }

  /** Draw k takes a rank: it is a first draw, and fewer than n were taken. */
  predicate Takes(jobs: seq<JobState>, n: int, which: Draws, k: nat)
    requires Below(which, |jobs|)
  {
    FirstDraw(jobs, which, k) && FirstDraws(jobs, which, k) < n
  }

  /** Draw k has taken the rank its index names, as the next of the list, and has left the other one in a marked job. */
  predicate Took(jobs: seq<JobState>, which: Draws, index: Draws, k: nat, after: seq<JobState>, list: seq<Rank>)
    requires Below(which, |jobs|) && Below(index, 2) && FirstDraw(jobs, which, k) && |after| == |jobs|
  {
    && FirstDraws(jobs, which, k) < |list|
    && list[FirstDraws(jobs, which, k)] == jobs[which(k)].ranks[index(k)]
    && after[which(k)] == JobState([jobs[which(k)].ranks[1 - index(k)]], 1)
  }

  predicate TakenFrom(jobs: seq<JobState>, n: int, which: Draws, i: nat, j: nat)
    requires Below(which, |jobs|)
  {
    exists k :: 0 <= k < i && Takes(jobs, n, which, k) && which(k) == j
  }

  ghost predicate TakenAsDrawn(jobs: seq<JobState>, n: int, which: Draws, index: Draws, i: nat,
                               after: seq<JobState>, list: seq<Rank>)
    requires Below(which, |jobs|) && Below(index, 2)
  {
    && |after| == |jobs| && |list| == (if n < FirstDraws(jobs, which, i) then Max0(n) else FirstDraws(jobs, which, i))
    && (forall k {:trigger Takes(jobs, n, which, k)} :: 0 <= k < i && Takes(jobs, n, which, k) ==>
      Took(jobs, which, index, k, after, list))
    && forall j :: 0 <= j < |jobs| && !TakenFrom(jobs, n, which, i, j) ==> after[j] == jobs[j]
  }

  function Max0(n: int): nat {
    if n < 0 then 0 else n
  }

  lemma {:induction false} FirstDrawOf(jobs: seq<JobState>, which: Draws, m: nat) returns (k: nat)
    requires Below(which, |jobs|) && |jobs[which(m)].ranks| == 2
    ensures k <= m && which(k) == which(m) && FirstDraw(jobs, which, k)
  {
    if n: nat :| n < m && which(n) == which(m) {
      k := FirstDrawOf(jobs, which, n);
    } else {
      k := m;
    }
  }

  lemma {:induction false} FirstDrawsGrow(jobs: seq<JobState>, which: Draws, k: nat, m: nat)
    requires Below(which, |jobs|) && k <= m
    ensures FirstDraws(jobs, which, k) <= FirstDraws(jobs, which, m)
    ensures k < m && FirstDraw(jobs, which, k) ==> FirstDraws(jobs, which, k) < FirstDraws(jobs, which, m)
  {
    if k < m {
      FirstDrawsGrow(jobs, which, k, m - 1);
    }
  }

  /** A draw that takes nothing. */
  lemma IdleDraw(jobs: seq<JobState>, n: int, which: Draws, index: Draws, i: nat, after: seq<JobState>, list: seq<Rank>)
    requires Below(which, |jobs|) && Below(index, 2) && TakenAsDrawn(jobs, n, which, index, i, after, list)
    requires !Takes(jobs, n, which, i)
    ensures TakenAsDrawn(jobs, n, which, index, i + 1, after, list)
  {
    forall j | 0 <= j < |jobs| && !TakenFrom(jobs, n, which, i + 1, j) ensures after[j] == jobs[j] {
      assert !TakenFrom(jobs, n, which, i, j);
    }
  }

  /** A draw that takes a rank. */
  lemma TakingDraw(jobs: seq<JobState>, n: int, which: Draws, index: Draws, i: nat, after: seq<JobState>,
                   list: seq<Rank>)
    requires Below(which, |jobs|) && Below(index, 2) && TakenAsDrawn(jobs, n, which, index, i, after, list)
    requires Takes(jobs, n, which, i)
    ensures var j, ranks := which(i), jobs[which(i)].ranks;
            && after[j] == jobs[j]
            && TakenAsDrawn(jobs, n, which, index, i + 1, after[j := JobState([ranks[1 - index(i)]], 1)],
                            list + [ranks[index(i)]])
  {
    var j, ranks := which(i), jobs[which(i)].ranks;
    assert !TakenFrom(jobs, n, which, i, j);
    var now, more := after[j := JobState([ranks[1 - index(i)]], 1)], list + [ranks[index(i)]];
    forall k | 0 <= k < i + 1 && Takes(jobs, n, which, k) ensures Took(jobs, which, index, k, now, more) {
      if k < i {
        assert Took(jobs, which, index, k, after, list);
      }
    }
    forall a | 0 <= a < |jobs| && !TakenFrom(jobs, n, which, i + 1, a) ensures now[a] == jobs[a] {
      assert a != j;
      assert !TakenFrom(jobs, n, which, i, a);
    }
  }

  /** Draw i finds two ranks, with fewer than n taken, exactly when it is a first draw. */
  lemma DrawFinds(jobs: seq<JobState>, n: int, which: Draws, index: Draws, i: nat, after: seq<JobState>,
                  list: seq<Rank>)
    requires AllSmall(jobs) && Below(which, |jobs|) && Below(index, 2)
    requires TakenAsDrawn(jobs, n, which, index, i, after, list)
    ensures Takes(jobs, n, which, i) <==> |list| < n && |after[which(i)].ranks| != 1
  {
    var j := which(i);
    if FirstDraw(jobs, which, i) {
      assert !TakenFrom(jobs, n, which, i, j);
    } else if |jobs[j].ranks| == 2 {
      var k := FirstDrawOf(jobs, which, i);
      FirstDrawsGrow(jobs, which, k, i);
      if |list| < n {
        assert Takes(jobs, n, which, k);
      }
    } else {
      assert !TakenFrom(jobs, n, which, i, j);
    }
  }

  lemma PickAsDrawn(jobs: seq<JobState>, n: int, which: Draws, index: Draws, i: nat, p: Picked, r: Picked)
    requires AllSmall(jobs) && Below(which, |jobs|) && Below(index, 2)
    requires TakenAsDrawn(jobs, n, which, index, i, p.jobs, p.chosen)
    requires NonEmpty(p.jobs) && r == Pick(p, n, which(i), index(i))
    ensures TakenAsDrawn(jobs, n, which, index, i + 1, r.jobs, r.chosen)
  {
    var j, x := which(i), index(i);
    DrawFinds(jobs, n, which, index, i, p.jobs, p.chosen);
    if Takes(jobs, n, which, i) {
      TakingDraw(jobs, n, which, index, i, p.jobs, p.chosen);
      assert RemoveAt(jobs[j].ranks, x) == [jobs[j].ranks[1 - x]];
    } else {
      IdleDraw(jobs, n, which, index, i, p.jobs, p.chosen);
    }
  }

  lemma NothingDrawn(jobs: seq<JobState>, n: int, which: Draws, index: Draws)
    requires Below(which, |jobs|) && Below(index, 2)
    ensures TakenAsDrawn(jobs, n, which, index, 0, jobs, [])
  {
  }

  /** Choose takes one rank at the first draw of each job with two ranks, until it has n, and touches nothing else. */
  lemma {:induction false} ChosenAsDrawn(jobs: seq<JobState>, n: int, which: Draws, index: Draws, i: nat)
    requires AllSmall(jobs) && Below(which, |jobs|) && Below(index, 2)
    ensures NonEmpty(jobs)
    ensures var r := Chosen(jobs, n, which, index, i); TakenAsDrawn(jobs, n, which, index, i, r.jobs, r.chosen)
  {
    if i == 0 {
      NothingDrawn(jobs, n, which, index);
    } else {
      ChosenAsDrawn(jobs, n, which, index, i - 1);
      PickAsDrawn(jobs, n, which, index, i - 1, Chosen(jobs, n, which, index, i - 1), Chosen(jobs, n, which, index, i));
    }
  }

  /** If Choose takes fewer than n ranks, every job it has drawn is left with one. */
  lemma FewerMeansExhausted(jobs: seq<JobState>, n: int, which: Draws, index: Draws, i: nat, k: nat)
    requires AllSmall(jobs) && Below(which, |jobs|) && Below(index, 2) && k < i
    ensures NonEmpty(jobs)
    ensures var r := Chosen(jobs, n, which, index, i); |r.chosen| < n ==> |r.jobs[which(k)].ranks| == 1
  {
    ChosenAsDrawn(jobs, n, which, index, i);
    var r := Chosen(jobs, n, which, index, i);
    if |r.chosen| < n {
      if |jobs[which(k)].ranks| == 2 {
        var m := FirstDrawOf(jobs, which, k);
        FirstDrawsGrow(jobs, which, m, i);
        assert Takes(jobs, n, which, m);
      } else {
        assert !TakenFrom(jobs, n, which, i, which(k));
      }
    }
  }

  /** The chosen ranks come from jobs that now have a slot for them: per stack address there are enough. */
  lemma {:induction false} ChosenFit(jobs: seq<JobState>, n: int, which: Draws, index: Draws, i: nat, address: nat)
    requires AllSmall(jobs) && Below(which, |jobs|) && Below(index, 2)
    requires forall j :: 0 <= j < |jobs| ==> Uniform(jobs[j])
    ensures NonEmpty(jobs)
    ensures var r := Chosen(jobs, n, which, index, i); Count(r.chosen, address) <= Slots(r.jobs, address)
  {
    if i > 0 {
      ChosenFit(jobs, n, which, index, i - 1, address);
      var p := Chosen(jobs, n, which, index, i - 1);
      forall j | 0 <= j < |jobs| ensures Small(p.jobs[j]) && Uniform(p.jobs[j]) {
        ChosenJob(jobs, n, which, index, i - 1, j);
      }
      PickFits(p, n, which(i - 1), index(i - 1), address);
    }
  }

  /** Per stack address there are at least as many slots as ranks to place. */
  ghost predicate Roomy(jobs: seq<JobState>, list: seq<Rank>) {
    forall address: nat :: Count(list, address) <= Slots(jobs, address)
  }

  /** As long as a rank is not placed, some job would take it. */
  lemma SomeJobAccepts(jobs: seq<JobState>, list: seq<Rank>, which: Draws, t: nat) returns (j: nat)
    requires AllSmall(jobs) && Below(which, |jobs|) && Roomy(jobs, list) && NoPrevious(list)
    requires Assigned(jobs, list, which, t).count < |list|
    ensures j < |jobs|
    ensures var p := Assigned(jobs, list, which, t); Accepts(p.jobs, j, list[p.count])
  {
    var p := Assigned(jobs, list, which, t);
    var address := list[p.count].stackAdd;
    SlotsLeft(jobs, list, which, t, address);
    CountStep(list, p.count, address);
    CountOfPrefix(list, p.count + 1, address);
    j := SomeJobIsOpen(p.jobs, address);
  }

  /** Until a rank is placed, nothing changes. */
  lemma {:induction false} Waiting(jobs: seq<JobState>, list: seq<Rank>, which: Draws, from: nat, to: nat)
    returns (t: nat)
    requires Below(which, |jobs|) && from <= to
    ensures from <= t <= to
    ensures if t == to then Assigned(jobs, list, which, t) == Assigned(jobs, list, which, from)
              || Assigned(jobs, list, which, t).count == Assigned(jobs, list, which, from).count + 1
            else Assigned(jobs, list, which, t).count == Assigned(jobs, list, which, from).count + 1
  {
    if from == to {
      t := to;
    } else {
      t := Waiting(jobs, list, which, from, to - 1);
      if Assigned(jobs, list, which, t) == Assigned(jobs, list, which, from) {
        t := to;
      }
    }
  }

  /** The next draw of a job that takes the next rank. */
  lemma DueDraw(jobs: seq<JobState>, list: seq<Rank>, which: Draws, next: (nat, nat) -> nat, t: nat) returns (due: nat)
    requires AllSmall(jobs) && Below(which, |jobs|) && Fair(which, |jobs|, next) && Roomy(jobs, list)
             && NoPrevious(list)
    requires Assigned(jobs, list, which, t).count < |list|
    ensures t <= due
    ensures var p := Assigned(jobs, list, which, t); Accepts(p.jobs, which(due), list[p.count])
  {
    var j := SomeJobAccepts(jobs, list, which, t);
    due := next(t, j);
  }

  /** At draw `due`, if not before, the next rank of the list is placed. */
  ghost predicate Due(jobs: seq<JobState>, list: seq<Rank>, which: Draws, t: nat, due: nat)
    requires Below(which, |jobs|)
  {
    var p := Assigned(jobs, list, which, t);
    p.count < |list| ==> t <= due && Accepts(p.jobs, which(due), list[p.count])
  }

  lemma FirstDue(jobs: seq<JobState>, list: seq<Rank>, which: Draws, next: (nat, nat) -> nat) returns (due: nat)
    requires AllSmall(jobs) && Below(which, |jobs|) && Fair(which, |jobs|, next) && Roomy(jobs, list)
             && NoPrevious(list)
    ensures Due(jobs, list, which, 0, due)
  {
    if list == [] {
      due := 0;
    } else {
      due := DueDraw(jobs, list, which, next, 0);
    }
  }

  /** One more draw places the next rank, or brings its placement one draw nearer. */
  lemma NextDue(jobs: seq<JobState>, list: seq<Rank>, which: Draws, next: (nat, nat) -> nat, t: nat, due: nat)
    returns (due2: nat)
    requires AllSmall(jobs) && Below(which, |jobs|) && Fair(which, |jobs|, next) && Roomy(jobs, list)
             && NoPrevious(list)
    requires Due(jobs, list, which, t, due) && Assigned(jobs, list, which, t).count < |list|
    ensures Due(jobs, list, which, t + 1, due2)
    ensures Assigned(jobs, list, which, t).jobs[which(t)].ranks != []
    ensures Assigned(jobs, list, which, t + 1).count == Assigned(jobs, list, which, t).count ==> due2 == due && t < due
  {
    AssignedJob(jobs, list, which, t, which(t));
    var p, q := Assigned(jobs, list, which, t), Assigned(jobs, list, which, t + 1);
    if q.count == p.count {
      due2 := due;
    } else if q.count < |list| {
      due2 := DueDraw(jobs, list, which, next, t + 1);
    } else {
      due2 := 0;
    }
  }

  lemma {:induction false} AssignReaches(jobs: seq<JobState>, list: seq<Rank>, which: Draws, next: (nat, nat) -> nat,
                                         k: nat)
    returns (t: nat)
    requires AllSmall(jobs) && Below(which, |jobs|) && Fair(which, |jobs|, next)
    requires Roomy(jobs, list) && NoPrevious(list) && k <= |list|
    ensures Assigned(jobs, list, which, t).count == k
  {
    if k == 0 {
      t := 0;
    } else {
      var t0 := AssignReaches(jobs, list, which, next, k - 1);
      var due := DueDraw(jobs, list, which, next, t0);
      t := Waiting(jobs, list, which, t0, due);
      if Assigned(jobs, list, which, t) == Assigned(jobs, list, which, t0) {
        t := t + 1;
      }
    }
  }

  /** With fair draws, Assign ends exactly when there is room for every stack address. */
  lemma AssignEndsIffRoomy(jobs: seq<JobState>, list: seq<Rank>, which: Draws, next: (nat, nat) -> nat)
    requires AllSmall(jobs) && Below(which, |jobs|) && Fair(which, |jobs|, next) && NoPrevious(list)
    ensures (exists t: nat :: Assigned(jobs, list, which, t).count == |list|) <==> Roomy(jobs, list)
  {
    if t: nat :| Assigned(jobs, list, which, t).count == |list| {
      forall address: nat ensures Count(list, address) <= Slots(jobs, address) {
        SlotsLeft(jobs, list, which, t, address);
        assert list[..|list|] == list;
      }
    }
    if Roomy(jobs, list) {
      var t := AssignReaches(jobs, list, which, next, |list|);
    }
  }

  lemma {:induction false} ChosenHaveNoPrevious(jobs: seq<JobState>, n: int, which: Draws, index: Draws, i: nat)
    requires NonEmpty(jobs) && Below(which, |jobs|) && Below(index, 2)
    requires forall j :: 0 <= j < |jobs| ==> NoPrevious(jobs[j].ranks)
    ensures NoPrevious(Chosen(jobs, n, which, index, i).chosen)
    ensures forall j :: 0 <= j < |jobs| ==> NoPrevious(Chosen(jobs, n, which, index, i).jobs[j].ranks)
  {
    if i > 0 {
      ChosenHaveNoPrevious(jobs, n, which, index, i - 1);
    }
  }

  /**
   * A job whose two ranks have different stack addresses: after Choose takes the first, no draws ever place it again.
   */
  lemma MixedAddressesGetStuck(which: Draws, index: Draws, draws: Draws, t: nat)
    requires Below(which, 2) && Below(index, 2) && Below(draws, 2) && which(0) == 0 && index(0) == 0
    ensures var jobs := [JobState([Rank(0, -1, 10), Rank(2, -1, 20)], 0), JobState([Rank(1, -1, 30)], 0)];
            && AllSmall(jobs)
            && var r := Chosen(jobs, 1, which, index, |jobs| / 2);
               |r.chosen| == 1 && Assigned(r.jobs, r.chosen, draws, t).count == 0
  {
    var jobs := [JobState([Rank(0, -1, 10), Rank(2, -1, 20)], 0), JobState([Rank(1, -1, 30)], 0)];
    var r := Chosen(jobs, 1, which, index, 1);
    assert r == Pick(Picked(jobs, []), 1, 0, 0);
    assert r.chosen == [Rank(0, -1, 10)] && r.jobs[0].ranks == [Rank(2, -1, 20)] && r.jobs[1] == jobs[1];
    StuckFrom(r.jobs, r.chosen, draws, t);
  }

  lemma {:induction false} StuckFrom(jobs: seq<JobState>, list: seq<Rank>, draws: Draws, t: nat)
    requires Below(draws, |jobs|) && list != [] && forall j :: 0 <= j < |jobs| ==> !Accepts(jobs, j, list[0])
    ensures Assigned(jobs, list, draws, t) == Placed(jobs, 0)
  {
    if t > 0 {
      StuckFrom(jobs, list, draws, t - 1);
    }
  }

  // ---------------------------------------------------------------------------------------------
  // Where every round starts and ends
  // ---------------------------------------------------------------------------------------------

  lemma {:induction false} DealtOnce(j: nat, jobs: nat, r: nat, y: nat)
    requires j < jobs
    ensures Occurs(Dealt(j, jobs, r), y) == if y < r && y % jobs == j then 1 else 0
    ensures NoPrevious(Dealt(j, jobs, r))
    ensures forall i :: 0 <= i < |Dealt(j, jobs, r)| ==> Dealt(j, jobs, r)[i].stackAdd == 0
  {
    if r > 0 {
      DealtOnce(j, jobs, r - 1, y);
      var front, x := Dealt(j, jobs, r - 1), Rank(r - 1, -1, 0);
      OccursInBoth(front, [x], y);
      OccursInOne(x, y);
    }
  }

  lemma Multiples(n: nat, q: int)
    ensures q >= 2 ==> n * q >= 2 * n
    ensures q <= 0 ==> n * q <= 0
  {
    if q >= 2 {
      assert n * q == 2 * n + n * (q - 2);
    }
  }

  lemma TurnOf(m: nat, n: nat)
    requires m < 2 * n
    ensures m % n == if m < n then m else m - n
  {
    if m >= n {
      Multiples(n, m / n);
    }
  }

  lemma {:induction false} DealtLength(j: nat, jobs: nat, r: nat)
    requires j < jobs && r <= 2 * jobs
    ensures |Dealt(j, jobs, r)| == (if j < r then 1 else 0) + (if j + jobs < r then 1 else 0)
  {
    if r > 0 {
      DealtLength(j, jobs, r - 1);
      TurnOf(r - 1, jobs);
    }
  }

  /** Rank r is dealt to job r % jobs: the first ranks lead the jobs, in order, the others are their replicas. */
  lemma {:induction false} DealtInTurn(j: nat, jobs: nat, r: nat)
    requires j < jobs && r <= 2 * jobs
    ensures Dealt(j, jobs, r)
        == (if j < r then [Rank(j, -1, 0)] else []) + (if j + jobs < r then [Rank(j + jobs, -1, 0)] else [])
  {
    if r > 0 {
      DealtInTurn(j, jobs, r - 1);
      TurnOf(r - 1, jobs);
    }
  }

  lemma {:induction false} TotalOfOne(jobs: seq<JobState>, j: nat, y: nat)
    requires j < |jobs| && forall k :: 0 <= k < |jobs| && k != j ==> Occurs(jobs[k].ranks, y) == 0
    ensures Total(jobs, y) == Occurs(jobs[j].ranks, y)
  {
    var front := jobs[..|jobs| - 1];
    if j == |jobs| - 1 {
      TotalOfNone(front, y);
    } else {
      TotalOfOne(front, j, y);
    }
  }

  lemma {:induction false} TotalOfNone(jobs: seq<JobState>, y: nat)
    requires forall k :: 0 <= k < |jobs| ==> Occurs(jobs[k].ranks, y) == 0
    ensures Total(jobs, y) == 0
  {
    if jobs != [] {
      TotalOfNone(jobs[..|jobs| - 1], y);
    }
  }

  /** Each of the ranks below `size` is in exactly one list, once, and no other rank is in any. */
  ghost predicate Complete(jobs: seq<JobState>, size: nat) {
    forall y: nat :: Total(jobs, y) == if y < size then 1 else 0
  }

  /** InitJobMap, for as many ranks as jobs up to twice as many. */
  lemma InitialIsComplete(jobs: nat, size: nat)
    requires 0 < jobs <= size <= 2 * jobs
    ensures AllSmall(Initial(jobs, size)) && Placeable(Initial(jobs, size)) && Complete(Initial(jobs, size), size)
    ensures forall j :: 0 <= j < jobs ==>
      Initial(jobs, size)[j] ==
      JobState([Rank(j, -1, 0)] + (if j + jobs < size then [Rank(j + jobs, -1, 0)] else []), 1)
  {
    var s := Initial(jobs, size);
    forall j | 0 <= j < jobs
      ensures Small(s[j]) && Uniform(s[j]) && NoPrevious(s[j].ranks)
      ensures s[j] == JobState([Rank(j, -1, 0)] + (if j + jobs < size then [Rank(j + jobs, -1, 0)] else []), 1)
    {
      DealtLength(j, jobs, size);
      DealtInTurn(j, jobs, size);
      DealtOnce(j, jobs, size, 0);
    }
    forall y: nat ensures Total(s, y) == if y < size then 1 else 0 {
      forall k | 0 <= k < jobs ensures Occurs(s[k].ranks, y) == if y < size && y % jobs == k then 1 else 0 {
        DealtOnce(k, jobs, size, y);
      }
      TotalOfOne(s, y % jobs, y);
    }
  }

  /** What Choose and Assign rely on to come to an end: one stack address per job, and no PrevJob was ever set. */
  ghost predicate Placeable(jobs: seq<JobState>) {
    forall j :: 0 <= j < |jobs| ==> Uniform(jobs[j]) && NoPrevious(jobs[j].ranks)
  }

  /** What a round makes of a job map, once Assign has placed everything. */
  ghost predicate Round(before: seq<JobState>, after: seq<JobState>) {
    && |after| == |before| && AllSmall(after)
    && (forall y: nat :: Total(after, y) == Total(before, y))
    && (forall j :: 0 <= j < |before| ==> Follows(before[j], after[j]))
    && (Placeable(before) ==> Placeable(after))
  }

  /** Choose and Assign lose no rank, leave one or two in each job, and mark every job they change. */
  lemma RoundIsSafe(jobs: seq<JobState>, n: int, which: Draws, index: Draws, i: nat, draws: Draws, t: nat)
    requires AllSmall(jobs) && Below(which, |jobs|) && Below(index, 2) && Below(draws, |jobs|)
    requires NonEmpty(jobs)
    requires var p := Chosen(jobs, n, which, index, i); Assigned(p.jobs, p.chosen, draws, t).count == |p.chosen|
    ensures var p := Chosen(jobs, n, which, index, i); Round(jobs, Assigned(p.jobs, p.chosen, draws, t).jobs)
  {
    var p := Chosen(jobs, n, which, index, i);
    var after := Assigned(p.jobs, p.chosen, draws, t).jobs;
    forall j | 0 <= j < |jobs| ensures Small(p.jobs[j]) && (Uniform(jobs[j]) ==> Uniform(p.jobs[j])) {
      ChosenJob(jobs, n, which, index, i, j);
    }
    forall j | 0 <= j < |jobs|
      ensures Small(after[j]) && Follows(jobs[j], after[j])
      ensures Placeable(jobs) ==> Uniform(after[j]) && NoPrevious(after[j].ranks)
    {
      ChosenJob(jobs, n, which, index, i, j);
      AssignedJob(p.jobs, p.chosen, draws, t, j);
      if Placeable(jobs) {
        ChosenHaveNoPrevious(jobs, n, which, index, i);
        AssignedHasNoPrevious(p.jobs, p.chosen, draws, t, j);
      }
    }
    forall y: nat ensures Total(after, y) == Total(jobs, y) {
      ChosenKeepsRanks(jobs, n, which, index, i, y);
      AssignedKeepsRanks(p.jobs, p.chosen, draws, t, y);
      assert p.chosen[|p.chosen|..] == [];
    }
  }

  /** When all ranks of each job share a stack address, Assign finds room for everything that Choose took. */
  lemma ChosenCanBePlaced(jobs: seq<JobState>, n: int, which: Draws, index: Draws, i: nat)
    requires AllSmall(jobs) && Placeable(jobs) && Below(which, |jobs|) && Below(index, 2)
    ensures NonEmpty(jobs)
    ensures var p := Chosen(jobs, n, which, index, i);
            AllSmall(p.jobs) && Roomy(p.jobs, p.chosen) && NoPrevious(p.chosen)
  {
    var p := Chosen(jobs, n, which, index, i);
    forall j | 0 <= j < |jobs| ensures Small(p.jobs[j]) {
      ChosenJob(jobs, n, which, index, i, j);
    }
    forall address: nat ensures Count(p.chosen, address) <= Slots(p.jobs, address) {
      ChosenFit(jobs, n, which, index, i, address);
    }
    ChosenHaveNoPrevious(jobs, n, which, index, i);
  }

  // ---------------------------------------------------------------------------------------------
  // The file
  // ---------------------------------------------------------------------------------------------

  function CountTotalRanks(v: seq<JobState>): nat {
    if v == [] then 0 else CountTotalRanks(v[..|v| - 1]) + |v[|v| - 1].ranks|
  }

  function RanksText(ranks: seq<Rank>): string {
    if ranks == [] then "" else "\t" + Itoa(ranks[0].rank) + RanksText(ranks[1..])
  }

  function LineText(j: nat, job: JobState): string {
    Itoa(job.modified) + "\t" + Itoa(j) + "\t" + Itoa(|job.ranks|) + RanksText(job.ranks) + "\n"
  }

  /** The lines of the jobs from job j on. */
  function LinesText(v: seq<JobState>, j: nat): string
    requires j <= |v|
    decreases |v| - j
  {
    if j == |v| then "" else LineText(j, v[j]) + LinesText(v, j + 1)
  }

  /** Everything WriteToFile writes; `note` is the explanation of the format that it puts behind the lines. */
  function Printed(v: seq<JobState>, note: string): string {
    Itoa(CountTotalRanks(v)) + "\t" + Itoa(|v|) + "\n" + LinesText(v, 0) + note
  }

  lemma {:induction false} RanksTextStep(ranks: seq<Rank>, x: Rank)
    ensures RanksText(ranks + [x]) == RanksText(ranks) + "\t" + Itoa(x.rank)
  {
    if ranks == [] {
      assert ranks + [x] == [x] && [x][1..] == [];
    } else {
      assert (ranks + [x])[1..] == ranks[1..] + [x];
      RanksTextStep(ranks[1..], x);
    }
  }

  // ---------------------------------------------------------------------------------------------
  // The objects
  // ---------------------------------------------------------------------------------------------

  class Job {
    const jobId: nat
    var rankList: seq<Rank>
    var modified: nat

    /** NewJob */
    constructor (jobId: nat)
      ensures this.jobId == jobId && State() == JobState([], 1)
    {
      this.jobId := jobId;
      rankList, modified := [], 1;
    }

    function State(): JobState
      reads this
    {
      JobState(rankList, modified)
    }

    method InsertRank(rank: Rank)
      modifies this`rankList
      ensures State() == JobState(old(rankList) + [rank], old(modified))
    {
      rankList := rankList + [rank];
    }

    method RemoveI(i: nat)
      requires i < |rankList|
      modifies this`rankList
      ensures State() == JobState(RemoveAt(old(rankList), i), old(modified))
    {
      rankList := rankList[..i] + rankList[i + 1..];
    }

    /** The line of this job in the file. */
    method Line(k: nat) returns (text: string)
      ensures text == LineText(k, State())
    {
      text := Itoa(modified) + "\t" + Itoa(k) + "\t" + Itoa(|rankList|);
      ghost var head := text;
      for i := 0 to |rankList|
        invariant text == head + RanksText(rankList[..i])
      {
        RanksTextStep(rankList[..i], rankList[i]);
        assert rankList[..i + 1] == rankList[..i] + [rankList[i]];
        text := text + "\t";
        text := text + Itoa(rankList[i].rank);
      }
      assert rankList[..|rankList|] == rankList;
      text := text + "\n";
    }

    /** The inner loop at the end of InitStackData. */
    method SetStacks(mappings: map<nat, nat>)
      modifies this`rankList
      ensures State() == JobState(AtStacks(old(rankList), mappings), old(modified))
    {
      for r := 0 to |rankList|
        invariant |rankList| == |old(rankList)|
        invariant forall k :: 0 <= k < |rankList| ==>
                    rankList[k] == if k < r then AtStack(old(rankList)[k], mappings) else old(rankList)[k]
      {
        rankList := rankList[r := AtStack(rankList[r], mappings)];
      }
    }
  }

  class JobMap {
    // JMap: the keys of the Go map are the positions
    var jobs: seq<Job>

    ghost predicate Valid()
      reads this
    {
      forall i, j :: 0 <= i < j < |jobs| ==> jobs[i] != jobs[j]
    }

    /** The job map holds this value. */
    ghost predicate Is(v: seq<JobState>)
      reads this, jobs
    {
      Valid() && |v| == |jobs| && forall j :: 0 <= j < |jobs| ==> jobs[j].State() == v[j]
    }

    /** InitJobMap */
    constructor (jNo: nat, rNo: nat)
      requires jNo > 0
      ensures Is(Initial(jNo, rNo)) && fresh(jobs)
    {
      jobs := [];
      new;
      for i := 0 to jNo
        invariant |jobs| == i && fresh(jobs) && Valid()
        invariant forall j :: 0 <= j < i ==> jobs[j].State() == JobState([], 1)
      {
        var job := new Job(i);
        jobs := jobs + [job];
      }
      for i := 0 to rNo
        invariant |jobs| == jNo && fresh(jobs) && Is(Initial(jNo, i))
      {
        jobs[i % jNo].InsertRank(Rank(i, -1, 0));
      }
    }

    /** The first i rounds of the loop of Choose have taken c. */
    ghost predicate HasChosen(v: seq<JobState>, n: int, which: Draws, index: Draws, i: nat, c: seq<Rank>)
      requires NonEmpty(v) && Below(which, |v|) && Below(index, 2)
      reads this, jobs
    {
      c == Chosen(v, n, which, index, i).chosen && Is(Chosen(v, n, which, index, i).jobs)
    }

    /** The body of the loop of Choose, for draw i. */
    method ChooseNext(c: seq<Rank>, n: int, which: Draws, index: Draws, i: nat, ghost v: seq<JobState>)
      returns (more: seq<Rank>)
      requires NonEmpty(v) && Below(which, |v|) && Below(index, 2) && HasChosen(v, n, which, index, i, c) && |c| < n
      modifies jobs
      ensures HasChosen(v, n, which, index, i + 1, more)
    {
      var j := which(i);
      assert jobs[j].State() == Chosen(v, n, which, index, i).jobs[j];
      more := c;
      if |jobs[j].rankList| != 1 {
        var x := index(i);
        more := c + [jobs[j].rankList[x]];
        jobs[j].RemoveI(x);
        jobs[j].modified := 1;
      }
    }

    /** The loop of Choose. */
    method ChooseAll(n: int, which: Draws, index: Draws, ghost v: seq<JobState>) returns (c: seq<Rank>)
      requires Is(v) && NonEmpty(v) && Below(which, |v|) && Below(index, 2)
      modifies jobs
      ensures HasChosen(v, n, which, index, |v| / 2, c)
    {
      c := [];
      var i := 0;
      while i < |jobs| / 2
        invariant 0 <= i <= |v| / 2 == |jobs| / 2
        invariant HasChosen(v, n, which, index, i, c)
      {
        if |c| >= n {
          PickedEnough(v, n, which, index, i, |v| / 2);
          return;
        }
        c := ChooseNext(c, n, which, index, i, v);
        i := i + 1;
      }
    }

    /** At most n ranks are taken, in the order of the draws, one at the first draw of each job with two. */
    method Choose(n: int, which: Draws, index: Draws, ghost v: seq<JobState>) returns (c: seq<Rank>)
      requires Is(v) && NonEmpty(v) && Below(which, |v|) && Below(index, 2)
      modifies jobs
      ensures c == Chosen(v, n, which, index, |v| / 2).chosen && Is(Chosen(v, n, which, index, |v| / 2).jobs)
      ensures AllSmall(v) ==> TakenAsDrawn(v, n, which, index, |v| / 2, Chosen(v, n, which, index, |v| / 2).jobs, c)
      ensures AllSmall(v) && n >= 0 ==> |c| <= n
    {
      c := ChooseAll(n, which, index, v);
      if AllSmall(v) {
        ChosenAsDrawn(v, n, which, index, |v| / 2);
      }
    }

    /** The tests of the loop of Assign, for the job that was drawn. */
    method Offer(r: Rank, j: nat, ghost v: seq<JobState>) returns (taken: bool)
      requires Is(v) && j < |v| && v[j].ranks != []
      modifies jobs
      ensures taken == Accepts(v, j, r)
      ensures Is(if taken then v[j := JobState(v[j].ranks + [r], 1)] else v)
    {
      assert jobs[j].State() == v[j];
      taken := false;
      if |jobs[j].rankList| == 2 {
        return;
      }
      if r.prevJob != j && jobs[j].rankList[0].stackAdd == r.stackAdd {
        jobs[j].InsertRank(r);
        jobs[j].modified := 1;
        taken := true;
      }
    }

    /** The body of the loop of Assign, for draw t. */
    method AssignNext(newList: seq<Rank>, counter: nat, draws: Draws, ghost v: seq<JobState>, t: nat)
      returns (taken: bool)
      requires Below(draws, |v|) && counter == Assigned(v, newList, draws, t).count < |newList|
      requires Is(Assigned(v, newList, draws, t).jobs) && Assigned(v, newList, draws, t).jobs[draws(t)].ranks != []
      modifies jobs
      ensures Is(Assigned(v, newList, draws, t + 1).jobs)
      ensures Assigned(v, newList, draws, t + 1).count == if taken then counter + 1 else counter
    {
      taken := Offer(newList[counter], draws(t), Assigned(v, newList, draws, t).jobs);
    }

    /** With fair draws this ends; t counts the rounds of the loop. */
    method Assign(newList: seq<Rank>, draws: Draws, ghost next: (nat, nat) -> nat, ghost v: seq<JobState>)
      returns (ghost t: nat)
      requires Is(v) && AllSmall(v) && Below(draws, |v|) && Fair(draws, |v|, next)
      requires Roomy(v, newList) && NoPrevious(newList)
      modifies jobs
      ensures Assigned(v, newList, draws, t).count == |newList| && Is(Assigned(v, newList, draws, t).jobs)
    {
      var allocationCounter, drawn := 0, 0;
      t := 0;
      ghost var due: nat := FirstDue(v, newList, draws, next);
      while |newList| > allocationCounter
        invariant t == drawn && allocationCounter == Assigned(v, newList, draws, t).count
        invariant Is(Assigned(v, newList, draws, t).jobs) && Due(v, newList, draws, t, due)
        decreases |newList| - allocationCounter, due - t
      {
        due := NextDue(v, newList, draws, next, t, due);
        var taken := AssignNext(newList, allocationCounter, draws, v, drawn);
        drawn, t := drawn + 1, t + 1;
        if taken {
          allocationCounter := allocationCounter + 1;
        }
      }
    }

    method TotalRanks(ghost v: seq<JobState>) returns (c: nat)
      requires Is(v)
      ensures c == CountTotalRanks(v)
    {
      c := 0;
      for i := 0 to |jobs|
        invariant c == CountTotalRanks(v[..i])
      {
        assert jobs[i].State() == v[i] && v[..i + 1][..i] == v[..i];
        c := c + |jobs[i].rankList|;
      }
      assert v[..|v|] == v;
    }

    method WriteToFile(note: string, ghost v: seq<JobState>) returns (text: string)
      requires Is(v)
      ensures text == Printed(v, note)
    {
      var total := TotalRanks(v);
      text := Itoa(total) + "\t" + Itoa(|jobs|) + "\n";
      ghost var head := text;
      for j := 0 to |jobs|
        invariant text + LinesText(v, j) == head + LinesText(v, 0)
      {
        assert jobs[j].State() == v[j];
        var line := jobs[j].Line(j);
        text := text + line;
      }
      text := text + note;
    }

    /** Choose and Assign, as the loop of main runs them for every version of the map: all that was taken is placed. */
    method Update(n: int, which: Draws, index: Draws, draws: Draws, ghost next: (nat, nat) -> nat,
                  ghost v: seq<JobState>)
      returns (ghost after: seq<JobState>, ghost t: nat)
      requires Is(v) && Below(which, |v|) && Below(index, 2) && Below(draws, |v|) && Fair(draws, |v|, next)
      requires AllSmall(v) && Placeable(v)
      modifies jobs
      ensures Is(after) && Round(v, after) && NonEmpty(v)
      ensures var p := Chosen(v, n, which, index, |v| / 2);
              Assigned(p.jobs, p.chosen, draws, t) == Placed(after, |p.chosen|)
    {
      var c := Choose(n, which, index, v);
      ghost var p := Chosen(v, n, which, index, |v| / 2);
      ChosenCanBePlaced(v, n, which, index, |v| / 2);
      t := Assign(c, draws, next, p.jobs);
      RoundIsSafe(v, n, which, index, |v| / 2, draws, t);
      after := Assigned(p.jobs, p.chosen, draws, t).jobs;
    }

    method ResetModified(ghost v: seq<JobState>)
      requires Is(v)
      modifies jobs
      ensures Is(Reset(v))
    {
      for i := 0 to |jobs|
        invariant Valid() && |v| == |jobs|
        invariant forall j :: 0 <= j < |jobs| ==> jobs[j].State() == if j < i then JobState(v[j].ranks, 0) else v[j]
      {
        jobs[i].modified := 0;
      }
    }

    /** The end of InitStackData: every rank gets the stack address it has written to the file, or 0. */
    method SetStacks(mappings: map<nat, nat>, ghost v: seq<JobState>)
      requires Is(v)
      modifies jobs
      ensures Is(Readdressed(v, mappings))
    {
      for i := 0 to |jobs|
        invariant Valid() && |v| == |jobs|
        invariant forall j :: 0 <= j < |jobs| ==>
                    jobs[j].State() == if j < i then JobState(AtStacks(v[j].ranks, mappings), v[j].modified) else v[j]
      {
        jobs[i].SetStacks(mappings);
      }
    }
  }

  function Reset(v: seq<JobState>): (r: seq<JobState>)
    ensures |r| == |v| && forall j :: 0 <= j < |v| ==> r[j] == JobState(v[j].ranks, 0)
  {
    seq(|v|, j requires 0 <= j < |v| => JobState(v[j].ranks, 0))
  }

  function AtStack(r: Rank, mappings: map<nat, nat>): Rank {
    r.(stackAdd := if r.rank in mappings then mappings[r.rank] else 0)
  }

  function AtStacks(ranks: seq<Rank>, mappings: map<nat, nat>): (r: seq<Rank>)
    ensures |r| == |ranks| && forall k :: 0 <= k < |ranks| ==> r[k] == AtStack(ranks[k], mappings)
  {
    seq(|ranks|, k requires 0 <= k < |ranks| => AtStack(ranks[k], mappings))
  }

  function Readdressed(v: seq<JobState>, mappings: map<nat, nat>): (r: seq<JobState>)
    ensures |r| == |v| && forall j :: 0 <= j < |v| ==> r[j] == JobState(AtStacks(v[j].ranks, mappings), v[j].modified)
  {
    seq(|v|, j requires 0 <= j < |v| => JobState(AtStacks(v[j].ranks, mappings), v[j].modified))
  }

  function AddressOf(rank: nat, mappings: map<nat, nat>): nat {
    if rank in mappings then mappings[rank] else 0
  }

  /** All these ranks have reported the same stack address. */
  predicate OneAddress(ranks: seq<Rank>, mappings: map<nat, nat>) {
    forall k :: 0 <= k < |ranks| ==> AddressOf(ranks[k].rank, mappings) == AddressOf(ranks[0].rank, mappings)
  }

  lemma UniformIffOneAddress(ranks: seq<Rank>, mappings: map<nat, nat>, modified: nat)
    requires NoPrevious(ranks)
    ensures Uniform(JobState(AtStacks(ranks, mappings), modified)) <==> OneAddress(ranks, mappings)
    ensures NoPrevious(AtStacks(ranks, mappings))
    ensures forall k :: 0 <= k < |ranks| ==> AtStacks(ranks, mappings)[k].rank == ranks[k].rank
  {
    var after := AtStacks(ranks, mappings);
    forall k | 0 <= k < |ranks| ensures after[k] in after && after[k].stackAdd == AddressOf(ranks[k].rank, mappings) {
    }
  }

  /** New stack addresses leave one per job exactly when the ranks of each job have reported the same one. */
  lemma ReaddressedIsPlaceable(v: seq<JobState>, mappings: map<nat, nat>)
    requires forall j :: 0 <= j < |v| ==> NoPrevious(v[j].ranks)
    ensures Placeable(Readdressed(v, mappings)) <==> forall j :: 0 <= j < |v| ==> OneAddress(v[j].ranks, mappings)
  {
    forall j | 0 <= j < |v|
      ensures Uniform(Readdressed(v, mappings)[j]) <==> OneAddress(v[j].ranks, mappings)
      ensures NoPrevious(Readdressed(v, mappings)[j].ranks)
    {
      UniformIffOneAddress(v[j].ranks, mappings, v[j].modified);
    }
  }

  /** Once n ranks are chosen, the rest of the loop of Choose would change nothing. */
  lemma {:induction false} PickedEnough(jobs: seq<JobState>, n: int, which: Draws, index: Draws, i: nat, k: nat)
    requires NonEmpty(jobs) && Below(which, |jobs|) && Below(index, 2) && i <= k
    requires |Chosen(jobs, n, which, index, i).chosen| >= n
    ensures Chosen(jobs, n, which, index, k) == Chosen(jobs, n, which, index, i)
  {
    if i < k {
      PickedEnough(jobs, n, which, index, i, k - 1);
    }
  }
}
