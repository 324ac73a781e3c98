/** The replication map as text: what the manager prints, what parse_map_file scans, what the fault injector splits. */
module MapFiles {
  import opened NodeState
  import opened Text
  import opened Comm
  import M = Manager
  import R = Rounds

  datatype Scanned<T> = Scanned(value: T, rest: string)

  // ---------------------------------------------------------------------------------------------
  // The scanner of src/mpi/comm.c
  // ---------------------------------------------------------------------------------------------

  function ScanRanks(t: string, k: nat): (r: Option<Scanned<seq<int>>>)
    ensures r.Some? ==> |r.value.value| == k
    decreases k
  {
    if k == 0 then Some(Scanned([], t))
    else
      match ScanInt(t)
      case None => None
      case Some(s) =>
        match ScanRanks(s.rest, k - 1)
        case None => None
        case Some(r) => Some(Scanned([s.value] + r.value, r.rest))
  }

  /** The three numbers at the head of a line; a job id or a worker count out of range fails an assertion. */
  function ScanHead(t: string, jobs: int): Option<Scanned<(int, int, nat)>> {
    match ScanInt(t)
    case None => None
    case Some(u) =>
      match ScanInt(u.rest)
      case None => None
      case Some(j) =>
        match ScanInt(j.rest)
        case None => None
        case Some(w) =>
          if 0 <= j.value < jobs && w.value > 0 then Some(Scanned((u.value, j.value, w.value), w.rest)) else None
  }

  function ScanLine(t: string, jobs: int): (r: Option<Scanned<MapLine>>)
    ensures r.Some? ==> 0 <= r.value.value.jobId < jobs && r.value.value.ranks != []
  {
    match ScanHead(t, jobs)
    case None => None
    case Some(h) =>
      match ScanRanks(h.rest, h.value.2)
      case None => None
      case Some(r) => Some(Scanned(MapLine(h.value.0, h.value.1, r.value), r.rest))
  }

  function ScanLines(t: string, jobs: int, k: nat): (r: Option<seq<MapLine>>)
    ensures r.Some? ==> |r.value| == k
    ensures r.Some? ==> forall i :: 0 <= i < k ==> 0 <= r.value[i].jobId < jobs && r.value[i].ranks != []
    decreases k
  {
    if k == 0 then Some([])
    else
      match ScanLine(t, jobs)
      case None => None
      case Some(l) =>
        match ScanLines(l.rest, jobs, k - 1)
        case None => None
        case Some(ls) => Some([l.value] + ls)
  }

  function ScanMap(t: string): (r: Option<MapFile>)
    ensures r.Some? ==>
      forall i :: 0 <= i < |r.value.lines| ==>
      0 <= r.value.lines[i].jobId < |r.value.lines| && r.value.lines[i].ranks != []
  {
    match ScanInt(t)
    case None => None
    case Some(cores) =>
      match ScanInt(cores.rest)
      case None => None
      case Some(jobs) =>
        if jobs.value < 0 then Some(MapFile(cores.value, []))
        else
          match ScanLines(jobs.rest, jobs.value, jobs.value)
          case None => None
          case Some(ls) => Some(MapFile(cores.value, ls))
  }

  // ---------------------------------------------------------------------------------------------
  // Scanning what was printed
  // ---------------------------------------------------------------------------------------------

  /** A number behind one blank. */
  lemma ScanAfterBlank(c: char, n: nat, rest: string)
    requires (c == '\t' || c == '\n') && NoDigitAhead(rest)
    ensures ScanInt([c] + Itoa(n) + rest) == Some(Scan(n, rest))
  {
    assert [c] + Itoa(n) + rest == [c] + (Itoa(n) + rest);
    ScanSkips(c, Itoa(n) + rest);
    ScanPrinted(n, rest);
  }

  lemma {:induction false} ScanPrintedRanks(ranks: seq<M.Rank>, rest: string)
    requires NoDigitAhead(rest)
    ensures NoDigitAhead(M.RanksText(ranks) + rest)
    ensures ScanRanks(M.RanksText(ranks) + rest, |ranks|) == Some(Scanned(R.Ids(ranks), rest))
  {
    if ranks == [] {
      assert M.RanksText(ranks) + rest == rest;
    } else {
      var tail := M.RanksText(ranks[1..]) + rest;
      ScanPrintedRanks(ranks[1..], rest);
      Assoc("\t" + Itoa(ranks[0].rank), M.RanksText(ranks[1..]), rest);
      ScanAfterBlank('\t', ranks[0].rank, tail);
      assert R.Ids(ranks) == [ranks[0].rank] + R.Ids(ranks[1..]);
    }
  }

  lemma Regroup(a: string, b: string, c: string, d: string, rest: string)
    ensures a + "\t" + b + "\t" + c + d + "\n" + rest == a + ("\t" + b + ("\t" + c + (d + ("\n" + rest))))
  {
  }

  /**
   * `front` is what stands between the end of the previous line's last number and this line: nothing, or a line break.
   */
  lemma ScanPrintedLine(front: string, j: nat, job: M.JobState, jobs: int, rest: string)
    requires front == "" || front == "\n"
    requires j < jobs && job.ranks != []
    ensures ScanLine(front + (M.LineText(j, job) + rest), jobs)
        == Some(Scanned(MapLine(job.modified, j, R.Ids(job.ranks)), "\n" + rest))
  {
    var t3 := M.RanksText(job.ranks) + ("\n" + rest);
    var t2 := "\t" + Itoa(|job.ranks|) + t3;
    var t1 := "\t" + Itoa(j) + t2;
    var t0 := Itoa(job.modified) + t1;
    Regroup(Itoa(job.modified), Itoa(j), Itoa(|job.ranks|), M.RanksText(job.ranks), rest);
    ScanPrintedRanks(job.ranks, "\n" + rest);
    ScanAfterBlank('\t', |job.ranks|, t3);
    ScanAfterBlank('\t', j, t2);
    ScanPrinted(job.modified, t1);
    ScanFront(front, t0);
  }

  lemma ScanFront(front: string, t: string)
    requires front == "" || front == "\n"
    ensures ScanInt(front + t) == ScanInt(t)
  {
    if front == "" {
      assert front + t == t;
    } else {
      ScanSkips('\n', t);
    }
  }

  lemma OnePrintedLineMore(front: string, v: seq<M.JobState>, j: nat, rest: string)
    requires front == "" || front == "\n"
    requires j < |v| && forall i :: 0 <= i < |v| ==> v[i].ranks != []
    requires ScanLines("\n" + (M.LinesText(v, j + 1) + rest), |v|, |v| - (j + 1))
        == Some(R.Written(v, 0).lines[j + 1..])
    ensures ScanLines(front + (M.LinesText(v, j) + rest), |v|, |v| - j) == Some(R.Written(v, 0).lines[j..])
  {
    var line, more := M.LineText(j, v[j]), M.LinesText(v, j + 1);
    Assoc(line, more, rest);
    ScanPrintedLine(front, j, v[j], |v|, more + rest);
    LinesFrom(v, j);
    OneLineMore(front + (line + (more + rest)), |v|, |v| - j, MapLine(v[j].modified, j, R.Ids(v[j].ranks)),
                "\n" + (more + rest), R.Written(v, 0).lines[j + 1..]);
  }

  lemma {:induction false} ScanPrintedLines(front: string, v: seq<M.JobState>, j: nat, rest: string)
    requires front == "" || front == "\n"
    requires j <= |v| && forall i :: 0 <= i < |v| ==> v[i].ranks != []
    ensures ScanLines(front + (M.LinesText(v, j) + rest), |v|, |v| - j) == Some(R.Written(v, 0).lines[j..])
    decreases |v| - j
  {
    if j < |v| {
      ScanPrintedLines("\n", v, j + 1, rest);
      OnePrintedLineMore(front, v, j, rest);
    } else {
      assert R.Written(v, 0).lines[j..] == [];
    }
  }

  lemma OneLineMore(t: string, jobs: int, k: nat, line: MapLine, rest: string, ls: seq<MapLine>)
    requires k > 0 && ScanLine(t, jobs) == Some(Scanned(line, rest)) && ScanLines(rest, jobs, k - 1) == Some(ls)
    ensures ScanLines(t, jobs, k) == Some([line] + ls)
  {
  }

  lemma LinesFrom(v: seq<M.JobState>, j: nat)
    requires j < |v|
    ensures R.Written(v, 0).lines[j..]
        == [MapLine(v[j].modified, j, R.Ids(v[j].ranks))] + R.Written(v, 0).lines[j + 1..]
  {
  }

  lemma Assoc(a: string, b: string, c: string)
    ensures a + b + c == a + (b + c)
  {
  }

  /**
   * Scanning what WriteToFile prints gives back every number; the explanation at the end of the file is never reached.
   */
  lemma ScanOfPrinted(v: seq<M.JobState>, note: string)
    requires forall i :: 0 <= i < |v| ==> v[i].ranks != []
    ensures ScanMap(M.Printed(v, note)) == Some(R.Written(v, M.CountTotalRanks(v)))
  {
    var cores := M.CountTotalRanks(v);
    var lines := M.LinesText(v, 0) + note;
    var t1 := "\t" + Itoa(|v|) + ("\n" + lines);
    RegroupHead(Itoa(cores), Itoa(|v|), M.LinesText(v, 0), note);
    ScanPrinted(cores, t1);
    ScanAfterBlank('\t', |v|, "\n" + lines);
    ScanPrintedLines("\n", v, 0, note);
    assert R.Written(v, cores).lines == R.Written(v, 0).lines == R.Written(v, 0).lines[0..];
  }

  lemma RegroupHead(a: string, b: string, c: string, d: string)
    ensures a + "\t" + b + "\n" + c + d == a + ("\t" + b + ("\n" + (c + d)))
  {
  }

  // ---------------------------------------------------------------------------------------------
  // The splitter of src/manager/fault_injector/selector/selector.go
  // ---------------------------------------------------------------------------------------------

  // The compute rank and the replica of a job; -1 when there is none.
  datatype CR = CR(compute: int, replica: int)

  /** reader.ReadString('\n') with the line break taken off. */
  function ReadLine(t: string): (line: string)
    ensures |line| <= |t|
  {
    Before(t, '\n')
  }

  function BehindLine(t: string): (rest: string)
    ensures |rest| <= |t|
  {
    var n := |ReadLine(t)|;
    if n == |t| then "" else t[n + 1..]
  }

  function FieldOr(parts: seq<string>, k: nat): int {
    if k < |parts| then Atoi(parts[k]) else -1
  }

  /** One line; None is a run-time panic: no job id, or more ranks than the two that CR can hold. */
  function SplitLine(line: string): Option<(int, CR)> {
    var parts := Split(line, '\t');
    if |parts| < 2 || |parts| > 5 then None else Some((Atoi(parts[1]), CR(FieldOr(parts, 3), FieldOr(parts, 4))))
  }

  // reads one entry, and what is left of the file behind it
  type Reader = string -> Option<(int, CR, string)>

  function NextEntry(t: string): Option<(int, CR, string)> {
    match SplitLine(ReadLine(t))
    case None => None
    case Some(e) => Some((e.0, e.1, BehindLine(t)))
  }

  function Gathered(read: Reader, t: string, k: nat, sofar: map<int, CR>): Option<map<int, CR>>
    decreases k
  {
    if k == 0 then Some(sofar)
    else
      match read(t)
      case None => None
      case Some(e) => Gathered(read, e.2, k - 1, sofar[e.0 := e.1])
  }

  /** The loop of initReplicationMap over k lines. */
  function SplitLines(t: string, k: nat, sofar: map<int, CR>): Option<map<int, CR>> {
    Gathered(NextEntry, t, k, sofar)
  }

  /** initReplicationMap */
  function SplitMap(t: string): Option<map<int, CR>> {
    var parts := Split(ReadLine(t), '\t');
    if |parts| < 2 then None
    else
      var numJobs := Atoi(parts[1]);
      SplitLines(BehindLine(t), if numJobs < 0 then 0 else numJobs, map[])
  }

  function PairOf(ranks: seq<int>): CR {
    CR(if |ranks| > 0 then ranks[0] else -1, if |ranks| > 1 then ranks[1] else -1)
  }

  lemma DigitsOnly(s: string, c: char)
    requires AllDigits(s) && (c == '\t' || c == '\n')
    ensures c !in s
  {
  }

  lemma AtoiOfItoa(n: nat)
    ensures Atoi(Itoa(n)) == n
  {
    ItoaValue(n);
  }

  /** Taking the first field off a line. */
  lemma FieldsStep(f: string, c: char, rest: string)
    requires c == '\t' || c == '\n'
    requires c !in f
    ensures Split(f + [c] + rest, c) == [f] + Split(rest, c) && Split(f, c) == [f]
    ensures Before(f + [c] + rest, c) == f && Before(f, c) == f
  {
    SplitFirst(f, c, rest);
    BeforePrinted(f, c, rest);
  }

  lemma RegroupField(f: string, a: string, tail: string)
    ensures f + ("\t" + a + tail) == f + ['\t'] + (a + tail)
  {
  }

  lemma FieldsGrow(ranks: seq<M.Rank>)
    requires ranks != []
    ensures RankFields(ranks) == [Itoa(ranks[0].rank)] + RankFields(ranks[1..])
  {
  }

  /** The fields of a printed rank list, behind the field f. */
  lemma {:induction false} SplitRanks(f: string, ranks: seq<M.Rank>)
    requires '\t' !in f
    ensures Split(f + M.RanksText(ranks), '\t') == [f] + RankFields(ranks)
    decreases |ranks|
  {
    if ranks == [] {
      assert f + M.RanksText(ranks) == f;
      FieldsStep(f, '\t', "");
    } else {
      var a, tail := Itoa(ranks[0].rank), M.RanksText(ranks[1..]);
      DigitsOnly(a, '\t');
      SplitRanks(a, ranks[1..]);
      RegroupField(f, a, tail);
      FieldsStep(f, '\t', a + tail);
      FieldsGrow(ranks);
    }
  }

  function RankFields(ranks: seq<M.Rank>): seq<string> {
    seq(|ranks|, k requires 0 <= k < |ranks| => Itoa(ranks[k].rank))
  }

  /** The fields of a printed line. */
  lemma SplitPrintedLine(j: nat, job: M.JobState)
    ensures var line := Itoa(job.modified) + "\t" + Itoa(j) + "\t" + Itoa(|job.ranks|) + M.RanksText(job.ranks);
            Split(line, '\t') == [Itoa(job.modified)] + ([Itoa(j)] + ([Itoa(|job.ranks|)] + RankFields(job.ranks)))
  {
    var a, b, c, d := Itoa(job.modified), Itoa(j), Itoa(|job.ranks|), M.RanksText(job.ranks);
    DigitsOnly(a, '\t');
    DigitsOnly(b, '\t');
    DigitsOnly(c, '\t');
    SplitRanks(c, job.ranks);
    FieldsStep(b, '\t', c + d);
    FieldsStep(a, '\t', b + ['\t'] + (c + d));
    RegroupLine(a, b, c, d);
  }

  lemma RegroupLine(a: string, b: string, c: string, d: string)
    ensures a + "\t" + b + "\t" + c + d == a + ['\t'] + (b + ['\t'] + (c + d))
  {
  }

  lemma {:induction false} NoBreakInRanks(ranks: seq<M.Rank>)
    ensures '\n' !in M.RanksText(ranks)
  {
    if ranks != [] {
      NoBreakInRanks(ranks[1..]);
      DigitsOnly(Itoa(ranks[0].rank), '\n');
    }
  }

  /** Splitting a printed line finds the job and its one or two ranks. */
  lemma ReadPrintedLine(j: nat, job: M.JobState, rest: string)
    requires M.Small(job)
    ensures SplitLine(ReadLine(M.LineText(j, job) + rest)) == Some((j, PairOf(R.Ids(job.ranks))))
    ensures BehindLine(M.LineText(j, job) + rest) == rest
  {
    var line := Itoa(job.modified) + "\t" + Itoa(j) + "\t" + Itoa(|job.ranks|) + M.RanksText(job.ranks);
    DigitsOnly(Itoa(job.modified), '\n');
    DigitsOnly(Itoa(j), '\n');
    DigitsOnly(Itoa(|job.ranks|), '\n');
    NoBreakInRanks(job.ranks);
    assert '\n' !in line;
    assert M.LineText(j, job) == line + ['\n'];
    FieldsStep(line, '\n', rest);
    assert (line + ['\n'] + rest)[|line| + 1..] == rest;
    SplitPrintedLine(j, job);
    FieldsOfLine(Split(line, '\t'), Itoa(job.modified), j, Itoa(|job.ranks|), job.ranks);
  }

  lemma FieldsOfLine(parts: seq<string>, a: string, j: nat, c: string, ranks: seq<M.Rank>)
    requires parts == [a] + ([Itoa(j)] + ([c] + RankFields(ranks))) && 1 <= |ranks| <= 2
    ensures 2 <= |parts| <= 5 && Atoi(parts[1]) == j
    ensures CR(FieldOr(parts, 3), FieldOr(parts, 4)) == PairOf(R.Ids(ranks))
  {
    AtoiOfItoa(j);
    assert parts[3] == RankFields(ranks)[0];
    AtoiOfItoa(ranks[0].rank);
    if |ranks| == 2 {
      assert parts[4] == RankFields(ranks)[1];
      AtoiOfItoa(ranks[1].rank);
    }
  }

  /** A printed line makes the injector panic exactly when the job has more ranks than its pair can hold. */
  lemma PanicsIffMoreThanTwo(j: nat, job: M.JobState, rest: string)
    ensures SplitLine(ReadLine(M.LineText(j, job) + rest)).None? <==> |job.ranks| > 2
  {
    var line := Itoa(job.modified) + "\t" + Itoa(j) + "\t" + Itoa(|job.ranks|) + M.RanksText(job.ranks);
    DigitsOnly(Itoa(job.modified), '\n');
    DigitsOnly(Itoa(j), '\n');
    DigitsOnly(Itoa(|job.ranks|), '\n');
    NoBreakInRanks(job.ranks);
    assert '\n' !in line;
    assert M.LineText(j, job) == line + ['\n'];
    FieldsStep(line, '\n', rest);
    SplitPrintedLine(j, job);
    assert |Split(line, '\t')| == 3 + |job.ranks|;
  }

  /** The entries the injector should have for the jobs below j. */
  function Pairs(v: seq<M.JobState>, j: nat): map<int, CR>
    requires j <= |v|
  {
    map k | 0 <= k < j :: PairOf(R.Ids(v[k].ranks))
  }

  /** Reading the line in front of ts[i] leaves ts[i + 1], and makes ms[i + 1] of ms[i]. */
  ghost predicate SplitLink(read: Reader, ts: seq<string>, ms: seq<map<int, CR>>, i: nat)
    requires i + 1 < |ts| == |ms|
  {
    read(ts[i]).Some? && var e := read(ts[i]).value; e.2 == ts[i + 1] && ms[i + 1] == ms[i][e.0 := e.1]
  }

  lemma {:induction false} SplitAlong(read: Reader, ts: seq<string>, ms: seq<map<int, CR>>, i: nat)
    requires i < |ts| == |ms|
    requires forall j: nat {:trigger SplitLink(read, ts, ms, j)} :: j < |ts| - 1 ==> SplitLink(read, ts, ms, j)
    ensures Gathered(read, ts[i], |ts| - 1 - i, ms[i]) == Some(ms[|ms| - 1])
    decreases |ts| - i
  {
    if i < |ts| - 1 {
      assert SplitLink(read, ts, ms, i);
      SplitAlong(read, ts, ms, i + 1);
    }
  }

  lemma NextPair(v: seq<M.JobState>, j: nat)
    requires j < |v|
    ensures Pairs(v, j)[j := PairOf(R.Ids(v[j].ranks))] == Pairs(v, j + 1)
  {
  }

  /** What is left of the lines from job j on, with the explanation behind them. */
  function Remainders(v: seq<M.JobState>, note: string): (ts: seq<string>)
    ensures |ts| == |v| + 1 && forall j :: 0 <= j < |ts| ==> ts[j] == M.LinesText(v, j) + note
  {
    seq(|v| + 1, j requires 0 <= j <= |v| => M.LinesText(v, j) + note)
  }

  function PairsSoFar(v: seq<M.JobState>): (ms: seq<map<int, CR>>)
    ensures |ms| == |v| + 1 && forall j :: 0 <= j < |ms| ==> ms[j] == Pairs(v, j)
  {
    seq(|v| + 1, j requires 0 <= j <= |v| => Pairs(v, j))
  }

  lemma LineIsLink(v: seq<M.JobState>, j: nat, note: string, ts: seq<string>, ms: seq<map<int, CR>>)
    requires M.AllSmall(v) && j < |v| && |ts| == |ms| == |v| + 1
    requires ts[j] == M.LinesText(v, j) + note && ts[j + 1] == M.LinesText(v, j + 1) + note
    requires ms[j] == Pairs(v, j) && ms[j + 1] == Pairs(v, j + 1)
    ensures SplitLink(NextEntry, ts, ms, j)
  {
    Assoc(M.LineText(j, v[j]), M.LinesText(v, j + 1), note);
    ReadPrintedLine(j, v[j], ts[j + 1]);
    NextPair(v, j);
  }

  lemma ReadPrintedLines(v: seq<M.JobState>, note: string)
    requires M.AllSmall(v)
    ensures SplitLines(M.LinesText(v, 0) + note, |v|, Pairs(v, 0)) == Some(Pairs(v, |v|))
  {
    var ts, ms := Remainders(v, note), PairsSoFar(v);
    forall j: nat | j < |ts| - 1 ensures SplitLink(NextEntry, ts, ms, j) {
      LineIsLink(v, j, note, ts, ms);
    }
    SplitAlong(NextEntry, ts, ms, 0);
  }

  /** The fault injector reads the same ranks as the scanner: both find what the manager has printed. */
  lemma SplitOfPrinted(v: seq<M.JobState>, note: string)
    requires M.AllSmall(v)
    ensures SplitMap(M.Printed(v, note)) == Some(Pairs(v, |v|))
    ensures ScanMap(M.Printed(v, note)).Some?
    ensures var m := ScanMap(M.Printed(v, note)).value;
            |m.lines| == |v| && forall j :: 0 <= j < |v| ==> Pairs(v, |v|)[j] == PairOf(m.lines[j].ranks)
  {
    ScanOfPrinted(v, note);
    var a, b, lines := Itoa(M.CountTotalRanks(v)), Itoa(|v|), M.LinesText(v, 0) + note;
    DigitsOnly(a, '\t');
    DigitsOnly(a, '\n');
    DigitsOnly(b, '\t');
    DigitsOnly(b, '\n');
    var head := a + ['\t'] + b;
    RegroupHead2(a, b, M.LinesText(v, 0), note);
    FieldsStep(head, '\n', lines);
    assert (head + ['\n'] + lines)[|head| + 1..] == lines;
    FieldsStep(a, '\t', b);
    FieldsStep(b, '\t', "");
    AtoiOfItoa(|v|);
    ReadPrintedLines(v, note);
    assert Pairs(v, 0) == map[];
  }

  lemma RegroupHead2(a: string, b: string, c: string, d: string)
    ensures a + "\t" + b + "\n" + c + d == a + ['\t'] + b + ['\n'] + (c + d)
  {
  }
}
