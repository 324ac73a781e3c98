/** The part of MPI that the framework rests on: a communicator is the sequence of its processes in rank order. */
module Mpi {

  // A process is named by the rank it was started with. That name never changes (static_rank in src/shared.h).
  type Pid = nat

  // The contents of a message or of a block of memory.
  type Bytes = seq<bv8>

  // The rank MPI_Group_translate_ranks reports for a process that is not in the target group.
  const MPI_UNDEFINED: int := -32766

  ghost predicate Distinct<T>(s: seq<T>) {
    forall i, j :: 0 <= i < j < |s| ==> s[i] != s[j]
  }

  /** The rank of p in comm, or MPI_UNDEFINED. */
  function RankOf(comm: seq<Pid>, p: Pid): (r: int)
    ensures p in comm ==> 0 <= r < |comm| && comm[r] == p
    ensures p !in comm ==> r == MPI_UNDEFINED
  {
    if comm == [] then MPI_UNDEFINED
    else if comm[0] == p then 0
    else
      var r := RankOf(comm[1..], p);
      if r == MPI_UNDEFINED then r else r + 1
  }

  lemma RankIsUnique(comm: seq<Pid>, i: nat)
    requires Distinct(comm) && i < |comm|
    ensures RankOf(comm, comm[i]) == i
  {
    assert comm[i] in comm;
  }

  /** MPI_Group_translate_ranks applied to every rank of the group `from`. */
  function TranslateRanks(from: seq<Pid>, to: seq<Pid>): (tr: seq<int>)
    ensures |tr| == |from|
    ensures forall r :: 0 <= r < |from| ==> tr[r] == RankOf(to, from[r])
  {
    seq(|from|, r requires 0 <= r < |from| => RankOf(to, from[r]))
  }

  /** MPIX_Comm_shrink: the members that are not excluded, in their old order. */
  function Shrink(comm: seq<Pid>, excluded: set<Pid>): (s: seq<Pid>)
    ensures forall p :: p in s <==> p in comm && p !in excluded
    ensures |s| <= |comm|
  {
    if comm == [] then []
    else
      var rest := Shrink(comm[..|comm| - 1], excluded);
      var last := comm[|comm| - 1];
      assert comm == comm[..|comm| - 1] + [last];
      if last in excluded then rest else rest + [last]
  }

  lemma {:induction false} ShrinkIsDistinct(comm: seq<Pid>, excluded: set<Pid>)
    requires Distinct(comm)
    ensures Distinct(Shrink(comm, excluded))
  {
    if comm != [] {
      var front := comm[..|comm| - 1];
      ShrinkIsDistinct(front, excluded);
      assert comm[|comm| - 1] !in front;
    }
  }

  /** Removing a member makes the communicator strictly smaller. */
  lemma {:induction false} ShrinkLosesMembers(comm: seq<Pid>, excluded: set<Pid>)
    requires exists p :: p in comm && p in excluded
    ensures |Shrink(comm, excluded)| < |comm|
  {
    var front, last := comm[..|comm| - 1], comm[|comm| - 1];
    assert comm == front + [last];
    if last !in excluded {
      ShrinkLosesMembers(front, excluded);
    }
  }

  lemma {:induction false} ShrinkTwice(comm: seq<Pid>, d1: set<Pid>, d2: set<Pid>)
    ensures Shrink(Shrink(comm, d1), d2) == Shrink(comm, d1 + d2)
  {
    if comm != [] {
      var front, last := comm[..|comm| - 1], comm[|comm| - 1];
      ShrinkTwice(front, d1, d2);
      if last !in d1 {
        var s := Shrink(comm, d1);
        assert s[..|s| - 1] == Shrink(front, d1);
      }
    }
  }

  lemma {:induction false} ShrinkOfConcat(a: seq<Pid>, b: seq<Pid>, excluded: set<Pid>)
    ensures Shrink(a + b, excluded) == Shrink(a, excluded) + Shrink(b, excluded)
  {
    if b == [] {
      assert a + b == a;
    } else {
      ShrinkOfConcat(a, b[..|b| - 1], excluded);
      assert (a + b)[..|a + b| - 1] == a + b[..|b| - 1];
    }
  }

  lemma ShrinkDropsLast(comm: seq<Pid>, last: Pid, excluded: set<Pid>)
    requires last in excluded
    ensures Shrink(comm + [last], excluded) == Shrink(comm, excluded)
  {
    assert (comm + [last])[..|comm|] == comm;
  }

  /** Taking out one member moves everybody behind it up by one rank. */
  lemma ShrinkByOne(comm: seq<Pid>, i: nat)
    requires Distinct(comm) && i < |comm|
    ensures Shrink(comm, {comm[i]}) == comm[..i] + comm[i + 1..]
  {
    var before, rest, out := comm[..i], comm[i + 1..], {comm[i]};
    assert comm == before + [comm[i]] + rest;
    ShrinkOfConcat(before + [comm[i]], rest, out);
    ShrinkDropsLast(before, comm[i], out);
    ShrinkByNone(before, out);
    ShrinkByNone(rest, out);
  }

  lemma {:induction false} ShrinkByNone(comm: seq<Pid>, excluded: set<Pid>)
    requires forall p :: p in comm ==> p !in excluded
    ensures Shrink(comm, excluded) == comm
  {
    if comm != [] {
      var front, last := comm[..|comm| - 1], comm[|comm| - 1];
      assert comm == front + [last];
      ShrinkByNone(front, excluded);
    }
  }

  // ---------------------------------------------------------------------------------------------
  // MPI_Comm_split: section 6.4.2 of MPI 3.1. The members that pass one colour are ordered by key,
  // ties broken by the rank in the old communicator.
  // ---------------------------------------------------------------------------------------------

  /** Places p behind every member whose key is not larger. */
  function InsertByKey(s: seq<Pid>, p: Pid, key: map<Pid, int>): (r: seq<Pid>)
    requires p in key && forall q :: q in s ==> q in key
    ensures multiset(r) == multiset(s) + multiset{p}
  {
    if s == [] then [p]
    else
      var front, last := s[..|s| - 1], s[|s| - 1];
      assert s == front + [last];
      if key[last] <= key[p] then s + [p]
      else InsertByKey(front, p, key) + [last]
  }

  function SplitOrder(members: seq<Pid>, key: map<Pid, int>): (r: seq<Pid>)
    requires forall q :: q in members ==> q in key
    ensures multiset(r) == multiset(members)
  {
    if members == [] then []
    else
      var front, last := members[..|members| - 1], members[|members| - 1];
      assert members == front + [last];
      var rest := SplitOrder(front, key);
      SameElements(rest, front);
      InsertByKey(rest, last, key)
  }

  lemma SameElements<T>(a: seq<T>, b: seq<T>)
    requires multiset(a) == multiset(b)
    ensures |a| == |b|
    ensures forall x :: x in a <==> x in b
  {
    assert |a| == |multiset(a)| == |multiset(b)| == |b|;
    forall x ensures x in a <==> x in b {
      assert x in a <==> x in multiset(a);
      assert x in b <==> x in multiset(b);
    }
  }

  ghost predicate SortedBy(s: seq<Pid>, key: map<Pid, int>)
    requires forall q :: q in s ==> q in key
  {
    forall i, j :: 0 <= i < j < |s| ==> key[s[i]] <= key[s[j]]
  }

  lemma {:induction false} InsertKeepsSorted(s: seq<Pid>, p: Pid, key: map<Pid, int>)
    requires p in key && forall q :: q in s ==> q in key
    requires SortedBy(s, key)
    ensures forall q :: q in InsertByKey(s, p, key) ==> q in key
    ensures SortedBy(InsertByKey(s, p, key), key)
  {
    var r := InsertByKey(s, p, key);
    SameElements(r, s + [p]);
    if s != [] {
      var front, last := s[..|s| - 1], s[|s| - 1];
      if key[last] <= key[p] {
        forall i, j | 0 <= i < j < |r| ensures key[r[i]] <= key[r[j]] {
          assert r[i] == s[i] && key[s[i]] <= key[last];
        }
      } else {
        InsertKeepsSorted(front, p, key);
        SameElements(InsertByKey(front, p, key), front + [p]);
        forall i, j | 0 <= i < j < |r| ensures key[r[i]] <= key[r[j]] {
          var rest := InsertByKey(front, p, key);
          assert r[i] == rest[i] && rest[i] in rest && rest[i] in front + [p];
        }
      }
    }
  }

  lemma {:induction false} SplitIsSorted(members: seq<Pid>, key: map<Pid, int>)
    requires forall q :: q in members ==> q in key
    ensures forall q :: q in SplitOrder(members, key) ==> q in key
    ensures SortedBy(SplitOrder(members, key), key)
  {
    SameElements(SplitOrder(members, key), members);
    if members != [] {
      var front, last := members[..|members| - 1], members[|members| - 1];
      SplitIsSorted(front, key);
      InsertKeepsSorted(SplitOrder(front, key), last, key);
    }
  }

  ghost function OtherKeys(key: map<Pid, int>, k: int): set<Pid> {
    set q | q in key && key[q] != k
  }

  lemma {:induction false} InsertIsStable(s: seq<Pid>, p: Pid, key: map<Pid, int>, k: int)
    requires p in key && forall q :: q in s ==> q in key
    ensures Shrink(InsertByKey(s, p, key), OtherKeys(key, k))
         == Shrink(s, OtherKeys(key, k)) + if key[p] == k then [p] else []
  {
    var r := InsertByKey(s, p, key);
    assert s == [] ==> r[..0] == [];
    if s != [] {
      var front, last := s[..|s| - 1], s[|s| - 1];
      if key[last] <= key[p] {
        assert r[..|r| - 1] == s;
      } else {
        InsertIsStable(front, p, key, k);
        assert r[..|r| - 1] == InsertByKey(front, p, key);
      }
    }
  }

  /** Ties keep the old order: the members with any one key appear as they did before the split. */
  lemma {:induction false} SplitIsStable(members: seq<Pid>, key: map<Pid, int>, k: int)
    requires forall q :: q in members ==> q in key
    ensures Shrink(SplitOrder(members, key), OtherKeys(key, k)) == Shrink(members, OtherKeys(key, k))
  {
    SameElements(SplitOrder(members, key), members);
    if members != [] {
      var front, last := members[..|members| - 1], members[|members| - 1];
      SplitIsStable(front, key, k);
      SameElements(SplitOrder(front, key), front);
      InsertIsStable(SplitOrder(front, key), last, key, k);
    }
  }
}
