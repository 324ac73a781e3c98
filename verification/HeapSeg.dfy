/** src/replication/heapseg.c: the registry of allocations, and replaying it on another process. */
module HeapSeg {
  import opened Mpi
  import opened NodeState

  type Addr = nat

  // container_address, linked_address, allocated_address, size
  datatype Container = Container(place: Addr, link: Addr, block: Addr, size: nat)

  // The pointer variables that containers are, and the blocks they may point to. No variable lies inside a block.
  datatype Memory = Memory(cells: map<Addr, Addr>, blocks: map<Addr, Bytes>)

  // malloc: the address of a new block, when these blocks exist
  type Allocator = set<Addr> -> Addr

  ghost predicate Fresh(alloc: Allocator) {
    forall used {:trigger alloc(used)} :: alloc(used) !in used && alloc(used) != 0
  }

  function Cell(m: Memory, a: Addr): Addr {
    if a in m.cells then m.cells[a] else 0
  }

  /** An entry made by rep_assign_malloc_context, as transfer_heap_seg recognises it. */
  predicate IsAlias(c: Container) {
    c.size == 0 && c.link != 0
  }

  // ---------------------------------------------------------------------------------------------
  // The doubly linked list
  // ---------------------------------------------------------------------------------------------

  class Element {
    var container: Container
    var next: Element?
    var prev: Element?

    constructor (c: Container, prev: Element?)
      ensures container == c && next == null && this.prev == prev
    {
      container, next, this.prev := c, null, prev;
    }
  }

  class Registry {
    var head: Element?
    var tail: Element?
    // malloc_number_of_allocations, total_malloc_allocation_size
    var count: nat
    var total: nat
    var mem: Memory
    // the elements from head to tail
    ghost var spine: seq<Element>

    ghost predicate Linked()
      reads this, spine
    {
      && (forall i, j :: 0 <= i < j < |spine| ==> spine[i] != spine[j])
      && (forall i :: 0 <= i < |spine| - 1 ==> spine[i].next == spine[i + 1])
      && (forall i :: 0 < i < |spine| ==> spine[i].prev == spine[i - 1])
      && (spine != [] ==> spine[|spine| - 1].next == null && spine[0].prev == null)
    }

    ghost predicate Valid()
      reads this, spine
    {
      && Linked()
      && head == (if spine == [] then null else spine[0])
      && tail == (if spine == [] then null else spine[|spine| - 1])
    }

    /** From head to tail, the elements hold these containers. */
    ghost predicate Holds(entries: seq<Container>)
      reads this, spine
    {
      Valid() && |entries| == |spine| && forall i :: 0 <= i < |spine| ==> spine[i].container == entries[i]
    }

    constructor (mem: Memory)
      ensures Holds([]) && count == 0 && total == 0 && this.mem == mem
    {
      head, tail, count, total := null, null, 0, 0;
      this.mem := mem;
      spine := [];
    }

    /** rep_append */
    method Append(c: Container, ghost entries: seq<Container>)
      requires Holds(entries)
      modifies this`head, this`tail, this`spine, spine
      ensures Holds(entries + [c])
      ensures |spine| == |old(spine)| + 1 && spine[..|old(spine)|] == old(spine) && fresh(spine[|old(spine)|])
    {
      var element := new Element(c, tail);
      assert spine != [] ==> element.prev == spine[|spine| - 1];
      assert spine == [] ==> element.prev == null;
      if head == null {
        head := element;
      } else {
        assert tail == spine[|spine| - 1];
        tail.next := element;
      }
      tail := element;
      spine := spine + [element];
    }

    /** rep_remove: element i is unlinked, but head and tail are only reset when it was the only one. */
    method Remove(element: Element, ghost i: nat, ghost entries: seq<Container>)
      requires Holds(entries) && i < |spine| && spine[i] == element
      modifies this`head, this`tail, this`spine, spine
      ensures Linked() && spine == old(spine)[..i] + old(spine)[i + 1..]
      ensures forall k :: 0 <= k < |spine| ==> spine[k].container == (entries[..i] + entries[i + 1..])[k]
      ensures Holds(entries[..i] + entries[i + 1..]) <==> |entries| == 1 || 0 < i < |entries| - 1
    {
      var prev := element.prev;
      ghost var was, left := spine, entries[..i] + entries[i + 1..];
      assert i + 1 < |was| ==> element.next == was[i + 1];
      assert i > 0 ==> prev == was[i - 1];
      assert forall k :: 0 <= k < |was| - 1 ==> left[k] == entries[if k < i then k else k + 1];
      spine := was[..i] + was[i + 1..];
      if element.next == null && element.prev == null {
        assert |was| == 1;
        head, tail := null, null;
        return;
      }
      if element.next != null {
        assert element.next == was[i + 1];
        element.next.prev := prev;
      }
      if prev != null {
        prev.next := element.next;
      }
    }
  
    /** rep_malloc: `place` is the address of the pointer variable, `junk` what malloc leaves in the block. */
    method Malloc(place: Addr, size: nat, alloc: Allocator, junk: Bytes, ghost entries: seq<Container>)
      requires Holds(entries) && Fresh(alloc) && |junk| == size
      modifies this`head, this`tail, this`spine, this`count, this`total, this`mem, spine
      ensures mem.blocks.Keys == old(mem.blocks.Keys) + {Cell(mem, place)} && Cell(mem, place) !in old(mem.blocks)
      ensures mem == Memory(old(mem.cells)[place := Cell(mem, place)], old(mem.blocks)[Cell(mem, place) := junk])
      ensures Holds(entries + [Container(place, 0, Cell(mem, place), size)])
      ensures count == old(count) + 1 && total == old(total) + size
    {
      var block := alloc(mem.blocks.Keys);
      mem := Memory(mem.cells[place := block], mem.blocks[block := junk]);
      total, count := total + size, count + 1;
      Append(Container(place, 0, block, size), entries);
    }

    /** rep_assign_malloc_context: the variable `dest` is set to `source`, and entered as an alias of it. */
    method AssignContext(source: Addr, dest: Addr, ghost entries: seq<Container>)
      requires Holds(entries)
      modifies this`head, this`tail, this`spine, this`count, this`mem, spine
      ensures mem == Memory(old(mem.cells)[dest := Cell(old(mem), source)], old(mem.blocks))
      ensures Holds(entries + [Container(dest, source, Cell(old(mem), source), 0)])
      ensures count == old(count) + 1
    {
      count := count + 1;
      Append(Container(dest, source, Cell(mem, source), 0), entries);
      mem := mem.(cells := mem.cells[dest := Cell(mem, source)]);
    }

    /** rep_clear_discontiguous: false is the failure of a double free. */
    method ClearDiscontiguous(ghost entries: seq<Container>) returns (ok: bool)
      requires Holds(entries)
      modifies this`head, this`tail, this`spine, this`count, this`mem
      ensures ok <==> Freed(old(mem.blocks), entries, |entries|).Some?
      ensures ok ==> Holds([]) && count == 0 && spine == []
      ensures ok ==> mem == Memory(old(mem.cells), Freed(old(mem.blocks), entries, |entries|).value)
    {
      var temp := head;
      ghost var was, i, before := spine, 0, mem.blocks;
      while temp != null
        invariant 0 <= i <= |was| == |entries| && was == old(spine)
        invariant temp == if i < |was| then was[i] else null
        invariant Freed(before, entries, i) == Some(mem.blocks) && mem.cells == old(mem.cells)
        decreases |was| - i
      {
        head := temp;
        temp := temp.next;
        var ptr := head.container.block;
        if ptr != 0 {
          if ptr !in mem.blocks {
            FreeFails(before, entries, i + 1, |entries|);
            return false;
          }
          mem := mem.(blocks := mem.blocks - {ptr});
        }
        i := i + 1;
      }
      head, tail, count := null, null, 0;
      spine := [];
      ok := true;
    }
  }

  // ---------------------------------------------------------------------------------------------
  // Freeing the old registry
  // ---------------------------------------------------------------------------------------------

  /**
   * The blocks after the first k entries were freed in order; None
   * after freeing what is not allocated. NULL is skipped.
   */
  function Freed(blocks: map<Addr, Bytes>, entries: seq<Container>, k: nat): Option<map<Addr, Bytes>>
    requires k <= |entries|
  {
    if k == 0 then Some(blocks)
    else
      match Freed(blocks, entries, k - 1)
      case None => None
      case Some(b) =>
        if entries[k - 1].block == 0 then Some(b)
        else if entries[k - 1].block in b then Some(b - {entries[k - 1].block})
        else None
  }

  lemma {:induction false} FreeFails(blocks: map<Addr, Bytes>, entries: seq<Container>, i: nat, k: nat)
    requires i <= k <= |entries| && Freed(blocks, entries, i).None?
    ensures Freed(blocks, entries, k).None?
  {
    if i < k {
      FreeFails(blocks, entries, i, k - 1);
    }
  }

  ghost predicate OwnBlocks(blocks: map<Addr, Bytes>, entries: seq<Container>, k: nat)
    requires k <= |entries|
  {
    && (forall i :: 0 <= i < k && entries[i].block != 0 ==> entries[i].block in blocks)
    && (forall i, j :: 0 <= i < j < k && entries[i].block != 0 ==> entries[i].block != entries[j].block)
  }

  /** The old registry can be cleared exactly when every entry has an allocated block of its own, or none. */
  lemma {:induction false} ClearsIffOwnBlocks(blocks: map<Addr, Bytes>, entries: seq<Container>, k: nat)
    requires k <= |entries|
    ensures Freed(blocks, entries, k).Some? <==> OwnBlocks(blocks, entries, k)
    ensures Freed(blocks, entries, k).Some? ==>
              forall a :: a in Freed(blocks, entries, k).value <==>
                          a in blocks && (a == 0 || forall i :: 0 <= i < k ==> entries[i].block != a)
  {
    if k > 0 {
      ClearsIffOwnBlocks(blocks, entries, k - 1);
    }
  }

  /** An alias beside the entry it was made from cannot be cleared, unless that was NULL: both name the same block. */
  lemma AliasBlocksClearing(blocks: map<Addr, Bytes>, entries: seq<Container>, i: nat, j: nat)
    requires i < j < |entries| && entries[i].block == entries[j].block != 0
    ensures Freed(blocks, entries, |entries|).None?
  {
    ClearsIffOwnBlocks(blocks, entries, |entries|);
  }

  // ---------------------------------------------------------------------------------------------
  // The copy
  // ---------------------------------------------------------------------------------------------

  // The receiver: its memory, and the registry it builds.
  datatype Copy = Copy(mem: Memory, entries: seq<Container>)

  /** The sender can read what it broadcasts. */
  ghost predicate Sendable(s: Memory, list: seq<Container>) {
    forall i :: 0 <= i < |list| && !IsAlias(list[i]) ==>
      Cell(s, list[i].place) in s.blocks && list[i].size <= |s.blocks[Cell(s, list[i].place)]|
  }

  /**
   * One round of the loop of transfer_heap_seg at a receiver: an alias is set, an allocation is rebuilt and entered.
   */
  function Received(s: Memory, c: Container, alloc: Allocator, p: Copy): Copy
    requires !IsAlias(c) ==> Cell(s, c.place) in s.blocks && c.size <= |s.blocks[Cell(s, c.place)]|
  {
    if IsAlias(c) then p.(mem := p.mem.(cells := p.mem.cells[c.place := Cell(p.mem, c.link)]))
    else
      var block := alloc(p.mem.blocks.Keys);
      Copy(Memory(p.mem.cells[c.place := block], p.mem.blocks[block := s.blocks[Cell(s, c.place)][..c.size]]),
           p.entries + [c.(block := block)])
  }

  /** The receiver after k rounds. */
  function Replayed(s: Memory, list: seq<Container>, k: nat, alloc: Allocator, r: Memory): Copy
    requires k <= |list| && Sendable(s, list)
  {
    if k == 0 then Copy(r, []) else Received(s, list[k - 1], alloc, Replayed(s, list, k - 1, alloc, r))
  }

  /** One round of transfer_heap_seg at a receiver. */
  method ReceiveOne(receiver: Registry, c: Container, data: Bytes, alloc: Allocator, ghost s: Memory,
                    ghost list: seq<Container>, ghost k: nat, ghost r: Memory)
    requires k < |list| && Sendable(s, list) && c.place == list[k].place && c.link == list[k].link
             && c.size == list[k].size
    requires !IsAlias(c) ==> data == s.blocks[Cell(s, c.place)][..c.size]
    requires receiver.Holds(Replayed(s, list, k, alloc, r).entries)
             && receiver.mem == Replayed(s, list, k, alloc, r).mem
    modifies receiver`head, receiver`tail, receiver`spine, receiver`mem, receiver.spine
    ensures receiver.Holds(Replayed(s, list, k + 1, alloc, r).entries)
            && receiver.mem == Replayed(s, list, k + 1, alloc, r).mem
    ensures |receiver.spine| >= |old(receiver.spine)| && receiver.spine[..|old(receiver.spine)|] == old(receiver.spine)
    ensures forall i :: |old(receiver.spine)| <= i < |receiver.spine| ==> fresh(receiver.spine[i])
  {
    if c.size == 0 && c.link != 0 {
      receiver.mem := receiver.mem.(cells := receiver.mem.cells[c.place := Cell(receiver.mem, c.link)]);
      return;
    }
    var block := alloc(receiver.mem.blocks.Keys);
    receiver.mem := Memory(receiver.mem.cells[c.place := block], receiver.mem.blocks[block := data]);
    receiver.Append(c.(block := block), Replayed(s, list, k, alloc, r).entries);
  }

  /** One round at both ends: the sender reads its own entry and block, and keeps its registry. */
  method ReplayOne(sender: Registry, receiver: Registry, element: Element, alloc: Allocator,
                   ghost list: seq<Container>, ghost k: nat, ghost start: Memory)
    requires sender != receiver && sender.Holds(list) && k < |list| && sender.spine[k] == element
    requires Sendable(sender.mem, list) && forall i :: 0 <= i < |receiver.spine| ==> receiver.spine[i] !in sender.spine
    requires receiver.Holds(Replayed(sender.mem, list, k, alloc, start).entries)
    requires receiver.mem == Replayed(sender.mem, list, k, alloc, start).mem
    modifies receiver`head, receiver`tail, receiver`spine, receiver`mem, receiver.spine
    ensures sender.Holds(list)
    ensures receiver.Holds(Replayed(sender.mem, list, k + 1, alloc, start).entries)
    ensures receiver.mem == Replayed(sender.mem, list, k + 1, alloc, start).mem
    ensures |receiver.spine| >= |old(receiver.spine)| && receiver.spine[..|old(receiver.spine)|] == old(receiver.spine)
    ensures forall i :: |old(receiver.spine)| <= i < |receiver.spine| ==> fresh(receiver.spine[i])
  {
    var container := element.container;
    var data: Bytes := [];
    if !IsAlias(container) {
      data := sender.mem.blocks[Cell(sender.mem, container.place)][..container.size];
    }
    ReceiveOne(receiver, container, data, alloc, sender.mem, list, k, start);
  }

  /** The loop of transfer_heap_seg, at both ends. */
  method ReplayAll(sender: Registry, receiver: Registry, alloc: Allocator, ghost list: seq<Container>)
    requires sender != receiver && sender.Holds(list) && receiver.Holds([])
    requires sender.count == |list| && Sendable(sender.mem, list)
    modifies receiver`head, receiver`tail, receiver`spine, receiver`mem, receiver.spine
    ensures var copy := Replayed(sender.mem, list, |list|, alloc, old(receiver.mem));
            receiver.Holds(copy.entries) && receiver.mem == copy.mem
    ensures sender.Holds(list) && forall k :: 0 <= k < |receiver.spine| ==> fresh(receiver.spine[k])
  {
    ghost var start := receiver.mem;
    var temp := sender.head;
    for i := 0 to sender.count
      invariant temp == if i < |sender.spine| then sender.spine[i] else null
      invariant receiver.Holds(Replayed(sender.mem, list, i, alloc, start).entries)
      invariant receiver.mem == Replayed(sender.mem, list, i, alloc, start).mem
      invariant sender.Holds(list)
      invariant forall k :: 0 <= k < |receiver.spine| ==> fresh(receiver.spine[k])
    {
      var element := temp;
      temp := temp.next;
      ReplayOne(sender, receiver, element, alloc, list, i, start);
    }
  }

  // ---------------------------------------------------------------------------------------------
  // The copy is isomorphic
  // ---------------------------------------------------------------------------------------------

  /** The source of entry i is the container of an earlier entry j. */
  predicate SourceAt(list: seq<Container>, i: nat, j: nat)
    requires i < |list|
  {
    j < i && list[j].place == list[i].link
  }

  ghost predicate HasSource(list: seq<Container>, i: nat)
    requires i < |list|
  {
    exists j: nat :: SourceAt(list, i, j)
  }

  ghost predicate NewPlace(list: seq<Container>, k: nat)
    requires k < |list|
  {
    forall i :: 0 <= i < k ==> list[i].place != list[k].place
  }

  /** Entry k is an allocation with a block of the size entered, which no earlier allocation has. */
  ghost predicate OwnBlock(s: Memory, list: seq<Container>, k: nat)
    requires k < |list|
  {
    && Cell(s, list[k].place) in s.blocks && |s.blocks[Cell(s, list[k].place)]| == list[k].size
    && forall i :: 0 <= i < k && !IsAlias(list[i]) ==> Cell(s, list[i].place) != Cell(s, list[k].place)
  }

  /**
   * Containers are distinct variables, allocations have blocks of their own, aliases were made from earlier entries.
   */
  ghost predicate WellKept(s: Memory, list: seq<Container>) {
    && (forall k: nat {:trigger NewPlace(list, k)} :: k < |list| ==> NewPlace(list, k))
    && (forall k: nat {:trigger OwnBlock(s, list, k)} :: k < |list| && !IsAlias(list[k]) ==> OwnBlock(s, list, k))
    && (forall k: nat {:trigger HasSource(list, k)} :: k < |list| && IsAlias(list[k]) ==> HasSource(list, k))
  }

  /** Alias k still points where its source points. */
  predicate UpToDate(s: Memory, list: seq<Container>, k: nat)
    requires k < |list|
  {
    Cell(s, list[k].place) == Cell(s, list[k].link)
  }

  ghost predicate Current(s: Memory, list: seq<Container>) {
    forall k: nat {:trigger UpToDate(s, list, k)} :: k < |list| && IsAlias(list[k]) ==> UpToDate(s, list, k)
  }

  /** Two variables share a block in a exactly when they do in b. */
  predicate Alike(a: Memory, b: Memory, x: Addr, y: Addr) {
    Cell(a, x) == Cell(a, y) <==> Cell(b, x) == Cell(b, y)
  }

  ghost predicate SameSharing(a: Memory, b: Memory, list: seq<Container>, k: nat)
    requires k <= |list|
  {
    forall i, j {:trigger Alike(a, b, list[i].place, list[j].place)} :: 0 <= i < k && 0 <= j < k ==>
      Alike(a, b, list[i].place, list[j].place)
  }

  /** Each of the first k containers points to a block, with the same bytes as in b. */
  ghost predicate SameBytes(a: Memory, b: Memory, list: seq<Container>, k: nat)
    requires k <= |list|
  {
    forall i :: 0 <= i < k ==>
      && Cell(a, list[i].place) in a.blocks && Cell(b, list[i].place) in b.blocks
      && a.blocks[Cell(a, list[i].place)] == b.blocks[Cell(b, list[i].place)]
  }

  /** Through any chain of aliases there is an allocation at the end. */
  lemma {:induction false} RootOf(s: Memory, list: seq<Container>, i: nat) returns (r: nat)
    requires WellKept(s, list) && Current(s, list) && i < |list|
    ensures r <= i && !IsAlias(list[r]) && Cell(s, list[r].place) == Cell(s, list[i].place)
  {
    if IsAlias(list[i]) {
      assert HasSource(list, i) && UpToDate(s, list, i);
      var j: nat :| SourceAt(list, i, j);
      r := RootOf(s, list, j);
    } else {
      r := i;
    }
  }

  /** A new allocation shares its block with no earlier container. */
  lemma NewBlockIsUnshared(s: Memory, list: seq<Container>, i: nat, k: nat)
    requires WellKept(s, list) && Current(s, list) && i < k < |list| && !IsAlias(list[k])
    ensures Cell(s, list[i].place) != Cell(s, list[k].place)
  {
    var r := RootOf(s, list, i);
    assert OwnBlock(s, list, k);
  }

  /** The next container does not disturb the earlier ones. */
  lemma SharingSoFar(s: Memory, list: seq<Container>, k: nat, p: Memory, q: Memory)
    requires k <= |list| && SameSharing(p, s, list, k)
    requires forall i :: 0 <= i < k ==> Cell(q, list[i].place) == Cell(p, list[i].place)
    ensures SameSharing(q, s, list, k)
  {
    forall i, j | 0 <= i < k && 0 <= j < k ensures Alike(q, s, list[i].place, list[j].place) {
      assert Alike(p, s, list[i].place, list[j].place);
    }
  }

  lemma SharingWithNext(s: Memory, list: seq<Container>, k: nat, q: Memory)
    requires k < |list| && SameSharing(q, s, list, k)
    requires forall i :: 0 <= i < k ==> Alike(q, s, list[i].place, list[k].place)
    ensures SameSharing(q, s, list, k + 1)
  {
    forall i, j | 0 <= i < k + 1 && 0 <= j < k + 1 ensures Alike(q, s, list[i].place, list[j].place) {
      if i < k && j < k {
        assert Alike(q, s, list[i].place, list[j].place);
      } else if i < k {
        assert Alike(q, s, list[i].place, list[k].place);
      } else if j < k {
        assert Alike(q, s, list[j].place, list[k].place);
      }
    }
  }

  /** An alias brings the block of its source along. */
  lemma AliasJoins(s: Memory, list: seq<Container>, k: nat, alloc: Allocator, p: Copy, j: nat)
    requires k < |list| && NewPlace(list, k) && IsAlias(list[k]) && SourceAt(list, k, j)
    requires Cell(s, list[k].place) == Cell(s, list[k].link)
    requires SameBytes(p.mem, s, list, k) && SameSharing(p.mem, s, list, k)
    ensures var q := Received(s, list[k], alloc, p).mem; SameBytes(q, s, list, k + 1) && SameSharing(q, s, list, k + 1)
  {
    var q := Received(s, list[k], alloc, p).mem;
    forall i | 0 <= i < k ensures Cell(q, list[i].place) == Cell(p.mem, list[i].place) {
      OtherCells(s, list[k], alloc, p, list[i].place);
    }
    SharingSoFar(s, list, k, p.mem, q);
    forall i | 0 <= i < k ensures Alike(q, s, list[i].place, list[k].place) {
      assert Alike(p.mem, s, list[i].place, list[j].place);
    }
    SharingWithNext(s, list, k, q);
  }

  /** An allocation gets a block that no container had before. */
  lemma AllocationIsNew(s: Memory, list: seq<Container>, k: nat, alloc: Allocator, p: Copy)
    requires Fresh(alloc) && k < |list| && NewPlace(list, k) && !IsAlias(list[k])
    requires Cell(s, list[k].place) in s.blocks && |s.blocks[Cell(s, list[k].place)]| == list[k].size
    requires forall i :: 0 <= i < k ==> Cell(s, list[i].place) != Cell(s, list[k].place)
    requires SameBytes(p.mem, s, list, k) && SameSharing(p.mem, s, list, k)
    ensures var q := Received(s, list[k], alloc, p).mem; SameBytes(q, s, list, k + 1) && SameSharing(q, s, list, k + 1)
  {
    var q, block := Received(s, list[k], alloc, p).mem, alloc(p.mem.blocks.Keys);
    assert Cell(q, list[k].place) == block && block !in p.mem.blocks;
    forall i | 0 <= i < k
      ensures Cell(q, list[i].place) == Cell(p.mem, list[i].place) && Cell(q, list[i].place) != block
    {
      OtherCells(s, list[k], alloc, p, list[i].place);
    }
    SharingSoFar(s, list, k, p.mem, q);
    SharingWithNext(s, list, k, q);
  }

  /** Setting a container leaves all other variables alone. */
  lemma OtherCells(s: Memory, c: Container, alloc: Allocator, p: Copy, a: Addr)
    requires !IsAlias(c) ==> Cell(s, c.place) in s.blocks && c.size <= |s.blocks[Cell(s, c.place)]|
    requires a != c.place
    ensures Cell(Received(s, c, alloc, p).mem, a) == Cell(p.mem, a)
  {
  }

  lemma WellKeptIsSendable(s: Memory, list: seq<Container>)
    requires WellKept(s, list)
    ensures Sendable(s, list)
  {
    forall i: nat | i < |list| && !IsAlias(list[i])
      ensures Cell(s, list[i].place) in s.blocks && list[i].size <= |s.blocks[Cell(s, list[i].place)]|
    {
      assert OwnBlock(s, list, i);
    }
  }

  /** Each of the first k containers is rebuilt. */
  ghost predicate Isomorphic(m: Memory, s: Memory, list: seq<Container>, k: nat)
    requires k <= |list|
  {
    SameBytes(m, s, list, k) && SameSharing(m, s, list, k)
  }

  lemma OneMoreContainer(s: Memory, list: seq<Container>, k: nat, alloc: Allocator, p: Copy)
    requires WellKept(s, list) && Current(s, list) && Fresh(alloc) && k < |list|
    requires Isomorphic(p.mem, s, list, k)
    ensures !IsAlias(list[k]) ==>
      Cell(s, list[k].place) in s.blocks && list[k].size <= |s.blocks[Cell(s, list[k].place)]|
    ensures Isomorphic(Received(s, list[k], alloc, p).mem, s, list, k + 1)
  {
    assert NewPlace(list, k);
    if IsAlias(list[k]) {
      assert HasSource(list, k) && UpToDate(s, list, k);
      var j: nat :| SourceAt(list, k, j);
      AliasJoins(s, list, k, alloc, p, j);
    } else {
      assert OwnBlock(s, list, k);
      forall i | 0 <= i < k ensures Cell(s, list[i].place) != Cell(s, list[k].place) {
        NewBlockIsUnshared(s, list, i, k);
      }
      AllocationIsNew(s, list, k, alloc, p);
    }
  }

  lemma {:induction false} CopyIsIsomorphic(s: Memory, list: seq<Container>, k: nat, alloc: Allocator, r: Memory)
    requires WellKept(s, list) && Current(s, list) && Fresh(alloc) && Sendable(s, list) && k <= |list|
    ensures Isomorphic(Replayed(s, list, k, alloc, r).mem, s, list, k)
  {
    if k > 0 {
      CopyIsIsomorphic(s, list, k - 1, alloc, r);
      OneMoreContainer(s, list, k - 1, alloc, Replayed(s, list, k - 1, alloc, r));
    }
  }

  /** On the receiver an alias always shares the block of its source, whether or not it still does on the sender. */
  lemma {:induction false} AliasFollowsSource(s: Memory, list: seq<Container>, k: nat, alloc: Allocator, r: Memory,
                                              i: nat, j: nat)
    requires Sendable(s, list) && i < k <= |list| && IsAlias(list[i]) && SourceAt(list, i, j)
    requires forall n: nat {:trigger NewPlace(list, n)} :: n < |list| ==> NewPlace(list, n)
    ensures var m := Replayed(s, list, k, alloc, r).mem; Cell(m, list[i].place) == Cell(m, list[i].link)
  {
    var p := Replayed(s, list, k - 1, alloc, r);
    assert NewPlace(list, k - 1);
    OtherCells(s, list[k - 1], alloc, p, list[j].place);
    if i < k - 1 {
      AliasFollowsSource(s, list, k - 1, alloc, r, i, j);
      OtherCells(s, list[k - 1], alloc, p, list[i].place);
    }
  }

  /** transfer_heap_seg rebuilds the heap of the sender exactly when no alias was reassigned since it was registered. */
  lemma IsomorphicIffCurrent(s: Memory, list: seq<Container>, alloc: Allocator, r: Memory)
    requires WellKept(s, list) && Fresh(alloc)
    ensures Sendable(s, list)
    ensures var m := Replayed(s, list, |list|, alloc, r).mem;
            Isomorphic(m, s, list, |list|) <==> Current(s, list)
  {
    WellKeptIsSendable(s, list);
    if Current(s, list) {
      CopyIsIsomorphic(s, list, |list|, alloc, r);
    }
    var m := Replayed(s, list, |list|, alloc, r).mem;
    if SameSharing(m, s, list, |list|) {
      forall i: nat | i < |list| && IsAlias(list[i]) ensures UpToDate(s, list, i) {
        assert HasSource(list, i);
        var j: nat :| SourceAt(list, i, j);
        AliasFollowsSource(s, list, |list|, alloc, r, i, j);
        assert Alike(m, s, list[i].place, list[j].place);
      }
    }
  }

  /** The receiver keeps what it had: blocks that were not freed, and variables that are no containers. */
  lemma {:induction false} RestIsUntouched(s: Memory, list: seq<Container>, k: nat, alloc: Allocator, r: Memory)
    requires Sendable(s, list) && Fresh(alloc) && k <= |list|
    ensures var m := Replayed(s, list, k, alloc, r).mem;
            && (forall a :: a in r.blocks ==> a in m.blocks && m.blocks[a] == r.blocks[a])
            && (forall a :: (forall i :: 0 <= i < k ==> list[i].place != a) ==> Cell(m, a) == Cell(r, a))
  {
    if k > 0 {
      RestIsUntouched(s, list, k - 1, alloc, r);
    }
  }

  function Aliases(list: seq<Container>): nat {
    if list == [] then 0 else Aliases(list[..|list| - 1]) + if IsAlias(list[|list| - 1]) then 1 else 0
  }

  /** Aliases are not entered again: only without them does the receiver's count equal the length of its own list. */
  lemma {:induction false} AliasesAreNotReentered(s: Memory, list: seq<Container>, k: nat, alloc: Allocator, r: Memory)
    requires Sendable(s, list) && k <= |list|
    ensures |Replayed(s, list, k, alloc, r).entries| + Aliases(list[..k]) == k
    ensures forall i :: 0 <= i < |Replayed(s, list, k, alloc, r).entries| ==>
      !IsAlias(Replayed(s, list, k, alloc, r).entries[i])
  {
    if k > 0 {
      AliasesAreNotReentered(s, list, k - 1, alloc, r);
      assert list[..k][..k - 1] == list[..k - 1];
    }
  }

  // ---------------------------------------------------------------------------------------------
  // The registry of the receiver
  // ---------------------------------------------------------------------------------------------

  /** The entries that are no aliases, in order. */
  function Allocations(list: seq<Container>): (a: seq<Container>)
    ensures |a| + Aliases(list) == |list|
  {
    if list == [] then []
    else Allocations(list[..|list| - 1]) + if IsAlias(list[|list| - 1]) then [] else [list[|list| - 1]]
  }

  lemma {:induction false} AllocationsAreListed(list: seq<Container>, i: nat) returns (k: nat)
    requires i < |Allocations(list)|
    ensures k < |list| && Allocations(list)[i] == list[k] && !IsAlias(list[k])
  {
    var n := |list| - 1;
    if i < |Allocations(list[..n])| {
      k := AllocationsAreListed(list[..n], i);
    } else {
      k := n;
    }
  }

  /** What the receiver enters for an allocation: the sender's entry, with the address where the block is now. */
  predicate Mirrors(m: Memory, e: Container, c: Container) {
    e.place == c.place && e.link == c.link && e.size == c.size && e.block == Cell(m, c.place)
  }

  ghost predicate Mirrored(m: Memory, entries: seq<Container>, allocations: seq<Container>) {
    |entries| == |allocations| && forall i :: 0 <= i < |entries| ==> Mirrors(m, entries[i], allocations[i])
  }

  /** Entry by entry, the receiver has the allocations of the sender with the addresses of its own blocks. */
  lemma {:induction false} RegistryIsMirrored(s: Memory, list: seq<Container>, k: nat, alloc: Allocator, r: Memory)
    requires Sendable(s, list) && k <= |list|
    requires forall n: nat {:trigger NewPlace(list, n)} :: n < |list| ==> NewPlace(list, n)
    ensures var copy := Replayed(s, list, k, alloc, r); Mirrored(copy.mem, copy.entries, Allocations(list[..k]))
  {
    if k > 0 {
      var p, q, c := Replayed(s, list, k - 1, alloc, r), Replayed(s, list, k, alloc, r), list[k - 1];
      RegistryIsMirrored(s, list, k - 1, alloc, r);
      assert list[..k][..k - 1] == list[..k - 1];
      assert NewPlace(list, k - 1);
      var before := Allocations(list[..k - 1]);
      forall i | 0 <= i < |before| ensures Mirrors(q.mem, p.entries[i], before[i]) {
        assert Mirrors(p.mem, p.entries[i], before[i]);
        var n := AllocationsAreListed(list[..k - 1], i);
        OtherCells(s, c, alloc, p, list[n].place);
      }
    }
  }

  /** The blocks of the receiver are the old ones and those it has entered, each once. */
  lemma {:induction false} NewBlocksAreEntered(s: Memory, list: seq<Container>, k: nat, alloc: Allocator, r: Memory)
    requires Sendable(s, list) && Fresh(alloc) && k <= |list|
    ensures var copy := Replayed(s, list, k, alloc, r);
            && OwnBlocks(copy.mem.blocks, copy.entries, |copy.entries|)
            && (forall i :: 0 <= i < |copy.entries| ==>
              copy.entries[i].block != 0 && copy.entries[i].block !in r.blocks)
            && (forall a :: a in copy.mem.blocks ==>
              a in r.blocks || exists i :: 0 <= i < |copy.entries| && copy.entries[i].block == a)
            && (forall a :: a in r.blocks ==> a in copy.mem.blocks && copy.mem.blocks[a] == r.blocks[a])
  {
    if k > 0 {
      NewBlocksAreEntered(s, list, k - 1, alloc, r);
      var p, q, c := Replayed(s, list, k - 1, alloc, r), Replayed(s, list, k, alloc, r), list[k - 1];
      if !IsAlias(c) {
        OneMoreBlock(p, q, c.(block := alloc(p.mem.blocks.Keys)), r);
      }
    }
  }

  lemma OneMoreBlock(p: Copy, q: Copy, e: Container, r: Memory)
    requires OwnBlocks(p.mem.blocks, p.entries, |p.entries|)
    requires forall i :: 0 <= i < |p.entries| ==> p.entries[i].block != 0 && p.entries[i].block !in r.blocks
    requires forall a :: a in p.mem.blocks ==>
               a in r.blocks || exists i :: 0 <= i < |p.entries| && p.entries[i].block == a
    requires forall a :: a in r.blocks ==> a in p.mem.blocks
    requires q.entries == p.entries + [e] && e.block != 0 && e.block !in p.mem.blocks
    requires forall a :: a in q.mem.blocks <==> a in p.mem.blocks || a == e.block
    ensures OwnBlocks(q.mem.blocks, q.entries, |q.entries|)
    ensures forall i :: 0 <= i < |q.entries| ==> q.entries[i].block != 0 && q.entries[i].block !in r.blocks
    ensures forall a :: a in q.mem.blocks ==>
              a in r.blocks || exists i :: 0 <= i < |q.entries| && q.entries[i].block == a
  {
    forall a | a in q.mem.blocks && a !in r.blocks
      ensures exists i :: 0 <= i < |q.entries| && q.entries[i].block == a
    {
      if a == e.block {
        assert q.entries[|p.entries|].block == a;
      } else {
        var i :| 0 <= i < |p.entries| && p.entries[i].block == a;
        assert q.entries[i].block == a;
      }
    }
  }

  lemma {:induction false} FreedKeeps(blocks: map<Addr, Bytes>, entries: seq<Container>, k: nat)
    requires k <= |entries| && Freed(blocks, entries, k).Some?
    ensures forall a :: a in Freed(blocks, entries, k).value ==>
      a in blocks && Freed(blocks, entries, k).value[a] == blocks[a]
  {
    if k > 0 {
      FreedKeeps(blocks, entries, k - 1);
    }
  }

  /** Clearing the registry that a transfer has built frees what the transfer has allocated, and nothing else. */
  lemma ClearingUndoesTransfer(s: Memory, list: seq<Container>, alloc: Allocator, r: Memory)
    requires Sendable(s, list) && Fresh(alloc) && 0 !in r.blocks
    ensures var copy := Replayed(s, list, |list|, alloc, r);
            Freed(copy.mem.blocks, copy.entries, |copy.entries|) == Some(r.blocks)
  {
    var copy := Replayed(s, list, |list|, alloc, r);
    NewBlocksAreEntered(s, list, |list|, alloc, r);
    ClearsIffOwnBlocks(copy.mem.blocks, copy.entries, |copy.entries|);
    FreedKeeps(copy.mem.blocks, copy.entries, |copy.entries|);
    var left := Freed(copy.mem.blocks, copy.entries, |copy.entries|).value;
    forall a ensures a in left <==> a in r.blocks {
    }
    assert left == r.blocks;
  }

  // ---------------------------------------------------------------------------------------------
  // The transfer
  // ---------------------------------------------------------------------------------------------

  const WORD: nat := 0x1_0000_0000

  /** A size_t after the broadcast of one int from another one: only the low word arrives. */
  function LowWordFrom(was: nat, sent: nat): (r: nat)
    ensures r % WORD == sent % WORD && r / WORD == was / WORD
    ensures r == sent <==> was / WORD == sent / WORD
  {
    was / WORD * WORD + sent % WORD
  }

  lemma WhenWellKept(s: Memory, list: seq<Container>, alloc: Allocator, r: Memory, copy: Copy)
    requires Sendable(s, list) && copy == Replayed(s, list, |list|, alloc, r)
    ensures WellKept(s, list) && Fresh(alloc) ==> (Isomorphic(copy.mem, s, list, |list|) <==> Current(s, list))
    ensures WellKept(s, list) ==> Mirrored(copy.mem, copy.entries, Allocations(list))
    ensures Fresh(alloc) ==> OwnBlocks(copy.mem.blocks, copy.entries, |copy.entries|)
  {
    if WellKept(s, list) {
      RegistryIsMirrored(s, list, |list|, alloc, r);
      assert list[..|list|] == list;
    }
    if Fresh(alloc) {
      NewBlocksAreEntered(s, list, |list|, alloc, r);
    }
    if WellKept(s, list) && Fresh(alloc) {
      IsomorphicIffCurrent(s, list, alloc, r);
    }
  }

  /** No element is in both lists. */
  ghost predicate Disjoint(a: Registry, b: Registry)
    reads a, b
  {
    forall i :: 0 <= i < |b.spine| ==> b.spine[i] !in a.spine
  }

  /** The loop of transfer_heap_seg, and what it leaves at the receiver. */
  method Rebuild(sender: Registry, receiver: Registry, alloc: Allocator, ghost list: seq<Container>)
    returns (ghost entries: seq<Container>)
    requires sender != receiver && sender.Holds(list) && receiver.Holds([])
    requires sender.count == |list| && Sendable(sender.mem, list)
    modifies receiver`head, receiver`tail, receiver`spine, receiver`mem, receiver.spine
    ensures Copy(receiver.mem, entries) == Replayed(sender.mem, list, |list|, alloc, old(receiver.mem))
    ensures receiver.Holds(entries) && sender.Holds(list)
    ensures forall k :: 0 <= k < |receiver.spine| ==> fresh(receiver.spine[k])
    ensures WellKept(sender.mem, list) && Fresh(alloc) ==>
              (Isomorphic(receiver.mem, sender.mem, list, |list|) <==> Current(sender.mem, list))
    ensures WellKept(sender.mem, list) ==> Mirrored(receiver.mem, entries, Allocations(list))
    ensures Fresh(alloc) ==> OwnBlocks(receiver.mem.blocks, entries, |entries|)
  {
    ghost var cleared := receiver.mem;
    ReplayAll(sender, receiver, alloc, list);
    entries := Replayed(sender.mem, list, |list|, alloc, cleared).entries;
    WhenWellKept(sender.mem, list, alloc, cleared, Copy(receiver.mem, entries));
  }

  /** transfer_heap_seg between rank 0 and one other member of the migration communicator. */
  method TransferHeapSeg(sender: Registry, receiver: Registry, alloc: Allocator,
                         ghost list: seq<Container>, ghost previous: seq<Container>)
    returns (ok: bool, ghost entries: seq<Container>)
    requires sender != receiver && sender.Holds(list) && receiver.Holds(previous) && Disjoint(sender, receiver)
    requires sender.count == |list| && Sendable(sender.mem, list)
    modifies receiver, receiver.spine
    ensures ok <==> OwnBlocks(old(receiver.mem.blocks), previous, |previous|)
    ensures receiver.total == LowWordFrom(old(receiver.total), sender.total)
    ensures ok ==>
      && Freed(old(receiver.mem.blocks), previous, |previous|).Some?
      && var cleared := Memory(old(receiver.mem.cells), Freed(old(receiver.mem.blocks), previous, |previous|).value);
         Copy(receiver.mem, entries) == Replayed(sender.mem, list, |list|, alloc, cleared)
    ensures ok ==> receiver.Holds(entries) && receiver.count == sender.count && sender.Holds(list)
    ensures ok ==> forall k :: 0 <= k < |receiver.spine| ==> fresh(receiver.spine[k])
    ensures ok && WellKept(sender.mem, list) && Fresh(alloc) ==>
              (Isomorphic(receiver.mem, sender.mem, list, |list|) <==> Current(sender.mem, list))
    ensures ok && WellKept(sender.mem, list) ==> Mirrored(receiver.mem, entries, Allocations(list))
    ensures ok && Fresh(alloc) ==> OwnBlocks(receiver.mem.blocks, entries, |entries|)
  {
    receiver.total := LowWordFrom(receiver.total, sender.total);
    entries := previous;
    ghost var blocks := receiver.mem.blocks;
    ClearsIffOwnBlocks(blocks, previous, |previous|);
    ok := receiver.ClearDiscontiguous(previous);
    if !ok {
      return;
    }
    receiver.count := sender.count;
    entries := Rebuild(sender, receiver, alloc, list);
  }

  /** A transfer that went well can be repeated: the registry it built can be cleared. */
  method TransferTwice(sender: Registry, receiver: Registry, alloc: Allocator,
                       ghost list: seq<Container>, ghost previous: seq<Container>)
    returns (ok: bool, again: bool)
    requires sender != receiver && sender.Holds(list) && receiver.Holds(previous) && Disjoint(sender, receiver)
    requires sender.count == |list| && Sendable(sender.mem, list) && Fresh(alloc)
    modifies receiver, receiver.spine
    ensures ok <==> OwnBlocks(old(receiver.mem.blocks), previous, |previous|)
    ensures again == ok
  {
    ghost var entries, more;
    ok, entries := TransferHeapSeg(sender, receiver, alloc, list, previous);
    again := false;
    if ok {
      again, more := TransferHeapSeg(sender, receiver, alloc, list, entries);
    }
  }
}
