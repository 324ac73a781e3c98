/** The reads and writes of src/checkpoint/full_context.c, one after the other, on a file. */
module CheckpointFile {
  import opened NodeState
  import opened Checkpoint
  import H = HeapSeg

  class Stream {
    var data: File
    var pos: nat

    ghost predicate Valid()
      reads this
    {
      pos <= |data|
    }

    /** What was not read yet. */
    ghost function Ahead(): File
      requires Valid()
      reads this
    {
      data[pos..]
    }

    constructor (data: File)
      ensures Valid() && this.data == data && Ahead() == data
    {
      this.data, pos := data, 0;
    }

    /** fwrite */
    method Write(s: seq<Byte>)
      modifies this`data
      ensures data == old(data) + s
    {
      data := data + s;
    }

    /** fread; None when the file is too short. */
    method Read(n: nat) returns (r: Option<seq<Byte>>)
      requires Valid()
      modifies this`pos
      ensures Valid()
      ensures match Take(old(Ahead()), n)
              case None => r.None?
              case Some(g) => r == Some(g.value) && Ahead() == g.rest
    {
      if pos + n > |data| {
        return None;
      }
      r := Some(data[pos..pos + n]);
      assert data[pos..][..n] == data[pos..pos + n] && data[pos..][n..] == data[pos + n..];
      pos := pos + n;
    }

    /** A size and as many bytes. */
    method ReadBlob() returns (r: Option<seq<Byte>>)
      requires Valid()
      modifies this`pos
      ensures Valid()
      ensures match TakeBlob(old(Ahead()))
              case None => r.None?
              case Some(g) => r == Some(g.value) && Ahead() == g.rest
    {
      var n := Read(8);
      if n.None? {
        return None;
      }
      r := Read(Dec(n.value));
    }
  }

  // ---------------------------------------------------------------------------------------------
  // Saving
  // ---------------------------------------------------------------------------------------------

  method SaveDataSeg(file: Stream, p: Process, l: Layout)
    requires l.dataStart <= l.edata && l.bssStart <= l.end
    modifies file`data
    ensures file.data == old(file.data) + DataBytes(p, l)
  {
    var countUninit, countInit := l.edata - l.dataStart, l.end - l.bssStart;
    file.Write(Enc(countUninit, 8));
    file.Write(Slice(p.mem, l.dataStart, countUninit));
    file.Write(Enc(countInit, 8));
    file.Write(Slice(p.mem, l.bssStart, countInit));
  }

  method SaveStackSeg(file: Stream, p: Process)
    requires p.context.rsp <= p.stackHigher
    modifies file`data
    ensures file.data == old(file.data) + StackBytes(p)
  {
    var stackLower := p.context.rsp;
    var stackSize := StackSize(p.stackHigher, stackLower);
    file.Write(ContextBytes(p.context));
    file.Write(Enc(stackSize, 8));
    file.Write(Slice(p.mem, stackLower, stackSize));
  }

  method SaveHeapSeg(file: Stream, p: Process)
    requires Writable(p)
    modifies file`data
    ensures file.data == old(file.data) + HeapBytes(p)
  {
    file.Write(Enc(p.count, 4));
    ghost var head := file.data;
    for i := 0 to |p.entries|
      invariant file.data + EntriesBytes(p, i) == head + EntriesBytes(p, 0)
    {
      ghost var before := file.data;
      var c := p.entries[i];
      file.Write(EntryBytes(c));
      file.Write(Content(p, i));
      WriteStep(before, EntryBytes(c), Content(p, i), EntriesBytes(p, i + 1));
    }
    assert file.data == head + EntriesBytes(p, 0);
  }

  lemma WriteStep(a: File, b: File, c: File, d: File)
    ensures a + b + c + d == a + (b + c + d)
  {
  }

  method SaveFrameworkData(file: Stream, p: Process)
    modifies file`data
    ensures file.data == old(file.data) + FrameworkBytes(p)
  {
    file.Write(Enc(p.passSender, 4));
    file.Write(Enc(p.passReceiver, 4));
  }

  /** init_ckpt */
  method InitCkpt(p: Process, l: Layout) returns (file: Stream)
    requires l.dataStart <= l.edata && l.bssStart <= l.end && p.context.rsp <= p.stackHigher && Writable(p)
    ensures fresh(file) && file.Valid() && file.Ahead() == Saved(p, l)
  {
    file := new Stream([]);
    SaveDataSeg(file, p, l);
    SaveStackSeg(file, p);
    SaveHeapSeg(file, p);
    SaveFrameworkData(file, p);
    InOrder(DataBytes(p, l), StackBytes(p), HeapBytes(p), FrameworkBytes(p));
  }

  lemma InOrder(a: File, b: File, c: File, d: File)
    ensures [] + a + b + c + d == a + (b + (c + d))
  {
  }

  // ---------------------------------------------------------------------------------------------
  // Restoring
  // ---------------------------------------------------------------------------------------------

  method RestoreDataSeg(file: Stream, mem: Mem, l: Layout) returns (r: Option<Mem>)
    requires file.Valid()
    modifies file`pos
    ensures file.Valid()
    ensures match DataRestored(old(file.Ahead()), mem, l)
            case None => r.None?
            case Some(g) => r == Some(g.value) && file.Ahead() == g.rest
  {
    var a := file.ReadBlob();
    if a.None? {
      return None;
    }
    var b := file.ReadBlob();
    if b.None? {
      return None;
    }
    r := Some(Store(Store(mem, l.dataStart, a.value), l.bssStart, b.value));
  }

  method RestoreStackSeg(file: Stream, mem: Mem, stackHigher: Addr) returns (r: Option<Stack>)
    requires file.Valid()
    modifies file`pos
    ensures file.Valid()
    ensures match StackRestored(old(file.Ahead()), mem, stackHigher)
            case None => r.None?
            case Some(g) => r == Some(g.value) && file.Ahead() == g.rest
  {
    var c := file.Read(24);
    if c.None? {
      return None;
    }
    var b := file.ReadBlob();
    if b.None? {
      return None;
    }
    var context := ContextOf(c.value);
    var stackLower := stackHigher - (|b.value| - 4);
    var rbp := context.rbp + (stackLower - context.rsp);
    if stackLower < 0 || rbp < 0 {
      return None;
    }
    r := Some(Stack(Store(mem, stackLower, b.value), stackLower, Context(context.rip, stackLower, rbp)));
  }

  /** One round of the loop of restore_heap_seg. */
  method RestoreEntry(file: Stream, h: Heap, alloc: H.Allocator) returns (r: Option<Heap>)
    requires file.Valid()
    modifies file`pos
    ensures file.Valid()
    ensures match EntryRestored(old(file.Ahead()), h, alloc)
            case None => r.None?
            case Some(g) => r == Some(g.value) && file.Ahead() == g.rest
  {
    var e := file.Read(32);
    if e.None? {
      return None;
    }
    var c := EntryOf(e.value);
    var b := file.Read(c.size);
    if b.None? {
      return None;
    }
    var block := alloc(h.blocks.Keys);
    r := Some(Heap(Store(h.mem, c.place, Enc(block, 8)), h.blocks[block := b.value], h.entries + [c.(block := block)]));
  }

  /** The loop of restore_heap_seg. */
  method RestoreEntries(file: Stream, count: nat, h0: Heap, alloc: H.Allocator, ghost round: Round)
    returns (r: Option<Heap>)
    requires file.Valid() && round == RestoreRound(alloc)
    modifies file`pos
    ensures file.Valid()
    ensures match Repeated(round, old(file.Ahead()), count, h0)
            case None => r.None?
            case Some(g) => r == Some(g.value) && file.Ahead() == g.rest
  {
    var h := h0;
    ghost var start := file.Ahead();
    for i := 0 to count
      invariant file.Valid()
      invariant Repeated(round, start, count, h0) == Repeated(round, file.Ahead(), count - i, h)
    {
      ghost var f, was := file.Ahead(), h;
      var next := RestoreEntry(file, h, alloc);
      assert round(f, was) == EntryRestored(f, was, alloc);
      if next.None? {
        return None;
      }
      h := next.value;
    }
    r := Some(h);
  }

  method RestoreHeapSeg(file: Stream, h0: Heap, alloc: H.Allocator) returns (r: Option<(nat, Heap)>)
    requires file.Valid()
    modifies file`pos
    ensures file.Valid()
    ensures match Take(old(file.Ahead()), 4)
            case None => r.None?
            case Some(n) =>
              match EntriesRestored(n.rest, Dec(n.value), h0, alloc)
              case None => r.None?
              case Some(g) => r == Some((Dec(n.value), g.value)) && file.Ahead() == g.rest
  {
    var n := file.Read(4);
    if n.None? {
      return None;
    }
    var h := RestoreEntries(file, Dec(n.value), h0, alloc, RestoreRound(alloc));
    r := if h.None? then None else Some((Dec(n.value), h.value));
  }

  /** init_ckpt_restore */
  method InitCkptRestore(file: Stream, q: Process, l: Layout, alloc: H.Allocator) returns (r: Option<Process>)
    requires file.Valid()
    modifies file`pos
    ensures file.Valid()
    ensures match Restored(old(file.Ahead()), q, l, alloc)
            case None => r.None?
            case Some(g) => r == Some(g.value) && file.Ahead() == g.rest
  {
    var mem := RestoreDataSeg(file, q.mem, l);
    if mem.None? {
      return None;
    }
    var s := RestoreStackSeg(file, mem.value, q.stackHigher);
    if s.None? {
      return None;
    }
    var h := RestoreHeapSeg(file, Heap(s.value.mem, q.blocks, q.entries), alloc);
    if h.None? {
      return None;
    }
    var w := file.Read(8);
    if w.None? {
      return None;
    }
    var heap := h.value.1;
    r := Some(Process(heap.mem, heap.blocks, heap.entries, h.value.0, q.stackHigher, s.value.lower, s.value.context,
                      Dec(w.value[..4]), Dec(w.value[4..])));
  }
}
