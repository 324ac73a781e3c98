/**
 * src/checkpoint/full_context.c: saving a process to a file, and restoring it in another process of the same program.
 */
module Checkpoint {
  import opened NodeState
  import H = HeapSeg

  type Addr = H.Addr
  type Byte = b: nat | b < 256
  type File = seq<Byte>

  // the data segments and the stack
  type Mem = Addr -> Byte

  // ---------------------------------------------------------------------------------------------
  // Bytes
  // ---------------------------------------------------------------------------------------------

  /** The values that fit in k bytes. */
  function Range(k: nat): (r: nat)
    ensures r >= 1
  {
    if k == 0 then 1 else 256 * Range(k - 1)
  }

  lemma RangeOfWords()
    ensures Range(4) == 0x1_0000_0000 && Range(8) == 0x1_0000_0000_0000_0000
  {
    assert Range(2) == 0x1_0000 && Range(3) == 0x100_0000 && Range(4) == 0x1_0000_0000;
    assert Range(5) == 0x100_0000_0000 && Range(6) == 0x1_0000_0000_0000;
  }

  /** n in k bytes, the lowest first. */
  function Enc(n: nat, k: nat): (s: seq<Byte>)
    ensures |s| == k
  {
    if k == 0 then [] else [n % 256] + Enc(n / 256, k - 1)
  }

  function Dec(s: seq<Byte>): nat {
    if s == [] then 0 else s[0] + 256 * Dec(s[1..])
  }

  /** The lowest byte comes first, and what does not fit is lost. */
  lemma LowestFirst(b: Byte, n: nat, k: nat)
    ensures Enc(b + 256 * n, k + 1) == [b] + Enc(n, k)
  {
    assert (b + 256 * n) % 256 == b && (b + 256 * n) / 256 == n;
  }

  lemma {:induction false} DecOfEnc(n: nat, k: nat)
    requires n < Range(k)
    ensures Dec(Enc(n, k)) == n
  {
    if k > 0 {
      DecOfEnc(n / 256, k - 1);
      assert Enc(n, k)[1..] == Enc(n / 256, k - 1);
    }
  }

  function Slice(m: Mem, a: Addr, n: nat): (s: seq<Byte>)
    ensures |s| == n && forall i :: 0 <= i < n ==> s[i] == m(a + i)
  {
    seq(n, (i: nat) => m(a + i))
  }

  function Store(m: Mem, a: Addr, s: seq<Byte>): Mem {
    (x: Addr) => if a <= x < a + |s| then s[x - a] else m(x)
  }

  /** A pointer variable at a. */
  function Word(m: Mem, a: Addr): Addr {
    Dec(Slice(m, a, 8))
  }

  lemma SliceOfStore(m: Mem, a: Addr, s: seq<Byte>)
    ensures Slice(Store(m, a, s), a, |s|) == s
  {
  }

  /** Storing a pointer changes that pointer and nothing else. */
  lemma WordOfStore(m: Mem, a: Addr, v: Addr, b: Addr)
    requires v < Range(8)
    ensures Word(Store(m, a, Enc(v, 8)), a) == v
    ensures b + 8 <= a || a + 8 <= b ==> Word(Store(m, a, Enc(v, 8)), b) == Word(m, b)
  {
    SliceOfStore(m, a, Enc(v, 8));
    DecOfEnc(v, 8);
    if b + 8 <= a || a + 8 <= b {
      assert Slice(Store(m, a, Enc(v, 8)), b, 8) == Slice(m, b, 8);
    }
  }

  // ---------------------------------------------------------------------------------------------
  // The process, and what is written
  // ---------------------------------------------------------------------------------------------

  // __data_start, _edata, __bss_start, _end
  datatype Layout = Layout(dataStart: Addr, edata: Addr, bssStart: Addr, end: Addr)

  datatype Context = Context(rip: Addr, rsp: Addr, rbp: Addr)

  // `entries` is the registry from head to tail, `count` is malloc_number_of_allocations
  datatype Process = Process(
    mem: Mem,
    blocks: map<Addr, seq<Byte>>,
    entries: seq<H.Container>,
    count: nat,
    stackHigher: Addr,
    stackLower: Addr,
    context: Context,
    passSender: nat,
    passReceiver: nat)

  function StackSize(higher: Addr, lower: Addr): int {
    higher - lower + 4
  }

  /** A counted run of bytes. */
  function Blob(s: seq<Byte>): File {
    Enc(|s|, 8) + s
  }

  function DataBytes(p: Process, l: Layout): File
    requires l.dataStart <= l.edata && l.bssStart <= l.end
  {
    Blob(Slice(p.mem, l.dataStart, l.edata - l.dataStart)) + Blob(Slice(p.mem, l.bssStart, l.end - l.bssStart))
  }

  function ContextBytes(c: Context): (s: File)
    ensures |s| == 24
  {
    Enc(c.rip, 8) + Enc(c.rsp, 8) + Enc(c.rbp, 8)
  }

  function StackBytes(p: Process): File
    requires p.context.rsp <= p.stackHigher
  {
    ContextBytes(p.context) + Blob(Slice(p.mem, p.context.rsp, StackSize(p.stackHigher, p.context.rsp)))
  }

  function EntryBytes(c: H.Container): (s: File)
    ensures |s| == 32
  {
    Enc(c.place, 8) + Enc(c.link, 8) + Enc(c.block, 8) + Enc(c.size, 8)
  }

  /** Entry i can be written: its variable points to a block of at least the size entered. */
  ghost predicate EntryWritable(p: Process, i: nat)
    requires i < |p.entries|
  {
    Word(p.mem, p.entries[i].place) in p.blocks && p.entries[i].size <= |p.blocks[Word(p.mem, p.entries[i].place)]|
  }

  ghost predicate Writable(p: Process) {
    forall i: nat {:trigger EntryWritable(p, i)} :: i < |p.entries| ==> EntryWritable(p, i)
  }

  /** What the pointer variable of entry i points to, as far as it is saved. */
  function Content(p: Process, i: nat): (s: seq<Byte>)
    requires Writable(p) && i < |p.entries|
    ensures |s| == p.entries[i].size
  {
    assert EntryWritable(p, i);
    p.blocks[Word(p.mem, p.entries[i].place)][..p.entries[i].size]
  }

  /** The entries from number i on, each followed by its content. */
  function EntriesBytes(p: Process, i: nat): File
    requires Writable(p) && i <= |p.entries|
    decreases |p.entries| - i
  {
    if i == |p.entries| then []
    else EntryBytes(p.entries[i]) + Content(p, i) + EntriesBytes(p, i + 1)
  }

  function HeapBytes(p: Process): File
    requires Writable(p)
  {
    Enc(p.count, 4) + EntriesBytes(p, 0)
  }

  function FrameworkBytes(p: Process): (s: File)
    ensures |s| == 8
  {
    Enc(p.passSender, 4) + Enc(p.passReceiver, 4)
  }

  /** init_ckpt */
  function Saved(p: Process, l: Layout): File
    requires l.dataStart <= l.edata && l.bssStart <= l.end && p.context.rsp <= p.stackHigher && Writable(p)
  {
    DataBytes(p, l) + (StackBytes(p) + (HeapBytes(p) + FrameworkBytes(p)))
  }

  lemma Regrouped(a: File, b: File, c: File, d: File)
    ensures a + (b + (c + d)) == a + b + c + d
  {
  }

  lemma BlobPair(a: File, x: File, b: File, y: File)
    ensures (a + x) + (b + y) == a + x + b + y
  {
  }

  /** The file from its first byte to its last; the stack goes up to four bytes above its base. */
  lemma FileInOrder(p: Process, l: Layout)
    requires l.dataStart <= l.edata && l.bssStart <= l.end && p.context.rsp <= p.stackHigher && Writable(p)
    ensures var data, bss := l.edata - l.dataStart, l.end - l.bssStart;
            var stack := p.stackHigher + 4 - p.context.rsp;
            Saved(p, l)
            == (Enc(data, 8) + Slice(p.mem, l.dataStart, data) + Enc(bss, 8) + Slice(p.mem, l.bssStart, bss))
               + (Enc(p.context.rip, 8) + Enc(p.context.rsp, 8) + Enc(p.context.rbp, 8)
                  + Enc(stack, 8) + Slice(p.mem, p.context.rsp, stack))
               + (Enc(p.count, 4) + EntriesBytes(p, 0))
               + (Enc(p.passSender, 4) + Enc(p.passReceiver, 4))
  {
    var data, bss, stack := l.edata - l.dataStart, l.end - l.bssStart, p.stackHigher + 4 - p.context.rsp;
    BlobPair(Enc(data, 8), Slice(p.mem, l.dataStart, data), Enc(bss, 8), Slice(p.mem, l.bssStart, bss));
    var context := Enc(p.context.rip, 8) + Enc(p.context.rsp, 8) + Enc(p.context.rbp, 8);
    assert context + (Enc(stack, 8) + Slice(p.mem, p.context.rsp, stack))
        == context + Enc(stack, 8) + Slice(p.mem, p.context.rsp, stack);
    Regrouped(DataBytes(p, l), StackBytes(p), HeapBytes(p), FrameworkBytes(p));
  }

  /** Each entry is written as the four words of its struct, and what its variable points to behind it. */
  lemma EntryInOrder(p: Process, i: nat)
    requires Writable(p) && i < |p.entries|
    ensures EntryWritable(p, i)
    ensures var c := p.entries[i];
            EntriesBytes(p, i) == Enc(c.place, 8) + Enc(c.link, 8) + Enc(c.block, 8) + Enc(c.size, 8)
                                  + p.blocks[Word(p.mem, c.place)][..c.size] + EntriesBytes(p, i + 1)
    ensures EntriesBytes(p, |p.entries|) == []
  {
  }

  // ---------------------------------------------------------------------------------------------
  // What is read
  // ---------------------------------------------------------------------------------------------

  // What was read, and the input behind it. A read that reaches the end of the file is None.
  datatype Got<T> = Got(value: T, rest: File)

  function Take(f: File, n: nat): (r: Option<Got<seq<Byte>>>)
    ensures r.Some? <==> n <= |f|
    ensures r.Some? ==> |r.value.value| == n && f == r.value.value + r.value.rest
  {
    if n <= |f| then Some(Got(f[..n], f[n..])) else None
  }

  function TakeBlob(f: File): Option<Got<seq<Byte>>> {
    match Take(f, 8)
    case None => None
    case Some(n) => Take(n.rest, Dec(n.value))
  }

  /** restore_data_seg */
  function DataRestored(f: File, m: Mem, l: Layout): Option<Got<Mem>> {
    match TakeBlob(f)
    case None => None
    case Some(a) =>
      match TakeBlob(a.rest)
      case None => None
      case Some(b) => Some(Got(Store(Store(m, l.dataStart, a.value), l.bssStart, b.value), b.rest))
  }

  function ContextOf(s: seq<Byte>): Context
    requires |s| == 24
  {
    Context(Dec(s[..8]), Dec(s[8..16]), Dec(s[16..]))
  }

  // the stack segment in place, the stack pointer, the context
  datatype Stack = Stack(mem: Mem, lower: Addr, context: Context)

  /** restore_stack_seg; None also when the stack would begin below address 0. */
  function StackRestored(f: File, m: Mem, higher: Addr): Option<Got<Stack>> {
    match Take(f, 24)
    case None => None
    case Some(c) =>
      match TakeBlob(c.rest)
      case None => None
      case Some(b) =>
        var lower := higher - (|b.value| - 4);
        var context := ContextOf(c.value);
        var rbp := context.rbp + (lower - context.rsp);
        if lower < 0 || rbp < 0 then None
        else Some(Got(Stack(Store(m, lower, b.value), lower, Context(context.rip, lower, rbp)), b.rest))
  }

  // the variables, the blocks and the registry while the heap is restored
  datatype Heap = Heap(mem: Mem, blocks: map<Addr, seq<Byte>>, entries: seq<H.Container>)

  function EntryOf(s: seq<Byte>): H.Container
    requires |s| == 32
  {
    H.Container(Dec(s[..8]), Dec(s[8..16]), Dec(s[16..24]), Dec(s[24..]))
  }

  /** One round of the loop of restore_heap_seg. */
  function EntryRestored(f: File, h: Heap, alloc: H.Allocator): Option<Got<Heap>> {
    match Take(f, 32)
    case None => None
    case Some(e) =>
      var c := EntryOf(e.value);
      match Take(e.rest, c.size)
      case None => None
      case Some(b) =>
        var block := alloc(h.blocks.Keys);
        Some(Got(Heap(Store(h.mem, c.place, Enc(block, 8)), h.blocks[block := b.value],
                      h.entries + [c.(block := block)]), b.rest))
  }

  // one round of a loop that reads from the file
  type Round = (File, Heap) -> Option<Got<Heap>>

  function Repeated(round: Round, f: File, n: nat, h: Heap): Option<Got<Heap>>
    decreases n
  {
    if n == 0 then Some(Got(h, f))
    else
      match round(f, h)
      case None => None
      case Some(g) => Repeated(round, g.rest, n - 1, g.value)
  }

  function RestoreRound(alloc: H.Allocator): Round {
    (f: File, h: Heap) => EntryRestored(f, h, alloc)
  }

  /** The loop of restore_heap_seg. */
  function EntriesRestored(f: File, n: nat, h: Heap, alloc: H.Allocator): Option<Got<Heap>> {
    Repeated(RestoreRound(alloc), f, n, h)
  }

  /** restore_heap_seg and restore_framework_data, when the segments are in place. */
  function HeapRestored(f: File, s: Stack, q: Process, alloc: H.Allocator): Option<Got<Process>> {
    match Take(f, 4)
    case None => None
    case Some(n) => Finished(EntriesRestored(n.rest, Dec(n.value), Heap(s.mem, q.blocks, q.entries), alloc),
                             Dec(n.value), s, q)
  }

  /** What is left to do when the heap is restored. */
  function Finished(h: Option<Got<Heap>>, count: nat, s: Stack, q: Process): Option<Got<Process>> {
    match h
    case None => None
    case Some(g) => FrameworkRestored(g.rest, count, g.value, s, q)
  }

  function FrameworkRestored(f: File, count: nat, h: Heap, s: Stack, q: Process): Option<Got<Process>> {
    match Take(f, 8)
    case None => None
    case Some(w) =>
      Some(Got(Process(h.mem, h.blocks, h.entries, count, q.stackHigher, s.lower, s.context, Dec(w.value[..4]),
                       Dec(w.value[4..])), w.rest))
  }

  /** init_ckpt_restore, in the process q. */
  function Restored(f: File, q: Process, l: Layout, alloc: H.Allocator): Option<Got<Process>> {
    match DataRestored(f, q.mem, l)
    case None => None
    case Some(d) =>
      match StackRestored(d.rest, d.value, q.stackHigher)
      case None => None
      case Some(s) => HeapRestored(s.rest, s.value, q, alloc)
  }

  // ---------------------------------------------------------------------------------------------
  // Reading back what was written, piece by piece
  // ---------------------------------------------------------------------------------------------

  lemma TakeFront(a: File, rest: File)
    ensures Take(a + rest, |a|) == Some(Got(a, rest))
  {
  }

  lemma TakeBlobBack(s: seq<Byte>, rest: File)
    requires |s| < Range(8)
    ensures TakeBlob(Blob(s) + rest) == Some(Got(s, rest))
  {
    assert Blob(s) + rest == Enc(|s|, 8) + (s + rest);
    TakeFront(Enc(|s|, 8), s + rest);
    DecOfEnc(|s|, 8);
    TakeFront(s, rest);
  }

  /** Everything written fits into the machine words it is written as. */
  ghost predicate Fits(p: Process, l: Layout) {
    && l.dataStart <= l.edata < Range(8) && l.bssStart <= l.end < Range(8)
    && p.context.rip < Range(8) && p.context.rbp < Range(8)
    && p.context.rsp <= p.stackHigher && p.stackHigher + 4 < Range(8)
    && p.count < Range(4) && p.passSender < Range(4) && p.passReceiver < Range(4)
    && forall i :: 0 <= i < |p.entries| ==> EntryFits(p.entries[i])
  }

  predicate EntryFits(c: H.Container) {
    c.place < Range(8) && c.link < Range(8) && c.block < Range(8) && c.size < Range(8)
  }

  /** The data segments of p in the memory m. */
  function DataAt(p: Process, l: Layout, m: Mem): Mem
    requires Fits(p, l)
  {
    Store(Store(m, l.dataStart, Slice(p.mem, l.dataStart, l.edata - l.dataStart)),
          l.bssStart, Slice(p.mem, l.bssStart, l.end - l.bssStart))
  }

  lemma DataBack(p: Process, l: Layout, m: Mem, rest: File)
    requires Fits(p, l)
    ensures DataRestored(DataBytes(p, l) + rest, m, l) == Some(Got(DataAt(p, l, m), rest))
  {
    var a, b := Slice(p.mem, l.dataStart, l.edata - l.dataStart), Slice(p.mem, l.bssStart, l.end - l.bssStart);
    assert DataBytes(p, l) + rest == Blob(a) + (Blob(b) + rest);
    TakeBlobBack(a, Blob(b) + rest);
    TakeBlobBack(b, rest);
  }

  lemma ContextBack(c: Context)
    requires c.rip < Range(8) && c.rsp < Range(8) && c.rbp < Range(8)
    ensures ContextOf(ContextBytes(c)) == c
  {
    var s := ContextBytes(c);
    assert s[..8] == Enc(c.rip, 8) && s[8..16] == Enc(c.rsp, 8) && s[16..] == Enc(c.rbp, 8);
    DecOfEnc(c.rip, 8);
    DecOfEnc(c.rsp, 8);
    DecOfEnc(c.rbp, 8);
  }

  /** The stack of p in the memory m, when its base has moved by `shift`. */
  function StackAt(p: Process, l: Layout, m: Mem, shift: int): Stack
    requires Fits(p, l) && p.context.rsp + shift >= 0 && p.context.rbp + shift >= 0
  {
    Stack(Store(m, p.context.rsp + shift, Slice(p.mem, p.context.rsp, StackSize(p.stackHigher, p.context.rsp))),
          p.context.rsp + shift, Context(p.context.rip, p.context.rsp + shift, p.context.rbp + shift))
  }

  /** The stack comes back at the distance from its base that it had; stack and base pointer move with the base. */
  lemma StackBack(p: Process, l: Layout, m: Mem, higher: Addr, rest: File)
    requires Fits(p, l) && p.context.rsp + higher >= p.stackHigher && p.context.rbp + higher >= p.stackHigher
    ensures StackRestored(StackBytes(p) + rest, m, higher) == Some(Got(StackAt(p, l, m, higher - p.stackHigher), rest))
  {
    var b := Slice(p.mem, p.context.rsp, StackSize(p.stackHigher, p.context.rsp));
    assert StackBytes(p) + rest == ContextBytes(p.context) + (Blob(b) + rest);
    TakeFront(ContextBytes(p.context), Blob(b) + rest);
    ContextBack(p.context);
    TakeBlobBack(b, rest);
  }

  /** Byte by byte: the stack of p, moved by `shift`, with all other memory as it was. */
  lemma MovedBytes(p: Process, l: Layout, m: Mem, shift: int, x: Addr)
    requires Fits(p, l) && p.context.rsp + shift >= 0 && p.context.rbp + shift >= 0
    ensures StackAt(p, l, m, shift).mem(x)
         == if p.context.rsp + shift <= x < p.stackHigher + 4 + shift then p.mem(x - shift) else m(x)
  {
  }

  lemma EntryOfBytes(c: H.Container)
    requires EntryFits(c)
    ensures EntryOf(EntryBytes(c)) == c
  {
    var s := EntryBytes(c);
    assert s[..8] == Enc(c.place, 8) && s[8..16] == Enc(c.link, 8) && s[16..24] == Enc(c.block, 8)
           && s[24..] == Enc(c.size, 8);
    DecOfEnc(c.place, 8);
    DecOfEnc(c.link, 8);
    DecOfEnc(c.block, 8);
    DecOfEnc(c.size, 8);
  }

  /** The heap with one more entry: a new block for the content, which the pointer variable is set to. */
  function EntryAdded(h: Heap, c: H.Container, content: seq<Byte>, alloc: H.Allocator): Heap {
    var block := alloc(h.blocks.Keys);
    Heap(Store(h.mem, c.place, Enc(block, 8)), h.blocks[block := content], h.entries + [c.(block := block)])
  }

  lemma EntryBack(c: H.Container, content: seq<Byte>, h: Heap, alloc: H.Allocator, rest: File)
    requires EntryFits(c) && |content| == c.size
    ensures EntryRestored(EntryBytes(c) + content + rest, h, alloc) == Some(Got(EntryAdded(h, c, content, alloc), rest))
  {
    assert EntryBytes(c) + content + rest == EntryBytes(c) + (content + rest);
    TakeFront(EntryBytes(c), content + rest);
    EntryOfBytes(c);
    TakeFront(content, rest);
  }

  /** The heap after the first k entries of p. */
  function HeapAfter(p: Process, k: nat, h: Heap, alloc: H.Allocator): (r: Heap)
    requires Writable(p) && k <= |p.entries|
  {
    if k == 0 then h else EntryAdded(HeapAfter(p, k - 1, h, alloc), p.entries[k - 1], Content(p, k - 1), alloc)
  }

  lemma Regroup(a: File, b: File, c: File, d: File)
    ensures a + b + c + d == a + b + (c + d)
  {
  }

  /** Reading from fs[i] into hs[i] goes on at fs[i + 1] with hs[i + 1]. */
  ghost predicate Link(round: Round, fs: seq<File>, hs: seq<Heap>, i: nat)
    requires i + 1 < |fs| == |hs|
  {
    round(fs[i], hs[i]) == Some(Got(hs[i + 1], fs[i + 1]))
  }

  ghost predicate Chained(round: Round, fs: seq<File>, hs: seq<Heap>) {
    |fs| == |hs| && forall i: nat {:trigger Link(round, fs, hs, i)} :: i < |fs| - 1 ==> Link(round, fs, hs, i)
  }

  lemma {:induction false} ReadAlong(round: Round, fs: seq<File>, hs: seq<Heap>, i: nat, k: nat, over: nat)
    requires Chained(round, fs, hs) && i <= k < |fs|
    ensures Repeated(round, fs[i], k - i + over, hs[i]) == Repeated(round, fs[k], over, hs[k])
    decreases k - i
  {
    if i < k {
      assert Link(round, fs, hs, i);
      ReadAlong(round, fs, hs, i + 1, k, over);
    }
  }

  lemma NextEntryBack(p: Process, l: Layout, i: nat, h: Heap, alloc: H.Allocator, rest: File)
    requires Writable(p) && Fits(p, l) && i < |p.entries|
    ensures EntryRestored(EntriesBytes(p, i) + rest, HeapAfter(p, i, h, alloc), alloc)
         == Some(Got(HeapAfter(p, i + 1, h, alloc), EntriesBytes(p, i + 1) + rest))
  {
    var c := p.entries[i];
    Regroup(EntryBytes(c), Content(p, i), EntriesBytes(p, i + 1), rest);
    EntryBack(c, Content(p, i), HeapAfter(p, i, h, alloc), alloc, EntriesBytes(p, i + 1) + rest);
  }

  /** What lies ahead in the file, and the heap so far, after 0, 1, 2, ... entries. */
  function FilesAlong(p: Process, rest: File): (fs: seq<File>)
    requires Writable(p)
    ensures |fs| == |p.entries| + 1 && forall i :: 0 <= i < |fs| ==> fs[i] == EntriesBytes(p, i) + rest
  {
    seq(|p.entries| + 1, i requires 0 <= i < |p.entries| + 1 => EntriesBytes(p, i) + rest)
  }

  function HeapsAlong(p: Process, h: Heap, alloc: H.Allocator): (hs: seq<Heap>)
    requires Writable(p)
    ensures |hs| == |p.entries| + 1 && forall i :: 0 <= i < |hs| ==> hs[i] == HeapAfter(p, i, h, alloc)
  {
    seq(|p.entries| + 1, i requires 0 <= i < |p.entries| + 1 => HeapAfter(p, i, h, alloc))
  }

  lemma RoundsAreChained(p: Process, l: Layout, h: Heap, alloc: H.Allocator, rest: File)
    requires Writable(p) && Fits(p, l)
    ensures Chained(RestoreRound(alloc), FilesAlong(p, rest), HeapsAlong(p, h, alloc))
  {
    var fs, hs := FilesAlong(p, rest), HeapsAlong(p, h, alloc);
    forall i: nat | i < |fs| - 1 ensures Link(RestoreRound(alloc), fs, hs, i) {
      NextEntryBack(p, l, i, h, alloc, rest);
    }
  }

  lemma ReadFromStart(round: Round, p: Process, k: nat, over: nat, h: Heap, alloc: H.Allocator, rest: File)
    requires Writable(p) && k <= |p.entries| && Chained(round, FilesAlong(p, rest), HeapsAlong(p, h, alloc))
    ensures Repeated(round, EntriesBytes(p, 0) + rest, k + over, h)
         == Repeated(round, EntriesBytes(p, k) + rest, over, HeapAfter(p, k, h, alloc))
  {
    ReadAlong(round, FilesAlong(p, rest), HeapsAlong(p, h, alloc), 0, k, over);
  }

  /** After k of the entries of p have been read, `over` more are read from what lies behind them. */
  lemma EntriesBack(p: Process, l: Layout, k: nat, over: nat, h: Heap, alloc: H.Allocator, rest: File)
    requires Writable(p) && Fits(p, l) && k <= |p.entries|
    ensures EntriesRestored(EntriesBytes(p, 0) + rest, k + over, h, alloc)
         == EntriesRestored(EntriesBytes(p, k) + rest, over, HeapAfter(p, k, h, alloc), alloc)
  {
    RoundsAreChained(p, l, h, alloc, rest);
    ReadFromStart(RestoreRound(alloc), p, k, over, h, alloc, rest);
  }

  // ---------------------------------------------------------------------------------------------
  // The round trip
  // ---------------------------------------------------------------------------------------------

  /** Both stacks can be placed in q. */
  predicate Fitting(p: Process, q: Process) {
    p.context.rsp + q.stackHigher >= p.stackHigher && p.context.rbp + q.stackHigher >= p.stackHigher
  }

  /** The segments of p in q. */
  function Placed(p: Process, q: Process, l: Layout): Stack
    requires Fits(p, l) && Fitting(p, q)
  {
    StackAt(p, l, DataAt(p, l, q.mem), q.stackHigher - p.stackHigher)
  }

  /** The heap that restore_heap_seg starts with in q. */
  function HeapBefore(p: Process, q: Process, l: Layout): Heap
    requires Fits(p, l) && Fitting(p, q)
  {
    Heap(Placed(p, q, l).mem, q.blocks, q.entries)
  }

  /** What stands in the file behind the segments. */
  function HeapPart(p: Process, rest: File): File
    requires Writable(p)
  {
    Enc(p.count, 4) + (EntriesBytes(p, 0) + (FrameworkBytes(p) + rest))
  }

  lemma StackPlaced(p: Process, q: Process, l: Layout, tail: File)
    requires Fits(p, l) && Fitting(p, q)
    ensures StackRestored(StackBytes(p) + tail, DataAt(p, l, q.mem), q.stackHigher) == Some(Got(Placed(p, q, l), tail))
  {
    StackBack(p, l, DataAt(p, l, q.mem), q.stackHigher, tail);
  }

  /** What init_ckpt_restore does in q up to the number of allocations. */
  lemma RestoredFront(p: Process, q: Process, l: Layout, alloc: H.Allocator, tail: File)
    requires Fits(p, l) && Fitting(p, q)
    ensures Restored(DataBytes(p, l) + (StackBytes(p) + tail), q, l, alloc)
        == HeapRestored(tail, Placed(p, q, l), q, alloc)
  {
    DataBack(p, l, q.mem, StackBytes(p) + tail);
    StackPlaced(p, q, l, tail);
  }

  lemma SavedInParts(p: Process, l: Layout, rest: File)
    requires Writable(p) && Fits(p, l)
    ensures Saved(p, l) + rest == DataBytes(p, l) + (StackBytes(p) + HeapPart(p, rest))
  {
    RegroupSaved(DataBytes(p, l), StackBytes(p), Enc(p.count, 4), EntriesBytes(p, 0), FrameworkBytes(p), rest);
  }

  lemma RegroupSaved(a: File, b: File, c: File, d: File, e: File, f: File)
    ensures a + (b + ((c + d) + e)) + f == a + (b + (c + (d + (e + f))))
  {
  }

  /** And from there on: it reads `count` entries, then the two numbers of the framework. */
  lemma HeapPartBack(p: Process, l: Layout, rest: File)
    requires Writable(p) && Fits(p, l)
    ensures Take(HeapPart(p, rest), 4) == Some(Got(Enc(p.count, 4), EntriesBytes(p, 0) + (FrameworkBytes(p) + rest)))
    ensures Dec(Enc(p.count, 4)) == p.count
    ensures Take(FrameworkBytes(p) + rest, 8) == Some(Got(FrameworkBytes(p), rest))
    ensures Dec(FrameworkBytes(p)[..4]) == p.passSender && Dec(FrameworkBytes(p)[4..]) == p.passReceiver
  {
    TakeFront(Enc(p.count, 4), EntriesBytes(p, 0) + (FrameworkBytes(p) + rest));
    DecOfEnc(p.count, 4);
    TakeFront(FrameworkBytes(p), rest);
    var w := FrameworkBytes(p);
    assert w[..4] == Enc(p.passSender, 4) && w[4..] == Enc(p.passReceiver, 4);
    DecOfEnc(p.passSender, 4);
    DecOfEnc(p.passReceiver, 4);
  }

  /** The process q after it was restored from a checkpoint of p. */
  function Revived(p: Process, q: Process, l: Layout, alloc: H.Allocator): Process
    requires Writable(p) && Fits(p, l) && Fitting(p, q)
  {
    var h := HeapAfter(p, |p.entries|, HeapBefore(p, q, l), alloc);
    Process(h.mem, h.blocks, h.entries, p.count, q.stackHigher, Placed(p, q, l).lower, Placed(p, q, l).context,
            p.passSender, p.passReceiver)
  }

  lemma NothingAhead(a: File, rest: File)
    requires a == []
    ensures a + rest == rest
  {
  }

  /** When the count is read, the entries and the framework data are what is left. */
  lemma CountTaken(f: File, n: File, left: File, count: nat, s: Stack, q: Process, alloc: H.Allocator,
                   h: Option<Got<Heap>>)
    requires Take(f, 4) == Some(Got(n, left)) && Dec(n) == count
    requires h == EntriesRestored(left, count, Heap(s.mem, q.blocks, q.entries), alloc)
    ensures HeapRestored(f, s, q, alloc) == Finished(h, count, s, q)
  {
  }

  /** Restoring the heap: the entries of p that count covers, or more than there are. */
  lemma HeapBack(p: Process, l: Layout, s: Stack, q: Process, alloc: H.Allocator, rest: File, k: nat)
    requires Writable(p) && Fits(p, l) && k == if p.count <= |p.entries| then p.count else |p.entries|
    ensures HeapRestored(HeapPart(p, rest), s, q, alloc)
         == Finished(EntriesRestored(EntriesBytes(p, k) + (FrameworkBytes(p) + rest), p.count - k,
                                     HeapAfter(p, k, Heap(s.mem, q.blocks, q.entries), alloc), alloc),
                     p.count, s, q)
  {
    HeapPartBack(p, l, rest);
    var h0, left := Heap(s.mem, q.blocks, q.entries), EntriesBytes(p, 0) + (FrameworkBytes(p) + rest);
    EntriesBack(p, l, k, p.count - k, h0, alloc, FrameworkBytes(p) + rest);
    CountTaken(HeapPart(p, rest), Enc(p.count, 4), left, p.count, s, q, alloc,
               EntriesRestored(left, p.count, h0, alloc));
  }

  lemma FrameworkBack(p: Process, l: Layout, h: Heap, s: Stack, q: Process, rest: File)
    requires Writable(p) && Fits(p, l)
    ensures FrameworkRestored(FrameworkBytes(p) + rest, p.count, h, s, q)
         == Some(Got(Process(h.mem, h.blocks, h.entries, p.count, q.stackHigher, s.lower, s.context, p.passSender,
                             p.passReceiver), rest))
  {
    HeapPartBack(p, l, rest);
  }

  /**
   * When the count is the length of the registry, restoring reads exactly what saving wrote, whatever lies behind it.
   */
  lemma RestoredIsRevived(p: Process, q: Process, l: Layout, alloc: H.Allocator, rest: File)
    requires Writable(p) && Fits(p, l) && Fitting(p, q) && p.count == |p.entries|
    ensures Restored(Saved(p, l) + rest, q, l, alloc) == Some(Got(Revived(p, q, l, alloc), rest))
  {
    SavedInParts(p, l, rest);
    RestoredFront(p, q, l, alloc, HeapPart(p, rest));
    HeapBack(p, l, Placed(p, q, l), q, alloc, rest, p.count);
    NothingAhead(EntriesBytes(p, |p.entries|), FrameworkBytes(p) + rest);
    FrameworkBack(p, l, HeapAfter(p, |p.entries|, HeapBefore(p, q, l), alloc), Placed(p, q, l), q, rest);
  }

  /** Too large a count runs into the end of the file. */
  lemma CountTooLarge(p: Process, q: Process, l: Layout, alloc: H.Allocator, s: Stack)
    requires Writable(p) && Fits(p, l) && p.count > |p.entries|
    ensures HeapRestored(HeapPart(p, []), s, q, alloc) == None
  {
    HeapBack(p, l, s, q, alloc, [], |p.entries|);
    NothingAhead(EntriesBytes(p, |p.entries|), FrameworkBytes(p) + []);
  }

  /** Too small a count leaves entries unread. */
  lemma CountTooSmall(p: Process, q: Process, l: Layout, alloc: H.Allocator, s: Stack)
    requires Writable(p) && Fits(p, l) && p.count < |p.entries|
    ensures var r := HeapRestored(HeapPart(p, []), s, q, alloc); r.Some? && r.value.rest != []
  {
    HeapBack(p, l, s, q, alloc, [], p.count);
    assert |EntriesBytes(p, p.count)| >= 32;
  }

  /**
   * A checkpoint file is read to its end, neither more nor less, exactly when the count is the length of the registry.
   */
  lemma FileIsUsedUpIffCountIsRight(p: Process, q: Process, l: Layout, alloc: H.Allocator)
    requires Writable(p) && Fits(p, l) && Fitting(p, q)
    ensures var r := Restored(Saved(p, l), q, l, alloc);
            r.Some? && r.value.rest == [] <==> p.count == |p.entries|
  {
    assert Saved(p, l) + [] == Saved(p, l);
    SavedInParts(p, l, []);
    RestoredFront(p, q, l, alloc, HeapPart(p, []));
    if p.count == |p.entries| {
      RestoredIsRevived(p, q, l, alloc, []);
    } else if p.count < |p.entries| {
      CountTooSmall(p, q, l, alloc, Placed(p, q, l));
    } else {
      CountTooLarge(p, q, l, alloc, Placed(p, q, l));
    }
  }

  // ---------------------------------------------------------------------------------------------
  // What the revived process looks like
  // ---------------------------------------------------------------------------------------------

  /** malloc finds a new address below 2^64 as long as fewer blocks exist. */
  ghost predicate Allocates(alloc: H.Allocator) {
    forall used {:trigger alloc(used)} :: |used| < Range(8) - 1 ==> alloc(used) !in used && 0 < alloc(used) < Range(8)
  }

  /** The pointer variables of the registry do not overlap. */
  ghost predicate Apart(entries: seq<H.Container>) {
    forall i, j :: 0 <= i < j < |entries| ==>
      entries[i].place + 8 <= entries[j].place || entries[j].place + 8 <= entries[i].place
  }

  predicate InVariable(entries: seq<H.Container>, k: nat, x: Addr)
    requires k <= |entries|
  {
    exists i :: 0 <= i < k && entries[i].place <= x < entries[i].place + 8
  }

  /** The i-th of the first k variables points to a block of its own, which h did not have, with the content of p. */
  ghost predicate Rebuilt(p: Process, k: nat, h: Heap, r: Heap, i: nat)
    requires Writable(p) && i < k <= |p.entries|
  {
    var b := Word(r.mem, p.entries[i].place);
    && b in r.blocks && b !in h.blocks
    && EntryWritable(p, i) && r.blocks[b] == p.blocks[Word(p.mem, p.entries[i].place)][..p.entries[i].size]
    && |r.entries| == |h.entries| + k && r.entries[|h.entries| + i] == p.entries[i].(block := b)
    && forall j :: 0 <= j < i ==> Word(r.mem, p.entries[j].place) != b
  }

  lemma RebuiltStays(p: Process, k: nat, h: Heap, was: Heap, alloc: H.Allocator, i: nat)
    requires Writable(p) && Apart(p.entries) && i < k < |p.entries| && Rebuilt(p, k, h, was, i)
    requires alloc(was.blocks.Keys) !in was.blocks && alloc(was.blocks.Keys) < Range(8)
    ensures Rebuilt(p, k + 1, h, EntryAdded(was, p.entries[k], Content(p, k), alloc), i)
  {
    var block := alloc(was.blocks.Keys);
    forall j | 0 <= j <= i
      ensures Word(Store(was.mem, p.entries[k].place, Enc(block, 8)), p.entries[j].place)
          == Word(was.mem, p.entries[j].place)
    {
      WordOfStore(was.mem, p.entries[k].place, block, p.entries[j].place);
    }
  }

  lemma NewlyRebuilt(p: Process, k: nat, h: Heap, was: Heap, alloc: H.Allocator)
    requires Writable(p) && Apart(p.entries) && k < |p.entries| && |was.entries| == |h.entries| + k
    requires forall i: nat {:trigger Rebuilt(p, k, h, was, i)} :: i < k ==> Rebuilt(p, k, h, was, i)
    requires alloc(was.blocks.Keys) !in was.blocks && alloc(was.blocks.Keys) < Range(8)
    requires forall a :: a in h.blocks ==> a in was.blocks
    ensures Rebuilt(p, k + 1, h, EntryAdded(was, p.entries[k], Content(p, k), alloc), k)
  {
    var block := alloc(was.blocks.Keys);
    WordOfStore(was.mem, p.entries[k].place, block, p.entries[k].place);
    forall j: nat | j < k
      ensures Word(Store(was.mem, p.entries[k].place, Enc(block, 8)), p.entries[j].place) != block
    {
      assert Rebuilt(p, k, h, was, j);
      WordOfStore(was.mem, p.entries[k].place, block, p.entries[j].place);
    }
  }

  ghost predicate Extends(h: Heap, r: Heap, k: nat) {
    && |r.entries| == |h.entries| + k && |r.blocks.Keys| == |h.blocks.Keys| + k
    && forall a :: a in h.blocks ==> a in r.blocks && r.blocks[a] == h.blocks[a]
  }

  lemma AddedExtends(h: Heap, was: Heap, k: nat, c: H.Container, content: seq<Byte>, alloc: H.Allocator)
    requires Extends(h, was, k) && alloc(was.blocks.Keys) !in was.blocks.Keys
    ensures Extends(h, EntryAdded(was, c, content, alloc), k + 1)
  {
    assert EntryAdded(was, c, content, alloc).blocks.Keys == was.blocks.Keys + {alloc(was.blocks.Keys)};
  }

  lemma MallocSucceeds(alloc: H.Allocator, used: set<Addr>)
    requires Allocates(alloc) && |used| < Range(8) - 1
    ensures alloc(used) !in used && alloc(used) < Range(8)
  {
  }

  /** Only the variables change. */
  lemma {:induction false} OtherBytes(p: Process, k: nat, h: Heap, alloc: H.Allocator, x: Addr)
    requires Writable(p) && k <= |p.entries| && !InVariable(p.entries, k, x)
    ensures HeapAfter(p, k, h, alloc).mem(x) == h.mem(x)
  {
    if k > 0 {
      OtherBytes(p, k - 1, h, alloc, x);
    }
  }

  ghost predicate AllRebuilt(p: Process, k: nat, h: Heap, r: Heap)
    requires Writable(p) && k <= |p.entries|
  {
    forall i: nat {:trigger Rebuilt(p, k, h, r, i)} :: i < k ==> Rebuilt(p, k, h, r, i)
  }

  /** k variables are rebuilt in r, which is h with as many blocks and entries more. */
  ghost predicate Grown(p: Process, k: nat, h: Heap, r: Heap)
    requires Writable(p) && k <= |p.entries|
  {
    Extends(h, r, k) && AllRebuilt(p, k, h, r)
  }

  lemma OneMoreRebuilt(p: Process, k: nat, h: Heap, was: Heap, alloc: H.Allocator, now: Heap)
    requires Writable(p) && Apart(p.entries) && Allocates(alloc) && k < |p.entries| && Grown(p, k, h, was)
    requires |h.blocks.Keys| + |p.entries| < Range(8)
    requires now == EntryAdded(was, p.entries[k], Content(p, k), alloc)
    ensures Grown(p, k + 1, h, now)
  {
    MallocSucceeds(alloc, was.blocks.Keys);
    AddedExtends(h, was, k, p.entries[k], Content(p, k), alloc);
    OneMoreForAll(p, k, h, was, alloc, now, k + 1);
  }

  lemma OneMoreForAll(p: Process, k: nat, h: Heap, was: Heap, alloc: H.Allocator, now: Heap, n: nat)
    requires Writable(p) && Apart(p.entries) && k < |p.entries| && Grown(p, k, h, was)
    requires alloc(was.blocks.Keys) !in was.blocks && alloc(was.blocks.Keys) < Range(8)
    requires now == EntryAdded(was, p.entries[k], Content(p, k), alloc) && n == k + 1
    ensures AllRebuilt(p, n, h, now)
  {
    forall i: nat | i < n ensures Rebuilt(p, n, h, now, i) {
      StillRebuilt(p, k, h, was, alloc, i, now, n);
    }
  }

  lemma StillRebuilt(p: Process, k: nat, h: Heap, was: Heap, alloc: H.Allocator, i: nat, now: Heap, n: nat)
    requires Writable(p) && Apart(p.entries) && i <= k < |p.entries| && Grown(p, k, h, was)
    requires alloc(was.blocks.Keys) !in was.blocks && alloc(was.blocks.Keys) < Range(8)
    requires now == EntryAdded(was, p.entries[k], Content(p, k), alloc) && n == k + 1
    ensures Rebuilt(p, n, h, now, i)
  {
    if i < k {
      assert Rebuilt(p, k, h, was, i);
      RebuiltStays(p, k, h, was, alloc, i);
    } else {
      NewlyRebuilt(p, k, h, was, alloc);
    }
  }

  // a property of the heap after so many rounds
  type Progress = (nat, Heap) -> bool

  ghost predicate Kept(holds: Progress, hs: seq<Heap>, i: nat)
    requires i + 1 < |hs|
  {
    holds(i, hs[i]) ==> holds(i + 1, hs[i + 1])
  }

  lemma {:induction false} HoldsAlong(holds: Progress, hs: seq<Heap>, k: nat)
    requires k < |hs| && holds(0, hs[0])
    requires forall i: nat {:trigger Kept(holds, hs, i)} :: i + 1 < |hs| ==> Kept(holds, hs, i)
    ensures holds(k, hs[k])
  {
    if k > 0 {
      HoldsAlong(holds, hs, k - 1);
      assert Kept(holds, hs, k - 1);
    }
  }

  /** Restoring the heap gives every variable a new block of its own, with the content it had. */
  lemma HeapIsRebuilt(p: Process, k: nat, h: Heap, alloc: H.Allocator)
    requires Writable(p) && Apart(p.entries) && Allocates(alloc) && k <= |p.entries|
    requires |h.blocks.Keys| + |p.entries| < Range(8)
    ensures Grown(p, k, h, HeapAfter(p, k, h, alloc))
  {
    var hs := HeapsAlong(p, h, alloc);
    var grown: Progress := (i: nat, r: Heap) => i <= |p.entries| && Grown(p, i, h, r);
    forall i: nat | i + 1 < |hs| ensures Kept(grown, hs, i) {
      if grown(i, hs[i]) {
        OneMoreRebuilt(p, i, h, hs[i], alloc, hs[i + 1]);
      }
    }
    HoldsAlong(grown, hs, k);
  }

  /** x lies in a data segment or in the stack of p. */
  predicate InSegments(p: Process, l: Layout, x: Addr) {
    || l.dataStart <= x < l.edata || l.bssStart <= x < l.end
    || p.context.rsp <= x < p.stackHigher + 4
  }

  /** With the stack base where it was, every byte of the segments is in its place, and nothing else was touched. */
  lemma PlacedBytes(p: Process, q: Process, l: Layout, x: Addr)
    requires Fits(p, l) && q.stackHigher == p.stackHigher
    ensures Placed(p, q, l).mem(x) == if InSegments(p, l, x) then p.mem(x) else q.mem(x)
    ensures Placed(p, q, l).lower == p.context.rsp && Placed(p, q, l).context == p.context
  {
  }

  /**
   * Saving p and restoring it in q, with the same stack base: data, stack and heap are those of p,
   * and each variable of the registry points to a block of its own, made by the restore.
   */
  lemma RoundTrip(p: Process, q: Process, l: Layout, alloc: H.Allocator, rest: File)
    requires Writable(p) && Fits(p, l) && Apart(p.entries) && p.count == |p.entries|
    requires q.stackHigher == p.stackHigher && Allocates(alloc) && |q.blocks.Keys| + |p.entries| < Range(8)
    ensures Restored(Saved(p, l) + rest, q, l, alloc) == Some(Got(Revived(p, q, l, alloc), rest))
    ensures var r := Revived(p, q, l, alloc);
            && r.context == p.context && r.stackLower == p.context.rsp && r.count == p.count
            && r.passSender == p.passSender && r.passReceiver == p.passReceiver
            && (forall x :: !InVariable(p.entries, |p.entries|, x) ==>
              r.mem(x) == if InSegments(p, l, x) then p.mem(x) else q.mem(x))
            && AllRebuilt(p, |p.entries|, HeapBefore(p, q, l), Heap(r.mem, r.blocks, r.entries))
  {
    RestoredIsRevived(p, q, l, alloc, rest);
    var r, h, n := Revived(p, q, l, alloc), HeapBefore(p, q, l), |p.entries|;
    forall x | !InVariable(p.entries, n, x) ensures r.mem(x) == if InSegments(p, l, x) then p.mem(x) else q.mem(x) {
      OtherBytes(p, n, h, alloc, x);
      PlacedBytes(p, q, l, x);
    }
    HeapIsRebuilt(p, n, h, alloc);
    PlacedBytes(p, q, l, 0);
  }

  /** After the restore no two variables share a block: what was an alias in p has a block of its own. */
  lemma AliasesAreLost(p: Process, q: Process, l: Layout, alloc: H.Allocator, i: nat, j: nat)
    requires Writable(p) && Fits(p, l) && Apart(p.entries) && Fitting(p, q) && i < j < |p.entries|
    requires Allocates(alloc) && |q.blocks.Keys| + |p.entries| < Range(8)
    ensures var r := Revived(p, q, l, alloc); Word(r.mem, p.entries[i].place) != Word(r.mem, p.entries[j].place)
  {
    var h, n := HeapBefore(p, q, l), |p.entries|;
    HeapIsRebuilt(p, n, h, alloc);
    assert Rebuilt(p, n, h, HeapAfter(p, n, h, alloc), j);
  }

  /** Were the data segment restored after the heap, a variable in it would point to where it pointed in p. */
  lemma SegmentsWouldOverwrite(p: Process, l: Layout, m: Mem, place: Addr)
    requires Fits(p, l) && l.dataStart <= place && place + 8 <= l.edata
    ensures Word(Store(m, l.dataStart, Slice(p.mem, l.dataStart, l.edata - l.dataStart)), place) == Word(p.mem, place)
  {
    var m2 := Store(m, l.dataStart, Slice(p.mem, l.dataStart, l.edata - l.dataStart));
    assert Slice(m2, place, 8) == Slice(p.mem, place, 8);
  }
}
