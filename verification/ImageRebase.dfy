/**
 `qemu-img rebase` in safe mode: while clusters are copied up from the old
 backing chain the image reads as before over that chain, and in the end it
 reads the same over the new one.
 */
module ImageRebase {
  import opened ImageBuffers

  const IO_BUF_SIZE := 2 * 1024 * 1024

  /** A backing file: what it holds itself, and where it defers to the file below it. */
  datatype Layer = Layer(content: seq<byte>, present: seq<bool>)

  /** A byte read through a backing chain, top first; beyond the end of a file it reads as zero. */
  function ReadChain(chain: seq<Layer>, i: nat): byte {
    if chain == [] || i >= |chain[0].content| then 0
    else if i >= |chain[0].present| || chain[0].present[i] then chain[0].content[i]
    else ReadChain(chain[1..], i)
  }

  function ChainSize(chain: seq<Layer>): nat {
    if chain == [] then 0 else |chain[0].content|
  }

  /** No layer above position `k` of the chain holds byte `i`, and none ends before it. */
  predicate DefersTo(chain: seq<Layer>, k: nat, i: nat)
    requires k <= |chain|
  {
    forall j :: 0 <= j < k ==> i < |chain[j].content| && i < |chain[j].present| && !chain[j].present[i]
  }

  predicate RangeDefers(chain: seq<Layer>, k: nat, off: nat, n: nat)
    requires k <= |chain|
  {
    forall i: nat :: off <= i < off + n ==> DefersTo(chain, k, i)
  }

  /** The prefix-chain shortcut: such a byte reads the same from position `k` of the chain. */
  lemma {:induction false} DeferredRead(chain: seq<Layer>, k: nat, i: nat)
    requires k <= |chain| && DefersTo(chain, k, i)
    ensures ReadChain(chain, i) == ReadChain(chain[k..], i)
  {
    if k == 0 {
      assert chain[0..] == chain;
    } else {
      assert !chain[0].present[i];
      assert chain[1..][k - 1..] == chain[k..];
      forall j | 0 <= j < k - 1
        ensures i < |chain[1..][j].content| && i < |chain[1..][j].present| && !chain[1..][j].present[i]
      {
        assert chain[1..][j] == chain[j + 1];
      }
      DeferredRead(chain[1..], k - 1, i);
    }
  }

  function BlockStart(x: nat, a: nat): (r: nat)
    requires a > 0
    ensures r <= x < r + a
  {
    Floor(x, a);
    x / a * a
  }

  lemma Floor(x: nat, a: nat)
    requires a > 0
    ensures x / a * a <= x < x / a * a + a
  {
  }

  function BlockEnd(x: nat, a: nat): (r: nat)
    requires a > 0
    ensures x <= r < x + a
  {
    Floor(x + a - 1, a);
    (x + a - 1) / a * a
  }

  lemma QuotientIs(i: nat, q: nat, a: nat)
    requires a > 0 && q * a <= i < q * a + a
    ensures i / a == q
  {
    var p := i / a;
    Floor(i, a);
    assert (p + 1) * a == p * a + a && (q + 1) * a == q * a + a;
    if p < q {
      MulGrows(p + 1, q, a);
    } else if p > q {
      MulGrows(q + 1, p, a);
    }
  }

  /** Between the start of the block of `j` and `j` itself lies only that block. */
  lemma SameBlockBelow(i: nat, j: nat, a: nat)
    requires a > 0 && BlockStart(j, a) <= i <= j
    ensures i / a == j / a
  {
    Floor(j, a);
    QuotientIs(i, j / a, a);
  }

  /** Between `j` and the end of its block lies only that block. */
  lemma SameBlockAbove(i: nat, j: nat, a: nat)
    requires a > 0 && j <= i < BlockEnd(j + 1, a)
    ensures i / a == j / a
  {
    QuotientPlusOne(j, a);
    Floor(j, a);
    QuotientIs(i, j / a, a);
  }

  lemma QuotientPlusOne(j: nat, a: nat)
    requires a > 0
    ensures (j + a) / a == j / a + 1 && (j + a) / a * a == j / a * a + a
  {
    var q := j / a;
    Floor(j, a);
    assert (q + 1) * a == q * a + a;
    QuotientIs(j + a, q + 1, a);
  }

  /** The image itself, over the backing chain its header names. */
  datatype Overlay = Overlay(data: seq<byte>, alloc: seq<bool>, backing: seq<Layer>)

  predicate Ok(o: Overlay) {
    |o.data| == |o.alloc|
  }

  /** What a guest reads at byte `i`. */
  function View(o: Overlay, i: nat): byte
    requires Ok(o) && i < |o.data|
  {
    if o.alloc[i] then o.data[i] else ReadChain(o.backing, i)
  }

  predicate SameView(a: Overlay, b: Overlay) {
    && Ok(a) && Ok(b) && |a.data| == |b.data|
    && forall i :: 0 <= i < |a.data| ==> View(a, i) == View(b, i)
  }

  /** Allocation is tracked by whole blocks of `align` bytes. */
  predicate BlockUniform(alloc: seq<bool>, align: nat)
    requires align > 0
  {
    forall i, j :: 0 <= i < |alloc| && 0 <= j < |alloc| && i / align == j / align ==> alloc[i] == alloc[j]
  }

  /** Byte `i` lies in a block that a write of `n` bytes at `off` touches. */
  predicate Covered(i: nat, off: nat, n: nat, align: nat)
    requires align > 0
  {
    n > 0 && off / align <= i / align <= (off + n - 1) / align
  }

  /** A write: touched blocks become allocated, the rest of a new block is copied up from the backing chain. */
  function Written(o: Overlay, align: nat, off: nat, buf: seq<byte>): (r: Overlay)
    requires align > 0 && Ok(o) && off + |buf| <= |o.data|
    ensures Ok(r) && |r.data| == |o.data| && r.backing == o.backing
  {
    Overlay(seq(|o.data|, i requires 0 <= i < |o.data| =>
                  if off <= i < off + |buf| then buf[i - off]
                  else if !o.alloc[i] && Covered(i, off, |buf|, align) then ReadChain(o.backing, i)
                  else o.data[i]),
            seq(|o.data|, i requires 0 <= i < |o.data| => o.alloc[i] || Covered(i, off, |buf|, align)),
            o.backing)
  }

  /** What may be found after a write that was asked for: every byte reads as before or as written. */
  predicate Torn(before: Overlay, after: Overlay, align: nat, off: nat, buf: seq<byte>)
    requires align > 0 && Ok(before) && off + |buf| <= |before.data|
  {
    && Ok(after) && |after.data| == |before.data| && after.backing == before.backing
    && (forall i :: 0 <= i < |after.alloc| ==> (before.alloc[i] ==> after.alloc[i]))
    && (forall i :: 0 <= i < |after.alloc| ==> (after.alloc[i] ==> before.alloc[i] || Covered(i, off, |buf|, align)))
    && forall i :: 0 <= i < |after.data| ==>
         View(after, i) == View(before, i) || (off <= i < off + |buf| && View(after, i) == buf[i - off])
  }

  lemma RangeCovered(i: nat, off: nat, n: nat, align: nat)
    requires align > 0 && off <= i < off + n
    ensures Covered(i, off, n, align)
  {
    QuotientMonotone(off, i, align);
    QuotientMonotone(i, off + n - 1, align);
  }

  lemma QuotientMonotone(x: nat, y: nat, a: nat)
    requires a > 0 && x <= y
    ensures x / a <= y / a
  {
    if x / a > y / a {
      Floor(x, a);
      Floor(y, a);
      MulGrows(y / a + 1, x / a, a);
    }
  }

  /** A write of a prefix of the buffer, or of all of it, is one of the outcomes of `Torn`. */
  lemma PrefixTorn(o: Overlay, align: nat, off: nat, buf: seq<byte>, k: nat)
    requires align > 0 && Ok(o) && off + |buf| <= |o.data| && k <= |buf|
    ensures Torn(o, Written(o, align, off, buf[..k]), align, off, buf)
  {
    var r := Written(o, align, off, buf[..k]);
    forall i: nat | i < |o.data|
      ensures r.alloc[i] ==> o.alloc[i] || Covered(i, off, |buf|, align)
      ensures View(r, i) == View(o, i) || (off <= i < off + |buf| && View(r, i) == buf[i - off])
    {
      if k > 0 {
        QuotientMonotone(off + k - 1, off + |buf| - 1, align);
      }
      if off <= i < off + k {
        RangeCovered(i, off, k, align);
      }
    }
  }

  /** A finished write leaves its range allocated and allocation in whole blocks. */
  lemma WriteAllocates(o: Overlay, align: nat, off: nat, buf: seq<byte>)
    requires align > 0 && Ok(o) && off + |buf| <= |o.data| && BlockUniform(o.alloc, align)
    ensures BlockUniform(Written(o, align, off, buf).alloc, align)
    ensures forall i :: off <= i < off + |buf| ==> Written(o, align, off, buf).alloc[i]
  {
    forall i: nat | off <= i < off + |buf|
      ensures Written(o, align, off, buf).alloc[i]
    {
      RangeCovered(i, off, |buf|, align);
    }
  }

  /** Every byte of the range is held by the image or reads alike in both chains. */
  predicate Settled(o: Overlay, chain: seq<Layer>, from: nat, to: nat) {
    forall i :: from <= i < to && i < |o.alloc| ==> o.alloc[i] || ReadChain(o.backing, i) == ReadChain(chain, i)
  }

  ghost predicate BlockDiffers(a: seq<Layer>, b: seq<Layer>, size: nat, align: nat, i: nat)
    requires align > 0
  {
    exists j: nat :: j < size && j / align == i / align && ReadChain(a, j) != ReadChain(b, j)
  }

  /** Blocks were copied up only where the two chains really differ. */
  ghost predicate NoNeedlessCopy(before: Overlay, after: Overlay, chain: seq<Layer>, align: nat)
    requires align > 0
  {
    && |before.alloc| == |after.alloc|
    && forall i: nat :: i < |after.alloc| && after.alloc[i] ==>
         before.alloc[i] || BlockDiffers(before.backing, chain, |after.alloc|, align, i)
  }

  /** Once everything is settled, naming the new chain in the header changes no byte. */
  lemma SwitchBacking(o: Overlay, chain: seq<Layer>)
    requires Ok(o) && Settled(o, chain, 0, |o.data|)
    ensures SameView(o, o.(backing := chain))
  {
  }

  function ChainBytes(chain: seq<Layer>, off: nat, n: nat): (r: seq<byte>)
    ensures |r| == n && forall j :: 0 <= j < n ==> r[j] == ReadChain(chain, off + j)
  {
    if n == 0 then [] else ChainBytes(chain, off, n - 1) + [ReadChain(chain, off + n - 1)]
  }

  /** Reading up to the end of the backing file and zero-filling the rest reads the chain. */
  lemma ZeroFilled(chain: seq<Layer>, off: nat, n: nat, m: nat)
    requires m == Min(n, Max(0, ChainSize(chain) - off))
    ensures ChainBytes(chain, off, m) + seq(n - m, _ => 0) == ChainBytes(chain, off, n)
  {
  }

  /** Every position of a run of unequal chunks lies in a chunk that differs. */
  lemma {:induction false} DifferingChunk(a: seq<byte>, b: seq<byte>, ch: int, i: int, n: int, k: int)
    returns (c: int)
    requires |a| == |b| && ch > 0 && 0 <= i <= k < n <= |a| && SameStatus(a, b, ch, i, n, true)
    ensures i <= c <= k < c + ch && ChunksDiffer(a, b, c, ch) && OnGrid(i, c, ch)
    decreases n - i
  {
    if k < i + ch {
      c := i;
    } else {
      c := DifferingChunk(a, b, ch, i + ch, n, k);
    }
  }

  lemma DifferingByte(a: seq<byte>, b: seq<byte>, ch: int, c: int) returns (j: int)
    requires |a| == |b| && ch > 0 && 0 <= c < |a| && ChunksDiffer(a, b, c, ch)
    ensures c <= j < c + ch && j < |a| && a[j] != b[j]
  {
    var ca, cb := Chunk(a, c, ch), Chunk(b, c, ch);
    var k :| 0 <= k < |ca| && ca[k] != cb[k];
    j := c + k;
  }

  lemma SumMod(x: nat, y: nat, a: nat)
    requires a > 0 && x % a == 0 && y % a == 0
    ensures (x + y) % a == 0
  {
    MultipleMod(x / a + y / a, a);
    assert x == x / a * a && y == y / a * a;
    assert x + y == (x / a + y / a) * a;
  }

  lemma AlignedFloor(x: nat, a: nat)
    requires a > 0 && x % a == 0
    ensures BlockStart(x, a) == x
  {
  }

  /** Bytes less than `a` above a multiple of `a` share its block. */
  lemma BlockOf(x: nat, j: nat, a: nat)
    requires a > 0 && x % a == 0 && x <= j < x + a
    ensures j / a == x / a
  {
    assert x == x / a * a;
    QuotientIs(j, x / a, a);
  }

  /** A block touched by copying up a run of unequal chunks is one where the chains differ. */
  lemma CopiedDiffers(old0: seq<Layer>, chain: seq<Layer>, size: nat, align: nat, off: nat, n: nat, run: nat, i: nat)
    requires align > 0 && off % align == 0 && off + n <= size && 0 < run <= n && Covered(i, off, run, align)
    requires SameStatus(ChainBytes(old0, off, n), ChainBytes(chain, off, n), align, 0, run, true)
    ensures BlockDiffers(old0, chain, size, align, i)
  {
    hide ReadChain, SameStatus, OnGrid;
    var a, b := ChainBytes(old0, off, n), ChainBytes(chain, off, n);
    var k := Max(off, BlockStart(i, align));
    InCoveredRange(i, off, run, align);
    var c := DifferingChunk(a, b, align, 0, run, k - off);
    GridMod(0, c, align);
    SumMod(off, c, align);
    var j := DifferingByte(a, b, align, c);
    BlockOf(off + c, off + j, align);
    BlockOf(off + c, k, align);
    assert ReadChain(old0, off + j) != ReadChain(chain, off + j);
  }

  lemma InCoveredRange(i: nat, off: nat, n: nat, align: nat)
    requires align > 0 && off % align == 0 && Covered(i, off, n, align)
    ensures var k := Max(off, BlockStart(i, align)); k / align == i / align && off <= k < off + n
  {
    var d := BlockStart(i, align);
    Floor(i, align);
    MultipleMod(i / align, align);
    BlockOf(d, i, align);
    AlignedFloor(off, align);
    Floor(off + n - 1, align);
    MulGrows(off / align, i / align, align);
    MulGrows(i / align, (off + n - 1) / align, align);
  }

  /** An aligned write touches no block beyond its end. */
  lemma AlignedCover(i: nat, off: nat, n: nat, align: nat)
    requires align > 0 && off % align == 0 && n % align == 0 && Covered(i, off, n, align)
    ensures i < off + n
  {
    SumMod(off, n, align);
    AlignedFloor(off + n, align);
    if i >= off + n {
      QuotientMonotone(off + n, i, align);
      Floor(off + n - 1, align);
      MulGrows((off + n) / align, (off + n - 1) / align, align);
    }
  }

  /** A write the tool asked for; `zeroes` when it gave no data. */
  datatype Request = Request(offset: nat, bytes: nat, zeroes: bool)

  /** Zeroes are written exactly where the write starts beyond the end of the old backing file. */
  predicate ZeroesPastEnd(requests: seq<Request>, end: nat) {
    forall k :: 0 <= k < |requests| ==> (requests[k].zeroes <==> end <= requests[k].offset)
  }

  class CowImage {
    const align: nat
    const size: nat
    var img: Overlay
    ghost var trace: seq<Overlay>  // what was on disk after each change
    ghost var requests: seq<Request>
    ghost var faults: nat          // requests to the block layer that failed

    ghost predicate Valid()
      reads this
    {
      align > 0 && Ok(img) && |img.data| == size && BlockUniform(img.alloc, align)
    }

    constructor (image: Overlay, blockSize: nat)
      requires blockSize > 0 && Ok(image) && BlockUniform(image.alloc, blockSize)
      ensures Valid() && img == image && align == blockSize && trace == [img] && requests == []
    {
      align, size, img, trace, requests, faults := blockSize, |image.data|, image, [image], [], 0;
    }

    /** bdrv_is_allocated: a status that holds for the first `m` bytes */
    method IsAllocated(off: nat, n: nat) returns (ret: int, m: nat)
      requires Valid() && n > 0 && off + n <= size
      modifies this`faults
      ensures faults == old(faults) + (if ret < 0 then 1 else 0)
      ensures ret < 0 || (1 <= m <= n && forall i :: off <= i < off + m ==> img.alloc[i] == (ret > 0))
    {
      if * {
        faults := faults + 1;
        return -5, 0;
      }
      ret := if img.alloc[off] then 1 else 0;
      assert forall i :: off <= i < off + 1 ==> img.alloc[i] == (ret > 0);
      m :| 1 <= m <= n && forall i :: off <= i < off + m ==> img.alloc[i] == (ret > 0);
    }

    /** bdrv_is_allocated_above: zero with `m > 0` means the first `m` bytes are deferred to position `k` */
    method IsAllocatedAbove(k: nat, off: nat, n: nat) returns (ret: int, m: nat)
      requires k <= |img.backing| && n > 0
      modifies this`faults
      ensures faults == old(faults) + (if ret < 0 then 1 else 0)
      ensures ret < 0 || m <= n
      ensures ret == 0 ==> RangeDefers(img.backing, k, off, m)
    {
      if * {
        faults := faults + 1;
        return -5, 0;
      } else if * {
        m :| m <= n;
        return 1, m;
      }
      ret := 0;
      assert RangeDefers(img.backing, k, off, 0);
      m :| m <= n && RangeDefers(img.backing, k, off, m);
    }

    /** blk_pread from a backing chain, up to the end of its first file */
    method Pread(chain: seq<Layer>, off: nat, n: nat) returns (ret: int, buf: seq<byte>)
      modifies this`faults
      ensures faults == old(faults) + (if ret < 0 then 1 else 0)
      ensures ret >= 0 ==> buf == ChainBytes(chain, off, n)
    {
      if * {
        faults := faults + 1;
        return -5, [];
      }
      return 0, ChainBytes(chain, off, n);
    }

    /** blk_pwrite and, for `zeroes`, blk_pwrite_zeroes; one that fails may have stored any part of its data */
    method Pwrite(off: nat, buf: seq<byte>, ghost zeroes: bool) returns (ret: int)
      requires Valid() && off + |buf| <= size && (zeroes ==> AllZero(buf))
      modifies this
      ensures requests == old(requests) + [Request(off, |buf|, zeroes)]
      ensures faults == old(faults) + (if ret < 0 then 1 else 0)
      ensures Torn(old(img), img, align, off, buf) && trace == old(trace) + [img]
      ensures ret >= 0 ==> Valid() && forall i :: off <= i < off + |buf| ==> img.alloc[i]
    {
      var k :| 0 <= k <= |buf|;
      PrefixTorn(img, align, off, buf, k);
      WriteAllocates(img, align, off, buf[..k]);
      img := Written(img, align, off, buf[..k]);
      trace := trace + [img];
      requests := requests + [Request(off, |buf|, zeroes)];
      ret := -5;
      if k == |buf| {
        ret := *;
      }
      if ret < 0 {
        faults := faults + 1;
      }
    }

    /** What holds at every moment of the rebase, for the image as it was on entry. */
    ghost predicate Kept(orig: Overlay, chain: seq<Layer>)
      reads this
    {
      && align > 0 && SameView(orig, img) && img.backing == orig.backing && |img.data| == size
      && NoNeedlessCopy(orig, img, chain, align)
      && img in trace && (forall t :: t in trace ==> SameView(orig, t))
      && ZeroesPastEnd(requests, ChainSize(orig.backing))
    }

    /** One write of a run of unequal chunks, all of it still unallocated. */
    method CopyRun(ghost orig: Overlay, chain: seq<Layer>, off: nat, ghost n: nat, run: nat, eof: bool, buf: seq<byte>)
      returns (ret: int)
      requires Valid() && Kept(orig, chain) && off % align == 0 && off + n <= size && 0 < run <= n
      requires buf == ChainBytes(img.backing, off, n)[..run] && eof == (ChainSize(img.backing) <= off)
      requires SameStatus(ChainBytes(img.backing, off, n), ChainBytes(chain, off, n), align, 0, run, true)
      requires forall i :: off <= i < off + run ==> !img.alloc[i]
      modifies this
      ensures ret < 0 <==> faults > old(faults)
      ensures faults >= old(faults) && Kept(orig, chain)
      ensures forall i :: 0 <= i < size && old(img.alloc[i]) ==> img.alloc[i]
      ensures ret >= 0 ==> Valid() && Settled(img, chain, off, off + run)
      ensures ret >= 0 && run % align == 0 ==>
        forall i :: off + run <= i < size ==> img.alloc[i] == old(img.alloc[i])
    {
      hide SameStatus;
      if eof {
        assert seq(run, _ => 0) == buf;
        ret := Pwrite(off, seq(run, _ => 0), true);
      } else {
        ret := Pwrite(off, buf, false);
      }
      forall i: nat | i < size && img.alloc[i] && !old(img.alloc[i])
        ensures BlockDiffers(orig.backing, chain, size, align, i)
      {
        CopiedDiffers(orig.backing, chain, size, align, off, n, run, i);
      }
      if run % align == 0 {
        forall i: nat | off + run <= i < size && img.alloc[i]
          ensures old(img.alloc[i])
        {
          if !old(img.alloc[i]) {
            AlignedCover(i, off, run, align);
          }
        }
      }
    }

    /** The next run of chunks that all agree, or that all differ and are written. */
    method CopyStep(ghost orig: Overlay, chain: seq<Layer>, off: nat, eof: bool, a: seq<byte>, b: seq<byte>)
      returns (ret: int, run: nat)
      requires Valid() && Kept(orig, chain) && off % align == 0 && |a| == |b| > 0 && off + |a| <= size
      requires a == ChainBytes(img.backing, off, |a|) && b == ChainBytes(chain, off, |b|)
      requires eof == (ChainSize(img.backing) <= off)
      requires forall i :: off <= i < off + |a| ==> !img.alloc[i]
      modifies this
      ensures ret < 0 <==> faults > old(faults)
      ensures faults >= old(faults) && Kept(orig, chain) && 0 < run <= |a| && (run < |a| ==> run % align == 0)
      ensures forall i :: 0 <= i < size && old(img.alloc[i]) ==> img.alloc[i]
      ensures ret >= 0 ==> Valid() && Settled(img, chain, off, off + run)
      ensures ret >= 0 ==> forall i :: off + run <= i < off + |a| ==> !img.alloc[i]
    {
      hide SameStatus, SameView, NoNeedlessCopy, BlockUniform, ReadChain, ChunksDiffer, ChainBytes;
      var differ;
      differ, run := CompareBuffers(a, b, align);
      if differ {
        ret := CopyRun(orig, chain, off, |a|, run, eof, a[..run]);
      } else {
        AgreeSettles(img, chain, off, run, a, b);
        ret := 0;
      }
    }

    /** Compare an unallocated, aligned region in both chains and copy up what differs. */
    method CopyRegion(ghost orig: Overlay, chain: seq<Layer>, offset: nat, n: nat) returns (ret: int)
      requires Valid() && Kept(orig, chain) && n > 0 && offset + n <= size && offset % align == 0
      requires forall i :: offset <= i < offset + n ==> !img.alloc[i]
      modifies this
      ensures ret < 0 <==> faults > old(faults)
      ensures faults >= old(faults) && Kept(orig, chain)
      ensures forall i :: 0 <= i < size && old(img.alloc[i]) ==> img.alloc[i]
      ensures ret >= 0 ==> Valid() && Settled(img, chain, offset, offset + n)
    {
      hide SameView, NoNeedlessCopy, BlockUniform, ReadChain, ChainBytes;
      var oldSize, newSize := ChainSize(img.backing), ChainSize(chain);
      var nOld := Min(n, Max(0, oldSize - offset));
      var nNew := Min(n, Max(0, newSize - offset));
      var eof := nOld == 0;
      ZeroFilled(img.backing, offset, n, nOld);
      ZeroFilled(chain, offset, n, nNew);
      var bufOld, bufNew := ChainBytes(img.backing, offset, 0), ChainBytes(chain, offset, 0);
      if nOld > 0 {
        ret, bufOld := Pread(img.backing, offset, nOld);
        if ret < 0 {
          return;
        }
      }
      bufOld := bufOld + seq(n - nOld, _ => 0);
      if nNew > 0 {
        ret, bufNew := Pread(chain, offset, nNew);
        if ret < 0 {
          return;
        }
      }
      bufNew := bufNew + seq(n - nNew, _ => 0);
      var written := 0;
      while written < n
        invariant 0 <= written <= n && Kept(orig, chain) && Valid() && faults == old(faults)
        invariant eof <==> oldSize <= offset + written
        invariant written < n ==> (offset + written) % align == 0
        invariant forall i :: offset + written <= i < offset + n ==> !img.alloc[i]
        invariant forall i :: 0 <= i < size && old(img.alloc[i]) ==> img.alloc[i]
        invariant Settled(img, chain, offset, offset + written)
      {
        SuffixBytes(img.backing, offset, n, written);
        SuffixBytes(chain, offset, n, written);
        var run;
        ret, run := CopyStep(orig, chain, offset + written, eof, bufOld[written..], bufNew[written..]);
        if ret < 0 {
          return;
        }
        if written + run < n {
          SumMod(offset + written, run, align);
        }
        written := written + run;
        if offset + written >= oldSize {
          eof := true;
        }
      }
      ret := 0;
    }

    /** The region of an unallocated byte range, widened to whole blocks, is unallocated as well. */
    lemma WidenedUnallocated(offset: nat, n: nat)
      requires Valid() && n > 0 && offset + n <= size && forall i :: offset <= i < offset + n ==> !img.alloc[i]
      ensures forall i :: BlockStart(offset, align) <= i < BlockEnd(offset + n, align) && i < size ==> !img.alloc[i]
    {
      forall i | BlockStart(offset, align) <= i < BlockEnd(offset + n, align) && i < size
        ensures !img.alloc[i]
      {
        if i < offset {
          SameBlockBelow(i, offset, align);
          assert img.alloc[i] == img.alloc[offset];
        } else if i >= offset + n {
          SameBlockAbove(i, offset + n - 1, align);
          assert img.alloc[i] == img.alloc[offset + n - 1];
        }
      }
    }

    /** The next range that needs no copy, or else the unallocated blocks around it. */
    method NextRegion(chain: seq<Layer>, prefix: int, from: nat) returns (ret: int, copy: bool, offset: nat, n: nat)
      requires Valid() && from < size && prefix <= |img.backing|
      requires prefix >= 0 ==> chain == img.backing[prefix..]
      modifies this`faults
      ensures ret < 0 <==> faults > old(faults)
      ensures faults >= old(faults)
      ensures ret >= 0 ==> offset <= from < offset + n <= size
      ensures ret >= 0 && !copy ==> offset == from && Settled(img, chain, offset, offset + n)
      ensures ret >= 0 && copy ==> offset % align == 0 && forall i :: offset <= i < offset + n ==> !img.alloc[i]
    {
      hide BlockUniform, ReadChain, DefersTo;
      copy, offset := false, from;
      n := Min(IO_BUF_SIZE, size - offset);
      ret, n := IsAllocated(offset, n);
      if ret != 0 {
        return;
      }
      if prefix >= 0 {
        var bytes := n;
        ret, n := IsAllocatedAbove(prefix, offset, n);
        if ret < 0 {
          return;
        }
        if ret == 0 && n != 0 {
          DeferredSettles(img, prefix, offset, n);
          return;
        }
        if n == 0 {
          n := bytes;
        }
      }
      WidenedUnallocated(offset, n);
      AlignedDown(offset, align);
      copy := true;
      n := n + (offset - BlockStart(offset, align));
      offset := BlockStart(offset, align);
      n := n + (BlockEnd(offset + n, align) - (offset + n));
      n := Min(n, size - offset);
    }

    /** The copying loop of a safe rebase, and the change of the backing file name that follows it. */
    method SafeRebase(chain: seq<Layer>, prefix: int) returns (ret: int)
      requires Valid() && trace == [img] && requests == [] && prefix <= |img.backing|
      requires prefix >= 0 ==> chain == img.backing[prefix..]
      modifies this
      ensures forall t :: t in trace ==> SameView(old(img), t)
      ensures img in trace
      ensures ret >= 0 ==> img.backing == chain
      ensures ret < 0 <==> faults > old(faults)
      ensures NoNeedlessCopy(old(img), img, chain, align)
      ensures ZeroesPastEnd(requests, ChainSize(old(img).backing))
    {
      hide SameView, NoNeedlessCopy, BlockUniform, ReadChain;
      ghost var orig := img;
      StartKept(orig, chain, align);
      var offset := 0;
      while offset < size
        invariant 0 <= offset <= size && Valid() && Kept(orig, chain) && Settled(img, chain, 0, offset)
        invariant faults == old(faults)
      {
        var copy, n;
        ret, copy, offset, n := NextRegion(chain, prefix, offset);
        if ret < 0 {
          return;
        }
        if copy {
          ret := CopyRegion(orig, chain, offset, n);
          if ret < 0 {
            return;
          }
        }
        offset := offset + n;
      }
      if * {
        faults := faults + 1;
        return -5;
      }
      SwitchBacking(img, chain);
      SameViewTrans(orig, img, img.(backing := chain));
      SameAlloc(orig, img, chain, align);
      img := img.(backing := chain);
      trace := trace + [img];
      ret := 0;
    }
  }

  lemma SameAlloc(a: Overlay, b: Overlay, chain: seq<Layer>, align: nat)
    requires align > 0 && NoNeedlessCopy(a, b, chain, align)
    ensures NoNeedlessCopy(a, b.(backing := chain), chain, align)
  {
  }

  lemma AlignedDown(x: nat, a: nat)
    requires a > 0
    ensures BlockStart(x, a) % a == 0
  {
    MultipleMod(x / a, a);
  }

  lemma StartKept(o: Overlay, chain: seq<Layer>, align: nat)
    requires align > 0 && Ok(o)
    ensures SameView(o, o) && NoNeedlessCopy(o, o, chain, align)
  {
  }

  lemma SameViewTrans(a: Overlay, b: Overlay, c: Overlay)
    requires SameView(a, b) && SameView(b, c)
    ensures SameView(a, c)
  {
  }

  lemma DeferredSettles(o: Overlay, k: nat, off: nat, n: nat)
    requires k <= |o.backing| && RangeDefers(o.backing, k, off, n)
    ensures Settled(o, o.backing[k..], off, off + n)
  {
    forall i: nat | off <= i < off + n
      ensures ReadChain(o.backing, i) == ReadChain(o.backing[k..], i)
    {
      DeferredRead(o.backing, k, i);
    }
  }

  lemma SuffixBytes(chain: seq<Layer>, off: nat, n: nat, k: nat)
    requires k <= n
    ensures ChainBytes(chain, off, n)[k..] == ChainBytes(chain, off + k, n - k)
  {
  }

  lemma AgreeSettles(o: Overlay, chain: seq<Layer>, off: nat, run: nat, a: seq<byte>, b: seq<byte>)
    requires run <= |a| == |b| && a[..run] == b[..run]
    requires a == ChainBytes(o.backing, off, |a|) && b == ChainBytes(chain, off, |b|)
    ensures Settled(o, chain, off, off + run)
  {
    forall i | off <= i < off + run
      ensures ReadChain(o.backing, i) == ReadChain(chain, i)
    {
      assert a[..run][i - off] == b[..run][i - off];
    }
  }
}
