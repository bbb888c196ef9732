/**
 The buffer scans of qemu-img: where the first non-zero sector is, how long two
 buffers agree or disagree, and which leading sectors need not be written.
 */
module ImageBuffers {

  const SECTOR := 512

  type byte = x: int | 0 <= x < 256

  predicate AllZero(s: seq<byte>) {
    forall i :: 0 <= i < |s| ==> s[i] == 0
  }

  function Min(a: int, b: int): int {
    if a < b then a else b
  }

  function Max(a: int, b: int): int {
    if a < b then b else a
  }

  /** find_nonzero; the source's int64_t result, -1 for an all-zero buffer */
  method FindNonzero(buf: seq<byte>) returns (r: int)
    ensures r == -1 <==> AllZero(buf)
    ensures r != -1 ==> 0 <= r < |buf| && r % SECTOR == 0
    ensures r != -1 ==> AllZero(buf[..r]) && !AllZero(buf[r..Min(r + SECTOR, |buf|)])
  {
    var n := |buf|;
    var end := n / SECTOR * SECTOR;
    var i := 0;
    while i < end
      invariant 0 <= i <= end && i % SECTOR == 0
      invariant AllZero(buf[..i])
    {
      if !AllZero(buf[i..i + SECTOR]) {
        assert !AllZero(buf) by {
          var k :| 0 <= k < SECTOR && buf[i..i + SECTOR][k] != 0;
          assert buf[i + k] != 0;
        }
        return i;
      }
      ZeroExtends(buf, i, i + SECTOR);
      i := i + SECTOR;
    }
    if i < n && !AllZero(buf[i..n]) {
      assert !AllZero(buf) by {
        var k :| 0 <= k < n - i && buf[i..n][k] != 0;
        assert buf[i + k] != 0;
      }
      return i;
    }
    ZeroExtends(buf, i, n);
    assert buf[..n] == buf;
    return -1;
  }

  lemma ZeroExtends(buf: seq<byte>, i: int, j: int)
    requires 0 <= i <= j <= |buf| && AllZero(buf[..i]) && AllZero(buf[i..j])
    ensures AllZero(buf[..j])
  {
    forall k | 0 <= k < j
      ensures buf[k] == 0
    {
      if k < i {
        assert buf[..i][k] == 0;
      } else {
        assert buf[i..j][k - i] == 0;
      }
    }
  }

  /** The chunk of size `ch` that starts at `i`, or what is left of the buffer. */
  function Chunk(buf: seq<byte>, i: int, ch: int): seq<byte>
    requires 0 <= i <= |buf| && ch > 0
  {
    buf[i..Min(i + ch, |buf|)]
  }

  predicate ChunksDiffer(a: seq<byte>, b: seq<byte>, i: int, ch: int)
    requires |a| == |b| && ch > 0 && 0 <= i <= |a|
  {
    Chunk(a, i, ch) != Chunk(b, i, ch)
  }

  /** `n` is a whole number of chunks after `i`. */
  predicate OnGrid(i: int, n: int, ch: int)
    requires ch > 0
    decreases n - i
  {
    i == n || (i < n && OnGrid(i + ch, n, ch))
  }

  /** Every chunk that starts in `i`, `i + ch`, ... below `n` has the given matching status. */
  predicate SameStatus(a: seq<byte>, b: seq<byte>, ch: int, i: int, n: int, differ: bool)
    requires |a| == |b| && ch > 0 && 0 <= i && n <= |a|
    decreases n - i
  {
    i >= n || (ChunksDiffer(a, b, i, ch) == differ && SameStatus(a, b, ch, i + ch, n, differ))
  }

  lemma {:induction false} GridExtends(a: seq<byte>, b: seq<byte>, ch: int, i: int, n: int, m: int, differ: bool)
    requires |a| == |b| && ch > 0 && 0 <= i <= n < m <= |a| && m <= n + ch
    requires OnGrid(i, n, ch) && SameStatus(a, b, ch, i, n, differ) && ChunksDiffer(a, b, n, ch) == differ
    ensures SameStatus(a, b, ch, i, m, differ) && OnGrid(i, n + ch, ch)
    decreases n - i
  {
    if i < n {
      GridExtends(a, b, ch, i + ch, n, m, differ);
    }
  }

  lemma {:induction false} GridMod(i: int, n: int, ch: int)
    requires ch > 0 && OnGrid(i, n, ch) && i % ch == 0
    ensures n % ch == 0
    decreases n - i
  {
    if i < n {
      AddMod(i, ch);
      GridMod(i + ch, n, ch);
    }
  }

  lemma AddMod(i: int, c: int)
    requires c > 0
    ensures (i + c) % c == i % c
  {
    var q, r := (i + c) / c, (i + c) % c;
    assert i == (q - 1) * c + r;
    var q2, r2 := i / c, i % c;
    if q - 1 < q2 {
      MulGrows(1, q2 - (q - 1), c);
    } else if q - 1 > q2 {
      MulGrows(1, q - 1 - q2, c);
    }
  }

  lemma MulGrows(i: int, j: int, c: int)
    requires i <= j && c > 0
    ensures i * c <= j * c
  {
  }

  /** compare_buffers */
  method CompareBuffers(a: seq<byte>, b: seq<byte>, chsize: nat) returns (differ: bool, pnum: int)
    requires |a| == |b| > 0
    ensures var ch := if chsize == 0 then SECTOR else chsize;
            && 0 < pnum <= |a|
            && SameStatus(a, b, ch, 0, pnum, differ)
            && (pnum < |a| ==> pnum % ch == 0 && ChunksDiffer(a, b, pnum, ch) != differ)
            && (!differ ==> a[..pnum] == b[..pnum])
            && (!differ && pnum == |a| <==> a == b)
  {
    var ch := if chsize == 0 then SECTOR else chsize;
    var i := Min(|a|, ch);
    differ := a[..i] != b[..i];
    ghost var grid := ch;
    while i < |a|
      invariant 0 < i <= |a| && i <= grid && (i < |a| ==> i == grid) && OnGrid(0, grid, ch)
      invariant SameStatus(a, b, ch, 0, i, differ)
      invariant !differ ==> a[..i] == b[..i]
      invariant differ ==> a != b
    {
      var len := Min(|a| - i, ch);
      if (a[i..i + len] != b[i..i + len]) != differ {
        break;
      }
      assert a[..i + len] == a[..i] + a[i..i + len] && b[..i + len] == b[..i] + b[i..i + len];
      GridExtends(a, b, ch, 0, i, i + len, differ);
      grid := grid + ch;
      i := i + len;
    }
    pnum := i;
    if pnum < |a| {
      GridMod(0, pnum, ch);
    } else {
      assert a[..pnum] == a && b[..pnum] == b;
    }
  }

  type Sector = seq<byte>

  /** The first `n` sectors are zero. */
  predicate ZeroRun(buf: seq<Sector>, n: int)
    requires 0 <= n <= |buf|
  {
    forall i :: 0 <= i < n ==> AllZero(buf[i])
  }

  /** How many leading sectors share the state of the first one. */
  function RunLength(buf: seq<Sector>): nat {
    if |buf| <= 1 then |buf|
    else if AllZero(buf[0]) != AllZero(buf[1]) then 1
    else 1 + RunLength(buf[1..])
  }

  lemma {:induction false} RunLengthIs(buf: seq<Sector>, i: nat)
    requires 0 < i <= |buf|
    requires forall k :: 0 <= k < i ==> AllZero(buf[k]) == AllZero(buf[0])
    requires i < |buf| ==> AllZero(buf[i]) != AllZero(buf[0])
    ensures RunLength(buf) == i
  {
    if i > 1 {
      assert AllZero(buf[1]) == AllZero(buf[0]);
      RunLengthIs(buf[1..], i - 1);
    }
  }

  /** A leading run of zero sectors that ends too early after an aligned place to be worth skipping. */
  predicate ShortZeroRun(buf: seq<Sector>, sectorNum: nat, alignment: nat)
    requires alignment > 0
  {
    RunLength(buf) < |buf| && 0 < RunLength(buf) <= (sectorNum + RunLength(buf)) % alignment
  }

  /** A zero sector followed by data, at the start of the disk: the leading zero sector is reported as data. */
  lemma ZeroReportedAsData(zero: Sector, data: Sector)
    requires AllZero(zero) && !AllZero(data)
    ensures AllZero([zero, data][0]) && ShortZeroRun([zero, data], 0, 8)
  {
    var buf := [zero, data];
    assert AllZero(buf[0]) != AllZero(buf[1]);
    RunLengthIs(buf, 1);
  }

  predicate Nonzero(buf: seq<Sector>, k: int) {
    0 <= k < |buf| && !AllZero(buf[k])
  }

  /** No zero sector between `f` and `l`. */
  predicate Solid(buf: seq<Sector>, f: int, l: int) {
    0 <= f <= l < |buf| && forall k :: f <= k <= l ==> Nonzero(buf, k)
  }

  /** A data report of `n` sectors: a solid stretch with less than `a` sectors before it and less than `a` after it. */
  ghost predicate DataReport(buf: seq<Sector>, n: int, a: int) {
    exists f, l :: Solid(buf, f, l) && f < a && n - a <= l < n
  }

  /** A zero report of `n` sectors ends less than `a` sectors before the next data, or with the buffer. */
  ghost predicate ZeroReport(buf: seq<Sector>, n: int, a: int) {
    0 <= n <= |buf| && ZeroRun(buf, n) && (n == |buf| || exists k :: n <= k < n + a && Nonzero(buf, k))
  }

  /**
   is_allocated_sectors.  A result of false promises zero sectors; the end of
   the reported range is aligned unless the buffer ends there.
   */
  method IsAllocatedSectors(buf: seq<Sector>, sectorNum: nat, alignment: nat) returns (hasData: bool, pnum: nat)
    requires alignment > 0
    ensures buf == [] ==> !hasData && pnum == 0
    ensures buf != [] ==> 0 < pnum <= |buf|
    ensures pnum <= |buf| && (!hasData ==> ZeroRun(buf, pnum))
    ensures buf != [] ==> (hasData <==> !AllZero(buf[0]) || ShortZeroRun(buf, sectorNum, alignment))
    ensures buf != [] && pnum < |buf| ==> (sectorNum + pnum) % alignment == 0
    ensures if hasData then DataReport(buf, pnum, alignment) else ZeroReport(buf, pnum, alignment)
  {
    if |buf| <= 0 {
      return false, 0;
    }
    var isZero := AllZero(buf[0]);
    var i := 1;
    while i < |buf|
      invariant 1 <= i <= |buf|
      invariant forall k :: 0 <= k < i ==> AllZero(buf[k]) == isZero
    {
      if isZero != AllZero(buf[i]) {
        break;
      }
      i := i + 1;
    }
    RunLengthIs(buf, i);
    assert !isZero ==> Solid(buf, 0, i - 1);
    if i == |buf| {
      return !isZero, i;
    }
    var tail := (sectorNum + i) % alignment;
    ghost var run := i;
    assert isZero ==> Nonzero(buf, run) && Solid(buf, run, run);
    if tail != 0 {
      if isZero && i <= tail {
        isZero := false;
      }
      if !isZero {
        AlignUp(sectorNum + i, alignment);
        i := i + (alignment - tail);
        i := Min(i, |buf|);
      } else {
        AlignDown(sectorNum + i, alignment);
        i := i - tail;
      }
    }
    return !isZero, i;
  }

  lemma AlignDown(n: int, c: int)
    requires c > 0
    ensures (n - n % c) % c == 0
  {
    MultipleMod(n / c, c);
  }

  lemma AlignUp(n: int, c: int)
    requires c > 0
    ensures (n + (c - n % c)) % c == 0
  {
    AlignDown(n, c);
    AddMod(n - n % c, c);
  }

  lemma MultipleMod(k: int, c: int)
    requires c > 0
    ensures (k * c) % c == 0
  {
    var n := k * c;
    var q, r := n / c, n % c;
    assert n == q * c + r;
    if q < k {
      MulGrows(q + 1, k, c);
    } else if q > k {
      MulGrows(k + 1, q, c);
    }
  }

  /** Some sector of the `g` sectors from `z` on is not zero. */
  ghost predicate Touched(buf: seq<Sector>, z: int, g: int) {
    exists k :: z <= k < z + g && Nonzero(buf, k)
  }

  /** No stretch of `g` zero sectors lies within the first `n`. */
  ghost predicate Dense(buf: seq<Sector>, n: int, g: int) {
    forall z :: 0 <= z && z + g <= n ==> Touched(buf, z, g)
  }

  /** Some sector of the last `a` before `n` is not zero. */
  ghost predicate EndsInData(buf: seq<Sector>, n: int, a: int) {
    Touched(buf, n - a, a)
  }

  /** What was skipped over as zero since `used` ends soon, or with the buffer. */
  ghost predicate GapEnds(buf: seq<Sector>, used: int, checked: int, min: int, a: int) {
    checked == used || checked == |buf| || exists k :: checked <= k < used + min + a && Nonzero(buf, k)
  }

  /** A data report after such a gap keeps the whole dense. */
  lemma DenseGrows(buf: seq<Sector>, used: int, checked: int, step: int, min: int, a: int)
    requires 0 <= used <= checked < checked + step <= |buf| && a > 0 && min >= 0
    requires Dense(buf, used, min + 2 * a) && (used > 0 ==> EndsInData(buf, used, a))
    requires GapEnds(buf, used, checked, min, a) && DataReport(buf[checked..], step, a) && (used == 0 ==> checked == 0)
    ensures Dense(buf, checked + step, min + 2 * a) && EndsInData(buf, checked + step, a)
  {
    var rest, g := buf[checked..], min + 2 * a;
    var f0, l0 :| Solid(rest, f0, l0) && f0 < a && step - a <= l0 < step;
    var f, l := checked + f0, checked + l0;
    SolidShift(buf, checked, f0, l0);
    hide AllZero;
    assert Nonzero(buf, f) && Nonzero(buf, l);
    var next := f;
    if checked > used {
      next :| checked <= next < used + min + a && Nonzero(buf, next);
    }
    forall z | 0 <= z && z + g <= checked + step
      ensures Touched(buf, z, g)
    {
      if z + g <= used {
      } else if used > 0 && z <= LastData(buf, used, a) {
        assert Nonzero(buf, LastData(buf, used, a));
      } else if z <= next {
        assert Nonzero(buf, next);
      } else {
        var k := if z < f then f else z;
        assert k <= l && Nonzero(buf, k);
      }
    }
  }

  lemma SolidShift(buf: seq<Sector>, n: nat, f: int, l: int)
    requires n <= |buf| && Solid(buf[n..], f, l)
    ensures Solid(buf, n + f, n + l)
  {
    forall k | n + f <= k <= n + l
      ensures Nonzero(buf, k)
    {
      assert Nonzero(buf[n..], k - n);
    }
  }

  ghost function LastData(buf: seq<Sector>, n: int, a: int): (k: int)
    requires EndsInData(buf, n, a)
    ensures n - a <= k < n && Nonzero(buf, k)
  {
    var k :| n - a <= k < n - a + a && Nonzero(buf, k);
    k
  }

  lemma GapStarts(buf: seq<Sector>, used: int, step: int, min: int, a: int)
    requires 0 <= used < used + step <= |buf| && step < min && a > 0 && ZeroReport(buf[used..], step, a)
    ensures GapEnds(buf, used, used + step, min, a)
  {
    var rest := buf[used..];
    if step < |rest| {
      var k :| step <= k < step + a && Nonzero(rest, k);
      assert Nonzero(buf, used + k);
    }
  }

  lemma GapGoesOn(buf: seq<Sector>, used: int, checked: int, step: int, min: int, a: int)
    requires 0 <= used < checked < checked + step <= |buf| && GapEnds(buf, used, checked, min, a)
    requires ZeroReport(buf[checked..], step, a)
    ensures GapEnds(buf, used, checked + step, min, a)
  {
    var rest := buf[checked..];
    var k :| checked <= k < used + min + a && Nonzero(buf, k);
    forall i | checked <= i < checked + step
      ensures AllZero(buf[i])
    {
      assert rest[i - checked] == buf[i];
    }
  }

  /**
   is_allocated_sectors_min: small zero gaps inside data are written as data, and
   only small ones.
   */
  method IsAllocatedSectorsMin(buf: seq<Sector>, minSparse: nat, sectorNum: nat, alignment: nat)
    returns (hasData: bool, pnum: nat)
    requires alignment > 0
    ensures pnum <= |buf| && (buf != [] ==> pnum > 0)
    ensures !hasData ==> ZeroReport(buf, pnum, alignment)
    ensures buf != [] ==> (hasData <==> !AllZero(buf[0]) || ShortZeroRun(buf, sectorNum, alignment))
    ensures hasData && pnum < |buf| ==> (sectorNum + pnum) % alignment == 0
    ensures hasData ==> ZeroesFollow(buf, pnum, Min(minSparse, |buf|))
    ensures hasData ==> Dense(buf, pnum, Min(minSparse, |buf|) + 2 * alignment) && EndsInData(buf, pnum, alignment)
  {
    hide Dense, EndsInData, GapEnds, DataReport;
    var min := Min(minSparse, |buf|);
    hasData, pnum := IsAllocatedSectors(buf, sectorNum, alignment);
    if !hasData {
      return;
    }
    var used := pnum;
    var checked := pnum;
    FirstReport(buf, pnum, min, alignment);
    while checked < |buf|
      invariant 0 < used <= checked <= |buf| && ZeroBetween(buf, used, checked)
      invariant used < |buf| ==> (sectorNum + used) % alignment == 0
      invariant checked < |buf| ==> (sectorNum + checked) % alignment == 0
      invariant Dense(buf, used, min + 2 * alignment) && EndsInData(buf, used, alignment)
      invariant GapEnds(buf, used, checked, min, alignment)
      decreases |buf| - checked
    {
      var more, step := IsAllocatedSectors(buf[checked..], sectorNum + checked, alignment);
      if !more {
        ZeroGrows(buf, used, checked, checked + step);
        if step < min {
          if checked == used {
            GapStarts(buf, used, step, min, alignment);
          } else {
            GapGoesOn(buf, used, checked, step, min, alignment);
          }
        }
      } else {
        DenseGrows(buf, used, checked, step, min, alignment);
        NoGap(buf, checked + step, min, alignment);
      }
      checked := checked + step;
      if more {
        used := checked;
      } else if step >= min {
        break;
      }
    }
    assert ZeroBetween(buf, used, checked);
    return true, used;
  }

  lemma NoGap(buf: seq<Sector>, n: int, min: int, a: int)
    ensures GapEnds(buf, n, n, min, a)
  {
  }

  lemma FirstReport(buf: seq<Sector>, n: int, min: int, a: int)
    requires 0 < n <= |buf| && min >= 0 && a > 0 && DataReport(buf, n, a)
    ensures Dense(buf, n, min + 2 * a) && EndsInData(buf, n, a) && GapEnds(buf, n, n, min, a)
  {
    assert buf[0..] == buf;
    NoGap(buf, 0, min, a);
    DenseGrows(buf, 0, 0, n, min, a);
  }

  predicate ZeroBetween(buf: seq<Sector>, from: int, to: int)
    requires 0 <= from <= to <= |buf|
  {
    forall i :: from <= i < to ==> AllZero(buf[i])
  }

  /** After `n` sectors come at least `min` zero sectors, or nothing but zero sectors. */
  predicate ZeroesFollow(buf: seq<Sector>, n: int, min: int)
    requires 0 <= n <= |buf|
  {
    exists e :: n <= e <= |buf| && (e - n >= min || e == |buf|) && ZeroBetween(buf, n, e)
  }

  lemma ZeroGrows(buf: seq<Sector>, from: int, mid: int, to: int)
    requires 0 <= from <= mid <= to <= |buf| && ZeroBetween(buf, from, mid) && ZeroRun(buf[mid..], to - mid)
    ensures ZeroBetween(buf, from, to)
  {
    var rest := buf[mid..];
    forall i | from <= i < to
      ensures AllZero(buf[i])
    {
      if i >= mid {
        assert rest[i - mid] == buf[i];
      }
    }
  }
}
