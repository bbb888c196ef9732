/**
 One worker's share of `qemu-img convert`: choosing the next range and its
 status, reading it across several source images, and writing it so that the
 target reads as the joined sources.
 */
module ConvertContent {
  import opened ImageBuffers

  const BDRV_REQUEST_MAX_SECTORS := 0x7fffffff / SECTOR

  datatype Option<T> = None | Some(value: T)

  datatype Status = BlkData | BlkZero | BlkBackingFile

  datatype Source = Source(content: seq<Sector>, alignment: nat)

  /** `under` is what the target reads where nothing was written: its backing file, or its initial content. */
  datatype Config = Config(
    sources: seq<Source>,
    under: seq<Sector>,
    hasZeroInit: bool,
    hasBacking: bool,
    backingSectors: int,
    compressed: bool,
    cluster: nat,
    bufSectors: nat,
    minSparse: nat,
    alignment: nat
  )

  type Target = seq<Option<Sector>>

  /** What the target has to read in the end. */
  function Joined(sources: seq<Source>): seq<Sector> {
    if sources == [] then [] else sources[0].content + Joined(sources[1..])
  }

  function Goal(cfg: Config): seq<Sector> {
    Joined(cfg.sources)
  }

  predicate WholeSectors(s: seq<Sector>) {
    forall i :: 0 <= i < |s| ==> |s[i]| == SECTOR
  }

  predicate ZeroFrom(s: seq<Sector>, from: int) {
    forall i :: 0 <= i < |s| && i >= from ==> AllZero(s[i])
  }

  predicate ConfigOk(cfg: Config) {
    && (forall k :: 0 <= k < |cfg.sources| ==> cfg.sources[k].alignment > 0)
    && |cfg.under| == |Goal(cfg)| && WholeSectors(cfg.under) && WholeSectors(Goal(cfg))
    && cfg.bufSectors > 0 && cfg.alignment > 0
    && (cfg.hasZeroInit ==> !cfg.hasBacking && ZeroFrom(cfg.under, 0))
    && (cfg.backingSectors >= 0 ==> cfg.hasBacking && ZeroFrom(cfg.under, cfg.backingSectors))
    && (cfg.compressed ==> cfg.cluster > 0 && cfg.bufSectors == cfg.cluster)
  }

  /** What a block status promises about sector `i` of the joined sources. */
  predicate StatusTrue(cfg: Config, status: Status, i: nat)
    requires i < |Goal(cfg)| == |cfg.under|
  {
    match status
    case BlkData => true
    case BlkZero => AllZero(Goal(cfg)[i])
    case BlkBackingFile => cfg.hasBacking && Goal(cfg)[i] == cfg.under[i]
  }

  predicate StatusHolds(cfg: Config, status: Status, from: int, to: int)
    requires |Goal(cfg)| == |cfg.under|
  {
    forall i :: 0 <= i < |Goal(cfg)| && from <= i < to ==> StatusTrue(cfg, status, i)
  }

  /** The range a worker may take next, and the status that stays cached for the ranges after it. */
  predicate NextRange(cfg: Config, sector: nat, n: int, status: Status, next: int)
    requires |Goal(cfg)| == |cfg.under|
  {
    && 0 < n <= |Goal(cfg)| - sector
    && (status == BlkData ==> n <= cfg.bufSectors)
    && StatusHolds(cfg, status, sector, sector + n) && StatusHolds(cfg, status, sector + n, next)
  }

  /** The target's view of sector `i`. */
  function View(cfg: Config, t: Target, i: nat): Sector
    requires |t| == |cfg.under| && i < |t|
  {
    if t[i].Some? then t[i].value else cfg.under[i]
  }

  function Put(t: Target, at: nat, buf: seq<Sector>): (r: Target)
    requires at + |buf| <= |t|
    ensures |r| == |t|
    ensures forall i :: 0 <= i < |t| ==> r[i] == if at <= i < at + |buf| then Some(buf[i - at]) else t[i]
  {
    t[..at] + seq(|buf|, k requires 0 <= k < |buf| => Some(buf[k])) + t[at + |buf|..]
  }

  function Zeros(n: nat): (r: seq<Sector>)
    ensures |r| == n && WholeSectors(r) && ZeroFrom(r, 0)
  {
    if n == 0 then [] else Zeros(n - 1) + [ZeroSector(SECTOR)]
  }

  function ZeroSector(n: nat): (r: Sector)
    ensures |r| == n && AllZero(r)
  {
    if n == 0 then [] else ZeroSector(n - 1) + [0]
  }

  /** With this buffer the write loop has to write data: sparseness is off, or what lies ahead is not worth skipping. */
  predicate MustWrite(cfg: Config, at: nat, buf: seq<Sector>)
    requires buf != [] && cfg.alignment > 0
  {
    || cfg.minSparse == 0
    || if cfg.compressed then !ZeroRun(buf, |buf|) else !AllZero(buf[0]) || ShortZeroRun(buf, at, cfg.alignment)
  }

  /** One pass of convert_co_write's loop over the remaining buffer: `m` sectors from `at` are dealt with. */
  predicate WritePass(cfg: Config, t: Target, at: nat, buf: seq<Sector>, status: Status, m: int, t1: Target)
    requires cfg.alignment > 0
  {
    && |t1| == |t| && 0 < m <= |buf| && at + |buf| <= |t|
    && (m < |buf| ==> status == BlkData && cfg.minSparse > 0 && !cfg.compressed)
    && match status
       case BlkBackingFile => cfg.hasBacking && t1 == t
       case BlkZero => ZeroPass(cfg, t, at, m, t1)
       case BlkData =>
         if MustWrite(cfg, at, buf) then t1 == Put(t, at, buf[..m])
         else ZeroRun(buf, m) && ZeroPass(cfg, t, at, m, t1)
  }

  predicate ZeroPass(cfg: Config, t: Target, at: nat, m: nat, t1: Target)
    requires at + m <= |t|
  {
    if cfg.hasZeroInit then !cfg.hasBacking && t1 == t else t1 == Put(t, at, Zeros(m))
  }

  /** Nothing has been written to these sectors. */
  predicate Fresh(t: Target, from: int, to: int) {
    forall i :: 0 <= i < |t| && from <= i < to ==> t[i] == None
  }

  /** These sectors read as the joined sources. */
  predicate Copied(cfg: Config, t: Target, from: int, to: int)
    requires |t| == |cfg.under| == |Goal(cfg)|
  {
    forall i :: 0 <= i < |t| && from <= i < to ==> View(cfg, t, i) == Goal(cfg)[i]
  }

  predicate Untouched(t: Target, t1: Target, from: int, to: int) {
    && |t| == |t1|
    && (forall i :: 0 <= i < |t| && i < from ==> t1[i] == t[i])
    && (forall i :: 0 <= i < |t| && i >= to ==> t1[i] == t[i])
  }

  /** The buffer holds what the status calls for; it matters only for data. */
  predicate BufferTrue(cfg: Config, at: nat, buf: seq<Sector>, status: Status) {
    status == BlkData ==> at + |buf| <= |Goal(cfg)| && buf == Goal(cfg)[at..at + |buf|]
  }

  lemma ZeroUnique(a: Sector, b: Sector)
    requires |a| == |b| && AllZero(a) && AllZero(b)
    ensures a == b
  {
  }

  /** A pass over untouched sectors leaves the target reading the sources there, whichever way it took. */
  lemma PassCopies(cfg: Config, t: Target, at: nat, buf: seq<Sector>, status: Status, m: int, t1: Target)
    requires ConfigOk(cfg) && |t| == |Goal(cfg)| && at + |buf| <= |t|
    requires WritePass(cfg, t, at, buf, status, m, t1)
    requires Fresh(t, at, at + m) && StatusHolds(cfg, status, at, at + |buf|) && BufferTrue(cfg, at, buf, status)
    ensures Copied(cfg, t1, at, at + m) && Untouched(t, t1, at, at + m)
  {
    hide Joined;
    forall i | at <= i < at + m
      ensures View(cfg, t1, i) == Goal(cfg)[i]
    {
      assert t[i] == None && StatusTrue(cfg, status, i);
      if status == BlkData && MustWrite(cfg, at, buf) {
        assert t1[i] == Some(buf[i - at]);
      } else if status != BlkBackingFile {
        assert AllZero(Goal(cfg)[i]) by {
          if status == BlkData {
            assert AllZero(buf[i - at]);
          }
        }
        if cfg.hasZeroInit {
          ZeroUnique(cfg.under[i], Goal(cfg)[i]);
        } else {
          ZeroUnique(Zeros(m)[i - at], Goal(cfg)[i]);
        }
      }
    }
  }

  /** Source `cur` starts at `offset` of the whole and holds `sector`. */
  predicate PartAt(sources: seq<Source>, cur: nat, offset: nat, sector: nat) {
    && cur < |sources| && offset == |Joined(sources[..cur])|
    && offset <= sector < offset + |sources[cur].content|
  }

  lemma {:induction false} JoinedMore(sources: seq<Source>, k: nat)
    requires k < |sources|
    ensures |Joined(sources[..k + 1])| == |Joined(sources[..k])| + |sources[k].content|
    decreases k
  {
    if k > 0 {
      JoinedMore(sources[1..], k - 1);
      assert sources[..k + 1][1..] == sources[1..][..k] && sources[..k][1..] == sources[1..][..k - 1];
    }
  }

  /** convert_select_part; the source's assertion that a part is found holds for every sector of the whole */
  method SelectPart(sources: seq<Source>, sector: nat) returns (cur: nat, curOffset: nat)
    requires sector < |Joined(sources)|
    ensures cur < |sources| && curOffset <= sector < curOffset + |sources[cur].content| <= |Joined(sources)|
    ensures Joined(sources)[curOffset..curOffset + |sources[cur].content|] == sources[cur].content
    ensures PartAt(sources, cur, curOffset, sector)
  {
    cur, curOffset := 0, 0;
    assert sources[0..] == sources;
    while sector - curOffset >= |sources[cur].content|
      invariant cur < |sources| && curOffset <= sector
      invariant Joined(sources)[curOffset..] == Joined(sources[cur..]) && curOffset == |Joined(sources[..cur])|
      decreases |sources| - cur
    {
      PartTail(sources, cur, curOffset);
      JoinedMore(sources, cur);
      curOffset := curOffset + |sources[cur].content|;
      cur := cur + 1;
    }
    PartTail(sources, cur, curOffset);
  }

  lemma PartTail(sources: seq<Source>, cur: nat, at: nat)
    requires cur < |sources| && at <= |Joined(sources)| && Joined(sources)[at..] == Joined(sources[cur..])
    ensures var e := at + |sources[cur].content|;
            && e <= |Joined(sources)|
            && Joined(sources)[at..e] == sources[cur].content
            && Joined(sources)[e..] == Joined(sources[cur + 1..])
            && (e < |Joined(sources)| ==> cur + 1 < |sources|)
  {
    var all, rest, c := Joined(sources), Joined(sources[cur + 1..]), sources[cur].content;
    assert sources[cur..][1..] == sources[cur + 1..];
    assert all[at..] == c + rest;
    assert all[at..at + |c|] == all[at..][..|c|];
    assert all[at + |c|..] == all[at..][|c|..];
  }

  /** What the source said about the sectors from the one asked for: a failure, or flags for `count` sectors. */
  datatype Answer = NoAnswer | Answer(zero: bool, data: bool, count: nat)

  /** The remembered status is what the answer calls for, and stops short of the answer only to stay aligned. */
  predicate Remembers(cfg: Config, a: Answer, at: nat, n: nat, alignment: nat, pastBacking: bool, status: Status)
    requires alignment > 0
  {
    && a.Answer?
    && (status == BlkZero <==> a.zero && !pastBacking)
    && (status == BlkBackingFile <==> (a.zero && pastBacking) || (!a.zero && !a.data && cfg.hasBacking))
    && n <= a.count < n + alignment && (n == a.count || (at + n) % alignment == 0)
  }

  /** The same, for the source that holds the sector. */
  ghost predicate StatusOf(cfg: Config, a: Answer, sector: nat, n: nat, pastBacking: bool, status: Status)
    requires ConfigOk(cfg)
  {
    exists cur: nat, offset: nat ::
      && PartAt(cfg.sources, cur, offset, sector)
      && Remembers(cfg, a, sector - offset, n, cfg.sources[cur].alignment, pastBacking, status)
  }

  class Converter {
    const cfg: Config
    var status: Status
    var next: int          // first sector the cached status says nothing about
    var target: Target
    ghost var faults: nat  // requests to the block layer that failed

    ghost predicate Valid()
      reads this
    {
      ConfigOk(cfg) && |target| == |Goal(cfg)|
    }

    constructor (config: Config)
      requires ConfigOk(config)
      ensures Valid() && cfg == config && next == 0 && Fresh(target, 0, |target|)
    {
      cfg, status, next, faults := config, BlkData, 0, 0;
      target := seq(|Goal(config)|, _ => None);
    }

    /** bdrv_block_status_above on one source, cut at its end; unallocated sectors read from the backing file. */
    method BlockStatus(sector: nat, n: int, end: nat) returns (ret: int, zero: bool, data: bool, count: int)
      requires Valid() && n > 0 && sector < end <= |Goal(cfg)|
      modifies this`faults
      ensures faults == old(faults) + (if ret < 0 then 1 else 0)
      ensures ret >= 0 ==> 0 < count <= n && sector + count <= end
      ensures ret >= 0 && zero ==> StatusHolds(cfg, BlkZero, sector, sector + count)
      ensures ret >= 0 && !zero && !data && cfg.hasBacking ==>
        StatusHolds(cfg, BlkBackingFile, sector, sector + count)
    {
      if * {
        faults := faults + 1;
        return -5, false, false, 0;
      }
      count :| 0 < count <= n && sector + count <= end;
      if StatusHolds(cfg, BlkZero, sector, sector + count) {
        zero := *;
      } else {
        zero := false;
      }
      if StatusHolds(cfg, BlkBackingFile, sector, sector + count) {
        data := *;
      } else {
        data := true;
      }
      ret := 0;
    }

    /** The uncached half of convert_iteration_sectors: ask for the status and remember it. */
    method RefreshStatus(sector: nat, limit: int, postBackingZero: bool) returns (n: int, ghost answer: Answer)
      requires Valid() && sector < |Goal(cfg)| && limit > 0
      requires postBackingZero ==> 0 <= cfg.backingSectors <= sector
      modifies this`status, this`next, this`faults
      ensures faults == old(faults) + (if n < 0 then 1 else 0)
      ensures n < 0 || (0 < n <= limit && next == sector + n <= |Goal(cfg)| && StatusHolds(cfg, status, sector, next))
      ensures n >= 0 ==> StatusOf(cfg, answer, sector, n, postBackingZero, status)
    {
      hide Joined;
      var cur, curOffset := SelectPart(cfg.sources, sector);
      answer := NoAnswer;
      var ret, zero, data, count := BlockStatus(sector, limit, curOffset + |cfg.sources[cur].content|);
      if ret < 0 {
        return ret, answer;
      }
      answer := Answer(zero, data, count);
      n := count;
      var tail := (sector - curOffset + n) % cfg.sources[cur].alignment;
      if n > tail {
        n := n - tail;
        TailAligned(sector - curOffset + count, cfg.sources[cur].alignment);
      }
      if zero {
        status := if postBackingZero then BlkBackingFile else BlkZero;
        if postBackingZero {
          ZeroIsBacking(cfg, sector, sector + count);
        }
      } else if data {
        status := BlkData;
      } else {
        status := if cfg.hasBacking then BlkBackingFile else BlkData;
      }
      next := sector + n;
    }

    /** convert_iteration_sectors */
    method IterationSectors(sector: nat) returns (n: int)
      requires Valid() && sector < |Goal(cfg)| && StatusHolds(cfg, status, sector, next)
      modifies this`status, this`next, this`faults
      ensures faults == old(faults) + (if n < 0 then 1 else 0)
      ensures n < 0 || NextRange(cfg, sector, n, status, next)
      // compressed images are written in whole clusters
      ensures n >= 0 && cfg.compressed ==> n % cfg.cluster == 0 || sector + n == |Goal(cfg)|
      // requests stay below the limit, and do not cross the end of the target's backing file
      ensures n >= 0 && !cfg.compressed ==>
        n <= BDRV_REQUEST_MAX_SECTORS && (sector < cfg.backingSectors ==> sector + n <= cfg.backingSectors)
      // a status that still covers the sector is not asked for again
      ensures old(next) > sector ==>
        n >= 0 && next == old(next) && (status == old(status) || (cfg.compressed && status == BlkData))
    {
      hide Joined, StatusHolds;
      n := Min(|Goal(cfg)| - sector, BDRV_REQUEST_MAX_SECTORS);
      var postBackingZero := false;
      if cfg.backingSectors >= 0 {
        if sector >= cfg.backingSectors {
          postBackingZero := true;
        } else if sector + n > cfg.backingSectors {
          n := cfg.backingSectors - sector;
        }
      }
      if next <= sector {
        ghost var answer;
        n, answer := RefreshStatus(sector, n, postBackingZero);
        if n < 0 {
          return;
        }
      }
      n := Min(n, next - sector);
      if status == BlkData {
        n := Min(n, cfg.bufSectors);
      }
      SplitStatus(cfg, status, sector, sector + n, next);
      if cfg.compressed {
        if n < cfg.cluster {
          n := Min(cfg.cluster, |Goal(cfg)| - sector);
          OneCluster(cfg.cluster);
          status := BlkData;
          DataHolds(cfg, sector, sector + n, next);
        } else {
          WholeClusters(n, cfg.cluster);
          MultipleMod(n / cfg.cluster, cfg.cluster);
          n := n / cfg.cluster * cfg.cluster;
          SplitStatus(cfg, status, sector, sector + n, next);
        }
      }
    }

    /** convert_co_read, without salvage: the range as it lies across the sources */
    method CoRead(sector: nat, n: nat) returns (ret: int, buf: seq<Sector>)
      requires Valid() && sector + n <= |Goal(cfg)| && n <= cfg.bufSectors
      modifies this`faults
      ensures faults == old(faults) + (if ret < 0 then 1 else 0)
      ensures ret >= 0 ==> BufferTrue(cfg, sector, buf, BlkData) && |buf| == n
    {
      hide Joined;
      var at, left := sector, n;
      buf := [];
      while left > 0
        invariant at + left == sector + n && left >= 0 && |buf| == at - sector
        invariant sector <= at && buf == Goal(cfg)[sector..at] && faults == old(faults)
      {
        var cur, curOffset := SelectPart(cfg.sources, at);
        var part := cfg.sources[cur].content;
        var m := Min(left, |part| - (at - curOffset));
        if * {
          faults := faults + 1;
          return -5, buf;
        }
        PieceOf(Goal(cfg), curOffset, part, at - curOffset, m);
        assert part[at - curOffset..at - curOffset + m] == Goal(cfg)[at..at + m];
        SlicesJoin(Goal(cfg), sector, at, at + m);
        buf := buf + part[at - curOffset..at - curOffset + m];
        at, left := at + m, left - m;
      }
      ret := 0;
    }

    /** One pass of convert_co_write's loop; a failed write may leave its own sectors in any state. */
    method WriteOnce(at: nat, buf: seq<Sector>, st: Status) returns (ret: int, m: nat)
      requires Valid() && buf != [] && at + |buf| <= |target|
      requires st == BlkBackingFile ==> cfg.hasBacking
      modifies this`target, this`faults
      ensures faults == old(faults) + (if ret < 0 then 1 else 0)
      ensures 0 < m <= |buf| && Untouched(old(target), target, at, at + m)
      ensures ret >= 0 ==> WritePass(cfg, old(target), at, buf, st, m, target)
      // what shows through, or is zero anyway, is not written
      ensures st == BlkBackingFile || (st == BlkZero && cfg.hasZeroInit) ==> target == old(target)
      // -S 0 leaves nothing out
      ensures ret >= 0 && st == BlkData && cfg.minSparse == 0 ==> target == Put(old(target), at, buf)
    {
      hide Joined;
      m, ret := |buf|, 0;
      match st {
        case BlkBackingFile =>
          return;
        case BlkData =>
          var write := cfg.minSparse == 0;
          if !write && !cfg.compressed {
            write, m := IsAllocatedSectorsMin(buf, cfg.minSparse, at, cfg.alignment);
          } else if !write {
            write := !ZeroRun(buf, |buf|);
          }
          if write {
            target := Put(target, at, buf[..m]);
            ret := *;
            if ret < 0 {
              faults := faults + 1;
            }
            return;
          }
        case BlkZero =>
      }
      if cfg.hasZeroInit {
        return;
      }
      target := Put(target, at, Zeros(m));
      ret := *;
      if ret < 0 {
        faults := faults + 1;
      }
    }

    /** convert_co_write: a range nobody has written yet reads as the sources afterwards */
    method CoWrite(sector: nat, buf: seq<Sector>, st: Status) returns (ret: int)
      requires Valid() && sector + |buf| <= |target| && Fresh(target, sector, sector + |buf|)
      requires StatusHolds(cfg, st, sector, sector + |buf|) && BufferTrue(cfg, sector, buf, st)
      modifies this`target, this`faults
      ensures faults == old(faults) + (if ret < 0 then 1 else 0)
      ensures Valid() && Untouched(old(target), target, sector, sector + |buf|)
      ensures ret >= 0 ==> Copied(cfg, target, sector, sector + |buf|)
      ensures st == BlkBackingFile || (st == BlkZero && cfg.hasZeroInit) ==> target == old(target)
    {
      hide Joined, WritePass;
      var done := 0;
      while done < |buf|
        invariant 0 <= done <= |buf| && |target| == |old(target)| && faults == old(faults)
        invariant Untouched(old(target), target, sector, sector + done)
        invariant Copied(cfg, target, sector, sector + done)
        invariant st == BlkBackingFile || (st == BlkZero && cfg.hasZeroInit) ==> target == old(target)
      {
        BackingStatus(cfg, st, sector + done, sector + |buf|);
        ghost var before := target;
        var m;
        ret, m := WriteOnce(sector + done, buf[done..], st);
        if ret < 0 {
          return;
        }
        PassCopies(cfg, before, sector + done, buf[done..], st, m, target);
        done := done + m;
      }
      ret := 0;
    }
  }

  lemma TailAligned(x: int, a: int)
    requires a > 0
    ensures (x - x % a) % a == 0 && x % a < a
  {
    MultipleMod(x / a, a);
    assert x - x % a == x / a * a;
  }

  lemma ZeroIsBacking(cfg: Config, from: nat, to: nat)
    requires ConfigOk(cfg) && 0 <= cfg.backingSectors <= from && StatusHolds(cfg, BlkZero, from, to)
    ensures StatusHolds(cfg, BlkBackingFile, from, to)
  {
    hide Joined;
    forall i | 0 <= i < |Goal(cfg)| && from <= i < to
      ensures StatusTrue(cfg, BlkBackingFile, i)
    {
      assert StatusTrue(cfg, BlkZero, i);
      ZeroUnique(Goal(cfg)[i], cfg.under[i]);
    }
  }

  lemma SplitStatus(cfg: Config, status: Status, from: int, mid: int, to: int)
    requires |Goal(cfg)| == |cfg.under| && from <= mid <= to && StatusHolds(cfg, status, from, to)
    ensures StatusHolds(cfg, status, from, mid) && StatusHolds(cfg, status, mid, to)
  {
  }

  lemma DataHolds(cfg: Config, from: int, mid: int, to: int)
    requires |Goal(cfg)| == |cfg.under|
    ensures StatusHolds(cfg, BlkData, from, mid) && StatusHolds(cfg, BlkData, mid, to)
  {
  }

  lemma BackingStatus(cfg: Config, status: Status, i: nat, to: nat)
    requires |Goal(cfg)| == |cfg.under| && i < to <= |Goal(cfg)| && StatusHolds(cfg, status, i, to)
    ensures status == BlkBackingFile ==> cfg.hasBacking
  {
    assert StatusTrue(cfg, status, i);
  }

  lemma OneCluster(c: int)
    requires c > 0
    ensures c % c == 0
  {
    MultipleMod(1, c);
  }

  lemma WholeClusters(n: int, c: int)
    requires 0 < c <= n
    ensures 0 < n / c * c <= n
    ensures n == c ==> n / c * c == n
  {
    assert n / c >= 1;
    MulGrows(1, n / c, c);
  }

  lemma SlicesJoin(all: seq<Sector>, a: nat, b: nat, c: nat)
    requires a <= b <= c <= |all|
    ensures all[a..b] + all[b..c] == all[a..c]
  {
  }

  lemma PieceOf(all: seq<Sector>, at: nat, part: seq<Sector>, from: nat, n: nat)
    requires at + |part| <= |all| && all[at..at + |part|] == part && from + n <= |part|
    ensures all[at + from..at + from + n] == part[from..from + n]
  {
    var got, piece := all[at + from..at + from + n], part[from..from + n];
    forall k | 0 <= k < n
      ensures got[k] == piece[k]
    {
      assert part[from + k] == all[at..at + |part|][from + k];
    }
  }
}
