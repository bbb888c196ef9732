/**
 `qemu-img compare`: deciding whether two images have the same content, for any
 answers of the block-status query that are true of the images.
 */
module ImageCompare {
  import opened ImageBuffers

  const IO_BUF_SIZE := 2 * 1024 * 1024

  /** The bits of a block status that matter here, and the rest. */
  datatype StatusBit = Allocated | Zero | DataBit | OffsetValid | RawBit

  datatype StatusResult = StatusFailed | Status(bits: set<StatusBit>, pnum: nat)

  /** An image as the tool sees it: content, block status, and which reads fail. */
  datatype Image = Image(content: seq<byte>, status: (nat, nat) -> StatusResult, readable: (nat, nat) -> bool)

  /** Byte `i` of the image extended with zeroes. */
  function At(img: Image, i: nat): byte {
    if i < |img.content| then img.content[i] else 0
  }

  ghost predicate SameContent(a: Image, b: Image) {
    forall i: nat :: At(a, i) == At(b, i)
  }

  /** Status answers cover a non-empty part of the query; a zero or unallocated part reads as zeroes. */
  ghost predicate Truthful(img: Image) {
    forall off: nat, n: nat :: n > 0 && off + n <= |img.content| && img.status(off, n).Status? ==>
      var st := img.status(off, n);
      && 0 < st.pnum <= n
      && (Zero in st.bits || Allocated !in st.bits ==> AllZero(img.content[off..off + st.pnum]))
  }

  ghost predicate QueriesWork(img: Image) {
    forall off: nat, n: nat :: img.status(off, n).Status?
  }

  ghost predicate ReadsWork(img: Image) {
    forall off: nat, n: nat :: img.readable(off, n)
  }

  /** No query and no read fails. */
  ghost predicate Healthy(img: Image) {
    QueriesWork(img) && ReadsWork(img)
  }

  /** A part of the disk dealt with in one round. */
  datatype Part = Part(offset: nat, bytes: nat)

  /** The parts follow each other without gap or overlap from `from` to `to`. */
  predicate Contiguous(parts: seq<Part>, from: nat, to: nat) {
    if parts == [] then from == to
    else
      var last := parts[|parts| - 1];
      last.bytes > 0 && last.offset + last.bytes == to && Contiguous(parts[..|parts| - 1], from, last.offset)
  }

  lemma ContiguousMore(parts: seq<Part>, from: nat, to: nat, bytes: nat)
    requires Contiguous(parts, from, to) && bytes > 0
    ensures Contiguous(parts + [Part(to, bytes)], from, to + bytes)
  {
    assert (parts + [Part(to, bytes)])[..|parts|] == parts;
  }

  /** Every position between the ends lies in one of the parts. */
  lemma {:induction false} ContiguousCovers(parts: seq<Part>, from: nat, to: nat, i: nat) returns (k: nat)
    requires Contiguous(parts, from, to) && from <= i < to
    ensures k < |parts| && parts[k].offset <= i < parts[k].offset + parts[k].bytes
  {
    k := |parts| - 1;
    if i < parts[k].offset {
      k := ContiguousCovers(parts[..k], from, parts[k].offset, i);
    }
  }

  /** What the image answers when asked from `off` to its end. */
  function Ask(img: Image, off: nat): StatusResult
    requires off < |img.content|
  {
    img.status(off, |img.content| - off)
  }

  /** An image with status `own` is read unless it is unallocated or both sides are known to be zero. */
  predicate MustRead(own: set<StatusBit>, other: set<StatusBit>) {
    Allocated in own && !(Zero in own && Zero in other)
  }

  predicate ReadOk(img: Image, must: bool, p: Part) {
    must ==> img.readable(p.offset, p.bytes) && p.bytes <= IO_BUF_SIZE
  }

  /** Both images were asked about the part, read where that is needed, and in strict mode have the same status. */
  predicate Compared(a: Image, b: Image, strict: bool, p: Part) {
    && p.offset < |a.content| && p.offset < |b.content|
    && var st1, st2 := Ask(a, p.offset), Ask(b, p.offset);
    && st1.Status? && st2.Status? && p.bytes <= Min(st1.pnum, st2.pnum)
    && ReadOk(a, MustRead(st1.bits, st2.bits), p) && ReadOk(b, MustRead(st2.bits, st1.bits), p)
    && (strict ==> st1.bits == st2.bits)
  }

  /** The longer image was asked about the part, and read unless it is unallocated or known to be zero. */
  predicate TailCompared(over: Image, p: Part) {
    && p.offset < |over.content|
    && var st := Ask(over, p.offset);
    && st.Status? && p.bytes <= st.pnum
    && ReadOk(over, Allocated in st.bits && Zero !in st.bits, p)
  }

  /** check_empty_sectors: 0 for zeroes, 1 for a non-zero byte, 4 for a failed read */
  method CheckEmptySectors(img: Image, offset: nat, bytes: nat) returns (ret: int)
    requires offset + bytes <= |img.content|
    ensures ret == 4 <==> !img.readable(offset, bytes)
    ensures ret != 4 ==> ret == if AllZero(img.content[offset..offset + bytes]) then 0 else 1
  {
    if !img.readable(offset, bytes) {
      return 4;
    }
    var idx := FindNonzero(img.content[offset..offset + bytes]);
    return if idx >= 0 then 1 else 0;
  }

  /** The images agree up to `n`. */
  ghost predicate AgreeTo(a: Image, b: Image, n: nat) {
    forall i: nat :: i < n ==> At(a, i) == At(b, i)
  }

  lemma AgreeFurther(a: Image, b: Image, n: nat, m: nat)
    requires AgreeTo(a, b, n) && n <= m <= |a.content| && m <= |b.content|
    requires a.content[n..m] == b.content[n..m]
    ensures AgreeTo(a, b, m)
  {
    forall i: nat | i < m
      ensures At(a, i) == At(b, i)
    {
      if i >= n {
        assert a.content[n..m][i - n] == b.content[n..m][i - n];
      }
    }
  }

  lemma ZeroAgree(s: seq<byte>, t: seq<byte>)
    requires |s| == |t| && AllZero(s)
    ensures s == t <==> AllZero(t)
  {
  }

  lemma Disagree(a: Image, b: Image, n: nat, m: nat)
    requires n <= m <= |a.content| && m <= |b.content|
    requires a.content[n..m] != b.content[n..m]
    ensures !SameContent(a, b)
  {
    var k :| 0 <= k < m - n && a.content[n..m][k] != b.content[n..m][k];
    assert At(a, n + k) != At(b, n + k);
  }

  /** One round of the main loop: the part [offset, offset + chunk) is equal, or the verdict is in `ret`. */
  method CompareRange(a: Image, b: Image, offset: nat, chunk0: nat, bits1: set<StatusBit>, bits2: set<StatusBit>)
    returns (ret: int, chunk: nat)
    requires 0 < chunk0 && offset + chunk0 <= |a.content| && offset + chunk0 <= |b.content|
    requires Zero in bits1 || Allocated !in bits1 ==> AllZero(a.content[offset..offset + chunk0])
    requires Zero in bits2 || Allocated !in bits2 ==> AllZero(b.content[offset..offset + chunk0])
    ensures 0 < chunk <= chunk0
    ensures ret in {0, 1, 4}
    ensures ret == 4 ==> !(ReadsWork(a) && ReadsWork(b))
    ensures ret == 0 ==>
      ReadOk(a, MustRead(bits1, bits2), Part(offset, chunk)) && ReadOk(b, MustRead(bits2, bits1), Part(offset, chunk))
    ensures ret == 0 ==> a.content[offset..offset + chunk] == b.content[offset..offset + chunk]
    ensures ret == 1 ==> a.content[offset..offset + chunk] != b.content[offset..offset + chunk]
  {
    chunk := chunk0;
    ret := 0;
    if Zero in bits1 && Zero in bits2 {
      ZeroAgree(a.content[offset..offset + chunk], b.content[offset..offset + chunk]);
    } else if (Allocated in bits1) == (Allocated in bits2) {
      if Allocated in bits1 {
        chunk := Min(chunk, IO_BUF_SIZE);
        if !a.readable(offset, chunk) || !b.readable(offset, chunk) {
          return 4, chunk;
        }
        var differ, pnum := CompareBuffers(a.content[offset..offset + chunk], b.content[offset..offset + chunk], 0);
        if differ || pnum != chunk {
          return 1, chunk;
        }
      } else {
        ZeroAgree(a.content[offset..offset + chunk], b.content[offset..offset + chunk]);
      }
    } else {
      chunk := Min(chunk, IO_BUF_SIZE);
      if Allocated in bits1 {
        PrefixZero(b.content, offset, chunk0, chunk);
        ZeroAgree(b.content[offset..offset + chunk], a.content[offset..offset + chunk]);
        ret := CheckEmptySectors(a, offset, chunk);
      } else {
        PrefixZero(a.content, offset, chunk0, chunk);
        ZeroAgree(a.content[offset..offset + chunk], b.content[offset..offset + chunk]);
        ret := CheckEmptySectors(b, offset, chunk);
      }
    }
  }

  lemma PrefixZero(s: seq<byte>, off: nat, n: nat, m: nat)
    requires off + n <= |s| && m <= n && AllZero(s[off..off + n])
    ensures AllZero(s[off..off + m])
  {
    var long, short := s[off..off + n], s[off..off + m];
    forall i | 0 <= i < m
      ensures short[i] == 0
    {
      assert short[i] == long[i];
    }
  }

  /** Where the longer image is zero it agrees with the end of the shorter one. */
  lemma ZeroTail(over: Image, other: Image, n: nat, m: nat)
    requires |other.content| <= n <= m <= |over.content| && AgreeTo(over, other, n) && AllZero(over.content[n..m])
    ensures AgreeTo(over, other, m)
  {
    var tail := over.content[n..m];
    forall i: nat | i < m
      ensures At(over, i) == At(other, i)
    {
      if i >= n {
        assert tail[i - n] == 0;
      }
    }
  }

  /** The parts of the tail compared up to `to`. */
  predicate TailTo(over: Image, parts: seq<Part>, from: nat, to: nat) {
    Contiguous(parts, from, to) && forall k :: 0 <= k < |parts| ==> TailCompared(over, parts[k])
  }

  lemma TailMore(over: Image, parts: seq<Part>, from: nat, to: nat, bytes: nat)
    requires TailTo(over, parts, from, to) && bytes > 0 && TailCompared(over, Part(to, bytes))
    ensures TailTo(over, parts + [Part(to, bytes)], from, to + bytes)
  {
    ContiguousMore(parts, from, to, bytes);
  }

  lemma AgreeToEnd(a: Image, b: Image)
    requires AgreeTo(a, b, Max(|a.content|, |b.content|))
    ensures SameContent(a, b)
  {
  }

  /** The tail of the longer image, after the end of the shorter one. */
  method CompareTail(over: Image, other: Image, from: nat) returns (ret: int, ghost parts: seq<Part>)
    requires from == |other.content| <= |over.content| && Truthful(over) && AgreeTo(over, other, from)
    ensures ret in {0, 1, 3, 4}
    ensures ret == 0 ==> SameContent(over, other)
    ensures ret == 1 ==> !SameContent(over, other)
    ensures ret == 3 ==> !QueriesWork(over)
    ensures ret == 4 ==> !ReadsWork(over)
    ensures ret == 0 ==> TailTo(over, parts, from, |over.content|)
  {
    hide TailTo, AgreeTo, SameContent, AllZero, Truthful, Contiguous;
    var offset := from;
    var size := |over.content|;
    parts := [];
    assert TailTo(over, [], from, from) by {
      NoParts(over, from);
    }
    while offset < size
      invariant from <= offset <= size && AgreeTo(over, other, offset)
      invariant TailTo(over, parts, from, offset)
    {
      var st := over.status(offset, size - offset);
      if st.StatusFailed? {
        return 3, parts;
      }
      KnownZero(over, offset, st.pnum);
      var chunk := st.pnum;
      if Allocated in st.bits && Zero !in st.bits {
        chunk := Min(chunk, IO_BUF_SIZE);
        ret := CheckEmptySectors(over, offset, chunk);
        if ret != 0 {
          if ret == 1 {
            NonzeroTail(over, other, offset, offset + chunk);
          }
          return;
        }
      }
      ZeroTail(over, other, offset, offset + chunk);
      TailMore(over, parts, from, offset, chunk);
      parts := parts + [Part(offset, chunk)];
      offset := offset + chunk;
    }
    AgreeToEnd(over, other);
    return 0, parts;
  }

  lemma NoParts(over: Image, from: nat)
    ensures TailTo(over, [], from, from)
  {
  }

  lemma NonzeroTail(over: Image, other: Image, n: nat, m: nat)
    requires |other.content| <= n <= m <= |over.content| && !AllZero(over.content[n..m])
    ensures !SameContent(over, other)
  {
    var k :| 0 <= k < m - n && over.content[n..m][k] != 0;
    assert At(over, n + k) != At(other, n + k);
  }

  /** Asked from `off` on, both images answer, but not alike. */
  predicate StatusDiffersAt(a: Image, b: Image, off: nat) {
    && off < |a.content| && off < |b.content|
    && Ask(a, off).Status? && Ask(b, off).Status? && Ask(a, off).bits != Ask(b, off).bits
  }

  /** The parts compared up to `to`. */
  predicate ComparedTo(a: Image, b: Image, strict: bool, parts: seq<Part>, to: nat) {
    Contiguous(parts, 0, to) && forall k :: 0 <= k < |parts| ==> Compared(a, b, strict, parts[k])
  }

  /** The reason for ending the main loop at `stop`, tested in this order. */
  ghost predicate StopsFor(a: Image, b: Image, strict: bool, stop: nat, ret: int)
    requires stop < |a.content| && stop < |b.content|
  {
    if Ask(a, stop).StatusFailed? || Ask(b, stop).StatusFailed? then ret == 3
    else if strict && StatusDiffersAt(a, b, stop) then ret == 1
    else ret == 4 || (ret == 1 && !SameContent(a, b))
  }

  lemma ComparedMore(a: Image, b: Image, strict: bool, parts: seq<Part>, to: nat, bytes: nat)
    requires ComparedTo(a, b, strict, parts, to) && bytes > 0 && Compared(a, b, strict, Part(to, bytes))
    ensures ComparedTo(a, b, strict, parts + [Part(to, bytes)], to + bytes)
  {
    ContiguousMore(parts, 0, to, bytes);
  }

  /**
   img_compare after the images are open: 0 identical, 1 different, 3 or 4 an
   error.  `parts` are the rounds of the main loop, `stop` is where it ended, and
   `tail` are the rounds over the rest of the longer image.
   */
  method ImgCompare(a: Image, b: Image, strict: bool)
    returns (ret: int, ghost parts: seq<Part>, ghost stop: nat, ghost tail: seq<Part>)
    requires Truthful(a) && Truthful(b)
    ensures ret in {0, 1, 3, 4}
    ensures ret == 3 ==> !(QueriesWork(a) && QueriesWork(b))
    ensures ret == 4 ==> !(ReadsWork(a) && ReadsWork(b))
    ensures ret == 0 ==> SameContent(a, b) && (strict ==> |a.content| == |b.content|)
    ensures ret == 1 && !strict ==> !SameContent(a, b)
    ensures strict && |a.content| != |b.content| ==> ret == 1
    ensures stop <= |a.content| && stop <= |b.content| && ComparedTo(a, b, strict, parts, stop)
    ensures ret == 0 ==> stop == Min(|a.content|, |b.content|)
    ensures stop < |a.content| && stop < |b.content| ==>
      (strict && |a.content| != |b.content|) || StopsFor(a, b, strict, stop, ret)
    ensures ret == 0 && |a.content| > stop ==> TailTo(a, tail, stop, |a.content|)
    ensures ret == 0 && |b.content| > stop ==> TailTo(b, tail, stop, |b.content|)
    ensures ret == 1 && strict && |a.content| == |b.content| ==> !SameContent(a, b) || StatusDiffersAt(a, b, stop)
  {
    hide ComparedTo, TailTo, AgreeTo, SameContent, AllZero, Truthful, Contiguous, MustRead, ReadOk;
    var size1, size2 := |a.content|, |b.content|;
    var total := Min(size1, size2);
    parts, stop, tail := [], 0, [];
    NothingYet(a, b, strict);
    if strict && size1 != size2 {
      return 1, parts, stop, tail;
    }
    var offset := 0;
    while offset < total
      invariant 0 <= offset == stop <= total && AgreeTo(a, b, offset)
      invariant ComparedTo(a, b, strict, parts, offset)
    {
      var st1 := a.status(offset, size1 - offset);
      if st1.StatusFailed? {
        return 3, parts, stop, tail;
      }
      var st2 := b.status(offset, size2 - offset);
      if st2.StatusFailed? {
        return 3, parts, stop, tail;
      }
      var chunk := Min(st1.pnum, st2.pnum);
      if strict && st1.bits != st2.bits {
        return 1, parts, stop, tail;
      }
      KnownZero(a, offset, chunk);
      KnownZero(b, offset, chunk);
      ret, chunk := CompareRange(a, b, offset, chunk, st1.bits, st2.bits);
      if ret != 0 {
        if ret == 1 {
          Disagree(a, b, offset, offset + chunk);
        }
        return;
      }
      AgreeFurther(a, b, offset, offset + chunk);
      ComparedMore(a, b, strict, parts, offset, chunk);
      parts, stop := parts + [Part(offset, chunk)], offset + chunk;
      offset := offset + chunk;
    }
    if size1 != size2 {
      if size1 > size2 {
        ret, tail := CompareTail(a, b, offset);
      } else {
        AgreeSwaps(a, b, offset);
        ret, tail := CompareTail(b, a, offset);
        AgreeSwaps(b, a, offset);
      }
    } else {
      AgreeToEnd(a, b);
      ret := 0;
    }
  }

  lemma NothingYet(a: Image, b: Image, strict: bool)
    ensures AgreeTo(a, b, 0) && ComparedTo(a, b, strict, [], 0)
  {
  }

  lemma AgreeSwaps(a: Image, b: Image, n: nat)
    ensures AgreeTo(a, b, n) ==> AgreeTo(b, a, n)
    ensures SameContent(a, b) == SameContent(b, a)
  {
  }

  /** What a truthful status says about a part of what it covers. */
  lemma KnownZero(img: Image, offset: nat, chunk: nat)
    requires Truthful(img) && offset < |img.content| && Ask(img, offset).Status? && chunk <= Ask(img, offset).pnum
    ensures Ask(img, offset).pnum > 0 && offset + chunk <= |img.content|
    ensures Zero in Ask(img, offset).bits || Allocated !in Ask(img, offset).bits ==>
      AllZero(img.content[offset..offset + chunk])
  {
    var st := Ask(img, offset);
    if Zero in st.bits || Allocated !in st.bits {
      PrefixZero(img.content, offset, st.pnum, chunk);
    }
  }

  /** Without errors and without -s, the exit status says exactly whether the zero-extended contents are equal. */
  method CompareDecides(a: Image, b: Image) returns (ret: int)
    requires Truthful(a) && Truthful(b) && Healthy(a) && Healthy(b)
    ensures ret == if SameContent(a, b) then 0 else 1
  {
    ghost var parts, stop, tail;
    ret, parts, stop, tail := ImgCompare(a, b, false);
  }

  /** The block status is a property of the byte: it is the same wherever in an extent one asks. */
  ghost predicate Coherent(img: Image) {
    forall off: nat, i: nat :: off <= i < |img.content| && Ask(img, off).Status? && i < off + Ask(img, off).pnum ==>
      Ask(img, i).Status? && Ask(img, i).bits == Ask(img, off).bits
  }

  /** The same status for every byte. */
  ghost predicate SameStatus(a: Image, b: Image) {
    forall i: nat :: i < |a.content| && i < |b.content| ==> !StatusDiffersAt(a, b, i)
  }

  /** Equal status at the start of every part is equal status everywhere. */
  lemma PartsShowStatus(a: Image, b: Image, parts: seq<Part>)
    requires Coherent(a) && Coherent(b)
    requires ComparedTo(a, b, true, parts, Min(|a.content|, |b.content|))
    ensures SameStatus(a, b)
  {
    hide Contiguous;
    forall i: nat | i < |a.content| && i < |b.content|
      ensures !StatusDiffersAt(a, b, i)
    {
      var k := ContiguousCovers(parts, 0, Min(|a.content|, |b.content|), i);
      assert Compared(a, b, true, parts[k]);
    }
  }

  /**
   Without errors, -s accepts exactly images of equal size and content whose
   block status is the same everywhere.
   */
  method StrictDecides(a: Image, b: Image) returns (ret: int)
    requires Truthful(a) && Truthful(b) && Healthy(a) && Healthy(b) && Coherent(a) && Coherent(b)
    ensures ret == if |a.content| == |b.content| && SameContent(a, b) && SameStatus(a, b) then 0 else 1
  {
    ghost var parts, stop, tail;
    ret, parts, stop, tail := ImgCompare(a, b, true);
    if ret == 0 {
      PartsShowStatus(a, b, parts);
    }
  }
}
