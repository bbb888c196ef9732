/**
 The word transport of the TPM firmware: a command is packed big-endian into
 32-bit words with zero padding; a response is unpacked from words under the
 control of the size field of its header.
 */
module TpmTransport {

  const TWO32 := 0x1_0000_0000
  const HEADER := 12

  type byte = x: int | 0 <= x < 256
  type word = x: int | 0 <= x < TWO32

  datatype Status = Idle | Receiving | Processing | Sending

  /** The 32-bit expression `(n + 3) & ~3`. */
  function Padded(n: int): int
    requires 0 <= n < TWO32
  {
    (n + 3) % TWO32 / 4 * 4
  }

  lemma PaddedIs(n: int)
    requires 0 <= n < TWO32
    ensures Padded(n) == if n <= 0xFFFF_FFFC then 4 * WordsFor(n) else 0
  {
  }

  function WordsFor(n: nat): nat {
    (n + 3) / 4
  }

  function ByteOr0(bytes: seq<byte>, i: nat): byte {
    if i < |bytes| then bytes[i] else 0
  }

  function Join(b0: byte, b1: byte, b2: byte, b3: byte): word {
    b0 * 0x100_0000 + b1 * 0x1_0000 + b2 * 0x100 + b3
  }

  /** Byte `k` of a word, most significant first. */
  function Part(w: word, k: int): byte
    requires 0 <= k < 4
  {
    if k == 0 then w / 0x100_0000
    else if k == 1 then w / 0x1_0000 % 256
    else if k == 2 then w / 0x100 % 256
    else w % 256
  }

  lemma PartOfJoin(b0: byte, b1: byte, b2: byte, b3: byte)
    ensures var w := Join(b0, b1, b2, b3);
            Part(w, 0) == b0 && Part(w, 1) == b1 && Part(w, 2) == b2 && Part(w, 3) == b3
  {
    DivMod(b0, b1 * 0x1_0000 + b2 * 0x100 + b3, 0x100_0000);
    DivMod(b0 * 0x100 + b1, b2 * 0x100 + b3, 0x1_0000);
    DivMod(b0, b1, 0x100);
    DivMod(b0 * 0x1_0000 + b1 * 0x100 + b2, b3, 0x100);
    DivMod(b0 * 0x100 + b1, b2, 0x100);
  }

  lemma DivMod(q: int, r: int, d: int)
    requires 0 <= r < d
    ensures (q * d + r) / d == q && (q * d + r) % d == r
  {
    var n := q * d + r;
    UniqueQuotient(q, r, n / d, n % d, d);
  }

  lemma UniqueQuotient(q: int, r: int, x: int, y: int, d: int)
    requires q * d + r == x * d + y && 0 <= r < d && 0 <= y < d
    ensures q == x && r == y
  {
    if q > x {
      MulAtLeast(q - x, d);
    } else if x > q {
      MulAtLeast(x - q, d);
    }
  }

  lemma MulAtLeast(a: int, d: int)
    requires a >= 1 && d >= 1
    ensures a * d >= d
  {
  }

  /** What a command or response looks like on the data register. */
  function Pack(bytes: seq<byte>): (words: seq<word>)
    ensures |words| == WordsFor(|bytes|)
  {
    seq(WordsFor(|bytes|), i requires 0 <= i =>
        Join(ByteOr0(bytes, 4 * i), ByteOr0(bytes, 4 * i + 1), ByteOr0(bytes, 4 * i + 2), ByteOr0(bytes, 4 * i + 3)))
  }

  /** Byte `i` of the stream the words form. */
  function StreamByte(data: nat -> word, from: nat, i: nat): byte {
    Part(data(from + i / 4), i % 4)
  }

  /** The device sends `bytes`: its data register yields the packed words from position `from` on. */
  ghost predicate Sends(data: nat -> word, from: nat, bytes: seq<byte>) {
    forall i: nat :: i < WordsFor(|bytes|) ==> data(from + i) == Pack(bytes)[i]
  }

  /** Unpacking undoes packing, padding included. */
  lemma StreamOfPacked(data: nat -> word, from: nat, bytes: seq<byte>, i: nat)
    requires Sends(data, from, bytes) && i < 4 * WordsFor(|bytes|)
    ensures StreamByte(data, from, i) == ByteOr0(bytes, i)
  {
    var q, r := i / 4, i % 4;
    assert i == 4 * q + r;
    assert data(from + q) == Pack(bytes)[q];
    PartOfJoin(ByteOr0(bytes, 4 * q), ByteOr0(bytes, 4 * q + 1), ByteOr0(bytes, 4 * q + 2), ByteOr0(bytes, 4 * q + 3));
  }

  /** The number whose digits these are, most significant first. */
  function Value(digits: seq<int>, base: int): int {
    if digits == [] then 0 else Value(digits[..|digits| - 1], base) * base + digits[|digits| - 1]
  }

  lemma ValueMore(digits: seq<int>, d: int, base: int)
    ensures Value(digits + [d], base) == Value(digits, base) * base + d
  {
    assert (digits + [d])[..|digits|] == digits;
  }

  lemma JoinOfParts(w: word)
    ensures Join(Part(w, 0), Part(w, 1), Part(w, 2), Part(w, 3)) == w
  {
    assert w == w / 0x100 * 0x100 + w % 0x100;
    assert w / 0x100 == w / 0x1_0000 * 0x100 + w / 0x100 % 0x100;
    assert w / 0x1_0000 == w / 0x100_0000 * 0x100 + w / 0x1_0000 % 0x100;
  }

  /** Each word is four of the bytes, the first of them in its highest place. */
  predicate Spells(words: seq<word>, bytes: seq<byte>) {
    && |bytes| == 4 * |words|
    && forall i :: 0 <= i < |words| ==>
         words[i] == Join(bytes[4 * i], bytes[4 * i + 1], bytes[4 * i + 2], bytes[4 * i + 3])
  }

  lemma FourBytes(bytes: seq<byte>, b0: byte, b1: byte, b2: byte, b3: byte)
    ensures Value(bytes + [b0, b1, b2, b3], 0x100) ==
      Value(bytes, 0x100) * TWO32 + Join(b0, b1, b2, b3)
  {
    var all := bytes + [b0] + [b1] + [b2] + [b3];
    assert bytes + [b0, b1, b2, b3] == all;
    ValueMore(bytes, b0, 0x100);
    ValueMore(bytes + [b0], b1, 0x100);
    ValueMore(bytes + [b0] + [b1], b2, 0x100);
    ValueMore(bytes + [b0] + [b1] + [b2], b3, 0x100);
  }

  /** Words that spell bytes are the same number, in base 2^32 and in base 256. */
  lemma {:induction false} SpellsValue(words: seq<word>, bytes: seq<byte>)
    requires Spells(words, bytes)
    ensures Value(words, TWO32) == Value(bytes, 0x100)
  {
    if words != [] {
      var k := |words| - 1;
      SpellsValue(words[..k], bytes[..4 * k]);
      assert bytes == bytes[..4 * k] + [bytes[4 * k], bytes[4 * k + 1], bytes[4 * k + 2], bytes[4 * k + 3]];
      FourBytes(bytes[..4 * k], bytes[4 * k], bytes[4 * k + 1], bytes[4 * k + 2], bytes[4 * k + 3]);
    }
  }

  /** The message with zeroes up to a whole number of words. */
  function ZeroPadded(bytes: seq<byte>): (r: seq<byte>)
    ensures |r| == 4 * WordsFor(|bytes|) && bytes <= r
  {
    bytes + seq(4 * WordsFor(|bytes|) - |bytes|, _ => 0)
  }

  /** A packed message is the number its padded bytes are. */
  lemma PackValue(bytes: seq<byte>)
    ensures Value(Pack(bytes), TWO32) == Value(ZeroPadded(bytes), 0x100)
  {
    var words, padded := Pack(bytes), ZeroPadded(bytes);
    forall i | 0 <= i < |words|
      ensures words[i] == Join(padded[4 * i], padded[4 * i + 1], padded[4 * i + 2], padded[4 * i + 3])
    {
      assert padded[4 * i] == ByteOr0(bytes, 4 * i) && padded[4 * i + 1] == ByteOr0(bytes, 4 * i + 1);
      assert padded[4 * i + 2] == ByteOr0(bytes, 4 * i + 2) && padded[4 * i + 3] == ByteOr0(bytes, 4 * i + 3);
    }
    SpellsValue(words, padded);
  }

  /** The words the device yields from position `from` on. */
  function Words(data: nat -> word, from: nat, k: nat): (words: seq<word>)
    ensures |words| == k
  {
    seq(k, i requires 0 <= i => data(from + i))
  }

  /** What dropping `n` of the four bytes of a word divides by. */
  function Power(n: nat): (p: int)
    requires n < 4
    ensures p > 0
  {
    if n == 0 then 1 else if n == 1 then 0x100 else if n == 2 then 0x1_0000 else 0x100_0000
  }

  /** The bytes are the leading ones of what the device yields from `from` on, most significant first. */
  ghost predicate Leading(bytes: seq<byte>, data: nat -> word, from: nat) {
    var k := WordsFor(|bytes|);
    Value(bytes, 0x100) == Value(Words(data, from, k), TWO32) / Power(4 * k - |bytes|)
  }

  lemma CutLast(bytes: seq<byte>, m: nat)
    requires m <= |bytes| < m + 4
    ensures Value(bytes[..m], 0x100) == Value(bytes, 0x100) / Power(|bytes| - m)
  {
    hide Value;
    var n, v := |bytes| - m, Value(bytes[..m], 0x100);
    assert bytes[..|bytes|] == bytes;
    if n == 1 {
      OneByte(bytes, m);
      DivMod(v, bytes[m], 0x100);
    } else if n == 2 {
      OneByte(bytes, m);
      OneByte(bytes, m + 1);
      DivMod(v, 0x100 * bytes[m] as int + bytes[m + 1], 0x1_0000);
    } else if n == 3 {
      OneByte(bytes, m);
      OneByte(bytes, m + 1);
      OneByte(bytes, m + 2);
      DivMod(v, 0x1_0000 * bytes[m] as int + 0x100 * bytes[m + 1] as int + bytes[m + 2], 0x100_0000);
    }
  }

  lemma OneByte(bytes: seq<byte>, m: nat)
    requires m < |bytes|
    ensures Value(bytes[..m + 1], 0x100) == Value(bytes[..m], 0x100) * 0x100 + bytes[m]
  {
    assert bytes[..m + 1] == bytes[..m] + [bytes[m]];
    ValueMore(bytes[..m], bytes[m], 0x100);
  }

  /** Bytes taken off the stream are the leading bytes of the words. */
  lemma StreamLeads(data: nat -> word, from: nat, bytes: seq<byte>)
    requires forall i :: 0 <= i < |bytes| ==> bytes[i] == StreamByte(data, from, i)
    ensures Leading(bytes, data, from)
  {
    hide Value, Join, Part, Power;
    var k := WordsFor(|bytes|);
    var all: seq<byte> := seq(4 * k, i requires 0 <= i => StreamByte(data, from, i));
    var words := Words(data, from, k);
    forall i: nat | i < k
      ensures words[i] == Join(all[4 * i], all[4 * i + 1], all[4 * i + 2], all[4 * i + 3])
    {
      JoinOfParts(words[i]);
      StreamWord(data, from, i, 0);
      StreamWord(data, from, i, 1);
      StreamWord(data, from, i, 2);
      StreamWord(data, from, i, 3);
    }
    SpellsValue(words, all);
    assert all[..|bytes|] == bytes;
    CutLast(all, |bytes|);
  }

  /** What the firmware stores to the device. */
  datatype Store = Request | Data(value: word) | Execute

  /** One store to the data register for each word. */
  function DataStores(words: seq<word>): (r: seq<Store>)
    ensures |r| == |words|
  {
    seq(|words|, i requires 0 <= i < |words| => Data(words[i]))
  }

  lemma DataStoresNext(words: seq<word>, k: nat)
    requires k < |words|
    ensures DataStores(words[..k + 1]) == DataStores(words[..k]) + [Data(words[k])]
  {
  }

  lemma PackAt(bytes: seq<byte>, k: nat)
    requires k < WordsFor(|bytes|)
    ensures Pack(bytes)[k] ==
      Join(ByteOr0(bytes, 4 * k), ByteOr0(bytes, 4 * k + 1), ByteOr0(bytes, 4 * k + 2), ByteOr0(bytes, 4 * k + 3))
  {
  }

  /** The memory-mapped device: every read of a register sees its next value. */
  class TpmDevice {
    var stores: seq<Store>          // stores to the control, data and command registers, in order
    var taken: nat                  // reads of the data register so far
    var polls: nat                  // reads of the status register so far
    const data: nat -> word
    const status: nat -> Status

    constructor (data: nat -> word, status: nat -> Status)
      ensures stores == [] && taken == 0 && polls == 0
      ensures this.data == data && this.status == status
    {
      this.data, this.status := data, status;
      stores, taken, polls := [], 0, 0;
    }

    method Write(store: Store)
      modifies this`stores
      ensures stores == old(stores) + [store]
    {
      stores := stores + [store];
    }

    method ReadData() returns (w: word)
      modifies this`taken
      ensures taken == old(taken) + 1 && w == data(old(taken))
    {
      w := data(taken);
      taken := taken + 1;
    }

    method ReadStatus() returns (s: Status)
      modifies this`polls
      ensures polls == old(polls) + 1 && s == status(old(polls))
    {
      s := status(polls);
      polls := polls + 1;
    }
  }

  /**
   tpm_send_command: between the request and the order to execute, the whole
   command reaches the device unless padding its length overflows 32 bits.
   Read as one number, most significant first, the words are the padded bytes.
   */
  method SendCommand(dev: TpmDevice, cmd: array<byte>, len: int) returns (ghost words: seq<word>)
    requires 0 <= len <= cmd.Length && len < TWO32
    modifies dev`stores
    ensures dev.stores == old(dev.stores) + [Request] + DataStores(words) + [Execute]
    ensures len <= 0xFFFF_FFFC ==> |words| == WordsFor(len) && words == Pack(cmd[..len])
    ensures len <= 0xFFFF_FFFC ==> Value(words, TWO32) == Value(ZeroPadded(cmd[..len]), 0x100)
    ensures len > 0xFFFF_FFFC ==> words == []
  {
    hide Value, Pack, ZeroPadded, DataStores, Join;
    dev.Write(Request);
    var padded := Padded(len);
    PaddedIs(len);
    ghost var packed := Pack(cmd[..len]);
    var i := 0;
    ghost var k := 0;
    assert DataStores(packed[..0]) == [];
    while i < padded
      invariant 0 <= i <= padded && i == 4 * k
      invariant k <= |packed| && dev.stores == old(dev.stores) + [Request] + DataStores(packed[..k])
    {
      var b0, b1, b2, b3 := 0, 0, 0, 0;
      if i + 0 < len { b0 := cmd[i + 0]; }
      if i + 1 < len { b1 := cmd[i + 1]; }
      if i + 2 < len { b2 := cmd[i + 2]; }
      if i + 3 < len { b3 := cmd[i + 3]; }
      PackAt(cmd[..len], k);
      DataStoresNext(packed, k);
      dev.Write(Data(Join(b0, b1, b2, b3)));
      i, k := i + 4, k + 1;
    }
    words := packed[..k];
    assert len <= 0xFFFF_FFFC ==> words == packed;
    PackValue(cmd[..len]);
    dev.Write(Execute);
  }

  /** The first status other than PROCESSING is at position `ready`. */
  ghost predicate WaitEnds(status: nat -> Status, from: nat, ready: nat) {
    && from <= ready && status(ready) != Processing
    && forall k: nat :: from <= k < ready ==> status(k) == Processing
  }

  /** What the words after `from` say the response size is. */
  function AnnouncedSize(data: nat -> word, from: nat): word {
    Join(StreamByte(data, from, 2), StreamByte(data, from, 3), StreamByte(data, from, 4), StreamByte(data, from, 5))
  }

  ghost predicate StaysSending(status: nat -> Status, from: nat) {
    forall k: nat :: k >= from ==> status(k) == Sending
  }

  function Min(a: int, b: int): int {
    if a < b then a else b
  }

  function Max(a: int, b: int): int {
    if a < b then b else a
  }

  /** Store byte `k` of `w` at position `at + k` for every `k` with `at + k` below `limit`. */
  method StoreWord(resp: array<byte>, at: int, w: word, limit: int)
    requires 0 <= at < limit <= resp.Length
    modifies resp
    ensures forall i :: 0 <= i < resp.Length ==>
              resp[i] == if at <= i < at + 4 && i < limit then Part(w, i - at) else old(resp[i])
  {
    resp[at] := Part(w, 0);
    if at + 1 < limit { resp[at + 1] := Part(w, 1); }
    if at + 2 < limit { resp[at + 2] := Part(w, 2); }
    if at + 3 < limit { resp[at + 3] := Part(w, 3); }
  }

  lemma StreamWord(data: nat -> word, from: nat, k: nat, j: nat)
    requires j < 4
    ensures StreamByte(data, from, 4 * k + j) == Part(data(from + k), j)
  {
  }

  /** The busy wait, the second read of the status register, and on refusal one more to report it. */
  method AwaitAnswer(dev: TpmDevice, ghost ready: nat) returns (sending: bool)
    requires WaitEnds(dev.status, dev.polls, ready)
    modifies dev`polls
    ensures dev.polls == ready + if sending then 2 else 3
    ensures sending == (dev.status(ready + 1) == Sending)
  {
    var st := dev.ReadStatus();
    while st == Processing
      invariant st == dev.status(dev.polls - 1) && old(dev.polls) < dev.polls <= ready + 1
      decreases ready - dev.polls
    {
      st := dev.ReadStatus();
    }
    assert dev.polls == ready + 1;
    st := dev.ReadStatus();
    sending := st == Sending;
    if !sending {
      st := dev.ReadStatus();  // for the error message
    }
  }

  /** The first three words, stored whatever they are. */
  method ReadHeader(dev: TpmDevice, resp: array<byte>)
    requires HEADER <= resp.Length
    modifies dev`taken, resp
    ensures dev.taken == old(dev.taken) + 3
    ensures forall i :: 0 <= i < HEADER ==> resp[i] == StreamByte(dev.data, old(dev.taken), i)
    ensures Leading(resp[..HEADER], dev.data, old(dev.taken))
    ensures forall i :: HEADER <= i < resp.Length ==> resp[i] == old(resp[i])
  {
    ghost var from := dev.taken;
    for k := 0 to 3
      invariant dev.taken == from + k
      invariant forall i :: 0 <= i < 4 * k ==> resp[i] == StreamByte(dev.data, from, i)
      invariant forall i :: 4 * k <= i < resp.Length ==> resp[i] == old(resp[i])
    {
      var w := dev.ReadData();
      StoreWord(resp, 4 * k, w, HEADER);
      forall i | 4 * k <= i < 4 * k + 4
        ensures resp[i] == StreamByte(dev.data, from, i)
      {
        StreamWord(dev.data, from, k, i - 4 * k);
      }
    }
    StreamLeads(dev.data, from, resp[..HEADER]);
  }

  /** The words after the header: `from` is where the response starts in the stream. */
  method ReadRest(dev: TpmDevice, resp: array<byte>, size: word, ghost from: nat) returns (n: int)
    requires HEADER <= resp.Length && 10 <= size <= resp.Length && dev.taken == from + 3
    requires forall i :: 0 <= i < HEADER ==> resp[i] == StreamByte(dev.data, from, i)
    modifies dev`taken, dev`polls, resp
    ensures dev.taken >= from + 3
    ensures var got := 4 * (dev.taken - from);
            && n == (if got >= Padded(size) then size else Min(size, got))
            && got <= Max(HEADER, Padded(size))
            && (forall i :: 0 <= i < Min(size, got) ==> resp[i] == StreamByte(dev.data, from, i))
            && Leading(resp[..Min(size, got)], dev.data, from)
            && (StaysSending(dev.status, old(dev.polls)) ==> got == Max(HEADER, Padded(size)))
    ensures forall i :: 0 <= i < HEADER ==> resp[i] == old(resp[i])
    ensures forall i :: Max(size, HEADER) <= i < resp.Length ==> resp[i] == old(resp[i])
  {
    var padded := Padded(size);
    PaddedIs(size);
    var bytesRead := HEADER;
    ghost var k := 3;
    while bytesRead < padded
      invariant bytesRead == 4 * k && 3 <= k && dev.taken == from + k && dev.polls >= old(dev.polls)
      invariant bytesRead <= Max(HEADER, padded)
      invariant forall i :: 0 <= i < HEADER ==> resp[i] == old(resp[i])
      invariant forall i :: 0 <= i < Min(size, bytesRead) ==> resp[i] == StreamByte(dev.data, from, i)
      invariant forall i :: Max(size, HEADER) <= i < resp.Length ==> resp[i] == old(resp[i])
    {
      var st := dev.ReadStatus();
      if st != Sending {
        StreamLeads(dev.data, from, resp[..Min(size, bytesRead)]);
        return if size < bytesRead then size else bytesRead;
      }
      var w := dev.ReadData();
      if bytesRead < size {
        StoreWord(resp, bytesRead, w, size);
        forall i | bytesRead <= i < bytesRead + 4 && i < size
          ensures resp[i] == StreamByte(dev.data, from, i)
        {
          StreamWord(dev.data, from, k, i - bytesRead);
        }
      }
      bytesRead, k := bytesRead + 4, k + 1;
    }
    StreamLeads(dev.data, from, resp[..Min(size, bytesRead)]);
    return size;
  }

  /**
   tpm_read_response.  `from` and `size` below are the stream position at the
   call and the size the header announces; `got` is the number of bytes taken
   from the device.
   */
  method ReadResponse(dev: TpmDevice, resp: array<byte>, maxLen: int, ghost ready: nat) returns (n: int)
    requires HEADER <= resp.Length && 0 <= maxLen <= resp.Length && maxLen < TWO32
    requires WaitEnds(dev.status, dev.polls, ready)
    modifies dev`taken, dev`polls, resp
    // the device does not answer
    ensures dev.status(ready + 1) != Sending ==>
              n == 0 && dev.taken == old(dev.taken) && dev.polls == ready + 3 && resp[..] == old(resp[..])
    // the header
    ensures dev.status(ready + 1) == Sending ==>
              && dev.taken >= old(dev.taken) + 3
              && (forall i :: 0 <= i < HEADER ==> resp[i] == StreamByte(dev.data, old(dev.taken), i))
              && Leading(resp[..HEADER], dev.data, old(dev.taken))
              && AnnouncedSize(dev.data, old(dev.taken)) as int ==
                 0x100_0000 * resp[2] as int + 0x1_0000 * resp[3] as int + 0x100 * resp[4] as int + resp[5] as int
    // an unusable size
    ensures var size := AnnouncedSize(dev.data, old(dev.taken));
            dev.status(ready + 1) == Sending && !(10 <= size <= maxLen) ==>
              && n == HEADER && dev.taken == old(dev.taken) + 3
              && forall i :: HEADER <= i < resp.Length ==> resp[i] == old(resp[i])
    // the rest
    ensures var size := AnnouncedSize(dev.data, old(dev.taken)); var got := 4 * (dev.taken - old(dev.taken));
            dev.status(ready + 1) == Sending && 10 <= size <= maxLen ==>
              && n == (if got >= Padded(size) then size else Min(size, got))
              && got <= Max(HEADER, Padded(size))
              && (forall i :: 0 <= i < Min(size, got) ==> resp[i] == StreamByte(dev.data, old(dev.taken), i))
              && Leading(resp[..Min(size, got)], dev.data, old(dev.taken))
              && (forall i :: Max(size, HEADER) <= i < resp.Length ==> resp[i] == old(resp[i]))
              && (StaysSending(dev.status, ready + 1) ==> got == Max(HEADER, Padded(size)))
  {
    var sending := AwaitAnswer(dev, ready);
    if !sending {
      return 0;
    }
    ghost var from := dev.taken;
    ReadHeader(dev, resp);
    var size: word := Join(resp[2], resp[3], resp[4], resp[5]);
    if size > maxLen {
      return HEADER;
    }
    if size < 10 {
      return HEADER;
    }
    ghost var header := resp[..HEADER];
    n := ReadRest(dev, resp, size, from);
    assert resp[..HEADER] == header;
  }

  /** A response sent in the firmware's own packing is rebuilt byte for byte. */
  method ReadWholeResponse(dev: TpmDevice, resp: array<byte>, maxLen: int, ghost ready: nat, ghost bytes: seq<byte>)
    returns (n: int)
    requires HEADER <= resp.Length && 0 <= maxLen <= resp.Length && maxLen < TWO32
    requires WaitEnds(dev.status, dev.polls, ready) && StaysSending(dev.status, ready + 1)
    requires Sends(dev.data, dev.taken, bytes) && 10 <= |bytes| <= maxLen
    requires |bytes| ==
      0x100_0000 * bytes[2] as int + 0x1_0000 * bytes[3] as int + 0x100 * bytes[4] as int + bytes[5] as int
    modifies dev`taken, dev`polls, resp
    ensures n == |bytes|
    ensures |bytes| <= 0xFFFF_FFFC ==> resp[..n] == bytes && dev.taken == old(dev.taken) + WordsFor(|bytes|)
    ensures |bytes| > 0xFFFF_FFFC ==> dev.taken == old(dev.taken) + 3
    ensures forall i :: Max(n, HEADER) <= i < resp.Length ==> resp[i] == old(resp[i])
  {
    ghost var from := dev.taken;
    forall i: nat | i < 4 * WordsFor(|bytes|)
      ensures StreamByte(dev.data, from, i) == ByteOr0(bytes, i)
    {
      StreamOfPacked(dev.data, from, bytes, i);
    }
    PaddedIs(|bytes|);
    assert StreamByte(dev.data, from, 2) == bytes[2] && StreamByte(dev.data, from, 3) == bytes[3];
    assert StreamByte(dev.data, from, 4) == bytes[4] && StreamByte(dev.data, from, 5) == bytes[5];
    assert dev.status(ready + 1) == Sending;
    n := ReadResponse(dev, resp, maxLen, ready);
  }
}
