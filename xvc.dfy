/**
 * The Xilinx Virtual Cable server of psdaq `mmhw/Xvc.cc`, protocol version
 * 1.0 of Xilinx application note XAPP1251: `sread`, which reads a count of
 * bytes across partial reads, and `handle_data`, which answers the
 * `getinfo:`, `settck:` and `shift:` commands of one connection, shifting
 * the TMS and TDI vectors of a `shift:` through the memory-mapped JTAG
 * engine 32 bits at a time.
 *
 * A connection is a `Peer`: the bytes the client sends, in order, what
 * `read` and `write` return, call by call, and the TDO word the JTAG
 * engine gives back for a shift after all the shifts before it (the
 * register writes, the busy wait on `ctrl_offset` and the read of
 * `tdo_offset` are that one call). The `select`/`accept` server
 * `Xvc::launch` is not part of this model.
 */
module Xvc {
  import opened Bits

  /** The size of `buffer`, which holds the TMS and TDI vectors of a shift. */
  const BUFFER_SIZE: nat := 2048
  /** The size of `result`, which holds the TDO vector of a shift. */
  const RESULT_SIZE: nat := 1024
  /** The largest `int`. */
  const INT_MAX: int := 0x7fff_ffff
  const WORD: nat := 0x1_0000_0000

  /** The octets of an ASCII text. */
  function Ascii(s: string): (b: seq<Byte>)
    ensures |b| == |s|
  {
    seq(|s|, i requires 0 <= i < |s| => ((s[i] as int) % 256) as Byte)
  }

  /** `xvcInfo`, the reply to `getinfo:`. */
  const XVC_INFO: seq<Byte> := Ascii("xvcServer_v1.0:2048\n")

  // ---------------------------------------------------------------------
  // The connection
  // ---------------------------------------------------------------------

  /** One run of the JTAG engine: what is written to `length_offset`, `tms_offset` and `tdi_offset`. */
  datatype Shift = Shift(length: int, tms: nat, tdi: nat)

  /**
   * The other side of a connection: byte i the client sends, the result of
   * read call k before it is cut to the count asked for, the result of
   * write call k, and the TDO the engine returns for a shift after the
   * shifts before it.
   */
  datatype Peer = Peer(
    incoming: nat -> Byte,
    readRc: nat -> int,
    writeRc: nat -> int,
    jtag: (seq<Shift>, Shift) -> nat)

  /** What a connection has done: bytes read, read calls made, buffers written and shifts made. */
  datatype Wire = Wire(consumed: nat, readCalls: nat, sent: seq<seq<Byte>>, shifts: seq<Shift>)

  /** The n bytes the client sends from position `from` on. */
  function Incoming(p: Peer, from: nat, n: nat): (b: seq<Byte>)
    ensures |b| == n
  {
    seq(n, i requires 0 <= i < n => p.incoming(from + i))
  }

  lemma IncomingAppend(p: Peer, from: nat, a: nat, b: nat)
    ensures Incoming(p, from, a) + Incoming(p, from + a, b) == Incoming(p, from, a + b)
  {
    var l, r := Incoming(p, from, a) + Incoming(p, from + a, b), Incoming(p, from, a + b);
    assert forall i :: 0 <= i < a + b ==> l[i] == r[i];
  }

  lemma IncomingSplit(p: Peer, from: nat, a: nat, b: nat)
    ensures Incoming(p, from, a + b)[..a] == Incoming(p, from, a)
    ensures Incoming(p, from, a + b)[a..] == Incoming(p, from + a, b)
  {
    IncomingAppend(p, from, a, b);
  }

  // ---------------------------------------------------------------------
  // sread
  // ---------------------------------------------------------------------

  /** `read` never returns more than the count it is asked for. */
  function Clip(r: int, len: nat): int
  {
    if r > len then len else r
  }

  /** What an `sread` returns, the read calls it makes and the bytes it consumes. */
  datatype SreadResult = SreadResult(rc: int, calls: nat, got: nat)

  /**
   * `sread(fd, target, len)` from read call k on: it returns 1 exactly when
   * all len bytes arrived, and otherwise a result of at most 0.
   */
  function Reading(p: Peer, k: nat, len: nat): (s: SreadResult)
    ensures s.got <= len
    ensures s.rc == 1 <==> s.got == len
    ensures s.rc != 1 ==> s.rc <= 0
    decreases len
  {
    if len == 0 then SreadResult(1, 0, 0)
    else
      var r := Clip(p.readRc(k), len);
      if r <= 0 then SreadResult(r, 1, 0)
      else
        var s := Reading(p, k + 1, len - r);
        SreadResult(s.rc, s.calls + 1, s.got + r)
  }

  /**
   * A connection only moves forward: bytes are consumed and read calls made,
   * and replies and shifts are appended, never taken back.
   */
  predicate Extends(w: Wire, w2: Wire)
  {
    && w.consumed <= w2.consumed && w.readCalls <= w2.readCalls
    && w.sent <= w2.sent && w.shifts <= w2.shifts
  }

  /** A connection after an `sread`. */
  function Advance(w: Wire, s: SreadResult): Wire
  {
    w.(consumed := w.consumed + s.got, readCalls := w.readCalls + s.calls)
  }

  /**
   * A complete `sread` made only reads that returned data, at most one per
   * byte; one that fails returns the result of its last read, the first
   * that returned no data, and every read before it returned data.
   */
  lemma {:induction false} SreadFirstFailure(p: Peer, k: nat, len: nat)
    ensures var s := Reading(p, k, len);
      && (s.rc == 1 ==> s.calls <= len && forall j :: k <= j < k + s.calls ==> p.readRc(j) > 0)
      && (s.rc != 1 ==>
            && s.calls >= 1 && s.rc == p.readRc(k + s.calls - 1)
            && forall j :: k <= j < k + s.calls - 1 ==> p.readRc(j) > 0)
    decreases len
  {
    if len > 0 {
      var r := Clip(p.readRc(k), len);
      if r > 0 {
        SreadFirstFailure(p, k + 1, len - r);
      }
    }
  }

  // ---------------------------------------------------------------------
  // Words and bytes
  // ---------------------------------------------------------------------

  /** 256 to the n-th power. */
  function ByteRange(n: nat): (r: nat)
    ensures r >= 1
  {
    if n == 0 then 1 else 256 * ByteRange(n - 1)
  }

  /** The value of up to four little-endian bytes copied into a zeroed word. */
  function Le(b: seq<Byte>): (x: nat)
    ensures x < ByteRange(|b|)
  {
    if b == [] then 0 else b[0] as nat + 256 * Le(b[1..])
  }

  /** The first n little-endian bytes of a word, what `memcpy` copies out of it. */
  function WordBytes(x: nat, n: nat): (b: seq<Byte>)
    ensures |b| == n
  {
    if n == 0 then [] else [(x % 256) as Byte] + WordBytes(x / 256, n - 1)
  }

  /** The four bytes of a word are those of `Le32`. */
  lemma WordBytesLe32(x: nat)
    ensures WordBytes(x, 4) == Le32(x)
  {
    assert WordBytes(x, 4)[1..] == WordBytes(x / 256, 3);
    assert WordBytes(x / 256, 3)[1..] == WordBytes(x / 256 / 256, 2);
    assert WordBytes(x / 256 / 256, 2)[1..] == WordBytes(x / 256 / 256 / 256, 1);
  }

  lemma {:induction false} WordBytesPrefix(x: nat, m: nat, n: nat)
    requires n <= m
    ensures WordBytes(x, m)[..n] == WordBytes(x, n)
  {
    if n > 0 {
      WordBytesPrefix(x / 256, m - 1, n - 1);
      assert WordBytes(x, m)[..n] == [(x % 256) as Byte] + WordBytes(x / 256, m - 1)[..n - 1];
    }
  }

  /** Copying bytes into a zeroed word and the word back out gives the bytes. */
  lemma {:induction false} LeRoundTrip(b: seq<Byte>)
    ensures WordBytes(Le(b), |b|) == b
  {
    if b != [] {
      var x, y := Le(b), Le(b[1..]);
      ModUnique(x, 256, y, b[0] as int);
      DivUnique(x, 256, y, b[0] as int);
      LeRoundTrip(b[1..]);
      assert b == [b[0]] + b[1..];
    }
  }

  /** The first n bytes of a word copied into a zeroed word give the word modulo 256^n. */
  lemma {:induction false} WordRoundTrip(x: nat, n: nat)
    ensures Le(WordBytes(x, n)) == x % ByteRange(n)
  {
    if n > 0 {
      var b := WordBytes(x, n);
      assert b[1..] == WordBytes(x / 256, n - 1);
      WordRoundTrip(x / 256, n - 1);
      ByteSplit(x, ByteRange(n - 1));
    }
  }

  lemma WordRange()
    ensures ByteRange(4) == WORD
  {
  }

  /** The n bytes `memcpy` lays out from consecutive words, four per word. */
  function Unpack(words: seq<nat>, n: nat): (b: seq<Byte>)
    requires n <= 4 * |words|
    ensures |b| == n
  {
    seq(n, i requires 0 <= i < n => WordBytes(words[i / 4], 4)[i % 4])
  }

  // ---------------------------------------------------------------------
  // Shift chunking
  // ---------------------------------------------------------------------

  /** `(len + 7) / 8`, in C's division, which truncates toward zero. */
  function NrBytes(len: int): (r: int)
    ensures len + 7 >= 0 ==> 0 <= r && 8 * r <= len + 7 < 8 * r + 8
    ensures len + 7 < 0 ==> r <= 0 && 8 * r - 8 < len + 7 <= 8 * r
  {
    var a := len + 7;
    if a >= 0 then a / 8 else -((-a) / 8)
  }

  /** The signed `int` that four bytes read into `len` make. */
  function Int32(x: nat): int
  {
    if x >= 0x8000_0000 then x - WORD else x
  }

  /** The bound check on the vector size. */
  predicate Admits(nr: int)
  {
    nr * 2 <= BUFFER_SIZE
  }

  /** The number of runs of the engine for nr bytes per vector. */
  function ChunkCount(nr: nat): nat
  {
    (nr + 3) / 4
  }

  /** The bytes of chunk k: four, or the `bytesLeft` of a shorter last chunk. */
  function Width(nr: nat, k: nat): (w: nat)
    requires k < ChunkCount(nr)
    ensures 1 <= w <= 4 && 4 * k + w <= nr
  {
    if nr - 4 * k >= 4 then 4 else nr - 4 * k
  }

  /** The length written for chunk k: 32 for four bytes, whatever bits are left, else `bitsLeft`. */
  function ChunkLength(nr: nat, len: int, k: nat): int
    requires k < ChunkCount(nr)
  {
    if Width(nr, k) == 4 then 32 else len - 32 * k
  }

  /** Chunk k of vectors `buffer`: its length, and its bytes of the TMS and the TDI vector as words. */
  function Chunk(buffer: seq<Byte>, nr: nat, len: int, k: nat): Shift
    requires |buffer| == 2 * nr && k < ChunkCount(nr)
  {
    var w := Width(nr, k);
    Shift(ChunkLength(nr, len, k), Le(buffer[4 * k .. 4 * k + w]), Le(buffer[nr + 4 * k .. nr + 4 * k + w]))
  }

  /** The runs of the engine for a shift of len bits with nr bytes per vector. */
  function Chunks(buffer: seq<Byte>, nr: nat, len: int): (cs: seq<Shift>)
    requires |buffer| == 2 * nr
    ensures |cs| == ChunkCount(nr)
  {
    FirstChunks(buffer, nr, len, ChunkCount(nr))
  }

  /** The first n chunks, in the order the loop runs them. */
  function FirstChunks(buffer: seq<Byte>, nr: nat, len: int, n: nat): (cs: seq<Shift>)
    requires |buffer| == 2 * nr && n <= ChunkCount(nr)
    ensures |cs| == n
  {
    if n == 0 then [] else FirstChunks(buffer, nr, len, n - 1) + [Chunk(buffer, nr, len, n - 1)]
  }

  /** Run k of the loop is chunk k. */
  lemma {:induction false} ChunkIndex(buffer: seq<Byte>, nr: nat, len: int, n: nat, k: nat)
    requires |buffer| == 2 * nr && k < n <= ChunkCount(nr)
    ensures FirstChunks(buffer, nr, len, n)[k] == Chunk(buffer, nr, len, k)
  {
    if k < n - 1 {
      ChunkIndex(buffer, nr, len, n - 1, k);
    }
  }

  /** A vector of whole words has one chunk per word. */
  lemma WholeChunks(m: nat)
    ensures ChunkCount(4 * m) == m
  {
  }

  /** The TDO words the engine returns for the runs cs made after the runs h, each a 32-bit `tdo_offset`. */
  function Tdos(p: Peer, h: seq<Shift>, cs: seq<Shift>): (t: seq<nat>)
    ensures |t| == |cs|
  {
    if cs == [] then []
    else
      var n := |cs| - 1;
      Tdos(p, h, cs[..n]) + [p.jtag(h + cs[..n], cs[n]) % WORD]
  }

  /** Every TDO word fits the 32 bits of `tdo_offset`. */
  lemma {:induction false} TdosAreWords(p: Peer, h: seq<Shift>, cs: seq<Shift>)
    ensures forall k :: 0 <= k < |cs| ==> Tdos(p, h, cs)[k] < WORD
  {
    if cs != [] {
      var n := |cs| - 1;
      TdosAreWords(p, h, cs[..n]);
    }
  }

  function TmsWords(cs: seq<Shift>): (t: seq<nat>)
    ensures |t| == |cs|
  {
    seq(|cs|, k requires 0 <= k < |cs| => cs[k].tms)
  }

  function TdiWords(cs: seq<Shift>): (t: seq<nat>)
    ensures |t| == |cs|
  {
    seq(|cs|, k requires 0 <= k < |cs| => cs[k].tdi)
  }

  /**
   * The chunks cover the two vectors exactly and in order: laid out again
   * as bytes, the TMS words give `buffer[0..nr)` and the TDI words give
   * `buffer[nr..2nr)`.
   */
  lemma VectorsRoundTrip(buffer: seq<Byte>, nr: nat, len: int)
    requires |buffer| == 2 * nr
    ensures Unpack(TmsWords(Chunks(buffer, nr, len)), nr) == buffer[..nr]
    ensures Unpack(TdiWords(Chunks(buffer, nr, len)), nr) == buffer[nr..]
  {
    var cs := Chunks(buffer, nr, len);
    forall i | 0 <= i < nr
      ensures Unpack(TmsWords(cs), nr)[i] == buffer[..nr][i]
      ensures Unpack(TdiWords(cs), nr)[i] == buffer[nr..][i]
    {
      VectorByte(buffer, nr, len, i);
    }
  }

  /** Byte i of each vector, laid out again from the chunks. */
  lemma VectorByte(buffer: seq<Byte>, nr: nat, len: int, i: nat)
    requires |buffer| == 2 * nr && i < nr
    ensures Unpack(TmsWords(Chunks(buffer, nr, len)), nr)[i] == buffer[i]
    ensures Unpack(TdiWords(Chunks(buffer, nr, len)), nr)[i] == buffer[nr + i]
  {
    var cs := Chunks(buffer, nr, len);
    var k, j := i / 4, i % 4;
    ChunkBytes(buffer, nr, len, k, j);
    ChunkIndex(buffer, nr, len, ChunkCount(nr), k);
    WordsByte(cs, nr, i, k, j, Chunk(buffer, nr, len, k));
  }

  /** Byte i of the two unpacked vectors of the runs cs comes from run `i / 4`. */
  lemma WordsByte(cs: seq<Shift>, nr: nat, i: nat, k: nat, j: nat, c: Shift)
    requires nr <= 4 * |cs| && i < nr && k == i / 4 && j == i % 4 && k < |cs| && cs[k] == c
    ensures Unpack(TmsWords(cs), nr)[i] == WordBytes(c.tms, 4)[j]
    ensures Unpack(TdiWords(cs), nr)[i] == WordBytes(c.tdi, 4)[j]
  {
    UnpackAt(TmsWords(cs), nr, i, k, j);
    UnpackAt(TdiWords(cs), nr, i, k, j);
  }

  /** Byte i of an unpacked vector is byte `i % 4` of word `i / 4`. */
  lemma UnpackAt(words: seq<nat>, n: nat, i: nat, k: nat, j: nat)
    requires n <= 4 * |words| && i < n && k == i / 4 && j == i % 4
    ensures k < |words| && 4 * k + j == i && Unpack(words, n)[i] == WordBytes(words[k], 4)[j]
  {
  }

  /** Byte j of chunk k of each vector is byte j of the word of chunk k. */
  lemma ChunkBytes(buffer: seq<Byte>, nr: nat, len: int, k: nat, j: nat)
    requires |buffer| == 2 * nr && j < 4 && 4 * k + j < nr
    ensures k < ChunkCount(nr)
    ensures WordBytes(Chunk(buffer, nr, len, k).tms, 4)[j] == buffer[4 * k + j]
    ensures WordBytes(Chunk(buffer, nr, len, k).tdi, 4)[j] == buffer[nr + 4 * k + j]
  {
    var w := Width(nr, k);
    var c := Chunk(buffer, nr, len, k);
    var tms, tdi := buffer[4 * k .. 4 * k + w], buffer[nr + 4 * k .. nr + 4 * k + w];
    WordByte(c.tms, tms, j);
    WordByte(c.tdi, tdi, j);
  }

  /** Byte j of the word `memcpy` makes of the bytes b is `b[j]`. */
  lemma WordByte(x: nat, b: seq<Byte>, j: nat)
    requires x == Le(b) && |b| <= 4 && j < |b|
    ensures WordBytes(x, 4)[j] == b[j]
  {
    LeRoundTrip(b);
    WordBytesPrefix(x, 4, |b|);
    assert WordBytes(x, 4)[..|b|][j] == b[j];
  }

  /**
   * The reply carries the TDO word of run k in bytes `[4k, 4k+4)`: read
   * back, those bytes give the word, cut to the width of a shorter last
   * chunk.
   */
  lemma ReplyCarriesTdos(tdos: seq<nat>, nr: nat)
    requires |tdos| == ChunkCount(nr) && forall k :: 0 <= k < |tdos| ==> tdos[k] < WORD
    ensures forall k :: 0 <= k < |tdos| ==>
      Le(Unpack(tdos, nr)[4 * k .. 4 * k + Width(nr, k)]) == tdos[k] % ByteRange(Width(nr, k))
    ensures forall k :: 0 <= k < |tdos| && Width(nr, k) == 4 ==> Le(Unpack(tdos, nr)[4 * k .. 4 * k + 4]) == tdos[k]
  {
    forall k | 0 <= k < |tdos|
      ensures Le(Unpack(tdos, nr)[4 * k .. 4 * k + Width(nr, k)]) == tdos[k] % ByteRange(Width(nr, k))
      ensures Width(nr, k) == 4 ==> Le(Unpack(tdos, nr)[4 * k .. 4 * k + 4]) == tdos[k]
    {
      ReplyChunk(tdos, nr, k);
    }
  }

  lemma ReplyChunk(tdos: seq<nat>, nr: nat, k: nat)
    requires |tdos| == ChunkCount(nr) && k < |tdos| && tdos[k] < WORD
    ensures Le(Unpack(tdos, nr)[4 * k .. 4 * k + Width(nr, k)]) == tdos[k] % ByteRange(Width(nr, k))
    ensures Width(nr, k) == 4 ==> Le(Unpack(tdos, nr)[4 * k .. 4 * k + 4]) == tdos[k]
  {
    var w := Width(nr, k);
    UnpackChunk(tdos, nr, k);
    WordRoundTrip(tdos[k], w);
    if w == 4 {
      WordRange();
      ModUnique(tdos[k], WORD, 0, tdos[k]);
    }
  }

  /** The bytes of chunk k of an unpacked vector are the first bytes of word k. */
  lemma UnpackChunk(words: seq<nat>, nr: nat, k: nat)
    requires |words| == ChunkCount(nr) && k < |words|
    ensures Unpack(words, nr)[4 * k .. 4 * k + Width(nr, k)] == WordBytes(words[k], Width(nr, k))
  {
    var w := Width(nr, k);
    var u := Unpack(words, nr);
    WordBytesPrefix(words[k], 4, w);
    forall j | 0 <= j < w
      ensures u[4 * k .. 4 * k + w][j] == WordBytes(words[k], 4)[..w][j]
    {
      assert (4 * k + j) / 4 == k && (4 * k + j) % 4 == j;
    }
  }

  /** Laying out one more word, n bytes of it, appends those bytes. */
  lemma UnpackSnoc(words: seq<nat>, x: nat, n: nat)
    requires n <= 4
    ensures Unpack(words + [x], 4 * |words| + n) == Unpack(words, 4 * |words|) + WordBytes(x, n)
  {
    WordBytesPrefix(x, 4, n);
    var l, r := Unpack(words + [x], 4 * |words| + n), Unpack(words, 4 * |words|) + WordBytes(x, 4)[..n];
    forall i | 0 <= i < 4 * |words| + n
      ensures l[i] == r[i]
    {
      if i >= 4 * |words| {
        assert i / 4 == |words| && i % 4 == i - 4 * |words|;
      } else {
        assert i / 4 < |words|;
      }
    }
  }

  /** One more run of the engine appends its TDO word. */
  lemma TdosSnoc(p: Peer, h: seq<Shift>, cs: seq<Shift>, k: nat)
    requires k < |cs|
    ensures Tdos(p, h, cs[..k + 1]) == Tdos(p, h, cs[..k]) + [p.jtag(h + cs[..k], cs[k]) % WORD]
  {
    assert cs[..k + 1][..k] == cs[..k];
  }

  /** The lengths written for the chunks of a shift, in order. */
  function Lengths(nr: nat, len: int): (ls: seq<int>)
    ensures |ls| == ChunkCount(nr)
  {
    seq(ChunkCount(nr), k requires 0 <= k < ChunkCount(nr) => ChunkLength(nr, len, k))
  }

  function Sum(s: seq<int>): int
  {
    if s == [] then 0 else Sum(s[..|s| - 1]) + s[|s| - 1]
  }

  lemma {:induction false} SumOfFull(ls: seq<int>, q: nat)
    requires q <= |ls| && forall k :: 0 <= k < q ==> ls[k] == 32
    ensures Sum(ls[..q]) == 32 * q
  {
    if q > 0 {
      SumOfFull(ls, q - 1);
      assert ls[..q][..q - 1] == ls[..q - 1];
    }
  }

  /** C's truncating `(len + 7) / 8` for a length that is not negative. */
  lemma NrBytesBounds(len: int)
    requires 0 <= len
    ensures 8 * NrBytes(len) <= len + 7 < 8 * NrBytes(len) + 8
  {
  }

  /**
   * As written, a chunk of four bytes is written with length 32 even when
   * fewer bits are left, so a shift of len bits clocks exactly len bits
   * only when len modulo 32 is 0 or at most 24; a shorter last chunk gets
   * between 1 and 24 bits.
   */
  lemma ClocksAsWritten(len: int)
    requires 0 <= len
    ensures var nr := NrBytes(len);
      && (Sum(Lengths(nr, len)) == len <==> len % 32 == 0 || len % 32 <= 24)
      && forall k :: 0 <= k < ChunkCount(nr) && Width(nr, k) < 4 ==> 1 <= Lengths(nr, len)[k] <= 24
  {
    var nr := NrBytes(len);
    NrBytesBounds(len);
    var ls := Lengths(nr, len);
    var q := nr / 4;
    forall k | 0 <= k < q
      ensures ls[k] == 32
    {
      assert Width(nr, k) == 4;
    }
    SumOfFull(ls, q);
    if nr % 4 == 0 {
      assert ls[..q] == ls;
      if len != 32 * q {
        assert 32 * q - 7 <= len < 32 * q;
        ModUnique(len, 32, q - 1, len - 32 * (q - 1));
      }
    } else {
      assert |ls| == q + 1;
      assert ls[..|ls| - 1] == ls[..q];
      assert Width(nr, q) < 4;
      ModUnique(len, 32, q, len - 32 * q);
    }
  }

  /** A 25-bit shift is one run of the engine, written with 32 bits. */
  lemma ShiftOf25Bits()
    ensures NrBytes(25) == 4 && Lengths(4, 25) == [32] && Sum(Lengths(4, 25)) == 32
  {
    assert Width(4, 0) == 4;
    assert Lengths(4, 25)[..0] == [];
  }

  /** The length chunk k evidently should have: 32 bits, or the bits that are left when fewer. */
  function FixedLength(len: int, k: nat): int
  {
    if len - 32 * k >= 32 then 32 else len - 32 * k
  }

  function FixedLengths(len: int): (ls: seq<int>)
    ensures |ls| == ChunkCount(if NrBytes(len) >= 0 then NrBytes(len) else 0)
  {
    var n := ChunkCount(if NrBytes(len) >= 0 then NrBytes(len) else 0);
    seq(n, k requires 0 <= k < n => FixedLength(len, k))
  }

  /**
   * With the length cut to the bits left, a shift of len bits clocks
   * exactly len bits: 32 per run and between 1 and 32 in the last.
   */
  lemma ClocksFixed(len: int)
    requires 0 <= len
    ensures Sum(FixedLengths(len)) == len
    ensures forall k :: 0 <= k < |FixedLengths(len)| ==> 1 <= FixedLengths(len)[k] <= 32
    ensures forall k :: 0 <= k < |FixedLengths(len)| - 1 ==> FixedLengths(len)[k] == 32
  {
    var nr := NrBytes(len);
    NrBytesBounds(len);
    var ls := FixedLengths(len);
    var c := |ls|;
    assert 4 * c <= nr + 3 < 4 * c + 4;
    forall k | 0 <= k < c - 1
      ensures ls[k] == 32
    {
      assert len - 32 * k >= 33;
    }
    if c > 0 {
      SumOfFull(ls, c - 1);
      assert ls[..c - 1] == ls[..|ls| - 1];
      assert 1 <= len - 32 * (c - 1) <= 32;
    } else {
      assert len == 0;
    }
  }

  // ---------------------------------------------------------------------
  // Commands
  // ---------------------------------------------------------------------

  /** How a command ends: the handler goes on to the next one, returns a code, or has undefined behaviour. */
  datatype Status = Continue | Return(code: int) | Undefined

  datatype Step = Step(wire: Wire, status: Status)

  /** A `write(fd, b, |b|)` as write call `|w.sent|`; a count other than `|b|` returns 1. */
  function Written(p: Peer, w: Wire, b: seq<Byte>, done: Status): (r: Step)
    ensures Extends(w, r.wire) && r.wire.shifts == w.shifts && r.wire.sent == w.sent + [b]
    ensures r.status == done || r.status == Return(1)
  {
    var rc := p.writeRc(|w.sent|);
    Step(w.(sent := w.sent + [b]), if rc != |b| then Return(1) else done)
  }

  /** One pass of the `handle_data` loop: the 2-byte prefix, then its command. */
  function CommandStep(p: Peer, w: Wire): (r: Step)
    ensures Extends(w, r.wire)
    ensures r.status == Continue || r.status == Undefined ==> Incoming(p, w.consumed, 2) == Ascii("sh")
  {
    var s := Reading(p, w.readCalls, 2);
    var w1 := Advance(w, s);
    if s.rc != 1 then Step(w1, Return(1))
    else
      var cmd := Incoming(p, w.consumed, 2);
      if cmd == Ascii("ge") then GetInfoStep(p, w1)
      else if cmd == Ascii("se") then SetTckStep(p, w1)
      else if cmd == Ascii("sh") then ShiftStep(p, w1)
      else Step(w1, Return(1))
  }

  /** The rest of `getinfo:`, then the `xvcInfo` reply and return 0. */
  function GetInfoStep(p: Peer, w: Wire): (r: Step)
    ensures Extends(w, r.wire) && r.wire.shifts == w.shifts
    ensures r.status == Return(0) || r.status == Return(1)
    ensures r.status == Return(0) ==> r.wire.sent == w.sent + [XVC_INFO]
  {
    var s := Reading(p, w.readCalls, 6);
    if s.rc != 1 then Step(Advance(w, s), Return(1))
    else Written(p, Advance(w, s), XVC_INFO, Return(0))
  }

  /** The rest of `settck:` and the 4-byte period, echoed; then return 0. */
  function SetTckStep(p: Peer, w: Wire): (r: Step)
    ensures Extends(w, r.wire) && r.wire.shifts == w.shifts
    ensures r.status == Return(0) || r.status == Return(1)
    ensures r.status == Return(0) ==> r.wire.consumed == w.consumed + 9 && |r.wire.sent| == |w.sent| + 1
  {
    var s := Reading(p, w.readCalls, 9);
    if s.rc != 1 then Step(Advance(w, s), Return(1))
    else Written(p, Advance(w, s), Incoming(p, w.consumed + 5, 4), Return(0))
  }

  /** Where the header of a shift leaves it: stopped, or going on to vectors of nr bytes for len bits. */
  datatype Header = Stop(step: Step) | Go(wire: Wire, nr: nat, len: int)

  /** The rest of `shift:`, then the vectors the header admits. */
  function ShiftStep(p: Peer, w: Wire): (r: Step)
    ensures Extends(w, r.wire)
  {
    match ShiftHeader(p, w)
    case Stop(st) => st
    case Go(w2, nr, len) => Transfer(p, w2, nr, len)
  }

  /** The rest of `shift:`, then the bit count. */
  function ShiftHeader(p: Peer, w: Wire): (h: Header)
    ensures h.Stop? ==> Extends(w, h.step.wire) && h.step.status != Continue
    ensures h.Go? ==> Extends(w, h.wire)
  {
    var s := Reading(p, w.readCalls, 4);
    if s.rc != 1 then Stop(Step(Advance(w, s), Return(1)))
    else LengthHeader(p, Advance(w, s))
  }

  /** The 4-byte bit count, as a signed `int`, then its checks. */
  function LengthHeader(p: Peer, w: Wire): (h: Header)
    ensures h.Stop? ==> Extends(w, h.step.wire) && h.step.status != Continue
    ensures h.Go? ==> Extends(w, h.wire)
  {
    var s := Reading(p, w.readCalls, 4);
    if s.rc != 1 then Stop(Step(Advance(w, s), Return(1)))
    else Guard(p, Advance(w, s), Int32(Le(Incoming(p, w.consumed, 4))))
  }

  /**
   * The checks on a bit count len: `len + 7` overflowing is undefined; a
   * vector size over the bound returns 1; a negative one is handed to
   * `sread` as it stands; any other goes on to the vectors.
   */
  function Guard(p: Peer, w: Wire, len: int): (h: Header)
    ensures h.Go? <==> len <= INT_MAX - 7 && 0 <= NrBytes(len) && Admits(NrBytes(len))
    ensures h.Go? ==> h.wire == w && h.len == len && h.nr == NrBytes(len) && 2 * h.nr <= BUFFER_SIZE
    ensures h.Stop? ==>
      && Extends(w, h.step.wire) && h.step.wire.sent == w.sent && h.step.wire.shifts == w.shifts
      && (h.step.status == Return(1) || h.step.status == Undefined)
    ensures h.Stop? && h.step.wire != w ==> len <= INT_MAX - 7 && Admits(NrBytes(len)) && NrBytes(len) < 0
  {
    if len > INT_MAX - 7 then Stop(Step(w, Undefined))
    else
      var nr := NrBytes(len);
      if !Admits(nr) then Stop(Step(w, Return(1)))
      else if nr < 0 then Stop(NegativeReading(p, w, 2 * nr, 0))
      else Go(w, nr, len)
  }

  /** The `size_t` a C `int` converts to. */
  function SizeT(n: int): nat
  {
    n % 0x1_0000_0000_0000_0000
  }

  /**
   * `sread(fd, buffer, count)` for a negative count, got bytes in: each
   * `read` is asked for the count left as a `size_t`, far above the
   * 2048-byte `buffer`, and `len -= r` moves the count away from 0, so the
   * loop ends only at a read that returns no data, with `handle_data`
   * returning 1, or by a read that overruns `buffer`, which is undefined.
   */
  function NegativeReading(p: Peer, w: Wire, count: int, got: nat): (r: Step)
    requires count < 0 && got <= BUFFER_SIZE
    ensures Extends(w, r.wire) && r.wire.sent == w.sent && r.wire.shifts == w.shifts
    ensures r.status == Return(1) || r.status == Undefined
    ensures r.status == Undefined <==> r.wire.consumed + got > w.consumed + BUFFER_SIZE
    decreases BUFFER_SIZE - got
  {
    var r := Clip(p.readRc(w.readCalls), SizeT(count - got));
    var w1 := w.(readCalls := w.readCalls + 1);
    if r <= 0 then Step(w1, Return(1))
    else if got + r > BUFFER_SIZE then Step(w1.(consumed := w.consumed + r), Undefined)
    else NegativeReading(p, w1.(consumed := w.consumed + r), count, got + r)
  }

  /** Both vectors of nr bytes are read, shifted chunk by chunk, and the TDO vector is written back. */
  function Transfer(p: Peer, w: Wire, nr: nat, len: int): (r: Step)
    ensures Extends(w, r.wire)
    ensures r.status == Continue || r.status == Return(1)
    ensures r.status == Continue ==>
      && r.wire.consumed == w.consumed + 2 * nr
      && |r.wire.shifts| == |w.shifts| + ChunkCount(nr)
      && |r.wire.sent| == |w.sent| + 1 && |r.wire.sent[|w.sent|]| == nr
  {
    var s := Reading(p, w.readCalls, 2 * nr);
    var w1 := Advance(w, s);
    if s.rc != 1 then Step(w1, Return(1))
    else
      var cs := Chunks(Incoming(p, w.consumed, 2 * nr), nr, len);
      Written(p, w1.(shifts := w1.shifts + cs), Unpack(Tdos(p, w1.shifts, cs), nr), Continue)
  }

  /**
   * Round after round of a server loop, at most fuel of them: the rounds
   * before the last all went on, and the last one is run only if they did.
   */
  function Rounds(round: Wire -> Step, w: Wire, fuel: nat): Step
    decreases fuel
  {
    if fuel == 0 then Step(w, Continue)
    else
      var st := Rounds(round, w, fuel - 1);
      if st.status == Continue then round(st.wire) else st
  }

  /** Once a round stops, more fuel changes nothing. */
  lemma {:induction false} RoundsStopped(round: Wire -> Step, w: Wire, k: nat, m: nat)
    requires k <= m && Rounds(round, w, k).status != Continue
    ensures Rounds(round, w, m) == Rounds(round, w, k)
    decreases m
  {
    if k < m {
      RoundsStopped(round, w, k, m - 1);
    }
  }

  /** A round that returns only 0 or 1, and that has written one reply when it goes on. */
  ghost predicate OneReply(w: Wire, st: Step)
  {
    && (st.status.Return? ==> st.status.code == 0 || st.status.code == 1)
    && (st.status == Continue ==> |st.wire.sent| == |w.sent| + 1)
  }

  /** Rounds of one reply each return only 0 or 1, and after fuel rounds that went on there are fuel replies. */
  lemma {:induction false} RoundsCodes(round: Wire -> Step, w: Wire, fuel: nat)
    requires forall x :: OneReply(x, round(x))
    ensures var st := Rounds(round, w, fuel);
      && (st.status.Return? ==> st.status.code == 0 || st.status.code == 1)
      && (st.status == Continue ==> |st.wire.sent| == |w.sent| + fuel)
    decreases fuel
  {
    if fuel > 0 {
      RoundsCodes(round, w, fuel - 1);
      var st := Rounds(round, w, fuel - 1);
      if st.status == Continue {
        assert OneReply(st.wire, round(st.wire));
      }
    }
  }

  /** A round of `handle_data`: one command. */
  function Round(p: Peer): Wire -> Step
  {
    w => CommandStep(p, w)
  }

  /** `handle_data` for at most fuel commands. */
  function Handle(p: Peer, w: Wire, fuel: nat): (r: Step)
    ensures Extends(w, r.wire)
  {
    CommandsExtend(p);
    RoundsExtend(Round(p), w, fuel);
    Rounds(Round(p), w, fuel)
  }

  /** Every command moves the connection forward. */
  lemma CommandsExtend(p: Peer)
    ensures forall x :: Extends(x, Round(p)(x).wire)
  {
    forall x
      ensures Extends(x, Round(p)(x).wire)
    {
      assert Round(p)(x) == CommandStep(p, x);
    }
  }

  /** Rounds that each move the connection forward move it forward together. */
  lemma {:induction false} RoundsExtend(round: Wire -> Step, w: Wire, fuel: nat)
    requires forall x :: Extends(x, round(x).wire)
    ensures Extends(w, Rounds(round, w, fuel).wire)
    decreases fuel
  {
    if fuel > 0 {
      RoundsExtend(round, w, fuel - 1);
      var st := Rounds(round, w, fuel - 1);
      if st.status == Continue {
        assert Extends(st.wire, round(st.wire).wire);
      }
    }
  }

  /**
   * A command returns 0 only after `getinfo:` with `xvcInfo` as its one
   * reply, or after `settck:` echoing bytes 7 to 10 of the command, and in
   * both cases it has read exactly the command and shifted nothing. It goes
   * on only after a `shift:`, with one reply. An unknown prefix returns 1
   * after its two bytes, with nothing written.
   */
  lemma CommandOutcomes(p: Peer, w: Wire)
    ensures var st := CommandStep(p, w);
      var cmd := Incoming(p, w.consumed, 2);
      && (st.status.Return? ==> st.status.code == 0 || st.status.code == 1)
      && (st.status == Return(0) ==>
            && st.wire.shifts == w.shifts
            && ((cmd == Ascii("ge") && st.wire.consumed == w.consumed + 8 && st.wire.sent == w.sent + [XVC_INFO])
             || (cmd == Ascii("se") && st.wire.consumed == w.consumed + 11
                 && st.wire.sent == w.sent + [Incoming(p, w.consumed + 7, 4)])))
      && (st.status == Continue || st.status == Undefined ==> cmd == Ascii("sh"))
      && (st.status == Continue ==> |st.wire.sent| == |w.sent| + 1)
      && (Reading(p, w.readCalls, 2).rc == 1 && cmd != Ascii("ge") && cmd != Ascii("se") && cmd != Ascii("sh") ==>
            st.status == Return(1) && st.wire.consumed == w.consumed + 2
            && st.wire.sent == w.sent && st.wire.shifts == w.shifts)
  {
    var s := Reading(p, w.readCalls, 2);
    if s.rc == 1 {
      var w1 := Advance(w, s);
      var cmd := Incoming(p, w.consumed, 2);
      if cmd == Ascii("ge") {
        GetInfoOutcome(p, w1);
      } else if cmd == Ascii("se") {
        SetTckOutcome(p, w1);
      } else if cmd == Ascii("sh") {
        ShiftCodes(p, w1);
      }
    }
  }

  /** A command returns only 0 or 1, and one that goes on has written one reply. */
  lemma CommandCodes(p: Peer, w: Wire)
    ensures OneReply(w, CommandStep(p, w))
  {
    CommandOutcomes(p, w);
  }

  /** `getinfo:` returns 0 or 1, and 0 only after its 6 bytes with `xvcInfo` as the reply. */
  lemma GetInfoOutcome(p: Peer, w: Wire)
    ensures var st := GetInfoStep(p, w);
      && (st.status == Return(0) || st.status == Return(1)) && st.wire.shifts == w.shifts
      && (st.status == Return(0) ==> st.wire.consumed == w.consumed + 6 && st.wire.sent == w.sent + [XVC_INFO])
  {
  }

  /** `settck:` returns 0 or 1, and 0 only after its 9 bytes with bytes 5 to 8 echoed. */
  lemma SetTckOutcome(p: Peer, w: Wire)
    ensures var st := SetTckStep(p, w);
      && (st.status == Return(0) || st.status == Return(1)) && st.wire.shifts == w.shifts
      && (st.status == Return(0) ==>
            st.wire.consumed == w.consumed + 9 && st.wire.sent == w.sent + [Incoming(p, w.consumed + 5, 4)])
  {
  }

  /** A `shift:` never returns 0, and one that goes on has written one reply. */
  lemma ShiftCodes(p: Peer, w: Wire)
    ensures var st := ShiftStep(p, w);
      && (st.status.Return? ==> st.status.code == 1)
      && (st.status == Continue ==> |st.wire.sent| == |w.sent| + 1)
  {
  }

  /** A bit count over 8192 is rejected with 1 before any vector byte is read; every smaller one passes the check, negative ones included. */
  lemma LengthBound(p: Peer, w: Wire, len: int)
    requires len <= INT_MAX - 7
    ensures Admits(NrBytes(len)) <==> len <= 8192
    ensures len > 8192 ==> Guard(p, w, len) == Stop(Step(w, Return(1)))
  {
  }

  /**
   * A bit count of -15 or less passes the bound check with a negative
   * vector size, and the shift never goes on, shifts nothing and writes
   * nothing: it returns 1 at the first read that returns no data, and at
   * once when that is the first read, as when `read` refuses a count above
   * SSIZE_MAX; it is undefined exactly when more than the 2048 bytes of
   * `buffer` have arrived.
   */
  lemma NegativeLengthReads(p: Peer, w: Wire, len: int)
    requires len <= -15
    ensures Admits(NrBytes(len)) && NrBytes(len) < 0
    ensures var h := Guard(p, w, len);
      && h.Stop? && h.step.wire.sent == w.sent && h.step.wire.shifts == w.shifts
      && (h.step.status == Return(1) || h.step.status == Undefined)
      && (h.step.status == Undefined <==> h.step.wire.consumed > w.consumed + BUFFER_SIZE)
    ensures p.readRc(w.readCalls) <= 0 ==> Guard(p, w, len) == Stop(Step(w.(readCalls := w.readCalls + 1), Return(1)))
  {
  }

  /** The check evidently meant: the bit count is not negative and both vectors fit `buffer`. */
  predicate AdmitsFixed(len: int)
  {
    0 <= len && Admits(NrBytes(len))
  }

  /** The fixed check admits exactly 0 to 8192 bits, and then the vectors fit `buffer` and the reply fits `result`. */
  lemma FixedGuard(len: int)
    ensures AdmitsFixed(len) <==> 0 <= len <= 8192
    ensures AdmitsFixed(len) ==> 0 <= 2 * NrBytes(len) <= BUFFER_SIZE && NrBytes(len) <= RESULT_SIZE
  {
  }

  /**
   * A `shift:` that goes on has read the bit count at bytes 4 to 7 and then
   * exactly the two vectors of `nr_bytes` each; its runs of the engine, laid
   * out again as bytes, are the TMS vector and the TDI vector; and its one
   * reply is the TDO words of those runs, `nr_bytes` of them.
   */
  lemma ShiftOutcome(p: Peer, w: Wire, st: Step, len: int, nr: int)
    requires st == ShiftStep(p, w) && st.status == Continue
    requires len == Int32(Le(Incoming(p, w.consumed + 4, 4))) && nr == NrBytes(len)
    ensures 0 <= nr <= RESULT_SIZE
    ensures st.wire.consumed == w.consumed + 8 + 2 * nr
    ensures |st.wire.shifts| == |w.shifts| + ChunkCount(nr) && st.wire.shifts[..|w.shifts|] == w.shifts
    ensures var cs := st.wire.shifts[|w.shifts|..];
      && Unpack(TmsWords(cs), nr) == Incoming(p, w.consumed + 8, nr)
      && Unpack(TdiWords(cs), nr) == Incoming(p, w.consumed + 8 + nr, nr)
      && st.wire.sent == w.sent + [Unpack(Tdos(p, w.shifts, cs), nr)]
  {
    HeaderOutcome(p, w);
    var hd := ShiftHeader(p, w);
    assert hd.Go?;
    assert hd.len == len && hd.nr == nr;
    assert st == Transfer(p, hd.wire, nr, len);
    TransferFrom(p, w, hd.wire, nr, len, st);
  }

  /** The vectors of a shift whose header took bytes 0 to 8 from w on. */
  lemma TransferFrom(p: Peer, w: Wire, w1: Wire, nr: nat, len: int, st: Step)
    requires w1.consumed == w.consumed + 8 && w1.sent == w.sent && w1.shifts == w.shifts
    requires st == Transfer(p, w1, nr, len) && st.status == Continue
    ensures st.wire.consumed == w.consumed + 8 + 2 * nr
    ensures |st.wire.shifts| == |w.shifts| + ChunkCount(nr) && st.wire.shifts[..|w.shifts|] == w.shifts
    ensures var cs := st.wire.shifts[|w.shifts|..];
      && Unpack(TmsWords(cs), nr) == Incoming(p, w.consumed + 8, nr)
      && Unpack(TdiWords(cs), nr) == Incoming(p, w.consumed + 8 + nr, nr)
      && st.wire.sent == w.sent + [Unpack(Tdos(p, w.shifts, cs), nr)]
  {
    TransferOutcome(p, w1, nr, len);
    IncomingVectors(p, w.consumed + 8, nr, len);
  }

  /** The runs made from 2nr incoming bytes carry the first nr as TMS and the next nr as TDI. */
  lemma IncomingVectors(p: Peer, from: nat, nr: nat, len: int)
    ensures var cs := Chunks(Incoming(p, from, 2 * nr), nr, len);
      && Unpack(TmsWords(cs), nr) == Incoming(p, from, nr)
      && Unpack(TdiWords(cs), nr) == Incoming(p, from + nr, nr)
  {
    var buffer := Incoming(p, from, 2 * nr);
    VectorsRoundTrip(buffer, nr, len);
    IncomingSplit(p, from, nr, nr);
    assert buffer == Incoming(p, from, nr + nr);
  }

  /**
   * A header that goes on has read exactly the rest of `shift:` and the bit
   * count at bytes 4 to 7, and admits a vector size of at most 1024 bytes.
   */
  lemma HeaderOutcome(p: Peer, w: Wire)
    ensures var hd := ShiftHeader(p, w);
      hd.Go? ==>
        && hd.len == Int32(Le(Incoming(p, w.consumed + 4, 4))) && hd.nr == NrBytes(hd.len)
        && hd.nr <= RESULT_SIZE
        && hd.wire.consumed == w.consumed + 8 && hd.wire.sent == w.sent && hd.wire.shifts == w.shifts
  {
    var s := Reading(p, w.readCalls, 4);
    if s.rc == 1 {
      assert ShiftHeader(p, w) == LengthHeader(p, Advance(w, s));
    }
  }

  /** A transfer that goes on reads exactly its two vectors, makes their runs and writes their TDO words. */
  lemma TransferOutcome(p: Peer, w: Wire, nr: nat, len: int)
    ensures var st := Transfer(p, w, nr, len);
      st.status == Continue ==>
        && st.wire.consumed == w.consumed + 2 * nr
        && var cs := Chunks(Incoming(p, w.consumed, 2 * nr), nr, len);
          && st.wire.shifts == w.shifts + cs
          && st.wire.shifts[..|w.shifts|] == w.shifts && st.wire.shifts[|w.shifts|..] == cs
          && st.wire.sent == w.sent + [Unpack(Tdos(p, w.shifts, cs), nr)]
  {
    var st := Transfer(p, w, nr, len);
    if st.status == Continue {
      var cs := Chunks(Incoming(p, w.consumed, 2 * nr), nr, len);
      assert (w.shifts + cs)[..|w.shifts|] == w.shifts;
      assert (w.shifts + cs)[|w.shifts|..] == cs;
    }
  }

  /**
   * `handle_data` returns only 0 or 1, and when it is still running after
   * fuel commands, every one of them was a `shift:` with one reply.
   */
  lemma HandleCodes(p: Peer, w: Wire, fuel: nat)
    ensures var st := Handle(p, w, fuel);
      && (st.status.Return? ==> st.status.code == 0 || st.status.code == 1)
      && (st.status == Continue ==> |st.wire.sent| == |w.sent| + fuel)
  {
    forall x
      ensures OneReply(x, Round(p)(x))
    {
      CommandCodes(p, x);
    }
    RoundsCodes(Round(p), w, fuel);
  }

  // ---------------------------------------------------------------------
  // The handler
  // ---------------------------------------------------------------------

  /** `memcpy(&dst[at], &x, n)` for a word x, n at most 4. */
  method CopyWord(dst: array<Byte>, at: nat, x: nat, n: nat)
    requires n <= 4 && at + n <= dst.Length
    modifies dst
    ensures dst[..at] == old(dst[..at]) && dst[at..at + n] == WordBytes(x, n)
    ensures dst[at + n..] == old(dst[at + n..])
  {
    var b := WordBytes(x, n);
    for j := 0 to n
      invariant dst[..at] == old(dst[..at]) && dst[at + n..] == old(dst[at + n..])
      invariant dst[at..at + j] == b[..j]
    {
      dst[at + j] := b[j];
      assert dst[at..at + j + 1] == dst[at..at + j] + [b[j]];
      assert b[..j + 1] == b[..j] + [b[j]];
    }
  }

  /** A connection of `handle_data`, with its file descriptor and its JTAG engine. */
  class Connection {
    const peer: Peer
    var consumed: nat
    var readCalls: nat
    var sent: seq<seq<Byte>>
    var shifts: seq<Shift>

    function State(): Wire
      reads this
    {
      Wire(consumed, readCalls, sent, shifts)
    }

    constructor (peer: Peer)
      ensures this.peer == peer && State() == Wire(0, 0, [], [])
    {
      this.peer := peer;
      consumed := 0;
      readCalls := 0;
      sent := [];
      shifts := [];
    }

    /** `read(fd, t, want)`: the bytes that arrive, at most want of them. */
    method Read(want: nat) returns (r: int, data: seq<Byte>)
      modifies this`consumed, this`readCalls
      ensures r == Clip(peer.readRc(old(readCalls)), want) && readCalls == old(readCalls) + 1
      ensures consumed == old(consumed) + (if r > 0 then r else 0)
      ensures data == Incoming(peer, old(consumed), if r > 0 then r else 0)
    {
      r := Clip(peer.readRc(readCalls), want);
      readCalls := readCalls + 1;
      var n: nat := if r > 0 then r else 0;
      data := Incoming(peer, consumed, n);
      consumed := consumed + n;
    }

    /** `sread(fd, target, len)`: the bytes read into `target` and the result. */
    method Sread(len: nat) returns (rc: int, data: seq<Byte>)
      modifies this`consumed, this`readCalls
      ensures var s := Reading(peer, old(readCalls), len);
        && rc == s.rc && consumed == old(consumed) + s.got && readCalls == old(readCalls) + s.calls
        && data == Incoming(peer, old(consumed), s.got)
    {
      var left: nat := len;
      data := [];
      while left > 0
        invariant left <= len && consumed == old(consumed) + (len - left) && readCalls >= old(readCalls)
        invariant data == Incoming(peer, old(consumed), len - left)
        invariant var s := Reading(peer, readCalls, left);
          Reading(peer, old(readCalls), len) == SreadResult(s.rc, s.calls + (readCalls - old(readCalls)), s.got + (len - left))
        decreases left
      {
        var r, part := Read(left);
        if r <= 0 {
          rc := r;
          return;
        }
        IncomingAppend(peer, old(consumed), len - left, r);
        data := data + part;
        left := left - r;
      }
      rc := 1;
    }

    /** `sread(fd, buffer, count)` for a negative count: reads until one returns no data or overruns `buffer`. */
    method SreadNegative(count: int) returns (status: Status)
      requires count < 0
      modifies this`consumed, this`readCalls
      ensures Step(State(), status) == NegativeReading(peer, old(State()), count, 0)
    {
      var got: nat := 0;
      while true
        invariant got <= BUFFER_SIZE
        invariant NegativeReading(peer, old(State()), count, 0) == NegativeReading(peer, State(), count, got)
        decreases BUFFER_SIZE - got
      {
        ghost var w := State();
        var r, _ := Read(SizeT(count - got));
        assert State() == w.(readCalls := w.readCalls + 1, consumed := w.consumed + (if r > 0 then r else 0));
        if r <= 0 {
          return Return(1);
        }
        if got + r > BUFFER_SIZE {
          return Undefined;
        }
        got := got + r;
      }
    }

    /** `write(fd, b, |b|)`. */
    method Write(b: seq<Byte>) returns (rc: int)
      modifies this`sent
      ensures sent == old(sent) + [b] && rc == peer.writeRc(|old(sent)|)
    {
      rc := peer.writeRc(|sent|);
      sent := sent + [b];
    }

    /** One run of the engine: write the length, TMS and TDI registers, start it, wait for it and read TDO. */
    method ShiftOnce(s: Shift) returns (tdo: nat)
      modifies this`shifts
      ensures tdo == peer.jtag(old(shifts), s) % WORD && shifts == old(shifts) + [s]
    {
      tdo := peer.jtag(shifts, s) % WORD;
      shifts := shifts + [s];
    }

    /**
     * `handle_data` for at most fuel commands: it goes on while the
     * commands are shifts and returns the status of the first that is not.
     */
    method HandleData(fuel: nat) returns (status: Status)
      modifies this`consumed, this`readCalls, this`sent, this`shifts
      ensures Step(State(), status) == Handle(peer, old(State()), fuel)
    {
      var n: nat := 0;
      status := Continue;
      while n < fuel
        invariant n <= fuel && status == Continue
        invariant Handle(peer, old(State()), n) == Step(State(), Continue)
      {
        status := HandleCommand();
        n := n + 1;
        if status != Continue {
          RoundsStopped(Round(peer), old(State()), n, fuel);
          return;
        }
      }
    }

    /** One pass of the `handle_data` loop. */
    method HandleCommand() returns (status: Status)
      modifies this`consumed, this`readCalls, this`sent, this`shifts
      ensures Step(State(), status) == CommandStep(peer, old(State()))
    {
      ghost var w0 := State();
      var rc, cmd := Sread(2);
      ghost var w1 := State();
      assert w1 == Advance(w0, Reading(peer, w0.readCalls, 2));
      if rc != 1 {
        return Return(1);
      }
      if cmd == Ascii("ge") {
        assert CommandStep(peer, w0) == GetInfoStep(peer, w1);
        status := HandleGetInfo();
      } else if cmd == Ascii("se") {
        assert CommandStep(peer, w0) == SetTckStep(peer, w1);
        status := HandleSetTck();
      } else if cmd == Ascii("sh") {
        assert CommandStep(peer, w0) == ShiftStep(peer, w1);
        status := HandleShift();
      } else {
        status := Return(1);
      }
    }

    /** The `getinfo:` branch after its prefix. */
    method HandleGetInfo() returns (status: Status)
      modifies this`consumed, this`readCalls, this`sent
      ensures shifts == old(shifts)
      ensures Step(State(), status) == GetInfoStep(peer, old(State()))
    {
      var rc, _ := Sread(6);
      if rc != 1 {
        return Return(1);
      }
      var written := Write(XVC_INFO);
      status := if written != |XVC_INFO| then Return(1) else Return(0);
    }

    /** The `settck:` branch after its prefix: the period is echoed. */
    method HandleSetTck() returns (status: Status)
      modifies this`consumed, this`readCalls, this`sent
      ensures shifts == old(shifts)
      ensures Step(State(), status) == SetTckStep(peer, old(State()))
    {
      ghost var from := consumed;
      var rc, cmd := Sread(9);
      if rc != 1 {
        return Return(1);
      }
      IncomingSplit(peer, from, 5, 4);
      assert cmd[5..9] == Incoming(peer, from + 5, 4);
      var written := Write(cmd[5..9]);
      status := if written != 4 then Return(1) else Return(0);
    }

    /** The `shift:` branch after its prefix: the bit count, both vectors, the runs and the TDO reply. */
    method HandleShift() returns (status: Status)
      modifies this`consumed, this`readCalls, this`sent, this`shifts
      ensures Step(State(), status) == ShiftStep(peer, old(State()))
    {
      var go, stop, nr, len := ReadShiftHeader();
      if !go {
        return stop;
      }
      status := HandleTransfer(nr, len);
    }

    /** The rest of `shift:`, the bit count and its checks. */
    method ReadShiftHeader() returns (go: bool, status: Status, nr: nat, len: int)
      modifies this`consumed, this`readCalls
      ensures ShiftHeader(peer, old(State())) == if go then Go(State(), nr, len) else Stop(Step(State(), status))
      ensures go ==> nr <= RESULT_SIZE
    {
      ghost var w0 := State();
      var rc, _ := Sread(4);
      ghost var w1 := State();
      assert w1 == Advance(w0, Reading(peer, w0.readCalls, 4));
      if rc != 1 {
        return false, Return(1), 0, 0;
      }
      assert ShiftHeader(peer, w0) == LengthHeader(peer, w1);
      go, status, nr, len := ReadLength();
    }

    /** The bit count of a shift and its checks. */
    method ReadLength() returns (go: bool, status: Status, nr: nat, len: int)
      modifies this`consumed, this`readCalls
      ensures LengthHeader(peer, old(State())) == if go then Go(State(), nr, len) else Stop(Step(State(), status))
      ensures go ==> nr <= RESULT_SIZE
    {
      ghost var w0 := State();
      var rc, word := Sread(4);
      ghost var w1 := State();
      assert w1 == Advance(w0, Reading(peer, w0.readCalls, 4));
      if rc != 1 {
        return false, Return(1), 0, 0;
      }
      len := Int32(Le(word));
      assert LengthHeader(peer, w0) == Guard(peer, w1, len);
      if len > INT_MAX - 7 {
        return false, Undefined, 0, len;
      }
      var bytes := NrBytes(len);
      if !Admits(bytes) {
        return false, Return(1), 0, len;
      }
      if bytes < 0 {
        assert Guard(peer, w1, len) == Stop(NegativeReading(peer, w1, 2 * bytes, 0));
        status := SreadNegative(2 * bytes);
        return false, status, 0, len;
      }
      return true, Continue, bytes, len;
    }

    /** Both vectors, the runs and the TDO reply. */
    method HandleTransfer(nr: nat, len: int) returns (status: Status)
      requires nr <= RESULT_SIZE
      modifies this`consumed, this`readCalls, this`sent, this`shifts
      ensures Step(State(), status) == Transfer(peer, old(State()), nr, len)
    {
      var rc, buffer := Sread(2 * nr);
      if rc != 1 {
        return Return(1);
      }
      var result := ShiftChunks(buffer, nr, len);
      var written := Write(result[..nr]);
      status := if written != nr then Return(1) else Continue;
    }

    /** The chunk loop of a shift: the runs of the engine and the TDO vector in `result`. */
    method ShiftChunks(buffer: seq<Byte>, nr: nat, len: int) returns (result: array<Byte>)
      requires |buffer| == 2 * nr && nr <= RESULT_SIZE
      modifies this`shifts
      ensures fresh(result) && result.Length == RESULT_SIZE
      ensures shifts == old(shifts) + Chunks(buffer, nr, len)
      ensures result[..nr] == Unpack(Tdos(peer, old(shifts), Chunks(buffer, nr, len)), nr)
    {
      result := new Byte[RESULT_SIZE](_ => 0);
      ghost var h := shifts;
      ghost var cs := Chunks(buffer, nr, len);
      var bytesLeft: int := nr;
      var bitsLeft := len;
      var byteIndex: nat := 0;
      ghost var tdos: seq<nat> := [];
      while bytesLeft > 0
        invariant byteIndex == 4 * |tdos| <= nr && |tdos| <= |cs|
        invariant bytesLeft == nr - byteIndex && bitsLeft == len - 8 * byteIndex
        invariant shifts == h + cs[..|tdos|]
        invariant tdos == Tdos(peer, h, cs[..|tdos|])
        invariant result[..byteIndex] == Unpack(tdos, byteIndex)
        decreases bytesLeft
      {
        var tdo := RunChunk(buffer, nr, len, result, byteIndex, bytesLeft, bitsLeft, tdos, h);
        tdos := tdos + [tdo];
        if bytesLeft >= 4 {
          bytesLeft := bytesLeft - 4;
          bitsLeft := bitsLeft - 32;
          byteIndex := byteIndex + 4;
        } else {
          assert byteIndex + bytesLeft == nr && |tdos| == |cs|;
          assert result[..nr] == Unpack(tdos, nr);
          break;
        }
      }
      if bytesLeft <= 0 {
        WholeChunks(|tdos|);
        assert byteIndex == nr == 4 * |tdos|;
      }
      assert |tdos| == |cs| && nr <= 4 * |tdos| && result[..nr] == Unpack(tdos, nr);
      LastChunk(peer, h, cs, tdos, result[..nr], nr);
    }

    /**
     * One pass of the chunk loop at `byteIndex`: a run of the engine with
     * length 32 for four bytes left and `bitsLeft` for fewer, its TDO word
     * copied into `result` for the bytes of the chunk.
     */
    method RunChunk(buffer: seq<Byte>, nr: nat, len: int, result: array<Byte>, byteIndex: nat, bytesLeft: int,
                    bitsLeft: int, ghost tdos: seq<nat>, ghost h: seq<Shift>) returns (tdo: nat)
      requires |buffer| == 2 * nr && nr <= RESULT_SIZE && result.Length == RESULT_SIZE
      requires byteIndex == 4 * |tdos| < nr && bytesLeft == nr - byteIndex && bitsLeft == len - 8 * byteIndex
      requires shifts == h + Chunks(buffer, nr, len)[..|tdos|]
      requires tdos == Tdos(peer, h, Chunks(buffer, nr, len)[..|tdos|])
      requires result[..byteIndex] == Unpack(tdos, byteIndex)
      modifies this`shifts, result
      ensures var k, n := |tdos| + 1, if bytesLeft >= 4 then 4 else bytesLeft;
        && k <= ChunkCount(nr) && (bytesLeft < 4 ==> k == ChunkCount(nr))
        && shifts == h + Chunks(buffer, nr, len)[..k]
        && tdos + [tdo] == Tdos(peer, h, Chunks(buffer, nr, len)[..k])
        && result[..byteIndex + n] == Unpack(tdos + [tdo], byteIndex + n)
    {
      ghost var cs := Chunks(buffer, nr, len);
      ghost var k := |tdos|;
      var n := if bytesLeft >= 4 then 4 else bytesLeft;
      var s := Shift(if bytesLeft >= 4 then 32 else bitsLeft,
                     Le(buffer[byteIndex .. byteIndex + n]), Le(buffer[byteIndex + nr .. byteIndex + nr + n]));
      ChunkAt(buffer, nr, len, k, byteIndex, bytesLeft, bitsLeft, s);
      tdo := ShiftOnce(s);
      ghost var before := result[..byteIndex];
      CopyWord(result, byteIndex, tdo, n);
      ReplyStep(peer, h, cs, tdos, tdo, byteIndex, before, result[..byteIndex + n], n);
    }
  }

  /** Once the loop has run every chunk, `result` holds their TDO vector. */
  lemma LastChunk(p: Peer, h: seq<Shift>, cs: seq<Shift>, tdos: seq<nat>, reply: seq<Byte>, nr: nat)
    requires |tdos| == |cs| && nr <= 4 * |tdos|
    requires tdos == Tdos(p, h, cs[..|tdos|]) && reply == Unpack(tdos, nr)
    ensures reply == Unpack(Tdos(p, h, cs), nr) && h + cs[..|tdos|] == h + cs
  {
    assert cs[..|tdos|] == cs;
  }

  /** The invariants of the chunk loop carry over one run of the engine. */
  lemma ReplyStep(p: Peer, h: seq<Shift>, cs: seq<Shift>, tdos: seq<nat>, tdo: nat, at: nat, before: seq<Byte>,
                  after: seq<Byte>, n: nat)
    requires at == 4 * |tdos| && |tdos| < |cs| && n <= 4
    requires tdos == Tdos(p, h, cs[..|tdos|]) && tdo == p.jtag(h + cs[..|tdos|], cs[|tdos|]) % WORD
    requires before == Unpack(tdos, at)
    requires |after| == at + n && after[..at] == before && after[at..] == WordBytes(tdo, n)
    ensures h + cs[..|tdos|] + [cs[|tdos|]] == h + cs[..|tdos| + 1]
    ensures tdos + [tdo] == Tdos(p, h, cs[..|tdos| + 1])
    ensures after == Unpack(tdos + [tdo], at + n)
  {
    var k := |tdos|;
    TdosSnoc(p, h, cs, k);
    UnpackSnoc(tdos, tdo, n);
    assert cs[..k + 1] == cs[..k] + [cs[k]];
    assert after == after[..4 * k] + after[4 * k..];
  }

  /** The run the loop makes with bytesLeft and bitsLeft at chunk k is chunk k. */
  lemma ChunkAt(buffer: seq<Byte>, nr: nat, len: int, k: nat, at: nat, bytesLeft: int, bitsLeft: int, s: Shift)
    requires |buffer| == 2 * nr && at == 4 * k < nr && bytesLeft == nr - at && bitsLeft == len - 8 * at
    requires var n := if bytesLeft >= 4 then 4 else bytesLeft;
      s == Shift(if bytesLeft >= 4 then 32 else bitsLeft, Le(buffer[at .. at + n]), Le(buffer[at + nr .. at + nr + n]))
    ensures k < ChunkCount(nr) && s == Chunks(buffer, nr, len)[k]
    ensures bytesLeft < 4 ==> k + 1 == ChunkCount(nr) && nr == 4 * k + bytesLeft
    ensures bytesLeft >= 4 ==> k + 1 <= ChunkCount(nr)
  {
    assert k < ChunkCount(nr);
    ChunkIndex(buffer, nr, len, ChunkCount(nr), k);
    assert buffer[4 * k + nr .. 4 * k + nr + Width(nr, k)] == buffer[nr + 4 * k .. nr + 4 * k + Width(nr, k)];
  }
}
