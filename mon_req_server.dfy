/**
 * The monitor request server of psdaq `monReqServer.cc`: the shared-memory
 * buffer free list with its double-free check, the round-robin posting of
 * buffer requests to the TEBs, the packing of the buffer index into bits
 * 16-23 of a datagram's `env` word, the parsing of the collection's connection
 * parameters, and the buffer-count checks of `main`.
 *
 * The free list is the bounded FIFO `FifoMT<unsigned>` whose capacity is the
 * number of event buffers: a push fails when it is full, a pop when it is
 * empty. Link posts are answered by an oracle indexed by the number of
 * requests posted so far.
 */
module MonReqServer {
  import opened Wrappers
  import opened Bits
  import opened Text
  import opened EbConstants
  import opened EbLinks

  const U32: nat := 0x1_0000_0000

  /** The minimum number of event buffers, `ctrb:maxEvents`. */
  const NUMBEROF_XFERBUFFERS: nat := 8

  // ---------------------------------------------------------------- env packing

  /** `Meb::process`: the buffer index placed in bits 16-23 of `env`. */
  function PackIndex(env: bv32, idx: bv32): bv32
  {
    (env & 0xff00ffff) | (idx << 16)
  }

  /** `_deleteDatagram`: the buffer index read back from `env`. */
  function UnpackIndex(env: bv32): bv32
  {
    (env >> 16) & 0xff
  }

  /** An index below 256 comes back unchanged, and the bits of env outside 16-23 are kept. */
  lemma PackRoundTrip(env: bv32, idx: bv32)
    requires idx < 256
    ensures UnpackIndex(PackIndex(env, idx)) == idx
    ensures PackIndex(env, idx) & 0xff00ffff == env & 0xff00ffff
  {
  }

  /** A larger index loses its upper bits, and its bits 8-15 spill into bits 24-31 of env. */
  lemma PackTruncates(env: bv32, idx: bv32)
    ensures UnpackIndex(PackIndex(env, idx)) == idx & 0xff
    ensures idx == 256 ==> PackIndex(env, idx) & 0xff000000 == (env & 0xff000000) | 0x01000000
  {
  }

  // ---------------------------------------------------------------- main's checks

  /** `NO_PARTITION`, `unsigned(-1u)`: the partition field before a valid `-p`. */
  const NO_PARTITION: nat := U32 - 1

  /**
   * The `-p` option as `main` stores it: `strtoul`'s value (None when the
   * option is absent, is not a number or is out of range) assigned to the
   * `unsigned` partition field, hence reduced modulo 2^32.
   */
  function PartitionField(strtoul: Option<nat>): nat
  {
    if strtoul.None? then NO_PARTITION else strtoul.value % U32
  }

  /**
   * The `-n` option as `main` stores it: `sscanf("%d")`'s value (None when the
   * option is absent) in the `unsigned` buffer count, so a negative count
   * wraps to a large one; without `-n` the count stays `NUMBEROF_XFERBUFFERS`.
   */
  function NumEvBuffersField(scanned: Option<int>): nat
  {
    if scanned.None? then NUMBEROF_XFERBUFFERS else scanned.value % U32
  }

  /** The option fields `main` checks, as the option loop left them. */
  datatype Options = Options(partition: nat, instrument: string, numEvBuffers: nat, collSrv: string, alias: string)

  datatype MainResult = Exit(code: int) | Proceed(numEvBuffers: nat)

  /** The option checks of `main` (monReqServer.cc:841-874): the mandatory options, then the buffer count raised to 8 and limited to 255. */
  function CheckOptions(o: Options): (r: MainResult)
    ensures r.Exit? ==> r.code == 1
    ensures r.Proceed? ==> NUMBEROF_XFERBUFFERS <= r.numEvBuffers <= 255 && o.numEvBuffers <= r.numEvBuffers
    ensures r.Proceed? ==> o.partition != NO_PARTITION && o.numEvBuffers != 0
  {
    if o.partition == NO_PARTITION then Exit(1)
    else if o.instrument == [] then Exit(1)
    else if o.numEvBuffers == 0 then Exit(1)
    else if o.collSrv == [] then Exit(1)
    else if o.alias == [] then Exit(1)
    else
      var n := if o.numEvBuffers < NUMBEROF_XFERBUFFERS then NUMBEROF_XFERBUFFERS else o.numEvBuffers;
      if n > 255 then Exit(1) else Proceed(n)
  }

  /**
   * `main` goes on exactly when the partition field is not `NO_PARTITION`,
   * instrument, collection server and alias are given, and the buffer count
   * is neither 0 nor above 255, with the count then in [8, 255].
   */
  lemma CheckOptionsBounds(o: Options)
    ensures CheckOptions(o).Proceed? <==>
      o.partition != NO_PARTITION && o.instrument != [] && 0 < o.numEvBuffers <= 255 && o.collSrv != [] && o.alias != []
    ensures CheckOptions(o).Proceed? ==>
      && NUMBEROF_XFERBUFFERS <= CheckOptions(o).numEvBuffers <= 255
      && CheckOptions(o).numEvBuffers == if o.numEvBuffers < 8 then 8 else o.numEvBuffers
    ensures CheckOptions(o).Exit? ==> CheckOptions(o).code == 1
  {
  }

  /**
   * A missing or unreadable `-p`, and any value congruent to 0xFFFFFFFF
   * modulo 2^32 (`-p -1` reads as 2^64 - 1), leave the field at
   * `NO_PARTITION`, so `main` exits with 1; every other value is kept modulo 2^32.
   */
  lemma PartitionRejected(strtoul: Option<nat>, o: Options)
    requires o.partition == PartitionField(strtoul)
    ensures o.partition == NO_PARTITION <==> strtoul.None? || strtoul.value % U32 == U32 - 1
    ensures strtoul.Some? && strtoul.value % U32 != U32 - 1 ==> o.partition == strtoul.value % U32
    ensures strtoul == Some(0xFFFF_FFFF_FFFF_FFFF) ==> CheckOptions(o) == Exit(1)
  {
  }

  /**
   * Without `-n` the count is 8, which passes; only a count that is 0 modulo
   * 2^32 is rejected as missing.
   */
  lemma DefaultBuffersAccepted(scanned: Option<int>, o: Options)
    requires o.numEvBuffers == NumEvBuffersField(scanned)
    ensures scanned.None? ==>
      && o.numEvBuffers == NUMBEROF_XFERBUFFERS
      && (CheckOptions(o).Proceed? <==> o.partition != NO_PARTITION && o.instrument != [] && o.collSrv != [] && o.alias != [])
    ensures o.numEvBuffers == 0 <==> scanned.Some? && scanned.value % U32 == 0
    ensures scanned == Some(-1) ==> CheckOptions(o) == Exit(1)
  {
  }

  /** So every buffer index the free list hands out survives the trip through `env`. */
  lemma BufferIndexRoundTrips(o: Options, idx: nat, env: bv32)
    requires CheckOptions(o).Proceed? && idx < CheckOptions(o).numEvBuffers
    ensures idx < 256 && UnpackIndex(PackIndex(env, idx as bv32)) == idx as bv32
  {
    CheckOptionsBounds(o);
    var b := idx as bv32;
    assert b < 256;
    PackRoundTrip(env, b);
  }

  // ---------------------------------------------------------------- the free list and the requests

  /**
   * The first position of x in s, or |s| when x does not occur: the result of
   * `_deleteDatagram`'s search loop.
   */
  function Find(s: seq<nat>, x: nat): (r: nat)
    ensures r <= |s|
    ensures r < |s| ==> s[r] == x
    ensures forall i :: 0 <= i < r ==> s[i] != x
  {
    if s == [] then 0 else if s[0] == x then 0 else 1 + Find(s[1..], x)
  }

  /** No buffer index is on the free list twice. */
  predicate Distinct(s: seq<nat>)
  {
    forall i, j :: 0 <= i < j < |s| ==> s[i] != s[j]
  }

  /** 0, 1, …, n - 1. */
  function Range(n: nat): (r: seq<nat>)
    ensures |r| == n && forall i :: 0 <= i < n ==> r[i] == i
  {
    if n == 0 then [] else Range(n - 1) + [n - 1]
  }

  /** The indices 0..n-1 are all different. */
  lemma RangeDistinct(n: nat)
    ensures Distinct(Range(n))
  {
  }

  /** Taking the head off a list without repeats leaves a list without repeats. */
  lemma DistinctTail(s: seq<nat>)
    requires Distinct(s) && s != []
    ensures Distinct(s[1..])
  {
    forall i, j | 0 <= i < j < |s| - 1
      ensures s[1..][i] != s[1..][j]
    {
      assert s[1..][i] == s[i + 1] && s[1..][j] == s[j + 1];
    }
  }

  datatype DeleteKind = Freed | DoubleFree(entry: nat) | PushFailed

  /** How `_deleteDatagram` ended, and whether it warned about an index beyond the buffers. */
  datatype DeleteOutcome = DeleteOutcome(warned: bool, kind: DeleteKind)

  datatype FreeResult = FreeResult(freeList: seq<nat>, outcome: DeleteOutcome)

  /** `MyXtcMonitorServer::_deleteDatagram` (monReqServer.cc:195-238) on the free list and the index from env. */
  function DeleteSpec(capacity: nat, freeList: seq<nat>, idx: nat): (r: FreeResult)
    ensures r.outcome.warned <==> idx >= capacity
    ensures r.outcome.kind.DoubleFree? <==> idx in freeList
    ensures r.outcome.kind.DoubleFree? ==> r.outcome.kind.entry < |freeList| && freeList[r.outcome.kind.entry] == idx
    ensures r.freeList == (if r.outcome.kind.Freed? then freeList + [idx] else freeList)
    ensures |freeList| <= capacity ==> |r.freeList| <= capacity
  {
    var warned := idx >= capacity;
    var k := Find(freeList, idx);
    if k < |freeList| then FreeResult(freeList, DeleteOutcome(warned, DoubleFree(k)))
    else if |freeList| >= capacity then FreeResult(freeList, DeleteOutcome(warned, PushFailed))
    else FreeResult(freeList + [idx], DeleteOutcome(warned, Freed))
  }

  /**
   * Deleting never puts an index on the free list that is already there: a
   * double free leaves the list alone, and otherwise the index is appended when
   * there is room. An out-of-range index only warns. The list stays distinct
   * and within its capacity.
   */
  lemma DeleteNeverDuplicates(capacity: nat, freeList: seq<nat>, idx: nat)
    requires Distinct(freeList) && |freeList| <= capacity
    ensures var r := DeleteSpec(capacity, freeList, idx);
      && Distinct(r.freeList) && |r.freeList| <= capacity
      && (r.outcome.kind.DoubleFree? <==> idx in freeList)
      && (r.outcome.kind.DoubleFree? ==> freeList[r.outcome.kind.entry] == idx)
      && (r.outcome.kind.Freed? <==> idx !in freeList && |freeList| < capacity)
      && r.freeList == (if r.outcome.kind.Freed? then freeList + [idx] else freeList)
      && (r.outcome.warned <==> idx >= capacity)
  {
  }

  /** One request post: the TEB link tried and the buffer index requested. */
  datatype Request = Request(link: nat, buffer: nat)

  datatype RequestOutcome = NoBuffer | Delivered | Undelivered(rc: int) | RequestUndefined

  /** The round-robin loop after i iterations: the posts made, the cursor, the last code, and whether it stopped. */
  datatype Robin = Robin(requests: seq<Request>, cursor: nat, rc: int, delivered: bool, undefined: bool)

  /** `_iTeb` after one attempt: incremented, and wrapped to 0 when it reaches the number of links. */
  function Advance(cursor: nat, n: nat): nat
  {
    if cursor + 1 == n then 0 else cursor + 1
  }

  /** The round-robin loop of `_requestDatagram` (monReqServer.cc:261-273), its first i iterations. */
  function RoundRobin(links: seq<Option<nat>>, cursor: nat, postRc: nat -> int, base: nat, buffer: nat, i: nat): (r: Robin)
    ensures |r.requests| <= i
    ensures forall k :: 0 <= k < |r.requests| ==> r.requests[k].buffer == buffer && r.requests[k].link < |links|
  {
    if i == 0 then Robin([], cursor, -1, false, false)
    else
      var r := RoundRobin(links, cursor, postRc, base, buffer, i - 1);
      if r.delivered || r.undefined then r else RobinStep(r, links, postRc, base, buffer)
  }

  /** One iteration: the link at the cursor tried, the cursor advanced. */
  function RobinStep(r: Robin, links: seq<Option<nat>>, postRc: nat -> int, base: nat, buffer: nat): Robin
  {
    var t := r.cursor;
    var next := Advance(t, |links|);
    if t >= |links| || links[t].None? then r.(cursor := next, undefined := true)
    else
      var rc := postRc(base + |r.requests|);
      Robin(r.requests + [Request(t, buffer)], next, rc, rc == 0, false)
  }

  datatype ServerState = ServerState(iTeb: nat, links: seq<Option<nat>>, freeList: seq<nat>, requests: seq<Request>)

  datatype RequestResult = RequestResult(st: ServerState, outcome: RequestOutcome)

  /** `MyXtcMonitorServer::_requestDatagram` (monReqServer.cc:240-280). */
  function RequestSpec(s: ServerState, postRc: nat -> int): (r: RequestResult)
    ensures r.outcome == NoBuffer <==> s.freeList == []
    ensures r.st.links == s.links
    ensures r.st.freeList == if s.freeList == [] then [] else s.freeList[1..]
    ensures s.requests <= r.st.requests && |r.st.requests| <= |s.requests| + |s.links|
    ensures s.freeList == [] ==> r.st == s
    ensures s.freeList != [] ==> forall k :: |s.requests| <= k < |r.st.requests| ==>
      r.st.requests[k].buffer == s.freeList[0] && r.st.requests[k].link < |s.links|
  {
    if s.freeList == [] then RequestResult(s, NoBuffer)
    else
      var r := RoundRobin(s.links, s.iTeb, postRc, |s.requests|, s.freeList[0], |s.links|);
      var st := ServerState(r.cursor, s.links, s.freeList[1..], s.requests + r.requests);
      RequestResult(st, RobinOutcome(r))
  }

  /** How `_requestDatagram` ends after its loop. */
  function RobinOutcome(r: Robin): RequestOutcome
  {
    if r.undefined then RequestUndefined else if r.rc != 0 then Undelivered(r.rc) else Delivered
  }

  /** With an empty free list nothing is posted and nothing changes. */
  lemma NoFreeBufferPostsNothing(s: ServerState, postRc: nat -> int)
    requires s.freeList == []
    ensures RequestSpec(s, postRc) == RequestResult(s, NoBuffer)
  {
  }

  /**
   * With every slot linked and the cursor in range, the first i iterations try
   * the links cursor, cursor + 1, … (mod n) in turn, one post per iteration,
   * stopping right after the first post answered 0, and leave the cursor one
   * past the last link tried.
   */
  lemma {:induction false} RoundRobinOrder(links: seq<Option<nat>>, cursor: nat, postRc: nat -> int, base: nat, buffer: nat, i: nat)
    requires AllLinked(links) && cursor < |links|
    ensures var r := RoundRobin(links, cursor, postRc, base, buffer, i);
      var m := |r.requests|;
      && !r.undefined && m <= i
      && (!r.delivered ==> m == i)
      && r.cursor == (cursor + m) % |links|
      && (forall k :: 0 <= k < m ==> r.requests[k] == Request((cursor + k) % |links|, buffer))
      && (forall k :: base <= k < base + m - 1 ==> postRc(k) != 0)
      && (m == 0 ==> r.rc == -1) && (m > 0 ==> r.rc == postRc(base + m - 1))
      && r.delivered == (m > 0 && r.rc == 0)
  {
    if i > 0 {
      RoundRobinOrder(links, cursor, postRc, base, buffer, i - 1);
      var r := RoundRobin(links, cursor, postRc, base, buffer, i - 1);
      var m := |r.requests|;
      if !r.delivered {
        var t := r.cursor;
        ModSucc(cursor + m, |links|);
        assert Advance(t, |links|) == (cursor + m + 1) % |links|;
        var r' := RoundRobin(links, cursor, postRc, base, buffer, i);
        assert r'.requests == r.requests + [Request(t, buffer)];
        assert r'.rc == postRc(base + m);
      }
    }
  }

  /** Within one round of n attempts no link is tried twice. */
  lemma RoundIsInjective(cursor: nat, n: nat, k1: nat, k2: nat)
    requires n >= 1 && k1 < k2 < n
    ensures (cursor + k1) % n != (cursor + k2) % n
  {
    var q, r := (cursor + k1) / n, (cursor + k1) % n;
    var d := k2 - k1;
    assert cursor + k2 == q * n + r + d;
    if r + d < n {
      ModUnique(cursor + k2, n, q, r + d);
    } else {
      assert cursor + k2 == (q + 1) * n + (r + d - n);
      ModUnique(cursor + k2, n, q + 1, r + d - n);
    }
  }

  /**
   * `_requestDatagram` with a free buffer and every link connected: the head
   * buffer is taken off the free list, each link is tried at most once in
   * round-robin order from `_iTeb`, the loop stops at the first delivery, and
   * `_iTeb` ends one past the last link tried.
   */
  lemma RequestRoundRobin(s: ServerState, postRc: nat -> int)
    requires s.freeList != [] && AllLinked(s.links) && s.iTeb < |s.links|
    ensures var r := RequestSpec(s, postRc);
      var sent := r.st.requests[|s.requests|..];
      var n := |s.links|;
      && r.st.freeList == s.freeList[1..]
      && |r.st.requests| >= |s.requests| && r.st.requests[..|s.requests|] == s.requests
      && 1 <= |sent| <= n
      && (forall k :: 0 <= k < |sent| ==> sent[k] == Request((s.iTeb + k) % n, s.freeList[0]))
      && (forall k1, k2 :: 0 <= k1 < k2 < |sent| ==> sent[k1].link != sent[k2].link)
      && (forall k :: |s.requests| <= k < |s.requests| + |sent| - 1 ==> postRc(k) != 0)
      && r.st.iTeb == (s.iTeb + |sent|) % n
      && (r.outcome == Delivered <==> postRc(|s.requests| + |sent| - 1) == 0)
      && (r.outcome != Delivered ==> |sent| == n && r.outcome == Undelivered(postRc(|s.requests| + n - 1)))
  {
    var n := |s.links|;
    RoundRobinOrder(s.links, s.iTeb, postRc, |s.requests|, s.freeList[0], n);
    var rr := RoundRobin(s.links, s.iTeb, postRc, |s.requests|, s.freeList[0], n);
    var r := RequestSpec(s, postRc);
    assert r.st.requests == s.requests + rr.requests;
    assert r.st.requests[|s.requests|..] == rr.requests;
    forall k1, k2 | 0 <= k1 < k2 < |rr.requests|
      ensures rr.requests[k1].link != rr.requests[k2].link
    {
      RoundIsInjective(s.iTeb, n, k1, k2);
    }
  }

  /** With no TEB link the buffer is taken but no post is made, and the request fails with -1. */
  lemma RequestWithoutLinks(s: ServerState, postRc: nat -> int)
    requires s.freeList != [] && s.links == []
    ensures RequestSpec(s, postRc) ==
      RequestResult(ServerState(s.iTeb, s.links, s.freeList[1..], s.requests), Undelivered(-1))
  {
  }

  // ---------------------------------------------------------------- the server

  class MonitorServer {
    /** The number of event buffers, the free list's capacity. */
    const capacity: nat
    const postRc: nat -> int

    var iTeb: nat
    var id: int
    var links: seq<Option<nat>>
    var freeList: seq<nat>
    var requests: seq<Request>

    function State(): ServerState
      reads this
    {
      ServerState(iTeb, links, freeList, requests)
    }

    /** The free list is within its capacity and holds no index twice. */
    predicate Valid()
      reads this
    {
      |freeList| <= capacity && Distinct(freeList)
    }

    constructor (numEvBuffers: nat, postRc: nat -> int)
      ensures capacity == numEvBuffers && this.postRc == postRc
      ensures iTeb == 0 && id == -1 && links == [] && freeList == [] && requests == []
      ensures Valid()
    {
      capacity := numEvBuffers;
      this.postRc := postRc;
      iTeb := 0;
      id := -1;
      links := [];
      freeList := [];
      requests := [];
    }

    /**
     * `configure`: the cursor reset, the links connected, then the indices
     * 0, 1, … pushed until the free list is full, -1 when a push fails. From the
     * empty free list every buffer 0..capacity-1 goes on, in order.
     */
    method Configure(prmsId: int, conns: seq<Connection>) returns (r: ConfigureResult)
      requires Valid()
      modifies this`iTeb, this`id, this`links, this`freeList
      ensures iTeb == 0 && id == prmsId && requests == old(requests)
      ensures var c := Connect(Resize(old(links), |conns|), conns);
        && links == c.links
        && (c.result != ConfigureRc(0) ==> r == c.result && freeList == old(freeList))
        && (c.result == ConfigureRc(0) && old(freeList) == [] ==> r == ConfigureRc(0) && freeList == Range(capacity))
        && (c.result == ConfigureRc(0) && old(freeList) != [] ==>
              r == ConfigureRc(-1) && freeList == old(freeList) + Range(capacity - |old(freeList)|))
      ensures |freeList| <= capacity
      ensures old(freeList) == [] ==> Valid()
    {
      iTeb := 0;
      id := prmsId;
      ghost var c := Connect(Resize(links, |conns|), conns);
      ghost var free0 := freeList;
      links, r := ConnectAll(Resize(links, |conns|), conns);
      assert links == c.links && r == c.result;
      if r != ConfigureRc(0) {
        return;
      }
      var i := 0;
      while i < capacity
        invariant 0 <= i <= capacity
        invariant |free0| + i <= capacity
        invariant freeList == free0 + Range(i)
        invariant iTeb == 0 && id == prmsId && links == c.links
      {
        if |freeList| >= capacity {
          assert free0 != [] && i == capacity - |free0|;
          return ConfigureRc(-1);
        }
        freeList := freeList + [i];
        i := i + 1;
      }
      r := ConfigureRc(0);
      RangeDistinct(capacity);
    }

    /** `shutdown`: the links disconnected, the free list emptied, the id reset. */
    method Shutdown()
      modifies this`links, this`freeList, this`id
      ensures links == [] && freeList == [] && id == -1
      ensures Valid()
    {
      links := [];
      freeList := [];
      id := -1;
    }

    /** `_deleteDatagram(dg)`, given the datagram's env word. */
    method DeleteDatagram(env: bv32) returns (outcome: DeleteOutcome)
      requires Valid()
      modifies this`freeList
      ensures FreeResult(freeList, outcome) == DeleteSpec(capacity, old(freeList), UnpackIndex(env) as nat)
      ensures Valid()
    {
      var idx := UnpackIndex(env) as nat;
      var warned := idx >= capacity;
      var i := 0;
      while i < |freeList|
        invariant 0 <= i <= |freeList|
        invariant forall j :: 0 <= j < i ==> freeList[j] != idx
      {
        if idx == freeList[i] {
          return DeleteOutcome(warned, DoubleFree(i));
        }
        i := i + 1;
      }
      if |freeList| >= capacity {
        return DeleteOutcome(warned, PushFailed);
      }
      freeList := freeList + [idx];
      outcome := DeleteOutcome(warned, Freed);
      DeleteNeverDuplicates(capacity, old(freeList), idx);
    }

    /** `_requestDatagram`: the head of the free list taken, then offered to the TEBs. */
    method RequestDatagram() returns (outcome: RequestOutcome)
      requires Valid()
      modifies this`iTeb, this`freeList, this`requests
      ensures RequestResult(State(), outcome) == RequestSpec(old(State()), postRc)
      ensures Valid()
    {
      if freeList == [] {
        return NoBuffer;
      }
      DistinctTail(freeList);
      var data := freeList[0];
      freeList := freeList[1..];
      var sent, cursor;
      sent, cursor, outcome := OfferBuffer(links, iTeb, postRc, |requests|, data);
      iTeb := cursor;
      requests := requests + sent;
    }
  }

  /**
   * The loop of `_requestDatagram`: the buffer offered to each TEB in turn
   * from the cursor, the i-th post answered by `postRc(base + i)`; it returns
   * the posts made and the new cursor.
   */
  method OfferBuffer(links: seq<Option<nat>>, cursor: nat, postRc: nat -> int, base: nat, data: nat)
    returns (sent: seq<Request>, iTeb: nat, outcome: RequestOutcome)
    ensures var r := RoundRobin(links, cursor, postRc, base, data, |links|);
      sent == r.requests && iTeb == r.cursor && outcome == RobinOutcome(r)
  {
    var rc := -1;
    var i := 0;
    sent := [];
    iTeb := cursor;
    while i < |links|
      invariant 0 <= i <= |links|
      invariant RoundRobin(links, cursor, postRc, base, data, i) == Robin(sent, iTeb, rc, false, false)
    {
      ghost var next := RobinStep(Robin(sent, iTeb, rc, false, false), links, postRc, base, data);
      assert RoundRobin(links, cursor, postRc, base, data, i + 1) == next;
      var t := iTeb;
      iTeb := iTeb + 1;
      if iTeb == |links| {
        iTeb := 0;
      }
      if t >= |links| || links[t].None? {
        RoundRobinStops(links, cursor, postRc, base, data, i + 1, |links|);
        return sent, iTeb, RequestUndefined;
      }
      rc := postRc(base + |sent|);
      sent := sent + [Request(t, data)];
      i := i + 1;
      if rc == 0 {
        RoundRobinStops(links, cursor, postRc, base, data, i, |links|);
        return sent, iTeb, Delivered;
      }
    }
    outcome := if rc != 0 then Undelivered(rc) else Delivered;
  }

  /** Once the loop has stopped, further iterations change nothing. */
  lemma {:induction false} RoundRobinStops(links: seq<Option<nat>>, cursor: nat, postRc: nat -> int, base: nat, buffer: nat, i: nat, j: nat)
    requires i <= j
    requires RoundRobin(links, cursor, postRc, base, buffer, i).delivered || RoundRobin(links, cursor, postRc, base, buffer, i).undefined
    ensures RoundRobin(links, cursor, postRc, base, buffer, j) == RoundRobin(links, cursor, postRc, base, buffer, i)
    decreases j
  {
    if i < j {
      RoundRobinStops(links, cursor, postRc, base, buffer, i, j - 1);
    }
  }

  // ---------------------------------------------------------------- connection parameters

  /** One entry of the collection's `drp` section. */
  datatype DrpInfo = DrpInfo(drpId: nat, readout: nat, maxTrSize: nat, maxEvSize: nat)

  /** One entry of the `teb` section. */
  datatype TebInfo = TebInfo(tebId: nat, nicIp: string)

  /** The connect message body: this MEB's entry, and the two sections when present, in iteration order. */
  datatype ConnectBody = ConnectBody(mebId: nat, nicIp: string, drp: Option<seq<DrpInfo>>, teb: Option<seq<TebInfo>>)

  /** The MEB parameters `_parseConnectionParams` fills in. */
  datatype MebParams = MebParams(
    id: nat,
    ifAddr: string,
    ebPort: string,
    contributors: nat,
    contractors: seq<nat>,
    groups: nat,
    maxTrSize: seq<nat>,
    maxBufferSize: nat,
    addrs: seq<string>,
    ports: seq<string>)

  /** Returned 1, filled in the parameters and returned 0, or wrote outside `maxTrSize`. */
  datatype ParseResult = ParseFailed | Parsed(prms: MebParams) | ParseUndefined

  /** `numPorts`: the ports one partition uses. */
  const NUM_PORTS: nat := MAX_DRPS + MAX_TEBS + MAX_TEBS + MAX_MEBS

  function MrqPortBase(partition: nat): nat
  {
    (MRQ_PORT_BASE + NUM_PORTS * partition) % U32
  }

  function MebPortBase(partition: nat): nat
  {
    (MEB_PORT_BASE + NUM_PORTS * partition) % U32
  }

  /** The port number `base + id` in an `unsigned`. */
  function Port(base: nat, id: nat): nat
  {
    (base + id) % U32
  }

  /** Both additions wrap in 32 bits, and wrapping once at the end gives the same port. */
  lemma PortOffset(base: nat, partition: nat, id: nat)
    ensures Port((base + NUM_PORTS * partition) % U32, id) == (base + NUM_PORTS * partition + id) % U32
  {
    ModAddMod(base + NUM_PORTS * partition, id, U32);
  }

  /** The DRP loop's state: the bits and the two size sums, and whether it stopped. */
  datatype DrpScan = DrpScan(
    contributors: nat, contractors: seq<nat>, groups: nat, maxTrSize: seq<nat>,
    trSum: nat, evSum: nat, failed: bool, undefined: bool)

  const U64: nat := 0x1_0000_0000_0000_0000

  /** `std::vector<size_t>::resize(n)`: the first n sizes kept, new ones 0. */
  function ResizeSizes(sizes: seq<nat>, n: nat): (r: seq<nat>)
    ensures |r| == n
  {
    if n <= |sizes| then sizes[..n] else sizes + seq(n - |sizes|, _ => 0)
  }

  /** The DRP loop of `_parseConnectionParams` (monReqServer.cc:661-685) over the entries drps, starting from the resized `maxTrSize`. */
  function ScanDrps(drps: seq<DrpInfo>, sizes: seq<nat>): (r: DrpScan)
    ensures |r.contractors| == NUM_READOUT_GROUPS && |r.maxTrSize| == |sizes|
  {
    if drps == [] then DrpScan(0, seq(NUM_READOUT_GROUPS, _ => 0), 0, sizes, 0, 0, false, false)
    else
      var r := ScanDrps(drps[..|drps| - 1], sizes);
      if r.failed || r.undefined then r else DrpStep(r, drps[|drps| - 1])
  }

  /** One iteration of the DRP loop, for the entry d. */
  function DrpStep(r: DrpScan, d: DrpInfo): (r': DrpScan)
    requires |r.contractors| == NUM_READOUT_GROUPS
    ensures |r'.contractors| == NUM_READOUT_GROUPS && |r'.maxTrSize| == |r.maxTrSize|
  {
    if d.drpId > MAX_DRPS - 1 then r.(failed := true)
    else
      var contributors := Or(r.contributors, Pow2(d.drpId));
      if d.readout > NUM_READOUT_GROUPS - 1 then r.(contributors := contributors, failed := true)
      else
        var contractors := r.contractors[d.readout := Or(r.contractors[d.readout], Pow2(d.drpId))];
        var groups := Or(r.groups, Pow2(d.readout));
        if d.drpId >= |r.maxTrSize| then
          r.(contributors := contributors, contractors := contractors, groups := groups, undefined := true)
        else
          DrpScan(contributors, contractors, groups, r.maxTrSize[d.drpId := d.maxTrSize],
                  (r.trSum + d.maxTrSize) % U64, (r.evSum + d.maxEvSize) % U64, false, false)
  }

  /** The TEB loop's result: the TEB addresses and their ports, in entry order. */
  datatype TebScan = TebScan(addrs: seq<string>, ports: seq<string>)

  /** The TEB loop of `_parseConnectionParams` (monReqServer.cc:694-704): addresses and ports, or None on an out-of-range TEB id. */
  function ScanTebs(tebs: seq<TebInfo>, mrqPortBase: nat): Option<TebScan>
  {
    if tebs == [] then Some(TebScan([], []))
    else
      var r := ScanTebs(tebs[..|tebs| - 1], mrqPortBase);
      var t := tebs[|tebs| - 1];
      if r.None? || t.tebId > MAX_TEBS - 1 then None
      else Some(TebScan(r.value.addrs + [t.nicIp], r.value.ports + [Decimal(Port(mrqPortBase, t.tebId))]))
  }

  /**
   * `_parseConnectionParams` (monReqServer.cc:623-710), given the `maxTrSize` left by the
   * previous connect; `slots` says how many slots it is resized to.
   */
  function ParseWith(partition: nat, body: ConnectBody, prior: seq<nat>, slots: nat): ParseResult
  {
    if body.mebId >= MAX_MEBS then ParseFailed
    else if body.drp.None? then ParseFailed
    else AfterDrps(partition, body, ScanDrps(body.drp.value, ResizeSizes(prior, slots)))
  }

  /** The end of `_parseConnectionParams` (monReqServer.cc:686-710): what follows the DRP loop. */
  function AfterDrps(partition: nat, body: ConnectBody, scan: DrpScan): ParseResult
  {
    if scan.failed then ParseFailed
    else if scan.undefined then ParseUndefined
    else if body.teb.None? then ParseFailed
    else
      var tebs := ScanTebs(body.teb.value, MrqPortBase(partition));
      if tebs.None? then ParseFailed
      else Parsed(Assemble(partition, body.mebId, body.nicIp, scan, tebs.value))
  }

  /** The parameters a successful parse leaves in `_prms`. */
  function Assemble(partition: nat, mebId: nat, nicIp: string, scan: DrpScan, tebs: TebScan): MebParams
  {
    var maxBufferSize := (if scan.evSum > scan.trSum then scan.evSum else scan.trSum) % U32;
    MebParams(mebId, nicIp, Decimal(Port(MebPortBase(partition), mebId)),
              scan.contributors, scan.contractors, scan.groups, scan.maxTrSize,
              maxBufferSize, tebs.addrs, tebs.ports)
  }

  /**
   * An out-of-range MEB id or a missing `drp` section fails; a success names
   * this MEB, its interface, and one address and port per TEB entry.
   */
  lemma ParseShape(partition: nat, body: ConnectBody, prior: seq<nat>, slots: nat)
    ensures body.mebId >= MAX_MEBS || body.drp.None? ==> ParseWith(partition, body, prior, slots) == ParseFailed
    ensures ParseWith(partition, body, prior, slots).Parsed? ==>
      var p := ParseWith(partition, body, prior, slots).prms;
      && p.id == body.mebId && p.ifAddr == body.nicIp && body.teb.Some?
      && |p.addrs| == |p.ports| == |body.teb.value|
  {
    if ParseWith(partition, body, prior, slots).Parsed? {
      ParsePorts(partition, body, prior, slots);
    }
  }

  /** As written: `maxTrSize` gets one slot per DRP entry but is indexed by DRP id. */
  function ParseSpec(partition: nat, body: ConnectBody, prior: seq<nat>): (r: ParseResult)
    ensures body.mebId >= MAX_MEBS || body.drp.None? ==> r == ParseFailed
    ensures r.Parsed? ==>
      && r.prms.id == body.mebId && r.prms.ifAddr == body.nicIp && body.teb.Some?
      && |r.prms.addrs| == |r.prms.ports| == |body.teb.value|
  {
    var slots := if body.drp.Some? then |body.drp.value| else 0;
    ParseShape(partition, body, prior, slots);
    ParseWith(partition, body, prior, slots)
  }

  /** As evidently intended: one `maxTrSize` slot per possible DRP id, so no write is out of bounds. */
  function ParseSpecFixed(partition: nat, body: ConnectBody, prior: seq<nat>): (r: ParseResult)
    ensures !r.ParseUndefined?
    ensures body.mebId >= MAX_MEBS || body.drp.None? ==> r == ParseFailed
    ensures r.Parsed? ==>
      && r.prms.id == body.mebId && r.prms.ifAddr == body.nicIp && body.teb.Some?
      && |r.prms.addrs| == |r.prms.ports| == |body.teb.value|
  {
    ParseShape(partition, body, prior, MAX_DRPS);
    if body.mebId < MAX_MEBS && body.drp.Some? then
      ScanDrpsDefined(body.drp.value, ResizeSizes(prior, MAX_DRPS));
      ParseWith(partition, body, prior, MAX_DRPS)
    else
      ParseWith(partition, body, prior, MAX_DRPS)
  }

  /** The DRP entries' ids and readout groups are all in range. */
  predicate DrpsInRange(drps: seq<DrpInfo>)
  {
    forall i :: 0 <= i < |drps| ==> drps[i].drpId < MAX_DRPS && drps[i].readout < NUM_READOUT_GROUPS
  }

  /** The bit list of the DRPs whose entries name readout group g. */
  function GroupMembers(drps: seq<DrpInfo>, g: nat): nat
  {
    if drps == [] then 0
    else
      var d := drps[|drps| - 1];
      var rest := GroupMembers(drps[..|drps| - 1], g);
      if d.readout == g then Or(rest, Pow2(d.drpId)) else rest
  }

  /** The OR of `1 << drpId` over the entries. */
  function AllMembers(drps: seq<DrpInfo>): nat
  {
    if drps == [] then 0 else Or(AllMembers(drps[..|drps| - 1]), Pow2(drps[|drps| - 1].drpId))
  }

  /** The summed `max_tr_size` and `max_ev_size`, in `size_t`. */
  function SumTr(drps: seq<DrpInfo>): nat
  {
    if drps == [] then 0 else (SumTr(drps[..|drps| - 1]) + drps[|drps| - 1].maxTrSize) % U64
  }

  function SumEv(drps: seq<DrpInfo>): nat
  {
    if drps == [] then 0 else (SumEv(drps[..|drps| - 1]) + drps[|drps| - 1].maxEvSize) % U64
  }

  /** The OR of `1 << readout` over the entries. */
  function AllGroups(drps: seq<DrpInfo>): nat
  {
    if drps == [] then 0 else Or(AllGroups(drps[..|drps| - 1]), Pow2(drps[|drps| - 1].readout))
  }

  /** With every entry in range and a slot for every DRP id, the DRP loop runs to the end. */
  lemma {:induction false} ScanDrpsCompletes(drps: seq<DrpInfo>, sizes: seq<nat>)
    requires DrpsInRange(drps) && |sizes| >= MAX_DRPS
    ensures !ScanDrps(drps, sizes).failed && !ScanDrps(drps, sizes).undefined
  {
    if drps != [] {
      var init := drps[..|drps| - 1];
      assert DrpsInRange(init) by {
        forall i | 0 <= i < |init| ensures init[i] == drps[i] { }
      }
      ScanDrpsCompletes(init, sizes);
    }
  }

  /**
   * A completed DRP loop: `contributors` is the OR of every `1 << drpId`,
   * `groups` the OR of every `1 << readout`, and each `contractors[g]` the OR
   * over the entries of group g.
   */
  lemma {:induction false} ScanDrpsMembers(drps: seq<DrpInfo>, sizes: seq<nat>)
    requires DrpsInRange(drps) && |sizes| >= MAX_DRPS
    ensures var r := ScanDrps(drps, sizes);
      && r.contributors == AllMembers(drps) && r.groups == AllGroups(drps)
      && (forall g :: 0 <= g < NUM_READOUT_GROUPS ==> r.contractors[g] == GroupMembers(drps, g))
  {
    if drps != [] {
      var init := drps[..|drps| - 1];
      assert DrpsInRange(init) by {
        forall i | 0 <= i < |init| ensures init[i] == drps[i] { }
      }
      ScanDrpsCompletes(init, sizes);
      ScanDrpsMembers(init, sizes);
      assert ScanDrps(drps, sizes) == DrpStep(ScanDrps(init, sizes), drps[|drps| - 1]);
    }
  }

  /** A completed DRP loop: the two sums are the entries' sizes summed in `size_t`. */
  lemma {:induction false} ScanDrpsSums(drps: seq<DrpInfo>, sizes: seq<nat>)
    requires DrpsInRange(drps) && |sizes| >= MAX_DRPS
    ensures ScanDrps(drps, sizes).trSum == SumTr(drps) && ScanDrps(drps, sizes).evSum == SumEv(drps)
  {
    if drps != [] {
      var init := drps[..|drps| - 1];
      assert DrpsInRange(init) by {
        forall i | 0 <= i < |init| ensures init[i] == drps[i] { }
      }
      ScanDrpsCompletes(init, sizes);
      ScanDrpsSums(init, sizes);
      assert ScanDrps(drps, sizes) == DrpStep(ScanDrps(init, sizes), drps[|drps| - 1]);
    }
  }

  /** A completed DRP loop: each DRP's slot holds the size its last entry gave, other slots are kept. */
  lemma {:induction false} ScanDrpsSizes(drps: seq<DrpInfo>, sizes: seq<nat>)
    requires DrpsInRange(drps) && |sizes| >= MAX_DRPS
    ensures forall id :: 0 <= id < |sizes| ==> ScanDrps(drps, sizes).maxTrSize[id] == LastTrSize(drps, id, sizes[id])
  {
    if drps != [] {
      var init := drps[..|drps| - 1];
      assert DrpsInRange(init) by {
        forall i | 0 <= i < |init| ensures init[i] == drps[i] { }
      }
      ScanDrpsCompletes(init, sizes);
      ScanDrpsSizes(init, sizes);
      assert ScanDrps(drps, sizes) == DrpStep(ScanDrps(init, sizes), drps[|drps| - 1]);
    }
  }

  /** The `max_tr_size` of the last entry for DRP id, or dflt when no entry names it. */
  function LastTrSize(drps: seq<DrpInfo>, id: nat, dflt: nat): nat
  {
    if drps == [] then dflt
    else if drps[|drps| - 1].drpId == id then drps[|drps| - 1].maxTrSize
    else LastTrSize(drps[..|drps| - 1], id, dflt)
  }

  /** Some entry has its DRP id or its readout group out of range. */
  predicate SomeDrpOutOfRange(drps: seq<DrpInfo>)
  {
    exists i :: 0 <= i < |drps| && (drps[i].drpId >= MAX_DRPS || drps[i].readout >= NUM_READOUT_GROUPS)
  }

  /** An out-of-range entry stops the DRP loop with 1, unless an earlier entry overran `maxTrSize`. */
  lemma {:induction false} ScanDrpsRejects(drps: seq<DrpInfo>, sizes: seq<nat>)
    requires SomeDrpOutOfRange(drps)
    ensures ScanDrps(drps, sizes).failed || ScanDrps(drps, sizes).undefined
    ensures |sizes| >= MAX_DRPS ==> ScanDrps(drps, sizes).failed
  {
    var init := drps[..|drps| - 1];
    var i :| 0 <= i < |drps| && (drps[i].drpId >= MAX_DRPS || drps[i].readout >= NUM_READOUT_GROUPS);
    if i < |init| {
      assert init[i] == drps[i];
      ScanDrpsRejects(init, sizes);
    } else if |sizes| >= MAX_DRPS {
      ScanDrpsDefined(init, sizes);
    }
  }

  lemma {:induction false} ScanDrpsDefined(drps: seq<DrpInfo>, sizes: seq<nat>)
    requires |sizes| >= MAX_DRPS
    ensures !ScanDrps(drps, sizes).undefined
  {
    if drps != [] {
      ScanDrpsDefined(drps[..|drps| - 1], sizes);
    }
  }

  /** Some TEB entry's id is out of range. */
  predicate SomeTebOutOfRange(tebs: seq<TebInfo>)
  {
    exists i :: 0 <= i < |tebs| && tebs[i].tebId >= MAX_TEBS
  }

  lemma {:induction false} ScanTebsRejects(tebs: seq<TebInfo>, base: nat)
    requires SomeTebOutOfRange(tebs)
    ensures ScanTebs(tebs, base).None?
  {
    var init := tebs[..|tebs| - 1];
    var i :| 0 <= i < |tebs| && tebs[i].tebId >= MAX_TEBS;
    if i < |init| {
      assert init[i] == tebs[i];
      ScanTebsRejects(init, base);
    }
  }

  /**
   * `_parseConnectionParams` returns 1 for an out-of-range MEB id, a missing
   * `drp` section, an out-of-range DRP id or readout group, a missing `teb`
   * section, or an out-of-range TEB id; as written, a DRP entry that overran
   * `maxTrSize` may come first.
   */
  lemma ParseRejects(partition: nat, body: ConnectBody, prior: seq<nat>)
    ensures body.mebId >= MAX_MEBS ==> ParseSpec(partition, body, prior) == ParseFailed
    ensures body.drp.None? ==> ParseSpec(partition, body, prior) == ParseFailed
    ensures body.drp.Some? && SomeDrpOutOfRange(body.drp.value) ==>
      ParseSpecFixed(partition, body, prior) == ParseFailed &&
      ParseSpec(partition, body, prior) in {ParseFailed, ParseUndefined}
    ensures body.teb.None? ==> !ParseSpecFixed(partition, body, prior).Parsed?
    ensures body.teb.Some? && SomeTebOutOfRange(body.teb.value) ==> !ParseSpecFixed(partition, body, prior).Parsed?
  {
    if body.drp.Some? {
      if SomeDrpOutOfRange(body.drp.value) {
        ScanDrpsRejects(body.drp.value, ResizeSizes(prior, |body.drp.value|));
        ScanDrpsRejects(body.drp.value, ResizeSizes(prior, MAX_DRPS));
      }
    }
    if body.teb.Some? && SomeTebOutOfRange(body.teb.value) {
      ScanTebsRejects(body.teb.value, MrqPortBase(partition));
    }
  }

  /**
   * The ports: the MEB listens at `mebPortBase + meb_id`, and TEB entry k is
   * reached at its address on port `mrqPortBase + teb_id`; see `PortOffset` for
   * the port numbers.
   */
  lemma ParsePorts(partition: nat, body: ConnectBody, prior: seq<nat>, slots: nat)
    requires ParseWith(partition, body, prior, slots).Parsed?
    ensures var p := ParseWith(partition, body, prior, slots).prms;
      && p.id == body.mebId < MAX_MEBS && p.ifAddr == body.nicIp
      && p.ebPort == Decimal(Port(MebPortBase(partition), body.mebId))
      && |p.ports| == |body.teb.value| == |p.addrs|
      && forall k :: 0 <= k < |p.ports| ==>
           && p.ports[k] == Decimal(Port(MrqPortBase(partition), body.teb.value[k].tebId))
           && p.addrs[k] == body.teb.value[k].nicIp && body.teb.value[k].tebId < MAX_TEBS
  {
    var t := ParsedIsAssembled(partition, body, prior, slots);
    ScanTebsPorts(body.teb.value, MrqPortBase(partition));
  }

  /** A successful parse is the assembly of the two loops' results. */
  lemma ParsedIsAssembled(partition: nat, body: ConnectBody, prior: seq<nat>, slots: nat) returns (t: TebScan)
    requires ParseWith(partition, body, prior, slots).Parsed?
    ensures body.mebId < MAX_MEBS && body.teb.Some? && body.drp.Some?
    ensures ScanTebs(body.teb.value, MrqPortBase(partition)) == Some(t)
    ensures ParseWith(partition, body, prior, slots).prms ==
      Assemble(partition, body.mebId, body.nicIp, ScanDrps(body.drp.value, ResizeSizes(prior, slots)), t)
  {
    t := ScanTebs(body.teb.value, MrqPortBase(partition)).value;
  }

  lemma ModAddMod(a: nat, b: nat, n: nat)
    requires n >= 1
    ensures (a % n + b) % n == (a + b) % n
  {
    var q, r := a / n, a % n;
    var q2, r2 := (r + b) / n, (r + b) % n;
    assert r + b == q2 * n + r2;
    assert a + b == (q + q2) * n + r2;
    ModUnique(a + b, n, q + q2, r2);
  }

  lemma {:induction false} ScanTebsPorts(tebs: seq<TebInfo>, base: nat)
    requires ScanTebs(tebs, base).Some?
    ensures var addrs, ports := ScanTebs(tebs, base).value.addrs, ScanTebs(tebs, base).value.ports;
      && |addrs| == |tebs| == |ports|
      && forall k :: 0 <= k < |tebs| ==>
           addrs[k] == tebs[k].nicIp && ports[k] == Decimal(Port(base, tebs[k].tebId)) && tebs[k].tebId < MAX_TEBS
  {
    if tebs != [] {
      ScanTebsPorts(tebs[..|tebs| - 1], base);
    }
  }

  /**
   * Parsed parameters: `contributors` is the OR of every `1 << drpId`, each
   * `contractors[g]` the OR over group g's entries, `groups` the OR of the
   * readout groups, each DRP's `maxTrSize` slot the size its last entry gave
   * (slots no entry names keep their earlier size), and `maxBufferSize` the
   * larger of the two size sums, kept in an `unsigned`.
   */
  lemma ParseAggregates(partition: nat, body: ConnectBody, prior: seq<nat>)
    requires ParseSpecFixed(partition, body, prior).Parsed?
    ensures var p := ParseSpecFixed(partition, body, prior).prms;
      var drps := body.drp.value;
      && DrpsInRange(drps)
      && p.maxBufferSize == (if SumEv(drps) > SumTr(drps) then SumEv(drps) else SumTr(drps)) % U32
      && p.contributors == AllMembers(drps) && p.groups == AllGroups(drps)
      && (forall g :: 0 <= g < NUM_READOUT_GROUPS ==> p.contractors[g] == GroupMembers(drps, g))
      && |p.maxTrSize| == MAX_DRPS
      && (forall id :: 0 <= id < MAX_DRPS ==> p.maxTrSize[id] == LastTrSize(drps, id, ResizeSizes(prior, MAX_DRPS)[id]))
  {
    var drps := body.drp.value;
    if !DrpsInRange(drps) {
      assert SomeDrpOutOfRange(drps) by {
        var i :| 0 <= i < |drps| && !(drps[i].drpId < MAX_DRPS && drps[i].readout < NUM_READOUT_GROUPS);
      }
      ParseRejects(partition, body, prior);
      assert false;
    }
    var t := ParsedIsAssembled(partition, body, prior, MAX_DRPS);
    ScanDrpsMembers(drps, ResizeSizes(prior, MAX_DRPS));
    ScanDrpsSums(drps, ResizeSizes(prior, MAX_DRPS));
    ScanDrpsSizes(drps, ResizeSizes(prior, MAX_DRPS));
  }

  /** The corrected sizing never writes outside `maxTrSize`. */
  lemma ParseFixedIsDefined(partition: nat, body: ConnectBody, prior: seq<nat>)
    ensures !ParseSpecFixed(partition, body, prior).ParseUndefined?
  {
    if body.mebId < MAX_MEBS && body.drp.Some? {
      ScanDrpsDefined(body.drp.value, ResizeSizes(prior, MAX_DRPS));
    }
  }

  /** A single DRP entry with id 1 on a first connect: as written `maxTrSize` has one slot, and slot 1 is written. */
  lemma MaxTrSizeOverrun()
    ensures var body := ConnectBody(0, "10.0.0.1", Some([DrpInfo(1, 0, 1024, 4096)]), Some([]));
      && ParseSpec(0, body, []) == ParseUndefined
      && ParseSpecFixed(0, body, []).Parsed?
      && ParseSpecFixed(0, body, []).prms.maxTrSize[1] == 1024
  {
    var drps := [DrpInfo(1, 0, 1024, 4096)];
    assert drps[..0] == [];
  }

  /** `_parseConnectionParams` (monReqServer.cc:623-710): the two loops run by `ScanDrpsLoop` and `ScanTebsLoop`. */
  method ParseConnectionParams(partition: nat, body: ConnectBody, prior: seq<nat>) returns (r: ParseResult)
    ensures r == ParseSpec(partition, body, prior)
  {
    if body.mebId >= MAX_MEBS || body.drp.None? {
      return ParseFailed;
    }
    var scan := ScanDrpsLoop(body.drp.value, ResizeSizes(prior, |body.drp.value|));
    if scan.failed {
      return ParseFailed;
    }
    if scan.undefined {
      return ParseUndefined;
    }
    if body.teb.None? {
      return ParseFailed;
    }
    var tebs := ScanTebsLoop(body.teb.value, MrqPortBase(partition));
    if tebs.None? {
      return ParseFailed;
    }
    r := Parsed(Assemble(partition, body.mebId, body.nicIp, scan, tebs.value));
  }

  /**
   * The DRP loop: each entry's bit set in `contributors`, `contractors` and
   * `groups`, its sizes stored and summed, stopping at the first id out of range.
   */
  method ScanDrpsLoop(drps: seq<DrpInfo>, sizes: seq<nat>) returns (r: DrpScan)
    ensures r == ScanDrps(drps, sizes)
  {
    var maxTrSize: seq<nat> := sizes;
    var contributors: nat := 0;
    var contractors: seq<nat> := seq(NUM_READOUT_GROUPS, _ => 0);
    var groups: nat := 0;
    var trSum: nat := 0;
    var evSum: nat := 0;
    var i := 0;
    while i < |drps|
      invariant 0 <= i <= |drps| && |contractors| == NUM_READOUT_GROUPS
      invariant ScanDrps(drps[..i], sizes) ==
        DrpScan(contributors, contractors, groups, maxTrSize, trSum, evSum, false, false)
    {
      assert drps[..i + 1][..i] == drps[..i];
      var d := drps[i];
      ghost var next := DrpStep(ScanDrps(drps[..i], sizes), d);
      assert ScanDrps(drps[..i + 1], sizes) == next;
      if d.drpId > MAX_DRPS - 1 {
        ScanDrpsStops(drps, i + 1, sizes);
        return DrpScan(contributors, contractors, groups, maxTrSize, trSum, evSum, true, false);
      }
      contributors := Or(contributors, Pow2(d.drpId));
      if d.readout > NUM_READOUT_GROUPS - 1 {
        ScanDrpsStops(drps, i + 1, sizes);
        return DrpScan(contributors, contractors, groups, maxTrSize, trSum, evSum, true, false);
      }
      contractors := contractors[d.readout := Or(contractors[d.readout], Pow2(d.drpId))];
      groups := Or(groups, Pow2(d.readout));
      if d.drpId >= |maxTrSize| {
        ScanDrpsStops(drps, i + 1, sizes);
        return DrpScan(contributors, contractors, groups, maxTrSize, trSum, evSum, false, true);
      }
      maxTrSize := maxTrSize[d.drpId := d.maxTrSize];
      trSum := (trSum + d.maxTrSize) % U64;
      evSum := (evSum + d.maxEvSize) % U64;
      i := i + 1;
    }
    assert drps[..i] == drps;
    r := DrpScan(contributors, contractors, groups, maxTrSize, trSum, evSum, false, false);
  }

  /** The TEB loop: each TEB's address and port appended, None at the first id out of range. */
  method ScanTebsLoop(tebs: seq<TebInfo>, mrqPortBase: nat) returns (r: Option<TebScan>)
    ensures r == ScanTebs(tebs, mrqPortBase)
  {
    var addrs: seq<string> := [];
    var ports: seq<string> := [];
    var k := 0;
    while k < |tebs|
      invariant 0 <= k <= |tebs|
      invariant ScanTebs(tebs[..k], mrqPortBase) == Some(TebScan(addrs, ports))
    {
      assert tebs[..k + 1][..k] == tebs[..k];
      var t := tebs[k];
      if t.tebId > MAX_TEBS - 1 {
        ScanTebsStops(tebs, k + 1, mrqPortBase);
        return None;
      }
      addrs := addrs + [t.nicIp];
      ports := ports + [Decimal(Port(mrqPortBase, t.tebId))];
      k := k + 1;
    }
    assert tebs[..k] == tebs;
    r := Some(TebScan(addrs, ports));
  }

  lemma {:induction false} ScanDrpsStops(drps: seq<DrpInfo>, i: nat, sizes: seq<nat>)
    requires i <= |drps|
    requires ScanDrps(drps[..i], sizes).failed || ScanDrps(drps[..i], sizes).undefined
    ensures ScanDrps(drps, sizes) == ScanDrps(drps[..i], sizes)
    decreases |drps|
  {
    if i < |drps| {
      var init := drps[..|drps| - 1];
      assert init[..i] == drps[..i];
      ScanDrpsStops(init, i, sizes);
    } else {
      assert drps[..i] == drps;
    }
  }

  lemma {:induction false} ScanTebsStops(tebs: seq<TebInfo>, i: nat, base: nat)
    requires i <= |tebs| && ScanTebs(tebs[..i], base).None?
    ensures ScanTebs(tebs, base).None?
    decreases |tebs|
  {
    if i < |tebs| {
      var init := tebs[..|tebs| - 1];
      assert init[..i] == tebs[..i];
      ScanTebsStops(init, i, base);
    } else {
      assert tebs[..i] == tebs;
    }
  }
}
