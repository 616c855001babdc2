/**
 * The trigger event builder contributor of psdaq `TebContributor.cc`: it groups
 * the datagrams of one DRP into batches, posts each batch to the TEB chosen by
 * the batch index, keeps every posted batch and every bypassing datagram on a
 * pending list for the result receiver, and copies transitions to the other TEBs.
 *
 * A datagram is a value carrying its address in the batch region. The batch
 * manager's `expired` and `Batch::index`, and the return codes of the RDMA link
 * posts, are oracles of the contributor; every post is logged with its
 * destination link, extent, offset and immediate-data fields.
 */
module TebContributor {
  import opened Wrappers
  import opened Bits
  import opened EbConstants
  import opened EbLinks

  const U32: nat := 0x1_0000_0000
  const U64: nat := 0x1_0000_0000_0000_0000

  /** `XtcData::TransitionId` values used by the contributor. */
  const SLOW_UPDATE: nat := 10
  const L1_ACCEPT: nat := 12

  /** An `EbDgram` in the batch region. */
  datatype Dgram = Dgram(addr: nat, pulseId: nat, readoutGroups: nat, service: nat, payloadSize: nat)

  predicate IsEvent(d: Dgram)
  {
    d.service == L1_ACCEPT
  }

  /** A `link->post`: a batch (`ImmData::Buffer | Response`) or a transition (`Transition | NoResponse`). */
  datatype Post =
    | BatchPost(link: nat, start: nat, extent: nat, offset: nat, idx: nat)
    | TransitionPost(link: nat, dgram: nat, extent: nat, offset: nat, tr: nat)

  /** The two `throw`s of the file. */
  datatype Failure = PendingOverflow | UnexpectedPayload

  /** How an operation ended: normally, by a C++ exception, or in undefined behaviour. */
  datatype Outcome = Done | Thrown(failure: Failure) | Undefined

  datatype TebState = TebState(
    batchStart: Option<Dgram>,
    batchEnd: Option<Dgram>,
    contractor: nat,
    pending: seq<Dgram>,
    batchCount: nat,
    posts: seq<Post>)

  /** The parameters, the configured links and the oracles `process` reads. */
  datatype TebEnv = TebEnv(
    partition: nat,
    contractorMask: nat,
    batching: bool,
    maxInputSize: nat,
    batchRegionSize: nat,
    dgramSize: nat,
    numEbs: nat,
    links: seq<Option<nat>>,
    expired: (nat, nat) -> bool,
    batchIndex: nat -> nat,
    postRc: nat -> int)

  datatype Res = Res(st: TebState, out: Outcome)

  /** The readout groups of d that supply trigger input, `readoutGroups & contractor`. */
  function Masked(e: TebEnv, d: Dgram): nat
  {
    And(d.readoutGroups, e.contractorMask)
  }

  /** The TEB a batch starting at pulse pid goes to, when there is at least one. */
  function Destination(e: TebEnv, pid: nat): nat
    requires e.numEbs > 0
  {
    (e.batchIndex(pid) % U32 / MAX_ENTRIES) % e.numEbs
  }

  /** `TebContributor::_post(start, end)` (TebContributor.cc:230-257). */
  function PostBatchSpec(e: TebEnv, s: TebState, start: Dgram, end: Dgram): (r: Res)
    ensures r.st.batchStart == s.batchStart && r.st.batchEnd == s.batchEnd && r.st.contractor == s.contractor
    ensures |r.st.posts| >= |s.posts| && r.st.posts[..|s.posts|] == s.posts
    ensures |r.st.pending| >= |s.pending| && r.st.pending[..|s.pending|] == s.pending
    ensures r.out.Done? ==>
      && r.st.pending == s.pending + [start] && |r.st.posts| == |s.posts| + 1
      && r.st.posts[|s.posts|].BatchPost? && r.st.posts[|s.posts|].start == start.addr
    ensures !r.out.Done? ==> r.st.posts == s.posts
    ensures r.out.Thrown? ==> r.out.failure == PendingOverflow && |r.st.pending| >= MAX_LATENCY
  {
    var idx := e.batchIndex(start.pulseId) % U32;
    var extent := (end.addr - start.addr + e.maxInputSize) % U64;
    var offset := (idx * e.maxInputSize) % U32;
    if e.numEbs == 0 then Res(s, Undefined)
    else
      var dst := Destination(e, start.pulseId);
      if dst >= |e.links| then Res(s, Undefined)
      else
        var pending := s.pending + [start];
        if |pending| >= MAX_LATENCY then Res(s.(pending := pending), Thrown(PendingOverflow))
        else if e.links[dst].None? then Res(s.(pending := pending), Undefined)
        else
          var rc := e.postRc(|s.posts|);
          var posts := s.posts + [BatchPost(dst, start.addr, extent, offset, idx)];
          var count := if rc < 0 then s.batchCount else s.batchCount + 1;
          Res(s.(pending := pending, posts := posts, batchCount := count), Done)
  }

  /** The posts of the link loop of `TebContributor::_post(dgram)` (TebContributor.cc:273-291), and whether it reached a null link. */
  datatype Sent = Sent(posts: seq<Post>, nullLink: bool)

  /** The link loop of `TebContributor::_post(dgram)` (TebContributor.cc:273-291): every link but dst gets the transition. */
  function TransitionPosts(links: seq<Option<nat>>, dst: nat, d: Dgram, extent: nat, offset: nat): Sent
  {
    if links == [] then Sent([], false)
    else
      var r := TransitionPosts(links[..|links| - 1], dst, d, extent, offset);
      var last := links[|links| - 1];
      if r.nullLink || last.None? then Sent(r.posts, true)
      else if last.value != dst then Sent(r.posts + [TransitionPost(last.value, d.addr, extent, offset, d.service)], false)
      else r
  }

  /** `TebContributor::_post(dgram)` (TebContributor.cc:259-292). */
  function PostTransitionSpec(e: TebEnv, s: TebState, d: Dgram): (r: Res)
    ensures r.st == s.(posts := r.st.posts)
    ensures |r.st.posts| >= |s.posts| && r.st.posts[..|s.posts|] == s.posts
  {
    if |e.links| < 2 then Res(s, Done)
    else if e.numEbs == 0 then Res(s, Undefined)
    else
      var dst := Destination(e, d.pulseId);
      if d.payloadSize != 0 then Res(s, Thrown(UnexpectedPayload))
      else
        var offset := (e.batchRegionSize + d.service * e.dgramSize) % U32;
        var sent := TransitionPosts(e.links, dst, d, e.dgramSize, offset);
        assert (s.posts + sent.posts)[..|s.posts|] == s.posts;
        Res(s.(posts := s.posts + sent.posts), if sent.nullLink then Undefined else Done)
  }

  /** Whether d ends the batch because it is a transition other than SlowUpdate, or batching is off. */
  predicate Flush(e: TebEnv, d: Dgram)
  {
    !(d.service == L1_ACCEPT || d.service == SLOW_UPDATE) || !e.batching
  }

  /** The end of the open batch: its last datagram, or its first when it holds one. */
  function OpenEnd(s: TebState): Dgram
    requires s.batchStart.Some?
  {
    if s.batchEnd.Some? then s.batchEnd.value else s.batchStart.value
  }

  /** `TebContributor::process`, the expiry branch (TebContributor.cc:183-192): d expired the open batch, which is posted when its contractor is non-zero. */
  function Expire(e: TebEnv, s: TebState, d: Dgram): (r: Res)
    requires s.batchStart.Some?
    ensures BatchesOnly(s, r.st)
    ensures r.out.Done? ==> r.st.batchStart == Some(d) && r.st.batchEnd == Some(d) && r.st.contractor == Masked(e, d)
    ensures r.out.Thrown? ==> r.out.failure == PendingOverflow
  {
    var posted := if s.contractor != 0 then PostBatchSpec(e, s, s.batchStart.value, OpenEnd(s)) else Res(s, Done);
    if !posted.out.Done? then posted
    else Res(posted.st.(batchStart := Some(d), batchEnd := Some(d), contractor := Masked(e, d)), Done)
  }

  /** `TebContributor::process`, the flush branch (TebContributor.cc:194-203): d flushes the batch, which is posted up to d when its contractor is non-zero. */
  function FlushBatch(e: TebEnv, s: TebState, d: Dgram): (r: Res)
    requires s.batchStart.Some?
    ensures BatchesOnly(s, r.st)
    ensures r.out.Done? ==> r.st.batchStart.None? && r.st.batchEnd.None?
    ensures r.out.Done? ==>
      r.st.pending == if Or(s.contractor, Masked(e, d)) != 0 then s.pending + [s.batchStart.value] else s.pending
    ensures r.out.Thrown? ==> r.out.failure == PendingOverflow
  {
    var s2 := s.(contractor := Or(s.contractor, Masked(e, d)));
    var posted := if s2.contractor != 0 then PostBatchSpec(e, s2, s2.batchStart.value, d) else Res(s2, Done);
    if !posted.out.Done? then posted
    else Res(posted.st.(batchStart := None, batchEnd := None), Done)
  }

  /** `TebContributor::process` (TebContributor.cc:181-204), for a datagram of the common readout group that expired the batch or flushes it. */
  function CloseBatch(e: TebEnv, s: TebState, d: Dgram, expired: bool): (r: Res)
    requires s.batchStart.Some?
    ensures BatchesOnly(s, r.st)
    ensures r.out.Thrown? ==> r.out.failure == PendingOverflow
    ensures r.out.Done? && Flush(e, d) ==> r.st.batchStart.None? && r.st.batchEnd.None?
    ensures r.out.Done? && !Flush(e, d) && expired ==> r.st.batchStart == Some(d) && r.st.batchEnd == Some(d)
  {
    var r1 := if expired then Expire(e, s, d) else Res(s, Done);
    if !r1.out.Done? || !Flush(e, d) then r1
    else
      var r2 := FlushBatch(e, r1.st, d);
      BatchesOnlyTransitive(s, r1.st, r2.st);
      r2
  }

  /** `TebContributor::process` (TebContributor.cc:162-205) when d belongs to the common readout group. */
  function Batch(e: TebEnv, s: TebState, d: Dgram): (r: Res)
    ensures BatchesOnly(s, r.st)
    ensures r.out.Thrown? ==> r.out.failure == PendingOverflow
    ensures r.out.Done? && Flush(e, d) ==> r.st.batchStart.None? && r.st.batchEnd.None?
    ensures r.out.Done? && !Flush(e, d) ==> r.st.batchStart.Some? && r.st.batchEnd == Some(d)
  {
    var s1 := if s.batchStart.None? then s.(batchStart := Some(d), contractor := Masked(e, d)) else s;
    var expired := e.expired(d.pulseId, s1.batchStart.value.pulseId);
    if !(expired || Flush(e, d)) then
      Res(s1.(batchEnd := Some(d), contractor := Or(s1.contractor, Masked(e, d))), Done)
    else
      CloseBatch(e, s1, d, expired)
  }

  /** `TebContributor::process` (TebContributor.cc:206-219) when d does not belong to the common readout group and bypasses the TEB. */
  function Bypass(e: TebEnv, s: TebState, d: Dgram): (r: Res)
    ensures BatchesOnly(s, r.st)
    ensures r.out.Thrown? ==> r.out.failure == PendingOverflow
    ensures r.out.Done? ==>
      && r.st.batchStart.None? && r.st.batchEnd.None?
      && |r.st.pending| > 0 && r.st.pending[|r.st.pending| - 1] == d
  {
    var posted :=
      if s.batchStart.Some? && s.contractor != 0 then PostBatchSpec(e, s, s.batchStart.value, OpenEnd(s))
      else Res(s, Done);
    if !posted.out.Done? then posted
    else
      var pending := posted.st.pending + [d];
      assert pending[..|posted.st.pending|] == posted.st.pending;
      BatchesOnlyTransitive(s, posted.st, posted.st.(pending := pending));
      if |pending| >= MAX_LATENCY then Res(posted.st.(pending := pending), Thrown(PendingOverflow))
      else Res(posted.st.(pending := pending, batchStart := None, batchEnd := None), Done)
  }

  /** `process(dgram)`. */
  function ProcessSpec(e: TebEnv, s: TebState, d: Dgram): (r: Res)
    ensures Appends(s, r.st)
    ensures r.out.Done? ==> WellFormed(r.st)
    ensures IsEvent(d) ==> BatchesOnly(s, r.st)
    ensures !Bit(d.readoutGroups, e.partition) && r.out.Done? ==> |r.st.pending| > 0 && r.st.pending[|r.st.pending| - 1] == d
    ensures r.out == Thrown(UnexpectedPayload) ==> !IsEvent(d) && d.payloadSize != 0
  {
    var r1 := if Bit(d.readoutGroups, e.partition) then Batch(e, s, d) else Bypass(e, s, d);
    if !r1.out.Done? then r1
    else if !IsEvent(d) && r1.st.contractor != 0 then
      var r2 := PostTransitionSpec(e, r1.st, d);
      AppendsTransitive(s, r1.st, r2.st);
      r2
    else r1
  }

  /** t's post log and pending list extend s's, and every post added is a batch post. */
  predicate BatchesOnly(s: TebState, t: TebState)
  {
    && Appends(s, t)
    && forall i :: |s.posts| <= i < |t.posts| ==> t.posts[i].BatchPost?
  }

  lemma BatchesOnlyTransitive(s: TebState, t: TebState, u: TebState)
    requires BatchesOnly(s, t) && BatchesOnly(t, u)
    ensures BatchesOnly(s, u)
  {
    AppendsTransitive(s, t, u);
    forall i | |s.posts| <= i < |u.posts|
      ensures u.posts[i].BatchPost?
    {
      if i < |t.posts| {
        assert u.posts[i] == u.posts[..|t.posts|][i];
      }
    }
  }

  // ---------------------------------------------------------------- properties

  lemma {:induction false} OrSelf(x: nat)
    ensures Or(x, x) == x
    decreases x
  {
    if x != 0 {
      OrSelf(x / 2);
    }
  }

  /**
   * The first datagram of the common readout group with no batch open starts a
   * batch; when it is an L1Accept that neither expires nor flushes, the batch is
   * that one datagram, its contractor the datagram's masked groups, and nothing
   * is posted.
   */
  lemma FirstDgramStartsBatch(e: TebEnv, s: TebState, d: Dgram)
    requires Bit(d.readoutGroups, e.partition) && s.batchStart.None?
    requires IsEvent(d) && e.batching && !e.expired(d.pulseId, d.pulseId)
    ensures ProcessSpec(e, s, d) ==
      Res(s.(batchStart := Some(d), batchEnd := Some(d), contractor := Masked(e, d)), Done)
  {
    OrSelf(Masked(e, d));
  }

  /**
   * A datagram extending an open batch only moves the batch end and ORs its
   * masked groups into the contractor; no batch is posted, and only a SlowUpdate
   * with a non-zero contractor is copied to the other TEBs.
   */
  lemma ExtendOnly(e: TebEnv, s: TebState, d: Dgram)
    requires Bit(d.readoutGroups, e.partition) && s.batchStart.Some?
    requires !Flush(e, d) && !e.expired(d.pulseId, s.batchStart.value.pulseId)
    ensures var s1 := s.(batchEnd := Some(d), contractor := Or(s.contractor, Masked(e, d)));
      ProcessSpec(e, s, d) ==
        if d.service == SLOW_UPDATE && s1.contractor != 0 then PostTransitionSpec(e, s1, d) else Res(s1, Done)
  {
  }

  /**
   * A datagram that expires an open batch posts that batch, from its start to its
   * end (or its start) exactly when the contractor is non-zero, and starts a new
   * batch from itself; an L1Accept leaves that new batch open.
   */
  lemma ExpiryPostsOpenBatch(e: TebEnv, s: TebState, d: Dgram)
    requires Bit(d.readoutGroups, e.partition) && s.batchStart.Some?
    requires e.expired(d.pulseId, s.batchStart.value.pulseId) && IsEvent(d) && e.batching
    ensures var posted := if s.contractor != 0 then PostBatchSpec(e, s, s.batchStart.value, OpenEnd(s)) else Res(s, Done);
      ProcessSpec(e, s, d) ==
        if !posted.out.Done? then posted
        else Res(posted.st.(batchStart := Some(d), batchEnd := Some(d), contractor := Masked(e, d)), Done)
  {
  }

  /** A flushing datagram posts the batch up to itself unless the contractor is zero, and leaves no batch open. */
  lemma FlushClosesBatch(e: TebEnv, s: TebState, d: Dgram)
    requires Bit(d.readoutGroups, e.partition) && Flush(e, d)
    ensures var r := ProcessSpec(e, s, d);
      r.out.Done? ==> r.st.batchStart.None? && r.st.batchEnd.None?
    ensures var s1 := if s.batchStart.None? then s.(batchStart := Some(d), contractor := Masked(e, d)) else s;
      !e.expired(d.pulseId, s1.batchStart.value.pulseId) ==>
        var s2 := s1.(contractor := Or(s1.contractor, Masked(e, d)));
        var p := PostBatchSpec(e, s2, s1.batchStart.value, d);
        Batch(e, s, d) ==
          if s2.contractor == 0 then Res(s2.(batchStart := None, batchEnd := None), Done)
          else if p.out.Done? then Res(p.st.(batchStart := None, batchEnd := None), Done)
          else p
  {
  }

  /**
   * A datagram outside the common readout group posts an open batch (when the
   * contractor is non-zero), joins the pending list, and closes the batch; the
   * pending list overflowing throws.
   */
  lemma BypassPendsDgram(e: TebEnv, s: TebState, d: Dgram)
    requires !Bit(d.readoutGroups, e.partition)
    ensures var posted :=
        if s.batchStart.Some? && s.contractor != 0 then PostBatchSpec(e, s, s.batchStart.value, OpenEnd(s))
        else Res(s, Done);
      var r := Bypass(e, s, d);
      && (posted.out.Done? ==> r.st.pending == posted.st.pending + [d])
      && (posted.out.Done? ==> (r.out == Thrown(PendingOverflow) <==> |posted.st.pending| + 1 >= MAX_LATENCY))
      && (r.out.Done? ==> r.st.batchStart.None? && r.st.batchEnd.None?)
      && (s.batchStart.None? || s.contractor == 0 ==> r.st.posts == s.posts)
  {
  }

  /**
   * A batch post goes to TEB `(idx / MAX_ENTRIES) % numEbs` at offset
   * `idx * maxInputSize`, is queued on the pending list first, and counts only
   * when the link accepts it. A destination outside the link table is undefined
   * before anything is queued; the pending overflow throws before the link is
   * used, so a null link is undefined only when the list did not overflow.
   */
  lemma PostBatchDestination(e: TebEnv, s: TebState, start: Dgram, end: Dgram)
    requires e.numEbs > 0
    ensures var r := PostBatchSpec(e, s, start, end);
      var idx := e.batchIndex(start.pulseId) % U32;
      var dst := (idx / MAX_ENTRIES) % e.numEbs;
      && dst < e.numEbs
      && (r.out.Done? <==> dst < |e.links| && e.links[dst].Some? && |s.pending| + 1 < MAX_LATENCY)
      && (r.out == Thrown(PendingOverflow) <==> dst < |e.links| && |s.pending| + 1 >= MAX_LATENCY)
      && (r.out.Undefined? <==> dst >= |e.links| || (|s.pending| + 1 < MAX_LATENCY && e.links[dst].None?))
      && (dst < |e.links| ==> r.st.pending == s.pending + [start])
      && (r.out.Done? ==>
           && r.st.pending == s.pending + [start]
           && r.st.posts == s.posts + [BatchPost(dst, start.addr, (end.addr - start.addr + e.maxInputSize) % U64,
                                                (idx * e.maxInputSize) % U32, idx)]
           && r.st.batchCount == s.batchCount + (if e.postRc(|s.posts|) < 0 then 0 else 1))
  {
  }

  /** With no TEB configured, the destination's `% _numEbs` divides by zero. */
  lemma NoBuildersIsUndefined(e: TebEnv, s: TebState, start: Dgram, end: Dgram)
    requires e.numEbs == 0
    ensures PostBatchSpec(e, s, start, end).out.Undefined?
    ensures |e.links| >= 2 ==> PostTransitionSpec(e, s, start).out.Undefined?
  {
  }

  /** The links other than dst, in order: 0, 1, …, dst - 1, dst + 1, …, n - 1. */
  function AllBut(n: nat, dst: nat): (r: seq<nat>)
    ensures |r| == if dst < n then n - 1 else n
    ensures forall i :: 0 <= i < |r| ==> r[i] != dst && r[i] < n
    ensures forall j :: 0 <= j < n && j != dst ==> j in r
  {
    if n == 0 then [] else AllBut(n - 1, dst) + if n - 1 == dst then [] else [n - 1]
  }

  /** The transition posts that go to the links `ids`. */
  function PostsTo(ids: seq<nat>, d: Dgram, extent: nat, offset: nat): (r: seq<Post>)
    ensures |r| == |ids|
    ensures forall i :: 0 <= i < |ids| ==> r[i] == TransitionPost(ids[i], d.addr, extent, offset, d.service)
  {
    if ids == [] then [] else PostsTo(ids[..|ids| - 1], d, extent, offset) + [TransitionPost(ids[|ids| - 1], d.addr, extent, offset, d.service)]
  }

  lemma {:induction false} TransitionPostsToOthers(n: nat, dst: nat, d: Dgram, extent: nat, offset: nat)
    ensures TransitionPosts(LinkIds(n), dst, d, extent, offset) == Sent(PostsTo(AllBut(n, dst), d, extent, offset), false)
  {
    if n == 0 {
      assert LinkIds(n) == [];
      assert AllBut(n, dst) == [];
      assert PostsTo([], d, extent, offset) == [];
    } else {
      var links, ids := LinkIds(n - 1), AllBut(n - 1, dst);
      TransitionPostsToOthers(n - 1, dst, d, extent, offset);
      assert LinkIds(n) == links + [Some(n - 1)];
      TransitionSnoc(links, n - 1, dst, d, extent, offset);
      if n - 1 != dst {
        assert AllBut(n, dst) == ids + [n - 1];
        PostsToSnoc(ids, n - 1, d, extent, offset);
      } else {
        assert AllBut(n, dst) == ids;
      }
    }
  }

  /** One more link slot after a run without a null link: a post unless it is dst. */
  lemma TransitionSnoc(links: seq<Option<nat>>, last: nat, dst: nat, d: Dgram, extent: nat, offset: nat)
    requires !TransitionPosts(links, dst, d, extent, offset).nullLink
    ensures TransitionPosts(links + [Some(last)], dst, d, extent, offset)
      == if last != dst
         then Sent(TransitionPosts(links, dst, d, extent, offset).posts + [TransitionPost(last, d.addr, extent, offset, d.service)], false)
         else TransitionPosts(links, dst, d, extent, offset)
  {
    assert (links + [Some(last)])[..|links|] == links;
  }

  lemma PostsToSnoc(ids: seq<nat>, id: nat, d: Dgram, extent: nat, offset: nat)
    ensures PostsTo(ids + [id], d, extent, offset) == PostsTo(ids, d, extent, offset) + [TransitionPost(id, d.addr, extent, offset, d.service)]
  {
    assert (ids + [id])[..|ids|] == ids;
  }

  /**
   * With the links placed at their ids, a transition is copied once to every TEB
   * but the batch's destination, in link order, at the transition's offset past
   * the batch region; nothing is sent with fewer than two links, and a payload throws.
   */
  lemma TransitionGoesToOtherTebs(e: TebEnv, s: TebState, d: Dgram)
    requires e.links == LinkIds(|e.links|) && e.numEbs > 0
    ensures var r := PostTransitionSpec(e, s, d);
      var dst := Destination(e, d.pulseId);
      var offset := (e.batchRegionSize + d.service * e.dgramSize) % U32;
      && (|e.links| < 2 ==> r == Res(s, Done))
      && (|e.links| >= 2 && d.payloadSize != 0 ==> r == Res(s, Thrown(UnexpectedPayload)))
      && (|e.links| >= 2 && d.payloadSize == 0 ==>
           r == Res(s.(posts := s.posts + PostsTo(AllBut(|e.links|, dst), d, e.dgramSize, offset)), Done))
  {
    var dst := Destination(e, d.pulseId);
    var offset := (e.batchRegionSize + d.service * e.dgramSize) % U32;
    TransitionPostsToOthers(|e.links|, dst, d, e.dgramSize, offset);
  }

  /** A batch end is only ever set inside an open batch. */
  predicate WellFormed(s: TebState)
  {
    s.batchEnd.Some? ==> s.batchStart.Some?
  }

  /** t's post log and pending list extend s's. */
  predicate Appends(s: TebState, t: TebState)
  {
    && |t.posts| >= |s.posts| && t.posts[..|s.posts|] == s.posts
    && |t.pending| >= |s.pending| && t.pending[..|s.pending|] == s.pending
  }

  lemma AppendsTransitive(s: TebState, t: TebState, u: TebState)
    requires Appends(s, t) && Appends(t, u)
    ensures Appends(s, u)
  {
    assert u.posts[..|s.posts|] == u.posts[..|t.posts|][..|s.posts|];
    assert u.pending[..|s.pending|] == u.pending[..|t.pending|][..|s.pending|];
  }

  // ---------------------------------------------------------------- the contributor

  class Contributor {
    const partition: nat
    const contractorMask: nat
    const batching: bool
    const maxInputSize: nat
    const batchRegionSize: nat
    /** `sizeof(EbDgram)`. */
    const dgramSize: nat
    const expired: (nat, nat) -> bool
    const batchIndex: nat -> nat
    const postRc: nat -> int

    var id: int
    var numEbs: nat
    var links: seq<Option<nat>>
    var pending: seq<Dgram>
    var batchStart: Option<Dgram>
    var batchEnd: Option<Dgram>
    var contractor: nat
    var eventCount: nat
    var batchCount: nat
    var posts: seq<Post>
    var running: bool

    function Env(): TebEnv
      reads this
    {
      TebEnv(partition, contractorMask, batching, maxInputSize, batchRegionSize, dgramSize,
             numEbs, links, expired, batchIndex, postRc)
    }

    function State(): TebState
      reads this
    {
      TebState(batchStart, batchEnd, contractor, pending, batchCount, posts)
    }

    constructor (partition: nat, contractorMask: nat, batching: bool, maxInputSize: nat,
                 batchRegionSize: nat, dgramSize: nat,
                 expired: (nat, nat) -> bool, batchIndex: nat -> nat, postRc: nat -> int)
      ensures this.partition == partition && this.contractorMask == contractorMask
      ensures this.batching == batching && this.maxInputSize == maxInputSize
      ensures this.batchRegionSize == batchRegionSize && this.dgramSize == dgramSize
      ensures this.expired == expired && this.batchIndex == batchIndex && this.postRc == postRc
      ensures id == -1 && numEbs == 0 && links == [] && pending == []
      ensures batchStart.None? && batchEnd.None? && eventCount == 0 && batchCount == 0 && posts == []
      ensures !running
    {
      this.partition := partition;
      this.contractorMask := contractorMask;
      this.batching := batching;
      this.maxInputSize := maxInputSize;
      this.batchRegionSize := batchRegionSize;
      this.dgramSize := dgramSize;
      this.expired := expired;
      this.batchIndex := batchIndex;
      this.postRc := postRc;
      id := -1;
      numEbs := 0;
      links := [];
      pending := [];
      batchStart := None;
      batchEnd := None;
      contractor := 0;
      eventCount := 0;
      batchCount := 0;
      posts := [];
      running := false;
    }

    /**
     * `configure`: the contributor id, the number of TEBs as the popcount of the
     * builders list, the pending list drained, and one link per TEB address.
     */
    method Configure(prmsId: int, builders: nat, conns: seq<Connection>) returns (r: ConfigureResult)
      requires builders < Pow2(64)
      modifies this`id, this`numEbs, this`pending, this`links
      ensures id == prmsId && numEbs == Popcount(builders) && numEbs <= 64 && pending == []
      ensures Connected(links, r) == Connect(Resize(old(links), |conns|), conns)
    {
      id := prmsId;
      PopcountBound(builders, 64);
      numEbs := Popcount(builders);
      pending := [];
      links, r := ConnectAll(Resize(links, |conns|), conns);
    }

    /** `startup`: no batch open and both counters zeroed. */
    method Startup()
      modifies this
      ensures batchStart.None? && batchEnd.None? && eventCount == 0 && batchCount == 0 && running
      ensures id == old(id) && numEbs == old(numEbs) && links == old(links) && pending == old(pending)
      ensures contractor == old(contractor) && posts == old(posts)
    {
      batchStart := None;
      batchEnd := None;
      eventCount := 0;
      batchCount := 0;
      running := true;
    }

    /** `shutdown`: once running, every link disconnected and the id reset to -1. */
    method Shutdown()
      modifies this
      ensures old(running) ==> !running && links == [] && id == -1
      ensures !old(running) ==> links == old(links) && id == old(id) && running == old(running)
      ensures numEbs == old(numEbs) && pending == old(pending) && batchStart == old(batchStart)
      ensures batchEnd == old(batchEnd) && contractor == old(contractor)
      ensures eventCount == old(eventCount) && batchCount == old(batchCount) && posts == old(posts)
    {
      if running {
        running := false;
        links := [];
        id := -1;
      }
    }

    /**
     * `allocate`, given what `_batMan.fetchW` returned and the slot the batch
     * hands out: null (and no count) when no batch is available.
     */
    method Allocate(batch: Option<nat>) returns (slot: Option<nat>)
      modifies this`eventCount
      ensures slot == batch
      ensures eventCount == old(eventCount) + (if batch.Some? then 1 else 0)
    {
      if batch.None? {
        return None;
      }
      eventCount := eventCount + 1;
      slot := batch;
    }

    method PostBatch(start: Dgram, end: Dgram) returns (out: Outcome)
      modifies this`pending, this`posts, this`batchCount
      ensures Res(State(), out) == PostBatchSpec(Env(), old(State()), start, end)
    {
      var idx := batchIndex(start.pulseId) % U32;
      var extent := (end.addr - start.addr + maxInputSize) % U64;
      var offset := (idx * maxInputSize) % U32;
      if numEbs == 0 {
        return Undefined;
      }
      var dst := (idx / MAX_ENTRIES) % numEbs;
      if dst >= |links| {
        return Undefined;
      }
      pending := pending + [start];
      if !(|pending| < MAX_LATENCY) {
        return Thrown(PendingOverflow);
      }
      if links[dst].None? {
        return Undefined;
      }
      var rc := postRc(|posts|);
      posts := posts + [BatchPost(dst, start.addr, extent, offset, idx)];
      if rc < 0 {
        return Done;
      }
      batchCount := batchCount + 1;
      out := Done;
    }

    method PostTransition(d: Dgram) returns (out: Outcome)
      modifies this`posts
      ensures Res(State(), out) == PostTransitionSpec(Env(), old(State()), d)
    {
      if |links| < 2 {
        return Done;
      }
      if numEbs == 0 {
        return Undefined;
      }
      var idx := batchIndex(d.pulseId) % U32;
      var dst := (idx / MAX_ENTRIES) % numEbs;
      var tr := d.service;
      var extent := dgramSize;
      if d.payloadSize != 0 {
        return Thrown(UnexpectedPayload);
      }
      var offset := (batchRegionSize + tr * dgramSize) % U32;
      ghost var sent := [];
      var i := 0;
      while i < |links|
        invariant 0 <= i <= |links|
        invariant TransitionPosts(links[..i], dst, d, extent, offset) == Sent(sent, false)
        invariant posts == old(posts) + sent
      {
        assert links[..i + 1][..i] == links[..i];
        var link := links[i];
        if link.None? {
          TransitionPostsStop(links, dst, d, extent, offset, i + 1);
          return Undefined;
        }
        if link.value != dst {
          posts := posts + [TransitionPost(link.value, d.addr, extent, offset, tr)];
          sent := sent + [TransitionPost(link.value, d.addr, extent, offset, tr)];
        }
        i := i + 1;
      }
      assert links[..i] == links;
      out := Done;
    }

    /** `process(dgram)`. */
    method Process(d: Dgram) returns (out: Outcome)
      modifies this`batchStart, this`batchEnd, this`contractor, this`pending, this`posts, this`batchCount
      ensures Res(State(), out) == ProcessSpec(Env(), old(State()), d)
    {
      if Bit(d.readoutGroups, partition) {
        out := ProcessBatched(d);
      } else {
        out := ProcessBypass(d);
      }
      if out.Done? && !IsEvent(d) && contractor != 0 {
        out := PostTransition(d);
      }
    }

    method ProcessBatched(d: Dgram) returns (out: Outcome)
      modifies this`batchStart, this`batchEnd, this`contractor, this`pending, this`posts, this`batchCount
      ensures Res(State(), out) == Batch(Env(), old(State()), d)
    {
      if batchStart.None? {
        batchStart := Some(d);
        contractor := And(d.readoutGroups, contractorMask);
      }
      var isExpired := expired(d.pulseId, batchStart.value.pulseId);
      var flush := !(d.service == L1_ACCEPT || d.service == SLOW_UPDATE) || !batching;
      if !(isExpired || flush) {
        batchEnd := Some(d);
        contractor := Or(contractor, And(d.readoutGroups, contractorMask));
        return Done;
      }
      out := Done;
      if isExpired {
        out := ExpireBatch(d);
      }
      if out.Done? && flush {
        out := FlushOpenBatch(d);
      }
    }

    method ExpireBatch(d: Dgram) returns (out: Outcome)
      requires batchStart.Some?
      modifies this`batchStart, this`batchEnd, this`contractor, this`pending, this`posts, this`batchCount
      ensures Res(State(), out) == Expire(Env(), old(State()), d)
    {
      if contractor != 0 {
        out := PostBatch(batchStart.value, if batchEnd.Some? then batchEnd.value else batchStart.value);
        if !out.Done? {
          return;
        }
      }
      batchStart := Some(d);
      batchEnd := Some(d);
      contractor := And(d.readoutGroups, contractorMask);
      out := Done;
    }

    method FlushOpenBatch(d: Dgram) returns (out: Outcome)
      requires batchStart.Some?
      modifies this`batchStart, this`batchEnd, this`contractor, this`pending, this`posts, this`batchCount
      ensures Res(State(), out) == FlushBatch(Env(), old(State()), d)
    {
      contractor := Or(contractor, And(d.readoutGroups, contractorMask));
      if contractor != 0 {
        out := PostBatch(batchStart.value, d);
        if !out.Done? {
          return;
        }
      }
      batchStart := None;
      batchEnd := None;
      out := Done;
    }

    method ProcessBypass(d: Dgram) returns (out: Outcome)
      modifies this`batchStart, this`batchEnd, this`contractor, this`pending, this`posts, this`batchCount
      ensures Res(State(), out) == Bypass(Env(), old(State()), d)
    {
      if batchStart.Some? && contractor != 0 {
        out := PostBatch(batchStart.value, if batchEnd.Some? then batchEnd.value else batchStart.value);
        if !out.Done? {
          return;
        }
      }
      pending := pending + [d];
      if !(|pending| < MAX_LATENCY) {
        return Thrown(PendingOverflow);
      }
      batchStart := None;
      batchEnd := None;
      out := Done;
    }
  }

  lemma {:induction false} TransitionPostsStop(links: seq<Option<nat>>, dst: nat, d: Dgram, extent: nat, offset: nat, i: nat)
    requires i <= |links| && TransitionPosts(links[..i], dst, d, extent, offset).nullLink
    ensures TransitionPosts(links, dst, d, extent, offset) == TransitionPosts(links[..i], dst, d, extent, offset)
    decreases |links|
  {
    if i < |links| {
      var init := links[..|links| - 1];
      assert init[..i] == links[..i];
      TransitionPostsStop(init, dst, d, extent, offset, i);
    } else {
      assert links[..i] == links;
    }
  }
}
