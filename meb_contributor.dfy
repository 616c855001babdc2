/**
 * The monitoring event builder contributor of psdaq `MebContributor.cc`: a
 * DRP copies an L1Accept into the MEB buffer named by its destination word,
 * or a transition into the transition slot of its service, over every
 * outbound MEB link.
 *
 * The remote region is `maxEvents` event buffers of `_maxEvSize` bytes
 * followed by one transition buffer of `_maxTrSize` bytes per transition id.
 * `ImmData::src`/`idx` of the destination word are passed in already decoded;
 * the immediate-data word of a post is logged by the fields `ImmData::value`
 * is given. The link post return codes are an oracle indexed by the number
 * of posts made so far.
 */
module MebContributor {
  import opened Wrappers
  import opened Bits
  import opened EbLinks

  const U32: nat := 0x1_0000_0000
  const U64: nat := 0x1_0000_0000_0000_0000

  /** `_id(-1)` in an `unsigned`. */
  const NO_ID: nat := U32 - 1

  /** The fields of an `EbDgram` the posts read: `xtc.src`, `service()` and `xtc.sizeofPayload()`. */
  datatype MebDgram = MebDgram(src: nat, service: nat, payloadSize: nat)

  /** The `ImmData` type tag of a post. */
  datatype ImmKind = Buffer | Transition

  /** A `link->post(ddg, sz, offset, data)`, with `data` given by `ImmData::value(kind, src, index)`. */
  datatype MebPost = MebPost(link: nat, size: nat, offset: nat, kind: ImmKind, src: nat, index: nat)

  /** The two `throw`s of each `post`. */
  datatype Failure = TooBig | SourceMismatch

  /** A `post` returned this code, threw, or reached undefined behaviour. */
  datatype Outcome = Rc(code: int) | Thrown(failure: Failure) | Undefined

  /** The sizes, the id and the links a post reads, and the link post oracle. */
  datatype MebEnv = MebEnv(
    maxEvSize: nat, maxTrSize: nat, bufRegSize: nat, headerSize: nat,
    id: nat, links: seq<Option<nat>>, postRc: nat -> int)

  /** What a post changes: the event count and the posts made. */
  datatype MebState = MebState(eventCount: nat, posts: seq<MebPost>)

  datatype MebRes = MebRes(st: MebState, out: Outcome)

  /** `_bufRegSize`: the event region, `maxEvents * _maxEvSize` in a `size_t`. */
  function BufRegSize(maxEvents: nat, maxEvSize: nat): nat
  {
    (maxEvents * maxEvSize) % U64
  }

  /** The offset of event buffer idx, `idx * _maxEvSize` stored in an `unsigned`. */
  function EventOffset(idx: nat, maxEvSize: nat): nat
  {
    (idx * maxEvSize) % U32
  }

  /** The offset of the transition buffer of tr, `_bufRegSize + tr * _maxTrSize` in a `uint64_t`. */
  function TransitionOffset(bufRegSize: nat, tr: nat, maxTrSize: nat): nat
  {
    (bufRegSize + tr * maxTrSize) % U64
  }

  /** `sizeof(*ddg) + ddg->xtc.sizeofPayload()`. */
  function DgramSize(e: MebEnv, d: MebDgram): nat
  {
    e.headerSize + d.payloadSize
  }

  /** `MebContributor::post` for an L1Accept (MebContributor.cc:88-129), for the decoded destination dst and buffer index idx. */
  function PostEventSpec(e: MebEnv, s: MebState, d: MebDgram, dst: nat, idx: nat): (r: MebRes)
    ensures r.out.Rc? ==> |r.st.posts| == |s.posts| + 1 && r.st.posts[..|s.posts|] == s.posts
    ensures !r.out.Rc? ==> r.st == s
    ensures r.out.Rc? ==> r.out.code == 0 || r.out.code == 1
    ensures r.out != Rc(0) ==> r.st.eventCount == s.eventCount
  {
    if dst >= |e.links| then MebRes(s, Undefined)
    else if DgramSize(e, d) > e.maxEvSize then MebRes(s, Thrown(TooBig))
    else if d.src != e.id then MebRes(s, Thrown(SourceMismatch))
    else if e.links[dst].None? then MebRes(s, Undefined)
    else
      var post := MebPost(e.links[dst].value, DgramSize(e, d), EventOffset(idx, e.maxEvSize), Buffer, e.id, idx);
      var posted := s.(posts := s.posts + [post]);
      if e.postRc(|s.posts|) < 0 then MebRes(posted, Rc(1))
      else MebRes(posted.(eventCount := (s.eventCount + 1) % U64), Rc(0))
  }

  /** The posts of the transition loop over links, and how it ended. */
  datatype Sent = Sent(posts: seq<MebPost>, out: Outcome)

  /** The link loop of the transition `MebContributor::post` (MebContributor.cc:154-172): the post p copied to each link in turn, stopping at the first failure. */
  function Broadcast(links: seq<Option<nat>>, p: MebPost, postRc: nat -> int, base: nat): (r: Sent)
    ensures !r.out.Thrown? && |r.posts| <= |links|
    ensures r.out == Rc(0) ==> |r.posts| == |links|
    ensures forall k :: 0 <= k < |r.posts| ==> r.posts[k] == p.(link := r.posts[k].link)
  {
    if links == [] then Sent([], Rc(0))
    else
      var r := Broadcast(links[..|links| - 1], p, postRc, base);
      var l := links[|links| - 1];
      if r.out != Rc(0) then r
      else if l.None? then Sent(r.posts, Undefined)
      else Sent(r.posts + [p.(link := l.value)], if postRc(base + |r.posts|) < 0 then Rc(1) else Rc(0))
  }

  /** `MebContributor::post` for a transition (MebContributor.cc:131-173). */
  function PostTransitionSpec(e: MebEnv, s: MebState, d: MebDgram): (r: MebRes)
    ensures r.st.eventCount == s.eventCount
    ensures r.out.Thrown? ==> r.st == s
    ensures |r.st.posts| >= |s.posts| && r.st.posts[..|s.posts|] == s.posts
    ensures r.out == Rc(0) ==> |r.st.posts| == |s.posts| + |e.links|
  {
    if DgramSize(e, d) > e.maxTrSize then MebRes(s, Thrown(TooBig))
    else if d.src != e.id then MebRes(s, Thrown(SourceMismatch))
    else
      var p := MebPost(0, DgramSize(e, d), TransitionOffset(e.bufRegSize, d.service, e.maxTrSize), Transition, e.id, d.service);
      var r := Broadcast(e.links, p, e.postRc, |s.posts|);
      assert (s.posts + r.posts)[..|s.posts|] == s.posts;
      MebRes(s.(posts := s.posts + r.posts), r.out)
  }

  // ---------------------------------------------------------------- region layout

  /**
   * While the event region fits in 32 bits, buffer idx < maxEvents starts at
   * `idx * _maxEvSize` and ends inside the event region.
   */
  lemma EventOffsetInRegion(idx: nat, maxEvents: nat, maxEvSize: nat)
    requires idx < maxEvents && maxEvents * maxEvSize <= U32
    ensures EventOffset(idx, maxEvSize) == idx * maxEvSize
    ensures EventOffset(idx, maxEvSize) + maxEvSize <= BufRegSize(maxEvents, maxEvSize)
  {
    var k := maxEvents - idx - 1;
    assert maxEvents * maxEvSize == idx * maxEvSize + maxEvSize + k * maxEvSize;
    assert idx * maxEvSize + maxEvSize <= U32;
  }

  /**
   * Beyond 4 GiB the `unsigned` offset wraps: with 65537 buffers of 64 KiB,
   * buffer 65536 is written at offset 0, over buffer 0.
   */
  lemma EventOffsetTruncates()
    ensures BufRegSize(0x1_0001, 0x1_0000) == 0x1_0001_0000
    ensures EventOffset(0x1_0000, 0x1_0000) == 0 == EventOffset(0, 0x1_0000)
  {
  }

  /**
   * Without 64-bit wrap-around, the transition buffer of tr starts at or past
   * the end of the event region, and the buffers of two transition ids do not
   * overlap.
   */
  lemma TransitionOffsetPastEvents(bufRegSize: nat, tr: nat, maxTrSize: nat)
    requires bufRegSize + tr * maxTrSize < U64
    ensures TransitionOffset(bufRegSize, tr, maxTrSize) == bufRegSize + tr * maxTrSize >= bufRegSize
  {
  }

  lemma TransitionSlotsDisjoint(bufRegSize: nat, tr1: nat, tr2: nat, maxTrSize: nat)
    requires tr1 < tr2 && bufRegSize + tr2 * maxTrSize < U64
    ensures TransitionOffset(bufRegSize, tr1, maxTrSize) + maxTrSize <= TransitionOffset(bufRegSize, tr2, maxTrSize)
  {
    var k := tr2 - tr1;
    assert tr2 * maxTrSize == tr1 * maxTrSize + k * maxTrSize;
    if maxTrSize > 0 {
      MulMonotone(k, maxTrSize);
    }
  }

  // ---------------------------------------------------------------- the posts

  /**
   * An L1Accept post: an out-of-range destination link is undefined; a
   * datagram larger than `_maxEvSize` or whose source is not the contributor
   * throws, changing nothing; otherwise one post goes to the destination link
   * at the buffer's offset. A failed post returns 1 and does not count the
   * event; a successful one returns 0 and counts it.
   */
  lemma PostEventCases(e: MebEnv, s: MebState, d: MebDgram, dst: nat, idx: nat)
    ensures var r := PostEventSpec(e, s, d, dst, idx);
      && (r.out == Thrown(TooBig) <==> dst < |e.links| && DgramSize(e, d) > e.maxEvSize)
      && (r.out == Thrown(SourceMismatch) <==> dst < |e.links| && DgramSize(e, d) <= e.maxEvSize && d.src != e.id)
      && (!r.out.Rc? ==> r.st == s)
      && (r.out.Rc? <==> dst < |e.links| && DgramSize(e, d) <= e.maxEvSize && d.src == e.id && e.links[dst].Some?)
      && (r.out.Rc? ==>
            && r.st.posts == s.posts + [MebPost(e.links[dst].value, DgramSize(e, d), EventOffset(idx, e.maxEvSize), Buffer, e.id, idx)]
            && (r.out == Rc(0) <==> e.postRc(|s.posts|) >= 0)
            && (r.out == Rc(1) <==> e.postRc(|s.posts|) < 0)
            && r.st.eventCount == if r.out == Rc(0) then (s.eventCount + 1) % U64 else s.eventCount)
  {
  }

  /**
   * With every link present, the transition loop posts to the links in
   * table order, stops right after the first failed post, and returns 1
   * exactly when some post failed, 0 when all of them succeeded.
   */
  lemma {:induction false} BroadcastInOrder(links: seq<Option<nat>>, p: MebPost, postRc: nat -> int, base: nat)
    requires AllLinked(links)
    ensures var r := Broadcast(links, p, postRc, base);
      var m := |r.posts|;
      && m <= |links|
      && (forall k :: 0 <= k < m ==> r.posts[k] == p.(link := links[k].value))
      && (forall k :: base <= k < base + m - 1 ==> postRc(k) >= 0)
      && (r.out == Rc(0) || r.out == Rc(1))
      && (r.out == Rc(1) <==> m > 0 && postRc(base + m - 1) < 0)
      && (r.out == Rc(0) ==> m == |links|)
  {
    if links != [] {
      var init := links[..|links| - 1];
      assert AllLinked(init) by {
        forall j | 0 <= j < |init| ensures init[j] == links[j] { }
      }
      BroadcastInOrder(init, p, postRc, base);
    }
  }

  /**
   * A transition post never counts an event; it throws, changing nothing,
   * for a datagram larger than `_maxTrSize` or from another source, and
   * otherwise posts to the transition buffer of its service, past the event
   * region.
   */
  lemma PostTransitionCases(e: MebEnv, s: MebState, d: MebDgram)
    ensures var r := PostTransitionSpec(e, s, d);
      && r.st.eventCount == s.eventCount
      && (r.out == Thrown(TooBig) <==> DgramSize(e, d) > e.maxTrSize)
      && (r.out == Thrown(SourceMismatch) <==> DgramSize(e, d) <= e.maxTrSize && d.src != e.id)
      && (r.out.Thrown? ==> r.st == s)
      && |r.st.posts| >= |s.posts| && r.st.posts[..|s.posts|] == s.posts
      && (forall k :: |s.posts| <= k < |r.st.posts| ==>
            && r.st.posts[k].offset == TransitionOffset(e.bufRegSize, d.service, e.maxTrSize)
            && r.st.posts[k].size == DgramSize(e, d) <= e.maxTrSize
            && r.st.posts[k].kind == Transition && r.st.posts[k].index == d.service)
  {
    var p := MebPost(0, DgramSize(e, d), TransitionOffset(e.bufRegSize, d.service, e.maxTrSize), Transition, e.id, d.service);
    if DgramSize(e, d) <= e.maxTrSize && d.src == e.id {
      var r := Broadcast(e.links, p, e.postRc, |s.posts|);
      forall k | |s.posts| <= k < |s.posts| + |r.posts|
        ensures (s.posts + r.posts)[k] == p.(link := r.posts[k - |s.posts|].link)
      {
      }
    }
  }

  /** Once the loop has stopped on a prefix of the links, the remaining links change nothing. */
  lemma {:induction false} BroadcastStops(links: seq<Option<nat>>, p: MebPost, postRc: nat -> int, base: nat, i: nat)
    requires i <= |links| && Broadcast(links[..i], p, postRc, base).out != Rc(0)
    ensures Broadcast(links, p, postRc, base) == Broadcast(links[..i], p, postRc, base)
    decreases |links|
  {
    if i < |links| {
      var init := links[..|links| - 1];
      assert init[..i] == links[..i];
      BroadcastStops(init, p, postRc, base, i);
    } else {
      assert links[..i] == links;
    }
  }

  /** The link loop of the transition `MebContributor::post` (MebContributor.cc:154-170): p copied to each link in turn. */
  method BroadcastLoop(links: seq<Option<nat>>, p: MebPost, postRc: nat -> int, base: nat)
    returns (sent: seq<MebPost>, out: Outcome)
    ensures Sent(sent, out) == Broadcast(links, p, postRc, base)
  {
    sent := [];
    var i := 0;
    while i < |links|
      invariant 0 <= i <= |links|
      invariant Broadcast(links[..i], p, postRc, base) == Sent(sent, Rc(0))
    {
      assert links[..i + 1][..i] == links[..i];
      var link := links[i];
      if link.None? {
        BroadcastStops(links, p, postRc, base, i + 1);
        return sent, Undefined;
      }
      var failed := postRc(base + |sent|) < 0;
      sent := sent + [p.(link := link.value)];
      if failed {
        BroadcastStops(links, p, postRc, base, i + 1);
        return sent, Rc(1);
      }
      i := i + 1;
    }
    assert links[..i] == links;
    out := Rc(0);
  }

  // ---------------------------------------------------------------- the contributor

  class Contributor {
    /** `roundUpSize(prms.maxEvSize)`. */
    const maxEvSize: nat
    const maxTrSize: nat
    const bufRegSize: nat
    /** `sizeof(EbDgram)`. */
    const headerSize: nat
    const postRc: nat -> int

    var links: seq<Option<nat>>
    var id: nat
    var eventCount: nat
    var posts: seq<MebPost>

    function Env(): MebEnv
      reads this
    {
      MebEnv(maxEvSize, maxTrSize, bufRegSize, headerSize, id, links, postRc)
    }

    function State(): MebState
      reads this
    {
      MebState(eventCount, posts)
    }

    /** The `MebContributor` constructor (MebContributor.cc:21-35): the event region sized for maxEvents buffers. */
    constructor (maxEvents: nat, roundedEvSize: nat, maxTrSize: nat, headerSize: nat, postRc: nat -> int)
      ensures maxEvSize == roundedEvSize && this.maxTrSize == maxTrSize && this.headerSize == headerSize
      ensures bufRegSize == BufRegSize(maxEvents, roundedEvSize) && this.postRc == postRc
      ensures links == [] && id == NO_ID && eventCount == 0 && posts == []
    {
      maxEvSize := roundedEvSize;
      this.maxTrSize := maxTrSize;
      bufRegSize := BufRegSize(maxEvents, roundedEvSize);
      this.headerSize := headerSize;
      this.postRc := postRc;
      links := [];
      id := NO_ID;
      eventCount := 0;
      posts := [];
    }

    /** `MebContributor::configure` (MebContributor.cc:37-75): the id set, the event count zeroed, one link per MEB address. */
    method Configure(prmsId: nat, conns: seq<Connection>) returns (r: ConfigureResult)
      modifies this`id, this`eventCount, this`links
      ensures id == prmsId && eventCount == 0
      ensures Connected(links, r) == Connect(Resize(old(links), |conns|), conns)
    {
      id := prmsId;
      eventCount := 0;
      links, r := ConnectAll(Resize(links, |conns|), conns);
    }

    /** `MebContributor::shutdown` (MebContributor.cc:77-86): every link disconnected and the id reset to -1. */
    method Shutdown()
      modifies this`links, this`id
      ensures links == [] && id == NO_ID
    {
      links := [];
      id := NO_ID;
    }

    /** The L1Accept `post` to the MEB buffer idx behind link dst. */
    method PostEvent(d: MebDgram, dst: nat, idx: nat) returns (out: Outcome)
      modifies this`eventCount, this`posts
      ensures MebRes(State(), out) == PostEventSpec(Env(), old(State()), d, dst, idx)
    {
      if dst >= |links| {
        return Undefined;
      }
      var link := links[dst];
      var sz := headerSize + d.payloadSize;
      var offset := (idx * maxEvSize) % U32;
      if sz > maxEvSize {
        return Thrown(TooBig);
      }
      if d.src != id {
        return Thrown(SourceMismatch);
      }
      if link.None? {
        return Undefined;
      }
      var rc := postRc(|posts|);
      posts := posts + [MebPost(link.value, sz, offset, Buffer, id, idx)];
      if rc < 0 {
        return Rc(1);
      }
      eventCount := (eventCount + 1) % U64;
      out := Rc(0);
    }

    /** The transition `post`: the datagram copied to its transition buffer on every link. */
    method PostTransition(d: MebDgram) returns (out: Outcome)
      modifies this`posts
      ensures MebRes(State(), out) == PostTransitionSpec(Env(), old(State()), d)
    {
      var sz := headerSize + d.payloadSize;
      var tr := d.service;
      var offset := (bufRegSize + tr * maxTrSize) % U64;
      if sz > maxTrSize {
        return Thrown(TooBig);
      }
      if d.src != id {
        return Thrown(SourceMismatch);
      }
      var sent;
      sent, out := BroadcastLoop(links, MebPost(0, sz, offset, Transition, id, tr), postRc, |posts|);
      posts := posts + sent;
    }
  }
}
