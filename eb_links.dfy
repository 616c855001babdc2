/**
 * The outbound link table that `TebContributor::configure`,
 * `MebContributor::configure` and `MyXtcMonitorServer::configure` build the
 * same way: the table is resized to the number of peer addresses, and each
 * peer in turn is connected, stored in the slot of its remote id, and
 * prepared. The first failing connect or prepare ends the loop with its
 * return code. A slot holds the id of the link stored there, or None for
 * a null pointer.
 */
module EbLinks {
  import opened Wrappers

  /** What the transport answers for one peer: the connect code, the link's remote id, the prepare code. */
  datatype Connection = Connection(connectRc: int, remoteId: nat, prepareRc: int)

  /** The loop's return code, or undefined behaviour when a remote id is outside the table. */
  datatype ConfigureResult = ConfigureRc(rc: int) | ConfigureUndefined

  datatype Connected = Connected(links: seq<Option<nat>>, result: ConfigureResult)

  /** `std::vector::resize(n)`: the first n slots kept, new slots null. */
  function Resize(links: seq<Option<nat>>, n: nat): (r: seq<Option<nat>>)
    ensures |r| == n
    ensures forall j :: 0 <= j < n ==> r[j] == if j < |links| then links[j] else None
  {
    if n <= |links| then links[..n] else links + seq(n - |links|, _ => None)
  }

  /** The table after connecting the peers conns in order, and how the loop ended. */
  function Connect(links: seq<Option<nat>>, conns: seq<Connection>): (r: Connected)
    ensures |r.links| == |links|
    ensures forall j :: 0 <= j < |links| ==> r.links[j] == links[j] || r.links[j] == Some(j)
  {
    if conns == [] then Connected(links, ConfigureRc(0))
    else
      var r := Connect(links, conns[..|conns| - 1]);
      var c := conns[|conns| - 1];
      if r.result != ConfigureRc(0) then r
      else if c.connectRc != 0 then Connected(r.links, ConfigureRc(c.connectRc))
      else if c.remoteId >= |r.links| then Connected(r.links, ConfigureUndefined)
      else Connected(r.links[c.remoteId := Some(c.remoteId)], ConfigureRc(c.prepareRc))
  }

  /** Once the loop has stopped on a prefix of the peers, the remaining peers change nothing. */
  lemma {:induction false} ConnectStops(links: seq<Option<nat>>, conns: seq<Connection>, i: nat)
    requires i <= |conns| && Connect(links, conns[..i]).result != ConfigureRc(0)
    ensures Connect(links, conns) == Connect(links, conns[..i])
    decreases |conns|
  {
    if i < |conns| {
      var init := conns[..|conns| - 1];
      assert init[..i] == conns[..i];
      ConnectStops(links, init, i);
    } else {
      assert conns[..i] == conns;
    }
  }

  /** The connection loop. */
  method ConnectAll(links: seq<Option<nat>>, conns: seq<Connection>) returns (ls: seq<Option<nat>>, r: ConfigureResult)
    ensures Connected(ls, r) == Connect(links, conns)
  {
    ls := links;
    var i := 0;
    while i < |conns|
      invariant 0 <= i <= |conns|
      invariant Connect(links, conns[..i]) == Connected(ls, ConfigureRc(0))
    {
      assert conns[..i + 1][..i] == conns[..i];
      var c := conns[i];
      if c.connectRc != 0 {
        ConnectStops(links, conns, i + 1);
        return ls, ConfigureRc(c.connectRc);
      }
      if c.remoteId >= |ls| {
        ConnectStops(links, conns, i + 1);
        return ls, ConfigureUndefined;
      }
      ls := ls[c.remoteId := Some(c.remoteId)];
      if c.prepareRc != 0 {
        ConnectStops(links, conns, i + 1);
        return ls, ConfigureRc(c.prepareRc);
      }
      i := i + 1;
    }
    assert conns[..i] == conns;
    r := ConfigureRc(0);
  }

  /** Every peer's connect and prepare succeed, and its remote id fits the table. */
  predicate AllSucceed(conns: seq<Connection>, size: nat)
  {
    forall i :: 0 <= i < |conns| ==> conns[i].connectRc == 0 && conns[i].prepareRc == 0 && conns[i].remoteId < size
  }

  /** Some peer has remote id j. */
  predicate HasPeer(conns: seq<Connection>, j: nat)
  {
    exists i :: 0 <= i < |conns| && conns[i].remoteId == j
  }

  /**
   * When every connection succeeds, the loop returns 0 and slot j holds
   * link j exactly when some peer has remote id j; other slots keep what
   * they held.
   */
  lemma {:induction false} ConnectPlacesLinks(links: seq<Option<nat>>, conns: seq<Connection>)
    requires AllSucceed(conns, |links|)
    ensures Connect(links, conns).result == ConfigureRc(0)
    ensures |Connect(links, conns).links| == |links|
    ensures forall j: nat :: j < |links| ==>
      Connect(links, conns).links[j] == if HasPeer(conns, j) then Some(j) else links[j]
  {
    if conns != [] {
      var init := conns[..|conns| - 1];
      assert AllSucceed(init, |links|) by {
        forall i | 0 <= i < |init| ensures init[i] == conns[i] { }
      }
      ConnectPlacesLinks(links, init);
      var ls := Connect(links, conns).links;
      forall j: nat | j < |links|
        ensures ls[j] == if HasPeer(conns, j) then Some(j) else links[j]
      {
        if HasPeer(conns, j) {
          var i :| 0 <= i < |conns| && conns[i].remoteId == j;
          if i < |init| {
            assert init[i].remoteId == j;
          }
        } else {
          forall i | 0 <= i < |init| ensures init[i].remoteId != j {
            assert init[i] == conns[i];
          }
        }
      }
    }
  }

  /** Every slot of the table holds a link. */
  predicate AllLinked(links: seq<Option<nat>>)
  {
    forall j :: 0 <= j < |links| ==> links[j].Some?
  }

  /** Slots holding the links whose ids are 0, 1, …, n - 1, in that order. */
  function LinkIds(n: nat): (r: seq<Option<nat>>)
    ensures |r| == n && forall j :: 0 <= j < n ==> r[j] == Some(j)
  {
    if n == 0 then [] else LinkIds(n - 1) + [Some(n - 1)]
  }

  /**
   * Connecting n peers whose remote ids are all of 0..n-1 successfully fills
   * the freshly resized table completely, slot j holding link j.
   */
  lemma ConfiguredTableIsLinkIds(oldLinks: seq<Option<nat>>, conns: seq<Connection>)
    requires AllSucceed(conns, |conns|)
    requires forall j: nat :: j < |conns| ==> HasPeer(conns, j)
    ensures Connect(Resize(oldLinks, |conns|), conns) == Connected(LinkIds(|conns|), ConfigureRc(0))
    ensures AllLinked(LinkIds(|conns|))
  {
    var links := Resize(oldLinks, |conns|);
    ConnectPlacesLinks(links, conns);
    assert Connect(links, conns).links == LinkIds(|conns|);
  }
}
