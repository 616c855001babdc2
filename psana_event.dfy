/**
 * The psana event (`psana/psana/event.py`): the datagrams of one event,
 * one slot per data file and `None` where a file had nothing, with the
 * iterator over them, the byte framing that ships an event between
 * processes, the timestamp and transition id of the first datagram
 * present, and the table of detector segments built on construction.
 *
 * `Dgram` and `PacketFooter` are not part of this model. A datagram is a
 * value carrying its bytes, what its `timestamp()` and `service()` return
 * and its detector attributes; the construction of a datagram from a
 * configuration and a view is the parameter `decode`. The footer is the
 * 4-byte little-endian size of each packet followed by the 4-byte
 * little-endian packet count.
 */
module PsanaEvent {
  import opened Wrappers
  import opened Bits

  // ---------------------------------------------------------------------
  // Datagrams
  // ---------------------------------------------------------------------

  /** A drp class attribute of a detector segment (`raw`, `fex`) and the object it names, by identity. */
  datatype DrpClass = DrpClass(name: string, obj: nat)

  /** A segment of a detector attribute: its number and the items of its `__dict__`. */
  datatype Segment = Segment(id: nat, classes: seq<DrpClass>)

  /** An item of a datagram's `__dict__`: a detector name and its segments. */
  datatype DetAttr = DetAttr(name: string, segments: seq<Segment>)

  /** A datagram: its bytes, what `timestamp()` and `service()` return, and its `__dict__` in order. */
  datatype Dgram = Dgram(bytes: seq<Byte>, timestamp: nat, service: nat, attrs: seq<DetAttr>)

  // ---------------------------------------------------------------------
  // The packet footer
  // ---------------------------------------------------------------------

  /** The words of a list of sizes, in order. */
  function Le32s(sizes: seq<nat>): (b: seq<Byte>)
    ensures |b| == 4 * |sizes|
  {
    if sizes == [] then [] else Le32s(sizes[..|sizes| - 1]) + Le32(sizes[|sizes| - 1])
  }

  /** The sizes a footer's words hold. */
  function ReadSizes(b: seq<Byte>): (sizes: seq<nat>)
    ensures 4 * |sizes| <= |b| < 4 * |sizes| + 4
  {
    if |b| < 4 then [] else ReadSizes(b[..|b| - 4]) + [ReadLe32(b[|b| - 4..])]
  }

  /** A size that fits in 32 bits reads back unchanged. */
  lemma Le32Exact(x: nat)
    requires x < 0x1_0000_0000
    ensures ReadLe32(Le32(x)) == x
  {
    Le32RoundTrip(x);
  }

  /** Reading a footer one word longer reads one size more. */
  lemma ReadSizesSnoc(front: seq<Byte>, word: seq<Byte>)
    requires |word| == 4
    ensures ReadSizes(front + word) == ReadSizes(front) + [ReadLe32(word)]
  {
    Halves(front, word);
  }

  /** Sizes that fit in 32 bits read back unchanged. */
  lemma {:induction false} SizesRoundTrip(sizes: seq<nat>)
    requires forall i :: 0 <= i < |sizes| ==> sizes[i] < 0x1_0000_0000
    ensures ReadSizes(Le32s(sizes)) == sizes
  {
    if sizes != [] {
      var init, x := sizes[..|sizes| - 1], sizes[|sizes| - 1];
      ReadSizesSnoc(Le32s(init), Le32(x));
      SizesRoundTrip(init);
      Le32Exact(x);
    }
  }

  /** `PacketFooter(n)` with the sizes set: the size words, then the packet count. */
  function Footer(sizes: seq<nat>): seq<Byte>
  {
    Le32s(sizes) + Le32(|sizes|)
  }

  /** `PacketFooter(view=b)`: the sizes of the footer at the end of b, or None when b is too short for one. */
  function ParseFooter(b: seq<Byte>): (r: Option<seq<nat>>)
    ensures r.Some? ==> 4 * (|r.value| + 1) <= |b|
  {
    if |b| < 4 then None
    else
      var n := ReadLe32(b[|b| - 4..]);
      if |b| < 4 * (n + 1) then None
      else Some(ReadSizes(b[|b| - 4 * (n + 1)..|b| - 4]))
  }

  /** The bytes before the footer of sizes. */
  function FooterData(b: seq<Byte>, sizes: seq<nat>): seq<Byte>
    requires 4 * (|sizes| + 1) <= |b|
  {
    b[..|b| - 4 * (|sizes| + 1)]
  }

  /** The total of a list of sizes. */
  function Sum(sizes: seq<nat>): nat
  {
    if sizes == [] then 0 else Sum(sizes[..|sizes| - 1]) + sizes[|sizes| - 1]
  }

  /** `split_packets()`: consecutive views of the given sizes from the start of the data, or None when they overrun it. */
  function Views(data: seq<Byte>, sizes: seq<nat>): (r: Option<seq<seq<Byte>>>)
    ensures r.Some? <==> Sum(sizes) <= |data|
    ensures r.Some? ==> |r.value| == |sizes|
  {
    if sizes == [] then Some([])
    else
      var init, s := sizes[..|sizes| - 1], sizes[|sizes| - 1];
      match Views(data, init)
      case None => None
      case Some(vs) => if Sum(init) + s <= |data| then Some(vs + [data[Sum(init)..Sum(init) + s]]) else None
  }

  /** Views that fit in the data do not see what follows it. */
  lemma {:induction false} ViewsExtend(data: seq<Byte>, extra: seq<Byte>, sizes: seq<nat>)
    requires Sum(sizes) <= |data|
    ensures Views(data + extra, sizes) == Views(data, sizes)
  {
    if sizes != [] {
      var init, s := sizes[..|sizes| - 1], sizes[|sizes| - 1];
      ViewsExtend(data, extra, init);
      assert (data + extra)[Sum(init)..Sum(init) + s] == data[Sum(init)..Sum(init) + s];
    }
  }

  /** The two halves of a concatenation. */
  lemma Halves(a: seq<Byte>, c: seq<Byte>)
    ensures (a + c)[..|a|] == a && (a + c)[|a|..] == c
  {
  }

  /** The footer written after a payload reads back as the sizes, and leaves the payload as the data. */
  lemma FooterRoundTrip(payload: seq<Byte>, sizes: seq<nat>)
    requires |sizes| < 0x1_0000_0000
    requires forall i :: 0 <= i < |sizes| ==> sizes[i] < 0x1_0000_0000
    ensures var b := payload + Footer(sizes);
      ParseFooter(b) == Some(sizes) && FooterData(b, sizes) == payload
  {
    var n := |sizes|;
    var words := Le32s(sizes);
    var front := payload + words;
    var b := front + Le32(n);
    assert payload + Footer(sizes) == b;
    Halves(front, Le32(n));
    Le32RoundTrip(n);
    assert ReadLe32(b[|b| - 4..]) == n;
    Halves(payload, words);
    assert b[|b| - 4 * (n + 1)..|b| - 4] == front[|payload|..];
    SizesRoundTrip(sizes);
    assert b[..|b| - 4 * (n + 1)] == front[..|payload|];
  }

  // ---------------------------------------------------------------------
  // _to_bytes and _from_bytes
  // ---------------------------------------------------------------------

  /** The datagrams of the slots, or None when a slot is empty. */
  function Present(slots: seq<Option<Dgram>>): (r: Option<seq<Dgram>>)
    ensures r.Some? <==> forall i :: 0 <= i < |slots| ==> slots[i].Some?
    ensures r.Some? ==> |r.value| == |slots| && forall i :: 0 <= i < |slots| ==> slots[i] == Some(r.value[i])
  {
    if slots == [] then Some([])
    else match (Present(slots[..|slots| - 1]), slots[|slots| - 1])
      case (Some(ds), Some(d)) => Some(ds + [d])
      case _ => None
  }

  /** The byte lengths of the datagrams. */
  function Lengths(ds: seq<Dgram>): (r: seq<nat>)
    ensures |r| == |ds| && forall i :: 0 <= i < |ds| ==> r[i] == |ds[i].bytes|
  {
    if ds == [] then [] else Lengths(ds[..|ds| - 1]) + [|ds[|ds| - 1].bytes|]
  }

  /** The bytes of the datagrams, one after the other. */
  function Payload(ds: seq<Dgram>): seq<Byte>
  {
    if ds == [] then [] else Payload(ds[..|ds| - 1]) + ds[|ds| - 1].bytes
  }

  /** The payload is as long as the sizes add up to. */
  lemma {:induction false} PayloadSize(ds: seq<Dgram>)
    ensures |Payload(ds)| == Sum(Lengths(ds))
  {
    if ds != [] {
      PayloadSize(ds[..|ds| - 1]);
      var l := Lengths(ds);
      assert l[..|l| - 1] == Lengths(ds[..|ds| - 1]);
    }
  }

  /** The byte blocks of the datagrams. */
  function Blocks(ds: seq<Dgram>): (r: seq<seq<Byte>>)
    ensures |r| == |ds| && forall i :: 0 <= i < |ds| ==> r[i] == ds[i].bytes
  {
    seq(|ds|, i requires 0 <= i < |ds| => ds[i].bytes)
  }

  /** What `_to_bytes` returns, or the `TypeError` of `bytearray(None)` for an empty slot. */
  datatype BytesOutcome = Bytes(b: seq<Byte>) | BytesTypeError

  /**
   * `_to_bytes`: the datagram bytes one after the other, then the footer of
   * their sizes, or nothing at all when there are no bytes.
   */
  function EventBytes(slots: seq<Option<Dgram>>): (r: BytesOutcome)
    ensures r.BytesTypeError? <==> exists i :: 0 <= i < |slots| && slots[i].None?
    ensures r.Bytes? && r.b != [] ==> |r.b| == Sum(Lengths(Present(slots).value)) + 4 * (|slots| + 1)
  {
    match Present(slots)
    case None => BytesTypeError
    case Some(ds) =>
      var p := Payload(ds);
      PayloadSize(ds);
      if p == [] then Bytes([]) else Bytes(p + Footer(Lengths(ds)))
  }

  /** The payload splits back into the datagrams' bytes. */
  lemma {:induction false} PayloadViews(ds: seq<Dgram>)
    ensures Views(Payload(ds), Lengths(ds)) == Some(Blocks(ds))
  {
    if ds != [] {
      var init, d := ds[..|ds| - 1], ds[|ds| - 1];
      var front, l, li := Payload(init), Lengths(ds), Lengths(init);
      var p := Payload(ds);
      assert p == front + d.bytes;
      assert l == li + [|d.bytes|];
      assert l[..|l| - 1] == li;
      PayloadViews(init);
      PayloadSize(init);
      ViewsExtend(front, d.bytes, li);
      assert Views(p, li) == Some(Blocks(init));
      Halves(front, d.bytes);
      assert p[Sum(li)..Sum(li) + |d.bytes|] == d.bytes;
      assert Views(p, l) == Some(Blocks(init) + [d.bytes]);
      assert Blocks(ds) == Blocks(init) + [d.bytes];
    }
  }

  /** The slots `_from_bytes` builds from the views: `None` for an empty view, else the datagram of its configuration. */
  function DecodeSlots<C>(configs: seq<C>, views: seq<seq<Byte>>, decode: (C, seq<Byte>) -> Dgram): (r: seq<Option<Dgram>>)
    requires |configs| == |views|
    ensures |r| == |views|
  {
    seq(|views|, i requires 0 <= i < |views| => if |views[i]| > 0 then Some(decode(configs[i], views[i])) else None)
  }

  /**
   * What `_from_bytes` makes of a buffer: the slots of the new event, a
   * footer that does not describe the buffer, or the failed assertion that
   * there is one configuration per packet.
   */
  datatype Decoded = Slots(slots: seq<Option<Dgram>>) | Malformed | CountMismatch

  /** `_from_bytes(configs, event_bytes)`: no slots for an empty buffer, else one per packet of the footer. */
  function FromBytesSpec<C>(configs: seq<C>, b: seq<Byte>, decode: (C, seq<Byte>) -> Dgram): (r: Decoded)
    ensures b == [] ==> r == Slots([])
    ensures r == Malformed <==>
      b != [] && (ParseFooter(b).None? || Sum(ParseFooter(b).value) > |b| - 4 * (|ParseFooter(b).value| + 1))
    ensures r == CountMismatch ==> ParseFooter(b).Some? && |configs| != |ParseFooter(b).value|
    ensures r.Slots? && b != [] ==> |r.slots| == |configs| == |ParseFooter(b).value|
  {
    if b == [] then Slots([])
    else match ParseFooter(b)
      case None => Malformed
      case Some(sizes) =>
        match Views(FooterData(b, sizes), sizes)
        case None => Malformed
        case Some(views) =>
          if |configs| != |sizes| then CountMismatch else Slots(DecodeSlots(configs, views, decode))
  }

  /**
   * `_from_bytes` after `_to_bytes`, one configuration per slot and sizes
   * within 32 bits: no slots when there were no bytes, else one slot per
   * datagram, `None` where its bytes were empty and otherwise what its
   * configuration decodes from exactly its bytes.
   */
  lemma BytesRoundTrip<C>(slots: seq<Option<Dgram>>, configs: seq<C>, decode: (C, seq<Byte>) -> Dgram)
    requires Present(slots).Some? && |slots| < 0x1_0000_0000 && |configs| == |slots|
    requires forall i :: 0 <= i < |slots| ==> |slots[i].value.bytes| < 0x1_0000_0000
    ensures EventBytes(slots).Bytes?
    ensures var b := EventBytes(slots).b;
      FromBytesSpec(configs, b, decode) == if b == [] then Slots([]) else Slots(DecodeSlots(configs, Blocks(Present(slots).value), decode))
  {
    var ds := Present(slots).value;
    var p := Payload(ds);
    if p != [] {
      var sizes := Lengths(ds);
      var b := p + Footer(sizes);
      assert EventBytes(slots) == Bytes(b);
      FooterRoundTrip(p, sizes);
      PayloadViews(ds);
      assert Views(FooterData(b, sizes), sizes) == Some(Blocks(ds));
    }
  }

  /**
   * Datagrams that are not empty and that their configurations decode back
   * to themselves survive the round trip unchanged.
   */
  lemma SlotsRoundTrip<C>(slots: seq<Option<Dgram>>, configs: seq<C>, decode: (C, seq<Byte>) -> Dgram)
    requires |slots| < 0x1_0000_0000 && |configs| == |slots|
    requires forall i :: 0 <= i < |slots| ==> slots[i].Some? && 0 < |slots[i].value.bytes| < 0x1_0000_0000
    requires forall i :: 0 <= i < |slots| ==> decode(configs[i], slots[i].value.bytes) == slots[i].value
    ensures EventBytes(slots).Bytes? && FromBytesSpec(configs, EventBytes(slots).b, decode) == Slots(slots)
  {
    BytesRoundTrip(slots, configs, decode);
    var ds := Present(slots).value;
    if slots != [] {
      assert |Payload(ds)| > 0 by {
        SumPositive(Lengths(ds), |ds| - 1);
      }
    }
  }

  /** A total is at least any one of its terms. */
  lemma {:induction false} SumPositive(sizes: seq<nat>, i: nat)
    requires i < |sizes|
    ensures Sum(sizes) >= sizes[i]
  {
    if i < |sizes| - 1 {
      SumPositive(sizes[..|sizes| - 1], i);
    }
  }

  /** A buffer with bytes but one configuration too many or too few fails the assertion. */
  lemma CountMismatchRejected<C>(slots: seq<Option<Dgram>>, configs: seq<C>, decode: (C, seq<Byte>) -> Dgram)
    requires Present(slots).Some? && |slots| < 0x1_0000_0000 && |configs| != |slots|
    requires forall i :: 0 <= i < |slots| ==> |slots[i].value.bytes| < 0x1_0000_0000
    requires EventBytes(slots) != Bytes([])
    ensures FromBytesSpec(configs, EventBytes(slots).b, decode) == CountMismatch
  {
    var ds := Present(slots).value;
    var p, sizes := Payload(ds), Lengths(ds);
    var b := p + Footer(sizes);
    assert EventBytes(slots) == Bytes(b);
    FooterRoundTrip(p, sizes);
    PayloadViews(ds);
    assert Views(FooterData(b, sizes), sizes).Some?;
  }

  // ---------------------------------------------------------------------
  // timestamp, _seconds, _nanoseconds and service
  // ---------------------------------------------------------------------

  /** The position of the first slot holding a datagram, or the number of slots. */
  function FirstPresent(slots: seq<Option<Dgram>>): (i: nat)
    ensures i <= |slots|
    ensures i < |slots| ==> slots[i].Some?
    ensures forall j :: 0 <= j < i ==> slots[j].None?
  {
    if slots == [] then 0 else if slots[0].Some? then 0 else 1 + FirstPresent(slots[1..])
  }

  /**
   * `timestamp`: the timestamp of the first datagram present, or None for
   * the failed `assert ts` when there is none or its timestamp is 0; the
   * datagrams after the first are not looked at.
   */
  function Timestamp(slots: seq<Option<Dgram>>): (r: Option<nat>)
    ensures r.Some? ==> r.value != 0 && exists i :: 0 <= i < |slots| && slots[i].Some? && slots[i].value.timestamp == r.value
    ensures (forall j :: 0 <= j < |slots| ==> slots[j].None?) ==> r.None?
  {
    var i := FirstPresent(slots);
    if i < |slots| && slots[i].value.timestamp != 0 then Some(slots[i].value.timestamp) else None
  }

  /** `service()`: the transition id of the first datagram present, or None for the failed `assert service`. */
  function Service(slots: seq<Option<Dgram>>): (r: Option<nat>)
    ensures r.Some? ==> r.value != 0 && exists i :: 0 <= i < |slots| && slots[i].Some? && slots[i].value.service == r.value
    ensures (forall j :: 0 <= j < |slots| ==> slots[j].None?) ==> r.None?
  {
    var i := FirstPresent(slots);
    if i < |slots| && slots[i].value.service != 0 then Some(slots[i].value.service) else None
  }

  /** `_seconds`: bits 32 to 63 of the timestamp. */
  function Seconds(slots: seq<Option<Dgram>>): Option<nat>
  {
    match Timestamp(slots)
    case None => None
    case Some(ts) => Some(Field(ts, 32, 32))
  }

  /** `_nanoseconds`: bits 0 to 31 of the timestamp. */
  function Nanoseconds(slots: seq<Option<Dgram>>): Option<nat>
  {
    match Timestamp(slots)
    case None => None
    case Some(ts) => Some(Field(ts, 0, 32))
  }

  /** The first datagram present decides, whatever the later ones hold. */
  lemma FirstDecides(slots: seq<Option<Dgram>>, i: nat, d: Dgram)
    requires i < |slots| && slots[i] == Some(d) && forall j :: 0 <= j < i ==> slots[j].None?
    ensures Timestamp(slots) == (if d.timestamp != 0 then Some(d.timestamp) else None)
    ensures Service(slots) == (if d.service != 0 then Some(d.service) else None)
  {
    FirstPresentAt(slots, i);
  }

  lemma {:induction false} FirstPresentAt(slots: seq<Option<Dgram>>, i: nat)
    requires i < |slots| && slots[i].Some? && forall j :: 0 <= j < i ==> slots[j].None?
    ensures FirstPresent(slots) == i
  {
    if i > 0 {
      FirstPresentAt(slots[1..], i - 1);
    }
  }

  /** With no datagram present both properties fail their assertion. */
  lemma NoneRaises(slots: seq<Option<Dgram>>)
    requires forall j :: 0 <= j < |slots| ==> slots[j].None?
    ensures Timestamp(slots).None? && Service(slots).None?
    ensures Seconds(slots).None? && Nanoseconds(slots).None?
  {
  }

  /** 2^32, the range of a 32-bit word. */
  const WORD: nat := 0x1_0000_0000

  lemma WordIsPow2()
    ensures Pow2(32) == WORD && Pow2(0) == 1
  {
    assert Pow2(4) == 16;
    Pow2Add(4, 4);
    Pow2Add(8, 8);
    Pow2Add(16, 16);
  }

  /** The high word of `hi * 2^32 + lo`. */
  lemma HighWord(hi: nat, lo: nat)
    requires hi < WORD && lo < WORD
    ensures Field(hi * WORD + lo, 32, 32) == hi
  {
    WordIsPow2();
    FieldOf(0, hi, lo, 32, 32);
  }

  /** The low word of `hi * 2^32 + lo`. */
  lemma LowWord(hi: nat, lo: nat)
    requires lo < WORD
    ensures Field(hi * WORD + lo, 0, 32) == lo
  {
    WordIsPow2();
    FieldOf(hi, lo, 0, 0, 32);
  }

  /** A value below 2^64 is a high word times 2^32 plus a low word. */
  lemma Words(ts: nat) returns (hi: nat, lo: nat)
    requires ts < WORD * WORD
    ensures hi < WORD && lo < WORD && ts == hi * WORD + lo
  {
    hi, lo := ts / WORD, ts % WORD;
  }

  /** A 64-bit timestamp is its seconds word above its nanoseconds word. */
  lemma TimestampWords(slots: seq<Option<Dgram>>, hi: nat, lo: nat)
    requires hi < WORD && lo < WORD
    requires Timestamp(slots) == Some(hi * WORD + lo)
    ensures Seconds(slots) == Some(hi) && Nanoseconds(slots) == Some(lo)
  {
    HighWord(hi, lo);
    LowWord(hi, lo);
  }

  /** Every timestamp below 2^64 is recovered from its two words. */
  lemma SecondsNanoseconds(slots: seq<Option<Dgram>>, ts: nat)
    requires Timestamp(slots) == Some(ts) && ts < WORD * WORD
    ensures Seconds(slots).Some? && Nanoseconds(slots).Some?
    ensures Seconds(slots).value < WORD && Nanoseconds(slots).value < WORD
    ensures Seconds(slots).value * WORD + Nanoseconds(slots).value == ts
  {
    var hi, lo := Words(ts);
    TimestampWords(slots, hi, lo);
  }

  // ---------------------------------------------------------------------
  // _assign_det_segments
  // ---------------------------------------------------------------------

  /** One drp class reached by the nested loops: detector, segment, class name and the class object. */
  datatype Item = Item(det: string, segment: nat, className: string, obj: nat)

  /** The drp classes of one segment. */
  function ClassItems(det: string, seg: Segment): (r: seq<Item>)
    ensures |r| == |seg.classes|
    ensures forall k :: 0 <= k < |r| ==> r[k] == Item(det, seg.id, seg.classes[k].name, seg.classes[k].obj)
  {
    seq(|seg.classes|, k requires 0 <= k < |seg.classes| => Item(det, seg.id, seg.classes[k].name, seg.classes[k].obj))
  }

  /** The drp classes of a detector's segments, in order. */
  function SegmentItems(det: string, segs: seq<Segment>): seq<Item>
  {
    if segs == [] then [] else SegmentItems(det, segs[..|segs| - 1]) + ClassItems(det, segs[|segs| - 1])
  }

  /** An attribute name starting with `_` is a hidden one. */
  predicate Hidden(name: string)
  {
    |name| > 0 && name[0] == '_'
  }

  /** The drp classes of a datagram's detector attributes, the hidden ones skipped. */
  function AttrItems(attrs: seq<DetAttr>): seq<Item>
  {
    if attrs == [] then []
    else
      var a := attrs[|attrs| - 1];
      AttrItems(attrs[..|attrs| - 1]) + if Hidden(a.name) then [] else SegmentItems(a.name, a.segments)
  }

  /** The drp classes of the datagrams present, in the order the loops reach them. */
  function SlotItems(slots: seq<Option<Dgram>>): seq<Item>
  {
    if slots == [] then []
    else
      var last := slots[|slots| - 1];
      SlotItems(slots[..|slots| - 1]) + if last.None? then [] else AttrItems(last.value.attrs)
  }

  /** Every item of a segment belongs to its detector. */
  lemma {:induction false} SegmentItemsDet(det: string, segs: seq<Segment>)
    ensures forall x :: x in SegmentItems(det, segs) ==> x.det == det
  {
    if segs != [] {
      SegmentItemsDet(det, segs[..|segs| - 1]);
    }
  }

  /** No item comes from a hidden attribute. */
  lemma {:induction false} AttrItemsShown(attrs: seq<DetAttr>)
    ensures forall x :: x in AttrItems(attrs) ==> !Hidden(x.det)
  {
    if attrs != [] {
      var a := attrs[|attrs| - 1];
      AttrItemsShown(attrs[..|attrs| - 1]);
      SegmentItemsDet(a.name, a.segments);
    }
  }

  /** The table skips hidden attributes of every datagram. */
  lemma {:induction false} SlotItemsShown(slots: seq<Option<Dgram>>)
    ensures forall x :: x in SlotItems(slots) ==> !Hidden(x.det)
  {
    if slots != [] {
      var last := slots[|slots| - 1];
      SlotItemsShown(slots[..|slots| - 1]);
      if last.Some? {
        AttrItemsShown(last.value.attrs);
      }
    }
  }

  /** The detectors whose segments may repeat. */
  const EXEMPT: seq<string> := ["runinfo", "smdinfo"]

  /** `_det_segments`: for each (detector, drp class name), the class object of each segment. */
  type SegTable = map<(string, string), map<nat, nat>>

  /** `_assign_det_segments` over the items, or None for the failed duplicate-segment assertion. */
  function AssignSpec(items: seq<Item>): (r: Option<SegTable>)
    ensures r.Some? ==> forall key :: key in r.value ==> r.value[key] != map[]
    ensures (forall i :: 0 <= i < |items| ==> items[i].det in EXEMPT) ==> r.Some?
  {
    if items == [] then Some(map[])
    else
      var init := items[..|items| - 1];
      assert forall i :: 0 <= i < |init| ==> init[i] == items[i];
      match AssignSpec(init)
      case None => None
      case Some(t) =>
        var x := items[|items| - 1];
        var key := (x.det, x.className);
        var segs := if key in t then t[key] else map[];
        if x.det !in EXEMPT && x.segment in segs then None
        else
          var m := segs[x.segment := x.obj];
          assert x.segment in m;
          Some(t[key := m])
  }

  /** One more item: the table of the prefix, with the item's class object added unless it is a duplicate. */
  lemma AssignStep(items: seq<Item>, i: nat, t: SegTable)
    requires i < |items| && AssignSpec(items[..i]) == Some(t)
    ensures var x := items[i];
      var key := (x.det, x.className);
      var segs := if key in t then t[key] else map[];
      AssignSpec(items[..i + 1]) == if x.det !in EXEMPT && x.segment in segs then None else Some(t[key := segs[x.segment := x.obj]])
  {
    assert items[..i + 1][..i] == items[..i] && items[..i + 1][i] == items[i];
  }

  /** The table has a class object for this detector, class name and segment. */
  predicate Filled(t: SegTable, det: string, cls: string, seg: nat)
  {
    (det, cls) in t && seg in t[(det, cls)]
  }

  /** An item names this detector, class name and segment. */
  predicate Names(x: Item, det: string, cls: string, seg: nat)
  {
    x.det == det && x.className == cls && x.segment == seg
  }

  /** Two items give the same detector, class name and segment for a detector that may not repeat. */
  predicate Clash(a: Item, b: Item)
  {
    Names(b, a.det, a.className, a.segment) && a.det !in EXEMPT
  }

  /** The table holds exactly the detector, class and segment triples of the items. */
  lemma {:induction false} AssignFilled(items: seq<Item>, det: string, cls: string, seg: nat)
    requires AssignSpec(items).Some?
    ensures Filled(AssignSpec(items).value, det, cls, seg) <==> exists i :: 0 <= i < |items| && Names(items[i], det, cls, seg)
  {
    if items != [] {
      var init, x := items[..|items| - 1], items[|items| - 1];
      AssignFilled(init, det, cls, seg);
      if exists i :: 0 <= i < |init| && Names(init[i], det, cls, seg) {
        var i :| 0 <= i < |init| && Names(init[i], det, cls, seg);
        assert items[i] == init[i];
      }
      if exists i :: 0 <= i < |items| && Names(items[i], det, cls, seg) {
        var i :| 0 <= i < |items| && Names(items[i], det, cls, seg);
        if i < |init| {
          assert init[i] == items[i];
        }
      }
    }
  }

  /**
   * The assertion fails exactly when two items of a detector other than
   * `runinfo` and `smdinfo` give the same class name and segment.
   */
  lemma AssignFailsIff(items: seq<Item>)
    ensures AssignSpec(items).None? <==> exists i, j :: 0 <= i < j < |items| && Clash(items[i], items[j])
  {
    if AssignSpec(items).None? {
      var i, j := FailHasClash(items);
    }
    forall i, j | 0 <= i < j < |items| && Clash(items[i], items[j]) ensures AssignSpec(items).None? {
      ClashFails(items, i, j);
    }
  }

  lemma {:induction false} ClashFails(items: seq<Item>, i: nat, j: nat)
    requires i < j < |items| && Clash(items[i], items[j])
    ensures AssignSpec(items).None?
  {
    var init, x := items[..|items| - 1], items[|items| - 1];
    if j < |init| {
      assert init[i] == items[i] && init[j] == items[j];
      ClashFails(init, i, j);
    } else if AssignSpec(init).Some? {
      assert Names(init[i], x.det, x.className, x.segment);
      AssignFilled(init, x.det, x.className, x.segment);
    }
  }

  lemma {:induction false} FailHasClash(items: seq<Item>) returns (i: nat, j: nat)
    requires AssignSpec(items).None?
    ensures i < j < |items| && Clash(items[i], items[j])
  {
    var init, x := items[..|items| - 1], items[|items| - 1];
    if AssignSpec(init).None? {
      i, j := FailHasClash(init);
      assert init[i] == items[i] && init[j] == items[j];
    } else {
      AssignFilled(init, x.det, x.className, x.segment);
      i :| 0 <= i < |init| && Names(init[i], x.det, x.className, x.segment);
      j := |items| - 1;
      assert items[i] == init[i];
    }
  }

  /** Item i is the last one naming its detector, class name and segment. */
  predicate LastNaming(items: seq<Item>, i: nat)
  {
    i < |items| && forall j :: i < j < |items| ==> !Names(items[j], items[i].det, items[i].className, items[i].segment)
  }

  /** Each entry of the table is the class object of the last item naming it. */
  lemma {:induction false} AssignLastWins(items: seq<Item>, i: nat)
    requires AssignSpec(items).Some? && LastNaming(items, i)
    ensures var x := items[i];
      Filled(AssignSpec(items).value, x.det, x.className, x.segment)
      && AssignSpec(items).value[(x.det, x.className)][x.segment] == x.obj
  {
    var init := items[..|items| - 1];
    if i < |items| - 1 {
      assert LastNaming(init, i) by {
        forall j | i < j < |init| ensures !Names(init[j], items[i].det, items[i].className, items[i].segment) {
          assert init[j] == items[j];
        }
      }
      assert init[i] == items[i];
      AssignLastWins(init, i);
    }
  }

  // ---------------------------------------------------------------------
  // The event
  // ---------------------------------------------------------------------

  /** What `next()` returns, or the `StopIteration` it raises. */
  datatype NextResult = Yield(d: Option<Dgram>) | StopIteration

  /** What `_replace` does: the slot is replaced, `assert pos < self._size` fails, or the list index is out of range. */
  datatype ReplaceResult = Replaced | ReplaceAssertion | ReplaceIndexError

  /** The list position Python's `l[pos]` uses: a negative position counts from the end. */
  function SlotIndex(pos: int, size: nat): int
  {
    if pos < 0 then size + pos else pos
  }

  class Event {
    /** `_dgrams`: one slot per data file. */
    var dgrams: seq<Option<Dgram>>
    /** `_size`: the number of slots, fixed on construction. */
    const size: nat
    /** `_position`: the next slot `next()` returns. */
    var position: nat
    /** `_run`: the run the event belongs to, by identity. */
    const run: Option<nat>
    /** `_det_segments`. */
    var detSegments: SegTable
    /** `_complete()` raised the duplicate-segment assertion, so construction did not return. */
    var raised: bool

    /** The slots keep their number and the iterator stays within them. */
    predicate Valid()
      reads this
    {
      size == |dgrams| && position <= |dgrams|
    }

    /** `Event(dgrams, run)`: the slots are taken as given and `_complete()` builds the segment table. */
    constructor (dgrams: seq<Option<Dgram>>, run: Option<nat>)
      ensures Valid()
      ensures this.dgrams == dgrams && size == |dgrams| && position == 0 && this.run == run
      ensures raised <==> AssignSpec(SlotItems(dgrams)).None?
      ensures !raised ==> detSegments == AssignSpec(SlotItems(dgrams)).value
    {
      this.dgrams := dgrams;
      size := |dgrams|;
      position := 0;
      this.run := run;
      detSegments := map[];
      raised := false;
      new;
      var ok := AssignDetSegments();
      raised := !ok;
    }

    /**
     * `_assign_det_segments()`: the loops over the datagrams present, their
     * shown attributes, the segments and the drp classes, run as one loop
     * over the items in the order the nested loops reach them.
     */
    method AssignDetSegments() returns (ok: bool)
      modifies this`detSegments
      ensures ok <==> AssignSpec(SlotItems(dgrams)).Some?
      ensures ok ==> detSegments == AssignSpec(SlotItems(dgrams)).value
    {
      var items := SlotItems(dgrams);
      detSegments := map[];
      var i := 0;
      while i < |items|
        invariant 0 <= i <= |items|
        invariant AssignSpec(items[..i]) == Some(detSegments)
      {
        var x := items[i];
        var key := (x.det, x.className);
        ghost var t := detSegments;
        AssignStep(items, i, t);
        var segs := if key in detSegments then detSegments[key] else map[];
        if key !in detSegments {
          detSegments := detSegments[key := map[]];
        }
        if x.det !in EXEMPT && x.segment in segs {
          AssignStops(items, i + 1);
          return false;
        }
        detSegments := detSegments[key := segs[x.segment := x.obj]];
        assert detSegments == t[key := segs[x.segment := x.obj]];
        i := i + 1;
      }
      assert items[..|items|] == items;
      return true;
    }

    /** `next()`: the slot at the position, which moves on, or `StopIteration` once past the last. */
    method Next() returns (r: NextResult)
      requires Valid()
      modifies this`position
      ensures Valid()
      ensures old(position) >= |dgrams| ==> r == StopIteration && position == old(position)
      ensures old(position) < |dgrams| ==> r == Yield(dgrams[old(position)]) && position == old(position) + 1
    {
      if position >= |dgrams| {
        return StopIteration;
      }
      r := Yield(dgrams[position]);
      position := position + 1;
    }

    /** `for d in evt`: `__iter__` is the event itself, and `__next__` calls `next()` until `StopIteration`. */
    method Iterate() returns (ds: seq<Option<Dgram>>)
      requires Valid()
      modifies this`position
      ensures Valid() && position == |dgrams|
      ensures ds == old(dgrams[position..])
    {
      ds := [];
      ghost var start := position;
      while true
        invariant Valid() && start <= position
        invariant ds == dgrams[start..position]
        decreases |dgrams| - position
      {
        var r := Next();
        match r
        case StopIteration =>
          return;
        case Yield(d) =>
          assert dgrams[start..position] == dgrams[start..position - 1] + [d];
          ds := ds + [d];
      }
    }

    /**
     * `_replace(pos, d)`: slot pos takes d, a negative pos counting from the
     * end as Python lists do; nothing changes when the assertion or the
     * index fails, and the segment table is not rebuilt.
     */
    method Replace(pos: int, d: Option<Dgram>) returns (r: ReplaceResult)
      requires Valid()
      modifies this`dgrams
      ensures Valid()
      ensures pos >= size ==> r == ReplaceAssertion && dgrams == old(dgrams)
      ensures pos < -(size as int) ==> r == ReplaceIndexError && dgrams == old(dgrams)
      ensures -(size as int) <= pos < size ==> r == Replaced && dgrams == old(dgrams)[SlotIndex(pos, size) := d]
    {
      if pos >= size {
        return ReplaceAssertion;
      }
      if pos < -(size as int) {
        return ReplaceIndexError;
      }
      dgrams := dgrams[SlotIndex(pos, size) := d];
      r := Replaced;
    }

    /** `_to_bytes()`: the loop extends the buffer with each datagram's bytes and records its size in the footer. */
    method ToBytes() returns (r: BytesOutcome)
      requires Valid()
      ensures r == EventBytes(dgrams)
    {
      var slots := dgrams;
      var eventBytes: seq<Byte> := [];
      var sizes: seq<nat> := Zeros(size);
      ghost var ds: seq<Dgram> := [];
      var i := 0;
      while i < |slots|
        invariant 0 <= i <= |slots| && |ds| == i
        invariant Present(slots[..i]) == Some(ds)
        invariant eventBytes == Payload(ds)
        invariant |sizes| == size
        invariant forall k :: 0 <= k < i ==> sizes[k] == |ds[k].bytes|
        invariant forall k :: i <= k < size ==> sizes[k] == 0
      {
        match slots[i]
        case None =>
          return BytesTypeError;
        case Some(d) =>
          PresentSnoc(slots, i, ds, d);
          eventBytes := eventBytes + d.bytes;
          sizes := sizes[i := |d.bytes|];
          ds := ds + [d];
          i := i + 1;
      }
      assert slots[..|slots|] == slots;
      assert sizes == Lengths(ds);
      if eventBytes != [] {
        eventBytes := eventBytes + Footer(sizes);
      }
      r := Bytes(eventBytes);
    }

    /**
     * `_from_bytes(configs, event_bytes, run)`: the footer's views, one slot
     * per packet filled by the loop where the view is not empty, and the new
     * event over them.
     */
    static method FromBytes<C>(configs: seq<C>, eventBytes: seq<Byte>, decode: (C, seq<Byte>) -> Dgram, run: Option<nat>)
      returns (r: Decoded, evt: Event?)
      ensures r == FromBytesSpec(configs, eventBytes, decode)
      ensures r.Slots? <==> evt != null
      ensures evt != null ==> fresh(evt) && evt.Valid() && evt.dgrams == r.slots && evt.position == 0 && evt.run == run
      ensures evt != null ==> (evt.raised <==> AssignSpec(SlotItems(r.slots)).None?)
    {
      var dgrams: seq<Option<Dgram>> := [];
      if eventBytes != [] {
        var sizes := ParseFooter(eventBytes);
        if sizes.None? {
          return Malformed, null;
        }
        var views := Views(FooterData(eventBytes, sizes.value), sizes.value);
        if views.None? {
          return Malformed, null;
        }
        if |configs| != |sizes.value| {
          return CountMismatch, null;
        }
        var n := |sizes.value|;
        var vs := views.value;
        dgrams := seq(n, _ => None);
        for i := 0 to n
          invariant |dgrams| == n
          invariant forall k :: 0 <= k < i ==> dgrams[k] == DecodeSlots(configs, vs, decode)[k]
          invariant forall k :: i <= k < n ==> dgrams[k].None?
        {
          if |vs[i]| > 0 {
            dgrams := dgrams[i := Some(decode(configs[i], vs[i]))];
          }
        }
        assert dgrams == DecodeSlots(configs, vs, decode);
      }
      r := Slots(dgrams);
      evt := new Event(dgrams, run);
    }
  }

  /** The footer sizes `PacketFooter(n)` starts with. */
  function Zeros(n: nat): (r: seq<nat>)
    ensures |r| == n && forall k :: 0 <= k < n ==> r[k] == 0
  {
    seq(n, _ => 0)
  }

  /** One more slot holding a datagram. */
  lemma PresentSnoc(slots: seq<Option<Dgram>>, i: nat, ds: seq<Dgram>, d: Dgram)
    requires i < |slots| && Present(slots[..i]) == Some(ds) && slots[i] == Some(d)
    ensures Present(slots[..i + 1]) == Some(ds + [d])
  {
    assert slots[..i + 1][..i] == slots[..i];
  }

  /** Once a prefix of the items fails the assertion, all of them do. */
  lemma {:induction false} AssignStops(items: seq<Item>, n: nat)
    requires n <= |items| && AssignSpec(items[..n]).None?
    ensures AssignSpec(items).None?
    decreases |items| - n
  {
    if n < |items| {
      assert items[..n + 1][..n] == items[..n];
      AssignStops(items, n + 1);
    } else {
      assert items[..n] == items;
    }
  }
}
