/**
 * The naming of XPM link ids (`psdaq/psdaq/cas/xpm_utils.py`): the top byte
 * of the 32-bit id says what kind of device is at the other end of the
 * link, and the lower bytes carry, depending on the kind, an ATCA crate and
 * slot, an XPM number, or the last two octets of a host address.
 *
 * The reverse DNS lookup of `hostName` (`socket.gethostbyaddr`) is the
 * parameter `resolve`, mapping a dotted address to the host's full name, or
 * to `None` when the lookup raises `socket.herror`; the naming functions
 * then give `None`, as the exception passes through them.
 */
module XpmUtils {
  import opened Wrappers
  import opened Bits
  import opened Text

  /** `atcaIp(v)`: `10.0.<bits 16-19>.<bits 8-15>`. */
  function AtcaIp(v: nat): (r: string)
    ensures Split(r, '.') == ["10", "0", Decimal(Field(v, 16, 4)), Decimal(Field(v, 8, 8))]
  {
    var crate, slot := Decimal(Field(v, 16, 4)), Decimal(Field(v, 8, 8));
    DecimalWithout(Field(v, 16, 4), '.');
    DecimalWithout(Field(v, 8, 8), '.');
    DottedQuad("10", "0", crate, slot);
    assert "10" + "." + "0" + "." == "10.0.";
    "10.0." + crate + "." + slot
  }

  /** `a.b.c.d`, with no dot inside the parts, splits back into its four parts. */
  lemma DottedQuad(a: string, b: string, c: string, d: string)
    requires '.' !in a && '.' !in b && '.' !in c && '.' !in d
    ensures Split(a + "." + b + "." + c + "." + d, '.') == [a, b, c, d]
  {
    DotsNest(a, b, c, d);
    SplitWithout(d, '.');
    SplitCons(c, '.', d, [d]);
    SplitCons(b, '.', c + ['.'] + d, [c, d]);
    SplitCons(a, '.', b + ['.'] + (c + ['.'] + d), [b, c, d]);
  }

  lemma DotsNest(a: string, b: string, c: string, d: string)
    ensures a + "." + b + "." + c + "." + d == a + ['.'] + (b + ['.'] + (c + ['.'] + d))
  {
  }

  /** The address `hostName` looks up: `172.21.<bits 8-15>.<bits 0-7>`. */
  function HostAddress(v: nat): string
  {
    "172.21." + Decimal(Field(v, 8, 8)) + "." + Decimal(Field(v, 0, 8))
  }

  /** `hostName(v)`: the looked-up name up to its first `.`, after its last `-`; `None` when the lookup fails. */
  function HostName(v: nat, resolve: string -> Option<string>): (h: Option<string>)
    ensures h.Some? <==> resolve(HostAddress(v)).Some?
    ensures h.Some? ==> '.' !in h.value && '-' !in h.value
  {
    match resolve(HostAddress(v))
    case None => None
    case Some(full) =>
      var first := Split(full, '.')[0];
      SplitPartsFree(full, '.');
      var parts := Split(first, '-');
      SplitPartsFree(first, '-');
      SplitPartsWithin(first, '-');
      var h := parts[|parts| - 1];
      assert h in parts;
      Some(h)
  }

  /** The naming functions of the `linkType` table. */
  datatype Namer = NameXpm | NameDti | NameDrp | NameHsd | NameTDet | NameWave8 | NameOpal | NameTimeTool

  /** The `linkType` table. */
  const LINK_TYPE: map<nat, Namer> := map[
    0xff := NameXpm, 0xfe := NameDti, 0xfd := NameDrp, 0xfc := NameHsd,
    0xfb := NameTDet, 0xfa := NameWave8, 0xf9 := NameOpal, 0xf8 := NameTimeTool]

  /** The naming functions that look up a host: all but those of XPM and DTI links. */
  predicate NamesHost(n: Namer)
  {
    !n.NameXpm? && !n.NameDti?
  }

  /** The table maps exactly the types 0xf8 to 0xff. */
  lemma LinkTypeDomain(itype: nat)
    ensures itype in LINK_TYPE <==> 0xf8 <= itype <= 0xff
  {
  }

  /**
   * The pair one naming function of the table returns: XPM and DTI links
   * are placed by their ATCA address, the others by their host name, and no
   * device label starts with the `u` of `undef`. `None` is the lookup
   * failure of a host-named link.
   */
  function Name(n: Namer, v: nat, resolve: string -> Option<string>): (r: Option<(string, string)>)
    ensures r.None? <==> NamesHost(n) && resolve(HostAddress(v)).None?
    ensures n.NameXpm? || n.NameDti? ==> r.Some? && r.value.1 == AtcaIp(v)
    ensures n.NameXpm? ==> r.Some? && StartsWith(r.value.0, "XPM:")
    ensures NamesHost(n) && r.Some? ==> StartsWith(r.value.1, HostName(v, resolve).value)
    ensures NamesHost(n) && !n.NameHsd? && r.Some? ==> r.value.1 == HostName(v, resolve).value
    ensures r.Some? ==> |r.value.0| > 0 && r.value.0[0] != 'u'
  {
    match n
    case NameXpm => Some(("XPM:" + Decimal(Field(v, 20, 4)), AtcaIp(v)))
    case NameDti => Some(("DTI", AtcaIp(v)))
    case NameDrp => Labelled("TDetSim", HostName(v, resolve))
    case NameHsd =>
      var h := HostName(v, resolve);
      if h.None? then None else Some(("HSD", h.value + "." + Hex(Field(v, 16, 8))))
    case NameTDet => Labelled("TDetSim", HostName(v, resolve))
    case NameWave8 => Labelled("Wave8", HostName(v, resolve))
    case NameOpal => Labelled("Opal", HostName(v, resolve))
    case NameTimeTool => Labelled("TimeTool", HostName(v, resolve))
  }

  /** The pair of a device label and a looked-up host, or the failure of the lookup. */
  function Labelled(kind: string, host: Option<string>): Option<(string, string)>
  {
    if host.None? then None else Some((kind, host.value))
  }

  /**
   * `xpmLinkId(value)`: dispatch on bits 24-31, or `('undef', '{:x}'.format(value))`.
   * It fails exactly when the type names a host and that host's lookup fails.
   */
  function XpmLinkId(value: nat, resolve: string -> Option<string>): (r: Option<(string, string)>)
    ensures r.None? <==>
      && Field(value, 24, 8) in LINK_TYPE && NamesHost(LINK_TYPE[Field(value, 24, 8)])
      && resolve(HostAddress(value)).None?
    ensures r.Some? && r.value.0 == "undef" <==> !(0xf8 <= Field(value, 24, 8) <= 0xff)
    ensures r.Some? && r.value.0 == "undef" ==> HexValue(r.value.1) == value
  {
    var itype := Field(value, 24, 8);
    LinkTypeDomain(itype);
    if itype in LINK_TYPE then
      var r := Name(LINK_TYPE[itype], value, resolve);
      assert r.Some? ==> r.value.0[0] != "undef"[0];
      r
    else
      HexRoundTrip(value);
      Some(("undef", Hex(value)))
  }

  /** A link id with type byte t: t, then bytes b2, b1, b0 below it. */
  function LinkValue(t: nat, b2: nat, b1: nat, b0: nat): nat
  {
    t * 0x100_0000 + b2 * 0x1_0000 + b1 * 0x100 + b0
  }

  lemma Pow2Table()
    ensures Pow2(0) == 1 && Pow2(4) == 0x10 && Pow2(8) == 0x100 && Pow2(16) == 0x1_0000
    ensures Pow2(20) == 0x10_0000 && Pow2(24) == 0x100_0000 && Pow2(32) == 0x1_0000_0000
  {
    assert Pow2(4) == 16;
    Pow2Add(4, 4);
    Pow2Add(8, 8);
    Pow2Add(16, 4);
    Pow2Add(16, 8);
    Pow2Add(16, 16);
  }

  /** FieldOf with the value given by name. */
  lemma FieldAt(v: nat, s: nat, w: nat, hi: nat, f: nat, lo: nat)
    requires f < Pow2(w) && lo < Pow2(s) && v == hi * Pow2(s + w) + f * Pow2(s) + lo
    ensures Field(v, s, w) == f
  {
    FieldOf(hi, f, lo, s, w);
  }

  /** Every field of a link id built from bytes is the byte (or nibble of a byte) put there. */
  lemma LinkValueFields(t: nat, b2: nat, b1: nat, b0: nat)
    requires t < 256 && b2 < 256 && b1 < 256 && b0 < 256
    ensures Field(LinkValue(t, b2, b1, b0), 24, 8) == t
    ensures Field(LinkValue(t, b2, b1, b0), 20, 4) == b2 / 16
    ensures Field(LinkValue(t, b2, b1, b0), 16, 4) == b2 % 16
    ensures Field(LinkValue(t, b2, b1, b0), 16, 8) == b2
    ensures Field(LinkValue(t, b2, b1, b0), 8, 8) == b1
    ensures Field(LinkValue(t, b2, b1, b0), 0, 8) == b0
  {
    var v := LinkValue(t, b2, b1, b0);
    Pow2Table();
    FieldAt(v, 24, 8, 0, t, b2 * 0x1_0000 + b1 * 0x100 + b0);
    FieldAt(v, 20, 4, t, b2 / 16, (b2 % 16) * 0x1_0000 + b1 * 0x100 + b0);
    FieldAt(v, 16, 4, t * 16 + b2 / 16, b2 % 16, b1 * 0x100 + b0);
    FieldAt(v, 16, 8, t, b2, b1 * 0x100 + b0);
    FieldAt(v, 8, 8, t * 0x100 + b2, b1, b0);
    FieldAt(v, 0, 8, t * 0x1_0000 + b2 * 0x100 + b1, b0, 0);
  }

  /** An XPM link names the XPM number in bits 20-23 and the ATCA address of its crate and slot. */
  lemma XpmLinkNamesXpm(b2: nat, b1: nat, b0: nat, resolve: string -> Option<string>)
    requires b2 < 256 && b1 < 256 && b0 < 256
    ensures XpmLinkId(LinkValue(0xff, b2, b1, b0), resolve)
      == Some(("XPM:" + Decimal(b2 / 16), "10.0." + Decimal(b2 % 16) + "." + Decimal(b1)))
  {
    LinkValueFields(0xff, b2, b1, b0);
  }

  /** A DTI link names the ATCA address of its crate and slot. */
  lemma DtiLinkNamesAtca(b2: nat, b1: nat, b0: nat, resolve: string -> Option<string>)
    requires b2 < 256 && b1 < 256 && b0 < 256
    ensures XpmLinkId(LinkValue(0xfe, b2, b1, b0), resolve)
      == Some(("DTI", "10.0." + Decimal(b2 % 16) + "." + Decimal(b1)))
  {
    LinkValueFields(0xfe, b2, b1, b0);
  }

  /**
   * An HSD link names the host at `172.21.<b1>.<b0>`, suffixed with bits
   * 16-23 in hexadecimal, and fails when that host's lookup fails.
   */
  lemma HsdLinkNamesHost(b2: nat, b1: nat, b0: nat, resolve: string -> Option<string>)
    requires b2 < 256 && b1 < 256 && b0 < 256
    ensures HostAddress(LinkValue(0xfc, b2, b1, b0)) == "172.21." + Decimal(b1) + "." + Decimal(b0)
    ensures resolve(HostAddress(LinkValue(0xfc, b2, b1, b0))).None? ==> XpmLinkId(LinkValue(0xfc, b2, b1, b0), resolve).None?
    ensures resolve(HostAddress(LinkValue(0xfc, b2, b1, b0))).Some? ==>
      XpmLinkId(LinkValue(0xfc, b2, b1, b0), resolve)
        == Some(("HSD", HostName(LinkValue(0xfc, b2, b1, b0), resolve).value + "." + Hex(b2)))
  {
    LinkValueFields(0xfc, b2, b1, b0);
  }

  /** A type byte outside the table names the whole id in hexadecimal. */
  lemma UndefinedLink(value: nat, resolve: string -> Option<string>)
    requires Field(value, 24, 8) < 0xf8
    ensures XpmLinkId(value, resolve) == Some(("undef", Hex(value)))
  {
  }

  /** The value of a lower-case hexadecimal digit. */
  function HexDigitValue(c: char): nat
  {
    if '0' <= c <= '9' then c as nat - '0' as nat
    else if 'a' <= c <= 'f' then c as nat - 'a' as nat + 10
    else 0
  }

  lemma HexDigitRoundTrip(d: nat)
    requires d < 16
    ensures HexDigitValue(HexChar(d)) == d
  {
  }

  /** The value of a string of lower-case hexadecimal digits. */
  function HexValue(s: string): nat
  {
    if s == [] then 0 else 16 * HexValue(s[..|s| - 1]) + HexDigitValue(s[|s| - 1])
  }

  /** Reading the hexadecimal rendering back gives the number, so the HSD suffix determines bits 16-23. */
  lemma {:induction false} HexRoundTrip(n: nat)
    ensures HexValue(Hex(n)) == n
  {
    var s := Hex(n);
    if n >= 16 {
      HexRoundTrip(n / 16);
      HexDigitRoundTrip(n % 16);
      assert s[..|s| - 1] == Hex(n / 16);
    } else {
      HexDigitRoundTrip(n);
      assert s[..|s| - 1] == [];
    }
  }
}
