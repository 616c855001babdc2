/**
 * The event-builder layout constants of psdaq `eb.hh`: the maximum numbers of
 * contributors (DRPs), trigger event builders (TEBs), monitor requestors
 * (MRQs) and monitor event builders (MEBs), the four consecutive port bases,
 * the batch geometry and the number of readout groups, together with the two
 * compile-time power-of-two checks.
 */
module EbConstants {
  import opened Bits

  const RTMON_PORT_BASE: nat := 5559

  const MAX_DRPS: nat := 64
  const MAX_TEBS: nat := 64
  const MAX_MRQS: nat := MAX_TEBS
  const MAX_MEBS: nat := 64
  const MAX_PORTS: nat := MAX_DRPS + MAX_TEBS + MAX_MRQS + MAX_MEBS

  const OUR_PORT_BASE: nat := 1024
  const TEB_PORT_BASE: nat := OUR_PORT_BASE
  const DRP_PORT_BASE: nat := TEB_PORT_BASE + MAX_TEBS
  const MRQ_PORT_BASE: nat := DRP_PORT_BASE + MAX_DRPS
  const MEB_PORT_BASE: nat := MRQ_PORT_BASE + MAX_MEBS

  const MAX_ENTRIES: nat := 64
  const BATCH_DURATION: nat := MAX_ENTRIES
  const MAX_LATENCY: nat := 4 * 1024 * 1024
  const MAX_BATCHES: nat := MAX_LATENCY / MAX_ENTRIES

  const NUM_READOUT_GROUPS: nat := 16

  /** n is 2 to some power. */
  predicate IsPowerOfTwo(n: nat)
  {
    n == 1 || (n > 1 && n % 2 == 0 && IsPowerOfTwo(n / 2))
  }

  /** The test written in the header's `static_assert`s: `(n & (n - 1)) == 0`. */
  predicate PowerOfTwoTest(n: nat)
    requires n >= 1
  {
    And(n, n - 1) == 0
  }

  /** The four kinds of port block, in the order the header lays them out. */
  datatype PortKind = TebPorts | DrpPorts | MrqPorts | MebPorts

  function PortBase(k: PortKind): nat
  {
    match k
    case TebPorts => TEB_PORT_BASE
    case DrpPorts => DRP_PORT_BASE
    case MrqPorts => MRQ_PORT_BASE
    case MebPorts => MEB_PORT_BASE
  }

  function PortWidth(k: PortKind): nat
  {
    match k
    case TebPorts => MAX_TEBS
    case DrpPorts => MAX_DRPS
    case MrqPorts => MAX_MRQS
    case MebPorts => MAX_MEBS
  }

  predicate InBlock(k: PortKind, port: nat)
  {
    PortBase(k) <= port < PortBase(k) + PortWidth(k)
  }

  /** MAX_PORTS is the sum of the four maxima, 256 in all. */
  lemma MaxPortsIsSumOfMaxima()
    ensures MAX_PORTS == MAX_DRPS + MAX_TEBS + MAX_MRQS + MAX_MEBS == 256
  {
  }

  /**
   * The blocks are consecutive and 64 wide, start at 1024, never overlap, and
   * together cover exactly [OUR_PORT_BASE, OUR_PORT_BASE + MAX_PORTS).
   */
  lemma PortBlocksAreConsecutiveAndDisjoint(k1: PortKind, k2: PortKind, port: nat)
    ensures PortBase(TebPorts) == 1024 && PortBase(DrpPorts) == 1088
    ensures PortBase(MrqPorts) == 1152 && PortBase(MebPorts) == 1216
    ensures PortBase(DrpPorts) == PortBase(TebPorts) + PortWidth(TebPorts)
    ensures PortBase(MrqPorts) == PortBase(DrpPorts) + PortWidth(DrpPorts)
    ensures PortBase(MebPorts) == PortBase(MrqPorts) + PortWidth(MrqPorts)
    ensures InBlock(k1, port) && InBlock(k2, port) ==> k1 == k2
    ensures (OUR_PORT_BASE <= port < OUR_PORT_BASE + MAX_PORTS) <==>
            (InBlock(TebPorts, port) || InBlock(DrpPorts, port) || InBlock(MrqPorts, port) || InBlock(MebPorts, port))
  {
  }

  lemma {:induction false} AndSelf(x: nat)
    ensures And(x, x) == x
    decreases x
  {
    if x != 0 {
      AndSelf(x / 2);
    }
  }

  /** For every positive n the header's bit test holds exactly for the powers of two. */
  lemma {:induction false} PowerOfTwoTestIsExact(n: nat)
    requires n >= 1
    ensures PowerOfTwoTest(n) <==> IsPowerOfTwo(n)
    decreases n
  {
    if n == 1 {
    } else if n % 2 == 0 {
      // bit 0 of n is clear, so the test is the same one-bit-shorter test on n / 2
      assert (n - 1) / 2 == n / 2 - 1;
      assert And(n, n - 1) == 2 * And(n / 2, (n - 1) / 2);
      PowerOfTwoTestIsExact(n / 2);
    } else {
      // n odd and above 1: n & (n - 1) keeps the nonzero upper part n / 2
      assert (n - 1) / 2 == n / 2;
      assert And(n, n - 1) == 2 * And(n / 2, n / 2);
      AndSelf(n / 2);
    }
  }

  lemma {:induction false} Pow2IsPowerOfTwo(k: nat)
    ensures IsPowerOfTwo(Pow2(k))
  {
    if k > 0 {
      Pow2IsPowerOfTwo(k - 1);
    }
  }

  /** `BATCH_DURATION` equals `MAX_ENTRIES` and passes the power-of-two check. */
  lemma BatchDurationIsPowerOfTwo()
    ensures BATCH_DURATION == MAX_ENTRIES == Pow2(6)
    ensures IsPowerOfTwo(BATCH_DURATION) && PowerOfTwoTest(BATCH_DURATION)
  {
    assert Pow2(6) == 64;
    Pow2IsPowerOfTwo(6);
    PowerOfTwoTestIsExact(BATCH_DURATION);
  }

  /** `MAX_BATCHES` is 2^16 and passes the power-of-two check. */
  lemma MaxBatchesIsPowerOfTwo()
    ensures MAX_BATCHES == MAX_LATENCY / MAX_ENTRIES == Pow2(16)
    ensures IsPowerOfTwo(MAX_BATCHES) && PowerOfTwoTest(MAX_BATCHES)
  {
    assert Pow2(8) == 256;
    assert Pow2(16) == 65536 by {
      assert Pow2(12) == 4096;
    }
    Pow2IsPowerOfTwo(16);
    PowerOfTwoTestIsExact(MAX_BATCHES);
  }
}
