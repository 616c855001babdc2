/**
 * The event of psdaq `EbEvent.hh` that an event builder assembles from its
 * contributions: the bit lists of the slots expected and still to
 * contribute, the array of contributions received, and the aging counter
 * that times the event out.
 *
 * The constructor and `_add`/`_insert` are in `EbEvent.cc`, which is not part
 * of this model; the constructor here takes the whole initial state.
 */
module EbEvent {
  import opened Bits

  /** A contribution, the `EbDgram` a slot of `_contributions` points to. */
  datatype Contribution = Contribution(pulseId: nat, src: nat)

  class Event {
    /** `_contract`: the slots expected to contribute. */
    const contract: nat
    /** `_prm`: the application's free parameter. */
    const prm: nat
    /** `_remaining`: the slots that have not contributed yet. */
    var remaining: nat
    /** `_living`: the aging counter. */
    var living: int
    /** `_contributions`, and `_last` as the number of entries in use. */
    var contributions: seq<Contribution>
    var last: nat

    /** The creator is stored on construction, and `_last` stays within the array. */
    predicate Valid()
      reads this
    {
      1 <= last <= |contributions|
    }

    constructor (contract: nat, prm: nat, remaining: nat, living: int, creator: Contribution)
      ensures this.contract == contract && this.prm == prm && this.remaining == remaining
      ensures this.living == living && contributions == [creator] && last == 1
      ensures Valid()
    {
      this.contract := contract;
      this.prm := prm;
      this.remaining := remaining;
      this.living := living;
      contributions := [creator];
      last := 1;
    }

    /** `creator()`: the first contribution, the one that created the event. */
    function Creator(): (c: Contribution)
      requires Valid()
      reads this
      ensures c == Received()[0]
    {
      contributions[0]
    }

    /** `begin()`..`end()`: the contributions received, the creator first. */
    function Received(): (r: seq<Contribution>)
      requires Valid()
      reads this
      ensures |r| == last >= 1
      ensures forall k :: 0 <= k < |r| ==> r[k] == contributions[k]
    {
      contributions[..last]
    }

    /** `sequence()`: the pulse id of the event, that of its creator. */
    function Sequence(): (pid: nat)
      requires Valid()
      reads this
      ensures pid == Received()[0].pulseId
    {
      Creator().pulseId
    }

    /** `alive()`: the aging counter has not run down. */
    predicate Alive()
      reads this
    {
      living > 0
    }

    /** The slots still to contribute, as a set of slot numbers. */
    function Outstanding(): set<nat>
      reads this
    {
      Ones(remaining, 64)
    }

    /** The event is complete: `remaining()` is 0. */
    predicate Complete()
      reads this
    {
      remaining == 0
    }

    /** For a 64-bit `remaining`, the event is complete exactly when no slot is outstanding. */
    lemma CompleteIffNoneOutstanding()
      requires remaining < Pow2(64)
      ensures Complete() <==> Outstanding() == {}
    {
      ZeroIffNoBits(remaining, 64);
    }

    /**
     * `_alive()`: the counter counts down by one, and the event lives on
     * exactly when the new count is above 0 — the test `alive()` makes.
     */
    method Age() returns (alive: bool)
      modifies this`living
      ensures living == old(living) - 1
      ensures alive == Alive() && (alive <==> old(living) > 1)
    {
      living := living - 1;
      alive := living > 0;
    }
  }
}
