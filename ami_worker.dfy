/**
 * The AMI worker and collector of `ami/worker.py`.
 *
 * A worker announces its partition with an Allocate transition, then runs the
 * analysis graph over its message stream: at a Heartbeat it applies a pending
 * graph reconfiguration (reverting a configuration that fails), a Datagram batch
 * is stored, executed and collected, and every other message is forwarded. The
 * collector is an N-way barrier that keeps one counter per message kind.
 *
 * The graph and the result store are not part of this model: every call the
 * worker makes on them is appended to a trace, and an oracle says, by the call's
 * position in the trace, whether it returns or raises. The listener thread that
 * installs a new graph is modelled by `Reconfigure` inputs interleaved with the
 * messages, each of which runs `update_graph` and sets the reconfigure flag.
 */
module AmiWorker {
  import opened Wrappers
  import opened Text
  import opened Bits

  datatype Graph = Graph(id: nat)
  datatype DataType = DataType(code: nat)
  datatype TransitionKind = Allocate | OtherTransition(code: nat)
  datatype OccurrenceKind = Heartbeat | OtherOccurrence(code: nat)
  datatype Dgram = Dgram(name: string, data: nat)

  /** A message of the stream: its `mtype` is the constructor, its payload the fields. */
  datatype Message =
    | TransitionMsg(ttype: TransitionKind, entries: seq<(string, DataType)>)
    | OccurrenceMsg(occurrence: OccurrenceKind)
    | DatagramMsg(dgrams: seq<Dgram>)

  predicate IsHeartbeat(m: Message)
  {
    m.OccurrenceMsg? && m.occurrence.Heartbeat?
  }

  datatype Error = GraphConfigError | GraphRuntimeError | OtherError(code: nat)
  datatype Outcome = Returns | Raises(error: Error)

  /** The calls a worker makes on its result store and its graph. */
  datatype Call =
    | StoreMessage(message: Message)
    | StoreCreate(name: string, dtype: DataType)
    | StorePutDgram(dgram: Dgram)
    | StoreForward(message: Message)
    | StoreCollect
    | GraphConfigure
    | GraphRevert
    | GraphExecute(names: seq<string>)
    | GraphUpdate(graph: Graph)

  /** Whether the call at trace position k returns or raises. */
  type Oracle = (nat, Call) -> Outcome

  /** `Running` while `run` has not left its loop; `ReturnedOne` after a graph runtime error (`return 1`). */
  datatype Status = Running | ReturnedOne | Raised(error: Error)

  datatype WorkerState = WorkerState(trace: seq<Call>, listening: bool, status: Status)

  /** What the worker sees, in order: a message from its source, or a new graph from the listener. */
  datatype Input = Deliver(message: Message) | Reconfigure(graph: Graph)

  // ---------------------------------------------------------------- worker specification

  /** One call on the store or the graph, raising when the oracle says so. */
  function Perform(o: Oracle, s: WorkerState, c: Call): (r: WorkerState)
    ensures r.trace == s.trace + [c] && r.listening == s.listening
    ensures r.status == if o(|s.trace|, c).Raises? then Raised(o(|s.trace|, c).error) else s.status
  {
    var s1 := s.(trace := s.trace + [c]);
    match o(|s.trace|, c)
    case Returns => s1
    case Raises(e) => s1.(status := Raised(e))
  }

  /** A sequence of calls made one after the other; the first one that raises ends it. */
  function PerformAll(o: Oracle, s: WorkerState, cs: seq<Call>): WorkerState
  {
    if cs == [] then s
    else
      var s1 := PerformAll(o, s, cs[..|cs| - 1]);
      if s1.status.Running? then Perform(o, s1, cs[|cs| - 1]) else s1
  }

  function Creates(entries: seq<(string, DataType)>): (cs: seq<Call>)
    ensures |cs| == |entries|
    ensures forall i :: 0 <= i < |entries| ==> cs[i] == StoreCreate(entries[i].0, entries[i].1)
  {
    if entries == [] then []
    else Creates(entries[..|entries| - 1]) + [StoreCreate(entries[|entries| - 1].0, entries[|entries| - 1].1)]
  }

  function Puts(ds: seq<Dgram>): (cs: seq<Call>)
    ensures |cs| == |ds|
    ensures forall i :: 0 <= i < |ds| ==> cs[i] == StorePutDgram(ds[i])
  {
    if ds == [] then [] else Puts(ds[..|ds| - 1]) + [StorePutDgram(ds[|ds| - 1])]
  }

  function Names(ds: seq<Dgram>): (ns: seq<string>)
    ensures |ns| == |ds|
    ensures forall i :: 0 <= i < |ds| ==> ns[i] == ds[i].name
  {
    if ds == [] then [] else Names(ds[..|ds| - 1]) + [ds[|ds| - 1].name]
  }

  /** The first calls of `Worker.run` (worker.py:27-30): the Allocate transition, then one `create` per partition entry. */
  function AllocationCalls(partition: seq<(string, DataType)>): seq<Call>
  {
    [StoreMessage(TransitionMsg(Allocate, partition))] + Creates(partition)
  }

  function Allocation(o: Oracle, s: WorkerState, partition: seq<(string, DataType)>): WorkerState
  {
    PerformAll(o, s, AllocationCalls(partition))
  }

  /** `graph.configure()`, and `graph.revert()` when it raises a configuration error. */
  function Configure(o: Oracle, s: WorkerState): WorkerState
    requires s.status.Running?
  {
    var s1 := s.(trace := s.trace + [GraphConfigure]);
    match o(|s.trace|, GraphConfigure)
    case Returns => s1
    case Raises(GraphConfigError) => Perform(o, s1, GraphRevert)
    case Raises(e) => s1.(status := Raised(e))
  }

  /** `Worker.run`, the Heartbeat branch (worker.py:34-44): the pending reconfiguration, the flag cleared, the Heartbeat forwarded. */
  function HeartbeatStep(o: Oracle, s: WorkerState, m: Message): WorkerState
    requires s.status.Running?
  {
    var s1 := if s.listening then Configure(o, s) else s;
    if s1.status.Running? then Perform(o, s1.(listening := false), StoreForward(m)) else s1
  }

  /** `Worker.run`, the end of the Datagram branch (worker.py:50-55): `graph.execute(names)`, then `store.collect()`; a runtime error returns 1. */
  function Execute(o: Oracle, s: WorkerState, names: seq<string>): WorkerState
    requires s.status.Running?
  {
    var exec := GraphExecute(names);
    var s1 := s.(trace := s.trace + [exec]);
    match o(|s.trace|, exec)
    case Returns => Perform(o, s1, StoreCollect)
    case Raises(GraphRuntimeError) => s1.(status := ReturnedOne)
    case Raises(e) => s1.(status := Raised(e))
  }

  /** `Worker.run`, the Datagram branch (worker.py:46-55): every datagram put in order, then the batch executed. */
  function DatagramStep(o: Oracle, s: WorkerState, ds: seq<Dgram>): WorkerState
    requires s.status.Running?
  {
    var s1 := PerformAll(o, s, Puts(ds));
    if s1.status.Running? then Execute(o, s1, Names(ds)) else s1
  }

  /** One pass of the loop body of `run` for message m. */
  function Handle(o: Oracle, s: WorkerState, m: Message): WorkerState
    requires s.status.Running?
  {
    if IsHeartbeat(m) then HeartbeatStep(o, s, m)
    else if m.DatagramMsg? then DatagramStep(o, s, m.dgrams)
    else Perform(o, s, StoreForward(m))
  }

  function Step(o: Oracle, s: WorkerState, input: Input): WorkerState
  {
    if !s.status.Running? then s
    else match input
      case Deliver(m) => Handle(o, s, m)
      case Reconfigure(g) => s.(trace := s.trace + [GraphUpdate(g)], listening := true)
  }

  function Fold(o: Oracle, s: WorkerState, inputs: seq<Input>): WorkerState
  {
    if inputs == [] then s else Step(o, Fold(o, s, inputs[..|inputs| - 1]), inputs[|inputs| - 1])
  }

  /** The whole of `run`, from worker state s. */
  function RunSpec(o: Oracle, s: WorkerState, partition: seq<(string, DataType)>, inputs: seq<Input>): (r: WorkerState)
    ensures s.status.Running? ==>
      && |r.trace| > |s.trace| && r.trace[..|s.trace|] == s.trace
      && r.trace[|s.trace|] == StoreMessage(TransitionMsg(Allocate, partition))
    ensures !s.status.Running? ==> r == s
  {
    var calls := AllocationCalls(partition);
    var a := Allocation(o, s, partition);
    if s.status.Running? then
      PerformAllTrace(o, s, calls);
      FoldExtends(o, a, inputs);
      var r := Fold(o, a, inputs);
      assert r.trace[..|a.trace|] == a.trace;
      assert r.trace[|s.trace|] == a.trace[|s.trace|] == calls[0];
      r
    else
      assert calls[..0] == [];
      PerformAllHalted(o, s, calls, 0);
      FoldHalted(o, a, inputs);
      Fold(o, a, inputs)
  }

  // ---------------------------------------------------------------- worker properties

  /** One more datagram adds its name. */
  lemma NamesSnoc(ds: seq<Dgram>, i: nat)
    requires i < |ds|
    ensures Names(ds[..i + 1]) == Names(ds[..i]) + [ds[i].name]
  {
    assert ds[..i + 1][..i] == ds[..i];
  }

  /** While no call has raised, one more call of cs performs it on the state so far. */
  lemma PerformAllSnoc(o: Oracle, s: WorkerState, cs: seq<Call>, i: nat, s1: WorkerState)
    requires i < |cs| && s1 == PerformAll(o, s, cs[..i]) && s1.status.Running?
    ensures PerformAll(o, s, cs[..i + 1]) == Perform(o, s1, cs[i])
  {
    assert cs[..i + 1][..i] == cs[..i];
  }

  /** Once a call has raised, the rest of the calls are not made. */
  lemma {:induction false} PerformAllHalted(o: Oracle, s: WorkerState, cs: seq<Call>, i: nat)
    requires i <= |cs| && !PerformAll(o, s, cs[..i]).status.Running?
    ensures PerformAll(o, s, cs) == PerformAll(o, s, cs[..i])
    decreases |cs|
  {
    if i < |cs| {
      var init := cs[..|cs| - 1];
      assert init[..i] == cs[..i];
      PerformAllHalted(o, s, init, i);
    } else {
      assert cs[..i] == cs;
    }
  }

  /**
   * Calls are made in order: the trace grows by a prefix of cs, by all of it when
   * nothing raised, and stops right after the first call that raised.
   */
  lemma {:induction false} PerformAllTrace(o: Oracle, s: WorkerState, cs: seq<Call>)
    requires s.status.Running?
    ensures var r := PerformAll(o, s, cs);
      && |s.trace| <= |r.trace| <= |s.trace| + |cs|
      && r.trace == s.trace + cs[..|r.trace| - |s.trace|]
      && r.listening == s.listening
      && (r.status.Running? <==> forall j :: 0 <= j < |cs| ==> o(|s.trace| + j, cs[j]) == Returns)
      && (r.status.Running? ==> |r.trace| == |s.trace| + |cs|)
      && (!r.status.Running? ==> |r.trace| > |s.trace| && r.status.Raised?)
  {
    if cs != [] {
      var init := cs[..|cs| - 1];
      PerformAllTrace(o, s, init);
      var s1 := PerformAll(o, s, init);
      var k := |s1.trace| - |s.trace|;
      assert init[..k] == cs[..k];
      if s1.status.Running? {
        assert cs[..|cs|] == cs;
        assert s1.trace + [cs[|cs| - 1]] == s.trace + cs;
      } else {
        var j :| 0 <= j < |init| && o(|s.trace| + j, init[j]) != Returns;
        assert cs[j] == init[j];
      }
    }
  }

  /**
   * Allocation comes first: the run's trace begins with the Allocate transition
   * and the creates in partition order, unless one of those calls raised, in
   * which case the run stopped there.
   */
  lemma AllocationFirst(o: Oracle, s: WorkerState, partition: seq<(string, DataType)>, inputs: seq<Input>)
    requires s.status.Running?
    ensures var r := RunSpec(o, s, partition, inputs);
      var calls := AllocationCalls(partition);
      || (|r.trace| >= |s.trace| + |calls| && r.trace[..|s.trace| + |calls|] == s.trace + calls)
      || (!r.status.Running? && |s.trace| < |r.trace| <= |s.trace| + |calls| && r.trace == s.trace + calls[..|r.trace| - |s.trace|])
  {
    var calls := AllocationCalls(partition);
    var a := Allocation(o, s, partition);
    PerformAllTrace(o, s, calls);
    FoldExtends(o, a, inputs);
    if !a.status.Running? {
      FoldHalted(o, a, inputs);
    } else {
      var r := Fold(o, a, inputs);
      assert r.trace[..|s.trace| + |calls|] == a.trace;
    }
  }

  /** Once `run` has returned or raised, nothing further is processed. */
  lemma {:induction false} FoldHalted(o: Oracle, s: WorkerState, inputs: seq<Input>)
    requires !s.status.Running?
    ensures Fold(o, s, inputs) == s
  {
    if inputs != [] {
      FoldHalted(o, s, inputs[..|inputs| - 1]);
    }
  }

  lemma {:induction false} FoldHaltedPrefix(o: Oracle, s: WorkerState, inputs: seq<Input>, i: nat)
    requires i <= |inputs| && !Fold(o, s, inputs[..i]).status.Running?
    ensures Fold(o, s, inputs) == Fold(o, s, inputs[..i])
    decreases |inputs|
  {
    if i < |inputs| {
      var init := inputs[..|inputs| - 1];
      assert init[..i] == inputs[..i];
      FoldHaltedPrefix(o, s, init, i);
    } else {
      assert inputs[..i] == inputs;
    }
  }

  predicate NoStoreMessage(t: seq<Call>)
  {
    forall i :: 0 <= i < |t| ==> !t[i].StoreMessage?
  }

  lemma HeartbeatExtends(o: Oracle, s: WorkerState, m: Message)
    requires s.status.Running? && IsHeartbeat(m)
    ensures var r := HeartbeatStep(o, s, m);
      |r.trace| > |s.trace| && r.trace[..|s.trace|] == s.trace && NoStoreMessage(r.trace[|s.trace|..])
  {
    if s.listening {
      HeartbeatWithUpdate(o, s, m);
    } else {
      HeartbeatWithoutUpdate(o, s, m);
    }
  }

  /** `execute` is one call, and `collect` a second one only after it returns. */
  lemma ExecuteTrace(o: Oracle, s: WorkerState, names: seq<string>)
    requires s.status.Running?
    ensures var r := Execute(o, s, names);
      && (r.trace == s.trace + [GraphExecute(names)] || r.trace == s.trace + [GraphExecute(names), StoreCollect])
      && (r.status.Running? ==> r.trace == s.trace + [GraphExecute(names), StoreCollect])
  {
  }

  lemma NoStoreAppend(a: seq<Call>, b: seq<Call>)
    requires NoStoreMessage(a) && NoStoreMessage(b)
    ensures NoStoreMessage(a + b)
  {
    assert forall i :: 0 <= i < |b| ==> (a + b)[|a| + i] == b[i];
  }

  lemma DatagramExtends(o: Oracle, s: WorkerState, ds: seq<Dgram>)
    requires s.status.Running?
    ensures var r := DatagramStep(o, s, ds);
      |r.trace| >= |s.trace| && r.trace[..|s.trace|] == s.trace && NoStoreMessage(r.trace[|s.trace|..])
  {
    var puts := Puts(ds);
    PerformAllTrace(o, s, puts);
    var s1 := PerformAll(o, s, puts);
    var done := puts[..|s1.trace| - |s.trace|];
    assert s1.trace == s.trace + done;
    PutsNoStore(ds, |done|);
    if s1.status.Running? {
      ExecuteTrace(o, s1, Names(ds));
      var r := Execute(o, s1, Names(ds));
      var extra := r.trace[|s1.trace|..];
      assert NoStoreMessage(extra);
      NoStoreAppend(done, extra);
      assert r.trace == s.trace + (done + extra);
    } else {
      assert s1.trace[|s.trace|..] == done;
    }
  }

  /** No datagram put is a `store.message`. */
  lemma PutsNoStore(ds: seq<Dgram>, n: nat)
    requires n <= |ds|
    ensures NoStoreMessage(Puts(ds)[..n])
  {
    var puts := Puts(ds);
    assert forall i :: 0 <= i < n ==> puts[..n][i] == StorePutDgram(ds[i]);
  }

  lemma HandleExtends(o: Oracle, s: WorkerState, m: Message)
    requires s.status.Running?
    ensures var r := Handle(o, s, m);
      |r.trace| >= |s.trace| && r.trace[..|s.trace|] == s.trace && NoStoreMessage(r.trace[|s.trace|..])
  {
    if IsHeartbeat(m) {
      HeartbeatExtends(o, s, m);
    } else if m.DatagramMsg? {
      DatagramExtends(o, s, m.dgrams);
    }
  }

  /** One input only appends to the trace, and never a `store.message`. */
  lemma StepExtends(o: Oracle, s: WorkerState, x: Input)
    ensures var r := Step(o, s, x);
      |r.trace| >= |s.trace| && r.trace[..|s.trace|] == s.trace && NoStoreMessage(r.trace[|s.trace|..])
  {
    if s.status.Running? {
      match x
      case Deliver(m) =>
        HandleExtends(o, s, m);
      case Reconfigure(g) =>
        assert Step(o, s, x).trace[|s.trace|..] == [GraphUpdate(g)];
    }
  }

  /** Processing inputs only appends to the trace, and never another `store.message`. */
  lemma {:induction false} FoldExtends(o: Oracle, s: WorkerState, inputs: seq<Input>)
    ensures var r := Fold(o, s, inputs);
      |r.trace| >= |s.trace| && r.trace[..|s.trace|] == s.trace && NoStoreMessage(r.trace[|s.trace|..])
  {
    if inputs != [] {
      var init := inputs[..|inputs| - 1];
      FoldExtends(o, s, init);
      var s1 := Fold(o, s, init);
      StepExtends(o, s1, inputs[|inputs| - 1]);
      var r := Fold(o, s, inputs);
      assert r.trace[..|s1.trace|] == s1.trace;
      assert r.trace[|s.trace|..] == s1.trace[|s.trace|..] + r.trace[|s1.trace|..];
      NoStoreAppend(s1.trace[|s.trace|..], r.trace[|s1.trace|..]);
    }
  }

  /** Exactly one `store.message` call is made in a run, and it is the first call. */
  lemma ExactlyOneAllocateMessage(o: Oracle, s: WorkerState, partition: seq<(string, DataType)>, inputs: seq<Input>)
    requires s.status.Running?
    ensures var r := RunSpec(o, s, partition, inputs);
      && |r.trace| > |s.trace|
      && r.trace[|s.trace|] == StoreMessage(TransitionMsg(Allocate, partition))
      && NoStoreMessage(r.trace[|s.trace| + 1..])
  {
    var calls := AllocationCalls(partition);
    var a := Allocation(o, s, partition);
    PerformAllTrace(o, s, calls);
    FoldExtends(o, a, inputs);
    var r := Fold(o, a, inputs);
    var k := |a.trace| - |s.trace|;
    assert a.trace[|s.trace| + 1..] == calls[1..k];
    assert r.trace[|s.trace| + 1..] == a.trace[|s.trace| + 1..] + r.trace[|a.trace|..];
  }

  /** A Heartbeat with the flag clear touches no graph call and is forwarded once. */
  lemma HeartbeatWithoutUpdate(o: Oracle, s: WorkerState, m: Message)
    requires s.status.Running? && !s.listening && IsHeartbeat(m)
    ensures Handle(o, s, m) == Perform(o, s, StoreForward(m))
  {
  }

  /**
   * A Heartbeat with the flag set calls `configure`; on a configuration error it
   * calls `revert` once; in both outcomes the flag is cleared and the Heartbeat
   * is forwarded once. Any other exception ends the run with the flag still set.
   */
  lemma HeartbeatWithUpdate(o: Oracle, s: WorkerState, m: Message)
    requires s.status.Running? && s.listening && IsHeartbeat(m)
    ensures var r := Handle(o, s, m);
      var k := |s.trace|;
      match o(k, GraphConfigure)
      case Returns =>
        r.trace == s.trace + [GraphConfigure, StoreForward(m)] && !r.listening
      case Raises(GraphConfigError) =>
        if o(k + 1, GraphRevert).Returns? then
          r.trace == s.trace + [GraphConfigure, GraphRevert, StoreForward(m)] && !r.listening
        else
          r.trace == s.trace + [GraphConfigure, GraphRevert] && r.listening && !r.status.Running?
      case Raises(e) =>
        r.trace == s.trace + [GraphConfigure] && r.listening && r.status == Raised(e)
  {
  }

  /**
   * A Datagram batch whose puts succeed: every datagram is put in order, `execute`
   * gets their names in that order, then `collect` is called once; a graph runtime
   * error makes `run` return 1 with no collect.
   */
  lemma DatagramBatch(o: Oracle, s: WorkerState, m: Message)
    requires s.status.Running? && m.DatagramMsg?
    requires forall j :: 0 <= j < |m.dgrams| ==> o(|s.trace| + j, StorePutDgram(m.dgrams[j])) == Returns
    ensures var r := Handle(o, s, m);
      var done := s.trace + Puts(m.dgrams) + [GraphExecute(Names(m.dgrams))];
      var k := |s.trace| + |m.dgrams|;
      && r.listening == s.listening
      && match o(k, GraphExecute(Names(m.dgrams)))
         case Returns => r.trace == done + [StoreCollect]
         case Raises(GraphRuntimeError) => r.trace == done && r.status == ReturnedOne
         case Raises(e) => r.trace == done && r.status == Raised(e)
  {
    PerformAllTrace(o, s, Puts(m.dgrams));
  }

  /** Transitions and Occurrences other than Heartbeats are forwarded unchanged. */
  lemma OthersForwarded(o: Oracle, s: WorkerState, m: Message)
    requires s.status.Running? && !IsHeartbeat(m) && !m.DatagramMsg?
    ensures Handle(o, s, m) == Perform(o, s, StoreForward(m))
  {
  }

  function Forwards(t: seq<Call>): seq<Message>
  {
    if t == [] then []
    else Forwards(t[..|t| - 1]) + (if t[|t| - 1].StoreForward? then [t[|t| - 1].message] else [])
  }

  function Collects(t: seq<Call>): nat
  {
    if t == [] then 0 else Collects(t[..|t| - 1]) + (if t[|t| - 1].StoreCollect? then 1 else 0)
  }

  lemma {:induction false} ForwardsAppend(a: seq<Call>, b: seq<Call>)
    ensures Forwards(a + b) == Forwards(a) + Forwards(b)
    ensures Collects(a + b) == Collects(a) + Collects(b)
    decreases |b|
  {
    if b == [] {
      assert a + b == a;
    } else {
      ForwardsAppend(a, b[..|b| - 1]);
      assert (a + b)[..|a + b| - 1] == a + b[..|b| - 1];
    }
  }

  lemma PutsForwardNothing(ds: seq<Dgram>)
    ensures Forwards(Puts(ds)) == [] && Collects(Puts(ds)) == 0
  {
    if ds != [] {
      PutsForwardNothing(ds[..|ds| - 1]);
      ForwardsAppend(Puts(ds[..|ds| - 1]), [StorePutDgram(ds[|ds| - 1])]);
      assert [StorePutDgram(ds[|ds| - 1])][..0] == [];
    }
  }

  /** The messages a run must forward: every delivered message that is not a Datagram. */
  function NonDatagrams(inputs: seq<Input>): seq<Message>
  {
    if inputs == [] then []
    else
      var x := inputs[|inputs| - 1];
      NonDatagrams(inputs[..|inputs| - 1]) + (if x.Deliver? && !x.message.DatagramMsg? then [x.message] else [])
  }

  function DatagramCount(inputs: seq<Input>): nat
  {
    if inputs == [] then 0
    else
      var x := inputs[|inputs| - 1];
      DatagramCount(inputs[..|inputs| - 1]) + (if x.Deliver? && x.message.DatagramMsg? then 1 else 0)
  }

  lemma ForwardsSingle(c: Call)
    ensures Forwards([c]) == (if c.StoreForward? then [c.message] else [])
    ensures Collects([c]) == (if c.StoreCollect? then 1 else 0)
  {
    assert [c][..0] == [];
  }

  lemma ForwardsOfHeartbeat(o: Oracle, s: WorkerState, m: Message)
    requires s.status.Running? && IsHeartbeat(m) && HeartbeatStep(o, s, m).status.Running?
    ensures var r := HeartbeatStep(o, s, m);
      |r.trace| >= |s.trace| && r.trace[..|s.trace|] == s.trace
      && Forwards(r.trace[|s.trace|..]) == [m] && Collects(r.trace[|s.trace|..]) == 0
  {
    var r := HeartbeatStep(o, s, m);
    var tail := r.trace[|s.trace|..];
    ForwardsSingle(GraphConfigure);
    ForwardsSingle(GraphRevert);
    ForwardsSingle(StoreForward(m));
    if !s.listening {
      HeartbeatWithoutUpdate(o, s, m);
      assert tail == [StoreForward(m)];
    } else {
      HeartbeatWithUpdate(o, s, m);
      if o(|s.trace|, GraphConfigure).Returns? {
        assert tail == [GraphConfigure] + [StoreForward(m)];
        ForwardsAppend([GraphConfigure], [StoreForward(m)]);
      } else {
        assert tail == [GraphConfigure] + [GraphRevert] + [StoreForward(m)];
        ForwardsAppend([GraphConfigure], [GraphRevert]);
        ForwardsAppend([GraphConfigure] + [GraphRevert], [StoreForward(m)]);
      }
    }
  }

  /** The calls of a batch that runs through forward nothing and collect once. */
  lemma DatagramCalls(ds: seq<Dgram>)
    ensures var t := Puts(ds) + [GraphExecute(Names(ds))] + [StoreCollect];
      Forwards(t) == [] && Collects(t) == 1
  {
    var exec := GraphExecute(Names(ds));
    PutsForwardNothing(ds);
    ForwardsSingle(exec);
    ForwardsSingle(StoreCollect);
    ForwardsAppend(Puts(ds), [exec]);
    ForwardsAppend(Puts(ds) + [exec], [StoreCollect]);
  }

  lemma ForwardsOfDatagram(o: Oracle, s: WorkerState, ds: seq<Dgram>)
    requires s.status.Running? && DatagramStep(o, s, ds).status.Running?
    ensures var r := DatagramStep(o, s, ds);
      |r.trace| >= |s.trace| && r.trace[..|s.trace|] == s.trace
      && Forwards(r.trace[|s.trace|..]) == [] && Collects(r.trace[|s.trace|..]) == 1
  {
    PerformAllTrace(o, s, Puts(ds));
    var s1 := PerformAll(o, s, Puts(ds));
    assert s1.trace == s.trace + Puts(ds);
    assert s1.status.Running?;
    ExecuteTrace(o, s1, Names(ds));
    var r := DatagramStep(o, s, ds);
    assert r == Execute(o, s1, Names(ds));
    assert r.trace == s.trace + (Puts(ds) + [GraphExecute(Names(ds))] + [StoreCollect]);
    DatagramCalls(ds);
  }

  lemma OneStep(o: Oracle, s: WorkerState, x: Input)
    requires s.status.Running? && Step(o, s, x).status.Running?
    ensures var r := Step(o, s, x);
      |r.trace| >= |s.trace| && r.trace[..|s.trace|] == s.trace
      && Forwards(r.trace[|s.trace|..]) == (if x.Deliver? && !x.message.DatagramMsg? then [x.message] else [])
      && Collects(r.trace[|s.trace|..]) == (if x.Deliver? && x.message.DatagramMsg? then 1 else 0)
  {
    var r := Step(o, s, x);
    if x.Deliver? && IsHeartbeat(x.message) {
      ForwardsOfHeartbeat(o, s, x.message);
    } else if x.Deliver? && x.message.DatagramMsg? {
      ForwardsOfDatagram(o, s, x.message.dgrams);
    } else if x.Deliver? {
      assert r.trace[|s.trace|..] == [StoreForward(x.message)];
      ForwardsSingle(StoreForward(x.message));
    } else {
      assert r.trace[|s.trace|..] == [GraphUpdate(x.graph)];
      ForwardsSingle(GraphUpdate(x.graph));
    }
  }

  /**
   * Over a run that has not stopped, the forwarded messages are exactly the
   * delivered non-Datagram messages, in order, and there is one `collect` per
   * Datagram batch.
   */
  lemma {:induction false} ForwardsAreNonDatagrams(o: Oracle, s: WorkerState, inputs: seq<Input>)
    requires Fold(o, s, inputs).status.Running?
    ensures var r := Fold(o, s, inputs);
      && |r.trace| >= |s.trace| && r.trace[..|s.trace|] == s.trace
      && Forwards(r.trace) == Forwards(s.trace) + NonDatagrams(inputs)
      && Collects(r.trace) == Collects(s.trace) + DatagramCount(inputs)
  {
    if inputs == [] {
      assert Fold(o, s, inputs) == s;
    } else {
      var init := inputs[..|inputs| - 1];
      var x := inputs[|inputs| - 1];
      var s1 := Fold(o, s, init);
      assert Fold(o, s, inputs) == Step(o, s1, x);
      ForwardsAreNonDatagrams(o, s, init);
      ForwardsStep(o, s, s1, x, Fold(o, s, inputs));
    }
  }

  /** One more step of a run keeps the earlier trace and adds that step's forwards and collects. */
  lemma ForwardsStep(o: Oracle, s: WorkerState, s1: WorkerState, x: Input, r: WorkerState)
    requires s1.status.Running? && r == Step(o, s1, x) && r.status.Running?
    requires |s1.trace| >= |s.trace| && s1.trace[..|s.trace|] == s.trace
    ensures |r.trace| >= |s.trace| && r.trace[..|s.trace|] == s.trace
    ensures Forwards(r.trace) == Forwards(s1.trace) + (if x.Deliver? && !x.message.DatagramMsg? then [x.message] else [])
    ensures Collects(r.trace) == Collects(s1.trace) + (if x.Deliver? && x.message.DatagramMsg? then 1 else 0)
  {
    OneStep(o, s1, x);
    assert r.trace == s1.trace + r.trace[|s1.trace|..];
    ForwardsAppend(s1.trace, r.trace[|s1.trace|..]);
  }

  // ---------------------------------------------------------------- the worker

  class Worker {
    const idnum: nat
    const respond: Oracle
    var trace: seq<Call>
    /** The listener's reconfigure flag, `listen_evt`. */
    var listenEvt: bool

    function State(status: Status): WorkerState
      reads this
    {
      WorkerState(trace, listenEvt, status)
    }

    constructor (idnum: nat, respond: Oracle)
      ensures this.idnum == idnum && this.respond == respond
      ensures trace == [] && !listenEvt
    {
      this.idnum := idnum;
      this.respond := respond;
      trace := [];
      listenEvt := false;
    }

    /** The listener thread: `update_graph(new_graph)`, then the flag is set. */
    method Notify(g: Graph)
      modifies this
      ensures trace == old(trace) + [GraphUpdate(g)] && listenEvt
    {
      trace := trace + [GraphUpdate(g)];
      listenEvt := true;
    }

    /** One call on the store or the graph. */
    method Invoke(c: Call) returns (outcome: Outcome)
      modifies this`trace
      ensures trace == old(trace) + [c]
      ensures outcome == respond(|old(trace)|, c)
    {
      outcome := respond(|trace|, c);
      trace := trace + [c];
    }

    /** Perform the calls one by one, stopping at the first that raises. */
    method InvokeAll(cs: seq<Call>) returns (status: Status)
      modifies this`trace
      ensures State(status) == PerformAll(respond, old(State(Running)), cs)
    {
      ghost var s0 := State(Running);
      var i := 0;
      while i < |cs|
        invariant 0 <= i <= |cs|
        invariant State(Running) == PerformAll(respond, s0, cs[..i])
      {
        PerformAllSnoc(respond, s0, cs, i, State(Running));
        var outcome := Invoke(cs[i]);
        if outcome.Raises? {
          status := Raised(outcome.error);
          PerformAllHalted(respond, s0, cs, i + 1);
          return;
        }
        i := i + 1;
      }
      assert cs[..i] == cs;
      status := Running;
    }

    /** `Worker.run`, the Heartbeat branch (worker.py:33-44). */
    method HandleHeartbeat(m: Message) returns (status: Status)
      requires IsHeartbeat(m)
      modifies this
      ensures State(status) == HeartbeatStep(respond, old(State(Running)), m)
    {
      if listenEvt {
        var outcome := Invoke(GraphConfigure);
        if outcome.Raises? {
          if outcome.error == GraphConfigError {
            var reverted := Invoke(GraphRevert);
            if reverted.Raises? {
              return Raised(reverted.error);
            }
          } else {
            return Raised(outcome.error);
          }
        }
        listenEvt := false;
      }
      var outcome := Invoke(StoreForward(m));
      status := if outcome.Raises? then Raised(outcome.error) else Running;
    }

    /** `Worker.run`, the `put_dgram` loop (worker.py:47-49): every datagram in order, collecting their names. */
    method PutDgrams(ds: seq<Dgram>) returns (status: Status, updates: seq<string>)
      modifies this`trace
      ensures State(status) == PerformAll(respond, old(State(Running)), Puts(ds))
      ensures status.Running? ==> updates == Names(ds)
    {
      ghost var s0 := State(Running);
      ghost var cs := Puts(ds);
      updates := [];
      var i := 0;
      while i < |ds|
        invariant 0 <= i <= |ds|
        invariant State(Running) == PerformAll(respond, s0, cs[..i])
        invariant updates == Names(ds[..i])
      {
        PerformAllSnoc(respond, s0, cs, i, State(Running));
        NamesSnoc(ds, i);
        var outcome := Invoke(StorePutDgram(ds[i]));
        if outcome.Raises? {
          status := Raised(outcome.error);
          PerformAllHalted(respond, s0, cs, i + 1);
          return;
        }
        updates := updates + [ds[i].name];
        i := i + 1;
      }
      assert cs[..i] == cs && ds[..i] == ds;
      status := Running;
    }

    /** `Worker.run`, the Datagram branch (worker.py:45-55). */
    method HandleDatagram(ds: seq<Dgram>) returns (status: Status)
      modifies this
      ensures State(status) == DatagramStep(respond, old(State(Running)), ds)
    {
      var updates;
      status, updates := PutDgrams(ds);
      if !status.Running? {
        return;
      }
      var outcome := Invoke(GraphExecute(updates));
      if outcome.Raises? {
        status := if outcome.error == GraphRuntimeError then ReturnedOne else Raised(outcome.error);
        return;
      }
      outcome := Invoke(StoreCollect);
      status := if outcome.Raises? then Raised(outcome.error) else Running;
    }

    /** The loop body of `run` for one message. */
    method HandleMessage(m: Message) returns (status: Status)
      modifies this
      ensures State(status) == Handle(respond, old(State(Running)), m)
    {
      if m.OccurrenceMsg? && m.occurrence == Heartbeat {
        status := HandleHeartbeat(m);
      } else if m.DatagramMsg? {
        status := HandleDatagram(m.dgrams);
      } else {
        var outcome := Invoke(StoreForward(m));
        status := if outcome.Raises? then Raised(outcome.error) else Running;
      }
    }

    /**
     * `run`: allocation, then the inputs in order until the stream ends
     * (`Running`, `run` returns None), a graph runtime error (`ReturnedOne`)
     * or an uncaught exception (`Raised`).
     */
    method Run(partition: seq<(string, DataType)>, inputs: seq<Input>) returns (status: Status)
      modifies this
      ensures State(status) == RunSpec(respond, old(State(Running)), partition, inputs)
    {
      status := InvokeAll(AllocationCalls(partition));
      ghost var a := State(status);
      if !status.Running? {
        FoldHalted(respond, a, inputs);
        return;
      }
      var i := 0;
      while i < |inputs|
        invariant 0 <= i <= |inputs| && status.Running?
        decreases |inputs| - i
        invariant State(status) == Fold(respond, a, inputs[..i])
      {
        assert inputs[..i + 1][..i] == inputs[..i];
        var x := inputs[i];
        if x.Reconfigure? {
          Notify(x.graph);
        } else {
          status := HandleMessage(x.message);
        }
        i := i + 1;
        if !status.Running? {
          FoldHaltedPrefix(respond, a, inputs, i);
          return;
        }
      }
      assert inputs[..i] == inputs;
    }
  }

  // ---------------------------------------------------------------- collector specification

  /**
   * The collector: its two counters, the calls it has made on its upstream
   * result store, and whether one of them raised. An exception out of
   * `store_msg` ends the collector.
   */
  datatype CollectorState = CollectorState(transitions: int, occurrences: int, upstream: seq<Call>, status: Status)

  /**
   * The upstream calls of a completed round, each answered by the oracle at its
   * position in the upstream trace. The round's counter is reset only when none
   * of them raised: the exception leaves `store_msg` before the reset.
   */
  function Round(o: Oracle, s: CollectorState, cs: seq<Call>, transition: bool): CollectorState
  {
    var r := PerformAll(o, WorkerState(s.upstream, false, Running), cs);
    var s1 := s.(upstream := r.trace, status := r.status);
    if !r.status.Running? then s1
    else if transition then s1.(transitions := 0)
    else s1.(occurrences := 0)
  }

  /** `store_msg` for a collector of n workers; a collector that has ended handles nothing more. */
  function StoreStep(o: Oracle, n: int, s: CollectorState, m: Message): CollectorState
  {
    if !s.status.Running? then s
    else
      match m
      case TransitionMsg(ttype, entries) =>
        var c := s.transitions + 1;
        if c == n then Round(o, s.(transitions := c), if ttype.Allocate? then Creates(entries) else [], true)
        else s.(transitions := c)
      case OccurrenceMsg(occurrence) =>
        var c := s.occurrences + 1;
        if c == n then Round(o, s.(occurrences := c), if occurrence.Heartbeat? then [StoreCollect] else [], false)
        else s.(occurrences := c)
      case DatagramMsg(_) => s
  }

  function StoreAll(o: Oracle, n: int, s: CollectorState, msgs: seq<Message>): CollectorState
  {
    if msgs == [] then s else StoreStep(o, n, StoreAll(o, n, s, msgs[..|msgs| - 1]), msgs[|msgs| - 1])
  }

  function TransitionCount(msgs: seq<Message>): nat
  {
    if msgs == [] then 0
    else TransitionCount(msgs[..|msgs| - 1]) + if msgs[|msgs| - 1].TransitionMsg? then 1 else 0
  }

  function OccurrenceCount(msgs: seq<Message>): nat
  {
    if msgs == [] then 0
    else OccurrenceCount(msgs[..|msgs| - 1]) + if msgs[|msgs| - 1].OccurrenceMsg? then 1 else 0
  }

  /**
   * The upstream calls message m brings after the messages init, stated by
   * position instead of by counter: the k-th Transition (counting from 1)
   * completes a round when n divides k, and then replays its entries upstream
   * if it is an Allocate; the k-th Occurrence completes a round when n divides
   * k, and then triggers `collect` if it is a Heartbeat.
   */
  function RoundCalls(n: int, init: seq<Message>, m: Message): seq<Call>
    requires n >= 1
  {
    match m
    case TransitionMsg(ttype, entries) =>
      if (TransitionCount(init) + 1) % n == 0 && ttype.Allocate? then Creates(entries) else []
    case OccurrenceMsg(occurrence) =>
      if (OccurrenceCount(init) + 1) % n == 0 && occurrence.Heartbeat? then [StoreCollect] else []
    case DatagramMsg(_) => []
  }

  /** The barrier's upstream calls over a message stream. */
  function Expected(n: int, msgs: seq<Message>): seq<Call>
    requires n >= 1
  {
    if msgs == [] then [] else Expected(n, msgs[..|msgs| - 1]) + RoundCalls(n, msgs[..|msgs| - 1], msgs[|msgs| - 1])
  }

  /** Every call of cs, made from upstream trace position start on, returns. */
  predicate AllReturn(o: Oracle, start: nat, cs: seq<Call>)
  {
    forall j :: 0 <= j < |cs| ==> o(start + j, cs[j]) == Returns
  }

  lemma AllReturnAppend(o: Oracle, start: nat, a: seq<Call>, b: seq<Call>)
    ensures AllReturn(o, start, a + b) <==> AllReturn(o, start, a) && AllReturn(o, start + |a|, b)
  {
    if AllReturn(o, start, a) && AllReturn(o, start + |a|, b) {
      forall j | 0 <= j < |a + b|
        ensures o(start + j, (a + b)[j]) == Returns
      {
        if j >= |a| {
          var i := j - |a|;
          assert (a + b)[j] == b[i];
          assert o(start + |a| + i, b[i]) == Returns;
        }
      }
    }
    if AllReturn(o, start, a + b) {
      forall j | 0 <= j < |a|
        ensures o(start + j, a[j]) == Returns
      {
        assert (a + b)[j] == a[j];
      }
      forall j | 0 <= j < |b|
        ensures o(start + |a| + j, b[j]) == Returns
      {
        assert (a + b)[|a| + j] == b[j];
      }
    }
  }

  /**
   * A completed round makes its calls in order, up to and including the first
   * that raises; its counter is reset exactly when none raises, and otherwise
   * the collector ends with the counter left as it was.
   */
  lemma RoundOutcome(o: Oracle, s: CollectorState, cs: seq<Call>, transition: bool)
    requires s.status.Running?
    ensures var r := Round(o, s, cs, transition);
      && |s.upstream| <= |r.upstream| <= |s.upstream| + |cs|
      && r.upstream == s.upstream + cs[..|r.upstream| - |s.upstream|]
      && (r.status.Running? <==> AllReturn(o, |s.upstream|, cs))
      && (r.status.Running? ==>
           && r.upstream == s.upstream + cs
           && r.transitions == (if transition then 0 else s.transitions)
           && r.occurrences == (if transition then s.occurrences else 0))
      && (!r.status.Running? ==> r.status.Raised? && r.transitions == s.transitions && r.occurrences == s.occurrences)
  {
    PerformAllTrace(o, WorkerState(s.upstream, false, Running), cs);
  }

  /**
   * Between messages both counters stay in [0, n): each moves only on its own
   * kind of message and resets exactly when it reaches n and the round's
   * upstream calls all return. When one of them raises, the collector ends
   * with that counter at n. A Datagram changes nothing.
   */
  lemma CounterBounds(o: Oracle, n: int, s: CollectorState, m: Message)
    requires n >= 1 && 0 <= s.transitions < n && 0 <= s.occurrences < n && s.status.Running?
    ensures var r := StoreStep(o, n, s, m);
      && (r.status.Running? ==> 0 <= r.transitions < n && 0 <= r.occurrences < n)
      && (m.TransitionMsg? ==>
           && r.occurrences == s.occurrences
           && (r.transitions == 0 <==> r.status.Running? && s.transitions + 1 == n))
      && (m.OccurrenceMsg? ==>
           && r.transitions == s.transitions
           && (r.occurrences == 0 <==> r.status.Running? && s.occurrences + 1 == n))
      && (!r.status.Running? ==> r.status.Raised? && (r.transitions == n || r.occurrences == n))
      && (m.DatagramMsg? ==> r == s)
  {
    match m
    case TransitionMsg(ttype, entries) => {
      if s.transitions + 1 == n {
        RoundOutcome(o, s.(transitions := n), if ttype.Allocate? then Creates(entries) else [], true);
      }
    }
    case OccurrenceMsg(occurrence) => {
      if s.occurrences + 1 == n {
        RoundOutcome(o, s.(occurrences := n), if occurrence.Heartbeat? then [StoreCollect] else [], false);
      }
    }
    case DatagramMsg(_) => {
    }
  }

  /**
   * r follows s by the calls x: it made a prefix of them, all of them exactly
   * when none raised, and then its counters are t and oc.
   */
  predicate Follows(o: Oracle, s: CollectorState, x: seq<Call>, r: CollectorState, t: int, oc: int)
  {
    && |s.upstream| <= |r.upstream| <= |s.upstream| + |x|
    && r.upstream == s.upstream + x[..|r.upstream| - |s.upstream|]
    && (r.status.Running? <==> AllReturn(o, |s.upstream|, x))
    && (r.status.Running? ==> r.upstream == s.upstream + x && r.transitions == t && r.occurrences == oc)
  }

  /** A step that makes no upstream call follows by no calls. */
  lemma FollowsSilently(o: Oracle, s: CollectorState, r: CollectorState)
    requires s.status.Running? && r == s.(transitions := r.transitions, occurrences := r.occurrences)
    ensures Follows(o, s, [], r, r.transitions, r.occurrences)
  {
    assert s.upstream + [] == s.upstream;
  }

  lemma TransitionFollows(o: Oracle, n: int, s: CollectorState, init: seq<Message>, ttype: TransitionKind, entries: seq<(string, DataType)>)
    requires n >= 1 && s.status.Running? && s.transitions == TransitionCount(init) % n
    ensures var m := TransitionMsg(ttype, entries);
      Follows(o, s, RoundCalls(n, init, m), StoreStep(o, n, s, m), (TransitionCount(init) + 1) % n, s.occurrences)
  {
    var m := TransitionMsg(ttype, entries);
    ModSucc(TransitionCount(init), n);
    var r := StoreStep(o, n, s, m);
    if s.transitions + 1 == n {
      var cs := if ttype.Allocate? then Creates(entries) else [];
      assert r == Round(o, s.(transitions := n), cs, true);
      RoundOutcome(o, s.(transitions := n), cs, true);
    } else {
      FollowsSilently(o, s, r);
    }
  }

  lemma OccurrenceFollows(o: Oracle, n: int, s: CollectorState, init: seq<Message>, occurrence: OccurrenceKind)
    requires n >= 1 && s.status.Running? && s.occurrences == OccurrenceCount(init) % n
    ensures var m := OccurrenceMsg(occurrence);
      Follows(o, s, RoundCalls(n, init, m), StoreStep(o, n, s, m), s.transitions, (OccurrenceCount(init) + 1) % n)
  {
    var m := OccurrenceMsg(occurrence);
    ModSucc(OccurrenceCount(init), n);
    var r := StoreStep(o, n, s, m);
    if s.occurrences + 1 == n {
      var cs := if occurrence.Heartbeat? then [StoreCollect] else [];
      assert r == Round(o, s.(occurrences := n), cs, false);
      RoundOutcome(o, s.(occurrences := n), cs, false);
    } else {
      FollowsSilently(o, s, r);
    }
  }

  /** One message on a running collector whose counters and calls so far match the barrier over init. */
  lemma BarrierStep(o: Oracle, n: int, s: CollectorState, init: seq<Message>, m: Message)
    requires n >= 1 && s.status.Running?
    requires s.transitions == TransitionCount(init) % n && s.occurrences == OccurrenceCount(init) % n
    ensures Follows(o, s, RoundCalls(n, init, m), StoreStep(o, n, s, m),
                    TransitionCount(init + [m]) % n, OccurrenceCount(init + [m]) % n)
  {
    assert (init + [m])[..|init|] == init;
    match m
    case TransitionMsg(ttype, entries) => {
      TransitionFollows(o, n, s, init, ttype, entries);
    }
    case OccurrenceMsg(occurrence) => {
      OccurrenceFollows(o, n, s, init, occurrence);
    }
    case DatagramMsg(_) => {
      FollowsSilently(o, s, StoreStep(o, n, s, m));
    }
  }

  /**
   * From fresh counters, the upstream calls made are always the first ones of
   * `Expected`. The collector still runs exactly when every call of `Expected`
   * returned, and then each counter is its kind's message count modulo n and
   * all of `Expected` has been called.
   */
  lemma {:induction false} BarrierExact(o: Oracle, n: int, msgs: seq<Message>)
    requires n >= 1
    ensures var r := StoreAll(o, n, CollectorState(0, 0, [], Running), msgs);
      && r.upstream <= Expected(n, msgs)
      && (r.status.Running? <==> AllReturn(o, 0, Expected(n, msgs)))
      && (r.status.Running? ==>
           && r.transitions == TransitionCount(msgs) % n
           && r.occurrences == OccurrenceCount(msgs) % n
           && r.upstream == Expected(n, msgs))
  {
    if msgs != [] {
      var init, m := msgs[..|msgs| - 1], msgs[|msgs| - 1];
      assert msgs == init + [m];
      BarrierExact(o, n, init);
      var s := StoreAll(o, n, CollectorState(0, 0, [], Running), init);
      var e, x := Expected(n, init), RoundCalls(n, init, m);
      assert Expected(n, msgs) == e + x;
      AllReturnAppend(o, 0, e, x);
      if s.status.Running? {
        BarrierStep(o, n, s, init, m);
        var r := StoreStep(o, n, s, m);
        assert (e + x)[..|r.upstream|] == r.upstream;
      } else {
        assert (e + x)[..|s.upstream|] == e[..|s.upstream|];
      }
    }
  }

  /** Without Transitions, every upstream call of the barrier is a `collect`. */
  lemma {:induction false} CollectsCountHeartbeatRounds(n: int, msgs: seq<Message>)
    requires n >= 1
    requires forall i :: 0 <= i < |msgs| ==> !msgs[i].TransitionMsg?
    ensures forall i :: 0 <= i < |Expected(n, msgs)| ==> Expected(n, msgs)[i] == StoreCollect
  {
    if msgs != [] {
      CollectsCountHeartbeatRounds(n, msgs[..|msgs| - 1]);
    }
  }

  /** k Heartbeats in a row. */
  function Heartbeats(k: nat): (ms: seq<Message>)
    ensures |ms| == k && forall i :: 0 <= i < k ==> ms[i] == OccurrenceMsg(Heartbeat)
  {
    seq(k, i => OccurrenceMsg(Heartbeat))
  }

  lemma DivSucc(a: nat, n: int)
    requires n >= 1
    ensures (a + 1) / n == a / n + if (a + 1) % n == 0 then 1 else 0
  {
    ModSucc(a, n);
    var q, r := a / n, a % n;
    assert a == q * n + r;
    if r + 1 == n {
      DivUnique(a + 1, n, q + 1, 0);
    } else {
      DivUnique(a + 1, n, q, r + 1);
    }
  }

  /** Over k Heartbeats, a collector of n workers calls `collect` once for every n of them. */
  lemma {:induction false} HeartbeatCollects(n: int, k: nat)
    requires n >= 1
    ensures OccurrenceCount(Heartbeats(k)) == k
    ensures |Expected(n, Heartbeats(k))| == k / n
  {
    if k > 0 {
      assert Heartbeats(k)[..k - 1] == Heartbeats(k - 1);
      HeartbeatCollects(n, k - 1);
      DivSucc(k - 1, n);
    }
  }

  // ---------------------------------------------------------------- the collector

  class Collector {
    const numWorkers: int
    const respond: Oracle
    var transitionCount: int
    var occurrenceCount: int
    /** The calls made on the upstream result store. */
    var upstream: seq<Call>

    function State(status: Status): CollectorState
      reads this
    {
      CollectorState(transitionCount, occurrenceCount, upstream, status)
    }

    constructor (numWorkers: int, respond: Oracle)
      ensures this.numWorkers == numWorkers && this.respond == respond
      ensures State(Running) == CollectorState(0, 0, [], Running)
    {
      this.numWorkers := numWorkers;
      this.respond := respond;
      transitionCount := 0;
      occurrenceCount := 0;
      upstream := [];
    }

    /** One call on the upstream store. */
    method Upstream(c: Call) returns (outcome: Outcome)
      modifies this`upstream
      ensures upstream == old(upstream) + [c]
      ensures outcome == respond(|old(upstream)|, c)
    {
      outcome := respond(|upstream|, c);
      upstream := upstream + [c];
    }

    /** `store_msg`; a status other than `Running` is the exception that ends the collector. */
    method StoreMsg(m: Message) returns (status: Status)
      modifies this
      ensures State(status) == StoreStep(respond, numWorkers, old(State(Running)), m)
    {
      status := Running;
      match m
      case TransitionMsg(ttype, entries) => {
        transitionCount := transitionCount + 1;
        if transitionCount == numWorkers {
          if ttype == Allocate {
            ghost var s0 := WorkerState(upstream, false, Running);
            ghost var cs := Creates(entries);
            var i := 0;
            while i < |entries|
              invariant 0 <= i <= |entries|
              invariant transitionCount == numWorkers && occurrenceCount == old(occurrenceCount)
              invariant WorkerState(upstream, false, Running) == PerformAll(respond, s0, cs[..i])
            {
              PerformAllSnoc(respond, s0, cs, i, WorkerState(upstream, false, Running));
              var outcome := Upstream(StoreCreate(entries[i].0, entries[i].1));
              if outcome.Raises? {
                status := Raised(outcome.error);
                PerformAllHalted(respond, s0, cs, i + 1);
                return;
              }
              i := i + 1;
            }
            assert cs[..i] == cs;
          }
          transitionCount := 0;
        }
      }
      case OccurrenceMsg(occurrence) => {
        occurrenceCount := occurrenceCount + 1;
        if occurrenceCount == numWorkers {
          if occurrence == Heartbeat {
            ghost var s0 := WorkerState(upstream, false, Running);
            assert [StoreCollect][..0] == [];
            assert PerformAll(respond, s0, [StoreCollect]) == Perform(respond, s0, StoreCollect);
            var outcome := Upstream(StoreCollect);
            if outcome.Raises? {
              status := Raised(outcome.error);
              return;
            }
          }
          occurrenceCount := 0;
        }
      }
      case DatagramMsg(_) => {
      }
    }
  }

  // ---------------------------------------------------------------- exit codes

  /** How loading the static source's JSON file ended. */
  datatype SourceLoad = Loaded | OpenFailed | DecodeFailed | MissingKey

  /** How a Python callable ended: its return value, `sys.exit(code)`, or an uncaught exception. */
  datatype PyExit = ReturnValue(value: int) | SysExit(code: int) | Uncaught

  /** The argument handed to `sys.exit` by `sys.exit(worker.run())`: None (0) or 1. */
  function RunExitCode(status: Status): int
    requires !status.Raised?
  {
    if status.ReturnedOne? then 1 else 0
  }

  /** `run_worker` as written: the JSON failures `return 1`. */
  function RunWorker(prot: string, load: SourceLoad, run: Status): (e: PyExit)
    ensures e.ReturnValue? <==> prot == "static" && (load.OpenFailed? || load.DecodeFailed?)
    ensures e.ReturnValue? ==> e.value == 1
    ensures e.SysExit? <==> prot == "static" && load.Loaded? && !run.Raised?
    ensures e.SysExit? ==> (e.code == 0 <==> run.Running?) && (e.code == 1 <==> run.ReturnedOne?)
  {
    if prot != "static" then Uncaught  // `src` is unbound at worker.py:110
    else if load.OpenFailed? || load.DecodeFailed? then ReturnValue(1)
    else if load.MissingKey? then Uncaught
    else if run.Raised? then Uncaught
    else SysExit(RunExitCode(run))
  }

  /** The exit code of a `multiprocessing.Process` whose target ended as e; a return value is discarded. */
  function ProcessExitCode(e: PyExit): (code: int)
    ensures e.SysExit? ==> code == e.code
    ensures !e.SysExit? ==> (code == 0 <==> e.ReturnValue?) && (code == 1 <==> e.Uncaught?)
  {
    match e
    case ReturnValue(_) => 0
    case SysExit(code) => code
    case Uncaught => 1
  }

  /** A worker whose `run` fell off the end of its stream, with no error. */
  predicate WorkerSucceeded(prot: string, load: SourceLoad, run: Status)
  {
    prot == "static" && load.Loaded? && run.Running?
  }

  /**
   * As written, a worker process whose configuration file cannot be opened or
   * parsed exits with status 0, the same as a worker that ran to completion.
   */
  lemma RunWorkerLosesConfigFailure(run: Status)
    ensures ProcessExitCode(RunWorker("static", OpenFailed, run)) == 0
    ensures ProcessExitCode(RunWorker("static", DecodeFailed, run)) == 0
    ensures !WorkerSucceeded("static", OpenFailed, run)
  {
  }

  /** `run_worker` with `sys.exit(1)` on the JSON failures. */
  function RunWorkerFixed(prot: string, load: SourceLoad, run: Status): (e: PyExit)
    ensures ProcessExitCode(e) == 0 <==> WorkerSucceeded(prot, load, run)
  {
    if prot != "static" then Uncaught
    else if load.OpenFailed? || load.DecodeFailed? then SysExit(1)
    else if load.MissingKey? then Uncaught
    else if run.Raised? then Uncaught
    else SysExit(RunExitCode(run))
  }

  function FirstLine(s: string): string
  {
    s[..IndexOf(s, '\n')]
  }

  /**
   * `re.match('(?P<prot>.*)://(?P<body>.*)', s).groups()`: `.` stops at a
   * newline, so the match lies on the first line; the greedy `prot` takes the
   * last `://` of that line.
   */
  function SourceMatch(s: string): Option<(string, string)>
  {
    var line := FirstLine(s);
    match LastOccurrence(line, "://")
    case None => None
    case Some(i) => Some((line[..i], line[i + 3..]))
  }

  /** The match exists exactly when the first line has a `://`; its groups rebuild that line. */
  lemma SourceMatchSplits(s: string)
    ensures SourceMatch(s).Some? <==> Occurs(FirstLine(s), "://")
    ensures SourceMatch(s).Some? ==>
      var (prot, body) := SourceMatch(s).value;
      && FirstLine(s) == prot + "://" + body
      && '\n' !in prot + body
      && !Occurs(body, "://")
  {
    var line := FirstLine(s);
    match LastOccurrence(line, "://")
    case None => {
    }
    case Some(i) => {
      assert OccursAt(line, "://", i);
      var prot, body := line[..i], line[i + 3..];
      assert line == prot + "://" + body;
      assert forall c :: c in prot + body ==> c in line;
      forall j: nat | j + 3 <= |body|
        ensures OccursAt(body, "://", j) == OccursAt(line, "://", i + 3 + j)
      {
        assert body[j..j + 3] == line[i + 3 + j..i + 3 + j + 3];
      }
    }
  }

  /**
   * `sys.exit(main())` with `--mpi`, on MPI rank `rank`: the exit status of the
   * process. Rank 0 runs the collector, which ends as `collector`; every other
   * rank calls `run_worker` inline, and `main` returns 0 once it returns. A
   * `sys.exit` inside propagates through `main`; a keyboard interrupt returns 0.
   */
  function MpiExitCode(source: string, rank: nat, load: SourceLoad, run: Status, collector: PyExit, interrupted: bool): (code: int)
    ensures interrupted ==> code == 0
    ensures !interrupted && SourceMatch(source).None? ==> code == 1
    ensures !interrupted && SourceMatch(source).Some? && rank == 0 ==> code == ProcessExitCode(collector)
    ensures !interrupted && SourceMatch(source).Some? && rank > 0 ==>
      code == ProcessExitCode(RunWorker(SourceMatch(source).value.0, load, run))
  {
    if interrupted then 0
    else match SourceMatch(source)
      case None => 1
      case Some((prot, _)) =>
        match if rank == 0 then collector else RunWorker(prot, load, run)
        case ReturnValue(_) => 0
        case SysExit(code) => code
        case Uncaught => 1
  }

  /**
   * On a worker rank the MPI process ends as a worker process of the local
   * mode does: `main` drops the value `run_worker` returns, as
   * `multiprocessing.Process` drops its target's.
   */
  lemma MpiWorkerIsProcess(source: string, rank: nat, load: SourceLoad, run: Status, collector: PyExit)
    requires rank > 0 && SourceMatch(source).Some?
    ensures MpiExitCode(source, rank, load, run, collector, false)
      == ProcessExitCode(RunWorker(SourceMatch(source).value.0, load, run))
  {
  }

  /** So an MPI worker whose configuration file cannot be opened or parsed exits with 0 as well. */
  lemma MpiWorkerLosesConfigFailure(source: string, rank: nat, run: Status, collector: PyExit)
    requires rank > 0 && SourceMatch(source).Some? && SourceMatch(source).value.0 == "static"
    ensures MpiExitCode(source, rank, OpenFailed, run, collector, false) == 0
    ensures MpiExitCode(source, rank, DecodeFailed, run, collector, false) == 0
    ensures !WorkerSucceeded("static", OpenFailed, run) && !WorkerSucceeded("static", DecodeFailed, run)
  {
    MpiWorkerIsProcess(source, rank, OpenFailed, run, collector);
    MpiWorkerIsProcess(source, rank, DecodeFailed, run, collector);
  }

  /** The `num_workers` rank 0 gives its collector with `--mpi`: the whole `COMM_WORLD` size. */
  function MpiCollectorWorkers(size: nat): nat
  {
    size
  }

  /**
   * Only ranks 1 to size - 1 are workers, so over r rounds in which each of them
   * sends one Heartbeat, the MPI collector calls `collect` fewer than r times,
   * and not at all by the end of the first round.
   */
  lemma MpiCollectorMissesRounds(size: nat, r: nat)
    requires size >= 2 && r >= 1
    ensures |Expected(MpiCollectorWorkers(size), Heartbeats(r * (size - 1)))| < r
    ensures |Expected(MpiCollectorWorkers(size), Heartbeats(size - 1))| == 0
  {
    HeartbeatCollects(size, r * (size - 1));
    HeartbeatCollects(size, size - 1);
    assert r * (size - 1) == r * size - r;
    QuotientBelow(r * (size - 1), size, r);
    DivUnique(size - 1, size, 0, size - 1);
  }

  lemma QuotientBelow(a: nat, n: int, r: nat)
    requires n >= 1 && a < r * n
    ensures a / n < r
  {
    var q := a / n;
    assert q * n <= a;
  }

  /** With `num_workers` the number of worker ranks, size - 1, each such round calls `collect` once. */
  lemma MpiCollectorFixed(size: nat, r: nat)
    requires size >= 2
    ensures |Expected(size - 1, Heartbeats(r * (size - 1)))| == r
  {
    HeartbeatCollects(size - 1, r * (size - 1));
    DivUnique(r * (size - 1), size - 1, r, 0);
  }

  /** Whether some process exited with a non-zero status: the join loop of `main`. */
  method JoinAll(exitCodes: seq<int>) returns (failedWorker: bool)
    ensures failedWorker <==> exists i :: 0 <= i < |exitCodes| && exitCodes[i] != 0
  {
    failedWorker := false;
    var i := 0;
    while i < |exitCodes|
      invariant 0 <= i <= |exitCodes|
      invariant failedWorker <==> exists j :: 0 <= j < i && exitCodes[j] != 0
    {
      if exitCodes[i] != 0 {
        failedWorker := true;
      }
      i := i + 1;
    }
  }

  /**
   * `main` without MPI, given how each worker process and the collector process
   * ended: 1 for a source string that does not match, 1 when a process exited
   * non-zero, else 0; a keyboard interrupt returns 0.
   */
  method MainLocal(source: string, workers: seq<PyExit>, collector: PyExit, interrupted: bool) returns (ret: int)
    ensures ret == 1 <==>
      && !interrupted
      && (|| SourceMatch(source).None?
          || ProcessExitCode(collector) != 0
          || exists i :: 0 <= i < |workers| && ProcessExitCode(workers[i]) != 0)
    ensures ret == 0 || ret == 1
  {
    if interrupted {
      return 0;
    }
    if SourceMatch(source).None? {
      return 1;
    }
    var codes := seq(|workers|, i requires 0 <= i < |workers| => ProcessExitCode(workers[i])) + [ProcessExitCode(collector)];
    var failed := JoinAll(codes);
    assert codes[|workers|] == ProcessExitCode(collector);
    assert forall i :: 0 <= i < |workers| ==> codes[i] == ProcessExitCode(workers[i]);
    ret := if failed then 1 else 0;
  }
}
