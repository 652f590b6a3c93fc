/**
 The transformer pipeline of one destination: a chain of gRPC transform clients, one goroutine
 per client moving records to the next one, and a callback behind the last.

 The goroutines are modelled as the steps of a state machine, so a statement about every
 reachable state is a statement about every interleaving.
 */
module TransformerPipeline {
  import opened Basics

  /** A transformer turns each record into one record; what it computes is not interpreted. */
  type Transform = Bytes -> Bytes

  /** What the receive goroutine of a stage has taken from its client and not yet handed over. */
  datatype Hand = Empty | Holding(record: Bytes) | AtEof

  /** Whether startBlocking still loops, or returned nil, or returned an error. */
  datatype Status = Running | Returned | Failed

  /**
   A stage and its client. The client is a FIFO queue: `sends` is everything ever sent to it,
   `taken` how much of that came back out, `closes` how often CloseSend was called on it.
   */
  datatype Stage = Stage(sends: seq<Bytes>, taken: nat, closes: nat, hand: Hand, isClosed: bool, status: Status)

  /** `pending` holds the Send calls past their isClosed check whose client.Send has not happened yet. */
  datatype State = State(stages: seq<Stage>, pending: seq<Bytes>, output: seq<Bytes>)

  datatype Step =
    | SendCheck(record: Bytes)
    | SendCommit(k: nat)
    | Close
    | Recv(i: nat)
    | Forward(i: nat)
    | ForwardFails(i: nat)
    | EofExit(i: nat, closeOk: bool)
    | TimeoutExit(i: nat, closeOk: bool)
    | StageFails(i: nat)

  const IDENTITY: Transform := x => x

  const NEW_STAGE := Stage([], 0, 0, Empty, false, Running)

  /** The chain is never empty: without transformers a single identity client is used. */
  function Wired(transforms: seq<Transform>): (fs: seq<Transform>) {
    if transforms == [] then [IDENTITY] else transforms
  }

  function Init(fs: seq<Transform>): State {
    State(seq(|fs|, _ => NEW_STAGE), [], [])
  }

  predicate Enabled(s: State, step: Step) {
    0 < |s.stages| &&
    match step
    case SendCheck(_) => !s.stages[0].isClosed
    case SendCommit(k) => k < |s.pending|
    case Close => true
    case Recv(i) =>
      i < |s.stages| && s.stages[i].hand == Empty && (s.stages[i].taken < |s.stages[i].sends| || s.stages[i].closes > 0)
    case Forward(i) => i < |s.stages| && s.stages[i].status == Running && s.stages[i].hand.Holding?
    case ForwardFails(i) => i < |s.stages| && s.stages[i].status == Running && s.stages[i].hand.Holding?
    case EofExit(i, ok) =>
      i < |s.stages| && s.stages[i].status == Running && s.stages[i].hand == AtEof && (i + 1 == |s.stages| ==> ok)
    case TimeoutExit(i, ok) =>
      i < |s.stages| && s.stages[i].status == Running && s.stages[i].isClosed && (i + 1 == |s.stages| ==> ok)
    case StageFails(i) => i < |s.stages| && s.stages[i].status == Running
  }

  /** The client's answer to Recv: the next record transformed, or EOF once it is closed and drained. */
  function Received(f: Transform, g: Stage): Stage {
    if g.taken < |g.sends| then g.(taken := g.taken + 1, hand := Holding(f(g.sends[g.taken])))
    else g.(hand := AtEof)
  }

  /** nextSendFn of stage i: send to the next client, or hand the record to the output callback. */
  function Deliver(s: State, i: nat, record: Bytes): State
    requires i < |s.stages|
  {
    if i + 1 < |s.stages| then
      var next := s.stages[i + 1];
      s.(stages := s.stages[i + 1 := next.(sends := next.sends + [record])])
    else s.(output := s.output + [record])
  }

  /** `return s.nextClose()`: close the next client, if there is one, and stop. */
  function Exit(s: State, i: nat, closeOk: bool): State
    requires i < |s.stages|
  {
    var left := s.stages[i := s.stages[i].(status := if closeOk then Returned else Failed)];
    if i + 1 < |left| then s.(stages := left[i + 1 := left[i + 1].(closes := left[i + 1].closes + 1)])
    else s.(stages := left)
  }

  function CloseFlag(s: State): State
    requires 0 < |s.stages|
  {
    s.(stages := s.stages[0 := s.stages[0].(isClosed := true)])
  }

  function Apply(fs: seq<Transform>, s: State, step: Step): State
    requires Enabled(s, step) && |fs| == |s.stages|
  {
    match step
    case SendCheck(r) => s.(pending := s.pending + [r])
    case SendCommit(k) =>
      s.(pending := s.pending[..k] + s.pending[k + 1..],
         stages := s.stages[0 := s.stages[0].(sends := s.stages[0].sends + [s.pending[k]])])
    case Close => CloseFlag(s)
    case Recv(i) => s.(stages := s.stages[i := Received(fs[i], s.stages[i])])
    case Forward(i) =>
      Deliver(s.(stages := s.stages[i := s.stages[i].(hand := Empty)]), i, s.stages[i].hand.record)
    case ForwardFails(i) =>
      var failed := s.(stages := s.stages[i := s.stages[i].(status := Failed)]);
      if i + 1 == |s.stages| then CloseFlag(failed) else failed
    case EofExit(i, ok) => Exit(s, i, ok)
    case TimeoutExit(i, ok) => Exit(s, i, ok)
    case StageFails(i) => s.(stages := s.stages[i := s.stages[i].(status := Failed)])
  }

  /** A run: every state follows from the one before by the step between them. */
  ghost predicate IsRun(fs: seq<Transform>, states: seq<State>, steps: seq<Step>) {
    && |states| == |steps| + 1
    && states[0] == Init(fs)
    && forall k :: 0 <= k < |steps| ==>
         Enabled(states[k], steps[k]) && |states[k].stages| == |fs| && states[k + 1] == Apply(fs, states[k], steps[k])
  }

  // ---------------------------------------------------------------- specification

  /** The records mapped through all transformers, in order. */
  function Through(fs: seq<Transform>, xs: seq<Bytes>): (ys: seq<Bytes>)
    ensures |ys| == |xs|
  {
    if fs == [] then xs else Through(fs[1..], MapSeq(fs[0], xs))
  }

  /** What the record is when it reaches stage i. */
  function Along(fs: seq<Transform>, record: Bytes, i: nat): Bytes
    requires i <= |fs|
  {
    if i == 0 then record else fs[i - 1](Along(fs, record, i - 1))
  }

  /** How many of the records sent to this stage have been passed on by it. */
  function Forwarded(g: Stage): nat {
    if g.hand.Holding? && g.taken > 0 then g.taken - 1 else g.taken
  }

  /** The guard a lossless timeout of stage 0 would need: nothing queued, nothing in hand, no Send under way. */
  predicate Drained(s: State) {
    0 < |s.stages| && Forwarded(s.stages[0]) == |s.stages[0].sends|
  }

  predicate AllReturned(s: State) {
    forall i :: 0 <= i < |s.stages| ==> s.stages[i].status == Returned
  }

  ghost predicate StageInv(f: Transform, g: Stage) {
    && g.taken <= |g.sends|
    && g.closes <= 1
    && (g.hand.Holding? ==> g.taken > 0 && g.hand.record == f(g.sends[g.taken - 1]))
    && (g.hand.AtEof? ==> g.taken == |g.sends| && g.closes == 1)
    && (g.status == Returned ==> g.isClosed || g.hand.AtEof?)
  }

  /** What stage i passed on is what the next one was sent, and the next one is closed only by i's exit. */
  ghost predicate LinkInv(f: Transform, g: Stage, next: Stage) {
    && g.taken <= |g.sends|
    && next.sends == MapSeq(f, g.sends[..Forwarded(g)])
    && (next.closes > 0 ==> g.status != Running && (g.isClosed || g.hand.AtEof?))
    && (g.status == Returned ==> next.closes == 1)
    && !next.isClosed
  }

  ghost predicate StageOk(fs: seq<Transform>, s: State, i: nat) {
    i < |fs| == |s.stages| && StageInv(fs[i], s.stages[i])
  }

  ghost predicate LinkOk(fs: seq<Transform>, s: State, i: nat) {
    i + 1 < |fs| == |s.stages| && LinkInv(fs[i], s.stages[i], s.stages[i + 1])
  }

  ghost predicate OutputOk(f: Transform, last: Stage, output: seq<Bytes>) {
    last.taken <= |last.sends| && output == MapSeq(f, last.sends[..Forwarded(last)])
  }

  ghost predicate Inv(fs: seq<Transform>, s: State) {
    && 0 < |fs| == |s.stages|
    && s.stages[0].closes == 0
    && (forall i: nat :: i < |fs| ==> StageOk(fs, s, i))
    && (forall i: nat :: i + 1 < |fs| ==> LinkOk(fs, s, i))
    && OutputOk(fs[|fs| - 1], s.stages[|fs| - 1], s.output)
  }

  lemma InitInv(fs: seq<Transform>)
    requires fs != []
    ensures Inv(fs, Init(fs))
  {
  }

  lemma MapSnoc<A, B>(f: A -> B, xs: seq<A>, k: nat)
    requires k < |xs|
    ensures MapSeq(f, xs[..k + 1]) == MapSeq(f, xs[..k]) + [f(xs[k])]
  {
  }

  /** What a step may do to one stage: keep what it was sent and passed on, and not restart or reopen it. */
  ghost predicate Keeps(g: Stage, g': Stage) {
    && g'.sends == g.sends
    && Forwarded(g') == Forwarded(g)
    && g'.taken <= |g'.sends|
    && g'.closes == g.closes
    && (g.isClosed ==> g'.isClosed)
    && (g.hand.AtEof? ==> g'.hand.AtEof?)
    && (g.status != Running ==> g'.status == g.status)
    && (g'.status == Returned ==> g.status == Returned)
  }

  /** A step inside one stage keeps the invariant when it keeps that stage's own part of it. */
  lemma LocalStepInv(fs: seq<Transform>, s: State, i: nat, g': Stage)
    requires Inv(fs, s) && i < |fs| && Keeps(s.stages[i], g') && StageInv(fs[i], g')
    requires i > 0 ==> g'.isClosed == s.stages[i].isClosed
    ensures Inv(fs, s.(stages := s.stages[i := g']))
  {
    var s' := s.(stages := s.stages[i := g']);
    forall j: nat | j < |fs| ensures StageOk(fs, s', j) {
      assert StageOk(fs, s, j);
    }
    forall j: nat | j + 1 < |fs| ensures LinkOk(fs, s', j) {
      assert LinkOk(fs, s, j);
    }
  }

  lemma SendCommitInv(fs: seq<Transform>, s: State, k: nat)
    requires Inv(fs, s) && k < |s.pending|
    ensures Inv(fs, Apply(fs, s, SendCommit(k)))
  {
    var s' := Apply(fs, s, SendCommit(k));
    assert StageOk(fs, s, 0);
    SentOneMore(fs[0], s.stages[0], s.pending[k]);
    forall j: nat | j < |fs| ensures StageOk(fs, s', j) {
      assert StageOk(fs, s, j);
    }
    forall j: nat | j + 1 < |fs| ensures LinkOk(fs, s', j) {
      assert LinkOk(fs, s, j);
    }
  }

  /** Sending to an open client changes nothing it has already passed on. */
  lemma SentOneMore(f: Transform, g: Stage, record: Bytes)
    requires StageInv(f, g) && g.closes == 0
    ensures var g' := g.(sends := g.sends + [record]);
      StageInv(f, g') && g'.sends[..Forwarded(g')] == g.sends[..Forwarded(g)]
  {
  }

  /** A step that moves only stages i and i + 1 keeps the invariant when it keeps the parts that mention them. */
  lemma PairStepInv(fs: seq<Transform>, s: State, s': State, i: nat)
    requires Inv(fs, s) && i < |fs| == |s'.stages|
    requires s'.stages[0].closes == 0
    requires forall j: nat :: j < |fs| && j != i && j != i + 1 ==> s'.stages[j] == s.stages[j]
    requires StageOk(fs, s', i) && (i + 1 < |fs| ==> StageOk(fs, s', i + 1))
    requires i > 0 ==> LinkOk(fs, s', i - 1)
    requires i + 1 < |fs| ==> LinkOk(fs, s', i)
    requires i + 2 < |fs| ==> LinkOk(fs, s', i + 1)
    requires OutputOk(fs[|fs| - 1], s'.stages[|fs| - 1], s'.output)
    ensures Inv(fs, s')
  {
    forall j: nat | j < |fs| ensures StageOk(fs, s', j) {
      assert StageOk(fs, s, j);
    }
    forall j: nat | j + 1 < |fs| ensures LinkOk(fs, s', j) {
      assert LinkOk(fs, s, j);
    }
  }

  lemma ForwardInv(fs: seq<Transform>, s: State, i: nat)
    requires Inv(fs, s) && Enabled(s, Forward(i))
    ensures Inv(fs, Apply(fs, s, Forward(i)))
  {
    var g, s' := s.stages[i], Apply(fs, s, Forward(i));
    assert StageOk(fs, s, i);
    assert i > 0 ==> LinkOk(fs, s, i - 1);
    MapSnoc(fs[i], g.sends, Forwarded(g));
    if i + 1 < |fs| {
      assert LinkOk(fs, s, i) && StageOk(fs, s, i + 1);
      SentOneMore(fs[i + 1], s.stages[i + 1], g.hand.record);
      assert i + 2 < |fs| ==> LinkOk(fs, s, i + 1);
    }
    PairStepInv(fs, s, s', i);
  }

  lemma ExitInv(fs: seq<Transform>, s: State, i: nat, ok: bool)
    requires Inv(fs, s) && i < |fs| && s.stages[i].status == Running
    requires s.stages[i].isClosed || s.stages[i].hand == AtEof
    ensures Inv(fs, Exit(s, i, ok))
  {
    var s' := Exit(s, i, ok);
    assert StageOk(fs, s, i) && StageOk(fs, s', i);
    if i > 0 {
      assert LinkOk(fs, s, i - 1) && LinkOk(fs, s', i - 1);
    }
    if i + 1 < |fs| {
      assert LinkOk(fs, s, i) && StageOk(fs, s, i + 1);
      assert LinkOk(fs, s', i) && StageOk(fs, s', i + 1);
      if i + 2 < |fs| {
        assert LinkOk(fs, s, i + 1) && LinkOk(fs, s', i + 1);
      }
    }
    PairStepInv(fs, s, s', i);
  }

  /** Every step of every goroutine keeps the invariant. */
  lemma StepInv(fs: seq<Transform>, s: State, step: Step)
    requires Inv(fs, s) && Enabled(s, step)
    ensures Inv(fs, Apply(fs, s, step))
  {
    match step
    case SendCheck(_) => PendingInv(fs, s, Apply(fs, s, step).pending);
    case SendCommit(k) => SendCommitInv(fs, s, k);
    case Close => CloseInv(fs, s);
    case Recv(i) => RecvInv(fs, s, i);
    case Forward(i) => ForwardInv(fs, s, i);
    case ForwardFails(i) =>
      FailInv(fs, s, i);
      CloseInv(fs, s.(stages := s.stages[i := s.stages[i].(status := Failed)]));
    case EofExit(i, ok) => ExitInv(fs, s, i, ok);
    case TimeoutExit(i, ok) => ExitInv(fs, s, i, ok);
    case StageFails(i) => FailInv(fs, s, i);
  }

  lemma PendingInv(fs: seq<Transform>, s: State, pending: seq<Bytes>)
    requires Inv(fs, s)
    ensures Inv(fs, s.(pending := pending))
  {
    var s' := s.(pending := pending);
    forall j: nat | j < |fs| ensures StageOk(fs, s', j) {
      assert StageOk(fs, s, j);
    }
    forall j: nat | j + 1 < |fs| ensures LinkOk(fs, s', j) {
      assert LinkOk(fs, s, j);
    }
  }

  lemma CloseInv(fs: seq<Transform>, s: State)
    requires Inv(fs, s)
    ensures Inv(fs, CloseFlag(s))
  {
    assert StageOk(fs, s, 0);
    LocalStepInv(fs, s, 0, s.stages[0].(isClosed := true));
  }

  lemma RecvInv(fs: seq<Transform>, s: State, i: nat)
    requires Inv(fs, s) && Enabled(s, Recv(i))
    ensures Inv(fs, Apply(fs, s, Recv(i)))
  {
    assert StageOk(fs, s, i);
    LocalStepInv(fs, s, i, Received(fs[i], s.stages[i]));
  }

  lemma FailInv(fs: seq<Transform>, s: State, i: nat)
    requires Inv(fs, s) && i < |fs| && s.stages[i].status == Running
    ensures Inv(fs, s.(stages := s.stages[i := s.stages[i].(status := Failed)]))
  {
    assert StageOk(fs, s, i);
    LocalStepInv(fs, s, i, s.stages[i].(status := Failed));
  }

  /** The invariant holds in every state of every run. */
  lemma {:induction false} RunInv(fs: seq<Transform>, states: seq<State>, steps: seq<Step>, k: nat)
    requires fs != [] && IsRun(fs, states, steps) && k < |states|
    ensures Inv(fs, states[k])
  {
    if k == 0 {
      InitInv(fs);
    } else {
      RunInv(fs, states, steps, k - 1);
      StepInv(fs, states[k - 1], steps[k - 1]);
    }
  }

  // ---------------------------------------------------------------- safety

  lemma {:induction false} ThroughPrefix(fs: seq<Transform>, xs: seq<Bytes>, k: nat)
    requires k <= |xs|
    ensures Through(fs, xs[..k]) == Through(fs, xs)[..k]
  {
    if fs != [] {
      assert MapSeq(fs[0], xs[..k]) == MapSeq(fs[0], xs)[..k];
      ThroughPrefix(fs[1..], MapSeq(fs[0], xs), k);
    }
  }

  /** The chain treats every record on its own. */
  lemma {:induction false} ThroughAt(fs: seq<Transform>, xs: seq<Bytes>, q: nat)
    requires q < |xs|
    ensures Through(fs, xs)[q] == Through(fs, [xs[q]])[0]
  {
    if fs != [] {
      ThroughAt(fs[1..], MapSeq(fs[0], xs), q);
      assert MapSeq(fs[0], [xs[q]]) == [MapSeq(fs[0], xs)[q]];
    }
  }

  /** From stage i on: the output is what the rest of the chain makes of the first |output| records sent to i. */
  lemma {:induction false} OutputFrom(fs: seq<Transform>, s: State, i: nat)
    requires Inv(fs, s) && i < |fs|
    ensures |s.output| <= |s.stages[i].sends|
    ensures s.output == Through(fs[i..], s.stages[i].sends[..|s.output|])
    decreases |fs| - i
  {
    assert StageOk(fs, s, i);
    var g := s.stages[i];
    var w := Forwarded(g);
    var n := |s.output|;
    assert fs[i..][0] == fs[i] && fs[i..][1..] == fs[i + 1..];
    if i + 1 == |fs| {
      assert MapSeq(fs[i], g.sends[..w]) == Through(fs[i..], g.sends[..w]);
    } else {
      assert LinkOk(fs, s, i);
      OutputFrom(fs, s, i + 1);
      assert s.stages[i + 1].sends[..n] == MapSeq(fs[i], g.sends[..n]);
    }
  }

  /** No loss in the middle, no duplicate, no reordering, nothing invented: the output is a prefix. */
  lemma DeliveredIsPrefix(fs: seq<Transform>, states: seq<State>, steps: seq<Step>, k: nat)
    requires fs != [] && IsRun(fs, states, steps) && k < |states|
    ensures states[k].stages != []
    ensures states[k].output <= Through(fs, states[k].stages[0].sends)
  {
    var s := states[k];
    RunInv(fs, states, steps, k);
    OutputFrom(fs, s, 0);
    assert fs[0..] == fs;
    ThroughPrefix(fs, s.stages[0].sends, |s.output|);
  }

  /**
   What New wires: the given clients, first to last, and every record sent goes through exactly these in this order;
   without clients, one stage that changes nothing.
   */
  lemma WiredIsTheClients(clients: seq<Transform>, record: Bytes)
    ensures if clients == [] then |Wired(clients)| == 1 && Wired(clients)[0](record) == record
            else |Wired(clients)| == |clients| && forall i :: 0 <= i < |clients| ==> Wired(clients)[i] == clients[i]
    ensures Through(Wired(clients), [record])[0] == Along(clients, record, |clients|)
  {
    var fs := Wired(clients);
    AlongIsThrough(fs, record, |fs|);
    assert fs[..|fs|] == fs;
    assert clients == [] ==> Along(fs, record, 1) == fs[0](Along(fs, record, 0));
  }

  /** Without transformers the wired chain changes nothing. */
  lemma EmptyChainIsIdentity(xs: seq<Bytes>)
    ensures Through(Wired([]), xs) == xs
  {
    assert MapSeq(IDENTITY, xs) == xs;
  }

  // ---------------------------------------------------------------- shutdown

  /** CloseSend reaches a client at most once, and no Send ever follows it. The first client is never closed. */
  lemma CloseSendIsLast(fs: seq<Transform>, states: seq<State>, steps: seq<Step>, k: nat)
    requires fs != [] && IsRun(fs, states, steps) && k < |steps|
    ensures states[k].stages[0].closes == 0
    ensures forall i: nat :: i < |fs| ==> states[k].stages[i].closes <= 1
    ensures forall i: nat :: steps[k] == Forward(i) && i + 1 < |fs| ==> states[k].stages[i + 1].closes == 0
    ensures forall i: nat, ok :: i + 1 < |fs| && (steps[k] == EofExit(i, ok) || steps[k] == TimeoutExit(i, ok)) ==>
              states[k].stages[i + 1].closes == 0
    ensures forall i: nat, ok :: steps[k] == TimeoutExit(i, ok) ==> i == 0
  {
    var s := states[k];
    RunInv(fs, states, steps, k);
    forall i: nat | i < |fs| ensures s.stages[i].closes <= 1 && (i > 0 ==> !s.stages[i].isClosed) {
      assert StageOk(fs, s, i);
      assert i > 0 ==> LinkOk(fs, s, i - 1);
    }
    forall i: nat | i + 1 < |fs| && s.stages[i].status == Running ensures s.stages[i + 1].closes == 0 {
      assert LinkOk(fs, s, i);
    }
  }

  /** Beyond stage 0, a client is closed only after the stage before it forwarded all that its own client produced. */
  lemma ClosedAfterAllForwarded(fs: seq<Transform>, states: seq<State>, steps: seq<Step>, k: nat, i: nat)
    requires fs != [] && IsRun(fs, states, steps) && k < |states| && 2 <= i < |fs|
    requires i < |states[k].stages| && states[k].stages[i].closes > 0
    ensures states[k].stages[i - 1].closes == 1
    ensures Forwarded(states[k].stages[i - 1]) == |states[k].stages[i - 1].sends|
    ensures states[k].stages[i].sends == MapSeq(fs[i - 1], states[k].stages[i - 1].sends)
  {
    RunInv(fs, states, steps, k);
    assert LinkOk(fs, states[k], i - 1) && LinkOk(fs, states[k], i - 2) && StageOk(fs, states[k], i - 1);
    var g := states[k].stages[i - 1];
    assert g.sends[..Forwarded(g)] == g.sends;
  }

  /** Once every stage returned nil, the output has as many records as stage 0 passed on. */
  lemma {:induction false} ReturnedLengths(fs: seq<Transform>, s: State, i: nat)
    requires Inv(fs, s) && AllReturned(s) && i < |fs|
    ensures |s.output| == Forwarded(s.stages[i])
    decreases |fs| - i
  {
    assert StageOk(fs, s, i);
    if i + 1 < |fs| {
      assert LinkOk(fs, s, i) && StageOk(fs, s, i + 1);
      ReturnedLengths(fs, s, i + 1);
    }
  }

  /** When all stages returned nil, everything sent was delivered if and only if stage 0 had passed it all on. */
  lemma CompleteIffDrained(fs: seq<Transform>, s: State)
    requires Inv(fs, s) && AllReturned(s)
    ensures s.output == Through(fs, s.stages[0].sends) <==> Drained(s)
  {
    ReturnedLengths(fs, s, 0);
    OutputFrom(fs, s, 0);
    assert fs[0..] == fs && StageOk(fs, s, 0);
    if Drained(s) {
      assert s.stages[0].sends[..|s.output|] == s.stages[0].sends;
    }
  }

  /** Nothing is on its way from stage i on: every stage has passed on all it was sent. */
  predicate PassedOn(s: State, i: nat) {
    forall j :: i <= j < |s.stages| ==> Forwarded(s.stages[j]) == |s.stages[j].sends|
  }

  /** What was sent to stage i has all come out if and only if nothing is on its way from there. */
  lemma {:induction false} AllOutIffPassedOn(fs: seq<Transform>, s: State, i: nat)
    requires Inv(fs, s) && i < |fs|
    ensures |s.output| <= Forwarded(s.stages[i]) <= |s.stages[i].sends|
    ensures |s.output| == |s.stages[i].sends| <==> PassedOn(s, i)
    decreases |fs| - i
  {
    assert StageOk(fs, s, i);
    assert PassedOn(s, i) <==> Forwarded(s.stages[i]) == |s.stages[i].sends| && PassedOn(s, i + 1);
    if i + 1 < |fs| {
      assert LinkOk(fs, s, i);
      AllOutIffPassedOn(fs, s, i + 1);
    }
  }

  /** After stage 0 left its loop, only a late Send call still reaches its client, and nothing leaves it. */
  lemma AfterExitStep(fs: seq<Transform>, s: State, step: Step)
    requires 0 < |fs| == |s.stages| && Enabled(s, step) && s.stages[0].status != Running
    ensures var g, g' := s.stages[0], Apply(fs, s, step).stages[0];
      && g'.status != Running
      && (StageInv(fs[0], g) ==> Forwarded(g') == Forwarded(g))
      && |g'.sends| == |g.sends| + if step.SendCommit? then 1 else 0
  {
  }

  /** No Send call got through to the client between these steps. */
  ghost predicate NoCommits(steps: seq<Step>, j: nat, k: nat)
    requires k <= |steps|
  {
    forall t :: j <= t < k ==> !steps[t].SendCommit?
  }

  /** What step k of a run starts from and leads to. */
  lemma RunStep(fs: seq<Transform>, states: seq<State>, steps: seq<Step>, k: nat)
    requires fs != [] && IsRun(fs, states, steps) && k < |steps|
    ensures |states[k].stages| == |fs| && StageInv(fs[0], states[k].stages[0]) && states[k].stages[0].closes == 0
    ensures Enabled(states[k], steps[k]) && states[k + 1] == Apply(fs, states[k], steps[k])
    ensures |states[k + 1].stages| == |fs|
  {
    RunInv(fs, states, steps, k);
    assert StageOk(fs, states[k], 0);
    RunInv(fs, states, steps, k + 1);
  }

  /** The same for step k of a run. */
  lemma AfterExitAt(fs: seq<Transform>, states: seq<State>, steps: seq<Step>, k: nat)
    requires fs != [] && IsRun(fs, states, steps) && k < |steps|
    requires |states[k].stages| == |fs| && states[k].stages[0].status != Running
    ensures |states[k + 1].stages| == |fs| && states[k + 1].stages[0].status != Running
    ensures Forwarded(states[k + 1].stages[0]) == Forwarded(states[k].stages[0])
    ensures |states[k + 1].stages[0].sends| == |states[k].stages[0].sends| + if steps[k].SendCommit? then 1 else 0
  {
    RunStep(fs, states, steps, k);
    AfterExitStep(fs, states[k], steps[k]);
  }

  lemma NoCommitsMore(steps: seq<Step>, j: nat, k: nat)
    requires j <= k < |steps|
    ensures NoCommits(steps, j, k + 1) <==> NoCommits(steps, j, k) && !steps[k].SendCommit?
  {
  }

  lemma {:induction false} AfterExit(fs: seq<Transform>, states: seq<State>, steps: seq<Step>, j: nat, k: nat)
    requires fs != [] && IsRun(fs, states, steps) && j <= k < |states|
    requires |states[j].stages| == |fs| && states[j].stages[0].status != Running
    ensures |states[k].stages| == |fs| && states[k].stages[0].status != Running
    ensures Forwarded(states[k].stages[0]) == Forwarded(states[j].stages[0])
    ensures |states[j].stages[0].sends| <= |states[k].stages[0].sends|
    ensures |states[j].stages[0].sends| == |states[k].stages[0].sends| <==> NoCommits(steps, j, k)
  {
    if j < k {
      AfterExit(fs, states, steps, j, k - 1);
      AfterExitAt(fs, states, steps, k - 1);
      NoCommitsMore(steps, j, k - 1);
    }
  }

  /** Stage 0 can only have returned through its one-second timeout: nobody closes its client. */
  lemma {:induction false} Stage0TimedOut(fs: seq<Transform>, states: seq<State>, steps: seq<Step>, k: nat)
    returns (j: nat)
    requires fs != [] && IsRun(fs, states, steps) && k < |states|
    requires states[k].stages != [] && states[k].stages[0].status == Returned
    ensures j < k && steps[j] == TimeoutExit(0, true)
  {
    RunStep(fs, states, steps, k - 1);
    if states[k - 1].stages[0].status == Returned {
      j := Stage0TimedOut(fs, states, steps, k - 1);
    } else {
      j := k - 1;
    }
  }

  /**
   In a run that ends with every stage returning nil, every record sent was delivered exactly when
   stage 0 timed out on a drained client and no Send was still under way.
   */
  lemma CompleteIffTimeoutDrained(fs: seq<Transform>, states: seq<State>, steps: seq<Step>, k: nat) returns (j: nat)
    requires fs != [] && IsRun(fs, states, steps) && k < |states| && AllReturned(states[k])
    ensures |states[k].stages| == |fs|
    ensures j < k && steps[j] == TimeoutExit(0, true)
    ensures states[k].output == Through(fs, states[k].stages[0].sends) <==>
            Drained(states[j]) && NoCommits(steps, j + 1, k)
  {
    RunInv(fs, states, steps, k);
    j := Stage0TimedOut(fs, states, steps, k);
    RunStep(fs, states, steps, j);
    AfterExit(fs, states, steps, j + 1, k);
    CompleteIffDrained(fs, states[k]);
  }

  /**
   A closed pipeline is never stuck: until every stage has returned, or one has failed, some stage can take a step
   forward.
   */
  lemma ClosedCanMove(fs: seq<Transform>, s: State) returns (step: Step)
    requires Inv(fs, s) && s.stages[0].isClosed && !AllReturned(s)
    requires forall i :: 0 <= i < |s.stages| ==> s.stages[i].status != Failed
    ensures Enabled(s, step)
    ensures step == TimeoutExit(0, true) || step.Recv? || step.Forward? || (step.EofExit? && step.closeOk)
  {
    var i := FirstRunning(s, 0);
    assert StageOk(fs, s, i);
    if i == 0 {
      step := TimeoutExit(0, true);
    } else {
      assert LinkOk(fs, s, i - 1);
      match s.stages[i].hand
      case Empty => step := Recv(i);
      case Holding(_) => step := Forward(i);
      case AtEof => step := EofExit(i, true);
    }
  }

  /** The first stage from i on that has not returned, when those before have. */
  lemma {:induction false} FirstRunning(s: State, i: nat) returns (j: nat)
    requires !AllReturned(s) && i <= |s.stages| && forall k :: 0 <= k < i ==> s.stages[k].status == Returned
    ensures j < |s.stages| && s.stages[j].status != Returned
    ensures forall k :: 0 <= k < j ==> s.stages[k].status == Returned
    decreases |s.stages| - i
  {
    if i < |s.stages| && s.stages[i].status == Returned {
      j := FirstRunning(s, i + 1);
    } else {
      j := i;
    }
  }

  /** A closed pipeline stays closed. */
  lemma StaysClosed(fs: seq<Transform>, s: State, step: Step)
    requires 0 < |fs| == |s.stages| && Enabled(s, step) && s.stages[0].isClosed
    ensures Apply(fs, s, step).stages != [] && Apply(fs, s, step).stages[0].isClosed
  {
  }

  /** The chain as it starts, but for stage 0. */
  function Fresh(fs: seq<Transform>, g: Stage): State
    requires fs != []
  {
    State(seq(|fs|, j requires 0 <= j < |fs| => if j == 0 then g else NEW_STAGE), [], [])
  }

  /** Stage 0 when its receive goroutine holds the only record sent. */
  function InHand(f: Transform, record: Bytes): Stage {
    Stage([record], 1, 0, Holding(f(record)), false, Running)
  }

  /** A record is sent and at once received: this is how a client that buffers nothing takes it, too. */
  lemma TakenInHand(fs: seq<Transform>, record: Bytes)
    requires fs != []
    ensures var waiting := Init(fs).(pending := [record]);
      var sent := Fresh(fs, NEW_STAGE.(sends := [record]));
      && Enabled(Init(fs), SendCheck(record)) && Apply(fs, Init(fs), SendCheck(record)) == waiting
      && Enabled(waiting, SendCommit(0)) && Apply(fs, waiting, SendCommit(0)) == sent
      && Enabled(sent, Recv(0)) && Apply(fs, sent, Recv(0)) == Fresh(fs, InHand(fs[0], record))
  {
    var waiting := Init(fs).(pending := [record]);
    var sent := Fresh(fs, NEW_STAGE.(sends := [record]));
    assert Apply(fs, Init(fs), SendCheck(record)) == waiting;
    assert Apply(fs, waiting, SendCommit(0)).stages == sent.stages;
    assert Apply(fs, sent, Recv(0)).stages == Fresh(fs, InHand(fs[0], record)).stages;
  }

  /** The chain after stage 0 timed out with `record` in hand and the stages before i have shut down. */
  function Abandoned(fs: seq<Transform>, record: Bytes, i: nat): State
    requires 0 < i <= |fs|
  {
    var shut := Stage([], 0, 1, AtEof, false, Returned);
    State(seq(|fs|, j requires 0 <= j < |fs| =>
      if j == 0 then InHand(fs[0], record).(isClosed := true, status := Returned)
      else if j < i then shut
      else if j == i then NEW_STAGE.(closes := 1)
      else NEW_STAGE), [], [])
  }

  /** The pipeline is closed, and the timer of stage 0 fires before the record in hand is passed on. */
  lemma TimesOutInHand(fs: seq<Transform>, record: Bytes)
    requires fs != []
    ensures var taken := Fresh(fs, InHand(fs[0], record));
      && Enabled(taken, Close) && Enabled(CloseFlag(taken), TimeoutExit(0, true))
      && Apply(fs, CloseFlag(taken), TimeoutExit(0, true)) == Abandoned(fs, record, 1)
  {
    var closed := CloseFlag(Fresh(fs, InHand(fs[0], record)));
    assert Exit(closed, 0, true).stages == Abandoned(fs, record, 1).stages;
  }

  /** One more stage of the abandoned chain sees EOF and shuts the next one down. */
  lemma AbandonedStep(fs: seq<Transform>, record: Bytes, i: nat)
    requires 0 < i < |fs|
    ensures var a := Abandoned(fs, record, i);
      Enabled(a, Recv(i)) && Enabled(Apply(fs, a, Recv(i)), EofExit(i, true)) &&
      Apply(fs, Apply(fs, a, Recv(i)), EofExit(i, true)) == Abandoned(fs, record, i + 1)
  {
    var a := Abandoned(fs, record, i);
    var b := Apply(fs, a, Recv(i));
    var c := Apply(fs, b, EofExit(i, true));
    assert c.stages == Abandoned(fs, record, i + 1).stages;
  }

  lemma RunExtends(fs: seq<Transform>, states: seq<State>, steps: seq<Step>, step: Step, next: State)
    requires IsRun(fs, states, steps) && Enabled(states[|steps|], step) && |states[|steps|].stages| == |fs|
    requires next == Apply(fs, states[|steps|], step)
    ensures IsRun(fs, states + [next], steps + [step])
  {
  }

  /** Every record is received as soon as its send is accepted, as over a channel that holds nothing. */
  ghost predicate Rendezvous(steps: seq<Step>) {
    forall t :: 0 <= t < |steps| && steps[t].SendCommit? ==> t + 1 < |steps| && steps[t + 1] == Recv(0)
  }

  /** The run up to where the record is in hand. */
  lemma RunToHand(fs: seq<Transform>, record: Bytes) returns (states: seq<State>, steps: seq<Step>)
    requires fs != []
    ensures IsRun(fs, states, steps) && Rendezvous(steps) && states[|steps|] == Fresh(fs, InHand(fs[0], record))
  {
    TakenInHand(fs, record);
    var waiting, sent := Init(fs).(pending := [record]), Fresh(fs, NEW_STAGE.(sends := [record]));
    states, steps := [Init(fs)], [];
    RunExtends(fs, states, steps, SendCheck(record), waiting);
    states, steps := states + [waiting], steps + [SendCheck(record)];
    RunExtends(fs, states, steps, SendCommit(0), sent);
    states, steps := states + [sent], steps + [SendCommit(0)];
    RunExtends(fs, states, steps, Recv(0), Fresh(fs, InHand(fs[0], record)));
    states, steps := states + [Fresh(fs, InHand(fs[0], record))], steps + [Recv(0)];
  }

  lemma AbandonedStart(fs: seq<Transform>, record: Bytes) returns (states: seq<State>, steps: seq<Step>)
    requires fs != []
    ensures IsRun(fs, states, steps) && Rendezvous(steps) && states[|steps|] == Abandoned(fs, record, 1)
  {
    states, steps := RunToHand(fs, record);
    TimesOutInHand(fs, record);
    var closed := CloseFlag(Fresh(fs, InHand(fs[0], record)));
    RunExtends(fs, states, steps, Close, closed);
    states, steps := states + [closed], steps + [Close];
    RunExtends(fs, states, steps, TimeoutExit(0, true), Abandoned(fs, record, 1));
    states, steps := states + [Abandoned(fs, record, 1)], steps + [TimeoutExit(0, true)];
  }

  /**
   For every chain and record there is a run in which all stages return nil and the record is never delivered: it is
   lost in the hand of stage 0, so the run exists for clients that buffer records and for those that do not.
   */
  lemma LosingRun(fs: seq<Transform>, record: Bytes) returns (states: seq<State>, steps: seq<Step>)
    requires fs != []
    ensures IsRun(fs, states, steps) && Rendezvous(steps)
    ensures var s := states[|steps|];
      AllReturned(s) && |s.stages| == |fs| && s.stages[0].sends == [record] && s.stages[0].taken == 1 && s.output == []
  {
    states, steps := AbandonedStart(fs, record);
    var i := 1;
    while i < |fs|
      invariant 1 <= i <= |fs|
      invariant IsRun(fs, states, steps) && Rendezvous(steps) && states[|steps|] == Abandoned(fs, record, i)
    {
      AbandonedStep(fs, record, i);
      var b := Apply(fs, Abandoned(fs, record, i), Recv(i));
      RunExtends(fs, states, steps, Recv(i), b);
      states, steps := states + [b], steps + [Recv(i)];
      RunExtends(fs, states, steps, EofExit(i, true), Abandoned(fs, record, i + 1));
      states, steps := states + [Abandoned(fs, record, i + 1)], steps + [EofExit(i, true)];
      i := i + 1;
    }
    assert Abandoned(fs, record, i).stages[0] == InHand(fs[0], record).(isClosed := true, status := Returned);
  }

  // ---------------------------------------------------------------- one record through the chain

  /** The only record sent is in the hand of stage i. */
  function Carrying(fs: seq<Transform>, record: Bytes, i: nat): State
    requires i < |fs|
  {
    State(seq(|fs|, j requires 0 <= j < |fs| =>
      if j < i then Stage([Along(fs, record, j)], 1, 0, Empty, false, Running)
      else if j == i then Stage([Along(fs, record, i)], 1, 0, Holding(Along(fs, record, i + 1)), false, Running)
      else NEW_STAGE), [], [])
  }

  lemma CarriedOn(fs: seq<Transform>, record: Bytes, i: nat)
    requires i + 1 < |fs|
    ensures var s := Carrying(fs, record, i);
      && Enabled(s, Forward(i)) && Enabled(Apply(fs, s, Forward(i)), Recv(i + 1))
      && Apply(fs, s, Forward(i)).output == []
      && Apply(fs, Apply(fs, s, Forward(i)), Recv(i + 1)) == Carrying(fs, record, i + 1)
  {
    var s := Carrying(fs, record, i);
    var passed := Apply(fs, s, Forward(i));
    assert passed.stages[i + 1] == NEW_STAGE.(sends := [Along(fs, record, i + 1)]);
    assert Apply(fs, passed, Recv(i + 1)).stages == Carrying(fs, record, i + 1).stages;
  }

  lemma {:induction false} CarriedOut(fs: seq<Transform>, record: Bytes)
    requires fs != []
    ensures var s := Carrying(fs, record, |fs| - 1);
      Enabled(s, Forward(|fs| - 1)) && Apply(fs, s, Forward(|fs| - 1)).output == [Through(fs, [record])[0]]
  {
    AlongIsThrough(fs, record, |fs|);
    assert fs[..|fs|] == fs;
  }

  lemma {:induction false} AlongIsThrough(fs: seq<Transform>, record: Bytes, i: nat)
    requires i <= |fs|
    ensures Through(fs[..i], [record])[0] == Along(fs, record, i)
  {
    if i > 0 {
      AlongIsThrough(fs, record, i - 1);
      ThroughSnoc(fs[..i - 1], fs[i - 1], [record]);
      assert fs[..i] == fs[..i - 1] + [fs[i - 1]];
    }
  }

  lemma {:induction false} ThroughSnoc(fs: seq<Transform>, f: Transform, xs: seq<Bytes>)
    ensures Through(fs + [f], xs) == MapSeq(f, Through(fs, xs))
    decreases fs
  {
    if fs == [] {
      assert (fs + [f])[1..] == [];
    } else {
      assert (fs + [f])[1..] == fs[1..] + [f];
      ThroughSnoc(fs[1..], f, MapSeq(fs[0], xs));
    }
  }

  /** What one step can do to the parts of the state its surroundings watch. */
  lemma StepFrame(fs: seq<Transform>, s: State, step: Step)
    requires 0 < |fs| == |s.stages| && Enabled(s, step)
    ensures var s' := Apply(fs, s, step);
      && |s'.stages| == |s.stages|
      && (s'.output == s.output || (|s'.output| == |s.output| + 1 && s'.output[..|s.output|] == s.output))
      && (forall i :: 0 <= i < |fs| && s.stages[i].status != Running ==> s'.stages[i].status == s.stages[i].status)
      && (AllReturned(s) ==> AllReturned(s') && s'.output == s.output)
      && (!step.SendCheck? && |s.pending| <= 1 ==>
            |s'.pending| <= |s.pending| && s'.stages[0].sends + s'.pending == s.stages[0].sends + s.pending)
      && (s'.stages[0].isClosed && !s.stages[0].isClosed && !step.Close? ==> s'.stages[|fs| - 1].status == Failed)
  {
    match step
    case SendCommit(k) => assert |s.pending| <= 1 ==> s.pending == [s.pending[k]];
    case _ =>
  }

  // ---------------------------------------------------------------- the pipeline object

  /** Stage i has handed its record to the next client or the output, or has failed to and stopped. */
  ghost predicate Handed(s: State, s': State, i: nat, sendOk: bool)
    requires i < |s.stages| && s.stages[i].hand.Holding?
  {
    var last := i + 1 == |s.stages|;
    && |s'.stages| == |s.stages|
    && (sendOk ==>
          && s'.stages[i].hand == Empty && s'.stages[i].status == s.stages[i].status
          && (!last ==> s'.stages[i + 1].sends == s.stages[i + 1].sends + [s.stages[i].hand.record])
          && s'.output == if last then s.output + [s.stages[i].hand.record] else s.output)
    && (!sendOk ==> s'.stages[i].status == Failed && s'.output == s.output && (last ==> s'.stages[0].isClosed))
  }

  /** Stage i has returned nil or the error of closing the next client, which it has closed. */
  ghost predicate Left(s: State, s': State, i: nat, closeOk: bool)
    requires i < |s.stages|
  {
    && |s'.stages| == |s.stages| && s'.output == s.output
    && s'.stages[i].status == (if closeOk || i + 1 == |s.stages| then Returned else Failed)
    && (i + 1 < |s.stages| ==> s'.stages[i + 1].closes == s.stages[i + 1].closes + 1)
  }

  datatype Error = NilOutput | NoOutputRegistered | PipelineClosed

  /**
   The object behind the goroutines. Each method is what one goroutine does between two points
   where another may run; its effect is one enabled step of the state machine above.
   */
  class Pipeline {
    const transforms: seq<Transform>
    var stages: seq<Stage>
    var pending: seq<Bytes>
    var output: seq<Bytes>
    var hasOutput: bool

    function Snapshot(): State reads this {
      State(stages, pending, output)
    }

    ghost predicate Valid() reads this {
      Inv(transforms, Snapshot())
    }

    constructor (clients: seq<Transform>)
      ensures Valid() && transforms == Wired(clients) && Snapshot() == Init(transforms) && !hasOutput
      ensures clients != [] ==>
                |stages| == |clients| && forall i :: 0 <= i < |clients| ==> transforms[i] == clients[i]
      ensures clients == [] ==> |stages| == 1 && forall record :: transforms[0](record) == record
      ensures forall record :: Through(transforms, [record])[0] == Along(clients, record, |clients|)
      ensures forall i :: 0 <= i < |stages| ==> stages[i] == Stage([], 0, 0, Empty, false, Running)
      ensures pending == [] && output == []
    {
      transforms := Wired(clients);
      stages := seq(|Wired(clients)|, _ => NEW_STAGE);
      pending, output, hasOutput := [], [], false;
      new;
      InitInv(transforms);
      forall record ensures Through(transforms, [record])[0] == Along(clients, record, |clients|) {
        WiredIsTheClients(clients, record);
      }
    }

    /** A nil callback is refused. */
    method OnOutput(given: bool) returns (r: Result<(), Error>)
      requires Valid()
      modifies this`hasOutput
      ensures Valid() && (r.Ok? <==> given) && hasOutput == (old(hasOutput) || given)
    {
      if !given {
        return Err(NilOutput);
      }
      hasOutput := true;
      return Ok(());
    }

    /** The checks of Send; the record then waits for the asynchronous client.Send. */
    method Send(record: Bytes) returns (r: Result<(), Error>)
      requires Valid()
      modifies this`pending
      ensures Valid()
      ensures r == if !hasOutput then Err(NoOutputRegistered)
                   else if stages[0].isClosed then Err(PipelineClosed) else Ok(())
      ensures Snapshot() == if r.Ok? then Apply(transforms, old(Snapshot()), SendCheck(record)) else old(Snapshot())
      ensures pending == if r.Ok? then old(pending) + [record] else old(pending)
    {
      if !hasOutput {
        return Err(NoOutputRegistered);
      }
      if stages[0].isClosed {
        return Err(PipelineClosed);
      }
      StepInv(transforms, Snapshot(), SendCheck(record));
      pending := pending + [record];
      return Ok(());
    }

    /** The goroutine inside Send gets its record accepted by the first client. */
    method CommitSend(k: nat)
      requires Valid() && k < |pending|
      modifies this`pending, this`stages
      ensures Valid() && Snapshot() == Apply(transforms, old(Snapshot()), SendCommit(k))
      ensures |stages| == |old(stages)| && stages[0] == old(stages[0]).(sends := old(stages[0].sends + [pending[k]]))
      ensures pending == old(pending[..k] + pending[k + 1..])
    {
      StepInv(transforms, Snapshot(), SendCommit(k));
      stages := stages[0 := stages[0].(sends := stages[0].sends + [pending[k]])];
      pending := pending[..k] + pending[k + 1..];
    }

    method Close()
      requires Valid()
      modifies this`stages
      ensures Valid() && Snapshot() == CloseFlag(old(Snapshot()))
      ensures stages == old(stages[0 := stages[0].(isClosed := true)])
    {
      StepInv(transforms, Snapshot(), Step.Close);
      stages := stages[0 := stages[0].(isClosed := true)];
    }

    /** The receive goroutine of stage i gets an answer from its client. */
    method Receive(i: nat)
      requires Valid() && Enabled(Snapshot(), Recv(i))
      modifies this`stages
      ensures Valid() && Snapshot() == Apply(transforms, old(Snapshot()), Recv(i))
      ensures |stages| == |old(stages)| && stages[i].sends == old(stages[i].sends)
      ensures if old(stages[i].taken) < |stages[i].sends| then
                && stages[i].hand == Holding(transforms[i](stages[i].sends[old(stages[i].taken)]))
                && stages[i].taken == old(stages[i].taken) + 1
              else stages[i].hand == AtEof && stages[i].taken == old(stages[i].taken)
    {
      StepInv(transforms, Snapshot(), Recv(i));
      var g := stages[i];
      if g.taken < |g.sends| {
        stages := stages[i := g.(taken := g.taken + 1, hand := Holding(transforms[i](g.sends[g.taken])))];
      } else {
        stages := stages[i := g.(hand := AtEof)];
      }
    }

    /** The step one pass of stage i's select amounts to, if it amounts to any. */
    ghost function SelectStep(i: nat, timer: bool, recvError: bool, sendOk: bool, closeOk: bool): Option<Step>
      reads this
      requires i < |stages|
    {
      var ok := closeOk || i + 1 == |stages|;
      if i + 1 == |stages| && !hasOutput then Some(StageFails(i))
      else if timer then if stages[i].isClosed then Some(TimeoutExit(i, ok)) else None
      else if recvError then Some(StageFails(i))
      else match stages[i].hand
        case Empty => None
        case Holding(_) => Some(if sendOk then Forward(i) else ForwardFails(i))
        case AtEof => Some(EofExit(i, ok))
    }

    /** The pass ends the stage with nil or the error of nextClose: the closed flag at the timer, or EOF. */
    ghost predicate Leaves(i: nat, timer: bool, recvError: bool)
      reads this
      requires i < |stages|
    {
      && (i + 1 < |stages| || hasOutput)
      && (if timer then stages[i].isClosed else !recvError && stages[i].hand == AtEof)
    }

    /** The pass hands a record on. */
    ghost predicate Passes(i: nat, timer: bool, recvError: bool)
      reads this
      requires i < |stages|
    {
      (i + 1 < |stages| || hasOutput) && !timer && !recvError && stages[i].hand.Holding?
    }

    /** The pass ends the stage with an error: there is no output to send to, or Recv has failed. */
    ghost predicate Breaks(i: nat, timer: bool, recvError: bool)
      reads this
      requires i < |stages|
    {
      (i + 1 == |stages| && !hasOutput) || (!timer && recvError)
    }

    /**
     One pass of startBlocking: the timer fires, Recv has failed, or what the receive goroutine holds is dealt with.
     */
    method Select(i: nat, timer: bool, recvError: bool, sendOk: bool, closeOk: bool)
      requires Valid() && i < |stages| && stages[i].status == Running
      modifies this`stages, this`output
      ensures Valid()
      ensures Snapshot() == match old(SelectStep(i, timer, recvError, sendOk, closeOk))
                            case None => old(Snapshot())
                            case Some(step) => Apply(transforms, old(Snapshot()), step)
      ensures old(Leaves(i, timer, recvError)) ==> Left(old(Snapshot()), Snapshot(), i, closeOk)
      ensures old(Passes(i, timer, recvError)) ==> Handed(old(Snapshot()), Snapshot(), i, sendOk)
      ensures old(Breaks(i, timer, recvError)) ==>
                Snapshot() == old(Snapshot()).(stages := old(stages[i := stages[i].(status := Failed)]))
      ensures Snapshot() == old(Snapshot()) || old(Leaves(i, timer, recvError) || Passes(i, timer, recvError)
                || Breaks(i, timer, recvError))
    {
      ghost var step := SelectStep(i, timer, recvError, sendOk, closeOk);
      if step.Some? {
        StepInv(transforms, Snapshot(), step.value);
      }
      if i + 1 == |stages| && !hasOutput {
        stages := stages[i := stages[i].(status := Failed)];
      } else if timer {
        if stages[i].isClosed {
          Leave(i, closeOk);
        }
      } else if recvError {
        stages := stages[i := stages[i].(status := Failed)];
      } else if stages[i].hand.Holding? {
        Pass(i, sendOk);
      } else if stages[i].hand.AtEof? {
        Leave(i, closeOk);
      }
    }

    /** `s.nextSendFn(req)`: on to the next client or the output callback, which closes the pipeline when it fails. */
    method Pass(i: nat, sendOk: bool)
      requires i < |stages| && stages[i].hand.Holding? && stages[i].status == Running
      requires |transforms| == |stages|
      modifies this`stages, this`output
      ensures Snapshot() == Apply(transforms, old(Snapshot()), if sendOk then Forward(i) else ForwardFails(i))
      ensures Handed(old(Snapshot()), Snapshot(), i, sendOk)
    {
      var record := stages[i].hand.record;
      if !sendOk {
        stages := stages[i := stages[i].(status := Failed)];
        if i + 1 == |stages| {
          stages := stages[0 := stages[0].(isClosed := true)];
        }
      } else {
        stages := stages[i := stages[i].(hand := Empty)];
        if i + 1 < |stages| {
          stages := stages[i + 1 := stages[i + 1].(sends := stages[i + 1].sends + [record])];
        } else {
          output := output + [record];
        }
      }
    }

    /** `return s.nextClose()`; the last stage has nothing to close. */
    method Leave(i: nat, closeOk: bool)
      requires i < |stages|
      modifies this`stages
      ensures Snapshot() == Exit(old(Snapshot()), i, closeOk || i + 1 == |stages|)
      ensures Left(old(Snapshot()), Snapshot(), i, closeOk)
    {
      if i + 1 < |stages| {
        stages := stages[i := stages[i].(status := if closeOk then Returned else Failed)];
        stages := stages[i + 1 := stages[i + 1].(closes := stages[i + 1].closes + 1)];
      } else {
        stages := stages[i := stages[i].(status := Returned)];
      }
    }
  }
}
