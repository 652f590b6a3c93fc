/**
 One v3 sync: the source loop, one transformer pipeline per destination, the locked write streams,
 and the phase after all goroutines have joined.
 */
module SyncRun {
  import opened Basics
  import P = TransformerPipeline

  datatype SourceMessage =
    | Insert(record: Bytes)
    | MigrateTable(table: Bytes)
    | DeleteRecord(request: Bytes)
    | TableError

  datatype WriteMessage =
    | WriteInsert(record: Bytes)
    | WriteMigrate(table: Bytes)
    | WriteDelete(request: Bytes)
    | WriteStale(table: Bytes)

  /** What a destination does to messages: its record and schema transformations and its transform clients. */
  datatype Destination = Destination(
    transforms: seq<P.Transform>,
    encode: Bytes -> Bytes,
    migrate: Bytes -> Bytes,
    delete: Bytes -> Bytes)

  /** `seen` counts the source messages the source loop has dealt with for this destination. */
  datatype Lane = Lane(pipe: P.State, stream: seq<WriteMessage>, seen: nat)

  /**
   The source goroutine reads, waits inside Pipeline.Send, runs its deferred Close calls, or has
   stopped with nil or an error; PostJoin is the code after eg.Wait returned nil.
   */
  datatype Phase = Reading | Waiting | Closing(ok: bool) | Stopped(ok: bool) | PostJoin

  datatype State = State(lanes: seq<Lane>, k: nat, d: nat, phase: Phase)

  datatype Config = Config(src: seq<SourceMessage>, dests: seq<Destination>, noMigrate: bool)

  datatype Step =
    | Dispatch
    | SendDone
    | SendAbandoned
    | NextMessage
    | SourceEof
    | SourceFails
    | ClosePipe(d: nat)
    | StopSource
    | PipeStep(d: nat, step: P.Step)
    | Join
    | StaleDelete(d: nat, table: Bytes)

  function Chain(dest: Destination): seq<P.Transform> {
    P.Wired(dest.transforms)
  }

  function Init(c: Config): State {
    State(seq(|c.dests|, i requires 0 <= i < |c.dests| => Lane(P.Init(Chain(c.dests[i])), [], 0)), 0, 0, Reading)
  }

  predicate IsClosed(lane: Lane) {
    lane.pipe.stages != [] && lane.pipe.stages[0].isClosed
  }

  predicate Enabled(c: Config, s: State, step: Step) {
    |s.lanes| == |c.dests| &&
    match step
    case Dispatch => s.phase == Reading && s.k < |c.src| && s.d < |s.lanes| && s.lanes[s.d].pipe.stages != []
    case SendDone => s.phase == Waiting && s.d < |s.lanes| && s.lanes[s.d].pipe.pending == []
    case SendAbandoned => s.phase == Waiting && s.d < |s.lanes| && IsClosed(s.lanes[s.d])
    case NextMessage => s.phase == Reading && s.k < |c.src| && s.d == |s.lanes|
    case SourceEof => s.phase == Reading && s.k == |c.src|
    case SourceFails => s.phase == Reading || s.phase == Waiting
    case ClosePipe(d) => s.phase.Closing? && d < |s.lanes| && s.lanes[d].pipe.stages != []
    case StopSource => s.phase.Closing? && forall d :: 0 <= d < |s.lanes| ==> IsClosed(s.lanes[d])
    case PipeStep(d, ps) =>
      && d < |s.lanes| && !ps.SendCheck? && !ps.Close?
      && P.Enabled(s.lanes[d].pipe, ps) && |Chain(c.dests[d])| == |s.lanes[d].pipe.stages|
    case Join => s.phase == Stopped(true) && forall d :: 0 <= d < |s.lanes| ==> P.AllReturned(s.lanes[d].pipe)
    case StaleDelete(d, _) => s.phase == PostJoin && d < |s.lanes|
  }

  /**
   The message as it goes straight to the write stream, if it does: migrations and record deletes bypass the pipeline.
   */
  function DirectWrite(c: Config, dest: Destination, m: SourceMessage): (w: seq<WriteMessage>) {
    match m
    case MigrateTable(t) => if c.noMigrate then [] else [WriteMigrate(dest.migrate(t))]
    case DeleteRecord(r) => [WriteDelete(dest.delete(r))]
    case Insert(_) => []
    case TableError => []
  }

  function SetLane(s: State, d: nat, lane: Lane): State
    requires d < |s.lanes|
  {
    s.(lanes := s.lanes[d := lane])
  }

  /** One source message handled for one destination: into the pipeline's first client, or straight to the stream. */
  function Serve(c: Config, dest: Destination, lane: Lane, m: SourceMessage): Lane {
    if m.Insert? then
      lane.(pipe := lane.pipe.(pending := lane.pipe.pending + [dest.encode(m.record)]), seen := lane.seen + 1)
    else lane.(stream := lane.stream + DirectWrite(c, dest, m), seen := lane.seen + 1)
  }

  /** The source loop's body for message k and destination d. */
  function DispatchTo(c: Config, s: State): State
    requires Enabled(c, s, Dispatch)
  {
    var m, lane := c.src[s.k], s.lanes[s.d];
    if m.Insert? && IsClosed(lane) then s.(phase := Closing(true))
    else
      var served := SetLane(s, s.d, Serve(c, c.dests[s.d], lane, m));
      if m.Insert? then served.(phase := Waiting) else served.(d := s.d + 1)
  }

  /** A goroutine of pipeline d moves; what reaches its output callback is written as an insert. */
  function PipeMoves(c: Config, s: State, d: nat, ps: P.Step): State
    requires Enabled(c, s, PipeStep(d, ps))
  {
    var lane := s.lanes[d];
    var pipe := P.Apply(Chain(c.dests[d]), lane.pipe, ps);
    var written := if |pipe.output| > |lane.pipe.output| then [WriteInsert(pipe.output[|lane.pipe.output|])] else [];
    SetLane(s, d, lane.(pipe := pipe, stream := lane.stream + written))
  }

  function Apply(c: Config, s: State, step: Step): State
    requires Enabled(c, s, step)
  {
    match step
    case Dispatch => DispatchTo(c, s)
    case SendDone => s.(phase := Reading, d := s.d + 1)
    case SendAbandoned => s.(phase := Closing(true))
    case NextMessage => s.(k := s.k + 1, d := 0)
    case SourceEof => s.(phase := Closing(true))
    case SourceFails => s.(phase := Closing(false))
    case ClosePipe(d) => SetLane(s, d, s.lanes[d].(pipe := P.CloseFlag(s.lanes[d].pipe)))
    case StopSource => s.(phase := Stopped(s.phase.ok))
    case PipeStep(d, ps) => PipeMoves(c, s, d, ps)
    case Join => s.(phase := PostJoin)
    case StaleDelete(d, t) => SetLane(s, d, s.lanes[d].(stream := s.lanes[d].stream + [WriteStale(t)]))
  }

  ghost predicate IsRun(c: Config, states: seq<State>, steps: seq<Step>) {
    && |states| == |steps| + 1
    && states[0] == Init(c)
    && forall i :: 0 <= i < |steps| ==>
        Enabled(c, states[i], steps[i]) && states[i + 1] == Apply(c, states[i], steps[i])
  }

  // ---------------------------------------------------------------- specification

  /** The records of the inserts in a write stream. */
  function Rows(ws: seq<WriteMessage>): seq<Bytes> {
    if ws == [] then []
    else Rows(ws[..|ws| - 1]) + if ws[|ws| - 1].WriteInsert? then [ws[|ws| - 1].record] else []
  }

  /** The migrations and record deletes in a write stream. */
  function Direct(ws: seq<WriteMessage>): seq<WriteMessage> {
    if ws == [] then []
    else
      var last := ws[|ws| - 1];
      Direct(ws[..|ws| - 1]) + if last.WriteMigrate? || last.WriteDelete? then [last] else []
  }

  /** What the source's inserts become before the first transformer. */
  function Encoded(dest: Destination, ms: seq<SourceMessage>): seq<Bytes> {
    if ms == [] then []
    else
      var last := ms[|ms| - 1];
      Encoded(dest, ms[..|ms| - 1]) + if last.Insert? then [dest.encode(last.record)] else []
  }

  /** The migrations and record deletes of the source, as this destination gets them. */
  function DirectOf(c: Config, dest: Destination, ms: seq<SourceMessage>): seq<WriteMessage> {
    if ms == [] then [] else DirectOf(c, dest, ms[..|ms| - 1]) + DirectWrite(c, dest, ms[|ms| - 1])
  }

  /** Where the insert number q stands in the source stream. */
  function InsertAt(dest: Destination, ms: seq<SourceMessage>, q: nat): (i: nat)
    requires q < |Encoded(dest, ms)|
    ensures i < |ms| && ms[i].Insert? && |Encoded(dest, ms[..i])| == q
  {
    var front := ms[..|ms| - 1];
    if q < |Encoded(dest, front)| then
      var i := InsertAt(dest, front, q);
      assert front[..i] == ms[..i];
      i
    else |ms| - 1
  }

  /**
   In stream position j: everything sent directly that the source sent before this insert is already there, in order.
   */
  ghost predicate InOrderAt(c: Config, dest: Destination, ws: seq<WriteMessage>, j: nat) {
    j < |ws| && (ws[j].WriteInsert? ==>
      var q := |Rows(ws[..j])|;
      && q < |Encoded(dest, c.src)|
      && DirectOf(c, dest, c.src[..InsertAt(dest, c.src, q)]) <= Direct(ws[..j]))
  }

  ghost predicate InOrder(c: Config, dest: Destination, ws: seq<WriteMessage>) {
    forall j: nat :: j < |ws| ==> InOrderAt(c, dest, ws, j)
  }

  /** Once a stale delete has been sent, only stale deletes follow. */
  ghost predicate StaleLast(ws: seq<WriteMessage>) {
    forall j :: 0 <= j < |ws| - 1 && ws[j].WriteStale? ==> ws[j + 1].WriteStale?
  }

  ghost predicate LaneInv(c: Config, dest: Destination, lane: Lane, phase: Phase) {
    && P.Inv(Chain(dest), lane.pipe)
    && lane.seen <= |c.src|
    && |lane.pipe.pending| <= 1
    && Rows(lane.stream) == lane.pipe.output
    && Direct(lane.stream) == DirectOf(c, dest, c.src[..lane.seen])
    && lane.pipe.stages[0].sends + lane.pipe.pending == Encoded(dest, c.src[..lane.seen])
    && InOrder(c, dest, lane.stream)
    && (forall j :: 0 <= j < |lane.stream| && lane.stream[j].WriteStale? ==> phase == PostJoin)
    && (phase == PostJoin ==> P.AllReturned(lane.pipe))
    && StaleLast(lane.stream)
  }

  ghost predicate LaneOk(c: Config, s: State, i: nat) {
    i < |c.dests| == |s.lanes| && LaneInv(c, c.dests[i], s.lanes[i], s.phase)
  }

  ghost predicate SomeFailed(s: State) {
    exists i, g :: 0 <= i < |s.lanes| && 0 <= g < |s.lanes[i].pipe.stages| &&
        s.lanes[i].pipe.stages[g].status == P.Failed
  }

  /** How far lane i has been served while the source still reads: the lanes before d are one message ahead. */
  ghost predicate ServedOk(s: State, i: nat) {
    i < |s.lanes| &&
    match s.phase
    case Reading => s.lanes[i].seen == (if i < s.d then s.k + 1 else s.k) && s.lanes[i].pipe.pending == []
    case Waiting => s.lanes[i].seen == (if i <= s.d then s.k + 1
      else s.k) && (i == s.d || s.lanes[i].pipe.pending == [])
    case _ => true
  }

  ghost predicate AllServed(c: Config, s: State) {
    forall i :: 0 <= i < |s.lanes| ==> s.lanes[i].seen == |c.src| && s.lanes[i].pipe.pending == []
  }

  ghost predicate Inv(c: Config, s: State) {
    && |s.lanes| == |c.dests|
    && (forall i: nat :: i < |c.dests| ==> LaneOk(c, s, i))
    && (forall i: nat :: i < |c.dests| ==> ServedOk(s, i))
    && (s.phase == Reading ==> s.k <= |c.src| && s.d <= |s.lanes| && (s.k == |c.src| ==> s.d == 0))
    && (s.phase == Waiting ==> s.k < |c.src| && s.d < |s.lanes|)
    && (s.phase.Reading? || s.phase.Waiting? ==>
          forall i :: 0 <= i < |s.lanes| && IsClosed(s.lanes[i]) ==> SomeFailed(s))
    && (s.phase == Closing(true) || s.phase == Stopped(true) || s.phase == PostJoin ==>
        AllServed(c, s) || SomeFailed(s))
  }

  // ---------------------------------------------------------------- the invariant is kept

  lemma InitInv(c: Config)
    ensures Inv(c, Init(c))
  {
    forall i: nat | i < |c.dests| ensures LaneOk(c, Init(c), i) {
      P.InitInv(Chain(c.dests[i]));
      assert c.src[..0] == [];
    }
  }

  /** One write more: the insert, direct and order views of the stream follow. */
  lemma {:induction false} AppendWrite(c: Config, dest: Destination, ws: seq<WriteMessage>, w: WriteMessage)
    ensures Rows(ws + [w]) == Rows(ws) + if w.WriteInsert? then [w.record] else []
    ensures Direct(ws + [w]) == Direct(ws) + if w.WriteMigrate? || w.WriteDelete? then [w] else []
    ensures InOrder(c, dest, ws) && (w.WriteInsert? ==> InOrderAt(c, dest, ws + [w], |ws|)) ==>
              InOrder(c, dest, ws + [w])
  {
    assert (ws + [w])[..|ws|] == ws;
    if InOrder(c, dest, ws) && (w.WriteInsert? ==> InOrderAt(c, dest, ws + [w], |ws|)) {
      forall j: nat | j < |ws + [w]| ensures InOrderAt(c, dest, ws + [w], j) {
        if j < |ws| {
          InOrderStays(c, dest, ws, w, j);
        }
      }
    }
  }

  lemma InOrderStays(c: Config, dest: Destination, ws: seq<WriteMessage>, w: WriteMessage, j: nat)
    requires InOrderAt(c, dest, ws, j)
    ensures InOrderAt(c, dest, ws + [w], j)
  {
    assert (ws + [w])[..j] == ws[..j] && (ws + [w])[j] == ws[j];
  }

  lemma OneMoreMessage(c: Config, dest: Destination, n: nat)
    requires n < |c.src|
    ensures Encoded(dest, c.src[..n + 1]) ==
            Encoded(dest, c.src[..n]) + if c.src[n].Insert? then [dest.encode(c.src[n].record)] else []
    ensures DirectOf(c, dest, c.src[..n + 1]) == DirectOf(c, dest, c.src[..n]) + DirectWrite(c, dest, c.src[n])
  {
    assert c.src[..n + 1][..n] == c.src[..n];
  }

  lemma {:induction false} PrefixesGrow(c: Config, dest: Destination, m: nat, n: nat)
    requires m <= n <= |c.src|
    ensures Encoded(dest, c.src[..m]) <= Encoded(dest, c.src[..n])
    ensures DirectOf(c, dest, c.src[..m]) <= DirectOf(c, dest, c.src[..n])
  {
    if m < n {
      PrefixesGrow(c, dest, m, n - 1);
      OneMoreMessage(c, dest, n - 1);
    }
  }

  /** An insert whose record the source has already sent finds everything sent directly before it in the stream. */
  lemma InsertInOrder(c: Config, dest: Destination, lane: Lane, record: Bytes)
    requires lane.seen <= |c.src| && Direct(lane.stream) == DirectOf(c, dest, c.src[..lane.seen])
    requires |Rows(lane.stream)| < |Encoded(dest, c.src[..lane.seen])|
    ensures InOrderAt(c, dest, lane.stream + [WriteInsert(record)], |lane.stream|)
  {
    var ws := lane.stream + [WriteInsert(record)];
    var q := |Rows(lane.stream)|;
    assert ws[..|lane.stream|] == lane.stream;
    PrefixesGrow(c, dest, lane.seen, |c.src|);
    assert c.src[..|c.src|] == c.src;
    var i := InsertAt(dest, c.src, q);
    if lane.seen < i {
      PrefixesGrow(c, dest, lane.seen, i);
    }
    PrefixesGrow(c, dest, i, lane.seen);
  }

  lemma LanePhase(c: Config, dest: Destination, lane: Lane, phase: Phase, phase': Phase)
    requires LaneInv(c, dest, lane, phase) && phase != PostJoin
    requires phase' == PostJoin ==> P.AllReturned(lane.pipe)
    ensures LaneInv(c, dest, lane, phase')
  {
  }

  /** Pipeline.Send accepted the record of the next source insert. */
  lemma LaneSend(c: Config, dest: Destination, lane: Lane)
    requires LaneInv(c, dest, lane, Reading) && lane.pipe.pending == []
    requires lane.seen < |c.src| && c.src[lane.seen].Insert?
    ensures LaneInv(c, dest, Serve(c, dest, lane, c.src[lane.seen]), Waiting)
  {
    OneMoreMessage(c, dest, lane.seen);
    P.PendingInv(Chain(dest), lane.pipe, lane.pipe.pending + [dest.encode(c.src[lane.seen].record)]);
  }

  /** A source message that bypasses the pipeline. */
  lemma LaneDirect(c: Config, dest: Destination, lane: Lane)
    requires LaneInv(c, dest, lane, Reading) && lane.seen < |c.src| && !c.src[lane.seen].Insert?
    ensures LaneInv(c, dest, Serve(c, dest, lane, c.src[lane.seen]), Reading)
  {
    OneMoreMessage(c, dest, lane.seen);
    var ws := DirectWrite(c, dest, c.src[lane.seen]);
    if ws == [] {
      assert lane.stream + ws == lane.stream;
    } else {
      AppendWrite(c, dest, lane.stream, ws[0]);
    }
  }

  /** Another pipeline with the same output, and with the same records sent or pending. */
  ghost predicate Follows(fs: seq<P.Transform>, before: P.State, pipe: P.State) {
    && fs != [] && P.Inv(fs, before) && P.Inv(fs, pipe) && |pipe.pending| <= 1
    && pipe.stages[0].sends + pipe.pending == before.stages[0].sends + before.pending
    && (P.AllReturned(before) ==> P.AllReturned(pipe))
  }

  lemma LaneStill(c: Config, dest: Destination, lane: Lane, pipe: P.State, phase: Phase)
    requires LaneInv(c, dest, lane, phase) && Follows(Chain(dest), lane.pipe, pipe) && pipe.output == lane.pipe.output
    ensures LaneInv(c, dest, lane.(pipe := pipe), phase)
  {
  }

  lemma LaneWrites(c: Config, dest: Destination, lane: Lane, pipe: P.State, record: Bytes, phase: Phase)
    requires LaneInv(c, dest, lane, phase) && phase != PostJoin && Follows(Chain(dest), lane.pipe, pipe)
    requires pipe.output == lane.pipe.output + [record]
    ensures LaneInv(c, dest, lane.(pipe := pipe, stream := lane.stream + [WriteInsert(record)]), phase)
  {
    P.OutputFrom(Chain(dest), pipe, 0);
    StreamWrites(c, dest, lane, record);
  }

  lemma StreamWrites(c: Config, dest: Destination, lane: Lane, record: Bytes)
    requires lane.seen <= |c.src| && Direct(lane.stream) == DirectOf(c, dest, c.src[..lane.seen])
    requires |Rows(lane.stream)| < |Encoded(dest, c.src[..lane.seen])| && InOrder(c, dest, lane.stream)
    requires forall j :: 0 <= j < |lane.stream| ==> !lane.stream[j].WriteStale?
    ensures var ws := lane.stream + [WriteInsert(record)];
      && Rows(ws) == Rows(lane.stream) + [record] && Direct(ws) == Direct(lane.stream) && InOrder(c, dest, ws)
      && forall j :: 0 <= j < |ws| ==> !ws[j].WriteStale?
  {
    InsertInOrder(c, dest, lane, record);
    AppendWrite(c, dest, lane.stream, WriteInsert(record));
  }

  lemma PipeFollows(fs: seq<P.Transform>, pipe: P.State, ps: P.Step)
    requires fs != [] && P.Inv(fs, pipe) && |pipe.pending| <= 1 && !ps.SendCheck? && P.Enabled(pipe, ps)
    ensures |fs| == |pipe.stages| && Follows(fs, pipe, P.Apply(fs, pipe, ps))
    ensures var after := P.Apply(fs, pipe, ps).output;
      if |after| > |pipe.output| then !P.AllReturned(pipe) && after == pipe.output + [after[|pipe.output|]]
        else after == pipe.output
  {
    P.StepInv(fs, pipe, ps);
    P.StepFrame(fs, pipe, ps);
  }

  /** A goroutine of the pipeline moved; the stream got at most one insert. */
  lemma LanePipe(c: Config, dest: Destination, lane: Lane, phase: Phase, ps: P.Step)
    requires LaneInv(c, dest, lane, phase) && !ps.SendCheck? && P.Enabled(lane.pipe, ps)
    ensures |Chain(dest)| == |lane.pipe.stages|
    ensures var pipe := P.Apply(Chain(dest), lane.pipe, ps);
      var written := if |pipe.output| > |lane.pipe.output| then [WriteInsert(pipe.output[|lane.pipe.output|])] else [];
      LaneInv(c, dest, lane.(pipe := pipe, stream := lane.stream + written), phase)
  {
    PipeFollows(Chain(dest), lane.pipe, ps);
    var pipe := P.Apply(Chain(dest), lane.pipe, ps);
    if |pipe.output| > |lane.pipe.output| {
      LaneWrites(c, dest, lane, pipe, pipe.output[|lane.pipe.output|], phase);
    } else {
      LaneStill(c, dest, lane, pipe, phase);
      assert lane.stream + [] == lane.stream;
    }
  }

  lemma LaneClose(c: Config, dest: Destination, lane: Lane, phase: Phase)
    requires LaneInv(c, dest, lane, phase)
    ensures LaneInv(c, dest, lane.(pipe := P.CloseFlag(lane.pipe)), phase)
  {
    P.CloseInv(Chain(dest), lane.pipe);
  }

  lemma LaneStale(c: Config, dest: Destination, lane: Lane, table: Bytes)
    requires LaneInv(c, dest, lane, PostJoin)
    ensures LaneInv(c, dest, lane.(stream := lane.stream + [WriteStale(table)]), PostJoin)
  {
    AppendWrite(c, dest, lane.stream, WriteStale(table));
  }

  lemma FailedStays(s: State, s': State)
    requires |s.lanes| == |s'.lanes|
    requires forall i :: 0 <= i < |s.lanes| ==> |s.lanes[i].pipe.stages| == |s'.lanes[i].pipe.stages|
    requires forall i, g ::
               (0 <= i < |s.lanes| && 0 <= g < |s.lanes[i].pipe.stages| && s.lanes[i].pipe.stages[g].status == P.Failed)
               ==> s'.lanes[i].pipe.stages[g].status == P.Failed
    ensures SomeFailed(s) ==> SomeFailed(s')
  {
  }

  lemma DispatchLane(c: Config, s: State, i: nat)
    requires Inv(c, s) && Enabled(c, s, Dispatch) && i < |c.dests|
    ensures LaneOk(c, DispatchTo(c, s), i)
  {
    var s' := DispatchTo(c, s);
    assert LaneOk(c, s, i) && LaneOk(c, s, s.d) && ServedOk(s, s.d);
    if i != s.d || s'.phase == Closing(true) {
      LanePhase(c, c.dests[i], s.lanes[i], Reading, s'.phase);
    } else if c.src[s.k].Insert? {
      LaneSend(c, c.dests[i], s.lanes[i]);
    } else {
      LaneDirect(c, c.dests[i], s.lanes[i]);
    }
  }

  lemma DispatchServed(c: Config, s: State, i: nat)
    requires Inv(c, s) && Enabled(c, s, Dispatch) && i < |c.dests|
    ensures ServedOk(DispatchTo(c, s), i)
  {
    assert ServedOk(s, i);
  }

  lemma DispatchInv(c: Config, s: State)
    requires Inv(c, s) && Enabled(c, s, Dispatch)
    ensures Inv(c, DispatchTo(c, s))
  {
    var s' := DispatchTo(c, s);
    forall i: nat | i < |c.dests| ensures LaneOk(c, s', i) && ServedOk(s', i) {
      DispatchLane(c, s, i);
      DispatchServed(c, s, i);
    }
    FailedStays(s, s');
  }

  lemma PipeLane(c: Config, s: State, d: nat, ps: P.Step, i: nat)
    requires Inv(c, s) && Enabled(c, s, PipeStep(d, ps)) && i < |c.dests|
    ensures LaneOk(c, PipeMoves(c, s, d, ps), i)
  {
    assert LaneOk(c, s, i);
    if i == d {
      LanePipe(c, c.dests[d], s.lanes[d], s.phase, ps);
    }
  }

  lemma PipeServed(c: Config, s: State, d: nat, ps: P.Step, i: nat)
    requires Inv(c, s) && Enabled(c, s, PipeStep(d, ps)) && i < |c.dests|
    ensures ServedOk(PipeMoves(c, s, d, ps), i)
  {
    assert ServedOk(s, i) && LaneOk(c, s, d);
    P.StepFrame(Chain(c.dests[d]), s.lanes[d].pipe, ps);
  }

  lemma PipeFailed(c: Config, s: State, d: nat, ps: P.Step)
    requires Inv(c, s) && Enabled(c, s, PipeStep(d, ps))
    ensures var s' := PipeMoves(c, s, d, ps);
      (SomeFailed(s) ==> SomeFailed(s')) && (IsClosed(s'.lanes[d]) && !IsClosed(s.lanes[d]) ==> SomeFailed(s'))
  {
    assert LaneOk(c, s, d);
    var s' := PipeMoves(c, s, d, ps);
    P.StepFrame(Chain(c.dests[d]), s.lanes[d].pipe, ps);
    FailedStays(s, s');
    if IsClosed(s'.lanes[d]) && !IsClosed(s.lanes[d]) {
      assert s'.lanes[d].pipe.stages[|s'.lanes[d].pipe.stages| - 1].status == P.Failed;
    }
  }

  lemma PipeInv(c: Config, s: State, d: nat, ps: P.Step)
    requires Inv(c, s) && Enabled(c, s, PipeStep(d, ps))
    ensures Inv(c, PipeMoves(c, s, d, ps))
  {
    var s' := PipeMoves(c, s, d, ps);
    forall i: nat | i < |c.dests| ensures LaneOk(c, s', i) && ServedOk(s', i) {
      PipeLane(c, s, d, ps, i);
      PipeServed(c, s, d, ps, i);
    }
    PipeFailed(c, s, d, ps);
    assert LaneOk(c, s, d);
    P.StepFrame(Chain(c.dests[d]), s.lanes[d].pipe, ps);
  }

  /** Phase changes of the source goroutine. */
  lemma PhaseInv(c: Config, s: State, s': State)
    requires Inv(c, s) && s'.lanes == s.lanes && s.phase != PostJoin
    requires s'.phase == PostJoin ==> forall i :: 0 <= i < |s.lanes| ==> P.AllReturned(s.lanes[i].pipe)
    requires forall i: nat :: i < |c.dests| ==> ServedOk(s', i)
    requires s'.phase == Reading ==> s'.k <= |c.src| && s'.d <= |s.lanes| && (s'.k == |c.src| ==> s'.d == 0)
    requires s'.phase != Waiting && (s'.phase == Reading ==> s.phase == Reading || s.phase == Waiting)
    requires s'.phase == Closing(true) || s'.phase == Stopped(true) || s'.phase == PostJoin ==>
               AllServed(c, s) || SomeFailed(s)
    ensures Inv(c, s')
  {
    forall i: nat | i < |c.dests| ensures LaneOk(c, s', i) {
      assert LaneOk(c, s, i);
      LanePhase(c, c.dests[i], s.lanes[i], s.phase, s'.phase);
    }
    FailedStays(s, s');
  }

  lemma ClosePipeInv(c: Config, s: State, d: nat)
    requires Inv(c, s) && Enabled(c, s, ClosePipe(d))
    ensures Inv(c, Apply(c, s, ClosePipe(d)))
  {
    var s' := Apply(c, s, ClosePipe(d));
    forall i: nat | i < |c.dests| ensures LaneOk(c, s', i) && ServedOk(s', i) {
      assert LaneOk(c, s, i) && ServedOk(s, i);
      LaneClose(c, c.dests[i], s.lanes[i], s.phase);
    }
    FailedStays(s, s');
  }

  lemma StaleLane(c: Config, s: State, d: nat, table: Bytes, i: nat)
    requires Inv(c, s) && Enabled(c, s, StaleDelete(d, table)) && i < |c.dests|
    ensures LaneOk(c, Apply(c, s, StaleDelete(d, table)), i) && ServedOk(Apply(c, s, StaleDelete(d, table)), i)
  {
    assert LaneOk(c, s, i) && ServedOk(s, i);
    if i == d {
      LaneStale(c, c.dests[i], s.lanes[i], table);
    }
  }

  lemma StaleInv(c: Config, s: State, d: nat, table: Bytes)
    requires Inv(c, s) && Enabled(c, s, StaleDelete(d, table))
    ensures Inv(c, Apply(c, s, StaleDelete(d, table)))
  {
    var s' := Apply(c, s, StaleDelete(d, table));
    forall i: nat | i < |c.dests| ensures LaneOk(c, s', i) && ServedOk(s', i) {
      StaleLane(c, s, d, table, i);
    }
    FailedStays(s, s');
  }

  /** Every step of the source, of any pipeline goroutine and of the code after the join keeps the invariant. */
  lemma StepInv(c: Config, s: State, step: Step)
    requires Inv(c, s) && Enabled(c, s, step)
    ensures Inv(c, Apply(c, s, step))
  {
    match step
    case Dispatch => DispatchInv(c, s);
    case PipeStep(d, ps) => PipeInv(c, s, d, ps);
    case ClosePipe(d) => ClosePipeInv(c, s, d);
    case StaleDelete(d, t) => StaleInv(c, s, d, t);
    case _ => SourceInv(c, s, step);
  }

  lemma SourceInv(c: Config, s: State, step: Step)
    requires Inv(c, s) && Enabled(c, s, step)
    requires !step.Dispatch? && !step.PipeStep? && !step.ClosePipe? && !step.StaleDelete?
    ensures Inv(c, Apply(c, s, step))
  {
    var s' := Apply(c, s, step);
    forall i: nat | i < |c.dests| ensures ServedOk(s', i) {
      assert ServedOk(s, i);
    }
    if step == SourceEof {
      EofServed(c, s);
    }
    PhaseInv(c, s, s');
  }

  lemma EofServed(c: Config, s: State)
    requires Inv(c, s) && Enabled(c, s, SourceEof)
    ensures AllServed(c, s)
  {
    forall i: nat | i < |c.dests| ensures s.lanes[i].seen == |c.src| && s.lanes[i].pipe.pending == [] {
      assert ServedOk(s, i);
    }
  }

  lemma {:induction false} RunInv(c: Config, states: seq<State>, steps: seq<Step>, k: nat)
    requires IsRun(c, states, steps) && k < |states|
    ensures Inv(c, states[k])
  {
    if k == 0 {
      InitInv(c);
    } else {
      RunInv(c, states, steps, k - 1);
      StepInv(c, states[k - 1], steps[k - 1]);
    }
  }

  // ---------------------------------------------------------------- what every run guarantees

  /** What one source insert becomes on its way to this destination. */
  function Delivered(dest: Destination, record: Bytes): Bytes {
    P.Through(Chain(dest), [dest.encode(record)])[0]
  }

  lemma EncodedAt(dest: Destination, ms: seq<SourceMessage>, q: nat)
    requires q < |Encoded(dest, ms)|
    ensures Encoded(dest, ms)[q] == dest.encode(ms[InsertAt(dest, ms, q)].record)
  {
  }

  lemma {:induction false} RowsAt(ws: seq<WriteMessage>, j: nat)
    requires j < |ws| && ws[j].WriteInsert?
    ensures |Rows(ws[..j])| < |Rows(ws)| && Rows(ws)[|Rows(ws[..j])|] == ws[j].record
  {
    var front := ws[..|ws| - 1];
    if j < |front| {
      assert front[..j] == ws[..j];
      RowsAt(front, j);
    }
  }

  /** Every transformer of the destination is applied once, first to last, to the encoded record. */
  lemma DeliveredIsAlong(dest: Destination, record: Bytes)
    ensures Delivered(dest, record) == P.Along(dest.transforms, dest.encode(record), |dest.transforms|)
  {
    P.WiredIsTheClients(dest.transforms, dest.encode(record));
  }

  /** Where the migrations and record deletes of a stream stand. */
  lemma {:induction false} DirectAt(ws: seq<WriteMessage>) returns (to: seq<nat>)
    ensures Increasing(to, |ws|) && |to| == |Direct(ws)|
    ensures forall q :: 0 <= q < |to| ==> ws[to[q]] == Direct(ws)[q] && !ws[to[q]].WriteInsert?
    ensures forall j: nat :: j < |ws| && (ws[j].WriteMigrate? || ws[j].WriteDelete?) ==> j in to
  {
    to := [];
    if ws != [] {
      var n := |ws| - 1;
      var front := DirectAt(ws[..n]);
      to := front;
      if ws[n].WriteMigrate? || ws[n].WriteDelete? {
        to := front + [n];
        OnePosition(front, n);
      }
    }
  }

  /** Which source messages they come from: the record deletes, and the migrations unless these are switched off. */
  lemma {:induction false} DirectFrom(c: Config, dest: Destination, ms: seq<SourceMessage>) returns (from: seq<nat>)
    ensures Increasing(from, |ms|) && |from| == |DirectOf(c, dest, ms)|
    ensures forall q :: 0 <= q < |from| ==>
              match ms[from[q]]
              case MigrateTable(t) => !c.noMigrate && DirectOf(c, dest, ms)[q] == WriteMigrate(dest.migrate(t))
              case DeleteRecord(r) => DirectOf(c, dest, ms)[q] == WriteDelete(dest.delete(r))
              case _ => false
    ensures forall i: nat :: i < |ms| && (ms[i].DeleteRecord? || (ms[i].MigrateTable? && !c.noMigrate)) ==> i in from
  {
    from := [];
    if ms != [] {
      var n := |ms| - 1;
      var front := DirectFrom(c, dest, ms[..n]);
      from := front;
      if ms[n].DeleteRecord? || (ms[n].MigrateTable? && !c.noMigrate) {
        from := front + [n];
        OnePosition(front, n);
      }
    }
  }

  /**
   In every state of every run, the migrations and record deletes in a write stream are those of the source messages
   dealt with so far, one each and in the same order; there are no migrations when these are switched off.
   */
  lemma DirectAreTheSources(c: Config, states: seq<State>, steps: seq<Step>, k: nat, d: nat)
    returns (from: seq<nat>, to: seq<nat>)
    requires IsRun(c, states, steps) && k < |states| && d < |c.dests|
    ensures d < |states[k].lanes| && states[k].lanes[d].seen <= |c.src|
    ensures Increasing(from, states[k].lanes[d].seen) && Increasing(to, |states[k].lanes[d].stream|) && |from| == |to|
    ensures forall q :: 0 <= q < |from| ==>
              match c.src[from[q]]
              case MigrateTable(t) =>
                !c.noMigrate && states[k].lanes[d].stream[to[q]] == WriteMigrate(c.dests[d].migrate(t))
              case DeleteRecord(r) => states[k].lanes[d].stream[to[q]] == WriteDelete(c.dests[d].delete(r))
              case _ => false
    ensures forall i: nat :: i < states[k].lanes[d].seen ==>
              (c.src[i].DeleteRecord? || (c.src[i].MigrateTable? && !c.noMigrate)) ==> i in from
    ensures forall j: nat :: j < |states[k].lanes[d].stream| ==>
              states[k].lanes[d].stream[j].WriteMigrate? || states[k].lanes[d].stream[j].WriteDelete? ==> j in to
  {
    DirectKeepsSourceOrder(c, states, steps, k, d);
    from := DirectFrom(c, c.dests[d], c.src[..states[k].lanes[d].seen]);
    to := DirectAt(states[k].lanes[d].stream);
  }

  /** What stands in a list of direct messages before some point stands in the stream there. */
  lemma DirectIsIn(c: Config, dest: Destination, ms: seq<SourceMessage>, ws: seq<WriteMessage>, i: nat)
    requires DirectOf(c, dest, ms) <= Direct(ws) && i < |ms|
    ensures ms[i].MigrateTable? && !c.noMigrate ==> WriteMigrate(dest.migrate(ms[i].table)) in ws
    ensures ms[i].DeleteRecord? ==> WriteDelete(dest.delete(ms[i].request)) in ws
  {
    var from := DirectFrom(c, dest, ms);
    var to := DirectAt(ws);
    if ms[i].DeleteRecord? || (ms[i].MigrateTable? && !c.noMigrate) {
      var q :| 0 <= q < |from| && from[q] == i;
      assert ws[to[q]] == Direct(ws)[q] == DirectOf(c, dest, ms)[q];
    }
  }

  ghost predicate RowsStandAt(ws: seq<WriteMessage>, to: seq<nat>, rows: seq<Bytes>) {
    Increasing(to, |ws|) && |to| == |rows| && forall q :: 0 <= q < |to| ==> ws[to[q]] == WriteInsert(rows[q])
  }

  lemma OneMoreStands(ws: seq<WriteMessage>, to: seq<nat>, rows: seq<Bytes>, w: WriteMessage)
    requires RowsStandAt(ws, to, rows)
    ensures RowsStandAt(ws + [w], to, rows)
    ensures w.WriteInsert? ==> RowsStandAt(ws + [w], to + [|ws|], rows + [w.record])
    ensures forall j: nat :: j in to + [|ws|] <==> j in to || j == |ws|
  {
    OnePosition(to, |ws|);
  }

  /** Where the inserts of a stream stand. */
  lemma {:induction false} InsertsAt(ws: seq<WriteMessage>) returns (to: seq<nat>)
    ensures RowsStandAt(ws, to, Rows(ws))
    ensures forall j: nat :: j < |ws| && ws[j].WriteInsert? ==> j in to
  {
    to := [];
    if ws != [] {
      var n, w := |ws| - 1, ws[|ws| - 1];
      var front := InsertsAt(ws[..n]);
      assert ws == ws[..n] + [w];
      OneMoreStands(ws[..n], front, Rows(ws[..n]), w);
      to := if w.WriteInsert? then front + [n] else front;
    }
  }

  /** Where the inserts of the source stand. */
  lemma {:induction false} InsertsFrom(dest: Destination, ms: seq<SourceMessage>) returns (from: seq<nat>)
    ensures Increasing(from, |ms|) && |from| == |Encoded(dest, ms)|
    ensures forall q :: 0 <= q < |from| ==>
              ms[from[q]].Insert? && Encoded(dest, ms)[q] == dest.encode(ms[from[q]].record)
    ensures forall i: nat :: i < |ms| && ms[i].Insert? ==> i in from
  {
    from := [];
    if ms != [] {
      var n := |ms| - 1;
      var front := InsertsFrom(dest, ms[..n]);
      from := front;
      if ms[n].Insert? {
        from := front + [n];
        OnePosition(front, n);
      }
    }
  }

  /** The rows of a lane are what the chain makes of the first inserts of the source. */
  lemma RowsAreDelivered(c: Config, dest: Destination, lane: Lane, phase: Phase, q: nat)
    requires LaneInv(c, dest, lane, phase) && q < |Rows(lane.stream)|
    ensures |Rows(lane.stream)| <= |Encoded(dest, c.src[..lane.seen])| <= |Encoded(dest, c.src)|
    ensures Encoded(dest, c.src[..lane.seen]) <= Encoded(dest, c.src)
    ensures Rows(lane.stream)[q] == P.Through(Chain(dest), [Encoded(dest, c.src)[q]])[0]
  {
    var fs, sends := Chain(dest), lane.pipe.stages[0].sends;
    P.OutputFrom(fs, lane.pipe, 0);
    assert fs[0..] == fs;
    P.ThroughPrefix(fs, sends, |lane.pipe.output|);
    P.ThroughAt(fs, sends, q);
    PrefixesGrow(c, dest, lane.seen, |c.src|);
    assert c.src[..|c.src|] == c.src;
    assert sends[q] == (sends + lane.pipe.pending)[q] == Encoded(dest, c.src)[q];
  }

  /** The inserts of the source, and where the first of them stand in a write stream. */
  lemma InsertPositions(c: Config, states: seq<State>, steps: seq<Step>, k: nat, d: nat)
    returns (all: seq<nat>, to: seq<nat>)
    requires IsRun(c, states, steps) && k < |states| && d < |c.dests|
    ensures d < |states[k].lanes| && Increasing(to, |states[k].lanes[d].stream|) && Increasing(all, |c.src|)
    ensures |to| == |Rows(states[k].lanes[d].stream)| <= |all| == |Encoded(c.dests[d], c.src)|
    ensures forall q :: 0 <= q < |to| ==>
              && c.src[all[q]].Insert?
              && states[k].lanes[d].stream[to[q]] == WriteInsert(Delivered(c.dests[d], c.src[all[q]].record))
    ensures forall i: nat :: i in all <==> i < |c.src| && c.src[i].Insert?
    ensures forall j: nat :: j < |states[k].lanes[d].stream| && states[k].lanes[d].stream[j].WriteInsert? ==> j in to
  {
    RunInv(c, states, steps, k);
    assert LaneOk(c, states[k], d);
    var lane, dest := states[k].lanes[d], c.dests[d];
    to := InsertsAt(lane.stream);
    all := InsertsFrom(dest, c.src);
    forall q | 0 <= q < |to|
      ensures q < |all| && lane.stream[to[q]] == WriteInsert(Delivered(dest, c.src[all[q]].record))
    {
      RowsAreDelivered(c, dest, lane, states[k].phase, q);
    }
    if |to| > 0 {
      RowsAreDelivered(c, dest, lane, states[k].phase, 0);
    }
  }

  /** What stands in the stream at to[q]: the record of source message from[q], encoded and sent through the chain. */
  ghost predicate AreDelivered(c: Config, dest: Destination, ws: seq<WriteMessage>, from: seq<nat>, to: seq<nat>)
    requires Increasing(from, |c.src|) && Increasing(to, |ws|) && |from| == |to|
  {
    forall q :: 0 <= q < |from| ==>
      && c.src[from[q]].Insert?
      && ws[to[q]] ==
         WriteInsert(P.Along(dest.transforms, dest.encode(c.src[from[q]].record), |dest.transforms|))
  }

  lemma FirstPositions(all: seq<nat>, n: nat, bound: nat)
    requires Increasing(all, bound) && n <= |all|
    ensures Increasing(all[..n], bound)
    ensures forall q, i: nat :: 0 <= q < n && i < all[q] && i in all ==> i in all[..n]
    ensures (forall i: nat :: i in all ==> i in all[..n]) <==> n == |all|
  {
    forall q, i: nat | 0 <= q < n && i < all[q] && i in all ensures i in all[..n] {
      var q' :| 0 <= q' < |all| && all[q'] == i;
      assert all[..n][q'] == i;
    }
    if n < |all| {
      assert all[n] in all && all[n] !in all[..n];
    } else {
      assert all[..n] == all;
    }
  }

  /**
   In every state of every run, the inserts in a write stream are the first inserts of the source, one each and in the
   same order, each encoded and sent through all transformers of the destination, first to last.
   */
  lemma InsertsAreTheSources(c: Config, states: seq<State>, steps: seq<Step>, k: nat, d: nat)
    returns (from: seq<nat>, to: seq<nat>)
    requires IsRun(c, states, steps) && k < |states| && d < |c.dests|
    ensures d < |states[k].lanes| && Increasing(from, |c.src|)
    ensures Increasing(to, |states[k].lanes[d].stream|) && |from| == |to|
    ensures AreDelivered(c, c.dests[d], states[k].lanes[d].stream, from, to)
    ensures forall q, i: nat :: 0 <= q < |from| && i < from[q] && c.src[i].Insert? ==> i in from
    ensures forall j: nat :: j < |states[k].lanes[d].stream| && states[k].lanes[d].stream[j].WriteInsert? ==> j in to
    ensures (forall i: nat :: i < |c.src| && c.src[i].Insert? ==> i in from) <==>
            |Rows(states[k].lanes[d].stream)| == |Encoded(c.dests[d], c.src)|
  {
    var all;
    all, to := InsertPositions(c, states, steps, k, d);
    from := all[..|to|];
    FirstPositions(all, |to|, |c.src|);
    forall q | 0 <= q < |from|
      ensures Delivered(c.dests[d], c.src[from[q]].record) ==
              P.Along(c.dests[d].transforms, c.dests[d].encode(c.src[from[q]].record), |c.dests[d].transforms|)
    {
      DeliveredIsAlong(c.dests[d], c.src[from[q]].record);
    }
  }

  /**
   Every insert in a destination's write stream is one source insert sent through that destination's
   chain, in source order; and every migration and record delete the source sent before it already
   stands before it in the stream, although those bypass the pipeline.
   */
  lemma InsertAfterItsMigrations(c: Config, states: seq<State>, steps: seq<Step>, k: nat, d: nat, j: nat)
    returns (i: nat)
    requires IsRun(c, states, steps) && k < |states| && d < |c.dests| && d < |states[k].lanes|
    requires j < |states[k].lanes[d].stream| && states[k].lanes[d].stream[j].WriteInsert?
    ensures i < |c.src| && c.src[i].Insert?
    ensures |Encoded(c.dests[d], c.src[..i])| == |Rows(states[k].lanes[d].stream[..j])|
    ensures states[k].lanes[d].stream[j].record == Delivered(c.dests[d], c.src[i].record)
    ensures states[k].lanes[d].stream[j].record ==
            P.Along(c.dests[d].transforms, c.dests[d].encode(c.src[i].record), |c.dests[d].transforms|)
    ensures DirectOf(c, c.dests[d], c.src[..i]) <= Direct(states[k].lanes[d].stream[..j])
    ensures forall i' :: 0 <= i' < i && c.src[i'].MigrateTable? && !c.noMigrate ==>
              WriteMigrate(c.dests[d].migrate(c.src[i'].table)) in states[k].lanes[d].stream[..j]
    ensures forall i' :: 0 <= i' < i && c.src[i'].DeleteRecord? ==>
              WriteDelete(c.dests[d].delete(c.src[i'].request)) in states[k].lanes[d].stream[..j]
  {
    var lane, dest := states[k].lanes[d], c.dests[d];
    RunInv(c, states, steps, k);
    assert LaneOk(c, states[k], d) && InOrderAt(c, dest, lane.stream, j);
    var q := |Rows(lane.stream[..j])|;
    i := InsertAt(dest, c.src, q);
    RowsAt(lane.stream, j);
    RowsAreDelivered(c, dest, lane, states[k].phase, q);
    EncodedAt(dest, c.src, q);
    DeliveredIsAlong(dest, c.src[i].record);
    forall i': nat | i' < i
      ensures c.src[i'].MigrateTable? && !c.noMigrate ==>
                WriteMigrate(dest.migrate(c.src[i'].table)) in lane.stream[..j]
      ensures c.src[i'].DeleteRecord? ==> WriteDelete(dest.delete(c.src[i'].request)) in lane.stream[..j]
    {
      DirectIsIn(c, dest, c.src[..i], lane.stream[..j], i');
    }
  }

  /** Migrations and record deletes reach every destination in source order, each exactly once. */
  lemma DirectKeepsSourceOrder(c: Config, states: seq<State>, steps: seq<Step>, k: nat, d: nat)
    requires IsRun(c, states, steps) && k < |states| && d < |c.dests|
    ensures d < |states[k].lanes| && states[k].lanes[d].seen <= |c.src|
    ensures Direct(states[k].lanes[d].stream) == DirectOf(c, c.dests[d], c.src[..states[k].lanes[d].seen])
  {
    RunInv(c, states, steps, k);
    assert LaneOk(c, states[k], d);
  }

  lemma {:induction false} StaleToTheEnd(ws: seq<WriteMessage>, j: nat, j': nat)
    requires StaleLast(ws) && j <= j' < |ws| && ws[j].WriteStale?
    ensures ws[j'].WriteStale?
  {
    if j < j' {
      StaleToTheEnd(ws, j, j' - 1);
    }
  }

  /** Stale deletes are sent only after the join, and nothing but stale deletes follows one. */
  lemma StaleDeletesComeLast(c: Config, states: seq<State>, steps: seq<Step>, k: nat, d: nat, j: nat)
    requires IsRun(c, states, steps) && k < |states| && d < |c.dests| && d < |states[k].lanes|
    requires j < |states[k].lanes[d].stream| && states[k].lanes[d].stream[j].WriteStale?
    ensures states[k].phase == PostJoin
    ensures forall i: nat :: i < |states[k].lanes| ==> P.AllReturned(states[k].lanes[i].pipe)
    ensures forall j': nat :: j <= j' < |states[k].lanes[d].stream| ==> states[k].lanes[d].stream[j'].WriteStale?
  {
    RunInv(c, states, steps, k);
    assert LaneOk(c, states[k], d);
    forall i: nat | i < |states[k].lanes| ensures P.AllReturned(states[k].lanes[i].pipe) {
      assert LaneOk(c, states[k], i);
    }
    forall j': nat | j <= j' < |states[k].lanes[d].stream| ensures states[k].lanes[d].stream[j'].WriteStale? {
      StaleToTheEnd(states[k].lanes[d].stream, j, j');
    }
  }

  /**
   When the sync gets past the join, the source was read to its end and dispatched to every destination;
   a destination then has every insert of the source, in order, exactly when stage 0 of its pipeline was drained.
   */
  lemma JoinedSync(c: Config, states: seq<State>, steps: seq<Step>, k: nat, d: nat)
    requires IsRun(c, states, steps) && k < |states| && d < |c.dests| && states[k].phase == PostJoin
    ensures d < |states[k].lanes| && states[k].lanes[d].seen == |c.src|
    ensures var lane, dest := states[k].lanes[d], c.dests[d];
      var all := P.Through(Chain(dest), Encoded(dest, c.src));
      && Direct(lane.stream) == DirectOf(c, dest, c.src)
      && Rows(lane.stream) <= all
      && (Rows(lane.stream) == all <==> P.Drained(lane.pipe))
  {
    var s := states[k];
    RunInv(c, states, steps, k);
    forall i: nat | i < |c.dests| ensures P.AllReturned(s.lanes[i].pipe) {
      assert LaneOk(c, s, i);
    }
    assert !SomeFailed(s);
    var lane, dest := s.lanes[d], c.dests[d];
    assert LaneOk(c, s, d) && c.src[..lane.seen] == c.src && lane.pipe.pending == [];
    var fs, sends := Chain(dest), lane.pipe.stages[0].sends;
    assert sends + [] == sends;
    P.OutputFrom(fs, lane.pipe, 0);
    assert fs[0..] == fs;
    P.ThroughPrefix(fs, sends, |lane.pipe.output|);
    P.CompleteIffDrained(fs, lane.pipe);
  }

  /** So after the join every insert of the source stands in the stream if and only if stage 0 was drained. */
  lemma JoinedInserts(c: Config, states: seq<State>, steps: seq<Step>, k: nat, d: nat)
    returns (from: seq<nat>, to: seq<nat>)
    requires IsRun(c, states, steps) && k < |states| && d < |c.dests| && states[k].phase == PostJoin
    ensures d < |states[k].lanes| && Increasing(from, |c.src|)
    ensures Increasing(to, |states[k].lanes[d].stream|) && |from| == |to|
    ensures AreDelivered(c, c.dests[d], states[k].lanes[d].stream, from, to)
    ensures forall j: nat :: j < |states[k].lanes[d].stream| && states[k].lanes[d].stream[j].WriteInsert? ==> j in to
    ensures (forall i: nat :: i < |c.src| && c.src[i].Insert? ==> i in from) <==> P.Drained(states[k].lanes[d].pipe)
  {
    from, to := InsertsAreTheSources(c, states, steps, k, d);
    JoinedSync(c, states, steps, k, d);
    var rows, all := Rows(states[k].lanes[d].stream), P.Through(Chain(c.dests[d]), Encoded(c.dests[d], c.src));
    assert rows == all[..|rows|];
    assert |rows| == |all| ==> rows == all;
  }

  // ---------------------------------------------------------------- a sync is never stuck

  ghost predicate AllClosed(s: State) {
    forall d :: 0 <= d < |s.lanes| ==> IsClosed(s.lanes[d])
  }

  lemma StepKeepsClosed(c: Config, s: State, step: Step)
    requires Enabled(c, s, step) && (s.phase.Stopped? || s.phase == PostJoin ==> AllClosed(s))
    ensures var s' := Apply(c, s, step); s'.phase.Stopped? || s'.phase == PostJoin ==> AllClosed(s')
  {
    match step
    case PipeStep(d, ps) =>
      if IsClosed(s.lanes[d]) {
        P.StaysClosed(Chain(c.dests[d]), s.lanes[d].pipe, ps);
      }
    case _ =>
  }

  lemma {:induction false} StoppedIsClosed(c: Config, states: seq<State>, steps: seq<Step>, k: nat)
    requires IsRun(c, states, steps) && k < |states|
    ensures states[k].phase.Stopped? || states[k].phase == PostJoin ==> AllClosed(states[k])
  {
    if k > 0 {
      StoppedIsClosed(c, states, steps, k - 1);
      StepKeepsClosed(c, states[k - 1], steps[k - 1]);
    }
  }

  /** A step in which nothing fails and no send is given up. */
  predicate Forth(step: Step) {
    match step
    case SourceFails => false
    case SendAbandoned => false
    case PipeStep(_, ps) =>
      ps.SendCommit? || ps.Recv? || ps.Forward? || (ps.EofExit? && ps.closeOk) || ps == P.TimeoutExit(0, true)
    case _ => true
  }

  /**
   In every state of every run in which nothing has failed and the join is not reached, some step takes the sync
   further: no send waits for ever, and every closed chain can shut down stage by stage.
   */
  lemma NeverStuck(c: Config, states: seq<State>, steps: seq<Step>, k: nat) returns (step: Step)
    requires IsRun(c, states, steps) && k < |states|
    requires states[k].phase != PostJoin && states[k].phase != Stopped(false) && !SomeFailed(states[k])
    ensures Enabled(c, states[k], step) && Forth(step)
  {
    var s := states[k];
    RunInv(c, states, steps, k);
    StoppedIsClosed(c, states, steps, k);
    match s.phase {
      case Reading =>
        if s.k == |c.src| {
          step := SourceEof;
        } else if s.d == |s.lanes| {
          step := NextMessage;
        } else {
          assert LaneOk(c, s, s.d);
          step := Dispatch;
        }
      case Waiting =>
        assert LaneOk(c, s, s.d);
        step := if s.lanes[s.d].pipe.pending == [] then SendDone else PipeStep(s.d, P.SendCommit(0));
      case Closing(_) =>
        if d :| 0 <= d < |s.lanes| && !IsClosed(s.lanes[d]) {
          assert LaneOk(c, s, d);
          step := ClosePipe(d);
        } else {
          step := StopSource;
        }
      case Stopped(_) =>
        if d :| 0 <= d < |s.lanes| && !P.AllReturned(s.lanes[d].pipe) {
          assert LaneOk(c, s, d) && IsClosed(s.lanes[d]);
          var ps := P.ClosedCanMove(Chain(c.dests[d]), s.lanes[d].pipe);
          step := PipeStep(d, ps);
        } else {
          step := Join;
        }
    }
  }

  /** After the join every destination can be told to clean any table. */
  lemma StaleDeletesGoOn(c: Config, states: seq<State>, steps: seq<Step>, k: nat, d: nat, table: Bytes)
    requires IsRun(c, states, steps) && k < |states| && d < |c.dests| && states[k].phase == PostJoin
    ensures Enabled(c, states[k], StaleDelete(d, table)) && d < |states[k].lanes|
    ensures var after := Apply(c, states[k], StaleDelete(d, table));
      d < |after.lanes| && after.lanes[d].stream == states[k].lanes[d].stream + [WriteStale(table)]
  {
    RunInv(c, states, steps, k);
  }

  /**
   What the source loop does with one message for one destination: an insert waits in the pipeline, unless that is
   closed, which ends the loop; the other messages pass it by.
   */
  lemma DispatchMeans(c: Config, s: State)
    requires Enabled(c, s, Dispatch)
    ensures var m, dest, lane, s' := c.src[s.k], c.dests[s.d], s.lanes[s.d], Apply(c, s, Dispatch);
      && |s'.lanes| == |s.lanes| && s'.k == s.k
      && (forall d :: 0 <= d < |s.lanes| && d != s.d ==> s'.lanes[d] == s.lanes[d])
      && (m.Insert? && lane.pipe.stages[0].isClosed ==> s'.phase == Closing(true) && s'.lanes[s.d] == lane)
      && (m.Insert? && !lane.pipe.stages[0].isClosed ==>
            && s'.phase == Waiting && s'.d == s.d && s'.lanes[s.d].stream == lane.stream
            && s'.lanes[s.d].pipe.stages == lane.pipe.stages
            && s'.lanes[s.d].pipe.pending == lane.pipe.pending + [dest.encode(m.record)])
      && (!m.Insert? ==> s'.phase == Reading && s'.d == s.d + 1 && s'.lanes[s.d].pipe == lane.pipe)
  {
  }

  // ---------------------------------------------------------------- record deletes against inserts

  /**
   A record delete goes straight to the stream. Every insert the source sent before it stands before it there, in order,
   if and only if nothing was on its way through that destination's pipeline.
   */
  lemma DeleteFollowsAllIff(c: Config, states: seq<State>, steps: seq<Step>, k: nat)
    requires IsRun(c, states, steps) && k < |steps| && steps[k] == Dispatch
    requires states[k].k < |c.src| && c.src[states[k].k].DeleteRecord?
    ensures states[k].d < |c.dests| == |states[k].lanes| == |states[k + 1].lanes|
    ensures var s, d := states[k], states[k].d;
      var lane, dest := s.lanes[d], c.dests[d];
      var sent := Encoded(dest, c.src[..s.k]);
      && states[k + 1].lanes[d].stream == lane.stream + [WriteDelete(dest.delete(c.src[s.k].request))]
      && (Rows(lane.stream) == P.Through(Chain(dest), sent) <==> P.PassedOn(lane.pipe, 0))
  {
    var s := states[k];
    assert Enabled(c, s, steps[k]) && states[k + 1] == Apply(c, s, steps[k]);
    var lane, dest := s.lanes[s.d], c.dests[s.d];
    RunInv(c, states, steps, k);
    assert LaneOk(c, s, s.d) && ServedOk(s, s.d);
    var fs, sends := Chain(dest), lane.pipe.stages[0].sends;
    assert sends + [] == sends;
    P.AllOutIffPassedOn(fs, lane.pipe, 0);
    P.OutputFrom(fs, lane.pipe, 0);
    assert fs[0..] == fs;
    if |lane.pipe.output| == |sends| {
      assert sends[..|sends|] == sends;
    }
  }

  // ---------------------------------------------------------------- two runs

  lemma RunExtends(c: Config, states: seq<State>, steps: seq<Step>, step: Step, next: State)
    requires IsRun(c, states, steps) && Enabled(c, states[|steps|], step) && next == Apply(c, states[|steps|], step)
    ensures IsRun(c, states + [next], steps + [step])
  {
  }

  /** A state of a sync with one destination. */
  function Alone(pipe: P.State, stream: seq<WriteMessage>, seen: nat, k: nat, d: nat, phase: Phase): State {
    State([Lane(pipe, stream, seen)], k, d, phase)
  }

  /** Every record is received as soon as its send is accepted, as over a channel that holds nothing. */
  ghost predicate Rendezvous(steps: seq<Step>) {
    forall t, d, k :: 0 <= t < |steps| && steps[t] == PipeStep(d, P.SendCommit(k)) ==>
      t + 1 < |steps| && steps[t + 1] == PipeStep(d, P.Recv(0))
  }

  /** One more step that is not a send to the first client. */
  lemma OneStep(c: Config, states: seq<State>, steps: seq<Step>, step: Step, next: State)
    returns (states': seq<State>, steps': seq<Step>)
    requires IsRun(c, states, steps) && Rendezvous(steps) && forall d, k :: step != PipeStep(d, P.SendCommit(k))
    requires Enabled(c, states[|steps|], step) && Apply(c, states[|steps|], step) == next
    ensures IsRun(c, states', steps') && Rendezvous(steps') && states'[|steps'|] == next
  {
    RunExtends(c, states, steps, step, next);
    states', steps' := states + [next], steps + [step];
  }

  lemma PipeAlone(c: Config, s: State, ps: P.Step, next: P.State)
    requires |c.dests| == |s.lanes| == 1 && |Chain(c.dests[0])| == |s.lanes[0].pipe.stages|
    requires P.Enabled(s.lanes[0].pipe, ps) && !ps.SendCheck? && !ps.Close?
    requires P.Apply(Chain(c.dests[0]), s.lanes[0].pipe, ps) == next && next.output == s.lanes[0].pipe.output
    ensures Enabled(c, s, PipeStep(0, ps))
    ensures Apply(c, s, PipeStep(0, ps)) == s.(lanes := [s.lanes[0].(pipe := next)])
  {
    assert s.lanes[0].stream + [] == s.lanes[0].stream;
  }

  /** One step of the only pipeline that writes nothing. */
  lemma PipeMovesOn(c: Config, s: State, states: seq<State>, steps: seq<Step>, ps: P.Step, next: P.State)
    returns (states': seq<State>, steps': seq<Step>)
    requires IsRun(c, states, steps) && Rendezvous(steps) && states[|steps|] == s && !ps.SendCommit?
    requires |c.dests| == |s.lanes| == 1 && |Chain(c.dests[0])| == |s.lanes[0].pipe.stages|
    requires P.Enabled(s.lanes[0].pipe, ps) && !ps.SendCheck? && !ps.Close?
    requires P.Apply(Chain(c.dests[0]), s.lanes[0].pipe, ps) == next && next.output == s.lanes[0].pipe.output
    ensures IsRun(c, states', steps') && Rendezvous(steps')
    ensures states'[|steps'|] == s.(lanes := [s.lanes[0].(pipe := next)])
  {
    PipeAlone(c, s, ps, next);
    states', steps' := OneStep(c, states, steps, PipeStep(0, ps), s.(lanes := [s.lanes[0].(pipe := next)]));
  }

  /** The first message, an insert, is sent and received. */
  lemma InsertInHand(c: Config, record: Bytes) returns (states: seq<State>, steps: seq<Step>)
    requires |c.dests| == 1 && c.src != [] && c.src[0] == Insert(record)
    ensures var (fs, e) := (Chain(c.dests[0]), c.dests[0].encode(record));
      && IsRun(c, states, steps) && Rendezvous(steps)
      && states[|steps|] == Alone(P.Fresh(fs, P.InHand(fs[0], e)), [], 1, 0, 0, Waiting)
  {
    var fs, e := Chain(c.dests[0]), c.dests[0].encode(record);
    P.TakenInHand(fs, e);
    var start := Alone(P.Init(fs), [], 0, 0, 0, Reading);
    var waiting := Alone(P.Init(fs).(pending := [e]), [], 1, 0, 0, Waiting);
    var sent, taken := P.Fresh(fs, P.NEW_STAGE.(sends := [e])), P.Fresh(fs, P.InHand(fs[0], e));
    assert Init(c).lanes == start.lanes;
    states, steps := [start], [];
    assert Apply(c, start, Dispatch).lanes == waiting.lanes;
    RunExtends(c, states, steps, Dispatch, waiting);
    states, steps := states + [waiting], steps + [Dispatch];
    PipeAlone(c, waiting, P.SendCommit(0), sent);
    RunExtends(c, states, steps, PipeStep(0, P.SendCommit(0)), Alone(sent, [], 1, 0, 0, Waiting));
    states, steps := states + [Alone(sent, [], 1, 0, 0, Waiting)], steps + [PipeStep(0, P.SendCommit(0))];
    PipeAlone(c, Alone(sent, [], 1, 0, 0, Waiting), P.Recv(0), taken);
    RunExtends(c, states, steps, PipeStep(0, P.Recv(0)), Alone(taken, [], 1, 0, 0, Waiting));
    states, steps := states + [Alone(taken, [], 1, 0, 0, Waiting)], steps + [PipeStep(0, P.Recv(0))];
  }

  /** The send returns and the source loop goes on to the next message. */
  lemma GoesOn(c: Config, pipe: P.State, states: seq<State>, steps: seq<Step>)
    returns (states': seq<State>, steps': seq<Step>)
    requires |c.dests| == 1 && c.src != [] && pipe.pending == []
    requires IsRun(c, states, steps) && Rendezvous(steps) && states[|steps|] == Alone(pipe, [], 1, 0, 0, Waiting)
    ensures IsRun(c, states', steps') && Rendezvous(steps') && states'[|steps'|] == Alone(pipe, [], 1, 1, 0, Reading)
  {
    states', steps' := OneStep(c, states, steps, SendDone, Alone(pipe, [], 1, 0, 1, Reading));
    states', steps' := OneStep(c, states', steps', NextMessage, Alone(pipe, [], 1, 1, 0, Reading));
  }

  /**
   For every chain of transformers, a record delete can overtake an insert that the source sent before it: the run
   writes the delete first and then the insert.
   */
  lemma DeleteCanOvertake(c: Config, record: Bytes, request: Bytes, dest: Destination)
    returns (states: seq<State>, steps: seq<Step>)
    requires c.src == [Insert(record), DeleteRecord(request)] && c.dests == [dest]
    ensures IsRun(c, states, steps) && Rendezvous(steps) && |states[|steps|].lanes| == 1
    ensures states[|steps|].lanes[0].stream == [WriteDelete(dest.delete(request)),
      WriteInsert(P.Along(dest.transforms, dest.encode(record), |dest.transforms|))]
  {
    DeliveredIsAlong(dest, record);
    var fs, e := Chain(dest), dest.encode(record);
    var del := [WriteDelete(dest.delete(request))];
    var pipe := P.Carrying(fs, e, 0);
    states, steps := InsertInHand(c, record);
    assert P.Fresh(fs, P.InHand(fs[0], e)) == pipe by {
      assert P.Fresh(fs, P.InHand(fs[0], e)).stages == pipe.stages;
    }
    states, steps := GoesOn(c, pipe, states, steps);
    var overtaken := Alone(pipe, del, 2, 1, 1, Reading);
    assert Apply(c, states[|steps|], Dispatch) == overtaken by {
      assert [] + DirectWrite(c, dest, c.src[1]) == del;
      assert Apply(c, states[|steps|], Dispatch).lanes == overtaken.lanes;
    }
    states, steps := OneStep(c, states, steps, Dispatch, overtaken);
    states, steps := CarryOut(c, e, del, states, steps);
  }

  /** The record in hand goes through the rest of the chain and is written. */
  lemma CarryOut(c: Config, e: Bytes, stream: seq<WriteMessage>, states: seq<State>, steps: seq<Step>)
    returns (states': seq<State>, steps': seq<Step>)
    requires |c.dests| == 1 && IsRun(c, states, steps) && Rendezvous(steps)
    requires states[|steps|] == Alone(P.Carrying(Chain(c.dests[0]), e, 0), stream, 2, 1, 1, Reading)
    ensures IsRun(c, states', steps') && Rendezvous(steps') && |states'[|steps'|].lanes| == 1
    ensures states'[|steps'|].lanes[0].stream == stream + [WriteInsert(P.Through(Chain(c.dests[0]), [e])[0])]
  {
    var fs := Chain(c.dests[0]);
    states', steps' := states, steps;
    var i := 0;
    while i + 1 < |fs|
      invariant i < |fs| && IsRun(c, states', steps') && Rendezvous(steps')
      invariant states'[|steps'|] == Alone(P.Carrying(fs, e, i), stream, 2, 1, 1, Reading)
    {
      states', steps' := CarryStep(c, e, stream, i, states', steps');
      i := i + 1;
    }
    P.CarriedOut(fs, e);
    var s := states'[|steps'|];
    var out := Apply(c, s, PipeStep(0, P.Forward(i)));
    states', steps' := OneStep(c, states', steps', PipeStep(0, P.Forward(i)), out);
  }

  lemma CarryStep(c: Config, e: Bytes, stream: seq<WriteMessage>, i: nat, states: seq<State>, steps: seq<Step>)
    returns (states': seq<State>, steps': seq<Step>)
    requires |c.dests| == 1 && i + 1 < |Chain(c.dests[0])| && IsRun(c, states, steps) && Rendezvous(steps)
    requires states[|steps|] == Alone(P.Carrying(Chain(c.dests[0]), e, i), stream, 2, 1, 1, Reading)
    ensures IsRun(c, states', steps') && Rendezvous(steps')
    ensures states'[|steps'|] == Alone(P.Carrying(Chain(c.dests[0]), e, i + 1), stream, 2, 1, 1, Reading)
  {
    var fs := Chain(c.dests[0]);
    P.CarriedOn(fs, e, i);
    var passed := P.Apply(fs, P.Carrying(fs, e, i), P.Forward(i));
    states', steps' := PipeMovesOn(c, states[|steps|], states, steps, P.Forward(i), passed);
    states', steps' := PipeMovesOn(c, states'[|steps'|], states', steps', P.Recv(i + 1), P.Carrying(fs, e, i + 1));
  }

  /**
   For every chain of transformers there is a sync that gets past its join, so that it succeeds, and has never written
   the one record the source sent.
   */
  lemma SyncCanLoseAnInsert(c: Config, record: Bytes, dest: Destination) returns (states: seq<State>, steps: seq<Step>)
    requires c.src == [Insert(record)] && c.dests == [dest]
    ensures IsRun(c, states, steps) && Rendezvous(steps) && |states[|steps|].lanes| == 1
    ensures states[|steps|].phase == PostJoin && states[|steps|].lanes[0].stream == []
  {
    var fs, e := Chain(dest), dest.encode(record);
    states, steps := InsertInHand(c, record);
    states, steps := GoesOn(c, P.Fresh(fs, P.InHand(fs[0], e)), states, steps);
    states, steps := SourceStops(c, e, states, steps);
    var i := 1;
    while i < |fs|
      invariant 1 <= i <= |fs| && IsRun(c, states, steps) && Rendezvous(steps)
      invariant states[|steps|] == Alone(P.Abandoned(fs, e, i), [], 1, 1, 0, Stopped(true))
    {
      states, steps := AbandonStep(c, e, i, states, steps);
      i := i + 1;
    }
    var joined := Alone(P.Abandoned(fs, e, i), [], 1, 1, 0, PostJoin);
    assert P.AllReturned(P.Abandoned(fs, e, i));
    states, steps := OneStep(c, states, steps, Join, joined);
  }

  /** The source ends, the pipeline is closed, and stage 0 times out with the record in hand. */
  lemma SourceStops(c: Config, e: Bytes, states: seq<State>, steps: seq<Step>)
    returns (states': seq<State>, steps': seq<Step>)
    requires |c.dests| == 1 && |c.src| == 1 && IsRun(c, states, steps) && Rendezvous(steps)
    requires var fs := Chain(c.dests[0]);
      states[|steps|] == Alone(P.Fresh(fs, P.InHand(fs[0], e)), [], 1, 1, 0, Reading)
    ensures IsRun(c, states', steps') && Rendezvous(steps')
    ensures states'[|steps'|] == Alone(P.Abandoned(Chain(c.dests[0]), e, 1), [], 1, 1, 0, Stopped(true))
  {
    var fs := Chain(c.dests[0]);
    var pipe := P.Fresh(fs, P.InHand(fs[0], e));
    var closed := P.CloseFlag(pipe);
    P.TimesOutInHand(fs, e);
    states', steps' := OneStep(c, states, steps, SourceEof, Alone(pipe, [], 1, 1, 0, Closing(true)));
    states', steps' := OneStep(c, states', steps', ClosePipe(0), Alone(closed, [], 1, 1, 0, Closing(true)));
    states', steps' := OneStep(c, states', steps', StopSource, Alone(closed, [], 1, 1, 0, Stopped(true)));
    states', steps' := PipeMovesOn(c, states'[|steps'|], states', steps', P.TimeoutExit(0, true),
        P.Abandoned(fs, e, 1));
  }

  lemma AbandonStep(c: Config, e: Bytes, i: nat, states: seq<State>, steps: seq<Step>)
    returns (states': seq<State>, steps': seq<Step>)
    requires |c.dests| == 1 && 0 < i < |Chain(c.dests[0])| && IsRun(c, states, steps) && Rendezvous(steps)
    requires states[|steps|] == Alone(P.Abandoned(Chain(c.dests[0]), e, i), [], 1, 1, 0, Stopped(true))
    ensures IsRun(c, states', steps') && Rendezvous(steps')
    ensures states'[|steps'|] == Alone(P.Abandoned(Chain(c.dests[0]), e, i + 1), [], 1, 1, 0, Stopped(true))
  {
    var fs := Chain(c.dests[0]);
    P.AbandonedStep(fs, e, i);
    var ended := P.Apply(fs, P.Abandoned(fs, e, i), P.Recv(i));
    states', steps' := PipeMovesOn(c, states[|steps|], states, steps, P.Recv(i), ended);
    states', steps' := PipeMovesOn(c, states'[|steps'|], states', steps', P.EofExit(i, true),
        P.Abandoned(fs, e, i + 1));
  }
}
