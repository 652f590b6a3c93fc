/** The Firehose destination: rows batched by count and size, and batches resent for the records that failed. */
module Firehose {
  import opened Basics

  /** One row as compact JSON. */
  type Record = Bytes

  datatype Spec = Spec(maxRetries: int, maxRecordSize: int, maxBatchRecords: int, maxBatchSize: int)

  /**
   PutRecordBatch fails as a whole, or answers for each record whether it got an id; `failed` are the positions without
   one.
   */
  datatype Response = ServiceError | Answered(failed: set<nat>)

  datatype Call = Call(attempt: nat, batch: seq<Record>, response: Response)

  datatype Error = MaxRetriesReached | PutFailed | MarshalFailed | UnsupportedMessage

  /** A row that cannot be marshalled is None. */
  datatype Message = DeleteStale | MigrateTable | DeleteRecord | WriteInsert(rows: seq<Option<Record>>) | Unsupported

  /** The service's answer to call number k. */
  type Service = (nat, seq<Record>) -> Response

  function SetDefaults(s: Spec): (d: Spec)
    ensures d.maxRetries >= 1 && d.maxRecordSize >= 1 && d.maxBatchRecords >= 1 && d.maxBatchSize >= 1
    ensures d.maxRetries == s.maxRetries || (s.maxRetries < 1 && d.maxRetries == 5)
    ensures d.maxRecordSize == s.maxRecordSize || (s.maxRecordSize < 1 && d.maxRecordSize == 1024000)
    ensures d.maxBatchRecords == s.maxBatchRecords || (s.maxBatchRecords < 1 && d.maxBatchRecords == 500)
    ensures d.maxBatchSize == s.maxBatchSize || (s.maxBatchSize < 1 && d.maxBatchSize == 4194000)
  {
    Spec(if s.maxRetries < 1 then 5 else s.maxRetries,
         if s.maxRecordSize < 1 then 1024000 else s.maxRecordSize,
         if s.maxBatchRecords < 1 then 500 else s.maxBatchRecords,
         if s.maxBatchSize < 1 then 4194000 else s.maxBatchSize)
  }

  // ---------------------------------------------------------------- one batch with retries

  /** The records that got no id, in order. */
  function Failing(batch: seq<Record>, failed: set<nat>): seq<Record> {
    if batch == [] then []
    else
      var n := |batch| - 1;
      Failing(batch[..n], failed) + if n in failed then [batch[n]] else []
  }

  /** The records that got an id, in order. */
  function Acknowledged(batch: seq<Record>, failed: set<nat>): seq<Record> {
    if batch == [] then []
    else
      var n := |batch| - 1;
      Acknowledged(batch[..n], failed) + if n in failed then [] else [batch[n]]
  }

  function TotalSize(rs: seq<Record>): nat {
    if rs == [] then 0 else TotalSize(rs[..|rs| - 1]) + |rs[|rs| - 1]|
  }

  /** The calls sendBatch makes; `k` calls have been made before. */
  function Calls(spec: Spec, service: Service, k: nat, batch: seq<Record>, count: nat): seq<Call>
    decreases spec.maxRetries - count
  {
    if count >= spec.maxRetries || batch == [] then []
    else
      var response := service(k, batch);
      [Call(count, batch, response)] +
      if response.ServiceError? then []
      else Calls(spec, service, k + 1, Failing(batch, response.failed), count + 1)
  }

  /** What sendBatch returns. */
  function Outcome(spec: Spec, service: Service, k: nat, batch: seq<Record>, count: nat): Option<Error>
    decreases spec.maxRetries - count
  {
    if count >= spec.maxRetries then Some(MaxRetriesReached)
    else if batch == [] then None
    else
      var response := service(k, batch);
      if response.ServiceError? then Some(PutFailed)
      else Outcome(spec, service, k + 1, Failing(batch, response.failed), count + 1)
  }

  /** The records still failing after n calls, unless a call failed as a whole. */
  function FailingAfter(service: Service, k: nat, batch: seq<Record>, n: nat): Option<seq<Record>>
    decreases n
  {
    if n == 0 || batch == [] then Some(batch)
    else
      var response := service(k, batch);
      if response.ServiceError? then None
      else FailingAfter(service, k + 1, Failing(batch, response.failed), n - 1)
  }

  /** The records acknowledged in a log of calls, each as often as it was. */
  function Acked(calls: seq<Call>): multiset<Record> {
    if calls == [] then multiset{}
    else
      var last := calls[|calls| - 1];
      Acked(calls[..|calls| - 1]) +
      if last.response.Answered? then multiset(Acknowledged(last.batch, last.response.failed)) else multiset{}
  }

  /** The batches of the first attempts in a log of calls. */
  function FirstBatches(calls: seq<Call>): seq<seq<Record>> {
    if calls == [] then []
    else
      FirstBatches(calls[..|calls| - 1]) + if calls[|calls| - 1].attempt == 0 then [calls[|calls| - 1].batch] else []
  }

  lemma {:induction false} AckedConcat(a: seq<Call>, b: seq<Call>)
    ensures Acked(a + b) == Acked(a) + Acked(b)
    ensures FirstBatches(a + b) == FirstBatches(a) + FirstBatches(b)
  {
    if b == [] {
      assert a + b == a;
    } else {
      assert (a + b)[..|a + b| - 1] == a + b[..|b| - 1];
      AckedConcat(a, b[..|b| - 1]);
    }
  }

  /** Every record of a batch is either acknowledged or failing. */
  lemma {:induction false} AnswersPartition(batch: seq<Record>, failed: set<nat>)
    ensures multiset(Acknowledged(batch, failed)) + multiset(Failing(batch, failed)) == multiset(batch)
  {
    if batch != [] {
      var n := |batch| - 1;
      AnswersPartition(batch[..n], failed);
      assert batch == batch[..n] + [batch[n]];
      assert multiset(batch) == multiset(batch[..n]) + multiset{batch[n]};
    }
  }

  /** The records to send again are those at the positions without an id, one each and in order. */
  lemma {:induction false} FailingAt(batch: seq<Record>, failed: set<nat>) returns (at: seq<nat>)
    ensures Picks(batch, at, Failing(batch, failed))
    ensures forall i: nat :: i in at <==> i < |batch| && i in failed
  {
    at := [];
    if batch != [] {
      var n := |batch| - 1;
      var front := FailingAt(batch[..n], failed);
      assert batch == batch[..n] + [batch[n]];
      PicksMore(batch[..n], front, Failing(batch[..n], failed), batch[n]);
      at := if n in failed then front + [n] else front;
    }
  }

  /** The positions of a call's batch at which this record got an id. */
  ghost function AckedAt(batch: seq<Record>, failed: set<nat>, r: Record): set<nat> {
    set i: nat | i < |batch| && i !in failed && batch[i] == r
  }

  ghost function AckedIn(call: Call, r: Record): set<nat> {
    if call.response.Answered? then AckedAt(call.batch, call.response.failed, r) else {}
  }

  /** Where in a log of calls this record got an id. */
  ghost function AckPlaces(calls: seq<Call>, r: Record): set<(nat, nat)> {
    set k: nat, i: nat | k < |calls| && i in AckedIn(calls[k], r) :: (k, i)
  }

  lemma AckedAtSnoc(batch: seq<Record>, failed: set<nat>, r: Record)
    requires batch != []
    ensures var n := |batch| - 1;
      |AckedAt(batch, failed, r)| ==
      |AckedAt(batch[..n], failed, r)| + if n !in failed && batch[n] == r then 1 else 0
  {
    var n := |batch| - 1;
    var front := AckedAt(batch[..n], failed, r);
    assert AckedAt(batch, failed, r) == front + if n !in failed && batch[n] == r then {n} else {};
    assert n !in front;
  }

  lemma {:induction false} AckedAtCounts(batch: seq<Record>, failed: set<nat>, r: Record)
    ensures multiset(Acknowledged(batch, failed))[r] == |AckedAt(batch, failed, r)|
  {
    if batch != [] {
      var n := |batch| - 1;
      AckedAtCounts(batch[..n], failed, r);
      AckedAtSnoc(batch, failed, r);
      assert multiset(Acknowledged(batch, failed)) ==
          multiset(Acknowledged(batch[..n], failed)) + if n in failed then multiset{} else multiset{batch[n]};
    } else {
      assert AckedAt(batch, failed, r) == {};
    }
  }

  /** As many pairs with first component k as there are second components. */
  lemma {:induction false} PairsWith(k: nat, js: set<nat>)
    ensures |set j: nat | j in js :: (k, j)| == |js|
  {
    var pairs := set j: nat | j in js :: (k, j);
    if js == {} {
      assert pairs == {};
    } else {
      var j :| j in js;
      PairsWith(k, js - {j});
      var others := set i: nat | i in js - {j} :: (k, i);
      assert pairs == others + {(k, j)} && (k, j) !in others;
    }
  }

  lemma AckPlacesSnoc(calls: seq<Call>, r: Record)
    requires calls != []
    ensures |AckPlaces(calls, r)| == |AckPlaces(calls[..|calls| - 1], r)| + |AckedIn(calls[|calls| - 1], r)|
  {
    var n := |calls| - 1;
    var here := AckedIn(calls[n], r);
    PairsWith(n, here);
    var pairs := set i: nat | i in here :: (n, i);
    var front := AckPlaces(calls[..n], r);
    forall k: nat, i: nat ensures (k, i) in AckPlaces(calls, r) <==> (k, i) in front + pairs {
    }
    assert AckPlaces(calls, r) == front + pairs;
    assert front !! pairs;
  }

  /** A log acknowledges a record as often as there are places in it at which the record got an id. */
  lemma {:induction false} AckedCounts(calls: seq<Call>, r: Record)
    ensures Acked(calls)[r] == |AckPlaces(calls, r)|
  {
    if calls == [] {
      assert AckPlaces(calls, r) == {};
    } else {
      var n, last := |calls| - 1, calls[|calls| - 1];
      AckedCounts(calls[..n], r);
      AckPlacesSnoc(calls, r);
      if last.response.Answered? {
        AckedAtCounts(last.batch, last.response.failed, r);
      }
    }
  }

  /** The failing records are no more, no larger and no others than the batch. */
  lemma {:induction false} FailingIsSmaller(batch: seq<Record>, failed: set<nat>)
    ensures |Failing(batch, failed)| <= |batch| && TotalSize(Failing(batch, failed)) <= TotalSize(batch)
    ensures forall r :: r in Failing(batch, failed) ==> r in batch
  {
    if batch != [] {
      var n := |batch| - 1;
      FailingIsSmaller(batch[..n], failed);
      var rest := Failing(batch[..n], failed);
      assert rest + [] == rest;
      assert batch == batch[..n] + [batch[n]];
    }
  }

  lemma FirstCall(call: Call, more: seq<Call>)
    ensures FirstBatches([call] + more) == (if call.attempt == 0 then [call.batch] else []) + FirstBatches(more)
    ensures Acked([call] + more) ==
            (if call.response.Answered? then multiset(Acknowledged(call.batch, call.response.failed))
              else multiset{}) + Acked(more)
  {
    assert [call][..0] == [];
    AckedConcat([call], more);
  }

  /** sendBatch calls the service at most MaxRetries times, counting its attempts. */
  lemma {:induction false} SendIsBounded(spec: Spec, service: Service, k: nat, batch: seq<Record>, count: nat)
    requires count <= spec.maxRetries
    ensures var calls := Calls(spec, service, k, batch, count);
      |calls| <= spec.maxRetries - count && forall i :: 0 <= i < |calls| ==> calls[i].attempt == count + i
    decreases spec.maxRetries - count
  {
    if count < spec.maxRetries && batch != [] && service(k, batch).Answered? {
      SendIsBounded(spec, service, k + 1, Failing(batch, service(k, batch).failed), count + 1);
    }
  }

  lemma {:induction false} RetriesAreNotFirst(calls: seq<Call>)
    requires forall i :: 0 <= i < |calls| ==> calls[i].attempt > 0
    ensures FirstBatches(calls) == []
  {
    if calls != [] {
      RetriesAreNotFirst(calls[..|calls| - 1]);
    }
  }

  /** The first attempt carries the whole batch. */
  lemma SendFirst(spec: Spec, service: Service, k: nat, batch: seq<Record>)
    requires spec.maxRetries >= 1
    ensures FirstBatches(Calls(spec, service, k, batch, 0)) == if batch == [] then [] else [batch]
  {
    if batch != [] {
      var calls := Calls(spec, service, k, batch, 0);
      SendIsBounded(spec, service, k, batch, 0);
      FirstCall(calls[0], calls[1..]);
      assert calls == [calls[0]] + calls[1..];
      RetriesAreNotFirst(calls[1..]);
    }
  }

  /** What a call may carry: at least one and at most MaxBatchRecords records, each within MaxRecordSizeBytes, and at
      most MaxBatchSizeBytes bytes unless it is a single record. */
  ghost predicate BatchOk(spec: Spec, batch: seq<Record>) {
    && 1 <= |batch| <= spec.maxBatchRecords
    && (forall i :: 0 <= i < |batch| ==> |batch[i]| <= spec.maxRecordSize)
    && (TotalSize(batch) <= spec.maxBatchSize || |batch| == 1)
  }

  lemma FailingOk(spec: Spec, batch: seq<Record>, failed: set<nat>)
    requires BatchOk(spec, batch)
    ensures Failing(batch, failed) == [] || BatchOk(spec, Failing(batch, failed))
  {
    FailingIsSmaller(batch, failed);
    forall i | 0 <= i < |Failing(batch, failed)| ensures |Failing(batch, failed)[i]| <= spec.maxRecordSize {
      assert Failing(batch, failed)[i] in batch;
    }
  }

  /** Retries stay within the bounds their batch was within. */
  lemma {:induction false} RetriesAreWithinBounds(spec: Spec, service: Service, k: nat, batch: seq<Record>, count: nat)
    requires batch == [] || BatchOk(spec, batch)
    ensures forall c :: c in Calls(spec, service, k, batch, count) ==> BatchOk(spec, c.batch)
    decreases spec.maxRetries - count
  {
    if count < spec.maxRetries && batch != [] {
      var response := service(k, batch);
      if response.Answered? {
        FailingOk(spec, batch, response.failed);
        RetriesAreWithinBounds(spec, service, k + 1, Failing(batch, response.failed), count + 1);
      }
    }
  }

  /**
   The calls of sendBatch: the first sends the batch, each later one what the one before left without an id, and the
   service answers call after call. They end when a call fails as a whole, nothing is left, or MaxRetries is reached.
   */
  ghost predicate Chained(spec: Spec, service: Service, k: nat, batch: seq<Record>, count: nat, calls: seq<Call>) {
    && calls != [] && calls[0].batch == batch
    && (forall i :: 0 <= i < |calls| ==> CallIs(service, k, count, calls, i))
    && (forall i :: 0 <= i < |calls| - 1 ==> Resends(calls[i], calls[i + 1]))
    && (Ends(calls[|calls| - 1]) || count + |calls| == spec.maxRetries)
  }

  ghost predicate CallIs(service: Service, k: nat, count: nat, calls: seq<Call>, i: nat)
    requires i < |calls|
  {
    calls[i].attempt == count + i && calls[i].response == service(k + i, calls[i].batch)
  }

  ghost predicate Resends(call: Call, next: Call) {
    call.response.Answered? && next.batch == Failing(call.batch, call.response.failed) != []
  }

  ghost predicate Ends(call: Call) {
    call.response.ServiceError? || Failing(call.batch, call.response.failed) == []
  }

  lemma ChainedFrom(spec: Spec, service: Service, k: nat, count: nat, call: Call, more: seq<Call>)
    requires call.attempt == count && call.response == service(k, call.batch) && call.response.Answered?
    requires Chained(spec, service, k + 1, Failing(call.batch, call.response.failed), count + 1, more)
    requires Failing(call.batch, call.response.failed) != []
    ensures Chained(spec, service, k, call.batch, count, [call] + more)
  {
    var calls := [call] + more;
    forall i | 0 <= i < |calls| ensures CallIs(service, k, count, calls, i) {
      assert i > 0 ==> CallIs(service, k + 1, count + 1, more, i - 1);
    }
    forall i | 0 <= i < |calls| - 1 ensures Resends(calls[i], calls[i + 1]) {
      assert i > 0 ==> Resends(more[i - 1], more[i]);
    }
  }

  /** sendBatch makes such calls; it returns nil when nothing is left and MaxRetries is not reached. */
  lemma {:induction false} CallsAreAChain(spec: Spec, service: Service, k: nat, batch: seq<Record>, count: nat)
    requires count < spec.maxRetries && batch != []
    ensures Chained(spec, service, k, batch, count, Calls(spec, service, k, batch, count))
    ensures var calls := Calls(spec, service, k, batch, count);
      Outcome(spec, service, k, batch, count) ==
      if calls[|calls| - 1].response.ServiceError? then Some(PutFailed)
      else if count + |calls| == spec.maxRetries then Some(MaxRetriesReached) else None
    decreases spec.maxRetries - count
  {
    var response := service(k, batch);
    if response.Answered? && count + 1 < spec.maxRetries && Failing(batch, response.failed) != [] {
      var failing := Failing(batch, response.failed);
      CallsAreAChain(spec, service, k + 1, failing, count + 1);
      ChainedFrom(spec, service, k, count, Call(count, batch, response),
                  Calls(spec, service, k + 1, failing, count + 1));
    } else {
      assert Calls(spec, service, k, batch, count) == [Call(count, batch, response)];
    }
  }

  /** Every record sent is acknowledged once or is still failing; when sendBatch returns nil, none is failing. */
  lemma {:induction false} SendConserves(spec: Spec, service: Service, k: nat, batch: seq<Record>, count: nat)
    ensures Acked(Calls(spec, service, k, batch, count)) <= multiset(batch)
    ensures Outcome(spec, service, k, batch, count).None? ==>
              Acked(Calls(spec, service, k, batch, count)) == multiset(batch)
    decreases spec.maxRetries - count
  {
    if count < spec.maxRetries && batch != [] {
      var response := service(k, batch);
      if response.ServiceError? {
        FirstCall(Call(count, batch, response), []);
      } else {
        var failing := Failing(batch, response.failed);
        FirstCall(Call(count, batch, response), Calls(spec, service, k + 1, failing, count + 1));
        SendConserves(spec, service, k + 1, failing, count + 1);
        AnswersPartition(batch, response.failed);
      }
    }
  }

  /** Nothing is failing any more after n calls, none of which failed as a whole. */
  predicate ClearedBy(service: Service, k: nat, batch: seq<Record>, n: nat) {
    FailingAfter(service, k, batch, n) == Some([])
  }

  lemma ClearedByUnfolds(service: Service, k: nat, batch: seq<Record>, n: nat)
    requires batch != []
    ensures !ClearedBy(service, k, batch, 0)
    ensures ClearedBy(service, k, batch, n + 1) <==>
            service(k, batch).Answered? && ClearedBy(service, k + 1, Failing(batch, service(k, batch).failed), n)
  {
  }

  /**
   sendBatch returns nil exactly when no call fails as a whole and nothing is failing any more after
   fewer than MaxRetries calls.
   */
  lemma {:induction false} SendSucceedsIff(spec: Spec, service: Service, k: nat, batch: seq<Record>, count: nat)
    requires count <= spec.maxRetries
    ensures Outcome(spec, service, k, batch, count) == None <==>
            exists n: nat :: n < spec.maxRetries - count && ClearedBy(service, k, batch, n)
    decreases spec.maxRetries - count
  {
    if count < spec.maxRetries && batch == [] {
      assert ClearedBy(service, k, batch, 0);
    } else if count < spec.maxRetries {
      var response := service(k, batch);
      var failing := if response.Answered? then Failing(batch, response.failed) else [];
      var next := k + 1;
      SendSucceedsIff(spec, service, next, failing, count + 1);
      if n: nat :| n < spec.maxRetries - count - 1 && ClearedBy(service, next, failing, n) {
        ClearedByUnfolds(service, k, batch, n);
      }
      if n: nat :| n < spec.maxRetries - count && ClearedBy(service, k, batch, n) {
        ClearedByUnfolds(service, k, batch, 0);
        ClearedByUnfolds(service, k, batch, n - 1);
      }
    }
  }

  /** With MaxRetries 1 even a batch acknowledged in full at once is reported as failed. */
  lemma OneRetryNeverSucceeds(spec: Spec, service: Service, k: nat, batch: seq<Record>)
    requires spec.maxRetries == 1 && batch != []
    ensures Outcome(spec, service, k, batch, 0).Some?
  {
  }

  // ---------------------------------------------------------------- batching

  /** The records of the messages, in order, up to the first message or row that stops Write. */
  function RowsKept(spec: Spec, rows: seq<Option<Record>>): seq<Record> {
    if rows == [] || rows[0].None? then []
    else (if |rows[0].value| > spec.maxRecordSize then [] else [rows[0].value]) + RowsKept(spec, rows[1..])
  }

  predicate AllMarshal(rows: seq<Option<Record>>) {
    forall i :: 0 <= i < |rows| ==> rows[i].Some?
  }

  predicate Handled(m: Message) {
    !m.Unsupported? && (m.WriteInsert? ==> AllMarshal(m.rows))
  }

  predicate AllHandled(ms: seq<Message>) {
    forall i :: 0 <= i < |ms| ==> Handled(ms[i])
  }

  function Kept(spec: Spec, ms: seq<Message>): seq<Record> {
    if ms == [] then []
    else
      var m := ms[0];
      (if m.WriteInsert? then RowsKept(spec, m.rows) else []) + if Handled(m) then Kept(spec, ms[1..]) else []
  }

  /** The batches completed, and the one being filled, after the records ks. */
  datatype Filling = Filling(done: seq<seq<Record>>, open: seq<Record>)

  /** Close the open batch. */
  function Flushed(f: Filling): Filling {
    if f.open == [] then f else Filling(f.done + [f.open], [])
  }

  /** If the record would exceed the batch size, the open batch is closed first. */
  function Room(spec: Spec, f: Filling, r: Record): Filling {
    if |r| + TotalSize(f.open) > spec.maxBatchSize then Flushed(f) else f
  }

  function AddRecord(spec: Spec, f: Filling, r: Record): Filling {
    var room := Room(spec, f, r);
    var added := room.(open := room.open + [r]);
    if |added.open| >= spec.maxBatchRecords then Flushed(added) else added
  }

  function Fill(spec: Spec, ks: seq<Record>): Filling {
    if ks == [] then Filling([], []) else AddRecord(spec, Fill(spec, ks[..|ks| - 1]), ks[|ks| - 1])
  }

  /** The batches Write makes of the kept records. */
  function Batches(spec: Spec, ks: seq<Record>): seq<seq<Record>> {
    Flushed(Fill(spec, ks)).done
  }

  lemma FlushedKeeps(f: Filling)
    ensures Flatten(Flushed(f).done) + Flushed(f).open == Flatten(f.done) + f.open
  {
    if f.open != [] {
      FlattenSnoc(f.done, f.open);
    }
  }

  ghost predicate AllSmall(spec: Spec, ks: seq<Record>) {
    forall i :: 0 <= i < |ks| ==> |ks[i]| <= spec.maxRecordSize
  }

  ghost predicate FillingOk(spec: Spec, f: Filling) {
    && (forall i :: 0 <= i < |f.done| ==> BatchOk(spec, f.done[i]))
    && (f.open == [] || BatchOk(spec, f.open))
    && |f.open| < spec.maxBatchRecords
  }

  /** A batch is closed only when it is full or the next record does not fit any more. */
  ghost predicate Maximal(spec: Spec, batch: seq<Record>, next: seq<Record>) {
    next != [] && (|batch| == spec.maxBatchRecords || TotalSize(batch) + |next[0]| > spec.maxBatchSize)
  }

  ghost predicate AllMaximal(spec: Spec, f: Filling) {
    && (forall i :: 0 <= i < |f.done| - 1 ==> Maximal(spec, f.done[i], f.done[i + 1]))
    && (f.done != [] ==>
          if f.open == [] then |f.done[|f.done| - 1]| == spec.maxBatchRecords
          else Maximal(spec, f.done[|f.done| - 1], f.open))
  }

  lemma RoomOk(spec: Spec, f: Filling, r: Record)
    requires spec.maxBatchRecords >= 1 && FillingOk(spec, f) && |r| <= spec.maxRecordSize
    ensures var room := Room(spec, f, r);
      FillingOk(spec, room) && BatchOk(spec, room.open + [r])
  {
    var room := Room(spec, f, r);
  }

  lemma AddRecordOk(spec: Spec, f: Filling, r: Record)
    requires spec.maxBatchRecords >= 1 && FillingOk(spec, f) && |r| <= spec.maxRecordSize
    ensures FillingOk(spec, AddRecord(spec, f, r))
    ensures Flatten(AddRecord(spec, f, r).done) + AddRecord(spec, f, r).open == Flatten(f.done) + f.open + [r]
  {
    var room := Room(spec, f, r);
    var added := room.(open := room.open + [r]);
    RoomOk(spec, f, r);
    FlushedKeeps(f);
    FlushedKeeps(added);
  }

  lemma AddRecordMaximal(spec: Spec, f: Filling, r: Record)
    requires spec.maxBatchRecords >= 1 && FillingOk(spec, f) && AllMaximal(spec, f)
    ensures AllMaximal(spec, AddRecord(spec, f, r))
  {
    var room := Room(spec, f, r);
    var added := room.(open := room.open + [r]);
    assert AllMaximal(spec, added);
  }

  lemma {:induction false} FillIsOk(spec: Spec, ks: seq<Record>)
    requires spec.maxBatchRecords >= 1 && AllSmall(spec, ks)
    ensures FillingOk(spec, Fill(spec, ks)) && Flatten(Fill(spec, ks).done) + Fill(spec, ks).open == ks
  {
    if ks != [] {
      var front, r := ks[..|ks| - 1], ks[|ks| - 1];
      FillIsOk(spec, front);
      AddRecordOk(spec, Fill(spec, front), r);
      assert ks == front + [r];
    }
  }

  lemma {:induction false} FillIsMaximal(spec: Spec, ks: seq<Record>)
    requires spec.maxBatchRecords >= 1 && AllSmall(spec, ks)
    ensures AllMaximal(spec, Fill(spec, ks))
  {
    if ks != [] {
      var front := ks[..|ks| - 1];
      FillIsOk(spec, front);
      FillIsMaximal(spec, front);
      AddRecordMaximal(spec, Fill(spec, front), ks[|ks| - 1]);
    }
  }

  lemma BatchesOk(spec: Spec, ks: seq<Record>)
    requires spec.maxBatchRecords >= 1 && AllSmall(spec, ks)
    ensures Flatten(Batches(spec, ks)) == ks
    ensures forall i :: 0 <= i < |Batches(spec, ks)| ==> BatchOk(spec, Batches(spec, ks)[i])
  {
    FillIsOk(spec, ks);
    FlushedKeeps(Fill(spec, ks));
    assert Flatten(Batches(spec, ks)) + [] == Flatten(Batches(spec, ks));
  }

  /** The batches are the kept records cut in order, every one within bounds and none closed early. */
  lemma BatchesAreGreedy(spec: Spec, ks: seq<Record>)
    requires spec.maxBatchRecords >= 1 && AllSmall(spec, ks)
    ensures var bs := Batches(spec, ks);
      && Flatten(bs) == ks
      && (forall i :: 0 <= i < |bs| ==> BatchOk(spec, bs[i]))
      && (forall i :: 0 <= i < |bs| - 1 ==> Maximal(spec, bs[i], bs[i + 1]))
  {
    BatchesOk(spec, ks);
    FillIsMaximal(spec, ks);
  }

  lemma {:induction false} RowsKeptAreSmall(spec: Spec, rows: seq<Option<Record>>)
    ensures AllSmall(spec, RowsKept(spec, rows))
  {
    if !(rows == [] || rows[0].None?) {
      RowsKeptAreSmall(spec, rows[1..]);
    }
  }

  lemma {:induction false} KeptAreSmall(spec: Spec, ms: seq<Message>)
    ensures AllSmall(spec, Kept(spec, ms))
  {
    if ms != [] {
      KeptAreSmall(spec, ms[1..]);
      if ms[0].WriteInsert? {
        RowsKeptAreSmall(spec, ms[0].rows);
      }
    }
  }

  /** Where this record stands among the rows of a message. */
  ghost function RowPlaces(rows: seq<Option<Record>>, r: Record): set<nat> {
    set j: nat | j < |rows| && rows[j] == Some(r)
  }

  ghost function PlacesIn(m: Message, r: Record): set<nat> {
    if m.WriteInsert? then RowPlaces(m.rows, r) else {}
  }

  /** Where this record stands among the rows of the messages. */
  ghost function Places(ms: seq<Message>, r: Record): set<(nat, nat)> {
    set i: nat, j: nat | i < |ms| && j in PlacesIn(ms[i], r) :: (i, j)
  }

  lemma {:induction false} RowsKeptSnoc(spec: Spec, rows: seq<Option<Record>>, row: Option<Record>)
    ensures RowsKept(spec, rows + [row]) ==
            RowsKept(spec, rows) +
            if AllMarshal(rows) && row.Some? && |row.value| <= spec.maxRecordSize then [row.value] else []
    decreases rows
  {
    var all := rows + [row];
    if rows == [] {
      assert all[0] == row && all[1..] == [];
    } else {
      assert all[0] == rows[0] && all[1..] == rows[1..] + [row];
      RowsKeptSnoc(spec, rows[1..], row);
      assert rows[0].Some? ==> (AllMarshal(rows) <==> AllMarshal(rows[1..])) by {
        assert forall i :: 0 < i < |rows| ==> rows[i] == rows[1..][i - 1];
      }
    }
  }

  lemma {:induction false} KeptSnoc(spec: Spec, ms: seq<Message>, m: Message)
    ensures Kept(spec, ms + [m]) ==
            Kept(spec, ms) + if AllHandled(ms) && m.WriteInsert? then RowsKept(spec, m.rows) else []
    decreases ms
  {
    var all := ms + [m];
    if ms == [] {
      assert all[0] == m && all[1..] == [];
    } else {
      assert all[0] == ms[0] && all[1..] == ms[1..] + [m];
      KeptSnoc(spec, ms[1..], m);
      assert Handled(ms[0]) ==> (AllHandled(ms) <==> AllHandled(ms[1..])) by {
        assert forall i :: 0 < i < |ms| ==> ms[i] == ms[1..][i - 1];
      }
    }
  }

  lemma RowPlacesSnoc(rows: seq<Option<Record>>, r: Record)
    requires rows != []
    ensures |RowPlaces(rows, r)| ==
            |RowPlaces(rows[..|rows| - 1], r)| + if rows[|rows| - 1] == Some(r) then 1 else 0
  {
    var n := |rows| - 1;
    var front := RowPlaces(rows[..n], r);
    assert RowPlaces(rows, r) == front + if rows[n] == Some(r) then {n} else {};
    assert n !in front;
  }

  lemma PlacesSnoc(ms: seq<Message>, r: Record)
    requires ms != []
    ensures var n := |ms| - 1;
      |Places(ms, r)| == |Places(ms[..n], r)| + |PlacesIn(ms[n], r)|
  {
    var n := |ms| - 1;
    var here := PlacesIn(ms[n], r);
    PairsWith(n, here);
    var pairs := set j: nat | j in here :: (n, j);
    var front := Places(ms[..n], r);
    forall i: nat, j: nat ensures (i, j) in Places(ms, r) <==> (i, j) in front + pairs {
    }
    assert Places(ms, r) == front + pairs;
    assert front !! pairs;
  }

  lemma {:induction false} RowsKeptCount(spec: Spec, rows: seq<Option<Record>>, r: Record)
    ensures multiset(RowsKept(spec, rows))[r] <= |RowPlaces(rows, r)|
    ensures |r| > spec.maxRecordSize ==> multiset(RowsKept(spec, rows))[r] == 0
    ensures AllMarshal(rows) && |r| <= spec.maxRecordSize ==> multiset(RowsKept(spec, rows))[r] == |RowPlaces(rows, r)|
  {
    if rows == [] {
      assert RowPlaces(rows, r) == {};
    } else {
      var n := |rows| - 1;
      RowsKeptCount(spec, rows[..n], r);
      assert rows == rows[..n] + [rows[n]];
      RowsKeptSnoc(spec, rows[..n], rows[n]);
      RowPlacesSnoc(rows, r);
      assert AllMarshal(rows) <==> AllMarshal(rows[..n]) && rows[n].Some?;
    }
  }

  /**
   When all messages are handled, every row within MaxRecordSizeBytes is kept once and no other; when one is not,
   no row is kept more often than it stands there.
   */
  lemma {:induction false} KeptCount(spec: Spec, ms: seq<Message>, r: Record)
    ensures multiset(Kept(spec, ms))[r] <= |Places(ms, r)|
    ensures |r| > spec.maxRecordSize ==> multiset(Kept(spec, ms))[r] == 0
    ensures AllHandled(ms) && |r| <= spec.maxRecordSize ==> multiset(Kept(spec, ms))[r] == |Places(ms, r)|
  {
    if ms == [] {
      assert Places(ms, r) == {};
    } else {
      var front, m := ms[..|ms| - 1], ms[|ms| - 1];
      KeptCount(spec, front, r);
      assert ms == front + [m];
      KeptSnoc(spec, front, m);
      PlacesSnoc(ms, r);
      AllHandledSnoc(front, m);
      if m.WriteInsert? {
        RowsKeptCount(spec, m.rows, r);
        assert multiset(Kept(spec, front) + RowsKept(spec, m.rows)) ==
            multiset(Kept(spec, front)) + multiset(RowsKept(spec, m.rows));
      }
    }
  }

  lemma AllHandledSnoc(ms: seq<Message>, m: Message)
    ensures AllHandled(ms + [m]) <==> AllHandled(ms) && Handled(m)
  {
    assert AllHandled(ms + [m]) ==> Handled((ms + [m])[|ms|]);
    assert forall i :: 0 <= i < |ms| ==> (ms + [m])[i] == ms[i];
  }

  /** Adding records one after the other. */
  function FillFrom(spec: Spec, f: Filling, ks: seq<Record>): Filling
    decreases ks
  {
    if ks == [] then f else FillFrom(spec, AddRecord(spec, f, ks[0]), ks[1..])
  }

  lemma {:induction false} FillFromConcat(spec: Spec, f: Filling, a: seq<Record>, b: seq<Record>)
    ensures FillFrom(spec, f, a + b) == FillFrom(spec, FillFrom(spec, f, a), b)
    decreases a
  {
    if a == [] {
      assert a + b == b;
    } else {
      assert (a + b)[1..] == a[1..] + b;
      FillFromConcat(spec, AddRecord(spec, f, a[0]), a[1..], b);
    }
  }

  lemma {:induction false} FillIsFillFrom(spec: Spec, ks: seq<Record>)
    ensures Fill(spec, ks) == FillFrom(spec, Filling([], []), ks)
  {
    if ks != [] {
      var front, last := ks[..|ks| - 1], [ks[|ks| - 1]];
      FillIsFillFrom(spec, front);
      FillFromConcat(spec, Filling([], []), front, last);
      assert ks == front + last && last[1..] == [];
      assert FillFrom(spec, Fill(spec, front), last) == FillFrom(spec, AddRecord(spec, Fill(spec, front), last[0]), []);
    }
  }

  /** Closed batches stay: more records only add batches. */
  lemma {:induction false} BatchesGrow(spec: Spec, f: Filling, ks: seq<Record>)
    ensures f.done <= FillFrom(spec, f, ks).done <= Flushed(FillFrom(spec, f, ks)).done
    decreases ks
  {
    if ks != [] {
      BatchesGrow(spec, AddRecord(spec, f, ks[0]), ks[1..]);
    }
  }

  /** What sending the open batch adds to a log. */
  lemma {:induction false} SendEffect(spec: Spec, service: Service, log: seq<Call>, records: seq<Record>)
    requires spec.maxRetries >= 1
    ensures var now := log + Calls(spec, service, |log|, records, 0);
      && FirstBatches(now) == FirstBatches(log) + (if records == [] then [] else [records])
      && Acked(now) <= Acked(log) + multiset(records)
      && (Outcome(spec, service, |log|, records, 0).None? ==> Acked(now) == Acked(log) + multiset(records))
  {
    SendFirst(spec, service, |log|, records);
    SendConserves(spec, service, |log|, records, 0);
    AckedConcat(log, Calls(spec, service, |log|, records, 0));
  }

  lemma FlushedElements(f: Filling)
    ensures multiset(Flatten(Flushed(f).done)) == multiset(Flatten(f.done)) + multiset(f.open)
    ensures Flushed(f).done == f.done + (if f.open == [] then [] else [f.open])
  {
    FlattenSnoc(f.done, f.open);
  }

  lemma Regroup(log: seq<Call>, call: Call, more: seq<Call>)
    ensures log + [call] + more == log + ([call] + more)
  {
  }

  // ---------------------------------------------------------------- the client

  /** A log before this Write: its length, first batches and acknowledged records. */
  datatype Base = Base(length: nat, batches: seq<seq<Record>>, acked: multiset<Record>)

  function BaseOf(calls: seq<Call>): Base {
    Base(|calls|, FirstBatches(calls), Acked(calls))
  }

  ghost predicate CallsOk(spec: Spec, base: Base, calls: seq<Call>) {
    forall i :: base.length <= i < |calls| ==> BatchOk(spec, calls[i].batch)
  }

  /** When one record always fits a batch, no call carries more than MaxBatchSizeBytes. */
  lemma CallsAreBounded(spec: Spec, base: Base, calls: seq<Call>)
    requires CallsOk(spec, base, calls) && spec.maxRecordSize <= spec.maxBatchSize
    ensures forall i :: base.length <= i < |calls| ==> TotalSize(calls[i].batch) <= spec.maxBatchSize
  {
    forall i | base.length <= i < |calls| ensures TotalSize(calls[i].batch) <= spec.maxBatchSize {
      var batch := calls[i].batch;
      if |batch| == 1 {
        assert TotalSize(batch) == TotalSize([]) + |batch[0]|;
      }
    }
  }

  /** Since the base, these batches were sent as first attempts, and no record of them was acknowledged twice. */
  ghost predicate Sent(base: Base, calls: seq<Call>, batches: seq<seq<Record>>) {
    FirstBatches(calls) == base.batches + batches && Acked(calls) <= base.acked + multiset(Flatten(batches))
  }

  /** Some of these batches, the first ones, were sent. */
  ghost predicate SentSome(base: Base, calls: seq<Call>, all: seq<seq<Record>>) {
    exists batches :: Sent(base, calls, batches) && batches <= all
  }

  /** These batches were sent, and every record of them was acknowledged exactly once. */
  ghost predicate AllAcked(base: Base, calls: seq<Call>, batches: seq<seq<Record>>) {
    FirstBatches(calls) == base.batches + batches && Acked(calls) == base.acked + multiset(Flatten(batches))
  }

  /**
   How many calls have been made when sendBatch has returned nil for all these batches in turn; None when it has not
   for one.
   */
  function Delivered(spec: Spec, service: Service, k: nat, batches: seq<seq<Record>>): Option<nat> {
    if batches == [] then Some(k)
    else
      var last := batches[|batches| - 1];
      match Delivered(spec, service, k, batches[..|batches| - 1])
      case None => None
      case Some(j) =>
        if Outcome(spec, service, j, last, 0).None? then Some(j + |Calls(spec, service, j, last, 0)|) else None
  }

  /** The batches are delivered when sendBatch returns nil for each, one after the other from where the calls stand. */
  lemma DeliveredSnoc(spec: Spec, service: Service, k: nat, done: seq<seq<Record>>, last: seq<Record>)
    ensures Delivered(spec, service, k, []) == Some(k)
    ensures Delivered(spec, service, k, done + [last]) ==
            match Delivered(spec, service, k, done)
            case None => None
            case Some(j) =>
              if Outcome(spec, service, j, last, 0).None? then Some(j + |Calls(spec, service, j, last, 0)|) else None
  {
    assert (done + [last])[..|done|] == done;
  }

  /** The open batch, if there is one, is delivered after the others. */
  lemma DeliveredOpen(spec: Spec, service: Service, k: nat, f: Filling, j: nat)
    requires spec.maxRetries >= 1 && Delivered(spec, service, k, f.done) == Some(j)
    ensures Delivered(spec, service, k, Flushed(f).done) ==
            if Outcome(spec, service, j, f.open, 0).None? then Some(j + |Calls(spec, service, j, f.open, 0)|) else None
  {
    if f.open != [] {
      DeliveredSnoc(spec, service, k, f.done, f.open);
    }
  }

  lemma {:induction false} UndeliveredStays(spec: Spec, service: Service, k: nat, some: seq<seq<Record>>,
                                            all: seq<seq<Record>>)
    requires some <= all && Delivered(spec, service, k, some).None?
    ensures Delivered(spec, service, k, all).None?
  {
    if |some| == |all| {
      assert some == all;
    } else {
      assert all[..|all| - 1][..|some|] == some;
      UndeliveredStays(spec, service, k, some, all[..|all| - 1]);
    }
  }

  lemma SomeAcked(base: Base, calls: seq<Call>, all: seq<seq<Record>>)
    requires SentSome(base, calls, all) || AllAcked(base, calls, all)
    ensures Acked(calls) <= base.acked + multiset(Flatten(all))
  {
    if !AllAcked(base, calls, all) {
      var batches :| Sent(base, calls, batches) && batches <= all;
      assert all == batches + all[|batches|..];
      FlattenAppend(batches, all[|batches|..]);
    }
  }

  lemma SentSomeOfMore(base: Base, calls: seq<Call>, some: seq<seq<Record>>, all: seq<seq<Record>>)
    requires SentSome(base, calls, some) && some <= all
    ensures SentSome(base, calls, all)
  {
    var batches :| Sent(base, calls, batches) && batches <= some;
    assert batches <= all;
  }

  lemma AckedIsSome(base: Base, calls: seq<Call>, some: seq<seq<Record>>, all: seq<seq<Record>>)
    requires AllAcked(base, calls, some) && some <= all
    ensures SentSome(base, calls, all)
  {
    assert Sent(base, calls, some);
  }

  /** One row: skipped when it is too large. */
  function RowFill(spec: Spec, f: Filling, row: Option<Record>): Filling {
    if row.None? || |row.value| > spec.maxRecordSize then f else AddRecord(spec, f, row.value)
  }

  /** The rows of a message up to the first that cannot be marshalled. */
  function RowsFill(spec: Spec, f: Filling, rows: seq<Option<Record>>): Filling
    decreases rows
  {
    if rows == [] || rows[0].None? then f else RowsFill(spec, RowFill(spec, f, rows[0]), rows[1..])
  }

  function MessageFill(spec: Spec, f: Filling, m: Message): Filling {
    if m.WriteInsert? then RowsFill(spec, f, m.rows) else f
  }

  /** The messages up to the first that stops Write. */
  function MessagesFill(spec: Spec, f: Filling, ms: seq<Message>): Filling
    decreases ms
  {
    if ms == [] then f
    else if !Handled(ms[0]) then MessageFill(spec, f, ms[0])
    else MessagesFill(spec, MessageFill(spec, f, ms[0]), ms[1..])
  }

  lemma {:induction false} RowsFillIsFill(spec: Spec, f: Filling, rows: seq<Option<Record>>)
    ensures RowsFill(spec, f, rows) == FillFrom(spec, f, RowsKept(spec, rows))
    decreases rows
  {
    if !(rows == [] || rows[0].None?) {
      var later := RowsKept(spec, rows[1..]);
      RowsFillIsFill(spec, RowFill(spec, f, rows[0]), rows[1..]);
      assert [] + later == later && ([rows[0].value] + later)[1..] == later;
    }
  }

  lemma {:induction false} MessagesFillIsFill(spec: Spec, f: Filling, ms: seq<Message>)
    ensures MessagesFill(spec, f, ms) == FillFrom(spec, f, Kept(spec, ms))
    decreases ms
  {
    if ms != [] {
      var m := ms[0];
      var rows := if m.WriteInsert? then RowsKept(spec, m.rows) else [];
      var later := if Handled(m) then Kept(spec, ms[1..]) else [];
      if m.WriteInsert? {
        RowsFillIsFill(spec, f, m.rows);
      }
      FillFromConcat(spec, f, rows, later);
      if Handled(m) {
        MessagesFillIsFill(spec, MessageFill(spec, f, m), ms[1..]);
      }
    }
  }

  lemma RowsFillGrows(spec: Spec, f: Filling, rows: seq<Option<Record>>)
    ensures f.done <= RowsFill(spec, f, rows).done
  {
    RowsFillIsFill(spec, f, rows);
    BatchesGrow(spec, f, RowsKept(spec, rows));
  }

  lemma MessagesFillGrows(spec: Spec, f: Filling, ms: seq<Message>)
    ensures f.done <= MessagesFill(spec, f, ms).done
  {
    MessagesFillIsFill(spec, f, ms);
    BatchesGrow(spec, f, Kept(spec, ms));
  }

  lemma {:induction false} SendCallsOk(spec: Spec, service: Service, base: Base, log: seq<Call>, records: seq<Record>)
    requires CallsOk(spec, base, log) && (records == [] || BatchOk(spec, records))
    ensures CallsOk(spec, base, log + Calls(spec, service, |log|, records, 0))
  {
    var more := Calls(spec, service, |log|, records, 0);
    RetriesAreWithinBounds(spec, service, |log|, records, 0);
    forall i | base.length <= i < |log + more| ensures BatchOk(spec, (log + more)[i].batch) {
      if i >= |log| {
        assert (log + more)[i] == more[i - |log|] && more[i - |log|] in more;
      }
    }
  }

  lemma SendOpen(spec: Spec, service: Service, base: Base, log: seq<Call>, f: Filling)
    requires spec.maxRetries >= 1 && AllAcked(base, log, f.done)
    ensures var now := log + Calls(spec, service, |log|, f.open, 0);
      && Sent(base, now, Flushed(f).done)
      && (Outcome(spec, service, |log|, f.open, 0).None? ==> AllAcked(base, now, Flushed(f).done))
  {
    SendEffect(spec, service, log, f.open);
    FlushedElements(f);
  }

  /** Filling message by message makes the batches of the kept records, and they hold just these. */
  lemma BatchesOfMessages(spec: Spec, ms: seq<Message>)
    requires spec.maxBatchRecords >= 1
    ensures Flushed(MessagesFill(spec, Filling([], []), ms)).done == Batches(spec, Kept(spec, ms))
    ensures Flatten(Batches(spec, Kept(spec, ms))) == Kept(spec, ms)
  {
    FillIsFillFrom(spec, Kept(spec, ms));
    MessagesFillIsFill(spec, Filling([], []), ms);
    KeptAreSmall(spec, ms);
    BatchesAreGreedy(spec, Kept(spec, ms));
  }

  /** What sending the open batch does to the log, and when it succeeds. */
  lemma SendOpenBatch(spec: Spec, service: Service, base: Base, log: seq<Call>, f: Filling)
    requires spec.maxRetries >= 1 && AllAcked(base, log, f.done) && CallsOk(spec, base, log)
    requires (f.open == [] || BatchOk(spec, f.open)) && Delivered(spec, service, base.length, f.done) == Some(|log|)
    ensures var now := log + Calls(spec, service, |log|, f.open, 0);
      && Sent(base, now, Flushed(f).done) && CallsOk(spec, base, now)
      && (Outcome(spec, service, |log|, f.open, 0).None? ==> AllAcked(base, now, Flushed(f).done))
      && Delivered(spec, service, base.length, Flushed(f).done) ==
         if Outcome(spec, service, |log|, f.open, 0).None? then Some(|now|) else None
  {
    SendOpen(spec, service, base, log, f);
    SendCallsOk(spec, service, base, log, f.open);
    DeliveredOpen(spec, service, base.length, f, |log|);
  }

  class Client {
    const spec: Spec
    const service: Service
    var calls: seq<Call>
    var records: seq<Record>
    var batchSize: nat

    constructor (spec: Spec, service: Service)
      ensures this.spec == spec && this.service == service && calls == []
    {
      this.spec, this.service := spec, service;
      calls, records, batchSize := [], [], 0;
    }

    method PutRecordBatch(batch: seq<Record>, attempt: nat) returns (response: Response)
      modifies this`calls
      ensures response == service(|old(calls)|, batch)
      ensures calls == old(calls) + [Call(attempt, batch, response)]
    {
      response := service(|calls|, batch);
      calls := calls + [Call(attempt, batch, response)];
    }

    method GetFailedRecords(batch: seq<Record>, failed: set<nat>) returns (retry: seq<Record>)
      ensures retry == Failing(batch, failed)
    {
      retry := [];
      for i := 0 to |batch|
        invariant retry == Failing(batch[..i], failed)
      {
        assert batch[..i + 1][..i] == batch[..i];
        if i in failed {
          retry := retry + [batch[i]];
        }
      }
      assert batch[..|batch|] == batch;
    }

    method SendBatch(batch: seq<Record>, count: nat) returns (err: Option<Error>)
      modifies this`calls
      ensures calls == old(calls) + Calls(spec, service, |old(calls)|, batch, count)
      ensures err == Outcome(spec, service, |old(calls)|, batch, count)
      decreases spec.maxRetries - count
    {
      if count >= spec.maxRetries {
        return Some(MaxRetriesReached);
      }
      if |batch| == 0 {
        return None;
      }
      ghost var k, log := |calls|, calls;
      var response := PutRecordBatch(batch, count);
      if response.ServiceError? {
        return Some(PutFailed);
      }
      var retry := GetFailedRecords(batch, response.failed);
      err := SendBatch(retry, count + 1);
      Regroup(log, Call(count, batch, response), Calls(spec, service, k + 1, retry, count + 1));
    }

    /** Where Write stands: these batches are sent, these records are buffered. */
    ghost predicate At(base: Base, f: Filling)
      reads this
    {
      && AllAcked(base, calls, f.done) && CallsOk(spec, base, calls)
      && Delivered(spec, service, base.length, f.done) == Some(|calls|)
      && records == f.open && batchSize == TotalSize(records)
    }

    /** `c.sendBatch(ctx, recordsBatchInput, 0)`, and the reset of the buffer when it succeeds. */
    method SendAndReset(ghost base: Base, ghost f: Filling) returns (err: Option<Error>)
      requires spec.maxRetries >= 1 && At(base, f) && (f.open == [] || BatchOk(spec, f.open))
      modifies this
      ensures Sent(base, calls, Flushed(f).done) && CallsOk(spec, base, calls)
      ensures err.None? ==> At(base, Flushed(f))
      ensures err.Some? ==> Delivered(spec, service, base.length, Flushed(f).done).None?
    {
      SendOpenBatch(spec, service, base, calls, f);
      err := SendBatch(records, 0);
      if err.None? {
        records, batchSize := [], 0;
      }
    }

    /** One row that fits MaxRecordSizeBytes. */
    method WriteRecord(r: Record, ghost base: Base, ghost f: Filling) returns (err: Option<Error>)
      requires spec.maxRetries >= 1 && spec.maxBatchRecords >= 1 && At(base, f)
      requires FillingOk(spec, f) && |r| <= spec.maxRecordSize
      modifies this
      ensures err.None? ==> At(base, AddRecord(spec, f, r))
      ensures err.Some? ==> SentSome(base, calls, AddRecord(spec, f, r).done) && CallsOk(spec, base, calls)
      ensures err.Some? ==> Delivered(spec, service, base.length, AddRecord(spec, f, r).done).None?
    {
      if |r| + batchSize > spec.maxBatchSize {
        err := SendAndReset(base, f);
        if err.Some? {
          assert Flushed(f).done <= AddRecord(spec, f, r).done;
          UndeliveredStays(spec, service, base.length, Flushed(f).done, AddRecord(spec, f, r).done);
          return;
        }
      }
      RoomOk(spec, f, r);
      err := Append(r, base, Room(spec, f, r));
    }

    /** Add the row to the batch, and send the batch if it is full. */
    method Append(r: Record, ghost base: Base, ghost room: Filling) returns (err: Option<Error>)
      requires spec.maxRetries >= 1 && At(base, room) && BatchOk(spec, room.open + [r])
      modifies this
      ensures var added := room.(open := room.open + [r]);
        var f := if |added.open| >= spec.maxBatchRecords then Flushed(added) else added;
        && (err.None? ==> At(base, f))
        && (err.Some? ==> Sent(base, calls, f.done) && CallsOk(spec, base, calls))
        && (err.Some? ==> Delivered(spec, service, base.length, f.done).None?)
    {
      records := records + [r];
      batchSize := batchSize + |r|;
      err := None;
      if |records| >= spec.maxBatchRecords {
        err := SendAndReset(base, room.(open := room.open + [r]));
      }
    }

    ghost predicate Ready(base: Base, f: Filling)
      reads this
    {
      At(base, f) && FillingOk(spec, f)
    }

    /** Write gave up: the first of the batches made so far were sent. */
    ghost predicate Stopped(base: Base, f: Filling)
      reads this`calls
    {
      SentSome(base, calls, f.done) && CallsOk(spec, base, calls)
    }

    /** sendBatch returns an error for one of these batches. */
    ghost predicate Refused(base: Base, f: Filling) {
      Delivered(spec, service, base.length, f.done).None?
    }

    /** One row: an oversized one is skipped, one that cannot be marshalled is an error. */
    method WriteRow(row: Option<Record>, ghost base: Base, ghost f: Filling) returns (err: Option<Error>)
      requires spec.maxRetries >= 1 && spec.maxBatchRecords >= 1 && Ready(base, f)
      modifies this
      ensures err.None? ==> row.Some? && Ready(base, RowFill(spec, f, row))
      ensures err.Some? ==> Stopped(base, RowFill(spec, f, row)) && (row.None? || Refused(base, RowFill(spec, f, row)))
    {
      if row.None? {
        AckedIsSome(base, calls, f.done, f.done);
        return Some(MarshalFailed);
      }
      if |row.value| > spec.maxRecordSize {
        return None;
      }
      AddRecordOk(spec, f, row.value);
      err := WriteRecord(row.value, base, f);
    }

    /** Row i of an insert message, when the batches after the whole message are `all`. */
    method NextRow(rows: seq<Option<Record>>, i: nat, ghost base: Base, ghost f: Filling, ghost all: Filling)
      returns (err: Option<Error>, ghost next: Filling)
      requires spec.maxRetries >= 1 && spec.maxBatchRecords >= 1 && Ready(base, f)
      requires i < |rows| && RowsFill(spec, f, rows[i..]) == all
      modifies this
      ensures err.None? ==> rows[i].Some? && Ready(base, next) && RowsFill(spec, next, rows[i + 1..]) == all
      ensures err.Some? ==> Stopped(base, all) && (rows[i].None? || Refused(base, all))
    {
      next := RowFill(spec, f, rows[i]);
      err := WriteRow(rows[i], base, f);
      if err.Some? {
        RowsFillGrows(spec, next, rows[i + 1..]);
        SentSomeOfMore(base, calls, next.done, all.done);
        if Refused(base, next) {
          UndeliveredStays(spec, service, base.length, next.done, all.done);
        }
      }
    }

    /** The rows of one insert message. */
    method WriteRows(rows: seq<Option<Record>>, ghost base: Base, ghost f: Filling) returns (err: Option<Error>)
      requires spec.maxRetries >= 1 && spec.maxBatchRecords >= 1 && Ready(base, f)
      modifies this
      ensures err.None? ==> AllMarshal(rows) && Ready(base, RowsFill(spec, f, rows))
      ensures err.Some? ==>
                Stopped(base, RowsFill(spec, f, rows)) && (!AllMarshal(rows) || Refused(base, RowsFill(spec, f, rows)))
    {
      ghost var now, all := f, RowsFill(spec, f, rows);
      for i := 0 to |rows|
        invariant Ready(base, now) && (forall j :: 0 <= j < i ==> rows[j].Some?)
        invariant RowsFill(spec, now, rows[i..]) == all
      {
        err, now := NextRow(rows, i, base, now, all);
        if err.Some? {
          return;
        }
      }
      return None;
    }

    /** One message. */
    method WriteOne(m: Message, ghost base: Base, ghost f: Filling) returns (err: Option<Error>)
      requires spec.maxRetries >= 1 && spec.maxBatchRecords >= 1 && Ready(base, f)
      modifies this
      ensures err.None? ==> Handled(m) && Ready(base, MessageFill(spec, f, m))
      ensures err.Some? ==>
                Stopped(base, MessageFill(spec, f, m)) && (!Handled(m) || Refused(base, MessageFill(spec, f, m)))
    {
      match m {
        case Unsupported =>
          AckedIsSome(base, calls, f.done, f.done);
          return Some(UnsupportedMessage);
        case WriteInsert(rows) =>
          err := WriteRows(rows, base, f);
        case _ =>
          return None;
      }
    }

    /** Message i, when the batches after all messages are `all`. */
    method NextMessage(messages: seq<Message>, i: nat, ghost base: Base, ghost f: Filling, ghost all: Filling)
      returns (err: Option<Error>, ghost next: Filling)
      requires spec.maxRetries >= 1 && spec.maxBatchRecords >= 1 && Ready(base, f)
      requires i < |messages| && MessagesFill(spec, f, messages[i..]) == all
      modifies this
      ensures err.None? ==>
                Handled(messages[i]) && Ready(base, next) && MessagesFill(spec, next, messages[i + 1..]) == all
      ensures err.Some? ==> Stopped(base, all) && (!Handled(messages[i]) || Refused(base, all))
    {
      next := MessageFill(spec, f, messages[i]);
      err := WriteOne(messages[i], base, f);
      if err.Some? {
        MessagesFillGrows(spec, next, messages[i + 1..]);
        SentSomeOfMore(base, calls, next.done, all.done);
        if Refused(base, next) {
          UndeliveredStays(spec, service, base.length, next.done, all.done);
        }
      }
    }

    /** The loop of Write. */
    method WriteMessages(messages: seq<Message>, ghost base: Base) returns (err: Option<Error>)
      requires spec.maxRetries >= 1 && spec.maxBatchRecords >= 1 && Ready(base, Filling([], []))
      modifies this
      ensures var f := MessagesFill(spec, Filling([], []), messages);
        && (err.None? ==> AllHandled(messages) && Ready(base, f))
        && (err.Some? ==> Stopped(base, f) && (!AllHandled(messages) || Refused(base, f)))
    {
      ghost var now, all := Filling([], []), MessagesFill(spec, Filling([], []), messages);
      for i := 0 to |messages|
        invariant Ready(base, now) && (forall j :: 0 <= j < i ==> Handled(messages[j]))
        invariant MessagesFill(spec, now, messages[i..]) == all
      {
        err, now := NextMessage(messages, i, base, now, all);
        if err.Some? {
          return;
        }
      }
      return None;
    }

    /** The loop of Write, and the last batch after it. */
    method WriteAll(messages: seq<Message>, ghost base: Base) returns (err: Option<Error>)
      requires spec.maxRetries >= 1 && spec.maxBatchRecords >= 1 && Ready(base, Filling([], []))
      modifies this
      ensures var f := Flushed(MessagesFill(spec, Filling([], []), messages));
        && CallsOk(spec, base, calls)
        && (err.None? ==> AllHandled(messages) && AllAcked(base, calls, f.done))
        && (err.Some? ==> SentSome(base, calls, f.done))
        && (err.None? <==> AllHandled(messages) && Delivered(spec, service, base.length, f.done).Some?)
    {
      ghost var all := MessagesFill(spec, Filling([], []), messages);
      err := WriteMessages(messages, base);
      if err.Some? {
        SentSomeOfMore(base, calls, all.done, Flushed(all).done);
        if Refused(base, all) {
          UndeliveredStays(spec, service, base.length, all.done, Flushed(all).done);
        }
        return;
      }
      err := SendAndReset(base, all);
    }

    /**
     Write. It returns nil exactly when every message is handled and sendBatch returns nil for every batch the kept
     records are cut into; then every kept record was acknowledged exactly once, in these batches. When it fails, the
     first of these batches were sent.
     */
    method Write(messages: seq<Message>) returns (err: Option<Error>)
      requires spec.maxRetries >= 1 && spec.maxBatchRecords >= 1
      modifies this
      ensures var base, batches := BaseOf(old(calls)), Batches(spec, Kept(spec, messages));
        && CallsOk(spec, base, calls)
        && (err.None? ==> AllHandled(messages) && AllAcked(base, calls, batches))
        && (err.Some? ==> SentSome(base, calls, batches))
      ensures err.None? <==>
                AllHandled(messages) &&
                Delivered(spec, service, |old(calls)|, Batches(spec, Kept(spec, messages))).Some?
      ensures err.None? ==> Acked(calls) == old(Acked(calls)) + multiset(Kept(spec, messages))
      ensures err.None? ==>
                forall i :: 0 <= i < |messages| ==>
                  && !messages[i].Unsupported?
                  && (messages[i].WriteInsert? ==>
                        forall j :: 0 <= j < |messages[i].rows| ==> messages[i].rows[j].Some?)
      ensures err.None? ==>
                forall r: Record ::
                  |AckPlaces(calls, r)| ==
                  |AckPlaces(old(calls), r)| + if |r| <= spec.maxRecordSize then |Places(messages, r)| else 0
      ensures forall r: Record ::
                |AckPlaces(calls, r)| <=
                |AckPlaces(old(calls), r)| + if |r| <= spec.maxRecordSize then |Places(messages, r)| else 0
      ensures spec.maxRecordSize <= spec.maxBatchSize ==>
                forall i :: |old(calls)| <= i < |calls| ==> TotalSize(calls[i].batch) <= spec.maxBatchSize
    {
      records, batchSize := [], 0;
      BatchesOfMessages(spec, messages);
      err := WriteAll(messages, BaseOf(calls));
      assert Acked(calls) <= old(Acked(calls)) + multiset(Kept(spec, messages)) by {
        SomeAcked(BaseOf(old(calls)), calls, Batches(spec, Kept(spec, messages)));
      }
      forall r: Record
        ensures |AckPlaces(calls, r)| <=
                |AckPlaces(old(calls), r)| + if |r| <= spec.maxRecordSize then |Places(messages, r)| else 0
        ensures err.None? ==>
                  |AckPlaces(calls, r)| ==
                  |AckPlaces(old(calls), r)| + if |r| <= spec.maxRecordSize then |Places(messages, r)| else 0
      {
        AckedCounts(calls, r);
        AckedCounts(old(calls), r);
        KeptCount(spec, messages, r);
      }
      if spec.maxRecordSize <= spec.maxBatchSize {
        CallsAreBounded(spec, BaseOf(old(calls)), calls);
      }
    }
  }
}
