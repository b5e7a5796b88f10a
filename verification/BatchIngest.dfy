// Batch ingest as a protocol: producers, workers, stop and request_stop, each
// region under a mutex one step, in any interleaving.
module BatchIngest {
  import opened Evidence
  import opened BoundedQueue
  import opened BatchState

  datatype Answer = Stored | Turned(reason: nat)

  datatype Work = Work(batch: nat, slot: nat)

  // Where the caller of a batch is.
  datatype Phase = Entered | Pushing | Refusing | Waiting | Returned

  datatype Batch = Batch(slots: Slots<Answer>, next: nat, phase: Phase)

  datatype Worker = Idle | Submitting(work: Work) | Recording(work: Work, answer: Answer) | Exited

  datatype Lifecycle = Running | Draining | Stopped

  // Where the one caller of stop is.
  datatype StopPhase =
    | NotCalled
    | Checking
    | Drain
    | Joining
    | Flagging
    | Closing
    | Sweeping(todo: set<nat>)
    | Finished

  // "pushed", "popped" and "discarded" are the histories of the queue.
  datatype Engine = Engine(
    queue: Contents<Work>, pushed: seq<Work>, popped: seq<Work>, discarded: seq<Work>,
    batches: seq<Batch>, waiters: set<nat>, workers: seq<Worker>,
    stopRequested: bool, lifecycle: Lifecycle, stop: StopPhase)

  datatype Step =
    | Begin(count: nat)
    | Register(b: nat)
    | PushNext(b: nat)
    | RecordRefusal(b: nat)
    | StartWait(b: nat)
    | Return(b: nat)
    | PopWork(w: nat)
    | Exit(w: nat)
    | Submit(w: nat, answer: Answer)
    | RecordAnswer(w: nat)
    | RequestFlag
    | RequestClose
    | RequestState
    | StopBegin
    | StopCheck
    | StopDrain
    | StopJoin
    | StopFlag
    | StopClose
    | StopSweep(b: nat)
    | StopDone

  // An inbox exists only when there are workers, and it holds at least one item.
  ghost predicate Initial(s: Engine) {
    && s.queue == Contents([], s.queue.capacity, false, NO_STATS) && s.queue.capacity >= 1
    && s.pushed == s.popped == s.discarded == []
    && s.batches == [] && s.waiters == {}
    && |s.workers| >= 1 && (forall w <- s.workers :: w == Idle)
    && !s.stopRequested && s.lifecycle == Running && s.stop == NotCalled
  }

  predicate Enabled(s: Engine, step: Step, maxBatch: nat) {
    match step
    case Begin(count) => s.lifecycle == Running && count <= maxBatch
    case Register(b) => b < |s.batches| && s.batches[b].phase == Entered && !s.stop.Sweeping?
    case PushNext(b) =>
      && b < |s.batches| && s.batches[b].phase == Pushing && s.batches[b].next < |s.batches[b].slots.done|
      && (s.queue.closed || HasRoom(s.queue) || s.stopRequested)
    case RecordRefusal(b) =>
      b < |s.batches| && s.batches[b].phase == Refusing
    case StartWait(b) =>
      b < |s.batches| && s.batches[b].phase == Pushing && s.batches[b].next >= |s.batches[b].slots.done|
    case Return(b) =>
      b < |s.batches| && s.batches[b].phase == Waiting && (s.batches[b].slots.outstanding == 0 || s.stopRequested)
    case PopWork(w) => w < |s.workers| && s.workers[w] == Idle && s.queue.items != []
    case Exit(w) =>
      w < |s.workers| && s.workers[w] == Idle && s.queue.items == [] && (s.queue.closed || s.stopRequested)
    case Submit(w, _) => w < |s.workers| && s.workers[w].Submitting?
    case RecordAnswer(w) => w < |s.workers| && s.workers[w].Recording?
    case RequestFlag => true
    case RequestClose => s.stopRequested
    case RequestState => s.stopRequested
    case StopBegin => s.stop == NotCalled
    case StopCheck => s.stop == Checking
    case StopDrain => s.stop == Drain
    case StopJoin => s.stop == Joining && forall w <- s.workers :: w == Exited
    case StopFlag => s.stop == Flagging
    case StopClose => s.stop == Closing
    case StopSweep(b) => s.stop.Sweeping? && b in s.stop.todo
    case StopDone => s.stop.Sweeping? && s.stop.todo == {}
  }

  function WithBatch(s: Engine, b: nat, batch: Batch): Engine
    requires b < |s.batches|
  {
    s.(batches := s.batches[b := batch])
  }

  function WithWorker(s: Engine, w: nat, worker: Worker): Engine
    requires w < |s.workers|
  {
    s.(workers := s.workers[w := worker])
  }

  function CloseQueue(s: Engine): Engine {
    s.(queue := Closed(s.queue), discarded := s.discarded + s.queue.items)
  }

  predicate WellShaped(s: Engine) {
    forall b <- s.batches ::
      |b.slots.results| == |b.slots.done| && (b.phase == Refusing ==> b.next < |b.slots.done|)
  }

  function AfterPush(s: Engine, b: nat): Engine
    requires b < |s.batches|
  {
    var batch := s.batches[b];
    var work := Work(b, batch.next);
    var (queue, outcome) := Pushed(s.queue, work);
    if outcome == Accepted then
      WithBatch(s, b, batch.(next := batch.next + 1)).(queue := queue, pushed := s.pushed + [work])
    else
      WithBatch(s, b, batch.(phase := Refusing)).(queue := queue)
  }

  function AfterAnswer(s: Engine, w: nat): Engine
    requires w < |s.workers| && s.workers[w].Recording? && WellShaped(s)
  {
    var work, answer := s.workers[w].work, s.workers[w].answer;
    if work.batch < |s.batches| then
      var batch := s.batches[work.batch];
      WithBatch(WithWorker(s, w, Idle), work.batch,
                batch.(slots := OutcomeRecorded(batch.slots, work.slot, answer)))
    else WithWorker(s, w, Idle)
  }

  function Apply(s: Engine, step: Step, maxBatch: nat): Engine
    requires WellShaped(s) && Enabled(s, step, maxBatch)
  {
    match step
    case Begin(count) => s.(batches := s.batches + [Batch(Fresh(count), 0, Entered)])
    case Register(b) => WithBatch(s, b, s.batches[b].(phase := Pushing)).(waiters := s.waiters + {b})
    case PushNext(b) => AfterPush(s, b)
    case RecordRefusal(b) =>
      var batch := s.batches[b];
      WithBatch(s, b, batch.(slots := RefusalRecorded(batch.slots, batch.next), next := batch.next + 1,
                             phase := Pushing))
    case StartWait(b) => WithBatch(s, b, s.batches[b].(phase := Waiting))
    case Return(b) => WithBatch(s, b, s.batches[b].(slots := Filled(s.batches[b].slots, Unprocessed),
                                                    phase := Returned))
    case PopWork(w) =>
      WithWorker(s, w, Submitting(s.queue.items[0])).(queue := Popped(s.queue).0,
                                                      popped := s.popped + [s.queue.items[0]])
    case Exit(w) => WithWorker(s, w, Exited)
    case Submit(w, answer) => WithWorker(s, w, Recording(s.workers[w].work, answer))
    case RecordAnswer(w) => AfterAnswer(s, w)
    case RequestFlag => s.(stopRequested := true)
    case RequestClose => CloseQueue(s)
    case RequestState => s.(lifecycle := if s.lifecycle == Running then Draining else s.lifecycle)
    case StopBegin => s.(lifecycle := Draining, stop := Checking)
    case StopCheck => s.(stop := if s.stopRequested then Joining else Drain)
    case StopDrain => s.(queue := Drained(s.queue), stop := Joining)
    case StopJoin => s.(stop := Flagging)
    case StopFlag => s.(stopRequested := true, stop := Closing)
    case StopClose => CloseQueue(s).(stop := Sweeping(s.waiters))
    case StopSweep(b) =>
      if b < |s.batches| then
        WithBatch(s, b, s.batches[b].(slots := Filled(s.batches[b].slots, Swept)))
          .(stop := Sweeping(s.stop.todo - {b}))
      else s.(stop := Sweeping(s.stop.todo - {b}))
    case StopDone => s.(stop := Finished, lifecycle := Stopped, waiters := {})
  }

  // ---- what every step keeps --------------------------------------------------------

  // The queue's history: first in, first out, and nothing is lost.
  ghost predicate QueueKept(s: Engine) {
    && Bounded(s.queue) && s.queue.capacity >= 1
    && s.pushed == s.popped + s.discarded + s.queue.items
    && s.queue.stats.pushed == |s.pushed| && s.queue.stats.popped == |s.popped|
    && (s.discarded != [] ==> s.queue.closed && s.queue.items == [])
    && (!s.stopRequested ==> s.discarded == [])
  }

  // One batch on its own.
  ghost predicate BatchKept(b: Batch) {
    && Counted(b.slots)
    && b.next <= |b.slots.done|
    && (b.phase == Entered ==> b.next == 0)
    && (b.phase == Refusing ==> b.next < |b.slots.done|)
    && (b.phase == Waiting ==> b.next == |b.slots.done|)
    && (b.phase == Returned ==> AllDone(b.slots.done))
    && (forall i :: b.next <= i < |b.slots.done| && b.slots.done[i] ==> b.slots.outstanding == 0)
  }

  ghost predicate BatchesKept(s: Engine) {
    forall b <- s.batches :: BatchKept(b)
  }

  ghost predicate SlotDone(s: Engine, p: Work) {
    p.batch < |s.batches| && p.slot < |s.batches[p.batch].slots.done| && s.batches[p.batch].slots.done[p.slot]
  }

  ghost predicate SlotProcessed(s: Engine, p: Work) {
    && p.batch < |s.batches| && p.slot < |s.batches[p.batch].slots.results|
    && s.batches[p.batch].slots.results[p.slot].Processed?
  }

  // Work in the queue's history names a slot its producer has passed, and each
  // slot is pushed at most once.
  ghost predicate WorkKept(s: Engine) {
    && (forall p <- s.pushed :: p.batch < |s.batches| && p.slot < s.batches[p.batch].next)
    && (forall i, j :: 0 <= i < j < |s.pushed| ==> s.pushed[i] != s.pushed[j])
    && (forall p: Work :: SlotProcessed(s, p) ==> p in s.pushed)
  }

  ghost predicate Holds(w: Worker, p: Work) {
    (w.Submitting? || w.Recording?) && w.work == p
  }

  ghost predicate SomeoneHolds(s: Engine, p: Work) {
    exists w <- s.workers :: Holds(w, p)
  }

  // Popped work is in a worker's hands until its slot is done.
  ghost predicate HandsKept(s: Engine) {
    && (forall p <- s.popped :: SlotDone(s, p) || SomeoneHolds(s, p))
    && (forall w <- s.workers :: w.Submitting? || w.Recording? ==> w.work in s.popped)
  }

  // No slot is done before its producer has passed it.
  ghost predicate NoneAhead(b: Batch) {
    forall i :: b.next <= i < |b.slots.done| ==> !b.slots.done[i]
  }

  // As long as nobody asked to stop: slots of accepted pushes are done only by
  // workers, and workers leave only when everything was popped.
  ghost predicate GracefulKept(s: Engine) {
    !s.stopRequested ==>
      && (forall p <- s.pushed :: SlotDone(s, p) ==> SlotProcessed(s, p))
      && (forall b <- s.batches :: NoneAhead(b))
      && ((exists w <- s.workers :: w == Exited) ==> s.queue.closed && s.queue.items == [])
      && (s.stop.NotCalled? || s.stop.Checking? || s.stop.Drain? || s.stop.Joining? || s.stop.Flagging?)
  }

  ghost predicate StopKept(s: Engine) {
    && |s.workers| >= 1
    && (s.stop.Sweeping? || s.stop.Finished? ==> s.stopRequested && s.queue.closed && s.queue.items == [])
    && (s.stop.Closing? ==> s.stopRequested)
    && (forall b <- s.waiters :: b < |s.batches|)
    && (s.stop.Sweeping? ==> s.stop.todo <= s.waiters)
  }

  ghost predicate Inv(s: Engine) {
    && QueueKept(s) && BatchesKept(s) && WorkKept(s) && HandsKept(s) && GracefulKept(s) && StopKept(s)
  }

  lemma InvIsWellShaped(s: Engine)
    requires BatchesKept(s)
    ensures WellShaped(s)
  {
  }

  // ---- one batch after each step -------------------------------------------------------

  lemma FreshBatchKept(count: nat)
    ensures BatchKept(Batch(Fresh(count), 0, Entered))
  {
    FreshIsCounted<Answer>(count);
  }

  lemma RefusalKept(b: Batch)
    requires BatchKept(b) && b.phase == Refusing && !b.slots.results[b.next].Processed?
    ensures BatchKept(b.(slots := RefusalRecorded(b.slots, b.next), next := b.next + 1, phase := Pushing))
  {
    RefusalKeeps(b.slots, b.next);
  }

  lemma AnswerKept(b: Batch, slot: nat, answer: Answer)
    requires BatchKept(b) && slot < b.next
    ensures BatchKept(b.(slots := OutcomeRecorded(b.slots, slot, answer)))
    ensures KeepsDone(b.slots, OutcomeRecorded(b.slots, slot, answer))
  {
    OutcomeKeeps(b.slots, slot, answer);
  }

  lemma FillKept(b: Batch, with: SlotResult<Answer>, phase: Phase)
    requires BatchKept(b) && !with.Unset? && (phase == b.phase || (b.phase == Waiting && phase == Returned))
    ensures BatchKept(b.(slots := Filled(b.slots, with), phase := phase))
  {
    FillKeeps(b.slots, with);
  }

  // What a worker holds was pushed, so its producer has passed the slot.
  lemma HeldIsPushed(s: Engine, w: nat)
    requires Inv(s) && w < |s.workers| && (s.workers[w].Submitting? || s.workers[w].Recording?)
    ensures var p := s.workers[w].work;
            && p in s.pushed && p.batch < |s.batches|
            && p.slot < s.batches[p.batch].next <= |s.batches[p.batch].slots.done|
  {
    hide GracefulKept, StopKept;
    var p := s.workers[w].work;
    assert p in s.popped;
    assert p in s.pushed;
    assert BatchKept(s.batches[p.batch]);
  }

  lemma NextIsUnprocessed(s: Engine, b: nat)
    requires Inv(s) && b < |s.batches| && s.batches[b].next < |s.batches[b].slots.results|
    ensures !s.batches[b].slots.results[s.batches[b].next].Processed?
    ensures Work(b, s.batches[b].next) !in s.pushed
  {
    hide GracefulKept, StopKept, HandsKept, QueueKept, BatchesKept;
    var p := Work(b, s.batches[b].next);
    assert p !in s.pushed;
    assert !SlotProcessed(s, p);
  }

  lemma BatchesStep(s: Engine, step: Step, maxBatch: nat)
    requires Inv(s) && WellShaped(s) && Enabled(s, step, maxBatch)
    ensures BatchesKept(Apply(s, step, maxBatch))
  {
    hide QueueKept, WorkKept, HandsKept, GracefulKept, StopKept;
    hide BatchKept, Filled, Fresh, RefusalRecorded, OutcomeRecorded, Pushed, Popped;
    match step {
      case Begin(count) => FreshBatchKept(count);
      case Register(b) => PhaseKept(s.batches[b], Pushing);
      case PushNext(b) => PushKept(s, b);
      case RecordRefusal(b) =>
        NextIsUnprocessed(s, b);
        RefusalKept(s.batches[b]);
      case StartWait(b) => PhaseKept(s.batches[b], Waiting);
      case Return(b) => FillKept(s.batches[b], Unprocessed, Returned);
      case RecordAnswer(w) =>
        var work := s.workers[w].work;
        HeldIsPushed(s, w);
        AnswerKept(s.batches[work.batch], work.slot, s.workers[w].answer);
      case StopSweep(b) =>
        if b < |s.batches| {
          FillKept(s.batches[b], Swept, s.batches[b].phase);
        }
      case _ =>
    }
  }

  lemma PhaseKept(b: Batch, phase: Phase)
    requires BatchKept(b)
    requires (b.phase == Entered && phase == Pushing)
          || (b.phase == Pushing && phase == Waiting && b.next >= |b.slots.done|)
    ensures BatchKept(b.(phase := phase))
  {
  }

  lemma PushKept(s: Engine, b: nat)
    requires b < |s.batches| && BatchKept(s.batches[b]) && s.batches[b].phase == Pushing
    requires s.batches[b].next < |s.batches[b].slots.done|
    ensures BatchKept(AfterPush(s, b).batches[b])
  {
  }

  // ---- the queue and its history ---------------------------------------------------------

  lemma QueueStep(s: Engine, step: Step, maxBatch: nat)
    requires Inv(s) && WellShaped(s) && Enabled(s, step, maxBatch)
    ensures QueueKept(Apply(s, step, maxBatch))
  {
    hide BatchesKept, WorkKept, HandsKept, GracefulKept;
    hide Filled, Fresh, RefusalRecorded, OutcomeRecorded;
    match step {
      case PushNext(b) =>
        var work := Work(b, s.batches[b].next);
        assert s.pushed + [work] == s.popped + s.discarded + (s.queue.items + [work]);
      case PopWork(w) =>
        assert s.discarded == [];
        assert s.queue.items == [s.queue.items[0]] + s.queue.items[1..];
        assert s.pushed == (s.popped + [s.queue.items[0]]) + s.discarded + s.queue.items[1..];
      case RequestClose =>
        assert s.pushed == s.popped + (s.discarded + s.queue.items) + [];
      case StopClose =>
        assert s.pushed == s.popped + (s.discarded + s.queue.items) + [];
      case _ =>
    }
  }

  // ---- no step takes an outcome back -------------------------------------------------------

  // A slot that is done stays done, and what a worker recorded stays recorded.
  ghost predicate Onward(before: Batch, after: Batch) {
    && before.next <= after.next
    && |after.slots.results| == |before.slots.results| && |after.slots.done| == |before.slots.done|
    && (forall i :: 0 <= i < |before.slots.done| && before.slots.done[i] ==> after.slots.done[i])
    && (forall i :: 0 <= i < |before.slots.results| && before.slots.results[i].Processed? ==>
                      after.slots.results[i] == before.slots.results[i])
    && (before.phase == Returned ==> after == before)
  }

  lemma OnwardStep(s: Engine, step: Step, maxBatch: nat)
    requires Inv(s) && WellShaped(s) && Enabled(s, step, maxBatch)
    ensures var t := Apply(s, step, maxBatch);
            && |s.batches| <= |t.batches|
            && forall b :: 0 <= b < |s.batches| ==> Onward(s.batches[b], t.batches[b])
  {
    hide QueueKept, WorkKept, HandsKept, GracefulKept, StopKept;
    hide Onward, BatchKept, Filled, Fresh, RefusalRecorded, OutcomeRecorded, Pushed, Popped;
    var t := Apply(s, step, maxBatch);
    forall b | 0 <= b < |s.batches|
      ensures Onward(s.batches[b], t.batches[b])
    {
      SameIsOnward(s.batches[b]);
      match step {
        case Register(c) => if b == c { PhaseIsOnward(s.batches[b], Pushing); }
        case PushNext(c) => if b == c { PushIsOnward(s, b); }
        case RecordRefusal(c) =>
          if b == c {
            NextIsUnprocessed(s, b);
            RefusalIsOnward(s.batches[b]);
          }
        case StartWait(c) => if b == c { PhaseIsOnward(s.batches[b], Waiting); }
        case Return(c) => if b == c { FillIsOnward(s.batches[b], Unprocessed, Returned); }
        case RecordAnswer(w) =>
          if b == s.workers[w].work.batch {
            AnswerIsOnward(s.batches[b], s.workers[w].work.slot, s.workers[w].answer);
          }
        case StopSweep(c) => if b == c { FillIsOnward(s.batches[b], Swept, s.batches[b].phase); }
        case _ =>
      }
    }
  }

  lemma SameIsOnward(b: Batch)
    ensures Onward(b, b)
  {
  }

  lemma PhaseIsOnward(b: Batch, phase: Phase)
    requires b.phase != Returned
    ensures Onward(b, b.(phase := phase))
  {
  }

  lemma PushIsOnward(s: Engine, b: nat)
    requires b < |s.batches| && s.batches[b].phase == Pushing
    ensures Onward(s.batches[b], AfterPush(s, b).batches[b])
  {
  }

  lemma RefusalIsOnward(b: Batch)
    requires BatchKept(b) && b.phase == Refusing && !b.slots.results[b.next].Processed?
    ensures Onward(b, b.(slots := RefusalRecorded(b.slots, b.next), next := b.next + 1, phase := Pushing))
  {
  }

  lemma AnswerIsOnward(b: Batch, slot: nat, answer: Answer)
    requires BatchKept(b)
    ensures Onward(b, b.(slots := OutcomeRecorded(b.slots, slot, answer)))
  {
    if slot < |b.slots.done| && b.slots.done[slot] {
      assert b.(slots := OutcomeRecorded(b.slots, slot, answer)) == b;
    }
  }

  lemma FillIsOnward(b: Batch, with: SlotResult<Answer>, phase: Phase)
    requires BatchKept(b) && !with.Unset? && (phase == b.phase || b.phase == Waiting)
    ensures Onward(b, b.(slots := Filled(b.slots, with), phase := phase))
  {
    FillKeeps(b.slots, with);
  }

  // Only a worker makes a slot processed, and it is the slot of its work.
  lemma ProcessedStep(s: Engine, step: Step, maxBatch: nat, p: Work)
    requires Inv(s) && WellShaped(s) && Enabled(s, step, maxBatch)
    requires SlotProcessed(Apply(s, step, maxBatch), p) && !SlotProcessed(s, p)
    ensures step.RecordAnswer? && s.workers[step.w].work == p
  {
    hide QueueKept, WorkKept, HandsKept, GracefulKept, StopKept;
    hide BatchKept, Undone, Pushed, Popped;
  }

  lemma WorkStep(s: Engine, step: Step, maxBatch: nat)
    requires Inv(s) && WellShaped(s) && Enabled(s, step, maxBatch)
    ensures WorkKept(Apply(s, step, maxBatch))
  {
    hide QueueKept, HandsKept, GracefulKept, StopKept, BatchKept, Filled, Fresh, RefusalRecorded, OutcomeRecorded;
    OnwardStep(s, step, maxBatch);
    var t := Apply(s, step, maxBatch);
    forall p: Work | SlotProcessed(t, p)
      ensures p in t.pushed
    {
      if SlotProcessed(s, p) {
        assert p in s.pushed;
      } else {
        ProcessedStep(s, step, maxBatch, p);
        HeldIsPushed(s, step.w);
      }
    }
    hide SlotProcessed;
    if step.PushNext? {
      NextIsUnprocessed(s, step.b);
    }
  }

  lemma HandsStep(s: Engine, step: Step, maxBatch: nat)
    requires Inv(s) && WellShaped(s) && Enabled(s, step, maxBatch)
    ensures HandsKept(Apply(s, step, maxBatch))
  {
    hide QueueKept, WorkKept, GracefulKept, StopKept, BatchKept, Filled, Fresh, RefusalRecorded, OutcomeRecorded;
    OnwardStep(s, step, maxBatch);
    var t := Apply(s, step, maxBatch);
    forall p <- t.popped
      ensures SlotDone(t, p) || SomeoneHolds(t, p)
    {
      if p in s.popped {
        if !SlotDone(s, p) {
          var w :| 0 <= w < |s.workers| && Holds(s.workers[w], p);
          StillHeld(s, step, maxBatch, w);
        }
      } else {
        assert step.PopWork? && Holds(t.workers[step.w], p);
      }
    }
  }

  // A worker keeps its work until it has recorded the answer.
  lemma StillHeld(s: Engine, step: Step, maxBatch: nat, w: nat)
    requires Inv(s) && WellShaped(s) && Enabled(s, step, maxBatch)
    requires w < |s.workers| && (s.workers[w].Submitting? || s.workers[w].Recording?)
    ensures var t := Apply(s, step, maxBatch);
            w < |t.workers| && (Holds(t.workers[w], s.workers[w].work) || SlotDone(t, s.workers[w].work))
  {
    HeldIsPushed(s, w);
    hide QueueKept, WorkKept, HandsKept, GracefulKept, StopKept, BatchKept, Filled, Fresh, Pushed, Popped;
  }

  // Without a request to stop a slot becomes done in two ways only.
  lemma DoneStep(s: Engine, step: Step, maxBatch: nat, p: Work)
    requires Inv(s) && WellShaped(s) && Enabled(s, step, maxBatch) && !s.stopRequested
    requires SlotDone(Apply(s, step, maxBatch), p) && !SlotDone(s, p)
    ensures (step.RecordAnswer? && SlotProcessed(Apply(s, step, maxBatch), p))
         || (step.RecordRefusal? && p == Work(step.b, s.batches[step.b].next))
  {
    hide QueueKept, WorkKept, HandsKept, StopKept, Pushed, Popped;
    if step.Return? {
      ReturnFillsNothing(s, step.b);
    }
  }

  lemma ReturnFillsNothing(s: Engine, b: nat)
    requires WellShaped(s) && BatchesKept(s) && b < |s.batches| && s.batches[b].slots.outstanding == 0
    ensures Filled(s.batches[b].slots, Unprocessed) == s.batches[b].slots
  {
    assert BatchKept(s.batches[b]);
    UndoneZero(s.batches[b].slots.done);
    FillKeeps(s.batches[b].slots, Unprocessed);
  }

  lemma GracefulStep(s: Engine, step: Step, maxBatch: nat)
    requires Inv(s) && WellShaped(s) && Enabled(s, step, maxBatch)
    ensures GracefulKept(Apply(s, step, maxBatch))
  {
    var t := Apply(s, step, maxBatch);
    if !t.stopRequested {
      GracefulSlots(s, step, maxBatch);
      GracefulAhead(s, step, maxBatch);
      GracefulExit(s, step, maxBatch);
    }
  }

  lemma GracefulSlots(s: Engine, step: Step, maxBatch: nat)
    requires Inv(s) && WellShaped(s) && Enabled(s, step, maxBatch) && !Apply(s, step, maxBatch).stopRequested
    ensures var t := Apply(s, step, maxBatch);
            forall p <- t.pushed :: SlotDone(t, p) ==> SlotProcessed(t, p)
  {
    hide QueueKept, WorkKept, HandsKept, StopKept, BatchKept, Filled, Fresh, RefusalRecorded, OutcomeRecorded;
    OnwardStep(s, step, maxBatch);
    var t := Apply(s, step, maxBatch);
    forall p <- t.pushed | SlotDone(t, p)
      ensures SlotProcessed(t, p)
    {
      if p !in s.pushed {
        NewIsNotDone(s, step, maxBatch, p);
      } else if SlotDone(s, p) {
        assert SlotProcessed(s, p);
      } else {
        DoneStep(s, step, maxBatch, p);
        if step.RecordRefusal? {
          NextIsUnprocessed(s, step.b);
        }
      }
    }
  }

  lemma NewIsNotDone(s: Engine, step: Step, maxBatch: nat, p: Work)
    requires Inv(s) && WellShaped(s) && Enabled(s, step, maxBatch) && !s.stopRequested
    requires p in Apply(s, step, maxBatch).pushed && p !in s.pushed
    ensures !SlotDone(Apply(s, step, maxBatch), p)
  {
    hide QueueKept, WorkKept, HandsKept, StopKept, Filled, Fresh, RefusalRecorded, OutcomeRecorded;
    assert NoneAhead(s.batches[step.b]) && BatchKept(s.batches[step.b]);
  }

  lemma GracefulAhead(s: Engine, step: Step, maxBatch: nat)
    requires Inv(s) && WellShaped(s) && Enabled(s, step, maxBatch) && !Apply(s, step, maxBatch).stopRequested
    ensures forall b <- Apply(s, step, maxBatch).batches :: NoneAhead(b)
  {
    var t := Apply(s, step, maxBatch);
    forall k | 0 <= k < |t.batches|
      ensures NoneAhead(t.batches[k])
    {
      if k < |s.batches| {
        AheadStep(s, step, maxBatch, k);
      }
    }
  }

  lemma AheadStep(s: Engine, step: Step, maxBatch: nat, k: nat)
    requires Inv(s) && WellShaped(s) && Enabled(s, step, maxBatch) && !Apply(s, step, maxBatch).stopRequested
    requires k < |s.batches|
    ensures NoneAhead(Apply(s, step, maxBatch).batches[k])
  {
    hide QueueKept, WorkKept, HandsKept, StopKept, BatchKept, Filled, Fresh, RefusalRecorded, OutcomeRecorded;
    OnwardStep(s, step, maxBatch);
    var t := Apply(s, step, maxBatch);
    assert NoneAhead(s.batches[k]);
    forall i | t.batches[k].next <= i < |t.batches[k].slots.done|
      ensures !t.batches[k].slots.done[i]
    {
      var p := Work(k, i);
      if SlotDone(t, p) {
        assert !SlotDone(s, p);
        DoneStep(s, step, maxBatch, p);
        if step.RecordAnswer? {
          ProcessedIsBehind(s, step, maxBatch, p);
        }
      }
    }
  }

  lemma ProcessedIsBehind(s: Engine, step: Step, maxBatch: nat, p: Work)
    requires Inv(s) && WellShaped(s) && Enabled(s, step, maxBatch)
    requires SlotProcessed(Apply(s, step, maxBatch), p)
    ensures p.slot < Apply(s, step, maxBatch).batches[p.batch].next
  {
    hide QueueKept, HandsKept, StopKept, BatchKept, Apply;
    WorkStep(s, step, maxBatch);
    assert p in Apply(s, step, maxBatch).pushed;
  }

  lemma GracefulExit(s: Engine, step: Step, maxBatch: nat)
    requires Inv(s) && WellShaped(s) && Enabled(s, step, maxBatch) && !Apply(s, step, maxBatch).stopRequested
    ensures var t := Apply(s, step, maxBatch);
            && ((exists w <- t.workers :: w == Exited) ==> t.queue.closed && t.queue.items == [])
            && (t.stop.NotCalled? || t.stop.Checking? || t.stop.Drain? || t.stop.Joining? || t.stop.Flagging?)
  {
    hide QueueKept, WorkKept, HandsKept, BatchKept, Filled, Fresh, RefusalRecorded, OutcomeRecorded;
    var t := Apply(s, step, maxBatch);
    if exists w <- t.workers :: w == Exited {
      var k :| 0 <= k < |t.workers| && t.workers[k] == Exited;
      if !(step.Exit? && step.w == k) {
        assert s.workers[k] == Exited;
        assert Exited in s.workers;
      }
    }
  }

  lemma StopStep(s: Engine, step: Step, maxBatch: nat)
    requires Inv(s) && WellShaped(s) && Enabled(s, step, maxBatch)
    ensures StopKept(Apply(s, step, maxBatch))
  {
    hide WorkKept, HandsKept, BatchKept, QueueKept, Filled, Fresh, RefusalRecorded, OutcomeRecorded;
  }

  lemma InvStep(s: Engine, step: Step, maxBatch: nat)
    requires Inv(s) && WellShaped(s) && Enabled(s, step, maxBatch)
    ensures Inv(Apply(s, step, maxBatch)) && WellShaped(Apply(s, step, maxBatch))
  {
    hide QueueKept, BatchesKept, WorkKept, HandsKept, GracefulKept, StopKept, Apply;
    QueueStep(s, step, maxBatch);
    BatchesStep(s, step, maxBatch);
    WorkStep(s, step, maxBatch);
    HandsStep(s, step, maxBatch);
    GracefulStep(s, step, maxBatch);
    StopStep(s, step, maxBatch);
    InvIsWellShaped(Apply(s, step, maxBatch));
  }

  lemma InvInitially(s: Engine)
    requires Initial(s)
    ensures Inv(s) && WellShaped(s)
  {
  }

  // ---- runs ------------------------------------------------------------------------------------

  // A run is any sequence of enabled steps from an initial engine.
  ghost predicate IsRun(trace: seq<Engine>, steps: seq<Step>, maxBatch: nat) {
    && |trace| == |steps| + 1 && Initial(trace[0])
    && forall i :: 0 <= i < |steps| ==>
         && WellShaped(trace[i]) && Enabled(trace[i], steps[i], maxBatch)
         && trace[i + 1] == Apply(trace[i], steps[i], maxBatch)
  }

  lemma {:induction false} InvOnRuns(trace: seq<Engine>, steps: seq<Step>, maxBatch: nat, i: nat)
    requires IsRun(trace, steps, maxBatch) && i < |trace|
    ensures Inv(trace[i]) && WellShaped(trace[i])
  {
    hide Inv, Apply, Enabled, WellShaped;
    if i == 0 {
      InvInitially(trace[0]);
    } else {
      InvOnRuns(trace, steps, maxBatch, i - 1);
      InvStep(trace[i - 1], steps[i - 1], maxBatch);
    }
  }

  // At every moment of every run: the queue is within its capacity, nothing is
  // lost or reordered, the count of open slots is exact, and a batch whose
  // caller has returned has an outcome in every slot.
  lemma Safety(trace: seq<Engine>, steps: seq<Step>, maxBatch: nat, i: nat)
    requires IsRun(trace, steps, maxBatch) && i < |trace|
    ensures var s := trace[i];
            && |s.queue.items| <= s.queue.stats.highWater <= s.queue.capacity
            && s.pushed == s.popped + s.discarded + s.queue.items
            && s.popped <= s.pushed
            && (forall j, k :: 0 <= j < k < |s.pushed| ==> s.pushed[j] != s.pushed[k])
            && (forall b <- s.batches ::
                  && b.slots.outstanding == Undone(b.slots.done)
                  && (b.phase == Returned ==> forall r <- b.slots.results :: !r.Unset?))
  {
    hide Apply, HandsKept, GracefulKept, StopKept;
    InvOnRuns(trace, steps, maxBatch, i);
  }

  // A worker's outcome is never overwritten, and a returned batch never changes.
  lemma {:induction false} OutcomesStay(trace: seq<Engine>, steps: seq<Step>, maxBatch: nat, i: nat, j: nat, b: nat)
    requires IsRun(trace, steps, maxBatch) && i <= j < |trace| && b < |trace[i].batches|
    ensures b < |trace[j].batches| && Onward(trace[i].batches[b], trace[j].batches[b])
    decreases j
  {
    hide Inv, Apply, Enabled, WellShaped, Onward;
    if i == j {
      SameIsOnward(trace[i].batches[b]);
    } else {
      OutcomesStay(trace, steps, maxBatch, i, j - 1, b);
      InvOnRuns(trace, steps, maxBatch, j - 1);
      OnwardStep(trace[j - 1], steps[j - 1], maxBatch);
      OnwardJoins(trace[i].batches[b], trace[j - 1].batches[b], trace[j].batches[b]);
    }
  }

  lemma OnwardJoins(a: Batch, b: Batch, c: Batch)
    requires Onward(a, b) && Onward(b, c)
    ensures Onward(a, c)
  {
  }

  // A graceful stop: when all workers have been joined and nobody has asked to
  // stop in the meantime, every accepted push was popped, handed to the store,
  // and its answer recorded; nothing was discarded.
  lemma GracefulStopProcessesAll(trace: seq<Engine>, steps: seq<Step>, maxBatch: nat, i: nat)
    requires IsRun(trace, steps, maxBatch) && i < |steps| && steps[i] == StopJoin && !trace[i].stopRequested
    ensures var s := trace[i];
            && s.popped == s.pushed && s.discarded == [] && s.queue.closed
            && forall p <- s.pushed :: SlotProcessed(s, p)
  {
    hide BatchesKept, WorkKept;
    InvOnRuns(trace, steps, maxBatch, i);
    var s := trace[i];
    assert Enabled(s, StopJoin, maxBatch);
    assert s.workers[0] in s.workers;
    assert Exited in s.workers;
    assert s.popped + [] + [] == s.popped;
    forall p <- s.pushed
      ensures SlotProcessed(s, p)
    {
      assert !SomeoneHolds(s, p);
    }
  }

  // After stop has closed the queue nobody is left waiting: each batch whose
  // caller has not returned can take a step, apart from registering while the
  // sweep holds the registry.
  lemma NobodyIsStuck(trace: seq<Engine>, steps: seq<Step>, maxBatch: nat, i: nat, b: nat)
    requires IsRun(trace, steps, maxBatch) && i < |trace| && b < |trace[i].batches|
    requires trace[i].stop.Sweeping? || trace[i].stop.Finished?
    requires trace[i].batches[b].phase != Returned
    ensures var s := trace[i];
            || Enabled(s, PushNext(b), maxBatch) || Enabled(s, RecordRefusal(b), maxBatch)
            || Enabled(s, StartWait(b), maxBatch) || Enabled(s, Return(b), maxBatch)
            || Enabled(s, Register(b), maxBatch) || (s.batches[b].phase == Entered && s.stop.Sweeping?)
  {
    hide QueueKept, BatchesKept, WorkKept, HandsKept, GracefulKept;
    InvOnRuns(trace, steps, maxBatch, i);
  }
}
