// The operator pipeline run of tomviz/PipelineWorker.cxx.
//
// A `Run` owns a FIFO of runnable operators, one "currently running" slot, a
// list of completed runnables and a state flag. Everything happens on the
// owner thread, so each slot or public call is one event on the run. The
// global thread pool is reduced to the set `inPool` of runnables handed to it
// and not yet reported back, and the single-shot timer that `start` arms to
// `timerPending`. Whether `QThreadPool::tryTake` wins its race against the
// pool and whether an operator reports itself canceled are decided outside
// the run; they are parameters of the events.

module PipelineWorker {
  import opened Wrappers

  /** Identity of an `Operator*`. */
  type OpId = nat
  /** Identity of the `vtkDataObject*` a run works on. */
  type DataId = nat

  /** TransformResult of an operator (Operator.h is not part of this model). */
  datatype TransformResult = ResultComplete | ResultError | ResultCanceled

  /** Run::State. */
  datatype State = Created | Running | Canceled | Complete

  /**
   * A RunnableOperator: a fresh object per enqueue. `id` stands for its object
   * identity; it is the position of the runnable in the order of creation.
   */
  datatype Unit = Unit(id: nat, op: OpId, data: DataId)

  /** The two signals a run forwards to its Future. */
  datatype Signal = FinishedSignal(ok: bool) | CanceledSignal

  /**
   * The observable state of a run. Besides the fields of the C++ class it
   * records the pool, the pending timer, every submission to the pool in
   * order, every `cancelTransform` request, every emitted signal, and (for
   * the proofs) every runnable ever enqueued and the ones `cancel(op)` took
   * out of the queue.
   */
  datatype RunModel = RunModel(
    data: DataId,
    operators: seq<OpId>,
    queue: seq<Unit>,
    running: Option<Unit>,
    complete: seq<Unit>,
    state: State,
    inPool: set<Unit>,
    timerPending: bool,
    submitted: seq<Unit>,
    cancelRequests: seq<OpId>,
    emitted: seq<Signal>,
    enqueued: seq<Unit>,
    removed: set<Unit>)

  // ---------------------------------------------------------------------
  // Sequence helpers

  /** The elements of `e` not in `r`, in order. */
  function Filter(e: seq<Unit>, r: set<Unit>): seq<Unit>
  {
    if |e| == 0 then []
    else Filter(e[..|e| - 1], r) + (if e[|e| - 1] in r then [] else [e[|e| - 1]])
  }

  /** QList::removeAll(x): every occurrence of `x` removed, order kept. */
  function Without(s: seq<Unit>, x: Unit): seq<Unit>
  {
    if |s| == 0 then []
    else Without(s[..|s| - 1], x) + (if s[|s| - 1] == x then [] else [s[|s| - 1]])
  }

  predicate Distinct(s: seq<Unit>)
  {
    forall i, j :: 0 <= i < j < |s| ==> s[i] != s[j]
  }

  lemma {:induction false} FilterMember(e: seq<Unit>, r: set<Unit>, x: Unit)
    ensures x in Filter(e, r) <==> x in e && x !in r
    decreases |e|
  {
    if |e| > 0 {
      FilterMember(e[..|e| - 1], r, x);
      assert e == e[..|e| - 1] + [e[|e| - 1]];
    }
  }

  lemma {:induction false} FilterEmpty(e: seq<Unit>)
    ensures Filter(e, {}) == e
    decreases |e|
  {
    if |e| > 0 {
      FilterEmpty(e[..|e| - 1]);
      assert e == e[..|e| - 1] + [e[|e| - 1]];
    }
  }

  lemma FilterAppend(e: seq<Unit>, r: set<Unit>, u: Unit)
    requires u !in r
    ensures Filter(e + [u], r) == Filter(e, r) + [u]
  {
    assert (e + [u])[..|e|] == e;
  }

  lemma {:induction false} FilterRemove(e: seq<Unit>, r: set<Unit>, x: Unit)
    ensures Filter(e, r + {x}) == Without(Filter(e, r), x)
    decreases |e|
  {
    if |e| > 0 {
      var init, last := e[..|e| - 1], e[|e| - 1];
      FilterRemove(init, r, x);
      var fi := Filter(init, r);
      if last in r {
        assert Filter(e, r + {x}) == Filter(init, r + {x}) + [];
        assert Filter(e, r) == fi + [];
        assert fi + [] == fi;
        assert Filter(init, r + {x}) + [] == Filter(init, r + {x});
      } else {
        assert Filter(e, r) == fi + [last];
        assert (fi + [last])[..|fi|] == fi;
        if last == x {
          assert Filter(e, r + {x}) == Filter(init, r + {x}) + [];
        } else {
          assert Filter(e, r + {x}) == Filter(init, r + {x}) + [last];
        }
      }
    }
  }

  lemma {:induction false} FilterDistinct(e: seq<Unit>, r: set<Unit>)
    requires Distinct(e)
    ensures Distinct(Filter(e, r))
    decreases |e|
  {
    if |e| > 0 {
      var init, last := e[..|e| - 1], e[|e| - 1];
      FilterDistinct(init, r);
      FilterMember(init, r, last);
      assert last !in init;
    }
  }

  lemma {:induction false} WithoutAppend(a: seq<Unit>, b: seq<Unit>, x: Unit)
    ensures Without(a + b, x) == Without(a, x) + Without(b, x)
    decreases |b|
  {
    if |b| == 0 {
      assert a + b == a;
    } else {
      var init, last := b[..|b| - 1], b[|b| - 1];
      WithoutAppend(a, init, x);
      assert a + b == (a + init) + [last];
      assert (a + b)[..|a + b| - 1] == a + init;
    }
  }

  lemma {:induction false} WithoutAbsent(s: seq<Unit>, x: Unit)
    requires x !in s
    ensures Without(s, x) == s
    decreases |s|
  {
    if |s| > 0 {
      WithoutAbsent(s[..|s| - 1], x);
      assert s == s[..|s| - 1] + [s[|s| - 1]];
    }
  }

  lemma DistinctSplit(s: seq<Unit>, i: nat)
    requires Distinct(s) && i < |s|
    ensures s[i] !in s[..i] && s[i] !in s[i + 1..]
  {
    var a, b := s[..i], s[i + 1..];
    forall k | 0 <= k < |a| ensures a[k] != s[i] {
      assert a[k] == s[k];
    }
    forall k | 0 <= k < |b| ensures b[k] != s[i] {
      assert b[k] == s[i + 1 + k];
    }
  }

  lemma WithoutLast(a: seq<Unit>, x: Unit)
    ensures Without(a + [x], x) == Without(a, x)
  {
    assert (a + [x])[..|a|] == a;
  }

  /** Removing an element that occurs once, between a and b, leaves a + b. */
  lemma WithoutMiddle(a: seq<Unit>, x: Unit, b: seq<Unit>)
    requires x !in a && x !in b
    ensures Without(a + [x] + b, x) == a + b
  {
    assert Without(a + [x], x) == a by {
      WithoutLast(a, x);
      WithoutAbsent(a, x);
    }
    assert Without(b, x) == b by {
      WithoutAbsent(b, x);
    }
    WithoutAppend(a + [x], b, x);
  }

  /** In a duplicate-free sequence, removeAll of the element at `i` deletes exactly that slot. */
  lemma WithoutAt(s: seq<Unit>, i: nat)
    requires Distinct(s) && i < |s|
    ensures Without(s, s[i]) == s[..i] + s[i + 1..]
  {
    DistinctSplit(s, i);
    assert s == s[..i] + [s[i]] + s[i + 1..];
    WithoutMiddle(s[..i], s[i], s[i + 1..]);
  }

  // ---------------------------------------------------------------------
  // The invariant

  /**
   * What every reachable run satisfies:
   *  - runnables are numbered in creation order and all work on the run's data;
   *  - what was dispatched followed by what is queued is exactly the enqueued
   *    runnables minus the ones `cancel(op)` removed, in enqueue order, so the
   *    pool receives operators in queue order;
   *  - at most one runnable is in the pool, and only dispatched ones are;
   *  - the start timer is pending only before the first dispatch;
   *  - a created run has dispatched nothing; a complete run has nothing in
   *    flight and no dispatch left to come.
   */
  ghost predicate Valid(s: RunModel)
  {
    (forall k :: 0 <= k < |s.enqueued| ==> s.enqueued[k].id == k && s.enqueued[k].data == s.data)
    && s.submitted + s.queue == Filter(s.enqueued, s.removed)
    && |s.inPool| <= 1
    && (forall u :: u in s.inPool ==> u in s.submitted)
    && (forall u :: u in s.removed ==> u in s.enqueued)
    && (forall u :: u in s.complete ==> u in s.submitted)
    && (s.running.Some? ==> s.running.value in s.submitted)
    && (s.timerPending ==> s.submitted == [])
    && (s.state == Created ==> s.submitted == [] && !s.timerPending)
    && (s.state == Complete ==> s.inPool == {} && !s.timerPending)
  }

  /** A set of at most one element that holds `u` is `{u}`. */
  lemma OnlyOne(p: set<Unit>, u: Unit)
    requires |p| <= 1 && u in p
    ensures p == {u}
  {
    var rest := p - {u};
    assert p == rest + {u};
    assert |rest| == 0;
  }

  lemma EnqueuedDistinct(s: RunModel)
    requires Valid(s)
    ensures Distinct(s.enqueued)
  {
    forall i, j | 0 <= i < j < |s.enqueued| ensures s.enqueued[i] != s.enqueued[j] {
      assert s.enqueued[i].id == i && s.enqueued[j].id == j;
    }
  }

  /** Dispatched and queued runnables never repeat and never overlap. */
  lemma {:induction false} PendingDistinct(s: RunModel)
    requires Valid(s)
    ensures Distinct(s.submitted + s.queue)
    ensures forall u :: u in s.queue ==> u !in s.submitted && u !in s.removed && u in s.enqueued
  {
    EnqueuedDistinct(s);
    FilterDistinct(s.enqueued, s.removed);
    var p := s.submitted + s.queue;
    forall u | u in s.queue ensures u !in s.submitted && u !in s.removed && u in s.enqueued {
      var j :| 0 <= j < |s.queue| && s.queue[j] == u;
      assert p[|s.submitted| + j] == u;
      forall i | 0 <= i < |s.submitted| ensures s.submitted[i] != u {
        assert p[i] == s.submitted[i];
      }
      assert u in p;
      FilterMember(s.enqueued, s.removed, u);
    }
  }

  // ---------------------------------------------------------------------
  // Events

  /** The runnables created for `ops`, numbered from `first`. */
  function Units(ops: seq<OpId>, data: DataId, first: nat): (us: seq<Unit>)
    ensures |us| == |ops|
    ensures forall i :: 0 <= i < |ops| ==> us[i] == Unit(first + i, ops[i], data)
  {
    seq(|ops|, i requires 0 <= i < |ops| => Unit(first + i, ops[i], data))
  }

  /** Run::Run: one runnable per operator, in list order, all on `data`. */
  function Create(data: DataId, ops: seq<OpId>): (r: RunModel)
    ensures Valid(r)
    ensures r.state == Created && r.running == None && r.complete == [] && r.operators == ops
    ensures |r.queue| == |ops|
    ensures forall i :: 0 <= i < |ops| ==> r.queue[i].op == ops[i] && r.queue[i].data == data
  {
    var us := Units(ops, data, 0);
    FilterEmpty(us);
    RunModel(data, ops, us, None, [], Created, {}, false, [], [], [], us, {})
  }

  /** Run::start: arms the timer and marks the run RUNNING; nothing is dequeued. */
  function Started(s: RunModel): RunModel
  {
    s.(state := Running, timerPending := true)
  }

  /** Run::startNextOperator: dequeue the head into the running slot and submit it. */
  function StartNext(s: RunModel): RunModel
  {
    if |s.queue| == 0 then s
    else
      var u := s.queue[0];
      s.(queue := s.queue[1..], running := Some(u), inPool := s.inPool + {u},
         submitted := s.submitted + [u])
  }

  /** The single-shot timer armed by `start` fires `startNextOperator`. */
  function AfterTimer(s: RunModel): RunModel
  {
    StartNext(s.(timerPending := false))
  }

  /** Run::operatorComplete for the runnable `u` reporting `result`. */
  function Completed(s: RunModel, u: Unit, result: TransformResult, unitCanceled: bool): RunModel
  {
    var t := s.(complete := s.complete + [u], inPool := s.inPool - {u});
    if t.state == Canceled || unitCanceled then
      t.(emitted := t.emitted + [CanceledSignal])
    else if result != ResultComplete then
      t.(emitted := t.emitted + [FinishedSignal(false)], state := Complete)
    else if |t.queue| > 0 then
      StartNext(t)
    else
      t.(state := Complete, emitted := t.emitted + [FinishedSignal(true)])
  }

  /**
   * Run::cancel(). `taken` says whether `tryTake` got the running runnable
   * back before the pool started it.
   */
  function CancelRun(s: RunModel, taken: bool): RunModel
  {
    var t := s.(state := Canceled);
    match t.running
    case Some(u) =>
      t.(inPool := if taken then t.inPool - {u} else t.inPool,
         cancelRequests := t.cancelRequests + [u.op], running := None)
    case None =>
      t.(emitted := t.emitted + [CanceledSignal])
  }

  /** The first queued runnable of operator `op`. */
  function FirstOf(q: seq<Unit>, op: OpId): (r: Option<nat>)
    ensures r.Some? ==> r.value < |q| && q[r.value].op == op
                         && forall j :: 0 <= j < r.value ==> q[j].op != op
    ensures r.None? ==> forall j :: 0 <= j < |q| ==> q[j].op != op
  {
    if |q| == 0 then None
    else if q[0].op == op then Some(0)
    else match FirstOf(q[1..], op)
      case Some(k) => Some(k + 1)
      case None => None
  }

  /**
   * Run::cancel(op). The C++ code reads `m_running->op()` without checking
   * for a null slot; here an empty slot falls through to the queue search.
   */
  function CanceledOp(s: RunModel, op: OpId, taken: bool): (RunModel, bool)
  {
    if s.running.Some? && s.running.value.op == op then
      (CancelRun(s, taken), false)
    else match FirstOf(s.queue, op)
      case Some(i) =>
        (s.(queue := Without(s.queue, s.queue[i]), removed := s.removed + {s.queue[i]}), true)
      case None => (s, false)
  }

  /** Run::addOperator: only a RUNNING run takes new operators, at the tail. */
  function Added(s: RunModel, op: OpId): (RunModel, bool)
  {
    if s.state != Running then (s, false)
    else
      var u := Unit(|s.enqueued|, op, s.data);
      (s.(queue := s.queue + [u], enqueued := s.enqueued + [u]), true)
  }

  datatype Event =
    | StartEvent
    | TimerEvent
    | CompleteEvent(u: Unit, result: TransformResult, unitCanceled: bool)
    | CancelEvent(taken: bool)
    | CancelOpEvent(op: OpId, opTaken: bool)
    | AddEvent(addOp: OpId)

  /**
   * When each event can occur: `start` is called once on a new run, the timer
   * fires only when armed, and only a runnable in the pool can complete.
   */
  predicate Enabled(s: RunModel, e: Event)
  {
    match e
    case StartEvent => s.state == Created
    case TimerEvent => s.timerPending
    case CompleteEvent(u, _, _) => u in s.inPool
    case _ => true
  }

  function Step(s: RunModel, e: Event): RunModel
  {
    match e
    case StartEvent => Started(s)
    case TimerEvent => AfterTimer(s)
    case CompleteEvent(u, res, c) => Completed(s, u, res, c)
    case CancelEvent(taken) => CancelRun(s, taken)
    case CancelOpEvent(op, taken) => CanceledOp(s, op, taken).0
    case AddEvent(op) => Added(s, op).0
  }

  predicate EnabledTrace(s: RunModel, es: seq<Event>)
    decreases |es|
  {
    |es| == 0 || (Enabled(s, es[0]) && EnabledTrace(Step(s, es[0]), es[1..]))
  }

  function After(s: RunModel, es: seq<Event>): RunModel
    decreases |es|
  {
    if |es| == 0 then s else After(Step(s, es[0]), es[1..])
  }

  // ---------------------------------------------------------------------
  // Invariant preservation

  lemma StartNextValid(s: RunModel)
    requires Valid(s) && s.inPool == {} && !s.timerPending
    requires s.state == Running || s.state == Canceled
    ensures Valid(StartNext(s))
    ensures StartNext(s).submitted + StartNext(s).queue == s.submitted + s.queue
  {
    if |s.queue| > 0 {
      var t := StartNext(s);
      assert t.submitted + t.queue == s.submitted + ([s.queue[0]] + s.queue[1..]);
      assert [s.queue[0]] + s.queue[1..] == s.queue;
    }
  }

  /** Recording `u` as complete and out of the pool keeps the invariant and empties the pool. */
  lemma RetiredValid(s: RunModel, u: Unit)
    requires Valid(s) && u in s.inPool
    ensures var t := s.(complete := s.complete + [u], inPool := s.inPool - {u});
      Valid(t) && t.inPool == {}
  {
    OnlyOne(s.inPool, u);
    assert u in s.submitted;
  }

  lemma CompletedValid(s: RunModel, u: Unit, res: TransformResult, c: bool)
    requires Valid(s) && u in s.inPool
    ensures Valid(Completed(s, u, res, c))
  {
    var t := s.(complete := s.complete + [u], inPool := s.inPool - {u});
    RetiredValid(s, u);
    if !(t.state == Canceled || c) && res == ResultComplete && |t.queue| > 0 {
      StartNextValid(t);
    }
  }

  lemma CancelRunValid(s: RunModel, taken: bool)
    requires Valid(s)
    ensures Valid(CancelRun(s, taken))
  {
  }

  /** Removing a queued runnable keeps the invariant: it leaves both the queue and the filter. */
  lemma RemoveQueuedValid(s: RunModel, q: Unit)
    requires Valid(s) && q in s.queue
    ensures Valid(s.(queue := Without(s.queue, q), removed := s.removed + {q}))
  {
    PendingDistinct(s);
    FilterRemove(s.enqueued, s.removed, q);
    WithoutAppend(s.submitted, s.queue, q);
    WithoutAbsent(s.submitted, q);
  }

  lemma CanceledOpValid(s: RunModel, op: OpId, taken: bool)
    requires Valid(s)
    ensures Valid(CanceledOp(s, op, taken).0)
  {
    if s.running.Some? && s.running.value.op == op {
      CancelRunValid(s, taken);
    } else if FirstOf(s.queue, op).Some? {
      var i := FirstOf(s.queue, op).value;
      RemoveQueuedValid(s, s.queue[i]);
    }
  }

  lemma AddedValid(s: RunModel, op: OpId)
    requires Valid(s)
    ensures Valid(Added(s, op).0)
  {
    if s.state == Running {
      var u := Unit(|s.enqueued|, op, s.data);
      assert u !in s.enqueued by {
        forall k | 0 <= k < |s.enqueued| ensures s.enqueued[k] != u {
          assert s.enqueued[k].id == k;
        }
      }
      var t := Added(s, op).0;
      assert t.submitted + t.queue == Filter(t.enqueued, t.removed) by {
        FilterAppend(s.enqueued, s.removed, u);
        assert t.submitted + t.queue == (s.submitted + s.queue) + [u];
      }
      assert forall k :: 0 <= k < |t.enqueued| ==> t.enqueued[k].id == k && t.enqueued[k].data == t.data by {
        forall k | 0 <= k < |t.enqueued| ensures t.enqueued[k].id == k && t.enqueued[k].data == t.data {
          if k < |s.enqueued| { assert t.enqueued[k] == s.enqueued[k]; }
        }
      }
      assert forall v :: v in t.removed ==> v in t.enqueued;
    }
  }

  lemma StepValid(s: RunModel, e: Event)
    requires Valid(s) && Enabled(s, e)
    ensures Valid(Step(s, e))
  {
    match e
    case StartEvent =>
    case TimerEvent =>
      StartNextValid(s.(timerPending := false));
    case CompleteEvent(u, res, c) =>
      CompletedValid(s, u, res, c);
    case CancelEvent(taken) =>
      CancelRunValid(s, taken);
    case CancelOpEvent(op, taken) =>
      CanceledOpValid(s, op, taken);
    case AddEvent(op) =>
      AddedValid(s, op);
  }

  lemma {:induction false} TraceValid(s: RunModel, es: seq<Event>)
    requires Valid(s) && EnabledTrace(s, es)
    ensures Valid(After(s, es))
    decreases |es|
  {
    if |es| > 0 {
      StepValid(s, es[0]);
      TraceValid(Step(s, es[0]), es[1..]);
    }
  }

  // ---------------------------------------------------------------------
  // Properties of the events

  /** `start` changes only the state and arms the timer; nothing is dequeued or submitted. */
  lemma StartOnlySchedules(s: RunModel)
    requires Valid(s) && s.state == Created
    ensures Started(s).state == Running && Started(s).timerPending
    ensures Started(s).queue == s.queue && Started(s).submitted == [] && Started(s).inPool == {}
  {
  }

  /**
   * The first runnable to reach the pool is the first operator: after the
   * timer fires on a started run built from `ops`, the pool holds exactly the
   * runnable of `ops[0]`, and the queue holds the runnables of the rest.
   */
  lemma FirstDispatchIsHead(data: DataId, ops: seq<OpId>)
    requires |ops| > 0
    ensures var r := AfterTimer(Started(Create(data, ops)));
      r.submitted == [Unit(0, ops[0], data)] && r.inPool == {Unit(0, ops[0], data)}
      && r.running == Some(Unit(0, ops[0], data))
      && |r.queue| == |ops| - 1
      && forall i :: 0 <= i < |r.queue| ==> r.queue[i].op == ops[i + 1]
  {
  }

  /** startNextOperator on an empty queue changes nothing. */
  lemma StartNextEmptyQueue(s: RunModel)
    requires |s.queue| == 0
    ensures StartNext(s) == s
  {
  }

  /** At most one runnable is ever in the pool at a time. */
  lemma AtMostOneRunning(s: RunModel, es: seq<Event>)
    requires Valid(s) && EnabledTrace(s, es)
    ensures |After(s, es).inPool| <= 1
  {
    TraceValid(s, es);
  }

  /**
   * Dispatch follows queue order: at any point, the runnables submitted so
   * far followed by the ones still queued are the enqueued runnables, in the
   * order they were enqueued, minus the ones `cancel(op)` removed.
   */
  lemma DispatchFollowsQueueOrder(s: RunModel, es: seq<Event>)
    requires Valid(s) && EnabledTrace(s, es)
    ensures var r := After(s, es); r.submitted + r.queue == Filter(r.enqueued, r.removed)
  {
    TraceValid(s, es);
  }

  /** A completion always lands in the completed list, whatever the case. */
  lemma CompletionRecorded(s: RunModel, u: Unit, res: TransformResult, c: bool)
    ensures Completed(s, u, res, c).complete == s.complete + [u]
  {
  }

  /**
   * Results after cancellation count as cancellation: once the run is
   * canceled (or the unit reports itself canceled) a completion emits
   * `canceled`, keeps the state, and dispatches nothing.
   */
  lemma CanceledCompletion(s: RunModel, u: Unit, res: TransformResult, c: bool)
    requires s.state == Canceled || c
    ensures var r := Completed(s, u, res, c);
      r.emitted == s.emitted + [CanceledSignal] && r.state == s.state
      && r.queue == s.queue && r.submitted == s.submitted
  {
  }

  /** A run with nothing left to dispatch: terminal, nothing in flight, no timer. */
  predicate Halted(s: RunModel)
  {
    (s.state == Complete || s.state == Canceled) && s.inPool == {} && !s.timerPending
  }

  /** No event restarts a halted run, dispatches for it, or lets addOperator enqueue. */
  lemma {:induction false} HaltedStep(s: RunModel, e: Event)
    requires Valid(s) && Halted(s) && Enabled(s, e)
    ensures Halted(Step(s, e)) && Step(s, e).submitted == s.submitted
    ensures e.AddEvent? ==> Step(s, e).queue == s.queue && !Added(s, e.addOp).1
  {
    match e
    case CancelOpEvent(op, taken) =>
      if !(s.running.Some? && s.running.value.op == op) && FirstOf(s.queue, op).Some? {
        assert CanceledOp(s, op, taken).0.inPool == {};
      }
    case _ =>
  }

  lemma {:induction false} HaltedForever(s: RunModel, es: seq<Event>)
    requires Valid(s) && Halted(s) && EnabledTrace(s, es)
    ensures Halted(After(s, es)) && After(s, es).submitted == s.submitted
    decreases |es|
  {
    if |es| > 0 {
      HaltedStep(s, es[0]);
      StepValid(s, es[0]);
      HaltedForever(Step(s, es[0]), es[1..]);
    }
  }

  /**
   * An error halts the run: a failing result on a run that is not canceled
   * emits finished(false), marks the run COMPLETE, and no later event
   * dispatches another operator.
   */
  lemma ErrorHaltsRun(s: RunModel, u: Unit, res: TransformResult, es: seq<Event>)
    requires Valid(s) && u in s.inPool && s.state != Canceled && res != ResultComplete
    requires EnabledTrace(Completed(s, u, res, false), es)
    ensures var r := Completed(s, u, res, false);
      r.state == Complete && r.emitted == s.emitted + [FinishedSignal(false)]
      && After(r, es).submitted == s.submitted
  {
    var r := Completed(s, u, res, false);
    StepValid(s, CompleteEvent(u, res, false));
    OnlyOne(s.inPool, u);
    assert u in s.submitted;
    HaltedForever(r, es);
  }

  /**
   * A successful result dispatches the next queued operator, or, with an empty
   * queue, completes the run with finished(true).
   */
  lemma SuccessContinues(s: RunModel, u: Unit)
    requires s.state != Canceled
    ensures var r := Completed(s, u, ResultComplete, false);
      if |s.queue| > 0 then
        r.submitted == s.submitted + [s.queue[0]] && r.queue == s.queue[1..]
        && r.running == Some(s.queue[0]) && r.state == s.state
      else
        r.state == Complete && r.emitted == s.emitted + [FinishedSignal(true)]
        && r.running == s.running
  {
  }

  /**
   * cancel() always leaves the run CANCELED with an empty running slot, and
   * emits `canceled` itself exactly when nothing was in the slot.
   */
  lemma CancelOutcome(s: RunModel, taken: bool)
    ensures var r := CancelRun(s, taken);
      r.state == Canceled && r.running == None && r.queue == s.queue
      && (r.emitted == s.emitted + [CanceledSignal] <==> s.running == None)
      && (s.running.Some? ==> r.emitted == s.emitted && r.cancelRequests == s.cancelRequests + [s.running.value.op])
  {
  }

  /**
   * The slot is not cleared by a normal completion, so a cancel that arrives
   * after the last operator finished takes the "running" branch: it asks the
   * finished operator to cancel and emits nothing.
   */
  lemma CancelAfterNormalCompletion(s: RunModel, u: Unit, taken: bool)
    requires s.state != Canceled && |s.queue| == 0 && s.running == Some(u)
    ensures var r := CancelRun(Completed(s, u, ResultComplete, false), taken);
      r.emitted == s.emitted + [FinishedSignal(true)]
      && r.cancelRequests == s.cancelRequests + [u.op]
  {
  }

  /**
   * The queue is left intact by cancel(), and the timer armed by start still
   * calls startNextOperator, which does not look at the state: a run canceled
   * before its first dispatch still hands its first operator to the pool, and
   * its canceled signal has already gone out.
   */
  lemma CancelBeforeFirstDispatch(data: DataId, op: OpId)
    ensures var r := AfterTimer(CancelRun(Started(Create(data, [op])), false));
      r.state == Canceled && r.submitted == [Unit(0, op, data)]
      && r.emitted == [CanceledSignal]
  {
  }

  /**
   * A runnable taken back from the pool never reports: cancel() emits
   * nothing in that case and the pool is left empty, so no completion (and so
   * no `canceled`) will follow.
   */
  lemma CancelTakenIsSilent(s: RunModel, u: Unit)
    requires Valid(s) && s.running == Some(u) && u in s.inPool
    ensures var r := CancelRun(s, true);
      r.emitted == s.emitted && r.inPool == {}
  {
    OnlyOne(s.inPool, u);
  }

  /**
   * cancel(op) has three outcomes: the running operator cancels the whole
   * run and answers false; a queued operator loses its first runnable, the
   * others keep their order, the state is unchanged and the answer is true;
   * any other operator changes nothing and answers false.
   */
  lemma CancelOpOutcome(s: RunModel, op: OpId, taken: bool)
    requires Valid(s)
    ensures var (r, ok) := CanceledOp(s, op, taken);
      if s.running.Some? && s.running.value.op == op then
        !ok && r == CancelRun(s, taken)
      else if exists i :: 0 <= i < |s.queue| && s.queue[i].op == op then
        ok && r.state == s.state && r.running == s.running
        && exists i :: 0 <= i < |s.queue| && s.queue[i].op == op
             && (forall j :: 0 <= j < i ==> s.queue[j].op != op)
             && r.queue == s.queue[..i] + s.queue[i + 1..]
      else
        !ok && r == s
  {
    if !(s.running.Some? && s.running.value.op == op) {
      match FirstOf(s.queue, op)
      case Some(i) =>
        PendingDistinct(s);
        assert Distinct(s.queue) by {
          forall a, b | 0 <= a < b < |s.queue| ensures s.queue[a] != s.queue[b] {
            assert (s.submitted + s.queue)[|s.submitted| + a] == s.queue[a];
            assert (s.submitted + s.queue)[|s.submitted| + b] == s.queue[b];
          }
        }
        WithoutAt(s.queue, i);
      case None =>
    }
  }

  /**
   * addOperator enqueues at the tail, without dispatching, exactly when the
   * run is RUNNING; otherwise it answers false and changes nothing.
   */
  lemma AddOperatorOutcome(s: RunModel, op: OpId)
    ensures var (r, ok) := Added(s, op);
      ok == (s.state == Running)
      && (ok ==> |r.queue| == |s.queue| + 1 && r.queue[..|s.queue|] == s.queue
                 && r.queue[|s.queue|].op == op && r.queue[|s.queue|].data == s.data
                 && r.submitted == s.submitted && r.inPool == s.inPool)
      && (!ok ==> r == s)
  {
  }

  // ---------------------------------------------------------------------
  // Thread pool sizing

  /** ConfigureThreadPool: one thread when none is reported, else half of them. */
  function ThreadCount(ideal: int): (n: int)
  {
    if ideal < 1 then 1 else ideal / 2
  }

  /**
   * The pool size is at most the ideal count when that is positive, and it
   * is zero exactly when the ideal count is 1.
   */
  lemma ThreadCountBounds(ideal: int)
    ensures ThreadCount(ideal) >= 0
    ensures ideal >= 1 ==> ThreadCount(ideal) <= ideal
    ensures ThreadCount(ideal) == 0 <==> ideal == 1
  {
  }

  // ---------------------------------------------------------------------
  // The run object

  class Run {
    var data: DataId
    var operators: seq<OpId>
    var queue: seq<Unit>
    var running: Option<Unit>
    var complete: seq<Unit>
    var state: State
    /** Number of runnables created so far; a new runnable's identity. */
    var created: nat
    ghost var inPool: set<Unit>
    ghost var timerPending: bool
    ghost var submitted: seq<Unit>
    ghost var cancelRequests: seq<OpId>
    ghost var emitted: seq<Signal>
    ghost var enqueued: seq<Unit>
    ghost var removed: set<Unit>

    ghost function Model(): RunModel
      reads this
    {
      RunModel(data, operators, queue, running, complete, state, inPool, timerPending,
               submitted, cancelRequests, emitted, enqueued, removed)
    }

    ghost predicate Inv()
      reads this
    {
      Valid(Model()) && created == |enqueued|
    }

    constructor (d: DataId, ops: seq<OpId>)
      ensures Inv() && Model() == Create(d, ops)
    {
      data := d;
      operators := ops;
      var us := Units(ops, d, 0);
      FilterEmpty(us);
      queue := us;
      running := None;
      complete := [];
      state := Created;
      created := |ops|;
      inPool := {};
      timerPending := false;
      submitted := [];
      cancelRequests := [];
      emitted := [];
      enqueued := us;
      removed := {};
    }

    method Start()
      requires Inv() && state == Created
      modifies this
      ensures Inv() && Model() == Started(old(Model()))
    {
      timerPending := true;
      state := Running;
      StepValid(old(Model()), StartEvent);
    }

    /** startNextOperator; callers invoke it only with nothing in flight. */
    method StartNextOperator()
      requires Inv() && inPool == {} && !timerPending
      requires state == Running || state == Canceled
      modifies this
      ensures Inv() && Model() == StartNext(old(Model()))
    {
      ghost var next := StartNext(Model());
      StartNextValid(Model());
      if |queue| > 0 {
        var u := queue[0];
        queue, running, inPool, submitted := queue[1..], Some(u), inPool + {u}, submitted + [u];
      }
      assert Model() == next;
    }

    /** The single-shot timer armed by start() calls startNextOperator. */
    method TimerFired()
      requires Inv() && timerPending
      modifies this
      ensures Inv() && Model() == AfterTimer(old(Model()))
    {
      timerPending := false;
      StartNextOperator();
    }

    method OperatorComplete(u: Unit, result: TransformResult, unitCanceled: bool)
      requires Inv() && u in inPool
      modifies this
      ensures Inv() && Model() == Completed(old(Model()), u, result, unitCanceled)
    {
      ghost var next := Completed(Model(), u, result, unitCanceled);
      ghost var retired := Model().(complete := complete + [u], inPool := inPool - {u});
      CompletedValid(Model(), u, result, unitCanceled);
      RetiredValid(Model(), u);
      complete, inPool := complete + [u], inPool - {u};
      assert Model() == retired;
      var ok := result == ResultComplete;
      if state == Canceled || unitCanceled {
        emitted := emitted + [CanceledSignal];
      } else if !ok {
        emitted, state := emitted + [FinishedSignal(false)], Complete;
      } else if |queue| > 0 {
        StartNextOperator();
      } else {
        state, emitted := Complete, emitted + [FinishedSignal(true)];
      }
      assert Model() == next;
    }

    method Cancel(taken: bool)
      requires Inv()
      modifies this
      ensures Inv() && Model() == CancelRun(old(Model()), taken)
    {
      ghost var next := CancelRun(Model(), taken);
      CancelRunValid(Model(), taken);
      if running.Some? {
        var u := running.value;
        state, inPool, cancelRequests, running :=
          Canceled, if taken then inPool - {u} else inPool, cancelRequests + [u.op], None;
      } else {
        state, emitted := Canceled, emitted + [CanceledSignal];
      }
      assert Model() == next;
    }

    method CancelOp(op: OpId, taken: bool) returns (removedFromQueue: bool)
      requires Inv()
      modifies this
      ensures Inv() && (Model(), removedFromQueue) == CanceledOp(old(Model()), op, taken)
    {
      CanceledOpValid(Model(), op, taken);
      if running.Some? && running.value.op == op {
        Cancel(taken);
        return false;
      }
      var i := 0;
      while i < |queue|
        invariant 0 <= i <= |queue|
        invariant forall j :: 0 <= j < i ==> queue[j].op != op
        invariant Model() == old(Model())
      {
        if queue[i].op == op {
          assert FirstOf(queue, op) == Some(i);
          var q := queue[i];
          queue := Without(queue, q);
          removed := removed + {q};
          return true;
        }
        i := i + 1;
      }
      return false;
    }

    method IsRunning() returns (r: bool)
      ensures r <==> state == Running
    {
      return state == Running;
    }

    method AddOperator(op: OpId) returns (added: bool)
      requires Inv()
      modifies this
      ensures Inv() && (Model(), added) == Added(old(Model()), op)
    {
      AddedValid(Model(), op);
      if state != Running {
        return false;
      }
      var u := Unit(created, op, data);
      queue := queue + [u];
      enqueued := enqueued + [u];
      created := created + 1;
      return true;
    }

    method Operators() returns (ops: seq<OpId>)
      ensures ops == operators
    {
      return operators;
    }
  }

  /** PipelineWorker::Future: every call forwards to its run. */
  class Future {
    const run: Run

    constructor (r: Run)
      ensures run == r
    {
      run := r;
    }

    method Cancel(taken: bool)
      requires run.Inv()
      modifies run
      ensures run.Inv() && run.Model() == CancelRun(old(run.Model()), taken)
    {
      run.Cancel(taken);
    }

    method CancelOp(op: OpId, taken: bool) returns (ok: bool)
      requires run.Inv()
      modifies run
      ensures run.Inv() && (run.Model(), ok) == CanceledOp(old(run.Model()), op, taken)
    {
      ok := run.CancelOp(op, taken);
    }

    method IsRunning() returns (r: bool)
      ensures r <==> run.state == Running
    {
      r := run.IsRunning();
    }

    method Result() returns (d: DataId)
      ensures d == run.data
    {
      return run.data;
    }

    method AddOperator(op: OpId) returns (added: bool)
      requires run.Inv()
      modifies run
      ensures run.Inv() && (run.Model(), added) == Added(old(run.Model()), op)
    {
      added := run.AddOperator(op);
    }

    method Operators() returns (ops: seq<OpId>)
      ensures ops == run.operators
    {
      ops := run.Operators();
    }
  }

  /**
   * PipelineWorker::run: every operator is reset (`reset` lists the calls in
   * order), then a new run over `ops` is created and started.
   */
  method RunPipeline(data: DataId, ops: seq<OpId>) returns (f: Future, reset: seq<OpId>)
    ensures fresh(f) && fresh(f.run) && f.run.Inv()
    ensures f.run.Model() == Started(Create(data, ops))
    ensures reset == ops
  {
    reset := [];
    for i := 0 to |ops|
      invariant reset == ops[..i]
    {
      reset := reset + [ops[i]];
    }
    var r := new Run(data, ops);
    r.Start();
    f := new Future(r);
  }

  /** The single-operator overload runs a one-element list. */
  method RunOne(data: DataId, op: OpId) returns (f: Future, reset: seq<OpId>)
    ensures fresh(f) && fresh(f.run) && f.run.Inv()
    ensures f.run.Model() == Started(Create(data, [op])) && reset == [op]
  {
    f, reset := RunPipeline(data, [op]);
  }
}
