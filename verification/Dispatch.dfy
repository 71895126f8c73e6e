/** The dispatch/completion protocol of `joblib.parallel.Parallel`, one step per critical section.

    `__call__` is three steps, because completion callbacks of an earlier call can run between them:
    `Reset` (the counters and flags), `InstallId` (the fresh call id, under the lock) and
    `InstallIterator` (the new `_original_iterator`). A completion callback is two steps, one for
    each of its critical sections. */
module Dispatch {
  import opened Batches
  import opened Wrappers

  datatype Phase = Idle | Cleared | Identified | Priming | Consuming

  /** The fields of a `Parallel` object and what surrounds it.
      source: what the iterator behind `_original_iterator` has not given out yet
      slice: how many tasks the pre-dispatch slice may still take from it
      lazy: `_original_iterator` is not None, i.e. `pre_dispatch != 'all'`
      past, own: the callbacks of earlier calls and of the current call id, in order of creation;
      `jobs` holds positions in `past + own`
      outputs: the rest of the batch the consumer is yielding from
      taken: the tasks dispatched under the current call id, in order */
  datatype State<T, R> = State(
    ordered: bool, phase: Phase, callId: nat, iterating: bool, aborting: bool,
    nDispatched: nat, nCompleted: nat,
    lazy: bool, source: seq<T>, slice: nat,
    past: seq<Callback<T, R>>, own: seq<Callback<T, R>>, jobs: seq<nat>, outputs: seq<R>, yielded: seq<R>,
    taken: seq<T>)

  datatype Event<T> =
    | Reset
    | InstallId(id: nat)
    | InstallIterator(input: seq<T>, amount: nat, lazy: bool)
    | PreDispatch(k: nat)
    | Finish(i: nat, success: bool)
    | DispatchNew(i: nat, k: nat)
    | Pull(k: nat)
    | Load
    | Yield
    | Complete
    | Stop

  /** A `Parallel` object that was never called. */
  function New<T, R>(ordered: bool): State<T, R> {
    State(ordered, Idle, 0, false, false, 0, 0, false, [], 0, [], [], [], [], [], [])
  }

  function Size<T, R>(s: State<T, R>): nat { |s.past| + |s.own| }

  function At<T, R>(s: State<T, R>, i: nat): Callback<T, R>
    requires i < Size(s)
  {
    if i < |s.past| then s.past[i] else s.own[i - |s.past|]
  }

  function Put<T, R>(s: State<T, R>, i: nat, c: Callback<T, R>): State<T, R>
    requires i < Size(s)
  {
    if i < |s.past| then s.(past := s.past[i := c]) else s.(own := s.own[i - |s.past| := c])
  }

  /** Queue a batch of the next `n` tasks for computing. */
  function Queue<T, R>(s: State<T, R>, n: nat): State<T, R>
    requires n <= |s.source|
  {
    s.(source := s.source[n..], taken := s.taken + s.source[..n], nDispatched := s.nDispatched + n,
       own := s.own + [Callback(s.callId, s.source[..n], Pending, [], InFlight, false)],
       jobs := if s.ordered then s.jobs + [Size(s)] else s.jobs)
  }

  /** `dispatch_next` over `_original_iterator`, with an effective batch size of `k`. */
  function DispatchNext<T, R>(s: State<T, R>, k: nat): State<T, R> {
    var n := Min(k, |s.source|);
    if n == 0 then s.(iterating := false) else Queue(s, n)
  }

  predicate InCall(p: Phase) { p == Identified || p == Priming || p == Consuming }

  predicate Enabled<T, R>(s: State<T, R>, e: Event<T>) {
    match e
    case Reset => s.phase == Idle
    case InstallId(id) => s.phase == Cleared && forall i :: 0 <= i < Size(s) ==> At(s, i).callId != id
    case InstallIterator(_, _, _) => s.phase == Identified
    case PreDispatch(k) => s.phase == Priming && 0 < k
    case Finish(i, _) => i < Size(s) && At(s, i).stage == InFlight
    case DispatchNew(i, k) => i < Size(s) && At(s, i).stage == Succeeded && 0 < k
    case Pull(k) => s.phase == Consuming && s.nCompleted >= s.nDispatched && s.iterating && 0 < k
    case Load => s.phase == Consuming && s.nCompleted < s.nDispatched && s.outputs == [] && s.jobs != []
                 && s.jobs[0] < Size(s) && At(s, s.jobs[0]).status == Done
    case Yield => s.phase == Consuming && s.nCompleted < s.nDispatched && s.outputs != []
    case Complete => s.phase == Consuming && !s.iterating && s.nCompleted >= s.nDispatched
    case Stop => s.phase == Priming || s.phase == Consuming
  }

  /** What its own critical section makes of a callback: nothing if it belongs to another call, or the
      call is aborting. */
  function Settled<T, R>(f: T -> R, s: State<T, R>, c: Callback<T, R>, success: bool): Callback<T, R> {
    if c.callId != s.callId || s.aborting then c.(stage := Over)
    else if success then c.(status := Done, result := Map(f, c.tasks), stage := Succeeded)
    else c.(status := Error, stage := Over)
  }

  /** `BatchCompletionCallBack.__call__` up to the end of its own critical section. */
  function FirstSection<T, R>(f: T -> R, s: State<T, R>, i: nat, success: bool): State<T, R>
    requires i < Size(s)
  {
    var t := Put(s, i, Settled(f, s, At(s, i), success));
    if At(s, i).callId != s.callId || s.aborting || s.ordered then t else t.(jobs := t.jobs + [i])
  }

  /** `_dispatch_new`: the second critical section of a successful callback. */
  function SecondSection<T, R>(s: State<T, R>, i: nat, k: nat): State<T, R>
    requires i < Size(s)
  {
    var t := Put(s, i, At(s, i).(stage := Over));
    if s.aborting || !s.lazy then t
    else DispatchNext(t, k)
  }

  lemma SectionsYieldNothing<T, R>(f: T -> R, s: State<T, R>, i: nat, success: bool, k: nat)
    requires i < Size(s)
    ensures FirstSection(f, s, i, success).yielded == s.yielded == SecondSection(s, i, k).yielded
  {
  }

  /** One `dispatch_one_batch` over the pre-dispatch slice; an empty one ends the priming. */
  function Prime<T, R>(s: State<T, R>, k: nat): State<T, R> {
    var n := Min(Min(k, |s.source|), if s.lazy then s.slice else k);
    if n == 0 then s.(phase := Consuming, iterating := s.iterating && s.lazy)
    else Queue(s, n).(slice := if s.lazy then s.slice - n else s.slice)
  }

  /** `_reset_run_tracking`. */
  function Clear<T, R>(s: State<T, R>): State<T, R> {
    s.(phase := Cleared, nCompleted := 0, nDispatched := 0, aborting := false, iterating := true, yielded := [])
  }

  function SetId<T, R>(s: State<T, R>, id: nat): State<T, R> {
    s.(phase := Identified, callId := id, past := s.past + s.own, own := [], taken := [])
  }

  function SetIterator<T, R>(s: State<T, R>, input: seq<T>, amount: nat, lazy: bool): State<T, R> {
    s.(phase := Priming, source := input, slice := amount, lazy := lazy)
  }

  /** The consumer turns to the batch at the head of the queue. */
  function Take<T, R>(s: State<T, R>): State<T, R>
    requires s.jobs != [] && s.jobs[0] < Size(s)
  {
    Put(s, s.jobs[0], At(s, s.jobs[0]).(read := true)).(outputs := At(s, s.jobs[0]).result, jobs := s.jobs[1..])
  }

  function YieldOne<T, R>(s: State<T, R>): State<T, R>
    requires s.outputs != []
  {
    s.(outputs := s.outputs[1..], yielded := s.yielded + [s.outputs[0]], nCompleted := s.nCompleted + 1)
  }

  function Close<T, R>(s: State<T, R>): State<T, R> { s.(phase := Idle) }

  /** The call is aborted, and what is queued is dropped. */
  function Halt<T, R>(s: State<T, R>): State<T, R> { s.(phase := Idle, aborting := true, jobs := [], outputs := []) }

  function Apply<T, R>(f: T -> R, s: State<T, R>, e: Event<T>): State<T, R>
    requires Enabled(s, e)
  {
    match e
    case Reset => Clear(s)
    case InstallId(id) => SetId(s, id)
    case InstallIterator(input, amount, lazy) => SetIterator(s, input, amount, lazy)
    case PreDispatch(k) => Prime(s, k)
    case Finish(i, success) => FirstSection(f, s, i, success)
    case DispatchNew(i, k) => SecondSection(s, i, k)
    case Pull(k) => DispatchNext(s, k)
    case Load => Take(s)
    case Yield => YieldOne(s)
    case Complete => Close(s)
    case Stop => Halt(s)
  }

  /** `t` is reached from `s` by the steps `es`, in order. */
  ghost predicate Steps<T, R>(f: T -> R, s: State<T, R>, es: seq<Event<T>>, t: State<T, R>)
    decreases |es|
  {
    if es == [] then s == t else Enabled(s, es[0]) && Steps(f, Apply(f, s, es[0]), es[1..], t)
  }

  // ---------------------------------------------------------------- the books of one call

  ghost predicate CallbackOk<T, R>(f: T -> R, id: nat, c: Callback<T, R>) {
    && c.callId == id && c.tasks != []
    && (c.status == Pending <==> c.stage == InFlight)
    && (c.stage == Succeeded ==> c.status == Done)
    && (c.status == Done ==> c.result == Map(f, c.tasks))
    && (c.read ==> c.status == Done)
  }

  ghost predicate CallbacksOk<T, R>(f: T -> R, id: nat, own: seq<Callback<T, R>>) {
    forall i :: 0 <= i < |own| ==> CallbackOk(f, id, own[i])
  }

  /** In ordered mode the queue is the unread suffix of the dispatched batches. */
  ghost predicate Suffix<T, R>(off: nat, own: seq<Callback<T, R>>, jobs: seq<nat>) {
    && |jobs| <= |own|
    && (forall j :: 0 <= j < |jobs| ==> jobs[j] == off + |own| - |jobs| + j)
    && (forall i :: 0 <= i < |own| ==> (own[i].read <==> i < |own| - |jobs|))
  }

  /** In unordered mode it holds each completed unread batch, once. */
  ghost predicate Completed<T, R>(off: nat, own: seq<Callback<T, R>>, jobs: seq<nat>) {
    && (forall j :: j in jobs ==> off <= j < off + |own| && own[j - off].status != Pending && !own[j - off].read)
    && (forall i, j :: 0 <= i < j < |jobs| ==> jobs[i] != jobs[j])
    && (forall i :: 0 <= i < |own| && own[i].status != Pending && !own[i].read ==> off + i in jobs)
  }

  ghost predicate JobsOk<T, R>(ordered: bool, off: nat, own: seq<Callback<T, R>>, jobs: seq<nat>) {
    if ordered then Suffix(off, own, jobs) else Completed(off, own, jobs)
  }

  /** What has been yielded or is being yielded (`out`), with what is unread, is exactly the work dispatched. */
  ghost predicate Accounted<T, R>(f: T -> R, ordered: bool, own: seq<Callback<T, R>>, left: nat, out: seq<R>) {
    && multiset(out) + Unread(f, own) == multiset(Map(f, Flat(own)))
    && (ordered ==> left <= |own| && out == Map(f, Flat(own[..|own| - left])))
  }

  ghost predicate Books<T, R>(f: T -> R, id: nat, ordered: bool, off: nat, own: seq<Callback<T, R>>,
                              jobs: seq<nat>, out: seq<R>) {
    CallbacksOk(f, id, own) && JobsOk(ordered, off, own, jobs) && Accounted(f, ordered, own, |jobs|, out)
  }

  lemma {:induction false} JobsQueue<T, R>(ordered: bool, off: nat, own: seq<Callback<T, R>>, jobs: seq<nat>,
                                           c: Callback<T, R>)
    requires JobsOk(ordered, off, own, jobs) && c.status == Pending && !c.read
    ensures JobsOk(ordered, off, own + [c], if ordered then jobs + [off + |own|] else jobs)
  {
  }

  lemma {:induction false} AccountedQueue<T, R>(f: T -> R, ordered: bool, own: seq<Callback<T, R>>, left: nat,
                                                out: seq<R>, c: Callback<T, R>)
    requires Accounted(f, ordered, own, left, out) && !c.read
    ensures Accounted(f, ordered, own + [c], if ordered then left + 1 else left, out)
  {
    hide Flat, Unread, Map;
    Append(f, own, c);
    MapConcat(f, Flat(own), c.tasks);
    if ordered { assert (own + [c])[..|own| - left] == own[..|own| - left]; }
  }

  /** A new status or stage for a callback; in unordered mode its first status queues it. */
  lemma {:induction false} JobsUpdate<T, R>(ordered: bool, off: nat, own: seq<Callback<T, R>>, jobs: seq<nat>,
                                            i: nat, c: Callback<T, R>)
    requires JobsOk(ordered, off, own, jobs) && i < |own|
    requires c.read == own[i].read && (own[i].status == Pending ==> !own[i].read)
    requires c.status == own[i].status || own[i].status == Pending
    ensures JobsOk(ordered, off, own[i := c],
                   if ordered || c.status == own[i].status then jobs else jobs + [off + i])
  {
    if !ordered {
      var jobs' := if c.status == own[i].status then jobs else jobs + [off + i];
      assert own[i].status == Pending ==> off + i !in jobs;
      var own' := own[i := c];
      forall k | 0 <= k < |own'| && own'[k].status != Pending && !own'[k].read ensures off + k in jobs' {
        if k == i && c.status != own[i].status { assert jobs'[|jobs|] == off + i; } else { assert off + k in jobs; }
      }
    }
  }

  lemma {:induction false} AccountedUpdate<T, R>(f: T -> R, ordered: bool, own: seq<Callback<T, R>>, left: nat,
                                                 out: seq<R>, i: nat, c: Callback<T, R>)
    requires Accounted(f, ordered, own, left, out) && i < |own|
    requires c.tasks == own[i].tasks && c.read == own[i].read
    ensures Accounted(f, ordered, own[i := c], if ordered then left else left + 1, out)
    ensures Accounted(f, ordered, own[i := c], left, out)
  {
    FlatUpdate(own, i, c);
    UnreadUpdate(f, own, i, c);
    if ordered {
      var k := |own| - left;
      if i < k { FlatUpdate(own[..k], i, c); assert own[i := c][..k] == own[..k][i := c]; }
      else { assert own[i := c][..k] == own[..k]; }
    }
  }

  lemma {:induction false} JobsLoad<T, R>(ordered: bool, off: nat, own: seq<Callback<T, R>>, jobs: seq<nat>)
    requires JobsOk(ordered, off, own, jobs) && jobs != []
    requires off <= jobs[0] < off + |own|
    ensures JobsOk(ordered, off, own[jobs[0] - off := own[jobs[0] - off].(read := true)], jobs[1..])
  {
    if !ordered {
      var own' := own[jobs[0] - off := own[jobs[0] - off].(read := true)];
      forall k | 0 <= k < |own'| && own'[k].status != Pending && !own'[k].read ensures off + k in jobs[1..] {
        assert own[k].status != Pending && !own[k].read;
      }
      forall j | j in jobs[1..]
        ensures off <= j < off + |own'| && own'[j - off].status != Pending && !own'[j - off].read {
        var m :| 0 <= m < |jobs| - 1 && jobs[1..][m] == j;
        assert jobs[m + 1] == j && j in jobs;
      }
    }
  }

  lemma {:induction false} AccountedLoad<T, R>(f: T -> R, ordered: bool, own: seq<Callback<T, R>>, left: nat,
                                               out: seq<R>, i: nat)
    requires Accounted(f, ordered, own, left, out) && i < |own| && !own[i].read && 0 < left
    requires ordered ==> i == |own| - left
    requires own[i].result == Map(f, own[i].tasks)
    ensures Accounted(f, ordered, own[i := own[i].(read := true)], left - 1, out + own[i].result)
  {
    hide Map, Flat, Unread;
    var c := own[i].(read := true);
    FlatUpdate(own, i, c);
    UnreadUpdate(f, own, i, c);
    assert multiset(out + c.result) == multiset(out) + multiset(c.result);
    if ordered {
      assert own[i := c][..i + 1] == own[..i] + [c];
      Append(f, own[..i], c);
      MapConcat(f, Flat(own[..i]), c.tasks);
    }
  }

  lemma {:induction false} BooksQueue<T, R>(f: T -> R, id: nat, ordered: bool, off: nat, own: seq<Callback<T, R>>,
                                            jobs: seq<nat>, out: seq<R>, c: Callback<T, R>)
    requires Books(f, id, ordered, off, own, jobs, out)
    requires CallbackOk(f, id, c) && c.status == Pending && !c.read
    ensures Books(f, id, ordered, off, own + [c], if ordered then jobs + [off + |own|] else jobs, out)
  {
    assert CallbackOk(f, id, c) && c.status == Pending && !c.read;
    hide Suffix, Completed;
    JobsQueue(ordered, off, own, jobs, c);
    AccountedQueue(f, ordered, own, |jobs|, out, c);
  }

  lemma {:induction false} BooksUpdate<T, R>(f: T -> R, id: nat, ordered: bool, off: nat, own: seq<Callback<T, R>>,
                                             jobs: seq<nat>, out: seq<R>, i: nat, c: Callback<T, R>)
    requires Books(f, id, ordered, off, own, jobs, out) && i < |own|
    requires CallbackOk(f, id, c) && c.tasks == own[i].tasks && c.read == own[i].read
    requires c.status == own[i].status || own[i].status == Pending
    ensures Books(f, id, ordered, off, own[i := c],
                  if ordered || c.status == own[i].status then jobs else jobs + [off + i], out)
  {
    assert CallbackOk(f, id, own[i]);
    JobsUpdate(ordered, off, own, jobs, i, c);
    AccountedUpdate(f, ordered, own, |jobs|, out, i, c);
  }

  lemma {:induction false} BooksLoad<T, R>(f: T -> R, id: nat, ordered: bool, off: nat, own: seq<Callback<T, R>>,
                                           jobs: seq<nat>, out: seq<R>)
    requires Books(f, id, ordered, off, own, jobs, out) && jobs != []
    requires off <= jobs[0] < off + |own| && own[jobs[0] - off].status == Done
    ensures var c := own[jobs[0] - off];
            Books(f, id, ordered, off, own[jobs[0] - off := c.(read := true)], jobs[1..], out + c.result)
  {
    var i := jobs[0] - off;
    assert CallbackOk(f, id, own[i]) && jobs[0] in jobs;
    JobsLoad(ordered, off, own, jobs);
    AccountedLoad(f, ordered, own, |jobs|, out, i);
  }

  // ---------------------------------------------------------------- one call

  /** What every step of a call keeps, if nothing was queued or counted for it before its fresh id. */
  ghost predicate CallInv<T, R>(f: T -> R, s: State<T, R>) {
    && InCall(s.phase) && !s.aborting
    && (forall i :: 0 <= i < |s.past| ==> s.past[i].callId != s.callId)
    && Books(f, s.callId, s.ordered, |s.past|, s.own, s.jobs, s.yielded + s.outputs)
    && Flat(s.own) == s.taken
    && s.nDispatched == |s.taken|
    && s.nCompleted == |s.yielded|
    && (s.phase == Consuming && !s.lazy ==> !s.iterating)
  }

  /** The steps of a call after its id is installed. */
  predicate Continues<T>(e: Event<T>) { !e.Reset? && !e.InstallId? && !e.Complete? && !e.Stop? }

  lemma {:induction false} QueueKeeps<T, R>(f: T -> R, s: State<T, R>, n: nat)
    requires CallInv(f, s) && 0 < n <= |s.source|
    ensures CallInv(f, Queue(s, n))
  {
    hide Books, Flat, Unread;
    var c := Callback<T, R>.Callback(s.callId, s.source[..n], Pending, [], InFlight, false);
    BooksQueue(f, s.callId, s.ordered, |s.past|, s.own, s.jobs, s.yielded + s.outputs, c);
    Append(f, s.own, c);
  }

  lemma {:induction false} SetKeeps<T, R>(f: T -> R, s: State<T, R>, j: nat, c: Callback<T, R>)
    requires CallInv(f, s) && j < |s.own| && c.tasks == s.own[j].tasks && c.read == s.own[j].read
    requires CallbackOk(f, s.callId, c) && (c.status == s.own[j].status || s.own[j].status == Pending)
    ensures CallInv(f, s.(own := s.own[j := c], jobs := if s.ordered || c.status == s.own[j].status then s.jobs
                                                        else s.jobs + [|s.past| + j]))
  {
    hide Books, Flat, CallbackOk;
    BooksUpdate(f, s.callId, s.ordered, |s.past|, s.own, s.jobs, s.yielded + s.outputs, j, c);
    FlatUpdate(s.own, j, c);
  }

  lemma {:induction false} FinishKeeps<T, R>(f: T -> R, s: State<T, R>, i: nat, success: bool)
    requires CallInv(f, s) && i < Size(s) && At(s, i).stage == InFlight
    ensures CallInv(f, FirstSection(f, s, i, success))
  {
    hide JobsOk, Accounted, Flat, Map;
    if |s.past| <= i {
      var j := i - |s.past|;
      assert CallbackOk(f, s.callId, s.own[j]);
      SetKeeps(f, s, j, FirstSection(f, s, i, success).own[j]);
    }
  }

  lemma {:induction false} OverKeeps<T, R>(f: T -> R, s: State<T, R>, i: nat)
    requires CallInv(f, s) && i < Size(s) && At(s, i).stage == Succeeded
    ensures CallInv(f, Put(s, i, At(s, i).(stage := Over)))
  {
    hide JobsOk, Accounted, Flat, Map;
    if |s.past| <= i {
      var j := i - |s.past|;
      assert CallbackOk(f, s.callId, s.own[j]);
      SetKeeps(f, s, j, s.own[j].(stage := Over));
    }
  }

  lemma {:induction false} DispatchNextKeeps<T, R>(f: T -> R, s: State<T, R>, k: nat)
    requires CallInv(f, s) && 0 < k
    ensures CallInv(f, DispatchNext(s, k))
  {
    var n := Min(k, |s.source|);
    if n != 0 { QueueKeeps(f, s, n); }
  }

  lemma {:induction false} HeadIsOwn<T, R>(s: State<T, R>)
    requires JobsOk(s.ordered, |s.past|, s.own, s.jobs) && s.jobs != []
    ensures |s.past| <= s.jobs[0] < Size(s)
  {
    assert s.jobs[0] in s.jobs;
  }

  lemma {:induction false} LoadKeeps<T, R>(f: T -> R, s: State<T, R>)
    requires CallInv(f, s) && Enabled(s, Event<T>.Load)
    ensures CallInv(f, Take(s))
  {
    hide Accounted, CallbackOk, Flat, Map;
    HeadIsOwn(s);
    var j := s.jobs[0] - |s.past|;
    hide JobsOk;
    BooksLoad(f, s.callId, s.ordered, |s.past|, s.own, s.jobs, s.yielded + s.outputs);
    FlatUpdate(s.own, j, s.own[j].(read := true));
    assert s.yielded + s.outputs + s.own[j].result == s.yielded + s.own[j].result;
  }

  /** Every step between the fresh call id and the end of the call keeps the invariant. */
  lemma {:induction false} StepKeeps<T, R>(f: T -> R, s: State<T, R>, e: Event<T>)
    requires CallInv(f, s) && Enabled(s, e) && Continues(e)
    ensures CallInv(f, Apply(f, s, e))
  {
    hide Queue, FirstSection, DispatchNext, Books, Map, Flat;
    match e
    case PreDispatch(k) =>
      var n := Min(Min(k, |s.source|), if s.lazy then s.slice else k);
      if n != 0 { QueueKeeps(f, s, n); }
    case Finish(i, success) => FinishKeeps(f, s, i, success);
    case DispatchNew(i, k) =>
      OverKeeps(f, s, i);
      DispatchNextKeeps(f, Put(s, i, At(s, i).(stage := Over)), k);
    case Pull(k) => DispatchNextKeeps(f, s, k);
    case Load => LoadKeeps(f, s);
    case Yield => assert s.yielded + s.outputs == Apply(f, s, e).yielded + Apply(f, s, e).outputs;
    case InstallIterator(_, _, _) =>
  }
}
