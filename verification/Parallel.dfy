/** `joblib.parallel.Parallel` and `BatchCompletionCallBack` as objects: each method carries out one
    step of the dispatch protocol on its fields. */
module Parallel {
  import opened Batches
  import opened Wrappers
  import D = Dispatch
  import Runs = DispatchRuns
  import Calls = DispatchCalls

  class BatchCompletionCallBack<T, R> {
    const tasks: seq<T>
    const callId: nat
    ghost const index: nat
    var status: Status
    var result: seq<R>
    var stage: Stage
    ghost var read: bool

    constructor (callId: nat, tasks: seq<T>, ghost index: nat)
      ensures Is(Callback(callId, tasks, Pending, [], InFlight, false))
      ensures this.index == index
    {
      this.callId, this.tasks, this.index := callId, tasks, index;
      status, result, stage, read := Pending, [], InFlight, false;
    }

    ghost predicate Is(c: Callback<T, R>)
      reads this
    {
      && c.callId == callId && c.tasks == tasks && c.status == status
      && c.result == result && c.stage == stage && c.read == read
    }

    /** Store a status, a result and a stage, leaving every other callback as it is. */
    method Set(p: Parallel<T, R>, status: Status, result: seq<R>, stage: Stage)
      requires p.Valid() && this in p.past + p.own
      modifies this, p`state
      ensures p.Valid() && index < D.Size(old(p.state))
      ensures var c := D.At(old(p.state), index).(status := status, result := result, stage := stage);
              p.state == D.Put(old(p.state), index, c) && Is(c)
    {
      p.Indexed(this);
      ghost var was := p.state;
      this.status, this.result, this.stage := status, result, stage;
      ghost var c := D.At(was, index).(status := status, result := result, stage := stage);
      p.state := D.Put(was, index, c);
      p.Stored(this, was, c);
    }

    ghost method MarkRead(p: Parallel<T, R>)
      requires p.Valid() && this in p.past + p.own
      modifies `read, p`state
      ensures p.Valid() && index < D.Size(old(p.state))
      ensures p.state == D.Put(old(p.state), index, D.At(old(p.state), index).(read := true))
    {
      p.Indexed(this);
      assert p.FieldsAgree();
      ghost var was := p.state;
      read := true;
      ghost var c := D.At(was, index).(read := true);
      p.state := D.Put(was, index, c);
      p.Stored(this, was, c);
      assert p.FieldsAgree();
    }

    /** `__call__` up to the end of its own critical section, with the outcome the backend hands in. */
    method FirstSection(p: Parallel<T, R>, success: bool, out: seq<R>)
      requires p.Valid() && this in p.past + p.own && stage == InFlight
      requires success ==> out == Map(p.call, tasks)
      modifies this, p`jobs, p`state
      ensures p.Valid() && index < D.Size(old(p.state))
      ensures p.state == D.FirstSection(p.call, old(p.state), index, success)
      ensures p.callId != callId || p.aborting ==> status == old(status) && p.jobs == old(p.jobs) && stage == Over
      ensures p.callId == callId && !p.aborting ==>
                && (if success then status == Done && result == out && stage == Succeeded
                    else status == Error && stage == Over)
                && p.jobs == if p.ordered then old(p.jobs) else old(p.jobs) + [this]
    {
      hide Parallel.Agree, Parallel.Queued, D.Put, D.At, Map;
      p.Indexed(this);
      ghost var was := p.state;
      if p.callId != callId || p.aborting {
        Set(p, status, result, Over);
        assert p.state == D.Put(was, index, D.At(was, index).(stage := Over));
        return;
      }
      if success {
        Set(p, Done, out, Succeeded);
      } else {
        Set(p, Error, result, Over);
        assert p.state == D.Put(was, index, D.At(was, index).(status := Error, stage := Over));
      }
      if !p.ordered {
        p.Append(this);
      }
    }

    /** `_dispatch_new`, with the batch size the backend asks for. */
    method DispatchNew(p: Parallel<T, R>, k: nat)
      requires p.Valid() && this in p.past + p.own && stage == Succeeded && 0 < k
      modifies this, p
      ensures p.Valid() && index < D.Size(old(p.state)) && p.Grows(old(p.past), old(p.own))
      ensures fresh(set c | c in p.own && c !in old(p.own))
      ensures p.state == D.SecondSection(old(p.state), index, k)
      ensures stage == Over
      ensures p.aborting || !p.lazy ==>
                p.own == old(p.own) && p.source == old(p.source) && p.iterating == old(p.iterating)
      ensures !p.aborting && p.lazy ==> p.Took(old(p.own), old(p.source), k)
    {
      hide Parallel.Agree, Parallel.Queued;
      p.Indexed(this);
      ghost var was := p.state;
      Set(p, status, result, Over);
      assert p.state == D.Put(was, index, D.At(was, index).(stage := Over));
      if p.aborting || !p.lazy {
        return;
      }
      var more := p.DispatchNext(k);
    }
  }

  /** `state` is the protocol state the fields stand for. */
  class Parallel<T, R> {
    const call: T -> R
    const ordered: bool
    var phase: D.Phase
    var callId: nat
    var iterating: bool
    var aborting: bool
    var nDispatched: nat
    var nCompleted: nat
    var lazy: bool
    var source: seq<T>
    var slice: nat
    var past: seq<BatchCompletionCallBack<T, R>>
    var own: seq<BatchCompletionCallBack<T, R>>
    var jobs: seq<BatchCompletionCallBack<T, R>>
    var outputs: seq<R>
    ghost var state: D.State<T, R>

    constructor (call: T -> R, ordered: bool)
      ensures Valid() && this.call == call && this.ordered == ordered
      ensures state == D.New(ordered) && Calls.Resting(state) && !Calls.MayIntrude(D.Clear(state))
    {
      this.call, this.ordered := call, ordered;
      phase, callId, iterating, aborting, nDispatched, nCompleted := D.Idle, 0, false, false, 0, 0;
      lazy, source, slice, past, own, jobs, outputs := false, [], 0, [], [], [], [];
      state := D.New(ordered);
    }

    ghost predicate FieldsAgree()
      reads this
    {
      && state.ordered == ordered && state.phase == phase && state.callId == callId
      && state.iterating == iterating && state.aborting == aborting
      && state.nDispatched == nDispatched && state.nCompleted == nCompleted
      && state.lazy == lazy && state.source == source && state.slice == slice
      && state.outputs == outputs
    }

    ghost predicate Valid()
      reads this, past, own
    {
      && FieldsAgree() && Agree(past, 0, state.past) && Agree(own, |past|, state.own)
      && Queued(past, own, jobs, state.jobs)
    }

    lemma Lengths()
      requires Valid()
      ensures |past| == |state.past| && |own| == |state.own|
      ensures forall i :: 0 <= i < |past| + |own| ==> (past + own)[i].index == i
    {
    }

    /** The callback objects, in order of creation from position `off` on, are in the states `views`. */
    static ghost predicate Agree(cs: seq<BatchCompletionCallBack<T, R>>, off: nat, views: seq<Callback<T, R>>)
      reads cs
    {
      |cs| == |views| && forall i :: 0 <= i < |cs| ==> cs[i].index == off + i && cs[i].Is(views[i])
    }

    /** All but one of them are in the states `views`. */
    static ghost predicate Others(c: BatchCompletionCallBack<T, R>, cs: seq<BatchCompletionCallBack<T, R>>, off: nat,
                                  views: seq<Callback<T, R>>)
      reads cs
    {
      |cs| == |views| && forall i :: 0 <= i < |cs| ==> cs[i].index == off + i && (cs[i] != c ==> cs[i].Is(views[i]))
    }

    lemma Stored(c: BatchCompletionCallBack<T, R>, was: D.State<T, R>, now: Callback<T, R>)
      requires Others(c, past, 0, was.past) && Others(c, own, |past|, was.own) && c.index < D.Size(was) && c.Is(now)
      requires c in past + own && state == D.Put(was, c.index, now)
      ensures Agree(past, 0, state.past) && Agree(own, |past|, state.own)
    {
    }

    static ghost predicate Queued(past: seq<BatchCompletionCallBack<T, R>>, own: seq<BatchCompletionCallBack<T, R>>,
                                  jobs: seq<BatchCompletionCallBack<T, R>>, js: seq<nat>) {
      |jobs| == |js| && forall j :: 0 <= j < |jobs| ==> jobs[j] in past + own && js[j] == jobs[j].index
    }

    /** One more batch of as many tasks as were asked for, or of all that are left. */
    ghost predicate Took(own': seq<BatchCompletionCallBack<T, R>>, source': seq<T>, asked: nat)
      reads this
    {
      var n := if asked <= |source'| then asked else |source'|;
      && source == source'[n..] && |own| == |own'| + (if n > 0 then 1 else 0)
      && (n > 0 ==> own[|own'|].tasks == source'[..n] && own[|own'|].callId == callId)
    }

    static lemma AgreeAppend(cs: seq<BatchCompletionCallBack<T, R>>, off: nat, views: seq<Callback<T, R>>,
                             b: BatchCompletionCallBack<T, R>, view: Callback<T, R>)
      requires Agree(cs, off, views) && b.index == off + |cs| && b.Is(view)
      ensures Agree(cs + [b], off, views + [view])
    {
    }

    static lemma QueuedAppend(past: seq<BatchCompletionCallBack<T, R>>, own: seq<BatchCompletionCallBack<T, R>>,
                              jobs: seq<BatchCompletionCallBack<T, R>>, js: seq<nat>, b: BatchCompletionCallBack<T, R>)
      requires Queued(past, own, jobs, js)
      ensures Queued(past, own + [b], jobs, js) && Queued(past, own + [b], jobs + [b], js + [b.index])
    {
      forall j | 0 <= j < |jobs| ensures jobs[j] in past + (own + [b]) { assert jobs[j] in past + own; }
      assert b in past + (own + [b]);
    }

    lemma TookThat(own': seq<BatchCompletionCallBack<T, R>>, source': seq<T>, n: nat, asked: nat)
      requires 0 < n == if asked <= |source'| then asked else |source'|
      requires source == source'[n..] && |own| == |own'| + 1
      requires own[|own'|].tasks == source'[..n] && own[|own'|].callId == callId
      ensures Took(own', source', asked)
    {
    }

    lemma TookNothing()
      ensures Took(own, source, 0) && (source == [] ==> forall k: nat :: Took(own, source, k))
    {
      assert source[0..] == source;
    }

    ghost predicate Grows(past': seq<BatchCompletionCallBack<T, R>>, own': seq<BatchCompletionCallBack<T, R>>)
      reads this
    {
      past == past' && own' <= own
    }

    lemma Indexed(c: BatchCompletionCallBack<T, R>)
      requires Valid() && c in past + own
      ensures c.index < D.Size(state) && c.Is(D.At(state, c.index))
      ensures c == if c.index < |past| then past[c.index] else own[c.index - |past|]
    {
    }

    method Append(c: BatchCompletionCallBack<T, R>)
      requires Valid() && c in past + own
      modifies `jobs, `state
      ensures Valid() && state == old(state).(jobs := old(state).jobs + [c.index]) && jobs == old(jobs) + [c]
    {
      jobs := jobs + [c];
      state := state.(jobs := state.jobs + [c.index]);
    }

    /** Queue a batch of the next `n` tasks. */
    method Dispatch(n: nat)
      requires Valid() && n <= |source|
      modifies this
      ensures Valid() && Grows(old(past), old(own)) && fresh(set c | c in own && c !in old(own))
      ensures state == D.Queue(old(state), n) && unchanged(`slice, `lazy, `phase, `iterating, `callId)
      ensures source == old(source)[n..] && nDispatched == old(nDispatched) + n
      ensures |own| == |old(own)| + 1 && own[|old(own)|].tasks == old(source)[..n] && own[|old(own)|].callId == callId
      ensures jobs == if ordered then old(jobs) + [own[|old(own)|]] else old(jobs)
    {
      hide Agree, Queued, D.Queue, FieldsAgree;
      var batch := new BatchCompletionCallBack<T, R>(callId, source[..n], |past| + |own|);
      Enqueue(batch, n);
    }

    method Enqueue(batch: BatchCompletionCallBack<T, R>, n: nat)
      requires Valid() && n <= |source| && batch.index == |past| + |own|
      requires batch.Is(Callback(callId, source[..n], Pending, [], InFlight, false))
      modifies this
      ensures Valid() && state == D.Queue(old(state), n) && own == old(own) + [batch]
      ensures unchanged(`past, `slice, `lazy, `phase, `iterating, `callId)
      ensures source == old(source)[n..] && nDispatched == old(nDispatched) + n
      ensures jobs == if ordered then old(jobs) + [batch] else old(jobs)
    {
      hide Agree, Queued;
      assert FieldsAgree();
      Lengths();
      AgreeAppend(own, |past|, state.own, batch, Callback(callId, source[..n], Pending, [], InFlight, false));
      QueuedAppend(past, own, jobs, state.jobs, batch);
      state := D.Queue(state, n);
      source := source[n..];
      nDispatched := nDispatched + n;
      own := own + [batch];
      if ordered {
        jobs := jobs + [batch];
      }
      assert FieldsAgree();
    }

    method DispatchNext(k: nat) returns (more: bool)
      requires Valid()
      modifies this
      ensures Valid() && Grows(old(past), old(own)) && fresh(set c | c in own && c !in old(own))
      ensures state == D.DispatchNext(old(state), k) && callId == old(callId)
      ensures more <==> old(source) != [] && 0 < k
      ensures Took(old(own), old(source), k)
      ensures iterating == (old(iterating) && more)
    {
      hide Agree, Queued;
      var n := Min(k, |source|);
      if n == 0 {
        iterating := false;
        state := state.(iterating := false);
        return false;
      }
      Dispatch(n);
      more := true;
    }

    // ------------------------------------------------------------ __call__

    /** `_reset_run_tracking`. */
    method Reset()
      requires Valid() && phase == D.Idle
      modifies this
      ensures Valid() && unchanged(`past, `own, `callId, `lazy, `source, `slice, `jobs, `outputs)
      ensures nCompleted == nDispatched == 0 && !aborting && iterating
      ensures state == D.Clear(old(state))
    {
      hide Agree, Queued;
      assert FieldsAgree();
      phase, nCompleted, nDispatched, aborting, iterating := D.Cleared, 0, 0, false, true;
      state := D.Clear(state);
      assert FieldsAgree();
    }

    /** The fresh call id, installed under the lock. */
    method InstallId(id: nat)
      requires Valid() && D.Enabled(state, D.Event<T>.InstallId(id))
      modifies this
      ensures Valid() && past == old(past + own) && own == [] && callId == id
      ensures unchanged(`iterating, `aborting, `lazy, `source, `jobs, `outputs, `nDispatched, `nCompleted)
      ensures state == D.SetId(old(state), id)
    {
      assert FieldsAgree();
      phase, callId, past, own := D.Identified, id, past + own, [];
      state := D.SetId(state, id);
      assert FieldsAgree();
    }

    method InstallIterator(input: seq<T>, amount: nat, lazy: bool)
      requires Valid() && phase == D.Identified
      modifies this
      ensures Valid() && source == input && slice == amount && this.lazy == lazy
      ensures unchanged(`past, `own, `callId, `iterating, `aborting, `jobs, `outputs, `nDispatched, `nCompleted)
      ensures state == D.SetIterator(old(state), input, amount, lazy)
    {
      hide Agree, Queued;
      assert FieldsAgree();
      phase, source, slice := D.Priming, input, amount;
      this.lazy := lazy;
      state := D.SetIterator(state, input, amount, lazy);
      assert FieldsAgree();
    }

    method Spend(n: nat)
      requires Valid() && (lazy ==> n <= slice)
      modifies `slice, `state
      ensures slice == if lazy then old(slice) - n else old(slice)
      ensures Valid() && state == old(state).(slice := if lazy then old(slice) - n else old(slice))
    {
      hide Agree, Queued;
      slice := if lazy then slice - n else slice;
      state := state.(slice := slice);
    }

    method EndPriming(k: nat)
      requires Valid() && phase == D.Priming && Min(Min(k, |source|), if lazy then slice else k) == 0
      modifies `phase, `iterating, `state
      ensures Valid() && state == D.Prime(old(state), k)
      ensures phase == D.Consuming && iterating == (old(iterating) && lazy)
    {
      hide Agree, Queued;
      assert FieldsAgree();
      phase, iterating := D.Consuming, iterating && lazy;
      state := D.Prime(state, k);
      assert FieldsAgree();
    }

    lemma Fields()
      requires Valid()
      ensures state.source == source && state.lazy == lazy && state.slice == slice && state.phase == phase
      ensures state.iterating == iterating
    {
    }

    /** One `dispatch_one_batch` over the pre-dispatch slice. */
    method PreDispatch(k: nat)
      requires Valid() && phase == D.Priming && 0 < k
      modifies this
      ensures Valid() && Grows(old(past), old(own)) && fresh(set c | c in own && c !in old(own))
      ensures state == D.Prime(old(state), k)
      ensures Took(old(own), old(source), if lazy && old(slice) < k then old(slice) else k)
      ensures lazy == old(lazy) && (lazy ==> slice == old(slice) - (|old(source)| - |source|))
      ensures own == old(own) ==> phase == D.Consuming && iterating == (old(iterating) && lazy)
      ensures own != old(own) ==> phase == D.Priming && iterating == old(iterating)
    {
      hide Agree, Queued, D.Queue, Took, FieldsAgree;
      Fields();
      var n := Min(Min(k, |source|), if lazy then slice else k);
      if n == 0 {
        EndPriming(k);
        TookNothing();
        return;
      }
      Dispatch(n);
      Spend(n);
      TookThat(old(own), old(source), n, if lazy && old(slice) < k then old(slice) else k);
    }

    // ------------------------------------------------------------ _get_outputs

    /** What `retrieve` does first when the current batch is used up: take the head of the queue. */
    method Load()
      requires Valid() && jobs != [] && jobs[0].status == Done
      modifies this, jobs[0]
      ensures Valid() && unchanged(`past, `own)
      ensures old(state.jobs)[0] < D.Size(old(state)) && state == D.Take(old(state))
      ensures outputs == old(jobs[0].result) && jobs == old(jobs)[1..] && nCompleted == old(nCompleted)
    {
      hide Agree;
      assert FieldsAgree();
      var job := jobs[0];
      ghost var was := state;
      Indexed(job);
      job.MarkRead(this);
      assert state == D.Put(was, job.index, D.At(was, job.index).(read := true));
      outputs := job.result;
      jobs := jobs[1..];
      state := state.(outputs := outputs, jobs := state.jobs[1..]);
      assert FieldsAgree();
    }

    method Yield() returns (out: R)
      requires Valid() && outputs != []
      modifies this
      ensures Valid() && unchanged(`past, `own) && state == D.YieldOne(old(state))
      ensures state.yielded == old(state.yielded) + [out] && out == old(outputs)[0] && outputs == old(outputs)[1..]
      ensures nCompleted == old(nCompleted) + 1 && jobs == old(jobs)
    {
      hide Agree, Queued;
      assert FieldsAgree();
      out := outputs[0];
      outputs := outputs[1..];
      nCompleted := nCompleted + 1;
      state := D.YieldOne(state);
      assert FieldsAgree();
    }

    /** The consumer's own `dispatch_next`. */
    method Pull(k: nat)
      requires Valid() && 0 < k
      modifies this
      ensures Valid() && Grows(old(past), old(own)) && fresh(set c | c in own && c !in old(own))
      ensures state == D.DispatchNext(old(state), k) && Took(old(own), old(source), k)
    {
      assert FieldsAgree();
      var more := DispatchNext(k);
      assert FieldsAgree();
    }

    /** A batch is completed by the backend, or fails, or its callback gets to its second section, for
        which the backend asks for batches of some size. */
    method Advance(c: BatchCompletionCallBack<T, R>) returns (ghost e: D.Event<T>)
      requires Valid() && c in past + own && c.stage != Over
      modifies this, c
      ensures Valid() && Grows(old(past), old(own)) && fresh(set b | b in own && b !in old(own))
      ensures Calls.IsCallback(e) && e.i == c.index && D.Enabled(old(state), e) && state == D.Apply(call, old(state), e)
      ensures state.yielded == old(state.yielded)
    {
      hide D.FirstSection, D.SecondSection, D.Put, Map, Agree, Queued;
      Indexed(c);
      if c.stage == InFlight {
        var success: bool := *;
        D.SectionsYieldNothing(call, state, c.index, success, 1);
        e := D.Finish(c.index, success);
        c.FirstSection(this, success, Map(call, c.tasks));
      } else {
        var k: nat :| 0 < k;
        D.SectionsYieldNothing(call, state, c.index, true, k);
        e := D.DispatchNew(c.index, k);
        c.DispatchNew(this, k);
      }
    }

    /** What holds between two steps of a call. */
    ghost predicate Running()
      reads this, past, own
    {
      Valid() && D.CallInv(call, state) && Runs.Started(state)
    }

    predicate AtFailure()
      reads this, jobs
    {
      phase == D.Consuming && nCompleted < nDispatched && outputs == [] && jobs != [] && jobs[0].status == Error
    }

    /** `_get_outputs` against a backend that completes batches in any order and at any moment, some of
        them with an error, and asks for batches of any size. The loop ends. Without an error it has
        yielded the sequential map of what was taken, or a permutation of it in unordered mode, and that
        is the whole input if the call was draining it. When the consumer comes to a batch that failed,
        the call is aborted, and what was yielded is a part of the map, in ordered mode its beginning. */
    method GetOutputs() returns (out: seq<R>, failed: bool)
      requires Running() && state.yielded == []
      modifies this, past, own
      ensures Valid() && fresh(set c | c in past + own && c !in old(past + own)) && state.ordered == old(state.ordered)
      ensures past == old(past) && forall c :: c in own ==> c.callId == old(callId)
      ensures !failed ==> Running() && Runs.Finished(state)
      ensures !failed && ordered ==> out == Map(call, state.taken)
      ensures !failed ==> multiset(out) == multiset(Map(call, state.taken))
      ensures state.taken + source == old(state.taken + source)
      ensures !failed && old(Runs.Draining(state)) ==> source == []
      ensures failed ==> Calls.Resting(state) && aborting && exists c :: c in own && c.status == Error
      ensures failed && ordered ==> out <= Map(call, old(state.taken + source))
      ensures failed ==> multiset(out) <= multiset(Map(call, old(state.taken + source)))
    {
      hide D.CallInv, Runs.Work, Runs.Draining, D.Apply, Calls.Resting;
      ghost var draining := Runs.Draining(state);
      out, failed := [], false;
      while phase == D.Priming || iterating || nCompleted < nDispatched
        invariant Running() && out == state.yielded && state.ordered == old(state.ordered) && callId == old(callId)
        invariant past == old(past) && fresh((set c | c in own) - (set c | c in old(own)))
        invariant state.taken + source == old(state.taken + source)
        invariant draining ==> Runs.Draining(state)
        decreases Runs.Work(state)
      {
        OwnIds();
        if AtFailure() {
          Fail();
          return out, true;
        }
        var some := Turn();
        out := out + some;
        Runs.WorkIsNat(call, state);
      }
      OwnIds();
      Runs.SuffixDone(call, state);
      if draining { Runs.DrainedWhenFinished(state); }
    }

    lemma OwnIds()
      requires Valid() && D.CallInv(call, state)
      ensures forall c :: c in own ==> c.callId == callId
    {
      forall i | 0 <= i < |own| ensures own[i].callId == callId { assert own[i].Is(state.own[i]); }
    }

    /** One step of somebody: the consumer when it can go on, or else, or at any moment, a callback. */
    method Turn() returns (some: seq<R>)
      requires Running() && !Runs.Finished(state) && !AtFailure()
      modifies this, past, own
      ensures Running() && state.yielded == old(state.yielded) + some && state.ordered == old(state.ordered)
      ensures callId == old(callId)
      ensures Grows(old(past), old(own)) && fresh(set c | c in own && c !in old(own))
      ensures state.taken + source == old(state.taken + source)
      ensures Runs.Work(state) < old(Runs.Work(state))
      ensures old(Runs.Draining(state)) ==> Runs.Draining(state)
    {
      hide D.CallInv, Runs.Work, D.Apply, Runs.Draining;
      ghost var was := state;
      ghost var e;
      var callback: bool := *;
      if callback && exists c :: c in past + own && c.stage != Over {
        var c :| c in past + own && c.stage != Over;
        some := [];
        e := Advance(c);
      } else {
        some, e := Consume();
      }
      Runs.WorkDecreases(call, was, e);
      Runs.StepStays(call, was, e);
      D.StepKeeps(call, was, e);
      if Runs.Draining(was) { Runs.StepDrains(call, was, e); }
    }

    /** The consumer's next step; when it has to wait, the completion it waits for. */
    method Consume() returns (some: seq<R>, ghost e: D.Event<T>)
      requires Running() && !Runs.Finished(state) && !AtFailure()
      modifies this, past, own
      ensures Valid() && Grows(old(past), old(own)) && fresh(set c | c in own && c !in old(own))
      ensures D.Enabled(old(state), e) && D.Continues(e)
      ensures state == D.Apply(call, old(state), e) && state.yielded == old(state.yielded) + some
    {
      hide Agree, D.CallInv, D.Apply;
      if phase == D.Priming || nCompleted >= nDispatched {
        some := [];
        e := Refill();
      } else if outputs != [] || (jobs != [] && jobs[0].status == Done) {
        some, e := Retrieve();
      } else {
        ghost var useful := Runs.Progress(call, state);
        Waiting(useful);
        var c :| c in own && c.stage == InFlight;
        some := [];
        e := Advance(c);
      }
    }

    method Refill() returns (ghost e: D.Event<T>)
      requires Valid() && Runs.Started(state) && !Runs.Finished(state)
      requires phase == D.Priming || nCompleted >= nDispatched
      modifies this
      ensures Valid() && Grows(old(past), old(own)) && fresh(set c | c in own && c !in old(own))
      ensures (e.PreDispatch? || e.Pull?) && D.Enabled(old(state), e)
      ensures state == D.Apply(call, old(state), e) && state.yielded == old(state.yielded)
    {
      hide Agree, Queued;
      var k: nat :| 0 < k;
      if phase == D.Priming {
        e := D.PreDispatch(k);
        PreDispatch(k);
      } else {
        e := D.Pull(k);
        Pull(k);
      }
    }

    /** `retrieve`, when it does not have to wait. */
    method Retrieve() returns (some: seq<R>, ghost e: D.Event<T>)
      requires Valid() && phase == D.Consuming && nCompleted < nDispatched
      requires outputs != [] || (jobs != [] && jobs[0].status == Done)
      modifies this, if outputs == [] then {jobs[0]} else {}
      ensures Valid() && unchanged(`past, `own)
      ensures (e == D.Yield || e == D.Load) && D.Enabled(old(state), e)
      ensures state == D.Apply(call, old(state), e) && state.yielded == old(state.yielded) + some
    {
      if outputs != [] {
        e := D.Yield;
        var x := Yield();
        some := [x];
      } else {
        e := D.Load;
        Indexed(jobs[0]);
        Load();
        some := [];
      }
    }

    lemma Waiting(useful: D.Event<T>)
      requires Valid() && (Runs.Failing(state) || Runs.Useful(state, useful)) && !AtFailure()
      requires phase != D.Priming && nCompleted < nDispatched && outputs == []
      requires jobs == [] || jobs[0].status != Done
      ensures exists c :: c in own && c.stage == InFlight
    {
      if jobs != [] { Indexed(jobs[0]); }
      assert useful.Finish?;
      assert own[useful.i - |past|].stage == InFlight;
    }

    /** The error is raised: the call is aborted, and what is queued is dropped. */
    method Stop()
      requires Valid() && (phase == D.Priming || phase == D.Consuming)
      modifies this
      ensures Valid() && unchanged(`past, `own, `source, `callId) && state == D.Halt(old(state))
      ensures aborting && jobs == [] && outputs == []
    {
      hide Agree;
      assert FieldsAgree();
      phase, aborting, jobs, outputs := D.Idle, true, [], [];
      state := D.Halt(state);
      assert FieldsAgree();
    }

    method Fail()
      requires Running() && AtFailure()
      modifies this
      ensures Valid() && unchanged(`past, `own) && Calls.Resting(state) && aborting
      ensures exists c :: c in own && c.status == Error
      ensures state.taken == old(state.taken) && source == old(source) && state.ordered == old(state.ordered)
      ensures multiset(old(state.yielded)) <= multiset(Map(call, old(state.taken + source)))
      ensures ordered ==> old(state.yielded) <= Map(call, old(state.taken + source))
    {
      FailedIsOwn();
      hide D.CallInv, Map;
      Runs.PartialYield(call, state);
      Stop();
    }

    lemma FailedIsOwn()
      requires Running() && AtFailure()
      ensures jobs[0] in own
    {
      D.HeadIsOwn(state);
      Indexed(jobs[0]);
    }

    method Finish()
      requires Valid() && D.Enabled(state, D.Event<T>.Complete)
      modifies this
      ensures Valid() && unchanged(`past, `own) && state == D.Close(old(state))
    {
      hide Agree, Queued;
      assert FieldsAgree();
      phase := D.Idle;
      state := D.Close(state);
      assert FieldsAgree();
    }

    // ------------------------------------------------------------ a whole call

    /** Callbacks run for a while. */
    method Callbacks() returns (ghost es: seq<D.Event<T>>)
      requires Valid()
      modifies this, past, own
      ensures Valid() && Calls.Callbacks(call, old(state), es, state) && Grows(old(past), old(own))
      ensures fresh(set c | c in past + own && c !in old(past + own))
    {
      es := [];
      var n: nat := *;
      Calls.NoCallback(call, state);
      while 0 < n && exists c :: c in past + own && c.stage != Over
        invariant Valid() && Calls.Callbacks(call, old(state), es, state) && Grows(old(past), old(own))
        invariant fresh((set c | c in own) - (set c | c in old(own)))
      {
        hide Agree, Queued, D.Apply;
        var c :| c in past + own && c.stage != Over;
        ghost var was := state;
        ghost var e := Advance(c);
        Calls.CallbackThen(call, old(state), es, was, e);
        es := es + [e];
        n := n - 1;
      }
    }

    /** `__call__`, with callbacks of earlier calls at any moment of it. When none of them is loose at its
        start, it gives the sequential map of its input, or a permutation of it in unordered mode; or it
        raises, having yielded a part of that. Either way the object rests again, and the only new callbacks
        have the id of this call. */
    method Call(input: seq<T>, amount: nat, lazy: bool, id: nat) returns (out: seq<R>, failed: bool)
      requires Valid() && Calls.Resting(state) && !Calls.MayIntrude(D.Clear(state))
      requires forall c :: c in past + own ==> c.callId != id
      modifies this, past, own
      ensures Valid() && Calls.Resting(state) && Answers(input, out, failed)
      ensures fresh(set c | c in past + own && c !in old(past + own))
      ensures forall c :: c in past + own ==> c in old(past + own) || c.callId == id
      ensures failed ==> exists c :: c in own && c.callId == id && c.status == Error
    {
      hide D.Apply, D.CallInv, Runs.Draining, Calls.Resting, Calls.Fresh, Calls.MayIntrude, Agree, Queued;
      Begin(id);
      Calls.FreshDrains(call, state, input, amount, lazy);
      InstallIterator(input, amount, lazy);
      out, failed := GetOutputs();
      if !failed {
        assert state.taken == input by { assert source == []; }
        Calls.CompletedCallRests(call, state);
        Finish();
      }
    }

    /** The map of the input, in unordered mode a permutation of it, or on failure a part of it. */
    ghost predicate Answers(input: seq<T>, out: seq<R>, failed: bool) {
      && (!failed && ordered ==> out == Map(call, input))
      && (!failed ==> multiset(out) == multiset(Map(call, input)))
      && (failed && ordered ==> out <= Map(call, input))
      && (failed ==> multiset(out) <= multiset(Map(call, input)))
    }

    method Begin(id: nat)
      requires Valid() && Calls.Resting(state) && !Calls.MayIntrude(D.Clear(state))
      requires forall c :: c in past + own ==> c.callId != id
      modifies this, past, own
      ensures Valid() && past == old(past + own) && own == [] && callId == id
      ensures Calls.Fresh(call, state) && phase == D.Identified && state.yielded == []
    {
      hide D.CallInv, Agree, Queued, Calls.MayIntrude, D.Apply;
      Unused(id);
      Lengths();
      ghost var before := state;
      Reset();
      ghost var r := state;
      ghost var w := Callbacks();
      Calls.EarlyStays(call, r, w, state);
      Lengths();
      assert own == old(own);
      ghost var u := state;
      forall i | 0 <= i < D.Size(u) ensures D.At(u, i).callId != id { assert D.At(r, i) == D.At(before, i); }
      Calls.IdOpensIdle(call, u, id);
      InstallId(id);
      ghost var a := state;
      ghost var v := Callbacks();
      Calls.LateStays(call, a, v, state);
      Lengths();
      Calls.NothingYielded(call, state);
    }

    lemma Unused(id: nat)
      requires Valid() && forall c :: c in past + own ==> c.callId != id
      ensures forall i :: 0 <= i < D.Size(state) ==> D.At(state, i).callId != id
    {
      forall i | 0 <= i < D.Size(state) ensures D.At(state, i).callId != id {
        assert (past + own)[i] in past + own;
      }
    }

    /** The backend completes what is still in flight, and every callback runs to its end. Between calls
        that changes nothing else. */
    method Settle()
      requires Valid() && Calls.Resting(state)
      modifies this, past, own
      ensures Valid() && Calls.Resting(state) && past == old(past) && own == old(own)
      ensures !Calls.MayIntrude(D.Clear(state))
    {
      hide D.Apply, Agree, Queued, Calls.Resting;
      Lengths();
      for i := 0 to |past| + |own|
        invariant Valid() && Calls.Resting(state) && past == old(past) && own == old(own)
        invariant |state.past| == |past| && |state.own| == |own|
        invariant forall j :: 0 <= j < i ==> D.At(state, j).stage == Over
      {
        var c := (past + own)[i];
        Indexed(c);
        if c.stage != Over {
          ghost var before := state;
          ghost var e := Advance(c);
          Calls.RestingOver(call, before, e);
          Lengths();
        }
      }
      Calls.OverMayStart(state);
    }

    /** Any number of calls in a row, each after the callbacks of those before it have run to their end:
        all of them are answered. */
    method CallEach(inputs: seq<seq<T>>, amount: nat, lazy: bool, ids: seq<nat>)
        returns (outs: seq<seq<R>>, failures: seq<bool>)
      requires Valid() && Calls.Resting(state) && |ids| == |inputs|
      requires forall i, j :: 0 <= i < j < |ids| ==> ids[i] != ids[j]
      requires forall c, i :: c in past + own && 0 <= i < |ids| ==> c.callId != ids[i]
      modifies this, past, own
      ensures Valid() && Calls.Resting(state) && |outs| == |failures| == |inputs|
      ensures forall i :: 0 <= i < |inputs| ==> Answers(inputs[i], outs[i], failures[i])
    {
      hide Agree, Queued, Calls.Resting, Answers;
      outs, failures := [], [];
      for k := 0 to |inputs|
        invariant Valid() && Calls.Resting(state) && |outs| == |failures| == k
        invariant fresh((set c | c in past + own) - (set c | c in old(past + own)))
        invariant forall c, i :: c in past + own && k <= i < |ids| ==> c.callId != ids[i]
        invariant forall i :: 0 <= i < k ==> Answers(inputs[i], outs[i], failures[i])
      {
        Settle();
        var out, failed := Call(inputs[k], amount, lazy, ids[k]);
        outs, failures := outs + [out], failures + [failed];
      }
    }
  }
}
