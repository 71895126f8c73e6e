/** `ProcessPoolExecutor` and its manager thread, over the fields they share. */
module ExecutorManager {
  import opened Executor

  datatype SubmitResult = Accepted(id: Id) | Rejected(error: Error)

  /** All turns of the loop that fills the call queue. */
  function FeedAll(s: State): State
    decreases |s.workIds|
  {
    if CanFeed(s) then FeedAll(DoFeed(s)) else s
  }

  /** Filling the call queue is a run of single steps; it ends with the queue full or no id waiting. */
  lemma {:induction false} FeedAllFills(s: State) returns (es: seq<Event>)
    requires Inv(s)
    ensures Steps(s, es, FeedAll(s)) && Inv(FeedAll(s)) && forall i :: 0 <= i < |es| ==> es[i] == Feed
    ensures FeedAll(s).workIds == [] || |FeedAll(s).callQueue| == s.capacity
    decreases |s.workIds|
  {
    hide IdOk, Contents;
    if CanFeed(s) {
      var t := DoFeed(s);
      StepKeeps(s, Feed);
      var rest := FeedAllFills(t);
      es := [Feed] + rest;
      assert es[1..] == rest;
    } else {
      es := [];
      if s.workIds != [] { FirstWaits(s); }
    }
  }

  lemma {:induction false} FirstWaits(s: State)
    requires Inv(s) && s.workIds != []
    ensures s.workIds[0] in s.pending && s.workIds[0] in s.futures
  {
    assert IdOk(s, s.workIds[0]) && s.workIds[0] in s.workIds;
  }

  lemma {:induction false} AllHaveFutures(s: State)
    requires Inv(s)
    ensures s.pending.Keys <= s.futures.Keys
  {
    forall id | id in s.pending ensures id in s.futures { assert IdOk(s, id); }
  }

  lemma {:induction false} FailOne(futures: map<Id, Future>, done: set<Id>, id: Id, e: Error)
    requires id in futures && id !in done
    ensures id in FailedAll(futures, done, e) && FailedAll(futures, done, e)[id] == futures[id]
    ensures FailedAll(futures, done + {id}, e) ==
            if Resolved(futures[id]) then FailedAll(futures, done, e) else FailedAll(futures, done, e)[id := Failed(e)]
  {
  }

  lemma {:induction false} OutstandingPending(s: State)
    requires Inv(s)
    ensures forall id :: id in s.futures && !Resolved(s.futures[id]) ==> id in s.pending
  {
    forall id | id in s.futures && !Resolved(s.futures[id]) ensures id in s.pending { assert IdOk(s, id); }
  }

  lemma {:induction false} ResultIsPending(s: State)
    requires Inv(s) && s.resultQueue != []
    ensures s.resultQueue[0].id in s.pending && s.resultQueue[0].id in s.futures
  {
    assert IdOk(s, s.resultQueue[0].id) && Count(s.resultQueue, s.resultQueue[0].id) >= 1;
  }

  lemma {:induction false} CallIsPending(s: State)
    requires Inv(s) && s.callQueue != []
    ensures s.callQueue[0].id in s.pending && s.callQueue[0].id in s.futures
  {
    assert IdOk(s, s.callQueue[0].id) && Count(s.callQueue, s.callQueue[0].id) >= 1;
  }

  lemma {:induction false} FailNone(futures: map<Id, Future>, e: Error)
    ensures FailedAll(futures, {}, e) == futures
  {
  }

  class ProcessPoolExecutor {
    const capacity: nat
    var queueCount: Id
    var pendingWorkItems: map<Id, Call>
    var runningWorkItems: seq<Id>
    var workIds: seq<Id>
    var callQueue: seq<CallItem>
    var resultQueue: seq<ResultItem>
    var processes: seq<Process>
    var flags: Flags
    var futures: map<Id, Future>
    ghost var calls: map<Id, Call>
    ghost var ran: map<Id, Outcome>

    ghost function Now(): State
      reads this
    {
      State(capacity, queueCount, workIds, pendingWorkItems, runningWorkItems, callQueue, processes, resultQueue,
            flags, futures, calls, ran)
    }

    constructor (maxWorkers: nat, queueSize: nat)
      requires maxWorkers > 0 && queueSize > 0
      ensures Initial(Now()) && Inv(Now()) && InLine(Now()) && |processes| == maxWorkers && capacity == queueSize
    {
      capacity := queueSize;
      queueCount := 0;
      pendingWorkItems, futures, calls, ran := map[], map[], map[], map[];
      runningWorkItems, workIds, callQueue, resultQueue := [], [], [], [];
      processes := seq(maxWorkers, _ => Idle);
      flags := Flags(false, false, false);
      new;
      InitiallyInv(Now());
    }

    /** Refused exactly when the executor is broken or shut down, with the error that says which. */
    method Submit(call: Call) returns (r: SubmitResult)
      requires Inv(Now())
      modifies this
      ensures Inv(Now()) && Now() == Apply(old(Now()), Event.Submit(call))
      ensures r == if old(flags).broken then Rejected(TerminatedWorkerError)
                   else if old(flags).shutdown then Rejected(ShutdownExecutorError) else Accepted(old(queueCount))
      ensures r.Accepted? ==> r.id !in old(futures) && futures == old(futures)[r.id := Pending]
      ensures r.Accepted? ==> workIds == old(workIds) + [r.id] && queueCount == old(queueCount) + 1
      ensures r.Accepted? ==> pendingWorkItems == old(pendingWorkItems)[r.id := call]
      ensures unchanged(`callQueue, `processes, `resultQueue, `flags)
      ensures r.Rejected? ==> unchanged(this)
    {
      hide IdOk, Contents;
      StepKeeps(Now(), Event.Submit(call));
      if flags.broken { return Rejected(TerminatedWorkerError); }
      if flags.shutdown { return Rejected(ShutdownExecutorError); }
      Unused(Now());
      r := Accepted(queueCount);
      futures := futures[queueCount := Pending];
      pendingWorkItems := pendingWorkItems[queueCount := call];
      workIds := workIds + [queueCount];
      calls := calls[queueCount := call];
      queueCount := queueCount + 1;
    }

    lemma Unused(s: State)
      requires Inv(s)
      ensures s.queueCount !in s.futures
    {
      assert IdOk(s, s.queueCount);
    }

    /** Cancels an item, and says whether it is cancelled: it is, unless it has left the work-id queue. */
    method Cancel(id: Id) returns (cancelled: bool)
      requires Inv(Now()) && id in futures
      modifies this`futures
      ensures Inv(Now()) && Now() == Apply(old(Now()), Event.Cancel(id))
      ensures cancelled == futures[id].Cancelled?
      ensures futures == if old(futures)[id].Pending? then old(futures)[id := Cancelled] else old(futures)
      ensures !Resolved(old(futures)[id]) ==> (cancelled <==> id in workIds)
    {
      hide IdOk, Contents;
      StepKeeps(Now(), Event.Cancel(id));
      if !Resolved(futures[id]) { CancelExactly(Now(), id); }
      if futures[id].Pending? { futures := futures[id := Cancelled]; }
      cancelled := futures[id].Cancelled?;
    }

    method AddCallItemToQueue()
      requires Inv(Now())
      modifies this
      ensures Inv(Now()) && Now() == FeedAll(old(Now()))
      ensures workIds == [] || |callQueue| == capacity
    {
      hide IdOk, Contents, DoFeed;
      var _ := FeedAllFills(Now());
      while workIds != [] && |callQueue| < capacity
        invariant Inv(Now()) && FeedAll(Now()) == FeedAll(old(Now()))
        decreases |workIds|
      {
        FirstWaits(Now());
        StepKeeps(Now(), Feed);
        FeedOne();
      }
    }

    /** A cancelled item leaves the dict; any other becomes running and goes into the call queue. */
    method FeedOne()
      requires CanFeed(Now())
      modifies this
      ensures Now() == DoFeed(old(Now())) && workIds == old(workIds)[1..]
      ensures var id := old(workIds)[0];
              if old(futures)[id].Cancelled?
              then && pendingWorkItems == old(pendingWorkItems) - {id}
                   && unchanged(`callQueue, `futures, `runningWorkItems)
              else && callQueue == old(callQueue) + [Item(id, pendingWorkItems[id])] && unchanged(`pendingWorkItems)
                   && futures == old(futures)[id := Running] && runningWorkItems == old(runningWorkItems) + [id]
      ensures unchanged(`processes, `resultQueue, `flags, `queueCount)
    {
      var id := workIds[0];
      workIds := workIds[1..];
      if futures[id].Cancelled? {
        pendingWorkItems := pendingWorkItems - {id};
      } else {
        futures := futures[id := Running];
        runningWorkItems := runningWorkItems + [id];
        callQueue := callQueue + [Item(id, pendingWorkItems[id])];
      }
    }

    method ProcessResultItem()
      requires Inv(Now()) && resultQueue != []
      modifies this
      ensures Inv(Now()) && Now() == Apply(old(Now()), Collect)
      ensures var item := old(resultQueue)[0];
              && resultQueue == old(resultQueue)[1..] && pendingWorkItems == old(pendingWorkItems) - {item.id}
              && item.id in futures && futures - {item.id} == old(futures) - {item.id}
              && (item.content.Returned? ==> futures[item.id] == Done(item.content.value))
              && (item.content.Raised? ==> futures[item.id] == Failed(Exception(item.content.exn)))
              && (item.content.Unsendable? ==> futures[item.id] == Failed(PicklingError))
      ensures unchanged(`workIds, `callQueue, `processes, `flags, `queueCount)
    {
      ResultIsPending(Now());
      hide IdOk, Contents;
      StepKeeps(Now(), Collect);
      var item := resultQueue[0];
      resultQueue := resultQueue[1..];
      if item.id in pendingWorkItems {
        pendingWorkItems := pendingWorkItems - {item.id};
        futures := futures[item.id := match item.content
                                      case Returned(v) => Done(v)
                                      case Raised(e) => Failed(Exception(e))
                                      case Unsendable => Failed(PicklingError)];
        runningWorkItems := Remove(runningWorkItems, item.id);
      }
    }

    /** Fails every future of the dict that can still fail. */
    method FailPending(e: Error)
      requires pendingWorkItems.Keys <= futures.Keys
      modifies this`futures, this`pendingWorkItems
      ensures pendingWorkItems == map[]
      ensures futures == FailedAll(old(futures), old(pendingWorkItems).Keys, e)
    {
      hide FailedAll;
      ghost var was, all := futures, pendingWorkItems.Keys;
      ghost var done: set<Id> := {};
      FailNone(futures, e);
      while pendingWorkItems != map[]
        invariant pendingWorkItems.Keys == all - done && done <= all
        invariant futures == FailedAll(was, done, e)
        decreases |pendingWorkItems|
      {
        var id :| id in pendingWorkItems;
        FailOne(was, done, id, e);
        PopAndFail(id, e);
        done := done + {id};
      }
      assert done == all;
    }

    method PopAndFail(id: Id, e: Error)
      requires id in pendingWorkItems && id in futures
      modifies this`futures, this`pendingWorkItems
      ensures futures == if Resolved(old(futures)[id]) then old(futures) else old(futures)[id := Failed(e)]
      ensures pendingWorkItems == old(pendingWorkItems) - {id} && |pendingWorkItems| < |old(pendingWorkItems)|
    {
      if !Resolved(futures[id]) { futures := futures[id := Failed(e)]; }
      pendingWorkItems := pendingWorkItems - {id};
    }

    method TerminateBroken()
      requires Inv(Now()) && Enabled(Now(), Event.TerminateBroken)
      modifies this
      ensures Inv(Now()) && Now() == Apply(old(Now()), Event.TerminateBroken)
      ensures forall id :: id in futures ==> Resolved(futures[id])
      ensures AllFailed(old(futures), TerminatedWorkerError) && flags == old(flags).(broken := true)
    {
      AllResolved(Now(), Event.TerminateBroken);
      FailAllPending(TerminatedWorkerError);
      flags := flags.(broken := true);
    }

    method KillWorkers()
      requires Inv(Now()) && Enabled(Now(), Event.KillWorkers)
      modifies this
      ensures Inv(Now()) && Now() == Apply(old(Now()), Event.KillWorkers)
      ensures forall id :: id in futures ==> Resolved(futures[id])
      ensures AllFailed(old(futures), ShutdownExecutorError) && flags == old(flags)
    {
      AllResolved(Now(), Event.KillWorkers);
      FailAllPending(ShutdownExecutorError);
    }

    /** Nothing is left anywhere, and who was still waiting has failed. */
    ghost predicate AllFailed(was: map<Id, Future>, e: Error)
      reads this
    {
      && workIds == [] && callQueue == [] && resultQueue == [] && processes == [] && pendingWorkItems == map[]
      && futures.Keys == was.Keys
      && forall id :: id in was ==>
           futures[id] == if was[id].Pending? || was[id].Running? then Failed(e) else was[id]
    }

    method Shutdown(kill: bool)
      requires Inv(Now())
      modifies this`flags
      ensures Inv(Now()) && Now() == Apply(old(Now()), Event.Shutdown(kill))
      ensures flags.shutdown && flags.broken == old(flags).broken
      ensures flags.killWorkers <==> old(flags).killWorkers || kill
    {
      StepKeeps(Now(), Event.Shutdown(kill));
      flags := flags.(shutdown := true, killWorkers := flags.killWorkers || kill);
    }

    /** A call item that cannot be pickled: its future fails, and it does not get to a worker. */
    method OnQueueFeederError()
      requires Inv(Now()) && callQueue != []
      modifies this
      ensures Inv(Now()) && Now() == Apply(old(Now()), FeederError)
      ensures var id := old(callQueue)[0].id;
              && callQueue == old(callQueue)[1..] && pendingWorkItems == old(pendingWorkItems) - {id}
              && futures == old(futures)[id := Failed(PicklingError)]
      ensures unchanged(`workIds, `processes, `resultQueue, `flags, `queueCount)
    {
      CallIsPending(Now());
      hide IdOk, Contents;
      StepKeeps(Now(), FeederError);
      var id := callQueue[0].id;
      callQueue := callQueue[1..];
      pendingWorkItems := pendingWorkItems - {id};
      futures := futures[id := Failed(PicklingError)];
      runningWorkItems := Remove(runningWorkItems, id);
    }

    /** An idle worker gets the first item of the call queue. */
    method WorkerTakes(w: nat)
      requires Inv(Now()) && w < |processes| && processes[w].Idle? && callQueue != []
      modifies this`processes, this`callQueue
      ensures Inv(Now()) && Now() == Apply(old(Now()), Take(w))
      ensures processes == old(processes)[w := Busy(old(callQueue)[0])] && callQueue == old(callQueue)[1..]
    {
      StepKeeps(Now(), Take(w));
      processes := processes[w := Busy(callQueue[0])];
      callQueue := callQueue[1..];
    }

    /** A worker sends back what its call gave. */
    method WorkerFinishes(w: nat, outcome: Outcome)
      requires Inv(Now()) && w < |processes| && processes[w].Busy?
      modifies this`processes, this`resultQueue, this`ran
      ensures Inv(Now()) && Now() == Apply(old(Now()), Finish(w, outcome))
      ensures processes == old(processes)[w := Idle]
      ensures resultQueue == old(resultQueue) + [Item(old(processes)[w].item.id, outcome)]
    {
      StepKeeps(Now(), Finish(w, outcome));
      var id := processes[w].item.id;
      processes := processes[w := Idle];
      resultQueue := resultQueue + [Item(id, outcome)];
      ran := ran[id := outcome];
    }

    method FailAllPending(e: Error)
      requires Inv(Now())
      modifies this
      ensures Now() == FailAll(old(Now()), e) && AllFailed(old(futures), e)
    {
      OutstandingPending(Now());
      hide Contents, IdOk, FailedAll;
      AllHaveFutures(Now());
      FailPending(e);
      runningWorkItems, workIds, callQueue, resultQueue, processes := [], [], [], [], [];
    }
  }

  lemma {:induction false} AllResolved(s: State, e: Event)
    requires Inv(s) && Enabled(s, e) && (e.TerminateBroken? || e.KillWorkers?)
    ensures Inv(Apply(s, e)) && forall id :: id in Apply(s, e).futures ==> Resolved(Apply(s, e).futures[id])
  {
    StepKeeps(s, e);
    forall id | id in Apply(s, e).futures ensures Resolved(Apply(s, e).futures[id]) { FaultsResolveAll(s, e, id); }
  }
}
