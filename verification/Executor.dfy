/** The data flow of the loky `ProcessPoolExecutor`: work ids, the work-item dict, a bounded call queue,
    worker processes and a result queue, with cancellation, crashes and shutdown.

    Every step of the manager thread, the workers and the user is one event; all interleavings are runs. */
module Executor {
  type Id = nat
  type Call = nat

  /** A work id travelling with its call, or with its result. */
  datatype Item<T> = Item(id: Id, content: T)

  type CallItem = Item<Call>
  type ResultItem = Item<Outcome>

  /** What running a call gives: a value that can be sent back, one that cannot, or an exception. */
  datatype Outcome = Returned(value: nat) | Unsendable | Raised(exn: nat)

  datatype Error = Exception(exn: nat) | PicklingError | TerminatedWorkerError | ShutdownExecutorError

  datatype Future = Pending | Running | Cancelled | Done(value: nat) | Failed(error: Error)

  datatype Process = Idle | Busy(item: CallItem) | Dead(lost: seq<CallItem>)

  datatype Flags = Flags(shutdown: bool, broken: bool, killWorkers: bool)

  /** calls, ran: what was submitted under each id, and the outcome of each call a worker executed. */
  datatype State = State(
    capacity: nat, queueCount: Id, workIds: seq<Id>, pending: map<Id, Call>, running: seq<Id>,
    callQueue: seq<CallItem>, processes: seq<Process>, resultQueue: seq<ResultItem>,
    flags: Flags, futures: map<Id, Future>, calls: map<Id, Call>, ran: map<Id, Outcome>)

  datatype Event =
    | Submit(call: Call) | Cancel(id: Id) | Shutdown(kill: bool)
    | Feed | Collect | FeederError | TerminateBroken | KillWorkers
    | Take(worker: nat) | Finish(worker: nat, outcome: Outcome) | Die(worker: nat)

  // ---------------------------------------------------------------- steps

  predicate Resolved(f: Future) { f.Cancelled? || f.Done? || f.Failed? }

  function Settle(o: Outcome): Future {
    match o
    case Returned(v) => Done(v)
    case Unsendable => Failed(PicklingError)
    case Raised(e) => Failed(Exception(e))
  }

  predicate Refused(s: State) { s.flags.broken || s.flags.shutdown }

  function DoSubmit(s: State, call: Call): State {
    if Refused(s) then s
    else s.(queueCount := s.queueCount + 1, pending := s.pending[s.queueCount := call],
            workIds := s.workIds + [s.queueCount], futures := s.futures[s.queueCount := Pending],
            calls := s.calls[s.queueCount := call])
  }

  function DoCancel(s: State, id: Id): State {
    if id in s.futures && s.futures[id].Pending? then s.(futures := s.futures[id := Cancelled]) else s
  }

  predicate CanFeed(s: State) {
    && s.workIds != [] && |s.callQueue| < s.capacity
    && s.workIds[0] in s.pending && s.workIds[0] in s.futures
  }

  /** One turn of the loop that fills the call queue. */
  function DoFeed(s: State): State
    requires CanFeed(s)
  {
    var id := s.workIds[0];
    if s.futures[id].Cancelled? then s.(workIds := s.workIds[1..], pending := s.pending - {id})
    else s.(workIds := s.workIds[1..], futures := s.futures[id := Running], running := s.running + [id],
            callQueue := s.callQueue + [Item(id, s.pending[id])])
  }

  function Remove(ids: seq<Id>, id: Id): seq<Id> {
    if ids == [] then [] else if ids[0] == id then ids[1..] else [ids[0]] + Remove(ids[1..], id)
  }

  function Resolve(s: State, id: Id, f: Future): State {
    if id in s.pending then
      s.(pending := s.pending - {id}, futures := s.futures[id := f], running := Remove(s.running, id))
    else s
  }

  function DoCollect(s: State): State
    requires s.resultQueue != []
  {
    var item := s.resultQueue[0];
    Resolve(s, item.id, Settle(item.content)).(resultQueue := s.resultQueue[1..])
  }

  /** A call item that the queue's feeder cannot pickle. */
  function DoFeederError(s: State): State
    requires s.callQueue != []
  {
    Resolve(s, s.callQueue[0].id, Failed(PicklingError)).(callQueue := s.callQueue[1..])
  }

  function FailedAll(futures: map<Id, Future>, ids: set<Id>, e: Error): map<Id, Future> {
    map id | id in futures :: if id in ids && !Resolved(futures[id]) then Failed(e) else futures[id]
  }

  /** Every outstanding future fails, and the queues and processes are gone. */
  function FailAll(s: State, e: Error): State {
    s.(futures := FailedAll(s.futures, s.pending.Keys, e), pending := map[], running := [], workIds := [],
       callQueue := [], resultQueue := [], processes := [])
  }

  ghost predicate Enabled(s: State, e: Event) {
    match e
    case Submit(_) | Cancel(_) | Shutdown(_) => true
    case Feed => CanFeed(s)
    case Collect => s.resultQueue != []
    case FeederError => s.callQueue != []
    case TerminateBroken => exists w :: 0 <= w < |s.processes| && s.processes[w].Dead?
    case KillWorkers => s.flags.killWorkers && s.processes != []
    case Take(w) => w < |s.processes| && s.processes[w].Idle? && s.callQueue != []
    case Finish(w, _) => w < |s.processes| && s.processes[w].Busy?
    case Die(w) => w < |s.processes| && !s.processes[w].Dead?
  }

  function DoTake(s: State, w: nat): State
    requires w < |s.processes| && s.callQueue != []
  {
    s.(processes := s.processes[w := Busy(s.callQueue[0])], callQueue := s.callQueue[1..])
  }

  function DoFinish(s: State, w: nat, o: Outcome): State
    requires w < |s.processes| && s.processes[w].Busy?
  {
    var id := s.processes[w].item.id;
    s.(processes := s.processes[w := Idle], resultQueue := s.resultQueue + [Item(id, o)],
       ran := s.ran[id := o])
  }

  function DoDie(s: State, w: nat): State
    requires w < |s.processes|
  {
    s.(processes := s.processes[w := Dead(if s.processes[w].Busy? then [s.processes[w].item] else [])])
  }

  ghost function Apply(s: State, e: Event): State
    requires Enabled(s, e)
  {
    match e
    case Submit(call) => DoSubmit(s, call)
    case Cancel(id) => DoCancel(s, id)
    case Shutdown(kill) => s.(flags := s.flags.(shutdown := true, killWorkers := s.flags.killWorkers || kill))
    case Feed => DoFeed(s)
    case Collect => DoCollect(s)
    case FeederError => DoFeederError(s)
    case TerminateBroken => FailAll(s, TerminatedWorkerError).(flags := s.flags.(broken := true))
    case KillWorkers => FailAll(s, ShutdownExecutorError)
    case Take(w) => DoTake(s, w)
    case Finish(w, o) => DoFinish(s, w, o)
    case Die(w) => DoDie(s, w)
  }

  ghost predicate Steps(s: State, es: seq<Event>, t: State)
    decreases |es|
  {
    if es == [] then s == t else Enabled(s, es[0]) && Steps(Apply(s, es[0]), es[1..], t)
  }

  ghost predicate Initial(s: State) {
    && s.capacity > 0 && s.queueCount == 0 && s.workIds == [] && s.pending == map[] && s.running == []
    && s.callQueue == [] && s.resultQueue == [] && s.flags == Flags(false, false, false)
    && s.futures == map[] && s.calls == map[] && s.ran == map[]
    && s.processes != [] && forall w :: 0 <= w < |s.processes| ==> s.processes[w] == Idle
  }

  // ---------------------------------------------------------------- where work items are

  function Count<T>(items: seq<Item<T>>, id: Id): nat {
    if items == [] then 0 else (if items[0].id == id then 1 else 0) + Count(items[1..], id)
  }

  function HeldBy(p: Process, id: Id): nat {
    match p
    case Idle => 0
    case Busy(item) => if item.id == id then 1 else 0
    case Dead(lost) => Count(lost, id)
  }

  function Held(ps: seq<Process>, id: Id): nat {
    if ps == [] then 0 else HeldBy(ps[0], id) + Held(ps[1..], id)
  }

  lemma {:induction false} CountAppend<T>(items: seq<Item<T>>, item: Item<T>, id: Id)
    ensures Count(items + [item], id) == Count(items, id) + if item.id == id then 1 else 0
  {
    if items != [] {
      CountAppend(items[1..], item, id);
      assert (items + [item])[1..] == items[1..] + [item];
    } else {
      assert (items + [item])[1..] == [];
    }
  }

  lemma {:induction false} HeldUpdate(ps: seq<Process>, w: nat, p: Process, id: Id)
    requires w < |ps|
    ensures Held(ps[w := p], id) + HeldBy(ps[w], id) == Held(ps, id) + HeldBy(p, id)
  {
    if w == 0 {
      assert ps[w := p][1..] == ps[1..];
    } else {
      HeldUpdate(ps[1..], w - 1, p, id);
      assert ps[w := p][1..] == ps[1..][w - 1 := p];
    }
  }

  lemma {:induction false} HeldAt(ps: seq<Process>, w: nat, id: Id)
    requires w < |ps|
    ensures Held(ps, id) >= HeldBy(ps[w], id)
  {
    if w > 0 { HeldAt(ps[1..], w - 1, id); }
  }

  /** How often an id is on its way: in the call queue, in a process, or in the result queue. */
  function Sent(s: State, id: Id): nat {
    Count(s.callQueue, id) + Held(s.processes, id) + Count(s.resultQueue, id)
  }

  function Waiting(s: State, id: Id): nat { multiset(s.workIds)[id] }

  /** An id in the dict is in exactly one place, and no other id is anywhere. */
  ghost predicate Placed(s: State, id: Id) {
    && Waiting(s, id) + Sent(s, id) == (if id in s.pending then 1 else 0)
    && multiset(s.running)[id] == Sent(s, id)
  }

  /** The future of an id agrees with where the id is, and with what was run for it. */
  ghost predicate Tells(s: State, id: Id) {
    && (id in s.futures <==> id < s.queueCount) && (id in s.calls <==> id < s.queueCount)
    && (id in s.pending ==> id in s.futures && s.pending[id] == s.calls[id])
    && (id in s.futures && id !in s.pending ==> Resolved(s.futures[id]))
    && (id in s.futures && Waiting(s, id) > 0 ==> s.futures[id].Pending? || s.futures[id].Cancelled?)
    && (id in s.futures && Sent(s, id) > 0 ==> s.futures[id].Running?)
  }

  ghost predicate Own(s: State, id: Id) {
    && (id in s.ran ==> id in s.futures && !s.futures[id].Pending? && !s.futures[id].Cancelled?)
    && (id in s.ran ==> Count(s.callQueue, id) + Held(s.processes, id) == 0)
    && (id in s.futures && s.futures[id].Done? ==> id in s.ran && Settle(s.ran[id]) == s.futures[id])
    && (id in s.futures && s.futures[id].Failed? && s.futures[id].error.Exception?
        ==> id in s.ran && Settle(s.ran[id]) == s.futures[id])
  }

  ghost predicate Loaded(s: State, item: CallItem) { item.id in s.calls && s.calls[item.id] == item.content }

  /** What travels with an id is its own call, or its own result. */
  ghost predicate Contents(s: State) {
    && (forall i :: 0 <= i < |s.callQueue| ==> Loaded(s, s.callQueue[i]))
    && (forall w :: 0 <= w < |s.processes| && s.processes[w].Busy? ==> Loaded(s, s.processes[w].item))
    && (forall i :: 0 <= i < |s.resultQueue| ==>
          s.resultQueue[i].id in s.ran && s.ran[s.resultQueue[i].id] == s.resultQueue[i].content)
  }

  ghost predicate IdOk(s: State, id: Id) { Placed(s, id) && Tells(s, id) && Own(s, id) }

  ghost predicate Inv(s: State) {
    && (forall id: Id :: IdOk(s, id))
    && Contents(s)
    && |s.callQueue| <= s.capacity && s.capacity > 0
    && (s.processes == [] ==> Refused(s) && s.pending == map[])
    && (s.flags.killWorkers ==> s.flags.shutdown)
  }

  // ---------------------------------------------------------------- conservation

  lemma {:induction false} RemoveCount(ids: seq<Id>, x: Id, id: Id)
    ensures multiset(Remove(ids, x))[id] ==
            if id == x && multiset(ids)[id] > 0 then multiset(ids)[id] - 1 else multiset(ids)[id]
  {
    if ids != [] {
      RemoveCount(ids[1..], x, id);
      assert ids == [ids[0]] + ids[1..];
    }
  }

  lemma {:induction false} WaitingTail(s: State, id: Id)
    requires s.workIds != []
    ensures multiset(s.workIds[1..])[id] == Waiting(s, id) - if s.workIds[0] == id then 1 else 0
  {
    assert s.workIds == [s.workIds[0]] + s.workIds[1..];
  }

  lemma {:induction false} DropId(s: State, id: Id)
    requires CanFeed(s) && IdOk(s, id) && IdOk(s, s.workIds[0]) && s.futures[s.workIds[0]].Cancelled?
    ensures IdOk(DoFeed(s), id)
  {
    hide Held, Count, Settle;
    WaitingTail(s, id);
    WaitingTail(s, s.workIds[0]);
  }

  lemma {:induction false} SendId(s: State, id: Id)
    requires CanFeed(s) && IdOk(s, id) && IdOk(s, s.workIds[0]) && !s.futures[s.workIds[0]].Cancelled?
    ensures IdOk(DoFeed(s), id)
  {
    hide Held, Count, Settle;
    var x := s.workIds[0];
    WaitingTail(s, id);
    WaitingTail(s, x);
    CountAppend(s.callQueue, Item(x, s.pending[x]), id);
  }

  lemma {:induction false} ResolveId(s: State, x: Id, f: Future, t: State, id: Id)
    requires IdOk(s, id) && IdOk(s, x) && x in s.pending && x in s.futures && Sent(s, x) == 1
    requires t == Resolve(s, x, f).(callQueue := t.callQueue, resultQueue := t.resultQueue)
    requires Sent(t, id) == Sent(s, id) - if id == x then 1 else 0
    requires Count(t.callQueue, id) <= Count(s.callQueue, id)
    requires f.Done? || (f.Failed? && f.error.Exception?) ==> x in s.ran && Settle(s.ran[x]) == f
    requires Resolved(f) && !f.Cancelled?
    ensures IdOk(t, id)
  {
    hide Count, Held, Settle;
    RemoveCount(s.running, x, id);
  }

  lemma {:induction false} CollectId(s: State, id: Id)
    requires Inv(s) && s.resultQueue != []
    ensures IdOk(DoCollect(s), id)
  {
    var item := s.resultQueue[0];
    assert IdOk(s, item.id) && IdOk(s, id);
    assert Sent(s, item.id) >= Count(s.resultQueue, item.id) >= 1;
    ResolveId(s, item.id, Settle(item.content), DoCollect(s), id);
  }

  lemma {:induction false} FeederErrorId(s: State, id: Id)
    requires Inv(s) && s.callQueue != []
    ensures IdOk(DoFeederError(s), id)
  {
    var item := s.callQueue[0];
    assert IdOk(s, item.id) && IdOk(s, id);
    assert Sent(s, item.id) >= Count(s.callQueue, item.id) >= 1;
    ResolveId(s, item.id, Failed(PicklingError), DoFeederError(s), id);
  }

  lemma {:induction false} TakeId(s: State, w: nat, id: Id)
    requires IdOk(s, id) && w < |s.processes| && s.processes[w].Idle? && s.callQueue != []
    ensures IdOk(DoTake(s, w), id)
  {
    HeldUpdate(s.processes, w, Busy(s.callQueue[0]), id);
  }

  lemma {:induction false} FinishId(s: State, w: nat, o: Outcome, id: Id)
    requires Inv(s) && w < |s.processes| && s.processes[w].Busy?
    ensures IdOk(DoFinish(s, w, o), id)
  {
    hide Contents;
    var x := s.processes[w].item.id;
    assert IdOk(s, id) && IdOk(s, x);
    HeldUpdate(s.processes, w, Idle, id);
    HeldAt(s.processes, w, x);
    CountAppend(s.resultQueue, Item(x, o), id);
  }

  lemma {:induction false} DieId(s: State, w: nat, id: Id)
    requires IdOk(s, id) && w < |s.processes| && !s.processes[w].Dead?
    ensures IdOk(DoDie(s, w), id)
  {
    var p := DoDie(s, w).processes[w];
    HeldUpdate(s.processes, w, p, id);
    if s.processes[w].Busy? {
      CountAppend([], s.processes[w].item, id);
      assert p.lost == [] + [s.processes[w].item];
    }
    assert HeldBy(p, id) == HeldBy(s.processes[w], id);
  }

  lemma {:induction false} FailAllId(s: State, e: Error, id: Id)
    requires IdOk(s, id) && !e.Exception?
    ensures IdOk(FailAll(s, e), id)
  {
  }

  lemma {:induction false} SubmitId(s: State, call: Call, id: Id)
    requires IdOk(s, id) && IdOk(s, s.queueCount)
    ensures IdOk(DoSubmit(s, call), id)
  {
  }

  lemma {:induction false} CancelId(s: State, x: Id, id: Id)
    requires IdOk(s, id)
    ensures IdOk(DoCancel(s, x), id)
  {
  }

  lemma {:induction false} StepKeepsId(s: State, e: Event, id: Id)
    requires Inv(s) && Enabled(s, e)
    ensures IdOk(Apply(s, e), id)
  {
    hide Contents, Placed, Tells, Own, DoFeed, DoCollect, DoFeederError;
    hide DoSubmit, DoCancel, DoTake, DoFinish, DoDie, FailAll;
    assert IdOk(s, id);
    match e
    case Submit(call) => assert IdOk(s, s.queueCount); SubmitId(s, call, id);
    case Cancel(x) => CancelId(s, x, id);
    case Shutdown(_) => SameId(s, Apply(s, e), id);
    case Feed =>
      assert IdOk(s, s.workIds[0]);
      if s.futures[s.workIds[0]].Cancelled? { DropId(s, id); } else { SendId(s, id); }
    case Collect => CollectId(s, id);
    case FeederError => FeederErrorId(s, id);
    case TerminateBroken =>
      var t := FailAll(s, TerminatedWorkerError);
      FailAllId(s, TerminatedWorkerError, id);
      SameId(t, Apply(s, e), id);
    case KillWorkers => FailAllId(s, ShutdownExecutorError, id);
    case Take(w) => TakeId(s, w, id);
    case Finish(w, o) => FinishId(s, w, o, id);
    case Die(w) => DieId(s, w, id);
  }

  lemma {:induction false} SameId(s: State, t: State, id: Id)
    requires IdOk(s, id) && t == s.(flags := t.flags)
    ensures IdOk(t, id)
  {
  }

  lemma {:induction false} StepKeepsContents(s: State, e: Event)
    requires Inv(s) && Enabled(s, e)
    ensures Contents(Apply(s, e))
  {
    hide Held, Count, DoFinish, DoFeed, DoTake, DoSubmit, IdOk, Settle, Resolved, FailedAll, Remove;
    match e
    case Submit(call) => assert IdOk(s, s.queueCount); SubmitContents(s, call);
    case Feed => assert IdOk(s, s.workIds[0]); FeedContents(s);
    case Finish(w, o) => FinishContents(s, w, o);
    case Take(w) => TakeContents(s, w);
    case _ =>
  }

  lemma {:induction false} SubmitContents(s: State, call: Call)
    requires Contents(s) && IdOk(s, s.queueCount)
    ensures Contents(DoSubmit(s, call))
  {
  }

  lemma {:induction false} FeedContents(s: State)
    requires Contents(s) && CanFeed(s) && IdOk(s, s.workIds[0])
    ensures Contents(DoFeed(s))
  {
  }

  lemma {:induction false} TakeContents(s: State, w: nat)
    requires Contents(s) && w < |s.processes| && s.callQueue != []
    ensures Contents(DoTake(s, w))
  {
  }

  lemma {:induction false} FinishContents(s: State, w: nat, o: Outcome)
    requires Inv(s) && w < |s.processes| && s.processes[w].Busy?
    ensures Contents(DoFinish(s, w, o))
  {
    var x := s.processes[w].item.id;
    assert IdOk(s, x);
    HeldAt(s.processes, w, x);
  }

  /** Every step keeps the books: each id in the dict is in exactly one place, the dict holds the
      unresolved ids, and what travels with an id is its own. */
  lemma {:induction false} StepKeeps(s: State, e: Event)
    requires Inv(s) && Enabled(s, e)
    ensures Inv(Apply(s, e))
  {
    forall id ensures IdOk(Apply(s, e), id) { StepKeepsId(s, e, id); }
    StepKeepsContents(s, e);
    hide IdOk, Contents;
  }

  lemma {:induction false} Conservation(s: State, es: seq<Event>, t: State)
    requires Inv(s) && Steps(s, es, t)
    ensures Inv(t)
    decreases |es|
  {
    hide Inv;
    if es != [] {
      StepKeeps(s, es[0]);
      Conservation(Apply(s, es[0]), es[1..], t);
    }
  }

  lemma {:induction false} InitiallyInv(s: State)
    requires Initial(s)
    ensures Inv(s) && Honest(s) && InLine(s)
  {
    forall id ensures IdOk(s, id) { NothingHeld(s.processes, id); }
  }

  lemma {:induction false} NothingHeld(ps: seq<Process>, id: Id)
    requires forall w :: 0 <= w < |ps| ==> ps[w] == Idle
    ensures Held(ps, id) == 0
  {
    if ps != [] { NothingHeld(ps[1..], id); }
  }

  // ---------------------------------------------------------------- first come, first served

  function QueueIds<T>(items: seq<Item<T>>): seq<Id> {
    seq(|items|, i requires 0 <= i < |items| => items[i].id)
  }

  /** The ids in the call queue, then those that wait for it. */
  function Line(s: State): seq<Id> { QueueIds(s.callQueue) + s.workIds }

  predicate Increasing(ids: seq<Id>) { forall i, j :: 0 <= i < j < |ids| ==> ids[i] < ids[j] }

  /** Ids stand in the line in the order of their submission, the newest last. */
  ghost predicate InLine(s: State) { Below(Line(s), s.queueCount) }

  /** What a step does to the line: a submitted id goes to its end, a cancelled one leaves it on its way
      into the call queue, and otherwise only the first may leave. */
  ghost function LineAfter(s: State, e: Event): seq<Id>
    requires Enabled(s, e)
  {
    match e
    case Submit(_) => if Refused(s) then Line(s) else Line(s) + [s.queueCount]
    case Feed =>
      var n := |s.callQueue|;
      if s.futures[s.workIds[0]].Cancelled? then Line(s)[..n] + Line(s)[n + 1..] else Line(s)
    case FeederError => Line(s)[1..]
    case Take(_) => Line(s)[1..]
    case TerminateBroken => []
    case KillWorkers => []
    case _ => Line(s)
  }

  lemma {:induction false} LineMoves(s: State, e: Event)
    requires Enabled(s, e)
    ensures Line(Apply(s, e)) == LineAfter(s, e)
    ensures Apply(s, e).queueCount == s.queueCount + if e.Submit? && !Refused(s) then 1 else 0
    ensures e.Take? ==> Apply(s, e).processes[e.worker] == Busy(s.callQueue[0]) && Line(s)[0] == s.callQueue[0].id
  {
    hide Remove, Settle, FailedAll, DoFeed, DoTake, DoFeederError;
    match e
    case Feed => FeedLine(s);
    case Take(w) => TakeLine(s, w);
    case FeederError => FeederErrorLine(s);
    case _ =>
  }

  lemma {:induction false} FeedLine(s: State)
    requires CanFeed(s)
    ensures Line(DoFeed(s)) == LineAfter(s, Feed) && DoFeed(s).queueCount == s.queueCount
  {
  }

  lemma {:induction false} TakeLine(s: State, w: nat)
    requires w < |s.processes| && s.processes[w].Idle? && s.callQueue != []
    ensures Line(DoTake(s, w)) == LineAfter(s, Take(w)) && DoTake(s, w).queueCount == s.queueCount
    ensures DoTake(s, w).processes[w] == Busy(s.callQueue[0]) && Line(s)[0] == s.callQueue[0].id
  {
  }

  lemma {:induction false} FeederErrorLine(s: State)
    requires s.callQueue != []
    ensures Line(DoFeederError(s)) == LineAfter(s, FeederError) && DoFeederError(s).queueCount == s.queueCount
  {
    hide Remove;
  }

  predicate Below(ids: seq<Id>, n: Id) { Increasing(ids) && forall i :: 0 <= i < |ids| ==> ids[i] < n }

  lemma BelowMoves(ids: seq<Id>, n: Id, k: nat)
    requires Below(ids, n)
    ensures Below(ids + [n], n + 1) && Below([], n)
    ensures k < |ids| ==> Below(ids[..k] + ids[k + 1..], n)
    ensures ids != [] ==> Below(ids[1..], n)
  {
  }

  lemma {:induction false} StepKeepsLine(s: State, e: Event)
    requires InLine(s) && Enabled(s, e)
    ensures InLine(Apply(s, e))
  {
    LineMoves(s, e);
    BelowMoves(Line(s), s.queueCount, |s.callQueue|);
    hide Apply, Line, Below;
  }

  /** The ids that workers get in a run, in order. */
  ghost function Started(s: State, es: seq<Event>): seq<Id>
    decreases |es|
  {
    if es == [] || !Enabled(s, es[0]) then []
    else
      var t := Apply(s, es[0]);
      (if es[0].Take? && t.processes[es[0].worker].Busy? then [t.processes[es[0].worker].item.id] else [])
      + Started(t, es[1..])
  }

  /** Over any run calls get to the workers in the order in which they were submitted. */
  lemma {:induction false} FirstComeFirstServed(s: State, es: seq<Event>, t: State)
    requires InLine(s) && Steps(s, es, t)
    ensures Increasing(Started(s, es)) && InLine(t)
    ensures forall i :: 0 <= i < |Started(s, es)| ==>
              Started(s, es)[i] in Line(s) || s.queueCount <= Started(s, es)[i]
    decreases |es|
  {
    if es != [] {
      var u := Apply(s, es[0]);
      StepKeepsLine(s, es[0]);
      FirstComeFirstServed(u, es[1..], t);
      LineShrinks(s, es[0]);
      if es[0].Take? { FirstIsTaken(s, es[0].worker); }
    }
  }

  /** Nobody is put into the line but at its end. */
  lemma {:induction false} LineShrinks(s: State, e: Event)
    requires InLine(s) && Enabled(s, e)
    ensures forall id :: id in Line(Apply(s, e)) ==> id in Line(s) || s.queueCount <= id
  {
    LineMoves(s, e);
    hide Apply, Line, Below;
  }

  /** A worker gets who is first in it. */
  lemma {:induction false} FirstIsTaken(s: State, w: nat)
    requires InLine(s) && Enabled(s, Take(w))
    ensures var t := Apply(s, Take(w));
            && t.processes[w].Busy? && t.processes[w].item.id in Line(s) && t.queueCount == s.queueCount
            && forall id :: id in Line(t) ==> t.processes[w].item.id < id
  {
    LineMoves(s, Take(w));
    hide Apply, Line;
  }

  /** What workers finish, and what the manager collects. */
  ghost function FinishedIds(s: State, es: seq<Event>): seq<Id>
    decreases |es|
  {
    if es == [] || !Enabled(s, es[0]) then []
    else (if es[0].Finish? then [s.processes[es[0].worker].item.id] else []) + FinishedIds(Apply(s, es[0]), es[1..])
  }

  ghost function CollectedIds(s: State, es: seq<Event>): seq<Id>
    decreases |es|
  {
    if es == [] || !Enabled(s, es[0]) then []
    else (if es[0].Collect? then [s.resultQueue[0].id] else []) + CollectedIds(Apply(s, es[0]), es[1..])
  }

  lemma Regroup(x: Id, a: seq<Id>, b: seq<Id>, c: seq<Id>, d: seq<Id>)
    requires a + b == c + d
    ensures [x] + a + b == [x] + c + d
  {
    assert [x] + a + b == [x] + (a + b) && [x] + c + d == [x] + (c + d);
  }

  /** Unless the executor breaks or is killed, results are collected in the order in which they came. */
  lemma {:induction false} ResultsInOrder(s: State, es: seq<Event>, t: State)
    requires Steps(s, es, t) && forall i :: 0 <= i < |es| ==> !es[i].TerminateBroken? && !es[i].KillWorkers?
    ensures QueueIds(s.resultQueue) + FinishedIds(s, es) == CollectedIds(s, es) + QueueIds(t.resultQueue)
    decreases |es|
  {
    hide Remove, Settle, DoFeed, DoFeederError, DoSubmit, DoCancel, DoTake, DoDie, FailAll;
    if es != [] {
      var u := Apply(s, es[0]);
      ResultsInOrder(u, es[1..], t);
      if es[0].Finish? {
        var x := [s.processes[es[0].worker].item.id];
        assert QueueIds(u.resultQueue) == QueueIds(s.resultQueue) + x;
        assert CollectedIds(s, es) == CollectedIds(u, es[1..]);
        assert QueueIds(s.resultQueue) + (x + FinishedIds(u, es[1..]))
            == QueueIds(u.resultQueue) + FinishedIds(u, es[1..]);
      } else if es[0].Collect? {
        assert QueueIds(s.resultQueue) == [s.resultQueue[0].id] + QueueIds(u.resultQueue);
        assert FinishedIds(s, es) == FinishedIds(u, es[1..]);
        Regroup(s.resultQueue[0].id, QueueIds(u.resultQueue), FinishedIds(s, es), CollectedIds(u, es[1..]),
                QueueIds(t.resultQueue));
      } else {
        SameResults(s, es[0]);
        assert FinishedIds(s, es) == FinishedIds(u, es[1..]) && CollectedIds(s, es) == CollectedIds(u, es[1..]);
      }
    }
  }

  lemma SameResults(s: State, e: Event)
    requires Enabled(s, e) && !e.Finish? && !e.Collect? && !e.TerminateBroken? && !e.KillWorkers?
    ensures Apply(s, e).resultQueue == s.resultQueue
  {
  }

  // ---------------------------------------------------------------- futures

  /** A future is resolved at most once: no step changes a resolved one. */
  lemma {:induction false} ResolvedOnce(s: State, e: Event, id: Id)
    requires Inv(s) && Enabled(s, e) && id in s.futures && Resolved(s.futures[id])
    ensures id in Apply(s, e).futures && Apply(s, e).futures[id] == s.futures[id]
  {
    hide Placed, Own, Contents, Remove, Settle;
    assert IdOk(s, id);
    match e
    case Feed => assert s.workIds == [s.workIds[0]] + s.workIds[1..];
    case Collect => assert Count(s.resultQueue, s.resultQueue[0].id) >= 1;
    case FeederError => assert Count(s.callQueue, s.callQueue[0].id) >= 1;
    case _ =>
  }

  /** A cancelled item is never sent and never executed, whatever happens afterwards. */
  lemma {:induction false} CancelledNeverRuns(s: State, es: seq<Event>, t: State, id: Id)
    requires Inv(s) && Steps(s, es, t) && id in s.futures && s.futures[id].Cancelled?
    ensures id in t.futures && t.futures[id].Cancelled? && id !in t.ran && Sent(t, id) == 0
    decreases |es|
  {
    if es == [] {
      assert IdOk(s, id);
    } else {
      hide Inv, Sent;
      StepKeeps(s, es[0]);
      ResolvedOnce(s, es[0], id);
      CancelledNeverRuns(Apply(s, es[0]), es[1..], t, id);
    }
  }

  /** An outstanding future can be cancelled exactly while its id waits in the work-id queue; once it
      is in the call queue it no longer can. */
  lemma {:induction false} CancelExactly(s: State, id: Id)
    requires Inv(s) && id in s.futures && !Resolved(s.futures[id])
    ensures DoCancel(s, id).futures[id].Cancelled? <==> id in s.workIds
    ensures DoCancel(s, id) == s <==> Sent(s, id) == 1
  {
    assert IdOk(s, id);
  }

  /** The outcome a future reports is that of its own call: the value a worker got for it, or the
      exception it raised. */
  lemma {:induction false} OwnOutcome(s: State, id: Id)
    requires Inv(s) && id in s.futures
    ensures s.futures[id].Done? ==> id in s.ran && s.ran[id] == Returned(s.futures[id].value)
    ensures s.futures[id].Failed? && s.futures[id].error.Exception? ==>
              id in s.ran && s.ran[id] == Raised(s.futures[id].error.exn)
    ensures forall i :: 0 <= i < |s.callQueue| && s.callQueue[i].id == id ==> s.callQueue[i].content == s.calls[id]
  {
    assert IdOk(s, id);
  }

  function FaultError(e: Event): Error {
    if e.TerminateBroken? then TerminatedWorkerError else ShutdownExecutorError
  }

  /** A worker death that is noticed, or a shutdown that kills, leaves nothing unresolved: outstanding
      futures fail with the stated error and the others stay as they are. */
  lemma {:induction false} FaultsResolveAll(s: State, e: Event, id: Id)
    requires Inv(s) && Enabled(s, e) && (e.TerminateBroken? || e.KillWorkers?)
    ensures var t := Apply(s, e);
            && t.pending == map[] && Refused(t)
            && (id in s.futures <==> id in t.futures)
            && (id in t.futures && Resolved(s.futures[id]) ==> t.futures[id] == s.futures[id])
            && (id in t.futures && !Resolved(s.futures[id]) ==> t.futures[id] == Failed(FaultError(e)))
  {
    assert IdOk(s, id);
  }

  // ---------------------------------------------------------------- runs without faults

  /** Every future that is resolved, but not cancelled, tells what its own call gave. */
  ghost predicate Honest(s: State) {
    forall id :: id in s.futures && Resolved(s.futures[id]) && !s.futures[id].Cancelled? ==>
                   id in s.ran && Settle(s.ran[id]) == s.futures[id]
  }

  predicate Fault(e: Event) { e.Die? || e.TerminateBroken? || e.KillWorkers? || e.FeederError? }

  lemma {:induction false} StaysHonest(s: State, e: Event)
    requires Inv(s) && Honest(s) && Enabled(s, e) && !Fault(e)
    ensures Honest(Apply(s, e))
  {
    match e
    case Finish(w, o) =>
      var x := s.processes[w].item.id;
      assert IdOk(s, x);
      HeldAt(s.processes, w, x);
    case _ =>
  }

  // ---------------------------------------------------------------- every run ends, with all resolved

  function ProcessWork(ps: seq<Process>): nat {
    if ps == [] then 0 else Weight(ps[0]) + ProcessWork(ps[1..])
  }

  function Weight(p: Process): nat {
    match p
    case Idle => 1
    case Busy(_) => 4
    case Dead(_) => 0
  }

  lemma {:induction false} ProcessWorkUpdate(ps: seq<Process>, w: nat, p: Process)
    requires w < |ps|
    ensures ProcessWork(ps[w := p]) + Weight(ps[w]) == ProcessWork(ps) + Weight(p)
  {
    if w == 0 {
      assert ps[w := p][1..] == ps[1..];
    } else {
      ProcessWorkUpdate(ps[1..], w - 1, p);
      assert ps[w := p][1..] == ps[1..][w - 1 := p];
    }
  }

  /** The steps a submitted item is away from its end, and the processes still to lose. */
  function Work(s: State): nat {
    6 * |s.workIds| + 5 * |s.callQueue| + ProcessWork(s.processes) + 2 * |s.resultQueue|
    + if s.processes == [] then 0 else 1
  }

  predicate FromUser(e: Event) { e.Submit? || e.Cancel? || e.Shutdown? }

  lemma {:induction false} WorkDecreases(s: State, e: Event)
    requires Enabled(s, e) && !e.Submit?
    ensures if FromUser(e) then Work(Apply(s, e)) == Work(s) else Work(Apply(s, e)) < Work(s)
  {
    hide Remove, Settle, FailedAll;
    match e
    case Take(w) => ProcessWorkUpdate(s.processes, w, Busy(s.callQueue[0]));
    case Finish(w, o) => ProcessWorkUpdate(s.processes, w, Idle);
    case Die(w) => ProcessWorkUpdate(s.processes, w, DoDie(s, w).processes[w]);
    case _ =>
  }

  function OwnSteps(es: seq<Event>): nat {
    if es == [] then 0 else (if FromUser(es[0]) then 0 else 1) + OwnSteps(es[1..])
  }

  function Submits(es: seq<Event>): nat {
    if es == [] then 0 else (if es[0].Submit? then 1 else 0) + Submits(es[1..])
  }

  /** No run goes on for ever by itself: the executor's own steps are bounded by what was submitted. */
  lemma {:induction false} RunsEnd(s: State, es: seq<Event>, t: State)
    requires Steps(s, es, t)
    ensures OwnSteps(es) + Work(t) <= Work(s) + 6 * Submits(es)
    decreases |es|
  {
    hide Work;
    if es != [] {
      RunsEnd(Apply(s, es[0]), es[1..], t);
      if es[0].Submit? { SubmitWork(s, es[0].call); } else { WorkDecreases(s, es[0]); }
    }
  }

  lemma {:induction false} SubmitWork(s: State, call: Call)
    ensures Work(DoSubmit(s, call)) <= Work(s) + 6
  {
  }

  /** While an item is in the dict some step of the manager or of a worker is possible: no deadlock. */
  lemma {:induction false} Progress(s: State) returns (e: Event)
    requires Inv(s) && s.pending != map[]
    ensures Enabled(s, e) && !FromUser(e) && !e.Die? && (Fault(e) ==> e.TerminateBroken?)
  {
    if s.resultQueue != [] { return Collect; }
    if w :| 0 <= w < |s.processes| && !s.processes[w].Idle? {
      return if s.processes[w].Busy? then Finish(w, Unsendable) else TerminateBroken;
    }
    assert s.processes[0].Idle?;
    if s.callQueue != [] { return Take(0); }
    var id :| id in s.pending;
    assert IdOk(s, id);
    NothingHeld(s.processes, id);
    assert id in s.workIds;
    assert s.workIds[0] in s.workIds && IdOk(s, s.workIds[0]);
    e := Feed;
  }

  /** Nothing more to do by itself. */
  ghost predicate Settled(s: State) { forall e :: Enabled(s, e) ==> FromUser(e) || e.Die? }

  /** Once a run without faults has nothing left to do, every submitted call was run, and its future
      tells its own outcome, unless it was cancelled. */
  lemma {:induction false} FaultFreeRun(s: State, es: seq<Event>, t: State, id: Id)
    requires Inv(s) && Honest(s) && Steps(s, es, t) && Settled(t) && id < t.queueCount
    requires forall i :: 0 <= i < |es| ==> !Fault(es[i])
    ensures id in t.futures
    ensures t.futures[id].Cancelled? || (id in t.ran && t.futures[id] == Settle(t.ran[id]))
    decreases |es|
  {
    if es == [] {
      assert IdOk(t, id);
      if t.pending != map[] { var e := Progress(t); assert false; }
    } else {
      hide Inv, Honest;
      StepKeeps(s, es[0]);
      StaysHonest(s, es[0]);
      FaultFreeRun(Apply(s, es[0]), es[1..], t, id);
    }
  }

  /** And with faults, once nothing is left to do every future is resolved all the same. */
  lemma {:induction false} NothingUnresolved(s: State, es: seq<Event>, t: State, id: Id)
    requires Inv(s) && Steps(s, es, t) && Settled(t) && id < t.queueCount
    ensures id in t.futures && Resolved(t.futures[id])
  {
    Conservation(s, es, t);
    assert IdOk(t, id);
    if t.pending != map[] { var e := Progress(t); assert false; }
  }
}
