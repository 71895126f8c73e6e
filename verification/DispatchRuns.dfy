/** Whole runs of the dispatch protocol, for calls that had nothing queued or counted before their
    fresh id: what a call yields, how lazily it consumes its input, and that it ends. */
module DispatchRuns {
  import opened Batches
  import opened Dispatch
  import opened Wrappers

  /** `t` is reached from `s` by the steps `es` of one call, in any interleaving. */
  ghost predicate CallRun<T, R>(f: T -> R, s: State<T, R>, es: seq<Event<T>>, t: State<T, R>)
    decreases |es|
  {
    if es == [] then s == t
    else Enabled(s, es[0]) && Continues(es[0]) && CallRun(f, Apply(f, s, es[0]), es[1..], t)
  }

  predicate Started<T, R>(s: State<T, R>) { s.phase == Priming || s.phase == Consuming }

  /** The consumer loop's condition is false: nothing is left to dispatch or to wait for. */
  predicate Finished<T, R>(s: State<T, R>) {
    s.phase == Consuming && !s.iterating && s.nCompleted >= s.nDispatched
  }

  lemma {:induction false} RunKeeps<T, R>(f: T -> R, s: State<T, R>, es: seq<Event<T>>, t: State<T, R>)
    requires CallInv(f, s) && CallRun(f, s, es, t)
    ensures CallInv(f, t)
    ensures Started(s) ==> Started(t) && t.taken + t.source == s.taken + s.source && s.taken <= t.taken
    ensures t.ordered == s.ordered
    decreases |es|
  {
    hide CallInv, Apply, Enabled, Continues, Started;
    if es != [] {
      StepKeeps(f, s, es[0]);
      StepStays(f, s, es[0]);
      RunKeeps(f, Apply(f, s, es[0]), es[1..], t);
    }
  }

  lemma {:induction false} QueueStays<T, R>(s: State<T, R>, n: nat)
    requires n <= |s.source|
    ensures Queue(s, n).taken + Queue(s, n).source == s.taken + s.source
  {
    assert s.source == s.source[..n] + s.source[n..];
  }

  lemma {:induction false} NextStays<T, R>(s: State<T, R>, k: nat)
    ensures Same(DispatchNext(s, k), s)
  {
    QueueStays(s, Min(k, |s.source|));
  }

  /** What no step of a started call changes. */
  ghost predicate Same<T, R>(t: State<T, R>, s: State<T, R>) {
    && t.taken + t.source == s.taken + s.source && s.taken <= t.taken
    && t.ordered == s.ordered && t.lazy == s.lazy && t.callId == s.callId && (Started(s) ==> Started(t))
  }

  lemma {:induction false} PrimeStays<T, R>(s: State<T, R>, k: nat)
    ensures Same(Prime(s, k), s)
  {
    QueueStays(s, Min(Min(k, |s.source|), if s.lazy then s.slice else k));
  }

  lemma {:induction false} FirstStays<T, R>(f: T -> R, s: State<T, R>, i: nat, success: bool)
    requires i < Size(s)
    ensures Same(FirstSection(f, s, i, success), s)
  {
    hide Map;
  }

  lemma {:induction false} StepStays<T, R>(f: T -> R, s: State<T, R>, e: Event<T>)
    requires Enabled(s, e) && Continues(e)
    ensures Apply(f, s, e).ordered == s.ordered
    ensures Started(s) ==> Same(Apply(f, s, e), s)
  {
    hide Prime, DispatchNext, FirstSection, Map;
    match e
    case InstallIterator(_, _, _) =>
    case DispatchNew(i, k) => NextStays(Put(s, i, At(s, i).(stage := Over)), k);
    case PreDispatch(k) => PrimeStays(s, k);
    case Pull(k) => NextStays(s, k);
    case Finish(i, success) => FirstStays(f, s, i, success);
    case Load =>
    case Yield =>
  }

  // ---------------------------------------------------------------- what a call yields

  lemma {:induction false} SuffixDone<T, R>(f: T -> R, s: State<T, R>)
    requires CallInv(f, s) && s.nCompleted >= s.nDispatched
    ensures s.outputs == [] && Unread(f, s.own) == multiset{}
    ensures multiset(s.yielded) == multiset(Map(f, s.taken))
    ensures s.ordered ==> s.yielded == Map(f, s.taken)
    ensures s.nCompleted == s.nDispatched
  {
    var out := s.yielded + s.outputs;
    assert |multiset(out)| == |out| && |multiset(Map(f, s.taken))| == |s.taken|;
    assert |multiset(out) + Unread(f, s.own)| == |out| + |Unread(f, s.own)|;
    assert |Unread(f, s.own)| == 0;
    assert out == s.yielded;
    if s.ordered {
      var k := |s.own| - |s.jobs|;
      FlatSplit(s.own, k);
      MapConcat(f, Flat(s.own[..k]), Flat(s.own[k..]));
      assert Flat(s.own) == Flat(s.own[..k]);
    }
  }

  /** The call will not end before its input does: it is still iterating, or priming is going to take
      all that is left, as it does when the input is not consumed lazily or fits the slice. */
  predicate Draining<T, R>(s: State<T, R>) {
    if s.phase == Priming then s.iterating || !s.lazy || |s.source| <= s.slice else s.iterating || s.source == []
  }

  lemma {:induction false} NextDrains<T, R>(s: State<T, R>, k: nat)
    requires Started(s) && Draining(s) && 0 < k
    ensures Draining(DispatchNext(s, k))
  {
  }

  lemma {:induction false} PrimeDrains<T, R>(s: State<T, R>, k: nat)
    requires s.phase == Priming && Draining(s) && 0 < k
    ensures Draining(Prime(s, k))
  {
  }

  lemma {:induction false} StepDrains<T, R>(f: T -> R, s: State<T, R>, e: Event<T>)
    requires Started(s) && Draining(s) && Enabled(s, e) && Continues(e)
    ensures Draining(Apply(f, s, e))
  {
    hide Prime, DispatchNext, Map;
    match e
    case DispatchNew(i, k) => NextDrains(Put(s, i, At(s, i).(stage := Over)), k);
    case PreDispatch(k) => PrimeDrains(s, k);
    case Pull(k) => NextDrains(s, k);
    case Finish(_, _) =>
    case Load =>
    case Yield =>
  }

  lemma {:induction false} RunDrains<T, R>(f: T -> R, s: State<T, R>, es: seq<Event<T>>, t: State<T, R>)
    requires Started(s) && Draining(s) && CallRun(f, s, es, t)
    ensures Draining(t)
    decreases |es|
  {
    hide Draining, Apply, Enabled, Continues, Started;
    if es != [] {
      StepDrains(f, s, es[0]);
      StepStays(f, s, es[0]);
      RunDrains(f, Apply(f, s, es[0]), es[1..], t);
    }
  }

  lemma {:induction false} JobsAreUnread<T, R>(s: State<T, R>)
    requires JobsOk(s.ordered, |s.past|, s.own, s.jobs)
    ensures s.jobs != [] ==> exists i :: 0 <= i < |s.own| && !s.own[i].read
  {
    if s.jobs != [] {
      assert s.jobs[0] in s.jobs;
      assert !s.own[s.jobs[0] - |s.past|].read;
    }
  }

  lemma {:induction false} NothingLeft<T, R>(f: T -> R, s: State<T, R>)
    requires CallInv(f, s) && Unread(f, s.own) == multiset{}
    ensures s.jobs == [] && forall i :: 0 <= i < |s.own| ==> s.own[i].read
  {
    assert forall i :: 0 <= i < |s.own| ==> CallbackOk(f, s.callId, s.own[i]);
    NothingUnread(f, s.own);
    JobsAreUnread(s);
  }

  /** For every task list, every split into batches and every interleaving, a finished call has
      yielded the sequential map (ordered) or a permutation of it (unordered) of what it has taken,
      and leaves nothing of that behind; and what it has taken is everything it was given, if it was
      draining its input. `s` is the call once its iterator is installed, with nothing queued before its
      fresh id: normally `s.taken == []` and `s.source` is the input. */
  lemma {:induction false} FinishedCallYieldsMap<T, R>(f: T -> R, s: State<T, R>, es: seq<Event<T>>, t: State<T, R>)
    requires CallInv(f, s) && Started(s) && CallRun(f, s, es, t) && Finished(t)
    ensures t.ordered ==> t.yielded == Map(f, t.taken)
    ensures multiset(t.yielded) == multiset(Map(f, t.taken))
    ensures t.taken + t.source == s.taken + s.source && s.taken <= t.taken && t.nCompleted == t.nDispatched
    ensures t.jobs == [] && t.outputs == []
    ensures forall i :: 0 <= i < |t.own| ==> t.own[i].read
    ensures Draining(s) ==> t.source == [] && t.taken == s.taken + s.source
  {
    hide CallRun, Unread, Flat, Map, JobsOk, Accounted, CallbacksOk;
    RunKeeps(f, s, es, t);
    SuffixDone(f, t);
    NothingLeft(f, t);
    if Draining(s) {
      RunDrains(f, s, es, t);
      assert t.taken + t.source == t.taken;
    }
  }

  lemma {:induction false} MapPrefix<T, R>(f: T -> R, a: seq<T>, rest: seq<T>, yielded: seq<R>, outputs: seq<R>)
    requires yielded + outputs == Map(f, a)
    ensures yielded <= Map(f, a + rest)
  {
    MapConcat(f, a, rest);
  }

  /** At every moment of an ordered call, even one that will fail, what has been yielded is a prefix
      of the sequential map, if nothing was queued before the fresh id. */
  lemma {:induction false} OrderedPrefix<T, R>(f: T -> R, s: State<T, R>, es: seq<Event<T>>, t: State<T, R>)
    requires CallInv(f, s) && Started(s) && s.ordered && CallRun(f, s, es, t)
    ensures t.yielded <= Map(f, s.taken + s.source)
  {
    hide CallRun, Unread, Map, CallbacksOk, Flat;
    RunKeeps(f, s, es, t);
    var a, b := Flat(t.own[..|t.own| - |t.jobs|]), Flat(t.own[|t.own| - |t.jobs|..]);
    FlatSplit(t.own, |t.own| - |t.jobs|);
    MapPrefix(f, a, b + t.source, t.yielded, t.outputs);
    assert a + (b + t.source) == (a + b) + t.source;
  }

  lemma {:induction false} DrainedWhenFinished<T, R>(s: State<T, R>)
    requires Draining(s) && Finished(s)
    ensures s.source == []
  {
  }

  /** What has been yielded so far is part of the map, and in ordered mode its beginning. */
  lemma {:induction false} PartialYield<T, R>(f: T -> R, s: State<T, R>)
    requires CallInv(f, s) && Started(s) && s.outputs == []
    ensures multiset(s.yielded) <= multiset(Map(f, s.taken + s.source))
    ensures s.ordered ==> s.yielded <= Map(f, s.taken + s.source)
  {
    if s.ordered { OrderedPrefix(f, s, [], s); }
    MapConcat(f, s.taken, s.source);
    assert s.yielded + s.outputs == s.yielded;
  }

  // ---------------------------------------------------------------- laziness

  /** The batches there are, and those that priming may still add. */
  function Allowed<T, R>(s: State<T, R>): int { |s.own| + s.slice }

  /** The second sections that callbacks run in these steps, and the batches the consumer asks for. */
  function Renewals<T>(es: seq<Event<T>>): nat {
    if es == [] then 0 else (if es[0].DispatchNew? then 1 else 0) + Renewals(es[1..])
  }

  function Pulls<T>(es: seq<Event<T>>): nat {
    if es == [] then 0 else (if es[0].Pull? then 1 else 0) + Pulls(es[1..])
  }

  lemma {:induction false} LazyNext<T, R>(s: State<T, R>, k: nat)
    ensures Allowed(DispatchNext(s, k)) <= Allowed(s) + 1
  {
  }

  lemma {:induction false} LazyPrime<T, R>(s: State<T, R>, k: nat)
    requires s.lazy && 0 < k
    ensures Allowed(Prime(s, k)) <= Allowed(s)
  {
  }

  lemma {:induction false} LazyStep<T, R>(f: T -> R, s: State<T, R>, e: Event<T>)
    requires Enabled(s, e) && Continues(e) && Started(s) && s.lazy
    ensures Allowed(Apply(f, s, e)) <= Allowed(s) + if e.DispatchNew? || e.Pull? then 1 else 0
  {
    hide DispatchNext, At, Map, Prime;
    match e
    case DispatchNew(i, k) => LazyNext(Put(s, i, At(s, i).(stage := Over)), k);
    case PreDispatch(k) => LazyPrime(s, k);
    case Pull(k) => LazyNext(s, k);
    case Finish(i, success) =>
    case Load =>
    case Yield =>
  }

  /** Callbacks between their two sections. */
  function Late<T, R>(s: State<T, R>): nat { CountStage(s.past, Succeeded) + CountStage(s.own, Succeeded) }

  /** Those, less the completions that brought them there. */
  function Credit<T, R>(s: State<T, R>): int { Late(s) - CountDone(s.own) }

  lemma {:induction false} CreditQueue<T, R>(s: State<T, R>, n: nat)
    requires n <= |s.source|
    ensures Credit(Queue(s, n)) == Credit(s)
  {
    CountAppend(s.own, Queue(s, n).own[|s.own|], Succeeded);
  }

  lemma {:induction false} CreditPut<T, R>(s: State<T, R>, i: nat, c: Callback<T, R>)
    requires i < Size(s)
    requires c.status == At(s, i).status || (At(s, i).status == Pending && |s.past| <= i)
    requires c.stage == Succeeded ==> At(s, i).stage == Succeeded || (At(s, i).status == Pending && c.status == Done)
    ensures Credit(Put(s, i, c)) <= Credit(s) - if At(s, i).stage == Succeeded && c.stage != Succeeded then 1 else 0
  {
    if i < |s.past| {
      CountUpdate(s.past, i, c, Succeeded);
    } else {
      CountUpdate(s.own, i - |s.past|, c, Succeeded);
      DoneUpdate(s.own, i - |s.past|, c);
    }
  }

  /** Each successful completion renews at most one batch. */
  lemma {:induction false} CreditStep<T, R>(f: T -> R, s: State<T, R>, e: Event<T>)
    requires CallInv(f, s) && Enabled(s, e) && Continues(e) && Started(s)
    ensures Credit(Apply(f, s, e)) <= Credit(s) - if e.DispatchNew? then 1 else 0
  {
    match e
    case Finish(i, success) => CreditFinish(f, s, i, success);
    case DispatchNew(i, k) => CreditRenew(s, i, k);
    case PreDispatch(k) => CreditQueue(s, Min(Min(k, |s.source|), if s.lazy then s.slice else k));
    case Pull(k) => CreditQueue(s, Min(k, |s.source|));
    case Load =>
      assert s.jobs[0] in s.jobs;
      CreditPut(s, s.jobs[0], At(s, s.jobs[0]).(read := true));
    case Yield =>
  }

  lemma {:induction false} CreditFinish<T, R>(f: T -> R, s: State<T, R>, i: nat, success: bool)
    requires CallInv(f, s) && i < Size(s) && At(s, i).stage == InFlight
    ensures Credit(FirstSection(f, s, i, success)) <= Credit(s)
  {
    if |s.past| <= i { assert CallbackOk(f, s.callId, s.own[i - |s.past|]); }
    CreditPut(s, i, At(FirstSection(f, s, i, success), i));
  }

  lemma {:induction false} CreditRenew<T, R>(s: State<T, R>, i: nat, k: nat)
    requires i < Size(s) && At(s, i).stage == Succeeded
    ensures Credit(SecondSection(s, i, k)) <= Credit(s) - 1
  {
    var t := Put(s, i, At(s, i).(stage := Over));
    CreditPut(s, i, At(t, i));
    CreditQueue(t, Min(k, |s.source|));
  }

  /** The iterator is never asked for more batches than the pre-dispatch amount, plus one for each
      successful completion that has run `_dispatch_new` (at most all of them, plus the callbacks
      of earlier calls that were between their two sections), plus those the consumer asked for;
      and what was taken is a prefix of the input. */
  lemma {:induction false} Laziness<T, R>(f: T -> R, s: State<T, R>, es: seq<Event<T>>, t: State<T, R>)
    requires CallInv(f, s) && Started(s) && s.lazy && CallRun(f, s, es, t)
    ensures |t.own| <= |s.own| + s.slice + Renewals(es) + Pulls(es)
    ensures Renewals(es) <= Late(s) + CountDone(t.own) - CountDone(s.own)
    ensures t.taken <= s.taken + s.source
    decreases |es|
  {
    LazinessSums(f, s, es, t);
    RunKeeps(f, s, es, t);
    assert s.taken + s.source == t.taken + t.source;
  }

  lemma {:induction false} LazinessSums<T, R>(f: T -> R, s: State<T, R>, es: seq<Event<T>>, t: State<T, R>)
    requires CallInv(f, s) && Started(s) && s.lazy && CallRun(f, s, es, t)
    ensures Allowed(t) <= Allowed(s) + Renewals(es) + Pulls(es) && Credit(t) <= Credit(s) - Renewals(es)
    decreases |es|
  {
    hide CallInv, Apply, Enabled, Continues, Started, Credit, Allowed;
    if es != [] {
      LazyStep(f, s, es[0]);
      CreditStep(f, s, es[0]);
      StepKeeps(f, s, es[0]);
      StepStays(f, s, es[0]);
      LazinessSums(f, Apply(f, s, es[0]), es[1..], t);
    }
  }

  // ---------------------------------------------------------------- batch sizes

  /** How many tasks an event asks for: the effective batch size, of which priming a lazily consumed
      input takes no more than its slice has left. */
  function Asked<T, R>(s: State<T, R>, e: Event<T>): nat {
    match e
    case PreDispatch(k) => if s.lazy then Min(k, s.slice) else k
    case Pull(k) => k
    case DispatchNew(_, k) => if s.aborting || !s.lazy then 0 else k
    case _ => 0
  }

  /** The next batch holds as many tasks as were asked for, or all that are left; and they are counted. */
  ghost predicate Dispatched<T, R>(s: State<T, R>, t: State<T, R>, asked: nat) {
    var n := if asked <= |s.source| then asked else |s.source|;
    && t.source == s.source[n..] && t.nDispatched == s.nDispatched + n
    && |t.own| == |s.own| + (if n > 0 then 1 else 0)
    && (n > 0 ==> t.own[|s.own|].tasks == s.source[..n] && t.own[|s.own|].callId == s.callId)
  }

  ghost predicate SameTasks<T, R>(s: State<T, R>, t: State<T, R>) {
    |s.own| <= |t.own| && forall i :: 0 <= i < |s.own| ==> t.own[i].tasks == s.own[i].tasks
  }

  lemma {:induction false} BatchNext<T, R>(s: State<T, R>, k: nat)
    ensures Dispatched(s, DispatchNext(s, k), k) && SameTasks(s, DispatchNext(s, k))
  {
    assert s.source[0..] == s.source;
  }

  lemma {:induction false} BatchPrime<T, R>(s: State<T, R>, k: nat)
    ensures Dispatched(s, Prime(s, k), if s.lazy then Min(k, s.slice) else k) && SameTasks(s, Prime(s, k))
  {
    assert s.source[0..] == s.source;
  }

  lemma BatchPut<T, R>(s: State<T, R>, i: nat, c: Callback<T, R>)
    requires i < Size(s) && c.tasks == At(s, i).tasks
    ensures var t := Put(s, i, c);
            && SameTasks(s, t) && |t.own| == |s.own| && t.source == s.source && t.nDispatched == s.nDispatched
            && t.callId == s.callId && t.aborting == s.aborting && t.lazy == s.lazy
  {
  }

  lemma BatchNone<T, R>(s: State<T, R>, t: State<T, R>)
    requires t.source == s.source && t.nDispatched == s.nDispatched && |t.own| == |s.own|
    ensures Dispatched(s, t, 0)
  {
    assert s.source[0..] == s.source;
  }

  lemma {:induction false} BatchStep<T, R>(f: T -> R, s: State<T, R>, e: Event<T>)
    requires Started(s) && Enabled(s, e) && Continues(e)
    ensures Dispatched(s, Apply(f, s, e), Asked(s, e)) && SameTasks(s, Apply(f, s, e))
  {
    hide Map, Put, DispatchNext, Prime, Dispatched;
    var t := Apply(f, s, e);
    match e
    case PreDispatch(k) => BatchPrime(s, k);
    case Pull(k) => BatchNext(s, k);
    case DispatchNew(i, k) => BatchRenew(s, i, k);
    case Finish(i, success) => BatchPut(s, i, Settled(f, s, At(s, i), success)); BatchNone(s, t);
    case Load => BatchPut(s, s.jobs[0], At(s, s.jobs[0]).(read := true)); BatchNone(s, t);
    case Yield => BatchNone(s, t);
  }

  lemma {:induction false} BatchRenew<T, R>(s: State<T, R>, i: nat, k: nat)
    requires i < Size(s)
    ensures Dispatched(s, SecondSection(s, i, k), if s.aborting || !s.lazy then 0 else k)
    ensures SameTasks(s, SecondSection(s, i, k))
  {
    hide Put, DispatchNext;
    var u := Put(s, i, At(s, i).(stage := Over));
    BatchPut(s, i, At(s, i).(stage := Over));
    BatchNext(u, k);
    if s.aborting || !s.lazy { BatchNone(s, u); }
  }

  /** What the steps of a run asked for, where there was anything left to give. */
  function Sizes<T, R>(f: T -> R, s: State<T, R>, es: seq<Event<T>>): seq<nat>
    decreases |es|
  {
    if es == [] || !Enabled(s, es[0]) then []
    else
      (if Asked(s, es[0]) > 0 && s.source != [] then [Asked(s, es[0])] else [])
      + Sizes(f, Apply(f, s, es[0]), es[1..])
  }

  /** Over any run, each batch asked for holds exactly as many tasks as were asked for; only the last
      may hold fewer, when the iterator ended in it. */
  lemma {:induction false} BatchSizes<T, R>(f: T -> R, s: State<T, R>, es: seq<Event<T>>, t: State<T, R>)
    requires Started(s) && CallRun(f, s, es, t)
    ensures |t.own| == |s.own| + |Sizes(f, s, es)| && SameTasks(s, t)
    ensures forall i :: 0 <= i < |Sizes(f, s, es)| ==>
              && |t.own[|s.own| + i].tasks| <= Sizes(f, s, es)[i]
              && (|t.own[|s.own| + i].tasks| < Sizes(f, s, es)[i] ==> i == |Sizes(f, s, es)| - 1 && t.source == [])
    ensures s.source == [] ==> Sizes(f, s, es) == [] && t.source == []
    decreases |es|
  {
    hide Apply, Enabled, Continues, Asked, Started;
    if es != [] {
      var u := Apply(f, s, es[0]);
      BatchStep(f, s, es[0]);
      StepStays(f, s, es[0]);
      BatchSizes(f, u, es[1..], t);
    }
  }

  // ---------------------------------------------------------------- termination

  /** Tasks not yet taken, callbacks still to run, and work completed but not yielded. */
  function Work<T, R>(s: State<T, R>): int {
    6 * |s.source| + 3 * (CountStage(s.past, InFlight) + CountStage(s.own, InFlight)) + Late(s) + |s.jobs|
    + (s.nDispatched - s.nCompleted) + (if s.iterating then 1 else 0) + (if s.phase == Priming then 1 else 0)
  }

  function Weight(g: Stage): nat { match g case InFlight => 3 case Succeeded => 1 case Over => 0 }

  lemma {:induction false} WorkPut<T, R>(s: State<T, R>, i: nat, c: Callback<T, R>)
    requires i < Size(s)
    ensures Work(Put(s, i, c)) == Work(s) + Weight(c.stage) - Weight(At(s, i).stage)
  {
    var cs, j := if i < |s.past| then s.past else s.own, if i < |s.past| then i else i - |s.past|;
    CountUpdate(cs, j, c, InFlight);
    CountUpdate(cs, j, c, Succeeded);
  }

  lemma {:induction false} WorkQueue<T, R>(s: State<T, R>, n: nat)
    requires 0 < n <= |s.source|
    ensures Work(Queue(s, n)) < Work(s)
  {
    CountAppend(s.own, Queue(s, n).own[|s.own|], InFlight);
    CountAppend(s.own, Queue(s, n).own[|s.own|], Succeeded);
  }

  lemma {:induction false} WorkNext<T, R>(s: State<T, R>, k: nat)
    requires 0 < k
    ensures Work(DispatchNext(s, k)) <= Work(s)
    ensures s.iterating ==> Work(DispatchNext(s, k)) < Work(s)
  {
    if s.source != [] { WorkQueue(s, Min(k, |s.source|)); }
  }

  lemma {:induction false} WorkFinish<T, R>(f: T -> R, s: State<T, R>, i: nat, success: bool)
    requires i < Size(s) && At(s, i).stage == InFlight
    ensures Work(FirstSection(f, s, i, success)) < Work(s)
  {
    hide Map, Work, Put;
    var t := Put(s, i, Settled(f, s, At(s, i), success));
    WorkPut(s, i, Settled(f, s, At(s, i), success));
    WorkJobs(t, t.jobs + [i]);
  }

  lemma {:induction false} WorkJobs<T, R>(s: State<T, R>, jobs: seq<nat>)
    ensures Work(s.(jobs := jobs)) == Work(s) + |jobs| - |s.jobs|
  {
  }

  lemma {:induction false} WorkLoad<T, R>(f: T -> R, s: State<T, R>)
    requires Enabled(s, Event<T>.Load)
    ensures Work(Apply(f, s, Event<T>.Load)) < Work(s)
  {
    WorkPut(s, s.jobs[0], At(s, s.jobs[0]).(read := true));
  }

  lemma {:induction false} WorkPrime<T, R>(s: State<T, R>, k: nat)
    requires s.phase == Priming && 0 < k
    ensures Work(Prime(s, k)) < Work(s)
  {
    var n := Min(Min(k, |s.source|), if s.lazy then s.slice else k);
    if n != 0 { WorkQueue(s, n); }
  }

  lemma {:induction false} WorkRenew<T, R>(s: State<T, R>, i: nat, k: nat)
    requires i < Size(s) && At(s, i).stage == Succeeded && 0 < k
    ensures Work(SecondSection(s, i, k)) < Work(s)
  {
    hide DispatchNext;
    var t := Put(s, i, At(s, i).(stage := Over));
    WorkPut(s, i, At(s, i).(stage := Over));
    WorkNext(t, k);
  }

  lemma {:induction false} WorkYield<T, R>(f: T -> R, s: State<T, R>)
    requires Enabled(s, Event<T>.Yield)
    ensures Work(Apply(f, s, Event<T>.Yield)) < Work(s)
  {
  }

  lemma {:induction false} WorkPull<T, R>(f: T -> R, s: State<T, R>, k: nat)
    requires Enabled(s, Event<T>.Pull(k))
    ensures Work(Apply(f, s, Event<T>.Pull(k))) < Work(s)
  {
    hide DispatchNext;
    WorkNext(s, k);
  }

  /** Every step of a call leaves strictly less to do. */
  lemma {:induction false} WorkDecreases<T, R>(f: T -> R, s: State<T, R>, e: Event<T>)
    requires Started(s) && Enabled(s, e) && Continues(e)
    ensures Work(Apply(f, s, e)) < Work(s)
  {
    hide Work, Prime, FirstSection, SecondSection, DispatchNext;
    match e
    case Finish(i, success) => WorkFinish(f, s, i, success);
    case DispatchNew(i, k) => WorkRenew(s, i, k);
    case PreDispatch(k) => WorkPrime(s, k);
    case Pull(k) => WorkPull(f, s, k);
    case Load => WorkLoad(f, s);
    case Yield => WorkYield(f, s);
  }

  lemma {:induction false} WorkIsNat<T, R>(f: T -> R, s: State<T, R>)
    requires CallInv(f, s)
    ensures 0 <= Work(s)
  {
    var out := s.yielded + s.outputs;
    assert |multiset(out)| == |out| && |multiset(Map(f, s.taken))| == |s.taken|;
    assert |multiset(out) + Unread(f, s.own)| == |out| + |Unread(f, s.own)|;
  }

  /** Every run of a call is finite: it has at most `Work` steps. */
  lemma {:induction false} RunsEnd<T, R>(f: T -> R, s: State<T, R>, es: seq<Event<T>>, t: State<T, R>)
    requires CallInv(f, s) && Started(s) && CallRun(f, s, es, t)
    ensures |es| <= Work(s) - Work(t) && 0 <= Work(t)
    decreases |es|
  {
    hide CallInv, Apply, Enabled, Continues, Started, Work;
    if es == [] {
      WorkIsNat(f, s);
    } else {
      WorkDecreases(f, s, es[0]);
      StepKeeps(f, s, es[0]);
      StepStays(f, s, es[0]);
      RunsEnd(f, Apply(f, s, es[0]), es[1..], t);
    }
  }

  ghost predicate ErrorFree<T, R>(s: State<T, R>) {
    forall i :: 0 <= i < |s.own| ==> s.own[i].status != Error
  }

  lemma {:induction false} StaysErrorFree<T, R>(f: T -> R, s: State<T, R>, e: Event<T>)
    requires ErrorFree(s) && Enabled(s, e) && !e.InstallId? && !(e.Finish? && !e.success)
    ensures ErrorFree(Apply(f, s, e))
  {
    hide DispatchNext, Prime, Map;
    match e
    case PreDispatch(k) => QueueErrorFree(s, k);
    case DispatchNew(i, k) => QueueErrorFree(Put(s, i, At(s, i).(stage := Over)), k);
    case Pull(k) => QueueErrorFree(s, k);
    case _ =>
  }

  lemma {:induction false} QueueErrorFree<T, R>(s: State<T, R>, k: nat)
    requires ErrorFree(s)
    ensures ErrorFree(DispatchNext(s, k)) && ErrorFree(Prime(s, k))
  {
  }

  /** A step that needs no luck: the consumer's next step, or the completion of a batch in flight. */
  predicate Useful<T, R>(s: State<T, R>, e: Event<T>) {
    && Enabled(s, e)
    && (e == PreDispatch(1) || e == Pull(1) || e == Load || e == Yield
        || (e.Finish? && e.success && |s.past| <= e.i))
  }

  /** The consumer has come to a batch that failed. */
  predicate Failing<T, R>(s: State<T, R>) {
    && s.phase == Consuming && s.nCompleted < s.nDispatched && s.outputs == []
    && s.jobs != [] && s.jobs[0] < Size(s) && At(s, s.jobs[0]).status == Error
  }

  /** While dispatched work remains to be yielded and the current batch is used up, some batch is unread. */
  lemma {:induction false} UnreadLeft<T, R>(f: T -> R, s: State<T, R>) returns (i: nat)
    requires CallInv(f, s) && s.nCompleted < s.nDispatched && s.outputs == []
    ensures i < |s.own| && !s.own[i].read
    ensures s.ordered ==> s.jobs != []
  {
    assert s.yielded + s.outputs == s.yielded;
    assert |multiset(s.yielded)| == |s.yielded| && |multiset(Map(f, s.taken))| == |s.taken|;
    if forall i :: 0 <= i < |s.own| ==> s.own[i].read {
      AllRead(f, s.own);
      assert false;
    }
    i :| 0 <= i < |s.own| && !s.own[i].read;
  }

  /** A call for which nothing was counted before its fresh id can always go on until it is finished,
      unless the consumer has come to a batch that failed: it never deadlocks. */
  lemma {:induction false} Progress<T, R>(f: T -> R, s: State<T, R>) returns (e: Event<T>)
    requires CallInv(f, s) && Started(s) && !Finished(s)
    ensures Failing(s) || Useful(s, e)
    ensures ErrorFree(s) ==> !Failing(s)
  {
    hide Accounted;
    e := Yield;
    if s.jobs != [] { assert s.jobs[0] in s.jobs; }
    if s.phase == Priming { return PreDispatch(1); }
    if s.nCompleted >= s.nDispatched { return Pull(1); }
    if s.outputs != [] { return Yield; }
    var i := UnreadLeft(f, s);
    if s.jobs == [] {
      assert CallbackOk(f, s.callId, s.own[i]);
      return Finish(|s.past| + i, true);
    }
    var h := s.jobs[0] - |s.past|;
    assert CallbackOk(f, s.callId, s.own[h]);
    return if s.own[h].status == Pending then Finish(s.jobs[0], true) else Load;
  }

  // ---------------------------------------------------------------- a run of useful steps

  /** What the call will have taken if no callback renews a batch. */
  function Planned<T, R>(s: State<T, R>): seq<T> {
    if s.phase == Priming then s.taken + s.source[..Min(s.slice, |s.source|)] else s.taken
  }

  lemma {:induction false} PrimeKeepsPlan<T, R>(s: State<T, R>)
    requires s.phase == Priming && s.lazy && !s.iterating
    ensures var t := Prime(s, 1); t.lazy && !t.iterating && Planned(t) == Planned(s)
  {
    if s.source != [] && s.slice > 0 {
      assert s.source[..1] + s.source[1..][..Min(s.slice - 1, |s.source| - 1)] == s.source[..Min(s.slice, |s.source|)];
    }
  }

  lemma {:induction false} UsefulKeepsPlan<T, R>(f: T -> R, s: State<T, R>, e: Event<T>)
    requires Started(s) && s.lazy && !s.iterating && Useful(s, e)
    ensures var t := Apply(f, s, e); t.lazy && !t.iterating && Planned(t) == Planned(s)
  {
    hide Map, Prime;
    match e
    case PreDispatch(_) => PrimeKeepsPlan(s);
    case _ =>
  }

  /** An error-free call has a run to its end in which no callback gets to renew a batch. One that has
      stopped iterating and consumes its input lazily then ends with what priming takes. */
  lemma {:induction false} GreedyRun<T, R>(f: T -> R, s: State<T, R>) returns (es: seq<Event<T>>, t: State<T, R>)
    requires CallInv(f, s) && Started(s) && ErrorFree(s)
    ensures CallRun(f, s, es, t) && Finished(t) && CallInv(f, t)
    ensures s.lazy && !s.iterating ==> t.taken == Planned(s)
    decreases Work(s)
  {
    hide CallInv, Apply, Work, ErrorFree, Enabled;
    es, t := [], s;
    if !Finished(s) {
      var e := Progress(f, s);
      WorkIsNat(f, s);
      WorkDecreases(f, s, e);
      StepKeeps(f, s, e);
      StepStays(f, s, e);
      StaysErrorFree(f, s, e);
      if s.lazy && !s.iterating { UsefulKeepsPlan(f, s, e); }
      es, t := GreedyRun(f, Apply(f, s, e));
      ghost var rest := es;
      es := [e] + rest;
      assert es[1..] == rest;
    }
  }
}
