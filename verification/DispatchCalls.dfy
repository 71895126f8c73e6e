/** Successive calls of one `Parallel` object, and the callbacks an earlier call leaves running.

    `__call__` clears the counters first, installs the fresh call id next and replaces
    `_original_iterator` last. A callback of an earlier call that runs between those steps can
    still act on the new call. This module says exactly when one can, what the call then yields, and
    that it can yield foreign results, lose its input's tail, raise a foreign error or hang. */
module DispatchCalls {
  import opened Batches
  import opened Dispatch
  import opened Wrappers
  import opened DispatchRuns

  predicate IsCallback<T>(e: Event<T>) { e.Finish? || e.DispatchNew? }

  /** Between two calls: nothing is queued, and no callback can queue anything. */
  ghost predicate Resting<T, R>(s: State<T, R>) {
    && s.phase == Idle && s.jobs == [] && s.outputs == []
    && (s.aborting || (s.source == [] && forall i :: 0 <= i < Size(s) ==>
                         !(At(s, i).callId == s.callId && At(s, i).stage == InFlight)))
  }

  /** What `_reset_run_tracking` establishes for the call that starts. */
  predicate Quiet<T, R>(s: State<T, R>) {
    && s.jobs == [] && s.outputs == [] && s.yielded == [] && s.nDispatched == 0 && s.nCompleted == 0
    && s.iterating && !s.aborting
  }

  /** A call that ran to its end rests, unless it has lost the tail of its input. */
  lemma {:induction false} CompletedCallRests<T, R>(f: T -> R, s: State<T, R>)
    requires CallInv(f, s) && Enabled(s, Event<T>.Complete)
    ensures Resting(Close(s)) <==> s.source == []
  {
    SuffixDone(f, s);
    NothingLeft(f, s);
    forall i | 0 <= i < Size(s) && At(s, i).callId == s.callId ensures At(s, i).stage != InFlight {
      assert CallbackOk(f, s.callId, s.own[i - |s.past|]);
    }
  }

  lemma {:induction false} StoppedCallRests<T, R>(f: T -> R, s: State<T, R>)
    requires Enabled(s, Event<T>.Stop)
    ensures Resting(Halt(s))
  {
  }

  lemma {:induction false} RestingPut<T, R>(s: State<T, R>, i: nat, c: Callback<T, R>)
    requires Resting(s) && i < Size(s) && c.callId == At(s, i).callId && c.stage != InFlight
    ensures Resting(Put(s, i, c))
  {
    var t := Put(s, i, c);
    if !s.aborting {
      forall j | 0 <= j < Size(t) ensures !(At(t, j).callId == t.callId && At(t, j).stage == InFlight) {
        assert At(t, j) == if j == i then c else At(s, j);
      }
    }
  }

  /** Callbacks that run between calls find nothing to do. */
  lemma {:induction false} RestingKeeps<T, R>(f: T -> R, s: State<T, R>, e: Event<T>)
    requires Resting(s) && IsCallback(e) && Enabled(s, e)
    ensures Resting(Apply(f, s, e))
  {
    hide Map, DispatchNext, Put;
    match e
    case Finish(i, success) => RestingPut(s, i, Settled(f, s, At(s, i), success));
    case DispatchNew(i, k) =>
      var t := Put(s, i, At(s, i).(stage := Over));
      RestingPut(s, i, At(s, i).(stage := Over));
      PutFields(s, i, At(s, i).(stage := Over));
      if !s.aborting { NothingNext(t, k); SameRests(t, DispatchNext(t, k)); }
  }

  lemma PutFields<T, R>(s: State<T, R>, i: nat, c: Callback<T, R>)
    requires i < Size(s)
    ensures Put(s, i, c).source == s.source && Put(s, i, c).aborting == s.aborting && Put(s, i, c).lazy == s.lazy
  {
  }

  lemma SameRests<T, R>(s: State<T, R>, t: State<T, R>)
    requires Resting(s) && t == s.(iterating := t.iterating)
    ensures Resting(t)
  {
    assert forall i :: 0 <= i < Size(s) ==> At(t, i) == At(s, i);
  }

  lemma NothingNext<T, R>(s: State<T, R>, k: nat)
    requires s.source == []
    ensures DispatchNext(s, k) == s.(iterating := false)
  {
  }

  /** A call that starts from rest starts quiet. */
  lemma {:induction false} RestingResets<T, R>(s: State<T, R>)
    requires Resting(s)
    ensures Quiet(Clear(s))
  {
  }

  // ---------------------------------------------------------------- the fresh call id

  /** From a quiet start the fresh id puts the books of the new call in order. */
  lemma {:induction false} InstallIdOpens<T, R>(f: T -> R, s: State<T, R>, id: nat)
    requires Quiet(s) && Enabled(s, Event<T>.InstallId(id))
    ensures var t := Apply(f, s, Event<T>.InstallId(id)); CallInv(f, t) && t.taken == [] && t.iterating
  {
    var t := Apply(f, s, Event<T>.InstallId(id));
    forall i | 0 <= i < |t.past| ensures t.past[i].callId != id { assert t.past[i] == At(s, i); }
    assert t.yielded + t.outputs == [] == Map(f, Flat(t.own));
  }

  // ---------------------------------------------------------------- the start of a call

  /** Callbacks, and nothing else, run from `s` to `t`. */
  ghost predicate Callbacks<T, R>(f: T -> R, s: State<T, R>, es: seq<Event<T>>, t: State<T, R>)
    decreases |es|
  {
    if es == [] then s == t
    else IsCallback(es[0]) && Enabled(s, es[0]) && Callbacks(f, Apply(f, s, es[0]), es[1..], t)
  }

  /** The start of a call: callbacks, the fresh id, callbacks again. */
  ghost predicate Opening<T, R>(f: T -> R, s: State<T, R>, w: seq<Event<T>>, u: State<T, R>, id: nat,
                                v: seq<Event<T>>, t: State<T, R>) {
    && Callbacks(f, s, w, u) && Enabled(u, Event<T>.InstallId(id))
    && Callbacks(f, Apply(f, u, Event<T>.InstallId(id)), v, t)
  }

  /** The callback can still pass a guard: it is between its sections and the iterator is lazily
      consumed, or it is to come and has the current call id. */
  predicate Loose<T, R>(s: State<T, R>, c: Callback<T, R>) {
    (c.stage == Succeeded && s.lazy) || (c.stage == InFlight && c.callId == s.callId && (!s.ordered || s.lazy))
  }

  predicate MayIntrude<T, R>(s: State<T, R>) { exists i :: 0 <= i < Size(s) && Loose(s, At(s, i)) }

  /** A call about to get its iterator, with its books in order and nothing taken for it. */
  ghost predicate Fresh<T, R>(f: T -> R, s: State<T, R>) {
    CallInv(f, s) && s.phase == Identified && s.taken == [] && s.own == [] && s.iterating
  }

  lemma {:induction false} StepIsIdle<T, R>(f: T -> R, s: State<T, R>, e: Event<T>)
    requires !MayIntrude(s) && !s.aborting && IsCallback(e) && Enabled(s, e)
    requires s.own == [] ==> forall i :: 0 <= i < |s.past| ==> s.phase == Identified ==> s.past[i].callId != s.callId
    requires s.phase == Cleared || s.own == []
    ensures var t := Apply(f, s, e);
            && !MayIntrude(t) && t == s.(past := t.past, own := t.own)
            && |t.past| == |s.past| && |t.own| == |s.own|
            && forall i :: 0 <= i < Size(s) ==> At(t, i).callId == At(s, i).callId
  {
    hide Map;
    assert !Loose(s, At(s, e.i));
    var t := Apply(f, s, e);
    forall i | 0 <= i < Size(t) ensures !Loose(t, At(t, i)) { assert !Loose(s, At(s, i)); }
  }

  lemma {:induction false} EarlyStays<T, R>(f: T -> R, s: State<T, R>, es: seq<Event<T>>, t: State<T, R>)
    requires Quiet(s) && s.phase == Cleared && !MayIntrude(s) && Callbacks(f, s, es, t)
    ensures Quiet(t) && t.phase == Cleared && !MayIntrude(t) && t.ordered == s.ordered
    ensures |t.past| == |s.past| && |t.own| == |s.own|
    ensures forall i :: 0 <= i < Size(s) ==> At(t, i).callId == At(s, i).callId
    decreases |es|
  {
    hide Apply, Enabled, MayIntrude;
    if es != [] {
      StepIsIdle(f, s, es[0]);
      EarlyStays(f, Apply(f, s, es[0]), es[1..], t);
    }
  }

  lemma {:induction false} LateStays<T, R>(f: T -> R, s: State<T, R>, es: seq<Event<T>>, t: State<T, R>)
    requires Fresh(f, s) && !MayIntrude(s) && Callbacks(f, s, es, t)
    ensures Fresh(f, t) && !MayIntrude(t) && t.ordered == s.ordered && t.callId == s.callId
    decreases |es|
  {
    hide Apply, Enabled, MayIntrude, Books, Flat;
    if es != [] {
      StepIsIdle(f, s, es[0]);
      StepKeeps(f, s, es[0]);
      LateStays(f, Apply(f, s, es[0]), es[1..], t);
    }
  }

  lemma {:induction false} IdOpensIdle<T, R>(f: T -> R, s: State<T, R>, id: nat)
    requires Quiet(s) && Enabled(s, Event<T>.InstallId(id)) && !MayIntrude(s)
    ensures var t := SetId(s, id); Fresh(f, t) && !MayIntrude(t)
  {
    var t := SetId(s, id);
    InstallIdOpens(f, s, id);
    forall i | 0 <= i < Size(t) ensures !Loose(t, At(t, i)) { assert At(t, i) == At(s, i) && !Loose(s, At(s, i)); }
  }

  lemma {:induction false} OpeningStays<T, R>(f: T -> R, s: State<T, R>, w: seq<Event<T>>, u: State<T, R>, id: nat,
                                              v: seq<Event<T>>, t: State<T, R>)
    requires Quiet(s) && s.phase == Cleared && !MayIntrude(s) && Opening(f, s, w, u, id, v, t)
    ensures Fresh(f, t)
  {
    hide Quiet, Fresh, MayIntrude;
    EarlyStays(f, s, w, u);
    IdOpensIdle(f, u, id);
    LateStays(f, Apply(f, u, Event<T>.InstallId(id)), v, t);
  }

  lemma {:induction false} NothingYielded<T, R>(f: T -> R, s: State<T, R>)
    requires Fresh(f, s)
    ensures s.yielded == []
  {
    assert |multiset(s.yielded + s.outputs)| == |s.yielded + s.outputs| && |multiset(Map(f, s.taken))| == 0;
    assert |multiset(s.yielded + s.outputs) + Unread(f, s.own)| == |s.yielded + s.outputs| + |Unread(f, s.own)|;
  }

  lemma {:induction false} UnusedId<T, R>(s: State<T, R>, n: nat) returns (id: nat)
    requires n <= Size(s)
    ensures forall i :: 0 <= i < n ==> At(s, i).callId < id
  {
    id := 0;
    if n > 0 {
      id := UnusedId(s, n - 1);
      if id <= At(s, n - 1).callId { id := At(s, n - 1).callId + 1; }
    }
  }

  lemma {:induction false} OneCallback<T, R>(f: T -> R, s: State<T, R>, e: Event<T>)
    requires IsCallback(e) && Enabled(s, e)
    ensures Callbacks(f, s, [e], Apply(f, s, e))
  {
    hide Apply, Enabled;
    assert [e][1..] == [] && Callbacks(f, Apply(f, s, e), [], Apply(f, s, e));
  }

  lemma {:induction false} CallbackThen<T, R>(f: T -> R, s: State<T, R>, es: seq<Event<T>>, t: State<T, R>, e: Event<T>)
    requires Callbacks(f, s, es, t) && IsCallback(e) && Enabled(t, e)
    ensures Callbacks(f, s, es + [e], Apply(f, t, e))
    decreases |es|
  {
    hide Apply, Enabled;
    if es == [] {
      OneCallback(f, s, e);
      assert [] + [e] == [e];
    } else {
      CallbackThen(f, Apply(f, s, es[0]), es[1..], t, e);
      assert (es + [e])[1..] == es[1..] + [e];
    }
  }

  lemma {:induction false} LateIntrusion<T, R>(f: T -> R, s: State<T, R>, i: nat)
      returns (v: seq<Event<T>>, t: State<T, R>)
    requires s.phase == Identified && !s.aborting && s.own == [] && i < Size(s) && At(s, i).stage == Succeeded && s.lazy
    ensures Callbacks(f, s, v, t) && !Fresh(f, t)
  {
    var e := Event<T>.DispatchNew(i, 1);
    v, t := [e], Apply(f, s, e);
    OneCallback(f, s, e);
  }

  /** With a loose callback the start of the call can go wrong. */
  lemma {:induction false} Intrusion<T, R>(f: T -> R, s: State<T, R>)
      returns (w: seq<Event<T>>, u: State<T, R>, id: nat, v: seq<Event<T>>, t: State<T, R>)
    requires Quiet(s) && s.phase == Cleared && MayIntrude(s)
    ensures Opening(f, s, w, u, id, v, t) && !Fresh(f, t)
  {
    hide Fresh, Callbacks;
    var i :| 0 <= i < Size(s) && Loose(s, At(s, i));
    w, u := [], s;
    assert Callbacks(f, s, [], s) by { NoCallback(f, s); }
    if At(s, i).stage == InFlight {
      w, u := [Event<T>.Finish(i, true)], Apply(f, s, Event<T>.Finish(i, true));
      OneCallback(f, s, Event<T>.Finish(i, true));
    }
    id := UnusedId(u, Size(u));
    var a := Apply(f, u, Event<T>.InstallId(id));
    assert At(a, i) == At(u, i) && At(u, i).stage == Succeeded;
    if s.lazy {
      v, t := LateIntrusion(f, a, i);
    } else {
      v, t := [], a;
      NoCallback(f, a);
      ForeignJob(f, a, i);
    }
  }

  lemma NoCallback<T, R>(f: T -> R, s: State<T, R>)
    ensures Callbacks(f, s, [], s)
  {
  }

  lemma ForeignJob<T, R>(f: T -> R, s: State<T, R>, i: nat)
    requires s.jobs == [i] && s.own == []
    ensures !Fresh(f, s)
  {
    assert i in s.jobs;
  }

  /** No schedule of callbacks disturbs the start of a call if and only if, once the counters are
      reset, no callback is loose. */
  lemma {:induction false} StartExactly<T, R>(f: T -> R, s: State<T, R>)
    requires Quiet(s) && s.phase == Cleared
    ensures (forall w, u, id, v, t :: Opening(f, s, w, u, id, v, t) ==> Fresh(f, t)) <==> !MayIntrude(s)
  {
    hide Quiet, Fresh;
    if MayIntrude(s) {
      var w, u, id, v, t := Intrusion(f, s);
    } else {
      forall w, u, id, v, t | Opening(f, s, w, u, id, v, t) ensures Fresh(f, t) { OpeningStays(f, s, w, u, id, v, t); }
    }
  }

  /** Before the fresh id: no schedule of callbacks leaves the quiet start if and only if no callback is
      loose. */
  lemma {:induction false} EarlyExactly<T, R>(f: T -> R, s: State<T, R>)
    requires Quiet(s) && s.phase == Cleared
    ensures (forall es, t :: Callbacks(f, s, es, t) ==> Quiet(t)) <==> !MayIntrude(s)
  {
    if MayIntrude(s) {
      var es, t := EarlyIntrusion(f, s);
    } else {
      forall es, t | Callbacks(f, s, es, t) ensures Quiet(t) { EarlyStays(f, s, es, t); }
    }
  }

  lemma {:induction false} EarlyIntrusion<T, R>(f: T -> R, s: State<T, R>) returns (es: seq<Event<T>>, t: State<T, R>)
    requires Quiet(s) && s.phase == Cleared && MayIntrude(s)
    ensures Callbacks(f, s, es, t) && !Quiet(t)
  {
    hide Callbacks;
    var i :| 0 <= i < Size(s) && Loose(s, At(s, i));
    if At(s, i).stage == Succeeded {
      es, t := [Event<T>.DispatchNew(i, 1)], Apply(f, s, Event<T>.DispatchNew(i, 1));
      OneCallback(f, s, Event<T>.DispatchNew(i, 1));
    } else {
      es, t := [Event<T>.Finish(i, true)], Apply(f, s, Event<T>.Finish(i, true));
      OneCallback(f, s, Event<T>.Finish(i, true));
      if s.ordered {
        assert Quiet(t) && t.lazy && At(t, i).stage == Succeeded;
        CallbackThen(f, s, es, t, Event<T>.DispatchNew(i, 1));
        es, t := es + [Event<T>.DispatchNew(i, 1)], Apply(f, t, Event<T>.DispatchNew(i, 1));
      }
    }
  }

  /** After it, until the iterator is replaced: no schedule disturbs the call if and only if the old
      iterator is not lazily consumed or no callback is between its two sections. */
  lemma {:induction false} LateExactly<T(!new), R(!new)>(f: T -> R, s: State<T, R>)
    requires Fresh(f, s)
    ensures StaysFresh(f, s) <==> !(s.lazy && Between(s))
  {
    OnlyBetween(f, s);
    hide Callbacks, Fresh, MayIntrude;
    if s.lazy && Between(s) {
      var i :| 0 <= i < |s.past| && s.past[i].stage == Succeeded;
      var es, t := LateIntrusion(f, s, i);
    } else {
      forall es, t | Callbacks(f, s, es, t) ensures Fresh(f, t) { LateStays(f, s, es, t); }
    }
  }

  ghost predicate StaysFresh<T(!new), R(!new)>(f: T -> R, s: State<T, R>) {
    forall es, t :: Callbacks(f, s, es, t) ==> Fresh(f, t)
  }

  lemma {:induction false} OnlyBetween<T, R>(f: T -> R, s: State<T, R>)
    requires Fresh(f, s)
    ensures s.phase == Identified && !s.aborting && s.own == []
    ensures !(s.lazy && Between(s)) ==> !MayIntrude(s)
  {
    if !(s.lazy && Between(s)) {
      forall i | 0 <= i < Size(s) ensures !Loose(s, At(s, i)) { assert At(s, i) == s.past[i]; }
    }
  }

  /** Some callback of an earlier call is between its two sections. */
  predicate Between<T, R>(s: State<T, R>) { exists i :: 0 <= i < |s.past| && s.past[i].stage == Succeeded }

  /** Between calls a callback's next step is its last, and touches no other. */
  lemma {:induction false} RestingOver<T, R>(f: T -> R, s: State<T, R>, e: Event<T>)
    requires Resting(s) && IsCallback(e) && Enabled(s, e)
    ensures var t := Apply(f, s, e);
            && Resting(t) && |t.past| == |s.past| && |t.own| == |s.own|
            && forall j :: 0 <= j < Size(s) ==> At(t, j).stage == if j == e.i then Over else At(s, j).stage
  {
    assert e.Finish? && !s.aborting ==> At(s, e.i).callId != s.callId;
    RestingKeeps(f, s, e);
    PutOver(s, e.i);
    if e.DispatchNew? && !s.aborting { RestingNext(s, e.i, e.k); }
    hide Map, DispatchNext, Resting, Put;
    var u := Put(s, e.i, At(s, e.i).(stage := Over));
    var t := Apply(f, s, e);
    assert t == u.(iterating := t.iterating);
    forall j | 0 <= j < Size(s) ensures At(t, j).stage == if j == e.i then Over else At(s, j).stage {
      assert At(t, j) == At(u, j);
    }
  }

  lemma PutOver<T, R>(s: State<T, R>, i: nat)
    requires i < Size(s)
    ensures var u := Put(s, i, At(s, i).(stage := Over));
            && |u.past| == |s.past| && |u.own| == |s.own| && u.aborting == s.aborting && u.lazy == s.lazy
            && forall j :: 0 <= j < Size(s) ==> At(u, j).stage == if j == i then Over else At(s, j).stage
  {
  }

  lemma RestingNext<T, R>(s: State<T, R>, i: nat, k: nat)
    requires Resting(s) && !s.aborting && i < Size(s)
    ensures var t := Put(s, i, At(s, i).(stage := Over)); DispatchNext(t, k) == t.(iterating := false)
  {
  }

  lemma {:induction false} OverMayStart<T, R>(s: State<T, R>)
    requires forall i :: 0 <= i < Size(s) ==> At(s, i).stage == Over
    ensures !MayIntrude(Clear(s))
  {
    forall i | 0 <= i < Size(s) ensures !Loose(Clear(s), At(Clear(s), i)) { assert At(Clear(s), i) == At(s, i); }
  }

  // ---------------------------------------------------------------- what a call yields

  function Installed<T, R>(s: State<T, R>, input: seq<T>, amount: nat, lazy: bool): State<T, R> {
    SetIterator(s, input, amount, lazy)
  }

  lemma {:induction false} FreshDrains<T, R>(f: T -> R, s: State<T, R>, input: seq<T>, amount: nat, lazy: bool)
    requires Fresh(f, s)
    ensures var u := Installed(s, input, amount, lazy);
            CallInv(f, u) && Started(u) && Draining(u) && u.taken + u.source == input
  {
    StepKeeps(f, s, Event<T>.InstallIterator(input, amount, lazy));
  }

  /** When nothing was queued or counted before the fresh id, and whatever ran after it: the call yields
      the tasks taken then, followed by its input up to some point; and by all of its input unless
      `_iterating` was cleared, the input is consumed lazily, and does not fit the pre-dispatch amount. */
  lemma {:induction false} CallYields<T, R>(f: T -> R, s: State<T, R>, input: seq<T>, amount: nat, lazy: bool,
                                            es: seq<Event<T>>, t: State<T, R>)
    requires CallInv(f, s) && s.phase == Identified
    requires CallRun(f, Installed(s, input, amount, lazy), es, t) && Finished(t)
    ensures s.ordered ==> t.yielded == Map(f, t.taken)
    ensures multiset(t.yielded) == multiset(Map(f, t.taken))
    ensures s.taken <= t.taken <= s.taken + input
    ensures s.iterating || !lazy || |input| <= amount ==> t.taken == s.taken + input
  {
    var u := Installed(s, input, amount, lazy);
    StepKeeps(f, s, Event<T>.InstallIterator(input, amount, lazy));
    FinishedCallYieldsMap(f, u, es, t);
    RunKeeps(f, u, es, t);
    assert t.taken + t.source == s.taken + input;
  }

  /** The law of `Parallel.__call__`: for every task list, every batching and every interleaving, a
      call at whose reset no callback is loose yields the sequential map of its input, or a permutation
      of it in unordered mode. */
  lemma {:induction false} CallYieldsItsInput<T, R>(
      f: T -> R, r: State<T, R>, w: seq<Event<T>>, u: State<T, R>, id: nat, v: seq<Event<T>>, s: State<T, R>,
      input: seq<T>, amount: nat, lazy: bool, es: seq<Event<T>>, t: State<T, R>)
    requires Quiet(r) && r.phase == Cleared && !MayIntrude(r) && Opening(f, r, w, u, id, v, s)
    requires CallRun(f, Installed(s, input, amount, lazy), es, t) && Finished(t)
    ensures s.ordered ==> t.yielded == Map(f, input)
    ensures multiset(t.yielded) == multiset(Map(f, input))
  {
    hide CallInv, CallRun, Opening, Quiet, MayIntrude, Finished, Map;
    OpeningStays(f, r, w, u, id, v, s);
    CallYields(f, s, input, amount, lazy, es, t);
    assert s.taken + input == input;
  }

  // ---------------------------------------------------------------- exactly when a call is right

  ghost predicate Right<T, R>(f: T -> R, t: State<T, R>, input: seq<T>) {
    if t.ordered then t.yielded == Map(f, input) else multiset(t.yielded) == multiset(Map(f, input))
  }

  ghost predicate AlwaysRight<T(!new), R(!new)>(f: T -> R, u: State<T, R>, input: seq<T>) {
    forall es, t :: CallRun(f, u, es, t) && Finished(t) ==> Right(f, t, input)
  }

  /** No callback can dispatch any more. */
  predicate Spent<T, R>(s: State<T, R>) {
    forall i :: 0 <= i < Size(s) ==> At(s, i).stage != Succeeded && (At(s, i).stage == InFlight ==> i < |s.past|)
  }

  /** The one way in which a disturbed call is right all the same: it dispatches nothing of its input,
      and what it took at the start happens to compute the same. */
  ghost predicate Coincides<T, R>(f: T -> R, s: State<T, R>, input: seq<T>, amount: nat) {
    && amount == 0 && Spent(s)
    && if s.ordered then Map(f, s.taken) == Map(f, input) else multiset(Map(f, s.taken)) == multiset(Map(f, input))
  }

  lemma {:induction false} RightLength<T, R>(f: T -> R, t: State<T, R>, input: seq<T>)
    requires Right(f, t, input)
    ensures |t.yielded| == |input|
  {
    assert |multiset(t.yielded)| == |t.yielded| && |multiset(Map(f, input))| == |input|;
  }

  lemma {:induction false} RunThen<T, R>(f: T -> R, s: State<T, R>, first: seq<Event<T>>, m: State<T, R>,
                                         second: seq<Event<T>>, t: State<T, R>)
    requires CallRun(f, s, first, m) && CallRun(f, m, second, t)
    ensures CallRun(f, s, first + second, t)
    decreases |first|
  {
    hide Apply, Enabled, Continues;
    if first == [] {
      assert first + second == second;
    } else {
      RunThen(f, Apply(f, s, first[0]), first[1..], m, second, t);
      assert (first + second)[1..] == first[1..] + second;
    }
  }

  /** A call that will lose the tail of its input: priming is going to leave some of it, and nobody but
      callbacks asks for more. */
  predicate Losing<T, R>(s: State<T, R>) {
    s.phase == Priming && s.lazy && !s.iterating && s.slice < |s.source|
  }

  lemma {:induction false} RenewNow<T, R>(f: T -> R, s: State<T, R>, i: nat) returns (es: seq<Event<T>>, t: State<T, R>)
    requires CallInv(f, s) && ErrorFree(s) && Losing(s) && i < Size(s) && At(s, i).stage == Succeeded
    ensures CallRun(f, s, es, t) && CallInv(f, t) && ErrorFree(t) && Started(t) && t.lazy && !t.iterating
    ensures |Planned(t)| == |Planned(s)| + 1
  {
    var e := Event<T>.DispatchNew(i, 1);
    es, t := [e], Apply(f, s, e);
    StepKeeps(f, s, e);
    StaysErrorFree(f, s, e);
    hide CallInv, ErrorFree;
    assert es[1..] == [] && CallRun(f, t, [], t);
    assert t.taken == s.taken + s.source[..1] && t.source == s.source[1..] && t.slice == s.slice;
  }

  lemma {:induction false} RenewInFlight<T, R>(f: T -> R, s: State<T, R>, i: nat)
      returns (es: seq<Event<T>>, t: State<T, R>)
    requires CallInv(f, s) && ErrorFree(s) && Losing(s) && |s.past| <= i < Size(s) && At(s, i).stage == InFlight
    ensures CallRun(f, s, es, t) && CallInv(f, t) && ErrorFree(t) && Started(t) && t.lazy && !t.iterating
    ensures |Planned(t)| == |Planned(s)| + 1
  {
    var e := Event<T>.Finish(i, true);
    var m := Apply(f, s, e);
    assert CallbackOk(f, s.callId, s.own[i - |s.past|]);
    StepKeeps(f, s, e);
    StaysErrorFree(f, s, e);
    assert At(m, i).stage == Succeeded && Losing(m) && Planned(m) == Planned(s);
    hide CallInv, ErrorFree, Apply, Planned, Losing;
    es, t := RenewNow(f, m, i);
    RunFirst(f, s, e, es, t);
    es := [e] + es;
  }

  lemma {:induction false} RunFirst<T, R>(f: T -> R, s: State<T, R>, e: Event<T>, es: seq<Event<T>>, t: State<T, R>)
    requires Enabled(s, e) && Continues(e) && CallRun(f, Apply(f, s, e), es, t)
    ensures CallRun(f, s, [e] + es, t)
  {
    hide Apply, Enabled, Continues;
    assert ([e] + es)[1..] == es;
  }

  lemma {:induction false} RenewPrimed<T, R>(f: T -> R, s: State<T, R>)
      returns (es: seq<Event<T>>, t: State<T, R>)
    requires CallInv(f, s) && ErrorFree(s) && Losing(s) && 0 < s.slice
    ensures CallRun(f, s, es, t) && CallInv(f, t) && ErrorFree(t) && Started(t) && t.lazy && !t.iterating
    ensures |Planned(t)| == |Planned(s)| + 1
  {
    hide CallInv, ErrorFree, Planned, Map;
    var e := Event<T>.PreDispatch(1);
    var m := Apply(f, s, e);
    StepKeeps(f, s, e);
    StaysErrorFree(f, s, e);
    PrimeKeepsPlan(s);
    assert At(m, Size(s)).stage == InFlight && Losing(m);
    hide Losing, Apply;
    es, t := RenewInFlight(f, m, Size(s));
    RunFirst(f, s, e, es, t);
    es := [e] + es;
  }

  /** Unless nothing is primed and no callback can dispatch, some run takes one task more. */
  lemma {:induction false} Renewed<T, R>(f: T -> R, s: State<T, R>) returns (es: seq<Event<T>>, t: State<T, R>)
    requires CallInv(f, s) && ErrorFree(s) && Losing(s) && !(s.slice == 0 && Spent(s))
    ensures CallRun(f, s, es, t) && CallInv(f, t) && ErrorFree(t) && Started(t) && t.lazy && !t.iterating
    ensures |Planned(t)| == |Planned(s)| + 1
  {
    hide CallInv, ErrorFree, Losing, Planned, CallRun;
    if Spent(s) {
      es, t := RenewPrimed(f, s);
    } else {
      var i :| 0 <= i < Size(s) && (At(s, i).stage == Succeeded || (At(s, i).stage == InFlight && |s.past| <= i));
      if At(s, i).stage == Succeeded { es, t := RenewNow(f, s, i); } else { es, t := RenewInFlight(f, s, i); }
    }
  }

  lemma {:induction false} PlansInput<T(!new), R(!new)>(f: T -> R, s: State<T, R>, input: seq<T>,
                                                        first: seq<Event<T>>, m: State<T, R>)
    requires AlwaysRight(f, s, input) && CallRun(f, s, first, m)
    requires CallInv(f, m) && ErrorFree(m) && Started(m) && m.lazy && !m.iterating
    ensures |Planned(m)| == |input|
  {
    hide CallRun;
    var second, t := GreedyRun(f, m);
    RunThen(f, s, first, m, second, t);
    RightLength(f, t, input);
    SuffixDone(f, t);
  }

  /** Two finished runs of a losing call yield different numbers of results, unless it is spent. */
  lemma {:induction false} LosingIsWrong<T(!new), R(!new)>(f: T -> R, s: State<T, R>, input: seq<T>)
    requires CallInv(f, s) && ErrorFree(s) && Losing(s) && AlwaysRight(f, s, input)
    ensures s.slice == 0 && Spent(s) && |s.taken| == |input|
  {
    hide CallInv, ErrorFree, AlwaysRight, Spent;
    assert CallRun(f, s, [], s);
    PlansInput(f, s, input, [], s);
    if !(s.slice == 0 && Spent(s)) {
      var es, m := Renewed(f, s);
      PlansInput(f, s, input, es, m);
    }
  }

  // ---------------------------------------------------------------- a spent call, and one that failed

  /** Nothing will be dispatched for this call any more. */
  predicate Exhausted<T, R>(s: State<T, R>) {
    Started(s) && s.lazy && !s.iterating && (s.phase == Priming ==> s.slice == 0) && Spent(s)
  }

  lemma {:induction false} ExhaustedStep<T, R>(f: T -> R, s: State<T, R>, e: Event<T>)
    requires CallInv(f, s) && Exhausted(s) && Enabled(s, e) && Continues(e)
    ensures Exhausted(Apply(f, s, e)) && Apply(f, s, e).taken == s.taken
  {
    hide Books, Flat, Map, DispatchNext;
    var t := Apply(f, s, e);
    if e.Finish? { assert At(s, e.i).callId != s.callId; }
    forall i | 0 <= i < Size(t)
      ensures At(t, i).stage != Succeeded && (At(t, i).stage == InFlight ==> i < |t.past|) {
      assert At(s, i).stage != Succeeded && (At(s, i).stage == InFlight ==> i < |s.past|);
    }
  }

  lemma {:induction false} ExhaustedRun<T, R>(f: T -> R, s: State<T, R>, es: seq<Event<T>>, t: State<T, R>)
    requires CallInv(f, s) && Exhausted(s) && CallRun(f, s, es, t)
    ensures t.taken == s.taken
    decreases |es|
  {
    hide CallInv, Exhausted, Apply, Enabled, Continues;
    if es != [] {
      StepKeeps(f, s, es[0]);
      ExhaustedStep(f, s, es[0]);
      ExhaustedRun(f, Apply(f, s, es[0]), es[1..], t);
    }
  }

  lemma {:induction false} ErrorStays<T, R>(f: T -> R, s: State<T, R>, es: seq<Event<T>>, t: State<T, R>)
    requires CallInv(f, s) && Started(s) && CallRun(f, s, es, t) && !ErrorFree(s)
    ensures !ErrorFree(t)
    decreases |es|
  {
    hide CallInv, Apply, Enabled, ErrorFree;
    if es != [] {
      StepKeeps(f, s, es[0]);
      StepStays(f, s, es[0]);
      ErrorStep(f, s, es[0]);
      ErrorStays(f, Apply(f, s, es[0]), es[1..], t);
    }
  }

  lemma {:induction false} OwnGrows<T, R>(s: State<T, R>, k: nat)
    ensures s.own <= DispatchNext(s, k).own && s.own <= Prime(s, k).own
  {
  }

  lemma PutKeepsError<T, R>(s: State<T, R>, j: nat, c: Callback<T, R>)
    requires j < Size(s) && !ErrorFree(s) && (At(s, j).status == Error ==> c.status == Error)
    ensures !ErrorFree(Put(s, j, c))
  {
    var i :| 0 <= i < |s.own| && s.own[i].status == Error;
    assert Put(s, j, c).own[i].status == Error;
  }

  lemma GrowsKeepsError<T, R>(s: State<T, R>, t: State<T, R>)
    requires !ErrorFree(s) && s.own <= t.own
    ensures !ErrorFree(t)
  {
    var i :| 0 <= i < |s.own| && s.own[i].status == Error;
    assert t.own[i].status == Error;
  }

  lemma {:induction false} ErrorStep<T, R>(f: T -> R, s: State<T, R>, e: Event<T>)
    requires CallInv(f, s) && Started(s) && Enabled(s, e) && Continues(e) && !ErrorFree(s)
    ensures !ErrorFree(Apply(f, s, e))
  {
    hide Map, JobsOk, Accounted, Flat, DispatchNext, Prime, Put, ErrorFree;
    var t := Apply(f, s, e);
    match e
    case Finish(j, success) =>
      if |s.past| <= j { assert CallbackOk(f, s.callId, s.own[j - |s.past|]); }
      var u := Put(s, j, Settled(f, s, At(s, j), success));
      PutKeepsError(s, j, Settled(f, s, At(s, j), success));
      GrowsKeepsError(u, t);
    case DispatchNew(j, k) =>
      var u := Put(s, j, At(s, j).(stage := Over));
      PutKeepsError(s, j, At(s, j).(stage := Over));
      OwnGrows(u, k);
      GrowsKeepsError(u, t);
    case PreDispatch(k) => OwnGrows(s, k); GrowsKeepsError(s, t);
    case Pull(k) => OwnGrows(s, k); GrowsKeepsError(s, t);
    case Load =>
      var u := Put(s, s.jobs[0], At(s, s.jobs[0]).(read := true));
      PutKeepsError(s, s.jobs[0], At(s, s.jobs[0]).(read := true));
      GrowsKeepsError(u, t);
    case Yield => GrowsKeepsError(s, t);
    case InstallIterator(_, _, _) =>
  }

  lemma {:induction false} FinishedIsErrorFree<T, R>(f: T -> R, s: State<T, R>)
    requires CallInv(f, s) && Finished(s)
    ensures ErrorFree(s)
  {
    SuffixDone(f, s);
    NothingLeft(f, s);
    forall i | 0 <= i < |s.own| ensures s.own[i].status != Error { assert CallbackOk(f, s.callId, s.own[i]); }
  }

  /** A call with a failed batch never finishes: it raises when the consumer comes to it. */
  lemma {:induction false} FailedNeverFinishes<T, R>(f: T -> R, s: State<T, R>, es: seq<Event<T>>, t: State<T, R>)
    requires CallInv(f, s) && Started(s) && CallRun(f, s, es, t) && !ErrorFree(s)
    ensures !Finished(t)
  {
    hide CallInv, ErrorFree;
    ErrorStays(f, s, es, t);
    RunKeeps(f, s, es, t);
    if Finished(t) { FinishedIsErrorFree(f, t); }
  }

  /** When nothing was queued or counted before the fresh id, and whatever ran after it: all finished
      runs yield the map of the input (or a permutation of it) if and only if nothing was taken and
      `_iterating` is still set, or the input is not consumed lazily, or it fits the pre-dispatch amount.
      (Two cases are right for want of a wrong run: a task taken has failed already, so that no run
      finishes; or the call can dispatch nothing and what it took happens to compute the same.) */
  lemma {:induction false} CallExactly<T(!new), R(!new)>(f: T -> R, s: State<T, R>, input: seq<T>, amount: nat,
                                                         lazy: bool)
    requires CallInv(f, s) && s.phase == Identified
    ensures AlwaysRight(f, Installed(s, input, amount, lazy), input) <==>
            var whole := s.iterating || !lazy || |input| <= amount;
            (!ErrorFree(s) || (s.taken == [] && whole) || (!whole && Coincides(f, s, input, amount)))
  {
    var u := Installed(s, input, amount, lazy);
    var whole := s.iterating || !lazy || |input| <= amount;
    StepKeeps(f, s, Event<T>.InstallIterator(input, amount, lazy));
    if !ErrorFree(s) {
      forall es, t | CallRun(f, u, es, t) ensures !Finished(t) { FailedNeverFinishes(f, u, es, t); }
    } else if whole {
      WholeExactly(f, s, input, amount, lazy);
    } else {
      LosingExactly(f, s, input, amount, lazy);
    }
  }

  lemma {:induction false} WholeExactly<T(!new), R(!new)>(f: T -> R, s: State<T, R>, input: seq<T>, amount: nat,
                                                          lazy: bool)
    requires CallInv(f, s) && s.phase == Identified && ErrorFree(s) && (s.iterating || !lazy || |input| <= amount)
    ensures AlwaysRight(f, Installed(s, input, amount, lazy), input) <==> s.taken == []
  {
    hide CallInv, CallRun;
    var u := Installed(s, input, amount, lazy);
    StepKeeps(f, s, Event<T>.InstallIterator(input, amount, lazy));
    if s.taken == [] {
      forall es, t | CallRun(f, u, es, t) && Finished(t) ensures Right(f, t, input) {
        CallYields(f, s, input, amount, lazy, es, t);
        assert t.taken == input && t.ordered == s.ordered by { RunKeeps(f, u, es, t); }
      }
    } else if AlwaysRight(f, u, input) {
      var es, t := GreedyRun(f, u);
      RightLength(f, t, input);
      CallYields(f, s, input, amount, lazy, es, t);
      SuffixDone(f, t);
    }
  }

  lemma {:induction false} LosingExactly<T(!new), R(!new)>(f: T -> R, s: State<T, R>, input: seq<T>, amount: nat,
                                                           lazy: bool)
    requires CallInv(f, s) && s.phase == Identified && ErrorFree(s) && !s.iterating && lazy && amount < |input|
    ensures AlwaysRight(f, Installed(s, input, amount, lazy), input) <==> Coincides(f, s, input, amount)
  {
    hide CallInv, CallRun, Spent;
    var u := Installed(s, input, amount, lazy);
    StepKeeps(f, s, Event<T>.InstallIterator(input, amount, lazy));
    SameSpent(s, u);
    if Coincides(f, s, input, amount) {
      forall es, t | CallRun(f, u, es, t) && Finished(t) ensures Right(f, t, input) {
        CallYields(f, s, input, amount, lazy, es, t);
        ExhaustedRun(f, u, es, t);
        assert t.ordered == s.ordered by { RunKeeps(f, u, es, t); }
      }
    }
    if AlwaysRight(f, u, input) { RightCoincides(f, s, input, amount, lazy); }
  }

  lemma {:induction false} RightCoincides<T(!new), R(!new)>(f: T -> R, s: State<T, R>, input: seq<T>, amount: nat,
                                                            lazy: bool)
    requires CallInv(f, s) && s.phase == Identified && ErrorFree(s) && !s.iterating && lazy && amount < |input|
    requires AlwaysRight(f, Installed(s, input, amount, lazy), input)
    ensures Coincides(f, s, input, amount)
  {
    hide CallInv, CallRun, Spent;
    var u := Installed(s, input, amount, lazy);
    StepKeeps(f, s, Event<T>.InstallIterator(input, amount, lazy));
    SameSpent(s, u);
    LosingIsWrong(f, u, input);
    var es, t := GreedyRun(f, u);
    CallYields(f, s, input, amount, lazy, es, t);
    assert t.ordered == s.ordered by { RunKeeps(f, u, es, t); }
    assert t.taken == s.taken + input[..0] == s.taken;
    assert Right(f, t, input);
  }

  lemma SameSpent<T, R>(s: State<T, R>, t: State<T, R>)
    requires t.past == s.past && t.own == s.own
    ensures Spent(t) <==> Spent(s)
  {
    assert forall i :: 0 <= i < Size(s) ==> At(t, i) == At(s, i);
  }

  /** The run that loses the tail, for every input and every amount short of it. */
  lemma {:induction false} LostTail<T, R>(f: T -> R, s: State<T, R>, input: seq<T>, amount: nat)
      returns (es: seq<Event<T>>, t: State<T, R>)
    requires CallInv(f, s) && s.phase == Identified && ErrorFree(s) && !s.iterating && amount < |input|
    ensures CallRun(f, Installed(s, input, amount, true), es, t) && Finished(t)
    ensures t.taken == s.taken + input[..amount] && t.source == input[amount..]
    ensures s.ordered ==> t.yielded == Map(f, s.taken + input[..amount])
    ensures multiset(t.yielded) == multiset(Map(f, s.taken + input[..amount]))
  {
    var u := Installed(s, input, amount, true);
    StepKeeps(f, s, Event<T>.InstallIterator(input, amount, true));
    es, t := GreedyRun(f, u);
    CallYields(f, s, input, amount, true, es, t);
    RunKeeps(f, u, es, t);
    assert t.source == (t.taken + t.source)[|t.taken|..] && (s.taken + input)[|s.taken| + amount..] == input[amount..];
  }

  // ---------------------------------------------------------------- the law, both ways

  /** A run of a call none of whose own tasks failed does not come to an error, and goes on until it is
      finished. */
  ghost predicate GoesOn<T(!new), R(!new)>(f: T -> R, u: State<T, R>) {
    forall es, t :: CallRun(f, u, es, t) && ErrorFree(t) ==> CanGoOn(t)
  }

  ghost predicate CanGoOn<T(!new), R(!new)>(t: State<T, R>) {
    !Failing(t) && (Finished(t) || exists e :: Useful(t, e))
  }

  /** Whatever its start was and whatever it is given, the call goes on to its end and is right. */
  ghost predicate Reliable<T(!new), R(!new)>(f: T -> R, s: State<T, R>) {
    forall input, amount, lazy ::
      AlwaysRight(f, Installed(s, input, amount, lazy), input) && GoesOn(f, Installed(s, input, amount, lazy))
  }

  ghost predicate ReliableStart<T(!new), R(!new)>(f: T -> R, r: State<T, R>) {
    forall w, u, id, v, s :: Opening(f, r, w, u, id, v, s) ==> Reliable(f, s)
  }

  lemma {:induction false} FreshIsReliable<T(!new), R(!new)>(f: T -> R, s: State<T, R>)
    requires Fresh(f, s)
    ensures Reliable(f, s)
  {
    hide CallInv, CallRun, GoesOn;
    forall input, amount, lazy
      ensures AlwaysRight(f, Installed(s, input, amount, lazy), input) && GoesOn(f, Installed(s, input, amount, lazy)) {
      CallExactly(f, s, input, amount, lazy);
      FreshDrains(f, s, input, amount, lazy);
      InvGoesOn(f, Installed(s, input, amount, lazy));
    }
  }

  lemma {:induction false} InvGoesOn<T(!new), R(!new)>(f: T -> R, u: State<T, R>)
    requires CallInv(f, u) && Started(u)
    ensures GoesOn(f, u)
  {
    hide CallInv, CallRun, ErrorFree;
    forall es, t | CallRun(f, u, es, t) && ErrorFree(t) ensures CanGoOn(t) {
      RunKeeps(f, u, es, t);
      if !Finished(t) { var e := Progress(f, t); }
    }
  }

  /** A call that was given a task of the old iterator, or has stopped iterating, is wrong on some input. */
  lemma {:induction false} DisturbedIsWrong<T(!new), R(!new)>(f: T -> R, s: State<T, R>, a: T)
    requires CallInv(f, s) && s.phase == Identified && ErrorFree(s) && (s.taken != [] || !s.iterating)
    ensures !Reliable(f, s)
  {
    hide CallInv, GoesOn, AlwaysRight;
    if s.taken != [] {
      CallExactly(f, s, [], 0, true);
      assert !AlwaysRight(f, Installed(s, [], 0, true), []);
    } else {
      CallExactly(f, s, [a], 0, true);
      assert |multiset(Map(f, [a]))| == 1 && multiset(Map(f, s.taken)) == multiset{};
      assert !AlwaysRight(f, Installed(s, [a], 0, true), [a]);
    }
  }

  /** A failed batch of the old call in the queue: an error-free call comes to its error. */
  lemma {:induction false} ForeignErrorStops<T(!new), R(!new)>(f: T -> R, s: State<T, R>, i: nat, a: T)
    requires s.phase == Identified && !s.ordered && s.iterating && !s.aborting && s.own == [] && s.outputs == []
    requires s.jobs == [i] && i < |s.past| && s.past[i].status == Error && s.nDispatched == s.nCompleted == 0
    ensures !Reliable(f, s)
  {
    var u := Installed(s, [a], 1, true);
    var m := Apply(f, u, Event<T>.PreDispatch(1));
    var t := Apply(f, m, Event<T>.PreDispatch(1));
    assert ErrorFree(t) && Failing(t);
    hide Apply, Reliable, Failing;
    RunFirst(f, m, Event<T>.PreDispatch(1), [], t);
    RunFirst(f, u, Event<T>.PreDispatch(1), [PreDispatch(1)] + [], t);
    assert !GoesOn(f, u);
    Unreliable(f, s, [a], 1, true);
  }

  lemma Unreliable<T(!new), R(!new)>(f: T -> R, s: State<T, R>, input: seq<T>, amount: nat, lazy: bool)
    requires !GoesOn(f, Installed(s, input, amount, lazy))
    ensures !Reliable(f, s)
  {
  }

  /** The law of `Parallel.__call__`, both ways. Once the counters are reset: whatever callbacks of
      earlier calls do before the call runs, and whatever its input, pre-dispatch amount and batching,
      every finished run yields the map of the input (or a permutation of it), and no run without a
      failing task of its own raises or gets stuck, if and only if no callback is loose. */
  lemma {:induction false} ReliableExactly<T(!new), R(!new)>(f: T -> R, r: State<T, R>, a: T)
    requires Quiet(r) && r.phase == Cleared
    ensures ReliableStart(f, r) <==> !MayIntrude(r)
  {
    hide Quiet, Reliable, Fresh, Opening;
    if MayIntrude(r) {
      var w, u, id, v, s := WrongStart(f, r, a);
    } else {
      forall w, u, id, v, s | Opening(f, r, w, u, id, v, s) ensures Reliable(f, s) {
        OpeningStays(f, r, w, u, id, v, s);
        FreshIsReliable(f, s);
      }
    }
  }

  /** With a callback between its sections and a lazily consumed old iterator the fresh call is disturbed. */
  lemma {:induction false} WrongRenewal<T(!new), R(!new)>(f: T -> R, u: State<T, R>, i: nat, a: T)
      returns (id: nat, v: seq<Event<T>>, s: State<T, R>)
    requires Quiet(u) && u.phase == Cleared && u.lazy && i < Size(u) && At(u, i).stage == Succeeded
    ensures Enabled(u, Event<T>.InstallId(id)) && Callbacks(f, Apply(f, u, Event<T>.InstallId(id)), v, s)
    ensures !Reliable(f, s)
  {
    hide CallInv, Reliable, Callbacks;
    id := UnusedId(u, Size(u));
    InstallIdOpens(f, u, id);
    var m := Apply(f, u, Event<T>.InstallId(id));
    assert At(m, i) == At(u, i);
    v, s := [Event<T>.DispatchNew(i, 1)], Apply(f, m, Event<T>.DispatchNew(i, 1));
    OneCallback(f, m, Event<T>.DispatchNew(i, 1));
    StepKeeps(f, m, Event<T>.DispatchNew(i, 1));
    DisturbedIsWrong(f, s, a);
  }

  lemma {:induction false} WrongStart<T(!new), R(!new)>(f: T -> R, r: State<T, R>, a: T)
      returns (w: seq<Event<T>>, u: State<T, R>, id: nat, v: seq<Event<T>>, s: State<T, R>)
    requires Quiet(r) && r.phase == Cleared && MayIntrude(r)
    ensures Opening(f, r, w, u, id, v, s) && !Reliable(f, s)
  {
    hide Reliable, Callbacks;
    var i :| 0 <= i < Size(r) && Loose(r, At(r, i));
    w, u := [], r;
    NoCallback(f, r);
    if At(r, i).stage == InFlight {
      var e := Event<T>.Finish(i, r.ordered);
      w, u := [e], Apply(f, r, e);
      OneCallback(f, r, e);
    }
    if r.lazy && At(u, i).stage == Succeeded {
      id, v, s := WrongRenewal(f, u, i, a);
    } else {
      id := UnusedId(u, Size(u));
      v, s := [], Apply(f, u, Event<T>.InstallId(id));
      NoCallback(f, s);
      assert s.past[i] == At(u, i);
      ForeignErrorStops(f, s, i, a);
    }
  }

  // ---------------------------------------------------------------- once the call has started

  /** A callback of an earlier call adds nothing to the job queue or the output of the current call:
      its first section changes only itself, and its second section at most dispatches one more
      batch of the current call's own input. */
  lemma {:induction false} PastCallbackIsolated<T, R>(f: T -> R, s: State<T, R>, e: Event<T>)
    requires CallInv(f, s) && Started(s) && IsCallback(e) && Enabled(s, e) && e.i < |s.past|
    ensures var t := Apply(f, s, e);
            && t.yielded == s.yielded && t.outputs == s.outputs && s.jobs <= t.jobs
            && s.own <= t.own && |t.own| <= |s.own| + 1
            && (e.Finish? ==> t == s.(past := t.past))
            && (!s.ordered ==> t.jobs == s.jobs)
            && t.taken + t.source == s.taken + s.source
  {
    hide Map, Books, Flat;
    StepStays(f, s, e);
  }

  // ---------------------------------------------------------------- all of this happens

  lemma {:induction false} StepsThen<T, R>(f: T -> R, s: State<T, R>, es: seq<Event<T>>, t: State<T, R>, e: Event<T>)
      returns (es': seq<Event<T>>, t': State<T, R>)
    requires Steps(f, s, es, t) && Enabled(t, e)
    ensures Steps(f, s, es', t') && es' == es + [e] && t' == Apply(f, t, e)
    decreases |es|
  {
    hide Apply, Enabled;
    es', t' := es + [e], Apply(f, t, e);
    if es == [] {
      assert es'[1..] == [] && Steps(f, t', [], t');
    } else {
      var rest, _ := StepsThen(f, Apply(f, s, es[0]), es[1..], t, e);
      assert es'[1..] == rest;
    }
  }

  lemma {:induction false} StepsRun<T, R>(f: T -> R, s: State<T, R>, first: seq<Event<T>>, m: State<T, R>,
                                          second: seq<Event<T>>, t: State<T, R>)
    requires Steps(f, s, first, m) && CallRun(f, m, second, t)
    ensures Steps(f, s, first + second, t)
    decreases |second|
  {
    hide Apply, Enabled, Continues;
    if second == [] {
      assert first + second == first;
    } else {
      var es, n := StepsThen(f, s, first, m, second[0]);
      StepsRun(f, s, es, n, second[1..], t);
      assert es + second[1..] == first + second;
    }
  }

  /** A new object, in its first call with one task dispatched and about to be renewed. */
  lemma {:induction false} FirstCall<T, R>(f: T -> R, ordered: bool, x: T, rest: seq<T>)
      returns (es: seq<Event<T>>, t: State<T, R>)
    ensures Steps(f, New(ordered), es, t) && t.ordered == ordered && t.phase == Priming && t.callId == 1
    ensures t.lazy && t.iterating && !t.aborting && t.slice == 0 && t.source == rest && t.past == []
    ensures t.own == [Callback(1, [x], Done, [f(x)], Succeeded, false)] && t.jobs == [0] && t.outputs == []
    ensures t.nDispatched == 1 && t.nCompleted == 0
  {
    hide Steps;
    es, t := FirstIterator<T, R>(f, ordered, [x] + rest);
    es, t := StepsThen(f, New(ordered), es, t, Event<T>.PreDispatch(1));
    assert t.own == [Callback(1, [x], Pending, [], InFlight, false)];
    es, t := StepsThen(f, New(ordered), es, t, Event<T>.Finish(0, true));
    assert Map(f, [x]) == [f(x)];
  }

  lemma {:induction false} FirstIterator<T, R>(f: T -> R, ordered: bool, input: seq<T>)
      returns (es: seq<Event<T>>, t: State<T, R>)
    ensures Steps(f, New(ordered), es, t)
    ensures t == New(ordered).(phase := Priming, callId := 1, iterating := true, source := input, slice := 1,
                               lazy := true)
  {
    hide Steps;
    es, t := [], New(ordered);
    NoSteps(f, t);
    es, t := StepsThen(f, New(ordered), es, t, Event<T>.Reset);
    es, t := StepsThen(f, New(ordered), es, t, Event<T>.InstallId(1));
    es, t := StepsThen(f, New(ordered), es, t, Event<T>.InstallIterator(input, 1, true));
  }

  lemma NoSteps<T, R>(f: T -> R, s: State<T, R>)
    ensures Steps(f, s, [], s)
  {
  }

  /** The second call of an object whose first left its only callback between its sections. */
  lemma {:induction false} SecondCall<T, R>(f: T -> R, n: State<T, R>, es0: seq<Event<T>>, r: State<T, R>)
      returns (es: seq<Event<T>>, t: State<T, R>)
    requires Steps(f, n, es0, r) && Quiet(r) && r.phase == Cleared && r.lazy && r.past == []
    requires |r.own| == 1 && r.own[0].callId == 1 && r.own[0].stage == Succeeded
    ensures Steps(f, n, es, t) && CallInv(f, t) && ErrorFree(t) && t.phase == Identified && t.ordered == r.ordered
    ensures if r.source == [] then t.taken == [] && !t.iterating else t.taken == [r.source[0]] && t.iterating
  {
    hide Steps, CallInv;
    var m;
    es, m := StepsThen(f, n, es0, r, Event<T>.InstallId(2));
    InstallIdOpens(f, r, 2);
    assert At(m, 0).stage == Succeeded;
    StepKeeps(f, m, Event<T>.DispatchNew(0, 1));
    es, t := StepsThen(f, n, es, m, Event<T>.DispatchNew(0, 1));
  }

  /** From a new object: a call is stopped while a callback is between its sections, and the next call
      yields the result of a task of the old iterator before those of its own input. */
  lemma {:induction false} StoppedCallIntrudes<T, R>(f: T -> R, ordered: bool, x: T, y: T, input: seq<T>)
      returns (es: seq<Event<T>>, t: State<T, R>)
    ensures Steps(f, New(ordered), es, t) && Finished(t) && t.ordered == ordered
    ensures if ordered then t.yielded == Map(f, [y] + input) else multiset(t.yielded) == multiset(Map(f, [y] + input))
  {
    hide Steps, CallInv, ErrorFree, CallRun;
    es, t := FirstCall(f, ordered, x, [y]);
    es, t := StepsThen(f, New(ordered), es, t, Event<T>.Stop);
    es, t := StepsThen(f, New(ordered), es, t, Event<T>.Reset);
    es, t := SecondCall(f, New(ordered), es, t);
    var s := t;
    es, t := StepsThen(f, New(ordered), es, s, Event<T>.InstallIterator(input, 1, true));
    StepKeeps(f, s, Event<T>.InstallIterator(input, 1, true));
    StaysErrorFree(f, s, Event<T>.InstallIterator(input, 1, true));
    var es2, t2 := GreedyRun(f, t);
    CallYields(f, s, input, 1, true, es2, t2);
    RunKeeps(f, t, es2, t2);
    StepsRun(f, New(ordered), es, t, es2, t2);
    es, t := es + es2, t2;
  }

  /** From a new object: a call runs to its end, and the next one, with any input and any amount short
      of it, yields only what it pre-dispatched. */
  lemma {:induction false} CompletedCallIntrudes<T, R>(f: T -> R, ordered: bool, x: T, input: seq<T>, amount: nat)
      returns (es: seq<Event<T>>, t: State<T, R>)
    requires amount < |input|
    ensures Steps(f, New(ordered), es, t) && Finished(t) && t.ordered == ordered
    ensures if ordered then t.yielded == Map(f, input[..amount])
            else multiset(t.yielded) == multiset(Map(f, input[..amount]))
  {
    hide Steps, CallInv, ErrorFree, CallRun;
    es, t := FirstCall(f, ordered, x, []);
    es, t := EndOfFirst(f, New(ordered), es, t);
    es, t := SecondCall(f, New(ordered), es, t);
    var s := t;
    es, t := StepsThen(f, New(ordered), es, s, Event<T>.InstallIterator(input, amount, true));
    var es2, t2 := LostTail(f, s, input, amount);
    RunOrdered(f, s, input, amount, es2, t2);
    StepsRun(f, New(ordered), es, t, es2, t2);
    es, t := es + es2, t2;
    assert [] + input[..amount] == input[..amount];
  }

  lemma {:induction false} RunOrdered<T, R>(f: T -> R, s: State<T, R>, input: seq<T>, amount: nat, es: seq<Event<T>>,
                                            t: State<T, R>)
    requires CallInv(f, s) && s.phase == Identified && CallRun(f, Installed(s, input, amount, true), es, t)
    ensures t.ordered == s.ordered
  {
    StepKeeps(f, s, Event<T>.InstallIterator(input, amount, true));
    RunKeeps(f, Installed(s, input, amount, true), es, t);
  }

  /** The first call is stopped, and the next one reset, before a callback renews a batch: the tasks
      counted and, in ordered mode, queued are those of the old call. */
  lemma {:induction false} EarlyRenewal<T, R>(f: T -> R, ordered: bool, x: T, y: T)
      returns (es: seq<Event<T>>, t: State<T, R>)
    ensures Steps(f, New(ordered), es, t) && t.ordered == ordered && t.phase == Cleared && t.callId == 1
    ensures t.iterating && !t.aborting && t.source == [] && t.past == [] && t.outputs == [] && t.yielded == []
    ensures |t.own| == 2 && t.own[0].stage == Over && t.own[0].callId == 1
    ensures t.own[1] == Callback(1, [y], Pending, [], InFlight, false)
    ensures t.jobs == (if ordered then [1] else []) && t.nDispatched == 1 && t.nCompleted == 0
  {
    hide Steps;
    es, t := FirstCall(f, ordered, x, [y]);
    es, t := StepsThen(f, New(ordered), es, t, Event<T>.Stop);
    es, t := StepsThen(f, New(ordered), es, t, Event<T>.Reset);
    assert At(t, 0).stage == Succeeded;
    es, t := StepsThen(f, New(ordered), es, t, Event<T>.DispatchNew(0, 1));
  }

  /** From a new object, in ordered mode: the call after an early renewal, with no input at all, yields the result
      of a task of the old one. It has taken nothing and is iterating when it starts. */
  lemma {:induction false} ForeignResult<T, R>(f: T -> R, x: T, y: T) returns (es: seq<Event<T>>, t: State<T, R>)
    ensures Steps(f, New(true), es, t) && Finished(t) && t.callId == 2 && t.taken == [] && t.yielded == [f(y)]
  {
    hide Steps;
    es, t := EarlyRenewal(f, true, x, y);
    es, t := StepsThen(f, New(true), es, t, Event<T>.Finish(1, true));
    assert Map(f, [y]) == [f(y)];
    es, t := StepsThen(f, New(true), es, t, Event<T>.InstallId(2));
    es, t := StepsThen(f, New(true), es, t, Event<T>.InstallIterator([], 1, true));
    es, t := ConsumeForeign(f, New(true), es, t, f(y));
  }

  lemma {:induction false} ConsumeForeign<T, R>(f: T -> R, n: State<T, R>, es0: seq<Event<T>>, s: State<T, R>, y: R)
      returns (es: seq<Event<T>>, t: State<T, R>)
    requires Steps(f, n, es0, s) && s.phase == Priming && s.lazy && s.iterating && !s.aborting && s.source == []
    requires s.jobs == [1] && |s.past| == 2 && s.past[1].status == Done && s.past[1].result == [y]
    requires s.outputs == [] && s.yielded == [] && s.nDispatched == 1 && s.nCompleted == 0
    ensures Steps(f, n, es, t) && Finished(t) && t.callId == s.callId && t.taken == s.taken && t.yielded == [y]
  {
    hide Steps;
    es, t := StepsThen(f, n, es0, s, Event<T>.PreDispatch(1));
    es, t := StepsThen(f, n, es, t, Event<T>.Load);
    es, t := StepsThen(f, n, es, t, Event<T>.Yield);
    es, t := StepsThen(f, n, es, t, Event<T>.Pull(1));
  }

  /** From a new object, in unordered mode: a call is stopped with a batch in flight, which fails after
      the reset of the next call; and that call, none of whose own tasks failed, comes to its error. */
  lemma {:induction false} ForeignError<T, R>(f: T -> R, x: T, a: T) returns (es: seq<Event<T>>, t: State<T, R>)
    ensures Steps(f, New(false), es, t) && t.callId == 2 && t.taken == [a] && ErrorFree(t) && Failing(t)
  {
    hide Steps;
    es, t := FirstIterator(f, false, [x]);
    assert [x][..1] == [x];
    es, t := StepsThen(f, New(false), es, t, Event<T>.PreDispatch(1));
    assert t.own == [Callback(1, [x], Pending, [], InFlight, false)];
    es, t := StepsThen(f, New(false), es, t, Event<T>.Stop);
    es, t := StepsThen(f, New(false), es, t, Event<T>.Reset);
    es, t := StepsThen(f, New(false), es, t, Event<T>.Finish(0, false));
    es, t := StepsThen(f, New(false), es, t, Event<T>.InstallId(2));
    es, t := PrimeOne(f, New(false), es, t, a);
  }

  lemma {:induction false} PrimeOne<T, R>(f: T -> R, n: State<T, R>, es0: seq<Event<T>>, s: State<T, R>, a: T)
      returns (es: seq<Event<T>>, t: State<T, R>)
    requires Steps(f, n, es0, s) && s.phase == Identified && !s.ordered && s.iterating && s.own == [] && s.taken == []
    requires s.jobs == [0] && |s.past| == 1 && s.past[0].status == Error && s.outputs == []
    requires s.nDispatched == 0 && s.nCompleted == 0
    ensures Steps(f, n, es, t) && t.callId == s.callId && t.taken == [a] && ErrorFree(t) && Failing(t)
  {
    hide Steps;
    assert [a][..1] == [a];
    es, t := StepsThen(f, n, es0, s, Event<T>.InstallIterator([a], 1, true));
    es, t := StepsThen(f, n, es, t, Event<T>.PreDispatch(1));
    assert t.own == [Callback(s.callId, [a], Pending, [], InFlight, false)];
    es, t := StepsThen(f, n, es, t, Event<T>.PreDispatch(1));
  }

  /** From a new object, in unordered mode: the call after an early renewal waits for ever for a batch
      whose completion is dropped, because it belongs to the old call. */
  lemma {:induction false} HangingCall<T, R>(f: T -> R, x: T, y: T) returns (es: seq<Event<T>>, t: State<T, R>)
    ensures Steps(f, New(false), es, t) && t.callId == 2 && Started(t) && ErrorFree(t) && !Finished(t)
    ensures forall e :: Continues(e) ==> !Enabled(t, e)
  {
    hide Steps;
    es, t := EarlyRenewal(f, false, x, y);
    es, t := StepsThen(f, New(false), es, t, Event<T>.InstallId(2));
    es, t := StepsThen(f, New(false), es, t, Event<T>.InstallIterator([], 1, true));
    assert t.past[1].stage == InFlight && t.past[1].callId == 1;
    es, t := StepsThen(f, New(false), es, t, Event<T>.Finish(1, true));
    es, t := StepsThen(f, New(false), es, t, Event<T>.PreDispatch(1));
  }

  /** The first call goes on to its end without the second section of its only callback. */
  lemma {:induction false} EndOfFirst<T, R>(f: T -> R, n: State<T, R>, es0: seq<Event<T>>, s: State<T, R>)
      returns (es: seq<Event<T>>, t: State<T, R>)
    requires Steps(f, n, es0, s) && s.phase == Priming && s.lazy && s.iterating && !s.aborting
    requires s.slice == 0 && s.source == [] && s.past == [] && s.jobs == [0] && s.outputs == []
    requires |s.own| == 1 && s.own[0].callId == 1 && s.own[0].stage == Succeeded && s.own[0].status == Done
    requires |s.own[0].result| == 1 && s.nDispatched == 1 && s.nCompleted == 0
    ensures Steps(f, n, es, t) && Quiet(t) && t.phase == Cleared && t.lazy && t.past == [] && t.source == []
    ensures t.ordered == s.ordered && |t.own| == 1 && t.own[0].callId == 1 && t.own[0].stage == Succeeded
  {
    hide Steps;
    es, t := StepsThen(f, n, es0, s, Event<T>.PreDispatch(1));
    es, t := StepsThen(f, n, es, t, Event<T>.Load);
    es, t := StepsThen(f, n, es, t, Event<T>.Yield);
    es, t := StepsThen(f, n, es, t, Event<T>.Pull(1));
    es, t := StepsThen(f, n, es, t, Event<T>.Complete);
    es, t := StepsThen(f, n, es, t, Event<T>.Reset);
  }
}
