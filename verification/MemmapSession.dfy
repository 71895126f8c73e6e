/** Whole runs of arrays, pickles and workers: whatever ids are recycled, a worker gets the contents of
    the very array that was pickled. */
module MemmapSession {
  import opened Tracker
  import opened WeakKeys
  import opened MemmapReducer
  import opened Wrappers

  datatype Action =
    | Allocated(obj: Obj, id: nat) | Collected(obj: Obj) | Callback(key: nat)
    | PickleArray(obj: Obj, folder: nat, uuid: nat)
    | WorkerLoads(file: File) | WorkerCollects(file: File) | Releases(file: File) | TrackerTurn

  /** What was written under a base name stays what it was. */
  ghost predicate Extends<V>(later: map<nat, V>, earlier: map<nat, V>) {
    forall k :: k in earlier ==> k in later && later[k] == earlier[k]
  }

  /** What a session can be seen to be: the heap, the reference protocol, and the base name of each array. */
  datatype Snapshot = Snapshot(heap: Heap, state: State, names: map<Obj, nat>)

  /** What an action that is possible does, where `large` says of each array whether it is memmapped. */
  ghost predicate Acted(arrays: Obj -> Array, large: Obj -> bool, a: Action, x: Snapshot, y: Snapshot) {
    match a
    case Allocated(obj, id) =>
      y == x.(heap := if x.heap.CanAllocate(obj, id) then x.heap.Allocate(obj, id) else x.heap)
    case Collected(obj) => y == x.(heap := x.heap.Collect(obj))
    case Callback(_) => y == x
    case PickleArray(obj, folder, uuid) =>
      if obj in x.heap.live && large(obj) then
        var base := if obj in x.names then x.names[obj] else uuid;
        y == x.(names := x.names[obj := base], state := Apply(x.state, Pickle(File(folder, base), arrays(obj).data)))
      else y == x
    case WorkerLoads(f) => y == x.(state := if f in x.state.inFlight then Apply(x.state, LoadIn(f)) else x.state)
    case WorkerCollects(f) => y == x.(state := if f in x.state.loaded then Apply(x.state, Collect(f)) else x.state)
    case Releases(f) => y == x.(state := if f in x.state.parent then Apply(x.state, Release(f)) else x.state)
    case TrackerTurn => y == x.(state := if x.state.pipe != [] then Apply(x.state, Turn) else x.state)
  }

  /** What stands under the base name of an array is that array. */
  ghost predicate Faithful(arrays: Obj -> Array, names: map<Obj, nat>, written: Written) {
    forall o :: o in names ==> names[o] in written && written[names[o]] == arrays(o).data
  }

  lemma Recall(arrays: Obj -> Array, names: map<Obj, nat>, written: Written, obj: Obj)
    requires Faithful(arrays, names, written)
    ensures obj in names ==> names[obj] in written && written[names[obj]] == arrays(obj).data
  {
  }

  lemma {:induction false} Recorded(arrays: Obj -> Array, names: map<Obj, nat>, written: Written, obj: Obj, base: nat)
    requires Faithful(arrays, names, written)
    requires if obj in names then base == names[obj] else base !in written
    ensures Faithful(arrays, names[obj := base], written[base := arrays(obj).data])
    ensures Extends(written[base := arrays(obj).data], written) && Extends(names[obj := base], names)
    ensures obj in names ==> names[obj := base] == names
  {
  }

  lemma ExtendsItself<V>(m: map<nat, V>)
    ensures Extends(m, m)
  {
  }

  /** `arrays` gives every array that is ever allocated; arrays do not change. */
  class Session {
    const arrays: Obj -> Array
    const reducer: ArrayMemmapForwardReducer
    const tracker: ResourceTracker
    const names: WeakKeyDictionary<nat>
    var heap: Heap
    var parent: set<File>
    var inFlight: multiset<File>
    var loaded: multiset<File>

    constructor (a: Obj -> Array, r: ArrayMemmapForwardReducer)
      requires Initial(r.state) && r.Valid(Heap(map[], {})) && r.Names() == map[]
      requires forall o :: a(o).obj == o
      ensures arrays == a && reducer == r && tracker == r.tracker && names == r.memmapedArrays
      ensures Valid() && heap == Heap(map[], {})
    {
      arrays, reducer, tracker, names := a, r, r.tracker, r.memmapedArrays;
      heap, parent, inFlight, loaded := Heap(map[], {}), {}, multiset{}, multiset{};
    }

    ghost predicate Valid()
      reads this, reducer, tracker, names
    {
      && tracker == reducer.tracker && names == reducer.memmapedArrays
      && heap.Ok() && reducer.Valid(heap) && (forall o :: arrays(o).obj == o)
      && reducer.state.parent == parent && reducer.state.inFlight == inFlight && reducer.state.loaded == loaded
      && Faithful(arrays, names.contents, reducer.written)
    }

    ghost function Now(): Snapshot
      reads this, reducer, names
    {
      Snapshot(heap, reducer.state, names.contents)
    }

    /** Whether an array is memmapped: raw, no memmap already, and over the limit. */
    predicate IsLarge(obj: Obj) {
      var a := arrays(obj);
      a.memmap.None? && !a.hasObject && reducer.maxNbytes.Some? && |a.data| > reducer.maxNbytes.value
    }

    /** A step of the heap or the dictionary: the reference protocol does not notice. */
    method HeapStep(a: Action)
      requires Valid() && (a.Allocated? || a.Collected? || a.Callback?)
      modifies this`heap, names
      ensures Valid() && names.contents == old(names.contents)
      ensures Acted(arrays, IsLarge, a, old(Now()), Now())
      ensures forall obj, id :: a == Action.Allocated(obj, id) && old(heap).CanAllocate(obj, id) ==>
                obj in heap.live && heap.ids == old(heap).ids[obj := id] && heap.live == old(heap).live + {obj}
      ensures forall obj :: a == Action.Collected(obj) ==>
                heap.ids == old(heap).ids && heap.live == old(heap).live - {obj}
      ensures forall key :: a == Action.Callback(key) && key in old(names.data) ==>
                names.data == if old(names.data)[key].ref in heap.live then old(names.data) else old(names.data) - {key}
    {
      match a {
        case Allocated(obj, id) =>
          names.HeapSteps(heap, obj, id);
          if heap.CanAllocate(obj, id) { heap := heap.Allocate(obj, id); }
        case Collected(obj) =>
          names.HeapSteps(heap, obj, 0);
          heap := heap.Collect(obj);
        case Callback(key) =>
          if key in names.data && names.data[key].ref !in heap.live { names.OnDestroy(key, heap); }
      }
    }

    /** The array is pickled, if it is alive and, being a view of a memmap, still has its file. */
    method PickleStep(obj: Obj, folder: nat, uuid: nat) returns (ghost ts: seq<Tracker.Event>)
      requires Valid() && uuid !in reducer.written
      modifies this`parent, this`inFlight, reducer, tracker, names
      ensures Valid() && Steps(old(reducer.state), ts, reducer.state) && NoRelease(ts)
      ensures Consistent(ts, reducer.written) && Extends(reducer.written, old(reducer.written))
      ensures reducer.written.Keys <= old(reducer.written).Keys + {uuid}
      ensures Extends(names.contents, old(names.contents))
      ensures Acted(arrays, IsLarge, PickleArray(obj, folder, uuid), old(Now()), Now())
    {
      hide Apply, DiskHolds, Named, Load, Slice, Faithful, Extends, ResourceTracker.Stored;
      ts := [];
      ExtendsItself(reducer.written);
      ExtendsItself(names.contents);
      var a := arrays(obj);
      if obj !in heap.live || (a.memmap.Some? && Slice(a.memmap.value, tracker.disk) != Some(a.data)) { return; }
      Recall(arrays, names.contents, reducer.written, obj);
      if !reducer.Large(a) {
        var _ := reducer.Call(a, folder, uuid, heap);
      } else {
        ts := Share(a, folder, uuid);
      }
    }

    method Share(a: Array, folder: nat, uuid: nat) returns (ghost ts: seq<Tracker.Event>)
      requires Valid() && uuid !in reducer.written && a == arrays(a.obj) && a.obj in heap.live
      requires reducer.Large(a) && reducer.Unchanged(a)
      modifies this`parent, this`inFlight, reducer, tracker, names
      ensures Valid() && Steps(old(reducer.state), ts, reducer.state) && NoRelease(ts)
      ensures Consistent(ts, reducer.written) && Extends(reducer.written, old(reducer.written))
      ensures reducer.written.Keys <= old(reducer.written).Keys + {uuid}
      ensures Extends(names.contents, old(names.contents))
      ensures Acted(arrays, IsLarge, PickleArray(a.obj, folder, uuid), old(Now()), Now())
      ensures var f := File(folder, names.contents[a.obj]);
              && a.obj in names.contents && inFlight == old(inFlight) + multiset{f} && f in tracker.disk
              && loaded == old(loaded)
    {
      hide Apply, DiskHolds, Named, Load, Slice, Faithful, Extends, ResourceTracker.Stored;
      hide WeakKeyDictionary.Live, WeakKeyDictionary.Dead, WeakKeyDictionary.Valid, Steps, Enabled, Acted;
      ghost var before := Now();
      ghost var s := reducer.state;
      ghost var was := reducer.written;
      Recall(arrays, names.contents, was, a.obj);
      var known := reducer.temporaryMemmapedFilenames;
      var r := reducer.Call(a, folder, uuid, heap);
      Recorded(arrays, old(names.contents), was, a.obj, r.file.base);
      PickleFields(s, r.file, a.data);
      OneStep(s, Pickle(r.file, a.data));
      if r.file !in known { parent := parent + {r.file}; }
      inFlight := inFlight + multiset{r.file};
      ts := [Pickle(r.file, a.data)];
      PickleActed(arrays, IsLarge, a.obj, folder, uuid, before, Now());
    }

    method LoadStep(f: File) returns (ghost ts: seq<Tracker.Event>)
      requires Valid()
      modifies this`inFlight, this`loaded, reducer`state
      ensures Acted(arrays, IsLarge, WorkerLoads(f), old(Now()), Now())
      ensures f in old(inFlight) ==> inFlight == old(inFlight) - multiset{f} && loaded == old(loaded) + multiset{f}
      ensures Valid() && Steps(old(reducer.state), ts, reducer.state) && Plain(ts) && NoRelease(ts)
    {
      ts := [];
      if f in inFlight {
        OneStep(reducer.state, LoadIn(f));
        ts := [LoadIn(f)];
        inFlight, loaded := inFlight - multiset{f}, loaded + multiset{f};
        reducer.state := Apply(reducer.state, LoadIn(f));
      }
    }

    /** The finalizer of a memmap. */
    method CollectStep(f: File) returns (ghost ts: seq<Tracker.Event>)
      requires Valid()
      modifies this`loaded, reducer`state, tracker`pipe
      ensures Acted(arrays, IsLarge, WorkerCollects(f), old(Now()), Now())
      ensures f in old(loaded) ==>
                && loaded == old(loaded) - multiset{f}
                && tracker.pipe == old(tracker.pipe) + if reducer.unlinkOnGcCollect then [Msg.MaybeUnlink(f)] else []
      ensures Valid() && Steps(old(reducer.state), ts, reducer.state) && Plain(ts) && NoRelease(ts)
    {
      ts := [];
      if f in loaded {
        OneStep(reducer.state, Collect(f));
        ts := [Collect(f)];
        loaded := loaded - multiset{f};
        if reducer.unlinkOnGcCollect { tracker.MaybeUnlink(f); }
        reducer.state := Apply(reducer.state, Collect(f));
      }
    }

    method ReleaseStep(f: File) returns (ghost ts: seq<Tracker.Event>)
      requires Valid()
      modifies this`parent, reducer`state, tracker`pipe
      ensures Acted(arrays, IsLarge, Releases(f), old(Now()), Now())
      ensures f in old(parent) ==>
                parent == old(parent) - {f} && tracker.pipe == old(tracker.pipe) + [Msg.MaybeUnlink(f)]
      ensures Valid() && Steps(old(reducer.state), ts, reducer.state) && Plain(ts)
      ensures ts == [] || ts == [Release(f)]
    {
      ts := [];
      if f in parent {
        OneStep(reducer.state, Release(f));
        ts := [Release(f)];
        parent := parent - {f};
        tracker.MaybeUnlink(f);
        reducer.state := Apply(reducer.state, Release(f));
      }
    }

    method TurnStep() returns (ghost ts: seq<Tracker.Event>)
      requires Valid()
      modifies reducer`state, tracker
      ensures Acted(arrays, IsLarge, TrackerTurn, old(Now()), Now())
      ensures old(tracker.pipe) != [] ==> tracker.pipe == old(tracker.pipe)[1..]
      ensures Valid() && Steps(old(reducer.state), ts, reducer.state) && Plain(ts) && NoRelease(ts)
    {
      ts := [];
      if tracker.pipe != [] {
        ghost var s := reducer.state;
        OneStep(s, Turn);
        ts := [Turn];
        HandleHolds(s.store, tracker.pipe[0], reducer.written);
        var error := tracker.Turn();
        reducer.state := Apply(s, Turn);
      }
    }

    method Step(a: Action) returns (ghost ts: seq<Tracker.Event>)
      requires Valid() && (a.PickleArray? ==> a.uuid !in reducer.written)
      modifies this, reducer, tracker, names
      ensures Valid() && Steps(old(reducer.state), ts, reducer.state) && Consistent(ts, reducer.written)
      ensures Extends(reducer.written, old(reducer.written)) && Extends(names.contents, old(names.contents))
      ensures reducer.written.Keys <= old(reducer.written).Keys + if a.PickleArray? then {a.uuid} else {}
      ensures Acted(arrays, IsLarge, a, old(Now()), Now())
      ensures !a.Releases? ==> NoRelease(ts)
      ensures a.Releases? ==> forall f :: Release(f) in ts ==> f == a.file
    {
      hide Faithful, Apply, Enabled, Acted, Extends, Consistent;
      ExtendsItself(reducer.written);
      ExtendsItself(names.contents);
      match a {
        case PickleArray(obj, folder, uuid) => ts := PickleStep(obj, folder, uuid);
        case WorkerLoads(f) => ts := LoadStep(f);
        case WorkerCollects(f) => ts := CollectStep(f);
        case Releases(f) => ts := ReleaseStep(f);
        case TrackerTurn => ts := TurnStep();
        case _ =>
          HeapStep(a);
          ts := [];
      }
      PlainIsConsistent(ts, reducer.written);
    }

    /** Any sequence of actions is a run of the reference protocol, each of whose pickles is of the array
        its file stands for. Distinct arrays never share a base name. */
    method Replay(es: seq<Action>) returns (ghost ts: seq<Tracker.Event>, ghost log: seq<Snapshot>)
      requires Valid() && FreshNames(es, reducer.written)
      modifies this, reducer, tracker, names
      ensures Valid() && Steps(old(reducer.state), ts, reducer.state) && Consistent(ts, reducer.written)
      ensures forall f :: Release(f) in ts ==> Releases(f) in es
      ensures |log| == |es| + 1 && log[0] == old(Now()) && log[|es|] == Now()
      ensures forall i :: 0 <= i < |es| ==> Acted(arrays, IsLarge, es[i], log[i], log[i + 1])
      ensures forall a, b :: a in names.contents && b in names.contents && a != b ==>
                names.contents[a] != names.contents[b]
    {
      ts, log := [], [Now()];
      for i := 0 to |es|
        invariant |log| == i + 1 && log[0] == old(Now()) && log[i] == Now()
        invariant forall j :: 0 <= j < i ==> Acted(arrays, IsLarge, es[j], log[j], log[j + 1])
        invariant Valid() && Steps(old(reducer.state), ts, reducer.state) && Consistent(ts, reducer.written)
        invariant FreshNames(es[i..], reducer.written)
        invariant forall f :: Release(f) in ts ==> Releases(f) in es
      {
        hide Apply, Enabled, Faithful, Acted;
        FreshTail(es[i..], reducer.written);
        assert es[i..][0] == es[i] && es[i..][1..] == es[i + 1..];
        ghost var was, s := reducer.written, reducer.state;
        ghost var step := Step(es[i]);
        FreshLater(es[i..], was, reducer.written);
        StillConsistent(ts, was, step, reducer.written);
        StepsRun(old(reducer.state), ts, s, step, reducer.state);
        ts, log := ts + step, log + [Now()];
      }
    }

    /** Over any run of allocating, pickling, collecting and reallocating arrays at recycled ids, of
        workers and of the tracker: a worker that loads or holds a pickle of an array finds the contents
        of that very array, as long as the parent does not release the file; and where files are
        unlinked on collection, released or not, unless the run has a hazard. */
    method Run(es: seq<Action>) returns (ghost ts: seq<Tracker.Event>)
      requires Valid() && Initial(reducer.state) && FreshNames(es, reducer.written)
      modifies this, reducer, tracker, names
      ensures Valid() && Steps(old(reducer.state), ts, reducer.state)
      ensures forall o, f :: Sent(o, f) && Releases(f) !in es ==>
                Load(TemporaryMemmap(f), tracker.disk) == Some(arrays(o).data)
      ensures reducer.unlinkOnGcCollect && NoHazard(old(reducer.state), ts) ==>
                forall o, f :: Sent(o, f) ==> Load(TemporaryMemmap(f), tracker.disk) == Some(arrays(o).data)
    {
      hide Faithful;
      ghost var s := reducer.state;
      InitiallySafe(s);
      ghost var log;
      ts, log := Replay(es);
      ghost var t := reducer.state;
      forall o, f | Sent(o, f) && Releases(f) !in es
        ensures Load(TemporaryMemmap(f), tracker.disk) == Some(arrays(o).data) {
        Recall(arrays, names.contents, reducer.written, o);
        UnreleasedMapsItsArray(s, ts, t, reducer.written, f);
      }
      if reducer.unlinkOnGcCollect && NoHazard(s, ts) {
        forall o, f | Sent(o, f) ensures Load(TemporaryMemmap(f), tracker.disk) == Some(arrays(o).data) {
          Recall(arrays, names.contents, reducer.written, o);
          WorkersMapTheirArray(s, ts, t, reducer.written, f);
        }
      }
    }

    /** A pickle of the array names this file, and is on its way to a worker or alive in one. */
    ghost predicate Sent(o: Obj, f: File)
      reads this, names
    {
      o in names.contents && f.base == names.contents[o] && (f in inFlight || f in loaded)
    }
  }

  /** `uuid4` never gives a name twice. */
  ghost predicate FreshNames(es: seq<Action>, written: Written) {
    && (forall i :: 0 <= i < |es| && es[i].PickleArray? ==> es[i].uuid !in written)
    && (forall i, j :: 0 <= i < j < |es| && es[i].PickleArray? && es[j].PickleArray? ==> es[i].uuid != es[j].uuid)
  }

  lemma FreshTail(es: seq<Action>, written: Written)
    requires FreshNames(es, written) && es != []
    ensures es[0].PickleArray? ==> es[0].uuid !in written
  {
  }

  lemma FreshLater(es: seq<Action>, was: Written, now: Written)
    requires FreshNames(es, was) && es != []
    requires now.Keys <= was.Keys + if es[0].PickleArray? then {es[0].uuid} else {}
    ensures FreshNames(es[1..], now)
  {
  }

  lemma StillConsistent(ts: seq<Tracker.Event>, was: Written, more: seq<Tracker.Event>, now: Written)
    requires Consistent(ts, was) && Consistent(more, now) && Extends(now, was)
    ensures Consistent(ts + more, now)
  {
  }

  /** No pickle, and at most one step. */
  ghost predicate Plain(ts: seq<Tracker.Event>) { |ts| <= 1 && forall e :: e in ts ==> !e.Pickle? }

  lemma PickleActed(arrays: Obj -> Array, large: Obj -> bool, obj: Obj, folder: nat, uuid: nat, x: Snapshot,
                    y: Snapshot)
    requires obj in x.heap.live && large(obj) && obj in y.names && y.heap == x.heap
    requires y.names == if obj in x.names then x.names else x.names[obj := uuid]
    requires y.state == Apply(x.state, Pickle(File(folder, y.names[obj]), arrays(obj).data))
    ensures Acted(arrays, large, PickleArray(obj, folder, uuid), x, y)
  {
    assert obj in x.names ==> x.names[obj := x.names[obj]] == x.names;
  }

  lemma PlainIsConsistent(ts: seq<Tracker.Event>, written: Written)
    ensures Plain(ts) ==> Consistent(ts, written)
  {
  }

  ghost predicate NoRelease(ts: seq<Tracker.Event>) { forall e :: e in ts ==> !e.Release? }

  lemma PickleFields(s: State, f: File, data: Content)
    ensures var t := Apply(s, Pickle(f, data));
            && t.parent == (if f in s.known then s.parent else s.parent + {f})
            && t.inFlight == s.inFlight + multiset{f} && t.loaded == s.loaded
  {
  }

  lemma HandleHolds(s: Store, m: Msg, written: Written)
    requires DiskHolds(s.disk, written)
    ensures DiskHolds(Handle(s, m).disk, written)
  {
  }

  lemma OneStep(s: State, e: Tracker.Event)
    requires Enabled(s, e)
    ensures Steps(s, [e], Apply(s, e))
  {
    assert [e][1..] == [] && Steps(Apply(s, e), [], Apply(s, e));
  }
}
