/** `ArrayMemmapForwardReducer`, which turns a large array into a reference to a file, and the
    tracker process it registers those references with. */
module MemmapReducer {
  import opened Tracker
  import opened WeakKeys
  import opened Wrappers

  // ---------------------------------------------------------------- the tracker process

  class ResourceTracker {
    var registry: map<File, nat>
    var disk: map<File, Content>
    var pipe: seq<Msg>

    ghost function Stored(): Store
      reads this
    {
      Store(registry, disk)
    }

    method Register(f: File)
      modifies this`pipe
      ensures pipe == old(pipe) + [Msg.Register(f)]
    {
      pipe := pipe + [Msg.Register(f)];
    }

    method MaybeUnlink(f: File)
      modifies this`pipe
      ensures pipe == old(pipe) + [Msg.MaybeUnlink(f)]
    {
      pipe := pipe + [Msg.MaybeUnlink(f)];
    }

    method Unregister(f: File)
      modifies this`pipe
      ensures pipe == old(pipe) + [Msg.Unregister(f)]
    {
      pipe := pipe + [Msg.Unregister(f)];
    }

    /** Handles the next message; an unlink of a file it does not know is an error it survives. */
    method Turn() returns (error: bool)
      requires pipe != []
      modifies this
      ensures Stored() == Handle(old(Stored()), old(pipe)[0]) && pipe == old(pipe)[1..]
      ensures forall f :: old(pipe)[0] == Msg.Register(f) ==>
                && !error && disk == old(disk) && registry - {f} == old(registry) - {f}
                && f in registry && registry[f] == 1 + if f in old(registry) then old(registry)[f] else 0
      ensures forall f :: old(pipe)[0] == Msg.Unregister(f) ==>
                !error && disk == old(disk) && registry == old(registry) - {f}
      ensures forall f :: old(pipe)[0] == Msg.MaybeUnlink(f) ==>
                if f !in old(registry) || old(registry)[f] == 0
                then error && disk == old(disk) && registry == old(registry)
                else if old(registry)[f] == 1 then !error && disk == old(disk) - {f} && registry == old(registry) - {f}
                else !error && disk == old(disk) && registry == old(registry)[f := old(registry)[f] - 1]
    {
      var m := pipe[0];
      pipe := pipe[1..];
      error := false;
      match m {
        case Register(f) =>
          if f !in registry { registry := registry[f := 1]; }
          else { registry := registry[f := registry[f] + 1]; }
        case Unregister(f) =>
          registry := registry - {f};
        case MaybeUnlink(f) =>
          if f !in registry || registry[f] == 0 {
            error := true;
          } else {
            ghost var before := registry;
            registry := registry[f := registry[f] - 1];
            if registry[f] == 0 {
              registry := registry - {f};
              disk := disk - {f};
              assert registry == before - {f};
            }
          }
      }
    }

    /** The tracker loop, over what is in the pipe. */
    method Loop() returns (errors: nat)
      modifies this
      ensures pipe == [] && Stored() == HandleAll(old(Stored()), old(pipe))
      ensures errors == Errors(old(Stored()), old(pipe))
    {
      hide Handle;
      errors := 0;
      while pipe != []
        invariant HandleAll(Stored(), pipe) == HandleAll(old(Stored()), old(pipe))
        invariant errors + Errors(Stored(), pipe) == Errors(old(Stored()), old(pipe))
        decreases |pipe|
      {
        var error := Turn();
        if error { errors := errors + 1; }
      }
    }
  }

  // ---------------------------------------------------------------- the reducer

  /** The part of a file that a memmap-backed array is a view of. */
  datatype View = View(file: File, start: nat, length: nat)

  datatype Array = Array(obj: Obj, data: Content, hasObject: bool, memmap: Option<View>)

  /** What is sent to the worker: a view of a memmap, the name of a temporary file, or the bytes. */
  datatype Reduced = Strided(view: View) | TemporaryMemmap(file: File) | Bytes(data: Content)

  function Slice(v: View, disk: map<File, Content>): Option<Content> {
    if v.file in disk && v.start + v.length <= |disk[v.file]|
    then Some(disk[v.file][v.start..v.start + v.length]) else None
  }

  /** What the worker gets. */
  function Load(r: Reduced, disk: map<File, Content>): Option<Content> {
    match r
    case Strided(v) => Slice(v, disk)
    case TemporaryMemmap(f) => if f in disk then Some(disk[f]) else None
    case Bytes(data) => Some(data)
  }

  /** What was written under each base name, when arrays do not change after their first dump. */
  type Written = map<nat, Content>

  ghost predicate DiskHolds(disk: map<File, Content>, written: Written) {
    forall f :: f in disk ==> f.base in written && disk[f] == written[f.base]
  }

  /** Distinct arrays have distinct base names. */
  ghost predicate Named(names: map<Obj, nat>, written: Written) {
    && (forall a, b :: a in names && b in names && names[a] == names[b] ==> a == b)
    && (forall a :: a in names ==> names[a] in written)
  }

  lemma {:induction false} DumpHolds(names: map<Obj, nat>, written: Written, disk: map<File, Content>,
                                     obj: Obj, f: File, data: Content)
    requires Named(names, written) && DiskHolds(disk, written)
    requires if obj in names then f.base == names[obj] && written[f.base] == data else f.base !in written
    ensures Named(names[obj := f.base], written[f.base := data])
    ensures DiskHolds(disk, written[f.base := data]) && DiskHolds(disk[f := data], written[f.base := data])
    ensures f in disk ==> disk[f] == data
    ensures obj in names ==> names[obj := f.base] == names && written[f.base := data] == written
  {
  }

  /** `state` is the state of the reference protocol, `written` what each base name stands for. */
  class ArrayMemmapForwardReducer {
    const maxNbytes: Option<nat>
    const unlinkOnGcCollect: bool
    const tracker: ResourceTracker
    const memmapedArrays: WeakKeyDictionary<nat>
    var temporaryMemmapedFilenames: set<File>
    ghost var state: State
    ghost var written: Written

    constructor (max: Option<nat>, unlink: bool, t: ResourceTracker)
      requires t.registry == map[] && t.disk == map[] && t.pipe == []
      ensures tracker == t && maxNbytes == max && unlinkOnGcCollect == unlink
      ensures Initial(state) && written == map[] && fresh(memmapedArrays) && forall h: Heap :: Valid(h)
    {
      maxNbytes, unlinkOnGcCollect, tracker := max, unlink, t;
      memmapedArrays := new WeakKeyDictionary<nat>();
      temporaryMemmapedFilenames := {};
      state := State(unlink, Store(map[], map[]), [], {}, {}, multiset{}, multiset{});
      written := map[];
    }

    ghost predicate Valid(h: Heap)
      reads this, tracker, memmapedArrays
    {
      && memmapedArrays.Valid(h)
      && Mirrored()
      && Named(memmapedArrays.contents, written)
      && DiskHolds(tracker.disk, written)
    }

    ghost predicate Mirrored()
      reads this, tracker
    {
      && state.unlink == unlinkOnGcCollect && state.known == temporaryMemmapedFilenames
      && state.store == tracker.Stored() && state.pipe == tracker.pipe
    }

    /** The array is what it was when it was first dumped. */
    ghost predicate Unchanged(a: Array)
      reads this, memmapedArrays
    {
      a.obj in Names() && Names()[a.obj] in written ==> a.data == written[Names()[a.obj]]
    }

    /** One reference is registered for the worker, where files are unlinked on collection, and one for
        the parent, if the name is new; the file is written unless it is there. */
    ghost predicate Shared(f: File, disk: map<File, Content>, pipe: seq<Msg>, known: set<File>, data: Content)
      reads this, tracker
    {
      && tracker.pipe == pipe + (if unlinkOnGcCollect then [Msg.Register(f)] else [])
                              + (if f in known then [] else [Msg.Register(f)])
      && tracker.disk == (if f in disk then disk else disk[f := data])
      && temporaryMemmapedFilenames == known + {f}
    }

    predicate Large(a: Array) {
      a.memmap.None? && !a.hasObject && maxNbytes.Some? && |a.data| > maxNbytes.value
    }

    /** Reduces an array. The worker will get the contents of this very array, whatever ids, files and
        earlier arrays there were; two arrays never share a base name; and a large array takes
        exactly the pickling step of the reference protocol. */
    method Call(a: Array, folder: nat, uuid: nat, h: Heap) returns (r: Reduced)
      requires h.Ok() && Valid(h) && a.obj in h.live && Unchanged(a) && uuid !in written
      requires a.memmap.Some? ==> Slice(a.memmap.value, tracker.disk) == Some(a.data)
      modifies this, tracker, memmapedArrays
      ensures Valid(h) && Load(r, tracker.disk) == Some(a.data)
      ensures a.memmap.Some? ==> r == Strided(a.memmap.value)
      ensures a.memmap.None? && (a.hasObject || maxNbytes.None? || |a.data| <= maxNbytes.value) ==> r == Bytes(a.data)
      ensures a.memmap.Some? || a.hasObject || maxNbytes.None? || |a.data| <= maxNbytes.value ==>
                unchanged(tracker) && temporaryMemmapedFilenames == old(temporaryMemmapedFilenames)
      ensures a.memmap.None? && !a.hasObject && maxNbytes.Some? && |a.data| > maxNbytes.value ==>
                && r.TemporaryMemmap? && r.file.folder == folder && r.file in tracker.disk
                && Shared(r.file, old(tracker.disk), old(tracker.pipe), old(temporaryMemmapedFilenames), a.data)
      ensures !Large(a) ==> state == old(state) && written == old(written)
                            && memmapedArrays.contents == old(memmapedArrays.contents)
      ensures Large(a) ==> a.obj in Names() && r == TemporaryMemmap(File(folder, Names()[a.obj]))
                           && state == Apply(old(state), Pickle(r.file, a.data))
                           && Names() == (if a.obj in old(Names()) then old(Names()) else old(Names())[a.obj := uuid])
                           && written == old(written)[r.file.base := a.data]
    {
      hide Handle, HandleAll, DiskHolds, memmapedArrays.Live, memmapedArrays.Dead;
      if a.memmap.Some? {
        return Strided(a.memmap.value);
      }
      if a.hasObject || maxNbytes.None? || |a.data| <= maxNbytes.value {
        return Bytes(a.data);
      }
      var known := memmapedArrays.Get(a.obj, h);
      var basename := if known.Some? then known.value else uuid;
      if known.None? {
        memmapedArrays.Set(a.obj, basename, h);
      }
      var filename := File(folder, basename);
      DumpHolds(old(Names()), written, tracker.disk, a.obj, filename, a.data);
      written := written[basename := a.data];
      Share(filename, a.data);
      r := TemporaryMemmap(filename);
    }

    /** Registers the references to a file, and writes it unless it is there. */
    method Share(filename: File, data: Content)
      requires Mirrored()
      modifies this`temporaryMemmapedFilenames, this`state, tracker
      ensures Mirrored() && state == Apply(old(state), Pickle(filename, data))
      ensures Shared(filename, old(tracker.disk), old(tracker.pipe), old(temporaryMemmapedFilenames), data)
    {
      hide Handle, HandleAll;
      var isNewMemmap := filename !in temporaryMemmapedFilenames;
      temporaryMemmapedFilenames := temporaryMemmapedFilenames + {filename};
      if unlinkOnGcCollect { tracker.Register(filename); }
      if isNewMemmap { tracker.Register(filename); }
      if filename !in tracker.disk {
        tracker.disk := tracker.disk[filename := data];
      }
      state := Apply(state, Pickle(filename, data));
    }

    /** The base name of each array ever dumped. */
    ghost function Names(): map<Obj, nat>
      reads this, memmapedArrays
    {
      memmapedArrays.contents
    }
  }

  // ---------------------------------------------------------------- what workers map

  /** Every pickle of the run is one of the array its base name stands for. */
  ghost predicate Consistent(es: seq<Tracker.Event>, written: Written) {
    forall i :: 0 <= i < |es| && es[i].Pickle? ==>
      es[i].file.base in written && written[es[i].file.base] == es[i].content
  }

  lemma {:induction false} StepHolds(s: State, e: Tracker.Event, written: Written)
    requires Inv(s) && DiskHolds(s.store.disk, written) && Enabled(s, e) && Consistent([e], written)
    ensures DiskHolds(Apply(s, e).store.disk, written)
  {
    assert e == [e][0];
  }

  /** Over any run of pickling, loading, collecting, releasing and tracking without a hazard, whatever
      a worker loads or still maps is the array that was pickled. */
  lemma {:induction false} WorkersMapTheirArray(s: State, es: seq<Tracker.Event>, t: State, written: Written, f: File)
    requires Inv(s) && Safe(s) && DiskHolds(s.store.disk, written)
    requires Steps(s, es, t) && NoHazard(s, es) && Consistent(es, written)
    requires f in t.parent || (t.unlink && (f in t.inFlight || f in t.loaded))
    ensures f.base in written && Load(TemporaryMemmap(f), t.store.disk) == Some(written[f.base])
  {
    SafeRun(s, es, t);
    RunHolds(s, es, t, written);
    WorkersFindTheirFiles(t, f);
  }

  /** As long as the parent keeps its reference to a file, hazards of other files or not, whatever a
      worker loads from it or still maps is the array that was pickled. */
  lemma {:induction false} UnreleasedMapsItsArray(s: State, es: seq<Tracker.Event>, t: State, written: Written, f: File)
    requires Inv(s) && DiskHolds(s.store.disk, written) && Steps(s, es, t) && Consistent(es, written)
    requires Untouched(s, f) && forall i :: 0 <= i < |es| ==> es[i] != Release(f)
    requires f in t.inFlight || f in t.loaded
    ensures f.base in written && Load(TemporaryMemmap(f), t.store.disk) == Some(written[f.base])
  {
    UnreleasedIsKept(s, es, t, f);
    RunHolds(s, es, t, written);
  }

  lemma {:induction false} RunHolds(s: State, es: seq<Tracker.Event>, t: State, written: Written)
    requires Inv(s) && DiskHolds(s.store.disk, written) && Steps(s, es, t) && Consistent(es, written)
    ensures DiskHolds(t.store.disk, written)
    decreases |es|
  {
    if es != [] {
      assert Consistent([es[0]], written) && Consistent(es[1..], written);
      StepHolds(s, es[0], written);
      StepKeeps(s, es[0]);
      RunHolds(Apply(s, es[0]), es[1..], t, written);
    }
  }
}
