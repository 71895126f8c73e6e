/** The resource tracker and the references to temporary memmap files it counts.

    The parent registers references when it pickles an array, a worker gives its own up when its
    memmap is collected, and the tracker process reads both from one FIFO pipe. */
module Tracker {
  datatype File = File(folder: nat, base: nat)

  type Content = seq<nat>

  datatype Msg = Register(file: File) | MaybeUnlink(file: File) | Unregister(file: File)

  // ---------------------------------------------------------------- the tracker process

  /** The refcounts (all positive) and the files that exist. */
  datatype Store = Store(registry: map<File, nat>, disk: map<File, Content>)

  function Count(registry: map<File, nat>, f: File): nat { if f in registry then registry[f] else 0 }

  /** One turn of the tracker loop. */
  function Handle(s: Store, m: Msg): Store {
    match m
    case Register(f) => s.(registry := s.registry[f := Count(s.registry, f) + 1])
    case Unregister(f) => s.(registry := s.registry - {f})
    case MaybeUnlink(f) =>
      if Count(s.registry, f) == 0 then s
      else if s.registry[f] == 1 then Store(s.registry - {f}, s.disk - {f})
      else s.(registry := s.registry[f := s.registry[f] - 1])
  }

  function HandleAll(s: Store, ms: seq<Msg>): Store
    decreases |ms|
  {
    if ms == [] then s else HandleAll(Handle(s, ms[0]), ms[1..])
  }

  /** The unlinks that find no count. */
  function Errors(s: Store, ms: seq<Msg>): nat
    decreases |ms|
  {
    if ms == [] then 0
    else (if ms[0].MaybeUnlink? && Count(s.registry, ms[0].file) == 0 then 1 else 0) + Errors(Handle(s, ms[0]), ms[1..])
  }

  /** Messages are handled in the order they come, and an unlink is an error exactly if it finds no count. */
  lemma {:induction false} LastMessage(s: Store, ms: seq<Msg>, m: Msg)
    ensures HandleAll(s, ms + [m]) == Handle(HandleAll(s, ms), m)
    ensures Errors(s, ms + [m]) == Errors(s, ms) +
              if m.MaybeUnlink? && Count(HandleAll(s, ms).registry, m.file) == 0 then 1 else 0
    decreases |ms|
  {
    if ms == [] {
      assert [m][1..] == [];
    } else {
      assert (ms + [m])[0] == ms[0] && (ms + [m])[1..] == ms[1..] + [m];
      LastMessage(Handle(s, ms[0]), ms[1..], m);
    }
  }

  /** What one message does to the count of `f`, for registers and unlinks. */
  function Effect(m: Msg, f: File): int {
    if m == Register(f) then 1 else if m == MaybeUnlink(f) then -1 else 0
  }

  function Net(ms: seq<Msg>, f: File): int {
    if ms == [] then 0 else Net(ms[..|ms| - 1], f) + Effect(ms[|ms| - 1], f)
  }

  lemma {:induction false} NetAppend(ms: seq<Msg>, m: Msg, f: File)
    ensures Net(ms + [m], f) == Net(ms, f) + Effect(m, f)
  {
    assert (ms + [m])[..|ms|] == ms;
  }

  lemma {:induction false} NetTail(ms: seq<Msg>, f: File)
    requires ms != []
    ensures Net(ms, f) == Effect(ms[0], f) + Net(ms[1..], f)
  {
    if |ms| > 1 {
      NetTail(ms[..|ms| - 1], f);
      assert ms[..|ms| - 1][1..] == ms[1..][..|ms| - 2];
    }
  }

  // ---------------------------------------------------------------- the protocol

  /** unlink: `unlink_on_gc_collect`.
      known: the parent's `_temporary_memmaped_filenames`
      parent: those of them whose own reference the parent has not released
      inFlight, loaded: pickles no worker has loaded yet, and memmaps alive in workers */
  datatype State = State(unlink: bool, store: Store, pipe: seq<Msg>, known: set<File>, parent: set<File>,
                         inFlight: multiset<File>, loaded: multiset<File>)

  datatype Event =
    | Pickle(file: File, content: Content) | LoadIn(file: File) | Collect(file: File) | Release(file: File) | Turn

  ghost predicate Enabled(s: State, e: Event) {
    match e
    case Pickle(_, _) => true
    case LoadIn(f) => f in s.inFlight
    case Collect(f) => f in s.loaded
    case Release(f) => f in s.parent
    case Turn => s.pipe != []
  }

  /** The messages `ArrayMemmapForwardReducer.__call__` sends: a reference for the worker, then one for
      the parent itself if the file name is new to it. */
  function Registers(s: State, f: File): seq<Msg> {
    (if s.unlink then [Register(f)] else []) + if f !in s.known then [Register(f)] else []
  }

  function PickleFile(s: State, f: File, content: Content): State {
    s.(pipe := s.pipe + Registers(s, f), known := s.known + {f},
       parent := if f !in s.known then s.parent + {f} else s.parent,
       store := if f in s.store.disk then s.store else s.store.(disk := s.store.disk[f := content]),
       inFlight := s.inFlight + multiset{f})
  }

  function Apply(s: State, e: Event): State {
    match e
    case Pickle(f, content) => PickleFile(s, f, content)
    case LoadIn(f) => s.(inFlight := s.inFlight - multiset{f}, loaded := s.loaded + multiset{f})
    case Collect(f) =>
      s.(loaded := s.loaded - multiset{f}, pipe := if s.unlink then s.pipe + [MaybeUnlink(f)] else s.pipe)
    case Release(f) => s.(parent := s.parent - {f}, pipe := s.pipe + [MaybeUnlink(f)])
    case Turn => if s.pipe == [] then s else s.(store := Handle(s.store, s.pipe[0]), pipe := s.pipe[1..])
  }

  ghost predicate Initial(s: State) {
    && s.store == Store(map[], map[]) && s.pipe == [] && s.known == {} && s.parent == {}
    && s.inFlight == multiset{} && s.loaded == multiset{}
  }

  ghost predicate Steps(s: State, es: seq<Event>, t: State)
    decreases |es|
  {
    if es == [] then s == t else Enabled(s, es[0]) && Steps(Apply(s, es[0]), es[1..], t)
  }

  // ---------------------------------------------------------------- conservation

  /** The references to `f` that somebody holds. */
  function Refs(s: State, f: File): nat {
    (if f in s.parent then 1 else 0) + if s.unlink then s.inFlight[f] + s.loaded[f] else 0
  }

  /** The count of `f` once the first `k` messages of the pipe are handled. */
  function After(s: State, f: File, k: nat): int
    requires k <= |s.pipe|
  {
    Count(s.store.registry, f) + Net(s.pipe[..k], f)
  }

  ghost predicate FileOk(s: State, f: File) {
    && After(s, f, |s.pipe|) == Refs(s, f)
    && (forall k :: 0 <= k <= |s.pipe| ==> After(s, f, k) >= 0)
    && (f in s.parent ==> f in s.known)
  }

  ghost predicate Inv(s: State) {
    && (forall f :: FileOk(s, f))
    && (forall i :: 0 <= i < |s.pipe| ==> !s.pipe[i].Unregister?)
    && (forall f :: f in s.store.registry ==> s.store.registry[f] > 0)
  }

  lemma {:induction false} PushAfter(s: State, t: State, m: Msg, f: File)
    requires t.pipe == s.pipe + [m] && t.store.registry == s.store.registry
    ensures forall k :: 0 <= k <= |s.pipe| ==> After(t, f, k) == After(s, f, k)
    ensures After(t, f, |t.pipe|) == After(s, f, |s.pipe|) + Effect(m, f)
  {
    NetAppend(s.pipe, m, f);
    assert t.pipe[..|t.pipe|] == s.pipe + [m] && s.pipe[..|s.pipe|] == s.pipe;
    forall k | 0 <= k <= |s.pipe| ensures After(t, f, k) == After(s, f, k) { assert t.pipe[..k] == s.pipe[..k]; }
  }

  lemma {:induction false} TurnAfter(s: State, f: File)
    requires s.pipe != [] && !s.pipe[0].Unregister? && After(s, f, 1) >= 0
    requires f in s.store.registry ==> s.store.registry[f] > 0
    ensures forall k :: 0 <= k < |s.pipe| ==> After(Apply(s, Turn), f, k) == After(s, f, k + 1)
  {
    var t := Apply(s, Turn);
    assert s.pipe[..1] == [s.pipe[0]] && s.pipe[..1][..0] == [];
    assert Net(s.pipe[..1], f) == Effect(s.pipe[0], f);
    assert Count(t.store.registry, f) == Count(s.store.registry, f) + Effect(s.pipe[0], f);
    forall k | 0 <= k < |s.pipe| ensures After(t, f, k) == After(s, f, k + 1) {
      NetTail(s.pipe[..k + 1], f);
      assert s.pipe[..k + 1][1..] == t.pipe[..k];
    }
  }

  /** Pushing several messages one by one. */
  function Push(s: State, ms: seq<Msg>): State { s.(pipe := s.pipe + ms) }

  lemma {:induction false} PickleAfter(s: State, g: File, content: Content, f: File)
    ensures var t := Apply(s, Pickle(g, content));
            && |s.pipe| <= |t.pipe|
            && (forall k :: 0 <= k <= |s.pipe| ==> After(t, f, k) == After(s, f, k))
            && (forall k :: |s.pipe| <= k <= |t.pipe| ==> After(t, f, k) >= After(s, f, |s.pipe|))
            && After(t, f, |t.pipe|) == After(s, f, |s.pipe|) + if f == g then |Registers(s, g)| else 0
  {
    hide Net, Count, Handle, After;
    var t := Apply(s, Pickle(g, content));
    var r := Registers(s, g);
    var a := Push(s, [Register(g)]);
    if r == [] {
      SameAfter(s, t, f);
    } else if |r| == 1 {
      PushAfter(s, t, Register(g), f);
    } else {
      PushAfter(s, a, Register(g), f);
      assert t.pipe == a.pipe + [Register(g)];
      PushAfter(a, t, Register(g), f);
      assert Effect(Register(g), f) == if f == g then 1 else 0;
    }
  }

  /** Steps that leave the pipe and the registry alone. */
  lemma {:induction false} SameAfter(s: State, t: State, f: File)
    requires t.pipe == s.pipe && t.store.registry == s.store.registry
    ensures forall k :: 0 <= k <= |s.pipe| ==> After(t, f, k) == After(s, f, k)
  {
  }

  lemma {:induction false} DropKeepsFile(s: State, t: State, g: File, f: File)
    requires FileOk(s, f) && t.pipe == s.pipe + [MaybeUnlink(g)] && t.store.registry == s.store.registry
    requires Refs(t, f) == Refs(s, f) - if f == g then 1 else 0
    requires f in t.parent ==> f in s.parent && f in t.known
    ensures FileOk(t, f)
  {
    PushAfter(s, t, MaybeUnlink(g), f);
  }

  lemma {:induction false} PickleKeepsFile(s: State, g: File, content: Content, f: File)
    requires FileOk(s, f)
    ensures FileOk(Apply(s, Pickle(g, content)), f)
  {
    hide After;
    PickleAfter(s, g, content, f);
  }

  lemma {:induction false} TurnKeepsFile(s: State, f: File)
    requires Inv(s) && s.pipe != []
    ensures FileOk(Apply(s, Turn), f)
  {
    hide Net, Handle, Count, After;
    assert FileOk(s, f);
    TurnAfter(s, f);
  }

  lemma {:induction false} StepKeepsFile(s: State, e: Event, f: File)
    requires Inv(s) && Enabled(s, e)
    ensures FileOk(Apply(s, e), f)
  {
    hide Net, Handle, Count, After, PickleFile;
    var t := Apply(s, e);
    assert FileOk(s, f);
    match e
    case Pickle(g, content) => PickleKeepsFile(s, g, content, f);
    case LoadIn(g) => SameAfter(s, t, f);
    case Collect(g) => if s.unlink { DropKeepsFile(s, t, g, f); } else { SameAfter(s, t, f); }
    case Release(g) => DropKeepsFile(s, t, g, f);
    case Turn => TurnKeepsFile(s, f);
  }

  /** Conservation: for every file and at every moment, the tracker's count plus the queued registers
      minus the queued unlinks is the number of references held; and no unlink ever finds a count
      of zero. */
  lemma {:induction false} StepKeeps(s: State, e: Event)
    requires Inv(s) && Enabled(s, e)
    ensures Inv(Apply(s, e))
  {
    forall f ensures FileOk(Apply(s, e), f) { StepKeepsFile(s, e, f); }
  }

  lemma {:induction false} Conservation(s: State, es: seq<Event>, t: State)
    requires Inv(s) && Steps(s, es, t)
    ensures Inv(t)
    decreases |es|
  {
    if es != [] {
      StepKeeps(s, es[0]);
      Conservation(Apply(s, es[0]), es[1..], t);
    }
  }

  /** Draining the pipe is a run of single turns, and no unlink of it finds a count of zero. */
  lemma {:induction false} DrainIsTurns(s: State) returns (es: seq<Event>)
    requires Inv(s)
    ensures Steps(s, es, s.(store := HandleAll(s.store, s.pipe), pipe := [])) && Errors(s.store, s.pipe) == 0
    ensures forall i :: 0 <= i < |es| ==> es[i] == Turn
    decreases |s.pipe|
  {
    es := [];
    if s.pipe != [] {
      StepKeeps(s, Turn);
      assert FileOk(s, s.pipe[0].file);
      assert s.pipe[..1] == [s.pipe[0]] && s.pipe[..1][..|s.pipe[..1]| - 1] == [];
      assert Net(s.pipe[..1], s.pipe[0].file) == Effect(s.pipe[0], s.pipe[0].file);
      assert After(s, s.pipe[0].file, 1) >= 0;
      hide Inv;
      var rest := DrainIsTurns(Apply(s, Turn));
      es := [Turn] + rest;
      assert es[1..] == rest;
    }
  }

  // ---------------------------------------------------------------- safety

  /** `f` exists, and no queued unlink will remove it. */
  ghost predicate Kept(s: State, f: File) {
    && f in s.store.disk
    && forall k :: 0 < k <= |s.pipe| && s.pipe[k - 1] == MaybeUnlink(f) ==> After(s, f, k) >= 1
  }

  /** A file somebody holds a reference to is there to stay. */
  ghost predicate FileSafe(s: State, f: File) { Refs(s, f) >= 1 ==> Kept(s, f) }

  ghost predicate Safe(s: State) {
    forall f :: FileSafe(s, f)
  }

  /** Pickling an array into a file whose last reference has been given up, before the tracker has
      read the unlink that says so. */
  ghost predicate Hazard(s: State, e: Event) {
    e.Pickle? && Refs(s, e.file) == 0 && MaybeUnlink(e.file) in s.pipe
    && (s.unlink || e.file !in s.known)
  }

  lemma {:induction false} LastUnlink(s: State, f: File, k: nat) returns (i: nat)
    requires k <= |s.pipe| && After(s, f, k) == 0 && MaybeUnlink(f) in s.pipe[..k]
    requires forall j :: 0 <= j <= |s.pipe| ==> After(s, f, j) >= 0
    ensures 0 < i <= k && s.pipe[i - 1] == MaybeUnlink(f) && After(s, f, i) == 0
  {
    assert s.pipe[..k] == s.pipe[..k - 1] + [s.pipe[k - 1]];
    NetAppend(s.pipe[..k - 1], s.pipe[k - 1], f);
    if s.pipe[k - 1] == MaybeUnlink(f) { return k; }
    assert After(s, f, k - 1) >= 0;
    i := LastUnlink(s, f, k - 1);
  }

  /** A hazard breaks safety: the old unlink still removes the file. */
  lemma {:induction false} HazardBreaks(s: State, e: Event) returns (i: nat)
    requires Inv(s) && Hazard(s, e)
    ensures var t := Apply(s, e);
            && !FileSafe(t, e.file) && 0 < i <= |t.pipe| && t.pipe[i - 1] == MaybeUnlink(e.file)
            && After(t, e.file, i) == 0
  {
    var t, g := Apply(s, e), e.file;
    assert FileOk(s, g);
    assert s.pipe[..|s.pipe|] == s.pipe;
    i := LastUnlink(s, g, |s.pipe|);
    PickleAfter(s, g, e.content, g);
    assert t.pipe[i - 1] == MaybeUnlink(g) && After(t, g, i) == 0;
  }

  lemma {:induction false} PickleSafe(s: State, g: File, content: Content, f: File)
    requires FileOk(s, f) && FileSafe(s, f) && (f == g ==> !Hazard(s, Pickle(g, content)))
    ensures FileSafe(PickleFile(s, g, content), f)
  {
    hide After;
    var t := Apply(s, Pickle(g, content));
    PickleAfter(s, g, content, f);
    if Refs(t, f) >= 1 {
      forall k | 0 < k <= |t.pipe| && t.pipe[k - 1] == MaybeUnlink(f) ensures After(t, f, k) >= 1 {
        if k <= |s.pipe| { assert s.pipe[k - 1] == MaybeUnlink(f); }
      }
    }
  }

  lemma {:induction false} DropSafe(s: State, t: State, g: File, f: File)
    requires FileOk(s, f) && FileSafe(s, f) && t.store == s.store && t.pipe == s.pipe + [MaybeUnlink(g)]
    requires Refs(t, f) == Refs(s, f) - if f == g then 1 else 0
    ensures FileSafe(t, f)
  {
    PushAfter(s, t, MaybeUnlink(g), f);
  }

  lemma {:induction false} SameSafe(s: State, t: State, f: File)
    requires FileSafe(s, f) && t.store == s.store && t.pipe == s.pipe && Refs(t, f) == Refs(s, f)
    ensures FileSafe(t, f)
  {
    SameAfter(s, t, f);
  }

  lemma {:induction false} TurnSafe(s: State, f: File)
    requires Inv(s) && FileSafe(s, f) && s.pipe != []
    ensures FileSafe(Apply(s, Turn), f)
  {
    var t := Apply(s, Turn);
    if Refs(t, f) >= 1 {
      assert FileOk(s, f);
      TurnAfter(s, f);
      assert s.pipe[..1] == [s.pipe[0]] && s.pipe[..1][..|s.pipe[..1]| - 1] == [];
      assert Net(s.pipe[..1], f) == Effect(s.pipe[0], f);
      assert s.pipe[0] == MaybeUnlink(f) ==> After(s, f, 1) >= 1;
      assert f in t.store.disk;
      forall k | 0 < k <= |t.pipe| && t.pipe[k - 1] == MaybeUnlink(f) ensures After(t, f, k) >= 1 {
        assert s.pipe[k] == MaybeUnlink(f);
      }
    }
  }

  /** Safety is kept by every step except, exactly, the hazard. */
  lemma {:induction false} SafeExactly(s: State, e: Event)
    requires Inv(s) && Safe(s) && Enabled(s, e)
    ensures Safe(Apply(s, e)) <==> !Hazard(s, e)
  {
    hide Kept, After, FileSafe;
    if Hazard(s, e) {
      var _ := HazardBreaks(s, e);
    } else {
      forall f ensures FileSafe(Apply(s, e), f) { StepSafe(s, e, f); }
    }
  }

  lemma {:induction false} StepSafe(s: State, e: Event, f: File)
    requires Inv(s) && FileSafe(s, f) && Enabled(s, e) && !(Hazard(s, e) && e.file == f)
    ensures FileSafe(Apply(s, e), f)
  {
    hide After, PickleFile, Handle, Net, Hazard, FileSafe, Kept;
    var t := Apply(s, e);
    assert FileOk(s, f);
    match e
    case Pickle(g, content) => PickleSafe(s, g, content, f);
    case LoadIn(g) => SameSafe(s, t, f);
    case Collect(g) => if s.unlink { DropSafe(s, t, g, f); } else { SameSafe(s, t, f); }
    case Release(g) => DropSafe(s, t, g, f);
    case Turn => TurnSafe(s, f);
  }

  /** No step of the run pickles into a file in the hazardous moment. */
  ghost predicate NoHazard(s: State, es: seq<Event>)
    decreases |es|
  {
    es == [] || (Enabled(s, es[0]) && !Hazard(s, es[0]) && NoHazard(Apply(s, es[0]), es[1..]))
  }

  lemma {:induction false} SafeRun(s: State, es: seq<Event>, t: State)
    requires Inv(s) && Safe(s) && Steps(s, es, t) && NoHazard(s, es)
    ensures Inv(t) && Safe(t)
    decreases |es|
  {
    if es != [] {
      StepKeeps(s, es[0]);
      SafeExactly(s, es[0]);
      SafeRun(Apply(s, es[0]), es[1..], t);
    }
  }

  lemma {:induction false} InitiallySafe(s: State)
    requires Initial(s)
    ensures Inv(s) && Safe(s) && Tracked(s)
  {
    assert forall f :: FileOk(s, f) by {
      forall f ensures FileOk(s, f) { assert s.pipe[..0] == []; }
    }
  }

  lemma {:induction false} StepsThen(s: State, es: seq<Event>, t: State, e: Event)
    requires Steps(s, es, t) && Enabled(t, e)
    ensures Steps(s, es + [e], Apply(t, e))
    decreases |es|
  {
    hide Apply;
    if es == [] {
      assert (es + [e])[1..] == [] && Steps(Apply(t, e), [], Apply(t, e));
    } else {
      StepsThen(Apply(s, es[0]), es[1..], t, e);
      assert (es + [e])[1..] == es[1..] + [e];
    }
  }

  lemma {:induction false} Then(s: State, es: seq<Event>, t: State, e: Event) returns (es': seq<Event>, t': State)
    requires Steps(s, es, t) && Enabled(t, e)
    ensures es' == es + [e] && t' == Apply(t, e) && Steps(s, es', t')
  {
    es', t' := es + [e], Apply(t, e);
    StepsThen(s, es, t, e);
  }

  /** The hazard is real: a worker and the parent give a file up before the tracker has read anything. */
  lemma {:induction false} HazardHappens(s: State, f: File, content: Content) returns (es: seq<Event>, t: State)
    requires Initial(s) && s.unlink
    ensures Steps(s, es, t) && Inv(t) && Hazard(t, Pickle(f, content))
  {
    hide Inv, Handle;
    InitiallySafe(s);
    es, t := [], s;
    es, t := Then(s, es, t, Pickle(f, content));
    es, t := Then(s, es, t, LoadIn(f));
    es, t := Then(s, es, t, Collect(f));
    es, t := Then(s, es, t, Release(f));
    assert t.pipe[3] == MaybeUnlink(f);
    Conservation(s, es, t);
  }

  lemma {:induction false} StepsRun(s: State, first: seq<Event>, m: State, second: seq<Event>, t: State)
    requires Steps(s, first, m) && Steps(m, second, t)
    ensures Steps(s, first + second, t)
    decreases |first|
  {
    hide Apply;
    if first == [] {
      assert first + second == second;
    } else {
      StepsRun(Apply(s, first[0]), first[1..], m, second, t);
      assert (first + second)[1..] == first[1..] + second;
    }
  }

  /** The tracker comes to an unlink that leaves no count: the file is removed. */
  lemma {:induction false} TurnsRemove(s: State, f: File, i: nat) returns (es: seq<Event>, t: State)
    requires Inv(s) && 0 < i <= |s.pipe| && s.pipe[i - 1] == MaybeUnlink(f) && After(s, f, i) == 0
    ensures Steps(s, es, t) && f !in t.store.disk && t.inFlight == s.inFlight
    ensures |es| == i && forall k :: 0 <= k < |es| ==> es[k] == Turn
    decreases i
  {
    var u := Apply(s, Turn);
    StepKeeps(s, Turn);
    assert FileOk(s, f);
    TurnAfter(s, f);
    assert s.pipe[..1] == [s.pipe[0]] && s.pipe[..1][..|s.pipe[..1]| - 1] == [];
    assert Net(s.pipe[..1], f) == Effect(s.pipe[0], f);
    hide Inv, Net;
    if i == 1 {
      es, t := [Turn], u;
      assert es[1..] == [] && Steps(u, [], u);
    } else {
      es, t := TurnsRemove(u, f, i - 1);
      ghost var rest := es;
      es := [Turn] + rest;
      assert es[1..] == rest;
    }
  }

  /** Every hazard loses the file: the array is pickled, and once the tracker has come to the old
      unlink the pickle on its way to a worker names a file that is gone. */
  lemma {:induction false} HazardLoses(s: State, e: Event) returns (es: seq<Event>, t: State)
    requires Inv(s) && Hazard(s, e)
    ensures Steps(s, [e] + es, t) && e.file in t.inFlight && e.file !in t.store.disk
    ensures forall k :: 0 <= k < |es| ==> es[k] == Turn
  {
    hide Inv, After, Registers;
    StepKeeps(s, e);
    var i := HazardBreaks(s, e);
    es, t := TurnsRemove(Apply(s, e), e.file, i);
    assert ([e] + es)[1..] == es;
  }

  /** From the beginning: a pickle names a file that is gone. */
  lemma {:induction false} FileLost(s: State, f: File, content: Content) returns (es: seq<Event>, t: State)
    requires Initial(s) && s.unlink
    ensures Steps(s, es, t) && f in t.inFlight && f !in t.store.disk
  {
    hide Inv, Hazard, Steps;
    var first, m := HazardHappens(s, f, content);
    var turns;
    turns, t := HazardLoses(m, Pickle(f, content));
    StepsRun(s, first, m, [Pickle(f, content)] + turns, t);
    es := first + ([Pickle(f, content)] + turns);
  }

  /** Nobody has pickled into the file yet. */
  ghost predicate Untouched(s: State, f: File) {
    f !in s.known && f !in s.inFlight && f !in s.loaded && f !in s.parent && MaybeUnlink(f) !in s.pipe
  }

  /** As long as the parent does not release its reference to a file, the file is kept from its first
      pickling on, whatever happens to other files. */
  lemma {:induction false} UnreleasedIsKept(s: State, es: seq<Event>, t: State, f: File)
    requires Inv(s) && Steps(s, es, t) && forall i :: 0 <= i < |es| ==> es[i] != Release(f)
    requires Untouched(s, f) || (f in s.parent && Kept(s, f))
    ensures Untouched(t, f) || (f in t.parent && Kept(t, f))
    decreases |es|
  {
    hide Inv, Kept;
    if es != [] {
      StepKeeps(s, es[0]);
      StepUnreleased(s, es[0], f);
      UnreleasedIsKept(Apply(s, es[0]), es[1..], t, f);
    }
  }

  lemma {:induction false} StepUnreleased(s: State, e: Event, f: File)
    requires Inv(s) && Enabled(s, e) && e != Release(f)
    requires Untouched(s, f) || (f in s.parent && Kept(s, f))
    ensures Untouched(Apply(s, e), f) || (f in Apply(s, e).parent && Kept(Apply(s, e), f))
  {
    hide Inv, Kept, Apply;
    StepSafe(s, e, f);
    ParentStays(s, e, f);
  }

  lemma {:induction false} PickleTouches(s: State, g: File, content: Content, f: File)
    requires Untouched(s, f) || f in s.parent
    ensures Untouched(PickleFile(s, g, content), f) || f in PickleFile(s, g, content).parent
  {
  }

  lemma {:induction false} ParentStays(s: State, e: Event, f: File)
    requires Enabled(s, e) && e != Release(f) && (Untouched(s, f) || f in s.parent)
    ensures Untouched(Apply(s, e), f) || f in Apply(s, e).parent
  {
    hide Handle, PickleFile;
    match e
    case Turn => assert s.pipe == [s.pipe[0]] + Apply(s, e).pipe;
    case Pickle(g, content) => PickleTouches(s, g, content, f);
    case _ =>
  }

  /** In a safe state no worker loads or holds a memmap whose file was unlinked. */
  lemma {:induction false} WorkersFindTheirFiles(s: State, f: File)
    requires FileSafe(s, f)
    requires f in s.parent || (s.unlink && (f in s.inFlight || f in s.loaded))
    ensures f in s.store.disk
  {
    assert Refs(s, f) >= 1;
  }

  /** Every prefix of the pipe leaves a held file's count at 1 or more once its first register, if
      that is still queued, has been handled. */
  lemma {:induction false} EveryPrefixPositive(s: State, f: File, k: nat)
    requires FileSafe(s, f) && Refs(s, f) >= 1 && k <= |s.pipe|
    requires Count(s.store.registry, f) >= 1 || Register(f) in s.pipe[..k]
    ensures After(s, f, k) >= 1
  {
    assert Kept(s, f);
    if k > 0 {
      assert s.pipe[..k] == s.pipe[..k - 1] + [s.pipe[k - 1]];
      NetAppend(s.pipe[..k - 1], s.pipe[k - 1], f);
      if s.pipe[k - 1] == Register(f) {
        if Count(s.store.registry, f) >= 1 || Register(f) in s.pipe[..k - 1] { EveryPrefixPositive(s, f, k - 1); }
        else { NoRegisterYet(s, f, k - 1); }
      } else if s.pipe[k - 1] != MaybeUnlink(f) {
        EveryPrefixPositive(s, f, k - 1);
      }
    }
  }

  /** Before its first register nothing of a held file is in the pipe. */
  lemma {:induction false} NoRegisterYet(s: State, f: File, k: nat)
    requires Kept(s, f) && k <= |s.pipe| && Count(s.store.registry, f) == 0 && Register(f) !in s.pipe[..k]
    ensures After(s, f, k) == 0
  {
    if k > 0 {
      assert s.pipe[..k] == s.pipe[..k - 1] + [s.pipe[k - 1]];
      NetAppend(s.pipe[..k - 1], s.pipe[k - 1], f);
      assert s.pipe[k - 1] in s.pipe[..k];
      NoRegisterYet(s, f, k - 1);
    }
  }

  // ---------------------------------------------------------------- nothing is left behind

  /** Every file that exists is counted, or will be. */
  ghost predicate Tracked(s: State) {
    forall f :: f in s.store.disk ==> f in s.store.registry || Register(f) in s.pipe
  }

  /** Without `unlink_on_gc_collect`, pickling once more into a file the parent has released and the
      tracker has removed writes a file nobody is told about. */
  ghost predicate Leaks(s: State, e: Event) {
    && e.Pickle? && e.file !in s.store.disk && !s.unlink && e.file in s.known
    && e.file !in s.store.registry && Register(e.file) !in s.pipe
  }

  lemma {:induction false} TrackedExactly(s: State, e: Event)
    requires Inv(s) && Tracked(s) && Enabled(s, e)
    ensures Tracked(Apply(s, e)) <==> !Leaks(s, e)
  {
    var t := Apply(s, e);
    if Leaks(s, e) {
      assert t.pipe == s.pipe;
      assert e.file in t.store.disk;
    } else {
      forall f | f in t.store.disk ensures f in t.store.registry || Register(f) in t.pipe {
        TrackedFile(s, e, f);
      }
    }
  }

  lemma {:induction false} TrackedFile(s: State, e: Event, f: File)
    requires Inv(s) && Tracked(s) && Enabled(s, e) && !Leaks(s, e) && f in Apply(s, e).store.disk
    ensures f in Apply(s, e).store.registry || Register(f) in Apply(s, e).pipe
  {
    var t := Apply(s, e);
    match e
    case Turn =>
      if Register(f) in s.pipe && s.pipe[0] != Register(f) {
        assert s.pipe == [s.pipe[0]] + t.pipe;
      }
    case Pickle(g, _) =>
      hide Inv, Handle;
      if f !in s.store.disk && f !in s.store.registry && Register(f) !in s.pipe {
        assert Registers(s, f)[0] == Register(f);
        assert t.pipe[|s.pipe|] == Register(f);
      }
    case _ =>
  }

  /** Once every reference to a file is given up and the pipe is drained, its count is gone and so is
      the file. */
  lemma {:induction false} DrainedFileIsGone(s: State, f: File)
    requires Inv(s) && Tracked(s) && s.pipe == [] && Refs(s, f) == 0
    ensures f !in s.store.registry && f !in s.store.disk
  {
    assert FileOk(s, f);
    assert After(s, f, 0) == Count(s.store.registry, f);
  }

  /** Over any run with `unlink_on_gc_collect`, hazardous or not: when everything is released and the
      pipe is drained, no count and no file is left. */
  lemma {:induction false} NothingLeftBehind(s: State, es: seq<Event>, t: State)
    requires s.unlink && Inv(s) && Tracked(s) && Steps(s, es, t)
    requires t.pipe == [] && forall f :: Refs(t, f) == 0
    ensures t.store == Store(map[], map[])
    decreases |es|
  {
    hide Inv, Tracked;
    if es == [] {
      forall f ensures f !in t.store.registry && f !in t.store.disk { DrainedFileIsGone(t, f); }
    } else {
      StepKeeps(s, es[0]);
      TrackedExactly(s, es[0]);
      NothingLeftBehind(Apply(s, es[0]), es[1..], t);
    }
  }
}
