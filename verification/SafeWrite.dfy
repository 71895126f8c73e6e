/** `_concurrency_safe_write`: an object is written to a file of its writer's own, which is then renamed.

    Any number of writers, byte by byte, with crashes and clears in between. */
module SafeWrite {
  type Bytes = seq<nat>

  /** The name a thread of a process gives to its temporary file. */
  datatype Temp = Temp(target: nat, writer: nat)

  datatype Job = Job(target: nat, value: Bytes, written: nat)

  /** begun: every write that was ever started; failed: those whose writer never got to the end. */
  datatype State = State(files: map<nat, Bytes>, temps: map<Temp, Bytes>, jobs: map<nat, Job>,
                         begun: set<(nat, Bytes)>, failed: set<Temp>)

  datatype Event =
    | Begin(writer: nat, target: nat, value: Bytes) | Append(writer: nat) | Rename(writer: nat) | Fail(writer: nat)
    | Clear(target: nat)

  function Name(s: State, w: nat): Temp
    requires w in s.jobs
  {
    Temp(s.jobs[w].target, w)
  }

  ghost predicate Enabled(s: State, e: Event) {
    match e
    case Begin(w, _, _) => w !in s.jobs
    case Append(w) => w in s.jobs && s.jobs[w].written < |s.jobs[w].value|
    case Rename(w) => w in s.jobs && s.jobs[w].written == |s.jobs[w].value|
    case Fail(w) => w in s.jobs
    case Clear(_) => true
  }

  function Cleared(temps: map<Temp, Bytes>, target: nat): map<Temp, Bytes> {
    map t | t in temps && t.target != target :: temps[t]
  }

  /** A clear removes the temporary files too; their writers go on, and find nothing to rename. */
  ghost function Apply(s: State, e: Event): State
    requires Enabled(s, e)
  {
    match e
    case Begin(w, t, v) =>
      s.(temps := s.temps[Temp(t, w) := []], jobs := s.jobs[w := Job(t, v, 0)], begun := s.begun + {(t, v)},
         failed := s.failed - {Temp(t, w)})
    case Append(w) =>
      var job := s.jobs[w];
      s.(jobs := s.jobs[w := job.(written := job.written + 1)],
         temps := if Name(s, w) in s.temps
                  then s.temps[Name(s, w) := s.temps[Name(s, w)] + [job.value[job.written]]] else s.temps)
    case Rename(w) =>
      if Name(s, w) in s.temps
      then s.(files := s.files[s.jobs[w].target := s.temps[Name(s, w)]], temps := s.temps - {Name(s, w)},
              jobs := s.jobs - {w})
      else s.(jobs := s.jobs - {w})
    case Fail(w) => s.(jobs := s.jobs - {w}, failed := s.failed + {Name(s, w)})
    case Clear(t) => s.(files := s.files - {t}, temps := Cleared(s.temps, t))
  }

  ghost predicate Steps(s: State, es: seq<Event>, t: State)
    decreases |es|
  {
    if es == [] then s == t else Enabled(s, es[0]) && Steps(Apply(s, es[0]), es[1..], t)
  }

  const EMPTY := State(map[], map[], map[], {}, {})

  ghost predicate Inv(s: State) {
    && (forall w :: w in s.jobs ==> s.jobs[w].written <= |s.jobs[w].value|)
    && (forall w :: w in s.jobs ==> (s.jobs[w].target, s.jobs[w].value) in s.begun)
    && (forall w :: w in s.jobs && Name(s, w) in s.temps ==>
          s.temps[Name(s, w)] == s.jobs[w].value[..s.jobs[w].written])
    && (forall f :: f in s.files ==> (f, s.files[f]) in s.begun)
    && (forall t :: t in s.temps ==> t in s.failed || (t.writer in s.jobs && s.jobs[t.writer].target == t.target))
  }

  lemma {:induction false} StepKeeps(s: State, e: Event)
    requires Inv(s) && Enabled(s, e)
    ensures Inv(Apply(s, e))
  {
    match e
    case Append(w) => assert forall v: Bytes, k: nat :: k < |v| ==> v[..k] + [v[k]] == v[..k + 1];
    case Rename(w) => assert s.jobs[w].value[..s.jobs[w].written] == s.jobs[w].value;
    case _ =>
  }

  /** Whoever reads a file, at any moment of any run, finds the whole of some value written to it. */
  lemma {:induction false} ReadersSeeWholeValues(es: seq<Event>, t: State, f: nat)
    requires Steps(EMPTY, es, t) && f in t.files
    ensures exists i :: 0 <= i < |es| && es[i].Begin? && es[i].target == f && es[i].value == t.files[f]
  {
    WholeValues(EMPTY, es, t, f);
  }

  lemma {:induction false} WholeValues(s: State, es: seq<Event>, t: State, f: nat)
    requires Inv(s) && Steps(s, es, t) && f in t.files
    ensures (f, t.files[f]) in s.begun ||
            exists i :: 0 <= i < |es| && es[i].Begin? && es[i].target == f && es[i].value == t.files[f]
    decreases |es|
  {
    if es != [] {
      StepKeeps(s, es[0]);
      WholeValues(Apply(s, es[0]), es[1..], t, f);
      if i :| 0 <= i < |es[1..]| && es[1..][i].Begin? && es[1..][i].target == f && es[1..][i].value == t.files[f] {
        assert es[i + 1] == es[1..][i];
      } else if (f, t.files[f]) !in s.begun {
        assert es[0].Begin?;
      }
    }
  }

  /** A rename replaces the file by exactly what its writer was given, unless the store was cleared in
      between; no other step changes a file, except that a clear removes it. */
  lemma {:induction false} OnlyRenamesShow(s: State, e: Event, f: nat)
    requires Inv(s) && Enabled(s, e)
    ensures var t := Apply(s, e);
            if e.Rename? && s.jobs[e.writer].target == f && Name(s, e.writer) in s.temps
            then f in t.files && t.files[f] == s.jobs[e.writer].value
            else if e == Clear(f) then f !in t.files
            else (f in t.files <==> f in s.files) && (f in t.files ==> t.files[f] == s.files[f])
  {
    if e.Rename? { assert s.jobs[e.writer].value[..s.jobs[e.writer].written] == s.jobs[e.writer].value; }
  }

  /** What becomes of temporary files: a clear removes all those of its target, a rename its own, a failure
      none, and no other file is touched. */
  lemma {:induction false} TempsChange(s: State, e: Event, x: Temp)
    requires Inv(s) && Enabled(s, e)
    ensures var t := Apply(s, e); var own := !e.Clear? && x.writer == e.writer;
            && (e.Clear? ==> (x in t.temps <==> x in s.temps && x.target != e.target))
            && (e.Rename? && own && x == Name(s, e.writer) ==> x !in t.temps)
            && (e.Fail? ==> t.temps == s.temps)
            && (!own && x in t.temps ==> x in s.temps && t.temps[x] == s.temps[x])
  {
  }

  /** Runs in which no writer fails leave no temporary file behind. */
  lemma {:induction false} NothingLeftOver(s: State, es: seq<Event>, t: State)
    requires Inv(s) && s.failed == {} && Steps(s, es, t) && t.jobs == map[]
    requires forall i :: 0 <= i < |es| ==> !es[i].Fail?
    ensures t.temps == map[]
    decreases |es|
  {
    if es != [] {
      StepKeeps(s, es[0]);
      NothingLeftOver(Apply(s, es[0]), es[1..], t);
    }
  }

  lemma {:induction false} StepsThen(s: State, es: seq<Event>, t: State, e: Event)
    requires Steps(s, es, t) && Enabled(t, e)
    ensures Steps(s, es + [e], Apply(t, e))
    decreases |es|
  {
    hide Apply, Enabled;
    if es == [] {
      assert (es + [e])[1..] == [] && Steps(Apply(t, e), [], Apply(t, e));
    } else {
      StepsThen(Apply(s, es[0]), es[1..], t, e);
      assert (es + [e])[1..] == es[1..] + [e];
    }
  }

  /** The store as one writer uses it, while others may be in the middle of their writes. `state` is the
      state of the protocol. */
  class FileStore {
    var files: map<nat, Bytes>
    var temps: map<Temp, Bytes>
    ghost var state: State

    constructor ()
      ensures Valid() && state == EMPTY
    {
      files, temps, state := map[], map[], EMPTY;
    }

    ghost predicate Valid()
      reads this
    {
      state.files == files && state.temps == temps
    }

    method Begin(value: Bytes, target: nat, writer: nat)
      requires Valid() && writer !in state.jobs
      modifies this`temps, this`state
      ensures Valid() && state == Apply(old(state), Event.Begin(writer, target, value))
    {
      temps := temps[Temp(target, writer) := []];
      state := Apply(state, Event.Begin(writer, target, value));
    }

    method Append(value: Bytes, i: nat, target: nat, writer: nat)
      requires Valid() && writer in state.jobs && i < |value| && state.jobs[writer] == Job(target, value, i)
      requires Temp(target, writer) in temps
      modifies this`temps, this`state
      ensures Valid() && state == Apply(old(state), Event.Append(writer))
    {
      var temp := Temp(target, writer);
      temps := temps[temp := temps[temp] + [value[i]]];
      state := Apply(state, Event.Append(writer));
    }

    /** Writes the value to the temporary file, up to where writing the object fails (`failAt`), if it
        does: a run of single writes. */
    method SafeWrite(value: Bytes, target: nat, writer: nat, failAt: nat) returns (ok: bool, ghost es: seq<Event>)
      requires Valid() && writer !in state.jobs
      modifies this`temps, this`state
      ensures Valid() && Steps(old(state), es, state) && ok == (|value| <= failAt)
      ensures temps == old(temps)[Temp(target, writer) := if ok then value else value[..failAt]]
      ensures state.jobs == old(state.jobs)[writer := Job(target, value, if ok then |value| else failAt)]
    {
      hide Steps;
      var i := 0;
      es := [Event.Begin(writer, target, value)];
      OneStep(state, Event.Begin(writer, target, value));
      Begin(value, target, writer);
      while i < |value| && i < failAt
        invariant i <= |value| && i <= failAt && Valid() && Steps(old(state), es, state)
        invariant temps == old(temps)[Temp(target, writer) := value[..i]]
        invariant state.jobs == old(state.jobs)[writer := Job(target, value, i)]
      {
        StepsThen(old(state), es, state, Event.Append(writer));
        es := es + [Event.Append(writer)];
        assert value[..i] + [value[i]] == value[..i + 1];
        Append(value, i, target, writer);
        i := i + 1;
      }
      ok := i == |value|;
      assert value[..|value|] == value;
    }

    /** `clear_item`: the item is gone, with what writers have left of it. */
    method ClearItem(target: nat)
      requires Valid()
      modifies this
      ensures Valid() && state == Apply(old(state), Event.Clear(target))
      ensures files == old(files) - {target}
      ensures forall t :: t in temps <==> t in old(temps) && t.target != target
      ensures forall t :: t in temps ==> temps[t] == old(temps)[t]
    {
      files, temps := files - {target}, Cleared(temps, target);
      state := Apply(state, Event.Clear(target));
    }

    /** `dump_item`, as a run of the protocol: a failure leaves the item as it was, and a partial file
        under another name. */
    method DumpItem(value: Bytes, target: nat, writer: nat, failAt: nat) returns (ok: bool, ghost es: seq<Event>)
      requires Valid() && writer !in state.jobs
      modifies this
      ensures Valid() && Steps(old(state), es, state) && state.jobs == old(state.jobs)
      ensures ok == (|value| <= failAt)
      ensures files == if ok then old(files)[target := value] else old(files)
      ensures temps - {Temp(target, writer)} == old(temps) - {Temp(target, writer)}
      ensures if ok then Temp(target, writer) !in temps
              else Temp(target, writer) in temps && temps[Temp(target, writer)] == value[..failAt]
    {
      hide Steps;
      var temp := Temp(target, writer);
      ok, es := SafeWrite(value, target, writer, failAt);
      ghost var e := if ok then Event.Rename(writer) else Event.Fail(writer);
      StepsThen(old(state), es, state, e);
      es := es + [e];
      if ok {
        files := files[target := temps[temp]];
        temps := temps - {temp};
      }
      state := Apply(state, e);
    }
  }

  lemma OneStep(s: State, e: Event)
    requires Enabled(s, e)
    ensures Steps(s, [e], Apply(s, e))
  {
    assert [e][1..] == [] && Steps(Apply(s, e), [], Apply(s, e));
  }
}
