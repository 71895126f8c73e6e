/** The on-disk memo cache: `MemorizedFunc` over a store of results and function code, with the online
    table of function hashes that saves reading the code back.

    A function is an object whose code may be replaced; several functions may share one identifier.
    Arguments stand for their hash, without the ignored ones. */
module Memory {
  type Fn = nat
  type FnId = nat
  type Code = nat
  type Arg = nat

  datatype Outcome = Returned(value: nat) | Raised(exn: nat)

  /** identifier: `_build_func_identifier`; listed: the functions `_write_func_code` puts into the
      online table; compute: what code does with arguments. */
  datatype World = World(identifier: Fn -> FnId, listed: Fn -> bool, compute: (Code, Arg) -> Outcome)

  datatype Entry = Output(value: nat) | Corrupt

  datatype Key = Key(id: FnId, arg: Arg)

  /** One execution of a function. */
  datatype Execution = Execution(fn: Fn, arg: Arg)

  /** code: of the functions there are; stored: the function code on disk; items: the results on disk;
      hashes: `_FUNCTION_HASHES`; ran: every execution so far. */
  datatype State = State(code: map<Fn, Code>, stored: map<FnId, Code>, items: map<Key, Entry>, hashes: map<Fn, Code>,
                         ran: seq<Execution>)

  /** Collected: the function object is gone, and with it its entry in the table.
      `valid` is the answer of `cache_validation_callback`, should it be asked. */
  datatype Event =
    | Redefine(fn: Fn, code: Code) | Collected(fn: Fn)
    | Call(fn: Fn, arg: Arg, valid: bool) | Shelve(fn: Fn, arg: Arg, valid: bool)
    | Force(fn: Fn, arg: Arg) | ClearFn(fn: Fn) | ClearAll
    | Corrupted(key: Key) | Evict(keys: set<Key>) | NewProcess

  predicate Enabled(s: State, e: Event) {
    match e
    case Call(f, _, _) => f in s.code
    case Shelve(f, _, _) => f in s.code
    case Force(f, _) => f in s.code
    case ClearFn(f) => f in s.code
    case Corrupted(key) => key in s.items
    case _ => true
  }

  function Wiped(items: map<Key, Entry>, id: FnId): map<Key, Entry> {
    map k | k in items && k.id != id :: items[k]
  }

  function WriteCode(w: World, s: State, f: Fn): State
    requires f in s.code
  {
    s.(stored := s.stored[w.identifier(f) := s.code[f]],
       hashes := if w.listed(f) then s.hashes[f := s.code[f]] else s.hashes)
  }

  function Clear(w: World, s: State, f: Fn): State
    requires f in s.code
  {
    WriteCode(w, s.(items := Wiped(s.items, w.identifier(f))), f)
  }

  /** Whether the function has the code its results on disk were made with. If not, the code on disk is
      made to be its own, and results of other code are removed. */
  function CheckCode(w: World, s: State, f: Fn): (bool, State)
    requires f in s.code
  {
    if f in s.hashes && s.hashes[f] == s.code[f] then (true, s)
    else if w.identifier(f) !in s.stored then (false, WriteCode(w, s, f))
    else if s.stored[w.identifier(f)] == s.code[f] then (true, s)
    else (false, Clear(w, s, f))
  }

  function InCache(w: World, s: State, f: Fn, a: Arg, valid: bool): (bool, State)
    requires f in s.code
  {
    var key := Key(w.identifier(f), a);
    var (same, t) := CheckCode(w, s, f);
    if !same || key !in t.items then (false, t)
    else if !valid then (false, t.(items := t.items - {key}))
    else (true, t)
  }

  /** Runs the function, and keeps what it returns. */
  function Execute(w: World, s: State, f: Fn, a: Arg): (Outcome, State)
    requires f in s.code
  {
    var o := w.compute(s.code[f], a);
    var t := s.(ran := s.ran + [Execution(f, a)]);
    (o, if o.Returned? then t.(items := t.items[Key(w.identifier(f), a) := Output(o.value)]) else t)
  }

  function CachedCall(w: World, s: State, f: Fn, a: Arg, valid: bool): (Outcome, State)
    requires f in s.code
  {
    var key := Key(w.identifier(f), a);
    var (hit, t) := InCache(w, s, f, a, valid);
    if hit && key in t.items && t.items[key].Output? then (Returned(t.items[key].value), t)
    else Execute(w, t, f, a)
  }

  /** `call_and_shelve`: on a hit only a reference is made, and the result is not read. */
  function Shelved(w: World, s: State, f: Fn, a: Arg, valid: bool): State
    requires f in s.code
  {
    var (hit, t) := InCache(w, s, f, a, valid);
    if hit then t else Execute(w, t, f, a).1
  }

  function Apply(w: World, s: State, e: Event): State
    requires Enabled(s, e)
  {
    match e
    case Redefine(f, c) => s.(code := s.code[f := c])
    case Collected(f) => s.(code := s.code - {f}, hashes := s.hashes - {f})
    case Call(f, a, valid) => CachedCall(w, s, f, a, valid).1
    case Shelve(f, a, valid) => Shelved(w, s, f, a, valid)
    case Force(f, a) => Execute(w, s, f, a).1
    case ClearFn(f) => Clear(w, s, f)
    case ClearAll => s.(stored := map[], items := map[], hashes := map[])
    case Corrupted(key) => s.(items := s.items[key := Corrupt])
    case Evict(keys) => s.(items := s.items - keys)
    case NewProcess => s.(hashes := map[])
  }

  /** What happens to the cache from outside. */
  lemma Outside(w: World, s: State, e: Event)
    requires Enabled(s, e)
    ensures var t := Apply(w, s, e);
            && (e.Redefine? ==> e.fn in t.code && t.code[e.fn] == e.code && t.items == s.items && t.hashes == s.hashes)
            && (e.Collected? ==> e.fn !in t.code && e.fn !in t.hashes && t.items == s.items)
            && (e.Corrupted? ==> t.items[e.key] == Corrupt && t.items - {e.key} == s.items - {e.key})
            && (e.Evict? ==> forall k :: k in t.items <==> k in s.items && k !in e.keys)
            && (e.Evict? ==> forall k :: k in t.items ==> t.items[k] == s.items[k])
            && (e.NewProcess? ==> t.hashes == map[] && t.items == s.items && t.stored == s.stored)
            && (e.ClearAll? ==> t.hashes == map[] && t.items == map[] && t.stored == map[])
  {
  }

  ghost predicate Steps(w: World, s: State, es: seq<Event>, t: State)
    decreases |es|
  {
    if es == [] then s == t else Enabled(s, es[0]) && Steps(w, Apply(w, s, es[0]), es[1..], t)
  }

  const EMPTY := State(map[], map[], map[], map[], [])

  // ---------------------------------------------------------------- what the store stands for

  /** The code on disk computes this; where there is none yet, any code does. */
  ghost predicate Fits(w: World, s: State, k: Key, value: nat) {
    if k.id in s.stored then w.compute(s.stored[k.id], k.arg) == Returned(value)
    else forall c :: w.compute(c, k.arg) == Returned(value)
  }

  /** Each result on disk is what the code beside it computes. */
  ghost predicate ItemsAgree(w: World, s: State) {
    forall k :: k in s.items && s.items[k].Output? ==> Fits(w, s, k, s.items[k].value)
  }

  /** A function that is in the online table has the code on disk, or will be seen to have changed. */
  ghost predicate TableAgrees(w: World, s: State) {
    forall f :: f in s.hashes ==>
      w.listed(f) && w.identifier(f) in s.stored && s.stored[w.identifier(f)] == s.hashes[f]
  }

  ghost predicate Good(w: World, s: State) { ItemsAgree(w, s) && TableAgrees(w, s) }

  /** Every call, of any function, with any arguments, gives what the current code computes. */
  ghost predicate Transparent(w: World, s: State) {
    forall f, a, valid :: f in s.code ==> CachedCall(w, s, f, a, valid).0 == w.compute(s.code[f], a)
  }

  lemma {:induction false} GoodIsTransparent(w: World, s: State)
    requires Good(w, s)
    ensures Transparent(w, s)
  {
  }

  // ---------------------------------------------------------------- what can go wrong

  /** Another function with this identifier is in the table, with other code. */
  ghost predicate Rival(w: World, s: State, f: Fn, c: Code) {
    exists g :: g in s.hashes && g != f && w.identifier(g) == w.identifier(f) && s.hashes[g] != c
  }

  /** The step writes the code of its function to disk. */
  predicate Writes(w: World, s: State, e: Event)
    requires Enabled(s, e)
  {
    match e
    case Call(f, _, _) => !CheckCode(w, s, f).0
    case Shelve(f, _, _) => !CheckCode(w, s, f).0
    case ClearFn(_) => true
    case _ => false
  }

  /** A forced call whose result is not what the code on disk computes. */
  ghost predicate Unsettled(w: World, s: State, e: Event)
    requires Enabled(s, e)
  {
    && e.Force?
    && var o := w.compute(s.code[e.fn], e.arg);
       o.Returned? && !Fits(w, s, Key(w.identifier(e.fn), e.arg), o.value)
  }

  ghost predicate Hazard(w: World, s: State, e: Event)
    requires Enabled(s, e)
  {
    Unsettled(w, s, e) || (Writes(w, s, e) && Rival(w, s, e.fn, s.code[e.fn]))
  }

  lemma {:induction false} WriteExactly(w: World, s: State, t: State, f: Fn)
    requires Good(w, s) && f in s.code && t == WriteCode(w, s.(items := t.items), f)
    requires forall k :: k in t.items && t.items[k].Output? ==>
               && k in s.items && s.items[k] == t.items[k]
               && (k.id == w.identifier(f) ==> forall c :: w.compute(c, k.arg) == Returned(t.items[k].value))
    ensures Good(w, t) <==> !Rival(w, s, f, s.code[f])
  {
    if g :| g in s.hashes && g != f && w.identifier(g) == w.identifier(f) && s.hashes[g] != s.code[f] {
      assert g in t.hashes;
    }
  }

  lemma {:induction false} ClearExactly(w: World, s: State, f: Fn)
    requires Good(w, s) && f in s.code
    ensures Good(w, Clear(w, s, f)) <==> !Rival(w, s, f, s.code[f])
  {
    WriteExactly(w, s, Clear(w, s, f), f);
  }

  lemma {:induction false} CheckExactly(w: World, s: State, f: Fn)
    requires Good(w, s) && f in s.code
    ensures var (same, t) := CheckCode(w, s, f);
            && (Good(w, t) <==> same || !Rival(w, s, f, s.code[f]))
            && w.identifier(f) in t.stored && t.stored[w.identifier(f)] == s.code[f]
  {
    if w.identifier(f) !in s.stored { WriteExactly(w, s, WriteCode(w, s, f), f); }
    ClearExactly(w, s, f);
  }

  lemma {:induction false} SameTable(w: World, s: State, t: State)
    requires t.hashes == s.hashes && t.stored == s.stored
    ensures TableAgrees(w, t) <==> TableAgrees(w, s)
  {
  }

  lemma {:induction false} ExecuteExactly(w: World, s: State, f: Fn, a: Arg)
    requires ItemsAgree(w, s) && f in s.code
    ensures ItemsAgree(w, Execute(w, s, f, a).1) <==> !Unsettled(w, s, Force(f, a))
  {
    var key := Key(w.identifier(f), a);
    assert Unsettled(w, s, Force(f, a)) ==> key in Execute(w, s, f, a).1.items;
  }

  /** After the code check, dropping items and running the function do no further harm. */
  lemma {:induction false} AfterCheck(w: World, s: State, f: Fn, a: Arg, t: State)
    requires Good(w, s) && f in s.code
    requires var u := CheckCode(w, s, f).1;
             (exists keys: set<Key> :: t == u.(items := u.items - keys)
                                    || t == Execute(w, u.(items := u.items - keys), f, a).1)
    ensures Good(w, t) <==> CheckCode(w, s, f).0 || !Rival(w, s, f, s.code[f])
  {
    hide CheckCode, Rival, TableAgrees;
    var u := CheckCode(w, s, f).1;
    CheckExactly(w, s, f);
    SameTable(w, u, t);
    CheckItems(w, s, f);
    CheckCodeOnly(w, s, f);
    var keys: set<Key> :| t == u.(items := u.items - keys) || t == Execute(w, u.(items := u.items - keys), f, a).1;
    ExecuteExactly(w, u.(items := u.items - keys), f, a);
  }

  lemma {:induction false} CheckItems(w: World, s: State, f: Fn)
    requires Good(w, s) && f in s.code
    ensures ItemsAgree(w, CheckCode(w, s, f).1)
  {
  }

  lemma CheckCodeOnly(w: World, s: State, f: Fn)
    requires f in s.code
    ensures CheckCode(w, s, f).1.code == s.code
  {
  }

  /** What the cache stands for is kept by every step but, exactly, the two hazards. */
  lemma {:induction false} StepExactly(w: World, s: State, e: Event)
    requires Good(w, s) && Enabled(s, e)
    ensures Good(w, Apply(w, s, e)) <==> !Hazard(w, s, e)
  {
    hide Rival, CheckCode;
    var t := Apply(w, s, e);
    match e
    case Redefine(_, _) => SameTable(w, s, t);
    case Call(f, a, valid) => UseExactly(w, s, f, a, valid);
    case Shelve(f, a, valid) => UseExactly(w, s, f, a, valid);
    case Force(f, a) => SameTable(w, s, t); ExecuteExactly(w, s, f, a);
    case ClearFn(f) => ClearExactly(w, s, f);
    case _ =>
  }

  lemma {:induction false} UseExactly(w: World, s: State, f: Fn, a: Arg, valid: bool)
    requires Good(w, s) && f in s.code
    ensures var ok := CheckCode(w, s, f).0 || !Rival(w, s, f, s.code[f]);
            && (Good(w, CachedCall(w, s, f, a, valid).1) <==> ok)
            && (Good(w, Shelved(w, s, f, a, valid)) <==> ok)
  {
    hide Rival, CheckCode, Good, Execute;
    CheckCodeOnly(w, s, f);
    var (hit, t) := InCache(w, s, f, a, valid);
    var u := CheckCode(w, s, f).1;
    assert t == u.(items := u.items - {}) || t == u.(items := u.items - {Key(w.identifier(f), a)});
    AfterCheck(w, s, f, a, t);
    AfterCheck(w, s, f, a, Execute(w, t, f, a).1);
  }

  // ---------------------------------------------------------------- whole runs

  ghost predicate NoHazard(w: World, s: State, es: seq<Event>)
    decreases |es|
  {
    es == [] || (Enabled(s, es[0]) && !Hazard(w, s, es[0]) && NoHazard(w, Apply(w, s, es[0]), es[1..]))
  }

  /** No forced call of the run persists what the code on disk would not compute. */
  ghost predicate SettledForces(w: World, s: State, es: seq<Event>)
    decreases |es|
  {
    es == [] || (Enabled(s, es[0]) && !Unsettled(w, s, es[0]) && SettledForces(w, Apply(w, s, es[0]), es[1..]))
  }

  /** A function of the online table shares its identifier with another one. */
  ghost predicate Shares(w: World) {
    exists f, g :: f != g && w.listed(g) && w.identifier(f) == w.identifier(g)
  }

  lemma {:induction false} RunStaysGood(w: World, s: State, es: seq<Event>, t: State)
    requires Good(w, s) && Steps(w, s, es, t) && NoHazard(w, s, es)
    ensures Good(w, t)
    decreases |es|
  {
    hide Good, Hazard;
    if es != [] {
      StepExactly(w, s, es[0]);
      RunStaysGood(w, Apply(w, s, es[0]), es[1..], t);
    }
  }

  lemma {:induction false} NoRivals(w: World, s: State, es: seq<Event>, t: State)
    requires Good(w, s) && Steps(w, s, es, t) && SettledForces(w, s, es) && !Shares(w)
    ensures NoHazard(w, s, es)
    decreases |es|
  {
    if es != [] {
      assert Writes(w, s, es[0]) ==> !Rival(w, s, es[0].fn, s.code[es[0].fn]);
      StepExactly(w, s, es[0]);
      NoRivals(w, Apply(w, s, es[0]), es[1..], t);
    }
  }

  /** Two pieces of code that return different values for the same arguments. */
  ghost predicate Distinguishes(w: World, c: Code, d: Code, a: Arg) {
    w.compute(c, a).Returned? && w.compute(d, a).Returned? && w.compute(c, a) != w.compute(d, a)
  }

  lemma {:induction false} Then(w: World, s: State, es: seq<Event>, t: State, e: Event)
      returns (es': seq<Event>, t': State)
    requires Steps(w, s, es, t) && SettledForces(w, s, es) && Enabled(t, e) && !e.Force?
    ensures es' == es + [e] && t' == Apply(w, t, e) && Steps(w, s, es', t') && SettledForces(w, s, es')
    decreases |es|
  {
    hide Apply;
    es', t' := es + [e], Apply(w, t, e);
    if es == [] {
      assert es'[1..] == [] && Steps(w, t', [], t');
    } else {
      var rest, _ := Then(w, Apply(w, s, es[0]), es[1..], t, e);
      assert es'[1..] == rest;
    }
  }

  /** Two functions with one identifier: the second call rewrites the store, and the first function,
      still in the table, is given the other's result. */
  lemma {:induction false} SharingBreaks(w: World, c: Code, d: Code, a: Arg) returns (es: seq<Event>, t: State)
    requires Shares(w) && Distinguishes(w, c, d, a)
    ensures Steps(w, EMPTY, es, t) && SettledForces(w, EMPTY, es) && !Transparent(w, t)
  {
    var f, g :| f != g && w.listed(g) && w.identifier(f) == w.identifier(g);
    var key := Key(w.identifier(g), a);
    es, t := FirstCached(w, f, g, c, d, a);
    es, t := Then(w, EMPTY, es, t, Call(f, a, true));
    assert t.hashes[g] == t.code[g] == c;
    assert t.items[key] == Output(w.compute(d, a).value);
    assert CachedCall(w, t, g, a, true).0 == w.compute(d, a);
  }

  lemma {:induction false} FirstCached(w: World, f: Fn, g: Fn, c: Code, d: Code, a: Arg)
      returns (es: seq<Event>, t: State)
    requires f != g && w.listed(g) && w.compute(c, a).Returned?
    ensures Steps(w, EMPTY, es, t) && SettledForces(w, EMPTY, es) && t.code == map[g := c, f := d]
    ensures t.hashes == map[g := c] && t.stored == map[w.identifier(g) := c]
  {
    es, t := [], EMPTY;
    es, t := Then(w, EMPTY, es, t, Redefine(g, c));
    es, t := Then(w, EMPTY, es, t, Redefine(f, d));
    es, t := Then(w, EMPTY, es, t, Call(g, a, true));
  }

  ghost predicate Reachable(w: World, es: seq<Event>, t: State) {
    Steps(w, EMPTY, es, t) && SettledForces(w, EMPTY, es)
  }

  ghost predicate AlwaysTransparent(w: World) {
    forall es, t :: Reachable(w, es, t) ==> Transparent(w, t)
  }

  /** Over every run of calls, redefinitions, corruptions, clears, evictions, validation answers and new
      processes, whatever the functions compute: the cache is transparent exactly when no function of
      the online table shares its identifier. */
  lemma {:induction false} TransparentExactly(w: World, c: Code, d: Code, a: Arg)
    requires Distinguishes(w, c, d, a)
    ensures AlwaysTransparent(w) <==> !Shares(w)
  {
    if Shares(w) {
      var es, t := SharingBreaks(w, c, d, a);
      assert Reachable(w, es, t);
    } else {
      forall es, t | Reachable(w, es, t) ensures Transparent(w, t) {
        NoRivals(w, EMPTY, es, t);
        RunStaysGood(w, EMPTY, es, t);
        GoodIsTransparent(w, t);
      }
    }
  }

  /** A forced call does not compare code: on a store that has none yet its result outlives a
      redefinition, even of a function that shares its identifier with no other. */
  lemma {:induction false} ForcedCallBreaks(w: World, f: Fn, c: Code, d: Code, a: Arg)
    requires Distinguishes(w, c, d, a)
    ensures exists es, t :: Steps(w, EMPTY, es, t) && !Transparent(w, t)
  {
    var key := Key(w.identifier(f), a);
    var r := State(map[f := c], map[], map[], map[], []);
    var u := Apply(w, r, Force(f, a));
    var es, t := [], u;
    es, t := Then(w, u, es, t, Redefine(f, d));
    es, t := Then(w, u, es, t, Call(f, a + 1, true));
    assert t.items[key] == Output(w.compute(c, a).value) && t.stored[key.id] == d;
    assert CachedCall(w, t, f, a, true).0 == w.compute(c, a);
    assert ([Force(f, a)] + es)[1..] == es && Steps(w, r, [Force(f, a)] + es, t);
    var all := [Redefine(f, c), Force(f, a)] + es;
    assert all[1..] == [Force(f, a)] + es && Apply(w, EMPTY, all[0]) == r;
    assert Steps(w, EMPTY, all, t);
  }

  predicate Unforced(es: seq<Event>) { forall i :: 0 <= i < |es| ==> !es[i].Force? }

  /** Every later run without forced calls answers every call rightly. */
  ghost predicate StaysTransparent(w: World, s: State) {
    forall es, t :: Steps(w, s, es, t) && Unforced(es) ==> Transparent(w, t)
  }

  /** Two steps in which a result that does not fit is given to a call: the function gets the code on
      disk, or, with none there, code that computes something else and is then written. */
  lemma {:induction false} MisfitShows(w: World, s: State, f: Fn, a: Arg) returns (es: seq<Event>, u: State)
    requires TableAgrees(w, s) && f in s.code
    requires var k := Key(w.identifier(f), a); k in s.items && s.items[k].Output? && !Fits(w, s, k, s.items[k].value)
    ensures Steps(w, s, es, u) && !Transparent(w, u) && Unforced(es)
  {
    var k := Key(w.identifier(f), a);
    var c: Code;
    if k.id in s.stored { c := s.stored[k.id]; } else { c :| w.compute(c, a) != Returned(s.items[k].value); }
    es, u := [Redefine(f, c), Call(f, a + 1, true)], Apply(w, s, Redefine(f, c));
    assert es[1..][1..] == [] && es[1..][0] == Call(f, a + 1, true);
    var v := Apply(w, u, Call(f, a + 1, true));
    assert Steps(w, v, [], v) && Steps(w, u, es[1..], v);
    u := v;
    assert CachedCall(w, u, f, a, true).0 == Returned(s.items[k].value);
  }

  /** A forced call does not compare code. Where no identifier is shared, every later run without another
      one is transparent if and only if the forced call returned what the code on disk computes, or
      raised; it does when the code on disk is the function's own. */
  lemma {:induction false} ForcedExactly(w: World, s: State, f: Fn, a: Arg)
    requires Good(w, s) && !Shares(w) && f in s.code
    ensures var t := Apply(w, s, Force(f, a));
            StaysTransparent(w, t) <==> !Unsettled(w, s, Force(f, a))
    ensures w.identifier(f) in s.stored && s.stored[w.identifier(f)] == s.code[f] ==> !Unsettled(w, s, Force(f, a))
  {
    var t := Apply(w, s, Force(f, a));
    StepExactly(w, s, Force(f, a));
    if Unsettled(w, s, Force(f, a)) {
      var es, u := MisfitShows(w, t, f, a);
    } else {
      forall es, u | Steps(w, t, es, u) && Unforced(es) ensures Transparent(w, u) {
        NoForces(w, t, es, u);
        NoRivals(w, t, es, u);
        RunStaysGood(w, t, es, u);
        GoodIsTransparent(w, u);
      }
    }
  }

  lemma {:induction false} NoForces(w: World, s: State, es: seq<Event>, t: State)
    requires Steps(w, s, es, t) && Unforced(es)
    ensures SettledForces(w, s, es)
    decreases |es|
  {
    hide Apply;
    if es != [] {
      assert Unforced(es[1..]);
      NoForces(w, Apply(w, s, es[0]), es[1..], t);
    }
  }

  // ---------------------------------------------------------------- the point of a cache

  /** The code on disk is the function's own. */
  predicate Current(w: World, s: State, f: Fn)
    requires f in s.code
  {
    w.identifier(f) in s.stored && s.stored[w.identifier(f)] == s.code[f]
  }

  /** A hit needs the function's own code on disk, an entry, and the callback's consent; an entry it
      refuses is removed, and no other. Otherwise the code on disk becomes the function's own, and results
      of other code under its identifier go, all of them and no others. Nothing is run. */
  lemma {:induction false} InCacheExactly(w: World, s: State, f: Fn, a: Arg, valid: bool)
    requires Good(w, s) && f in s.code
    ensures var (hit, t) := InCache(w, s, f, a, valid); var key := Key(w.identifier(f), a);
            && (hit <==> valid && key in s.items && Current(w, s, f))
            && t.stored == s.stored[key.id := s.code[f]] && t.code == s.code && t.ran == s.ran
            && (Current(w, s, f) ==> t.items == if valid then s.items else s.items - {key})
            && (key.id !in s.stored ==> t.items == s.items)
            && (key.id in s.stored && !Current(w, s, f) ==>
                  && (forall k :: k in t.items <==> k in s.items && k.id != key.id)
                  && (forall k :: k in t.items ==> t.items[k] == s.items[k]))
  {
  }

  /** A call runs the function exactly if it cannot read its result: the code on disk is not its own, there
      is no intact entry, or the callback refuses it. What it returns is then kept; if it raises, no
      result stands in its place. */
  lemma {:induction false} CallRunsExactly(w: World, s: State, f: Fn, a: Arg, valid: bool)
    requires Good(w, s) && f in s.code
    ensures var (o, t) := CachedCall(w, s, f, a, valid); var key := Key(w.identifier(f), a);
            var read := valid && Current(w, s, f) && key in s.items && s.items[key].Output?;
            && t.ran == s.ran + (if read then [] else [Execution(f, a)])
            && (read ==> t.items == s.items)
            && (o.Returned? ==> key in t.items && t.items[key] == Output(o.value))
            && (o.Raised? && !(valid && Current(w, s, f)) && key.id in s.stored ==> key !in t.items)
            && (o.Raised? && key in t.items ==> key in s.items && s.items[key] == t.items[key] == Corrupt)
            && (forall k :: k in t.items && k != key ==> k in s.items && t.items[k] == s.items[k])
            && (Current(w, s, f) ==> forall k :: k in s.items && k != key ==> k in t.items)
  {
    InCacheExactly(w, s, f, a, valid);
    GoodIsTransparent(w, s);
    hide InCache;
  }

  /** Shelving runs it exactly if there is no entry, intact or not. */
  lemma {:induction false} ShelvingRunsExactly(w: World, s: State, f: Fn, a: Arg, valid: bool)
    requires Good(w, s) && f in s.code
    ensures var t := Shelved(w, s, f, a, valid); var key := Key(w.identifier(f), a);
            t.ran == s.ran + if valid && Current(w, s, f) && key in s.items then [] else [Execution(f, a)]
  {
    InCacheExactly(w, s, f, a, valid);
    hide InCache;
  }

  /** A forced call runs it always, keeps what it returns, and changes nothing else. */
  lemma ForceRuns(w: World, s: State, f: Fn, a: Arg)
    requires f in s.code
    ensures var (o, t) := Execute(w, s, f, a); var key := Key(w.identifier(f), a);
            && o == w.compute(s.code[f], a) && t.ran == s.ran + [Execution(f, a)]
            && (o.Raised? ==> t.items == s.items) && (o.Returned? ==> t.items == s.items[key := Output(o.value)])
            && t.stored == s.stored && t.hashes == s.hashes && t.code == s.code
  {
  }

  /** A call that returned is a hit afterwards: the function is not run again, and nothing changes. */
  lemma {:induction false} SecondCallHits(w: World, s: State, f: Fn, a: Arg, valid: bool)
    requires Good(w, s) && f in s.code && w.compute(s.code[f], a).Returned?
    ensures var t := CachedCall(w, s, f, a, valid).1;
            && InCache(w, t, f, a, true) == (true, t)
            && CachedCall(w, t, f, a, true) == (w.compute(s.code[f], a), t)
  {
    hide Wiped;
    CheckExactly(w, s, f);
    CheckItems(w, s, f);
  }

  /** What a reference made by `call_and_shelve` gives when it is read: the result, or a `KeyError` when
      the entry is corrupt or gone. */
  function ReadReference(s: State, key: Key): (r: Entry) {
    if key in s.items then s.items[key] else Corrupt
  }

  lemma {:induction false} ReferenceTells(w: World, s: State, f: Fn, a: Arg, valid: bool)
    requires Good(w, s) && f in s.code
    ensures var t, o := Shelved(w, s, f, a, valid), w.compute(s.code[f], a);
            var r := ReadReference(t, Key(w.identifier(f), a));
            && (r.Output? ==> o == Returned(r.value))
            && (o.Returned? && (!InCache(w, s, f, a, valid).0 || s.items[Key(w.identifier(f), a)].Output?)
                ==> r.Output?)
  {
    CheckExactly(w, s, f);
    CheckItems(w, s, f);
  }

  /** Read later, after any run without hazards, it gives what the code then on disk computes: so the
      result it was made for, as long as that code is the same. */
  lemma {:induction false} ReferenceLater(w: World, s: State, f: Fn, a: Arg, valid: bool, es: seq<Event>, u: State)
    requires Good(w, s) && f in s.code && !Hazard(w, s, Shelve(f, a, valid))
    requires var t := Shelved(w, s, f, a, valid); Steps(w, t, es, u) && NoHazard(w, t, es)
    ensures var id := w.identifier(f); var r := ReadReference(u, Key(id, a));
            && (r.Output? && id in u.stored ==> w.compute(u.stored[id], a) == Returned(r.value))
            && (r.Output? && (id in u.stored ==> u.stored[id] == s.code[f])
                ==> w.compute(s.code[f], a) == Returned(r.value))
  {
    StepExactly(w, s, Shelve(f, a, valid));
    RunStaysGood(w, Shelved(w, s, f, a, valid), es, u);
  }
}
