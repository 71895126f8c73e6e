/** `MemorizedFunc`, over the store on disk and the table of function hashes it shares with others. */
module MemorizedFunc {
  import opened Memory

  class StoreBackend {
    var funcCode: map<FnId, Code>
    var items: map<Key, Entry>
  }

  class FunctionHashes {
    var table: map<Fn, Code>
  }

  /** The functions as Python runs them: `runs` is every execution so far. */
  class Interpreter {
    var runs: seq<Execution>

    method Run(w: World, f: Fn, arg: Arg, code: Code) returns (o: Outcome)
      modifies this
      ensures o == w.compute(code, arg) && runs == old(runs) + [Execution(f, arg)]
    {
      runs := runs + [Execution(f, arg)];
      o := w.compute(code, arg);
    }
  }

  /** What `_cached_call` is asked for: the output, or a reference to it. */
  datatype Answer = Value(outcome: Outcome) | Reference(key: Key)

  /** `codes` is the code that the functions have at the moment. */
  class MemorizedFunc {
    const world: World
    const func: Fn
    const store: StoreBackend
    const hashes: FunctionHashes
    const python: Interpreter

    constructor (w: World, f: Fn, s: StoreBackend, h: FunctionHashes, p: Interpreter)
      ensures world == w && func == f && store == s && hashes == h && python == p
    {
      world, func, store, hashes, python := w, f, s, h, p;
    }

    ghost function Now(codes: map<Fn, Code>): State
      reads store, hashes, python
    {
      State(codes, store.funcCode, store.items, hashes.table, python.runs)
    }

    /** The code on disk is the function's own. */
    ghost predicate IsCurrent(codes: map<Fn, Code>)
      requires func in codes
      reads store
    {
      world.identifier(func) in store.funcCode && store.funcCode[world.identifier(func)] == codes[func]
    }

    function KeyOf(arg: Arg): Key { Key(world.identifier(func), arg) }

    method WriteFuncCode(codes: map<Fn, Code>)
      requires func in codes
      modifies store`funcCode, hashes
      ensures Now(codes) == WriteCode(world, old(Now(codes)), func)
      ensures store.funcCode == old(store.funcCode)[world.identifier(func) := codes[func]]
      ensures hashes.table == if world.listed(func) then old(hashes.table)[func := codes[func]] else old(hashes.table)
    {
      store.funcCode := store.funcCode[world.identifier(func) := codes[func]];
      if world.listed(func) { hashes.table := hashes.table[func := codes[func]]; }
    }

    /** Nothing of this function is left in the cache, and its code is on disk. */
    method Clear(codes: map<Fn, Code>)
      requires func in codes
      modifies store, hashes
      ensures Now(codes) == Memory.Clear(world, old(Now(codes)), func)
      ensures forall k :: k in store.items <==> k in old(store.items) && k.id != world.identifier(func)
      ensures forall k :: k in store.items ==> store.items[k] == old(store.items)[k]
      ensures IsCurrent(codes)
    {
      store.items := Wiped(store.items, world.identifier(func));
      WriteFuncCode(codes);
    }

    /** True only if the code on disk is the function's own; it is afterwards in any case. */
    method CheckPreviousFuncCode(codes: map<Fn, Code>) returns (same: bool)
      requires func in codes
      modifies store, hashes
      ensures (same, Now(codes)) == CheckCode(world, old(Now(codes)), func)
      ensures old(Good(world, Now(codes))) ==> (same <==> old(IsCurrent(codes))) && IsCurrent(codes)
      ensures same ==> store.items == old(store.items)
    {
      hide WriteCode, Memory.Clear;
      ghost var s := Now(codes);
      if Good(world, s) { CheckExactly(world, s, func); }
      if func in hashes.table && hashes.table[func] == codes[func] { return true; }
      if world.identifier(func) !in store.funcCode {
        WriteFuncCode(codes);
        return false;
      }
      if store.funcCode[world.identifier(func)] == codes[func] { return true; }
      Clear(codes);
      same := false;
    }

    method IsInCacheAndValid(arg: Arg, valid: bool, codes: map<Fn, Code>) returns (hit: bool)
      requires func in codes
      modifies store, hashes
      ensures (hit, Now(codes)) == InCache(world, old(Now(codes)), func, arg, valid)
      ensures hit ==> valid && KeyOf(arg) in old(store.items) && store.items == old(store.items)
      ensures old(Good(world, Now(codes))) ==>
                (hit <==> valid && KeyOf(arg) in old(store.items) && old(IsCurrent(codes)))
      ensures old(Good(world, Now(codes)) && IsCurrent(codes)) ==>
                store.items == if valid then old(store.items) else old(store.items) - {KeyOf(arg)}
    {
      hide CheckCode, Good;
      var same := CheckPreviousFuncCode(codes);
      var key := Key(world.identifier(func), arg);
      if !same || key !in store.items { return false; }
      if !valid {
        store.items := store.items - {key};
        return false;
      }
      hit := true;
    }

    /** Forces the execution, and persists what the function returns. */
    method Call(arg: Arg, codes: map<Fn, Code>) returns (o: Outcome)
      requires func in codes
      modifies store`items, python
      ensures (o, Now(codes)) == Execute(world, old(Now(codes)), func, arg)
      ensures o == world.compute(codes[func], arg) && python.runs == old(python.runs) + [Execution(func, arg)]
      ensures o.Raised? ==> store.items == old(store.items)
      ensures o.Returned? ==> store.items == old(store.items)[KeyOf(arg) := Output(o.value)]
    {
      o := python.Run(world, func, arg, codes[func]);
      if o.Returned? { store.items := store.items[Key(world.identifier(func), arg) := Output(o.value)]; }
    }

    /** Whatever was cleared, evicted, corrupted or judged invalid: the answer is what the current code
        computes, read from the cache where that is possible. */
    method CachedCall(arg: Arg, valid: bool, shelving: bool, codes: map<Fn, Code>) returns (r: Answer)
      requires func in codes
      modifies store, hashes, python
      ensures r.Value? && old(Good(world, Now(codes))) ==> r.outcome == world.compute(codes[func], arg)
      ensures !shelving ==> (r, Now(codes)) == (Value(Memory.CachedCall(world, old(Now(codes)), func, arg, valid).0),
                                                Memory.CachedCall(world, old(Now(codes)), func, arg, valid).1)
      ensures shelving ==> Now(codes) == Shelved(world, old(Now(codes)), func, arg, valid)
      ensures shelving && r.Value? ==> r.outcome.Raised?
      ensures r.Reference? ==> shelving && r.key == KeyOf(arg) && r.key in store.items
      ensures old(Good(world, Now(codes))) ==>
                python.runs == if old(Stands(arg, valid, shelving, codes)) then old(python.runs)
                               else old(python.runs) + [Execution(func, arg)]
      ensures old(Good(world, Now(codes)) && Stands(arg, valid, shelving, codes)) ==> store.items == old(store.items)
    {
      hide CheckCode, Good, Execute;
      ghost var s := Now(codes);
      CheckCodeOnly(world, s, func);
      if Good(world, s) {
        TransparentCall(s, arg, valid);
        CallRunsExactly(world, s, func, arg, valid);
        ShelvingRunsExactly(world, s, func, arg, valid);
      }
      var key := Key(world.identifier(func), arg);
      var hit := IsInCacheAndValid(arg, valid, codes);
      if hit && shelving { return Reference(key); }
      if hit && store.items[key].Output? { return Value(Returned(store.items[key].value)); }
      var o := Call(arg, codes);
      r := if shelving && o.Returned? then Reference(key) else Value(o);
      ReturnedIsKept(s, arg, valid);
    }

    /** There is an entry for the call that can be used; to be read it must be intact. */
    ghost predicate Stands(arg: Arg, valid: bool, shelving: bool, codes: map<Fn, Code>)
      requires func in codes
      reads store
    {
      valid && IsCurrent(codes) && KeyOf(arg) in store.items && (shelving || store.items[KeyOf(arg)].Output?)
    }

    /** Looks for an entry, and does nothing else. */
    method CheckCallInCache(arg: Arg) returns (isInCache: bool)
      ensures isInCache <==> KeyOf(arg) in store.items
    {
      isInCache := KeyOf(arg) in store.items;
    }

    lemma TransparentCall(s: State, arg: Arg, valid: bool)
      requires Good(world, s) && func in s.code
      ensures Memory.CachedCall(world, s, func, arg, valid).0 == world.compute(s.code[func], arg)
    {
      GoodIsTransparent(world, s);
    }

    lemma ReturnedIsKept(s: State, arg: Arg, valid: bool)
      requires func in s.code
      ensures var t := InCache(world, s, func, arg, valid).1;
              func in t.code && t.code == s.code && (world.compute(s.code[func], arg).Returned? ==>
              Key(world.identifier(func), arg) in Execute(world, t, func, arg).1.items)
    {
    }
  }

  /** A reference to a cached value. */
  class MemorizedResult {
    const store: StoreBackend
    const key: Key

    constructor (s: StoreBackend, k: Key)
      ensures store == s && key == k
    {
      store, key := s, k;
    }

    /** The value, or the `KeyError` of a corrupt or missing entry. */
    method Get() returns (r: Entry)
      ensures r == if key in store.items then store.items[key] else Corrupt
    {
      if key !in store.items { return Corrupt; }
      r := store.items[key];
    }

    /** Removes the entry; it may be gone already. */
    method Clear()
      modifies store`items
      ensures store.items == old(store.items) - {key}
    {
      store.items := store.items - {key};
    }
  }

  /** The context object, for all functions of a store. */
  class MemoryContext {
    const store: StoreBackend
    const hashes: FunctionHashes

    constructor (s: StoreBackend, h: FunctionHashes)
      ensures store == s && hashes == h
    {
      store, hashes := s, h;
    }

    /** Erases the whole cache; the table of function hashes is reset with it. */
    method Clear()
      modifies store, hashes
      ensures store.items == map[] && store.funcCode == map[] && hashes.table == map[]
    {
      store.items, store.funcCode, hashes.table := map[], map[], map[];
    }
  }
}
