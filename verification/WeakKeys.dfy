/** Dictionaries keyed by object identity: `_WeakKeyDictionary`, and `_WeakArrayKeyMap`, which has the
    same structure. Python may give the id of a collected object to a new one, so an entry holds a
    weak reference next to the value, and a lookup checks it. */
module WeakKeys {
  import opened Wrappers

  /** An object, told apart from every other one that ever lived. */
  type Obj = nat

  /** The ids of all objects so far, and which of them are alive. */
  datatype Heap = Heap(ids: map<Obj, nat>, live: set<Obj>) {
    ghost predicate Ok() {
      && live <= ids.Keys
      && forall a, b :: a in live && b in live && ids[a] == ids[b] ==> a == b
    }

    /** A new object, at any id no live object has. */
    predicate CanAllocate(obj: Obj, id: nat) {
      obj !in ids && forall a :: a in live ==> a in ids && ids[a] != id
    }

    function Allocate(obj: Obj, id: nat): Heap { Heap(ids[obj := id], live + {obj}) }

    function Collect(obj: Obj): Heap { Heap(ids, live - {obj}) }
  }

  datatype Entry<V> = Entry(ref: Obj, value: V)

  /** `contents` is what the dictionary stands for: the last value set for each object, by identity. */
  class WeakKeyDictionary<V> {
    var data: map<nat, Entry<V>>
    ghost var contents: map<Obj, V>

    constructor ()
      ensures contents == map[] && forall h: Heap :: Valid(h)
    {
      data, contents := map[], map[];
    }

    ghost predicate Valid(h: Heap)
      reads this
    {
      && contents.Keys <= h.ids.Keys
      && (forall k :: k in data ==> data[k].ref in contents && h.ids[data[k].ref] == k)
      && (forall k :: k in data ==> contents[data[k].ref] == data[k].value)
      && (forall o :: o in contents && o in h.live ==> h.ids[o] in data && data[h.ids[o]].ref == o)
    }

    /** What the dictionary holds for the objects that are still alive. */
    ghost function Live(h: Heap): map<Obj, V>
      reads this
    {
      map o | o in contents && o in h.live :: contents[o]
    }

    /** The entries whose callback has still to run. */
    ghost function Dead(h: Heap): set<nat>
      reads this
    {
      set k | k in data && data[k].ref !in h.live
    }

    method Get(obj: Obj, h: Heap) returns (r: Option<V>)
      requires h.Ok() && Valid(h) && obj in h.live
      ensures r == if obj in contents then Some(contents[obj]) else None
    {
      var key := h.ids[obj];
      if key !in data || data[key].ref != obj {
        return None;
      }
      r := Some(data[key].value);
    }

    /** A live object keeps its reference; otherwise a new one replaces whatever is stored, and the
        callback of the replaced reference will never run. */
    method Set(obj: Obj, value: V, h: Heap)
      requires h.Ok() && Valid(h) && obj in h.live
      modifies this
      ensures Valid(h) && contents == old(contents)[obj := value]
      ensures data == old(data)[h.ids[obj] := Entry(obj, value)]
    {
      var key := h.ids[obj];
      var ref := if key in data && data[key].ref == obj then data[key].ref else obj;
      data := data[key := Entry(ref, value)];
      contents := contents[obj := value];
    }

    /** The callback of the reference stored at `key`: it finds the entry it deletes, and no live
        object loses its value. */
    method OnDestroy(key: nat, h: Heap)
      requires h.Ok() && Valid(h) && key in data && data[key].ref !in h.live
      modifies this
      ensures Valid(h) && Live(h) == old(Live(h)) && data == old(data) - {key} && contents == old(contents)
    {
      data := data - {key};
    }

    /** `__len__`: the number of live keyed objects, and of dead ones whose callback has still to run. */
    method Len(h: Heap) returns (n: nat)
      requires h.Ok() && Valid(h)
      ensures n == |Live(h)| + |Dead(h)|
    {
      SizeIsLive(h);
      n := |data|;
    }

    /** Allocation at a recycled id and collection leave the live part as it should be. */
    lemma HeapSteps(h: Heap, obj: Obj, id: nat)
      requires h.Ok() && Valid(h)
      ensures h.CanAllocate(obj, id) ==> h.Allocate(obj, id).Ok() && Valid(h.Allocate(obj, id))
                                         && Live(h.Allocate(obj, id)) == Live(h)
      ensures h.Collect(obj).Ok() && Valid(h.Collect(obj)) && Live(h.Collect(obj)) == Live(h) - {obj}
      ensures h.CanAllocate(obj, id) ==>
                h.Allocate(obj, id).live == h.live + {obj} && h.Allocate(obj, id).ids == h.ids[obj := id]
      ensures h.Collect(obj).live == h.live - {obj} && h.Collect(obj).ids == h.ids
    {
      if h.CanAllocate(obj, id) { assert obj !in contents; }
    }

    /** The stored size is the number of live keyed objects plus the callbacks still to run; without
        those it is exact. */
    lemma SizeIsLive(h: Heap)
      requires h.Ok() && Valid(h)
      ensures |data| == |Live(h)| + |Dead(h)|
    {
      var alive := set k | k in data && data[k].ref in h.live;
      Partition(data, alive, Dead(h));
      var live := Live(h);
      Domain(live);
      SameSize(live.Keys, alive, h.ids, data);
    }
  }

  /** The id of a collected object may be given to a new one at once. */
  lemma IdsAreRecycled(h: Heap, obj: Obj, later: Obj)
    requires h.Ok() && obj in h.live && later !in h.ids
    ensures h.Collect(obj).CanAllocate(later, h.ids[obj])
    ensures h.Collect(obj).Allocate(later, h.ids[obj]).ids[later] == h.ids[obj]
  {
  }

  lemma Partition<V>(data: map<nat, Entry<V>>, a: set<nat>, b: set<nat>)
    requires a !! b && data.Keys == a + b
    ensures |data| == |a| + |b|
  {
    assert |data.Keys| == |data|;
  }

  lemma Domain<V>(m: map<Obj, V>)
    ensures |m| == |m.Keys|
  {
  }

  /** Objects and the keys of their entries come in equal numbers. */
  lemma {:induction false} SameSize<V>(os: set<Obj>, ks: set<nat>, ids: map<Obj, nat>, data: map<nat, Entry<V>>)
    requires forall o :: o in os ==> o in ids && ids[o] in ks
    requires forall k :: k in ks ==> k in data && data[k].ref in os && ids[data[k].ref] == k
    requires forall o :: o in os ==> data[ids[o]].ref == o
    ensures |os| == |ks|
  {
    if o :| o in os {
      SameSize(os - {o}, ks - {ids[o]}, ids, data);
    } else {
      assert ks == {};
    }
  }

  /** How the dictionary and Python's heap evolve together. */
  datatype Event<V> =
    | Allocated(obj: Obj, id: nat) | SetItem(obj: Obj, value: V) | Collected(obj: Obj) | Callback(key: nat)

  /** Over any run of allocation, assignment, collection and callbacks the dictionary stays in step:
      `live` is a map keyed by identity from which collected objects disappear. */
  method Replay<V>(d: WeakKeyDictionary<V>, es: seq<Event<V>>, h0: Heap) returns (h: Heap, ghost live: map<Obj, V>)
    requires h0.Ok() && d.Valid(h0)
    modifies d
    ensures h.Ok() && d.Valid(h) && d.Live(h) == live
    ensures live == LiveAfter(old(d.Live(h0)), h0, es).0 && h == LiveAfter(old(d.Live(h0)), h0, es).1
  {
    h, live := h0, d.Live(h0);
    ghost var start := live;
    for i := 0 to |es|
      invariant h.Ok() && d.Valid(h) && d.Live(h) == live
      invariant LiveAfter(live, h, es[i..]) == LiveAfter(start, h0, es)
    {
      var e := es[i];
      assert es[i..][0] == e && es[i..][1..] == es[i + 1..];
      match e {
        case Allocated(obj, id) =>
          d.HeapSteps(h, obj, id);
          if h.CanAllocate(obj, id) { h := h.Allocate(obj, id); }
        case SetItem(obj, value) =>
          if obj in h.live {
            d.Set(obj, value, h);
            live := live[obj := value];
          }
        case Collected(obj) =>
          d.HeapSteps(h, obj, 0);
          h := h.Collect(obj);
          live := live - {obj};
        case Callback(key) =>
          if key in d.data && d.data[key].ref !in h.live { d.OnDestroy(key, h); }
      }
    }
    assert es[|es|..] == [];
  }

  /** The specification of a run, without any dictionary: events that cannot happen do nothing. */
  ghost function LiveAfter<V>(live: map<Obj, V>, h: Heap, es: seq<Event<V>>): (map<Obj, V>, Heap)
    decreases |es|
  {
    if es == [] then (live, h)
    else match es[0]
      case Allocated(obj, id) =>
        if h.CanAllocate(obj, id) then LiveAfter(live, h.Allocate(obj, id), es[1..]) else LiveAfter(live, h, es[1..])
      case SetItem(obj, value) =>
        if obj in h.live then LiveAfter(live[obj := value], h, es[1..]) else LiveAfter(live, h, es[1..])
      case Collected(obj) => LiveAfter(live - {obj}, h.Collect(obj), es[1..])
      case Callback(_) => LiveAfter(live, h, es[1..])
  }
}
