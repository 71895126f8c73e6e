/** The file format of `numpy_pickle`: pickle tokens with the raw bytes of arrays between them.

    The pickler saves a wrapper in place of an array and writes the bytes right after it; the unpickler
    replaces the wrapper on its stack by the array it reads there. */
module PickleFormat {
  import opened Wrappers

  type Byte = b: int | 0 <= b < 256

  type Bytes = seq<Byte>

  const ALIGNMENT: nat := 16

  /** What a wrapper carries. */
  datatype Descriptor = Descriptor(subclass: nat, shape: seq<nat>, fortran: bool, itemsize: nat, hasObject: bool,
                                   allowMmap: bool)

  datatype Atom = Leaf(n: nat) | State(desc: Descriptor)

  datatype Class = NumpyArrayWrapper | User(name: nat)

  /** The tokens of the pickle format that matter here. */
  datatype Token = Push(atom: Atom) | Collect(n: nat) | New(cls: Class) | Build | Stop

  /** Raw bytes in memory order, or Python objects, which are pickled apart. */
  datatype Array = Raw(desc: Descriptor, data: Bytes) | Objects(desc: Descriptor, items: Atom)

  datatype Value =
    | Scalar(atom: Atom) | List(items: seq<Value>) | Object(name: nat, state: Value) | NdArray(array: Array)

  function Product(shape: seq<nat>): nat { if shape == [] then 1 else shape[0] * Product(shape[1..]) }

  function Size(d: Descriptor): nat { d.itemsize * Product(d.shape) }

  /** A scalar takes one item, and an array that of its first axis as many times over. */
  lemma {:induction false} SizeExactly(d: Descriptor, n: nat, shape: seq<nat>)
    ensures Size(d.(shape := [])) == d.itemsize
    ensures Size(d.(shape := [n] + shape)) == n * Size(d.(shape := shape))
  {
    var p := Product(shape);
    assert ([n] + shape)[1..] == shape && Product([n] + shape) == n * p;
    Swap(d.itemsize, n, p);
  }

  lemma Swap(a: nat, b: nat, c: nat)
    ensures a * (b * c) == b * (a * c)
  {
  }

  predicate ArrayOk(a: Array) {
    if a.Raw? then !a.desc.hasObject && |a.data| == Size(a.desc) else a.desc.hasObject
  }

  predicate Ok(v: Value) {
    match v
    case Scalar(_) => true
    case List(items) => forall i :: 0 <= i < |items| ==> Ok(items[i])
    case Object(_, state) => Ok(state)
    case NdArray(a) => ArrayOk(a)
  }

  // ---------------------------------------------------------------- the tokens

  /** A token, and how many bytes it takes. */
  datatype Found = Found(token: Token, length: nat)

  /** How tokens are written, and read back where they start. */
  datatype Codec = Codec(encode: Token -> Bytes, decode: Bytes -> Option<Found>)

  ghost predicate SelfDelimiting(c: Codec) {
    forall t, rest :: |c.encode(t)| > 0 && c.decode(c.encode(t) + rest) == Some(Found(t, |c.encode(t)|))
  }

  // ---------------------------------------------------------------- the pickler

  /** The length of the padding that follows its length byte at `pos`. */
  function Padding(pos: nat): Byte { ALIGNMENT - (pos + 1) % ALIGNMENT }

  function Filling(n: nat): Bytes { seq(n, _ => 255) }

  /** The array after its wrapper, which ends at `pos`. */
  function Payload(c: Codec, a: Array, pos: nat): Bytes {
    match a
    case Raw(_, data) => [Padding(pos)] + Filling(Padding(pos)) + data
    case Objects(_, items) => c.encode(Push(items)) + c.encode(Stop)
  }

  function Wrapper(c: Codec, d: Descriptor): Bytes {
    c.encode(New(NumpyArrayWrapper)) + c.encode(Push(State(d))) + c.encode(Build)
  }

  /** What saving a value at `pos` writes. */
  function Save(c: Codec, v: Value, pos: nat): Bytes {
    match v
    case Scalar(a) => c.encode(Push(a))
    case List(items) => SaveAll(c, items, pos) + c.encode(Collect(|items|))
    case Object(name, state) =>
      var head := c.encode(New(User(name)));
      head + Save(c, state, pos + |head|) + c.encode(Build)
    case NdArray(a) => Wrapper(c, a.desc) + Payload(c, a, pos + |Wrapper(c, a.desc)|)
  }

  function SaveAll(c: Codec, vs: seq<Value>, pos: nat): Bytes {
    if vs == [] then []
    else var first := Save(c, vs[0], pos); first + SaveAll(c, vs[1..], pos + |first|)
  }

  function Dump(c: Codec, v: Value, pos: nat): Bytes { Save(c, v, pos) + c.encode(Stop) }

  // ---------------------------------------------------------------- the unpickler

  /** What is on the stack: values, and objects whose state is still to be set. */
  datatype Item = Made(value: Value) | Fresh(cls: Class)

  /** The token at `pos`, which must be there in full. */
  function TokenAt(c: Codec, file: Bytes, pos: nat): (r: Option<Found>)
    ensures r.Some? ==> 0 < r.value.length <= |file| - pos
  {
    if pos > |file| then None
    else match c.decode(file[pos..])
      case None => None
      case Some(found) => if 0 < found.length <= |file| - pos then Some(found) else None
  }

  /** Where the bytes of an array start whose wrapper ends at `pos`. */
  function Start(file: Bytes, d: Descriptor, pos: nat): (r: Option<nat>)
    ensures r.Some? ==> pos < r.value && r.value + Size(d) <= |file|
  {
    if pos >= |file| || pos + 1 + file[pos] + Size(d) > |file| then None else Some(pos + 1 + file[pos])
  }

  function ReadArray(c: Codec, file: Bytes, d: Descriptor, pos: nat): (r: Option<(Array, nat)>)
    ensures r.Some? ==> r.value.1 >= pos
  {
    if d.hasObject then
      match TokenAt(c, file, pos)
      case Some(Found(Push(items), n)) =>
        (match TokenAt(c, file, pos + n)
         case Some(Found(Stop, m)) => Some((Objects(d, items), pos + n + m))
         case _ => None)
      case _ => None
    else
      match Start(file, d, pos)
      case None => None
      case Some(start) => Some((Raw(d, file[start..start + Size(d)]), start + Size(d)))
  }

  function Values(stack: seq<Item>): Option<seq<Value>> {
    if stack == [] then Some([])
    else match Values(stack[1..])
      case None => None
      case Some(rest) => if stack[0].Made? then Some([stack[0].value] + rest) else None
  }

  /** `load_build`: sets the state of the object below it, and puts an array in the place of a wrapper. */
  function LoadBuild(c: Codec, file: Bytes, pos: nat, stack: seq<Item>): (r: Option<(seq<Item>, nat)>)
    ensures r.Some? ==> r.value.1 >= pos
  {
    var n := |stack|;
    if n < 2 || !stack[n - 1].Made? || !stack[n - 2].Fresh? then None
    else if stack[n - 2].cls.User? then
      Some((stack[..n - 2] + [Made(Object(stack[n - 2].cls.name, stack[n - 1].value))], pos))
    else if !stack[n - 1].value.Scalar? || !stack[n - 1].value.atom.State? then None
    else match ReadArray(c, file, stack[n - 1].value.atom.desc, pos)
      case None => None
      case Some((a, end)) => Some((stack[..n - 2] + [Made(NdArray(a))], end))
  }

  /** What one token does to the stack, and where the next one is. */
  function Execute(c: Codec, file: Bytes, pos: nat, stack: seq<Item>, t: Token): (r: Option<(seq<Item>, nat)>)
    requires !t.Stop?
    ensures r.Some? ==> r.value.1 >= pos
  {
    match t
    case Push(a) => Some((stack + [Made(Scalar(a))], pos))
    case New(cls) => Some((stack + [Fresh(cls)], pos))
    case Build => LoadBuild(c, file, pos, stack)
    case Collect(n) =>
      if n > |stack| then None
      else match Values(stack[|stack| - n..])
        case None => None
        case Some(items) => Some((stack[..|stack| - n] + [Made(List(items))], pos))
  }

  /** Reads tokens up to `Stop`: the value, and the position after it. */
  function Run(c: Codec, file: Bytes, pos: nat, stack: seq<Item>): Option<(Value, nat)>
    decreases |file| - pos
  {
    match TokenAt(c, file, pos)
    case None => None
    case Some(Found(t, n)) =>
      if t.Stop? then
        (if stack != [] && stack[|stack| - 1].Made? then Some((stack[|stack| - 1].value, pos + n)) else None)
      else match Execute(c, file, pos + n, stack, t)
        case None => None
        case Some((s, p)) => Run(c, file, p, s)
  }

  function Load(c: Codec, file: Bytes, pos: nat): Option<(Value, nat)> { Run(c, file, pos, []) }

  // ---------------------------------------------------------------- there and back

  predicate Here(file: Bytes, pos: nat, bytes: Bytes) {
    pos + |bytes| <= |file| && file[pos..pos + |bytes|] == bytes
  }

  lemma HereSplit(file: Bytes, pos: nat, a: Bytes, b: Bytes)
    requires Here(file, pos, a + b)
    ensures Here(file, pos, a) && Here(file, pos + |a|, b)
  {
    assert file[pos..pos + |a|] == (a + b)[..|a|] == a;
    assert file[pos + |a|..pos + |a| + |b|] == (a + b)[|a|..] == b;
  }

  lemma TokenHere(c: Codec, file: Bytes, pos: nat, t: Token)
    requires SelfDelimiting(c) && Here(file, pos, c.encode(t))
    ensures TokenAt(c, file, pos) == Some(Found(t, |c.encode(t)|))
  {
    assert file[pos..] == c.encode(t) + file[pos + |c.encode(t)|..];
  }

  /** One token that is not the last. */
  lemma TokenRuns(c: Codec, file: Bytes, pos: nat, t: Token, stack: seq<Item>)
    requires SelfDelimiting(c) && Here(file, pos, c.encode(t)) && !t.Stop?
    ensures var r := Execute(c, file, pos + |c.encode(t)|, stack, t);
            Run(c, file, pos, stack) == match r { case None => None case Some((s, p)) => Run(c, file, p, s) }
  {
    TokenHere(c, file, pos, t);
  }

  lemma {:induction false} PayloadReads(c: Codec, file: Bytes, a: Array, pos: nat)
    requires SelfDelimiting(c) && ArrayOk(a) && Here(file, pos, Payload(c, a, pos))
    ensures ReadArray(c, file, a.desc, pos) == Some((a, pos + |Payload(c, a, pos)|))
  {
    match a
    case Raw(d, data) =>
      var head := [Padding(pos)] + Filling(Padding(pos));
      assert Payload(c, a, pos) == head + data;
      HereSplit(file, pos, head, data);
      assert file[pos] == head[0];
    case Objects(_, items) =>
      HereSplit(file, pos, c.encode(Push(items)), c.encode(Stop));
      TokenHere(c, file, pos, Push(items));
      TokenHere(c, file, pos + |c.encode(Push(items))|, Stop);
  }

  function AllMade(vs: seq<Value>): seq<Item> { seq(|vs|, i requires 0 <= i < |vs| => Made(vs[i])) }

  lemma {:induction false} MadeValues(vs: seq<Value>)
    ensures Values(AllMade(vs)) == Some(vs)
  {
    if vs != [] {
      MadeValues(vs[1..]);
      assert AllMade(vs)[1..] == AllMade(vs[1..]);
      assert vs == [vs[0]] + vs[1..];
    }
  }

  lemma {:induction false} ArrayLoads(c: Codec, file: Bytes, a: Array, pos: nat, stack: seq<Item>)
    requires SelfDelimiting(c) && ArrayOk(a) && Here(file, pos, Save(c, NdArray(a), pos))
    ensures Run(c, file, pos, stack) == Run(c, file, pos + |Save(c, NdArray(a), pos)|, stack + [Made(NdArray(a))])
  {
    hide SelfDelimiting, Payload, ReadArray, Run, TokenAt;
    var x, y, z := c.encode(New(NumpyArrayWrapper)), c.encode(Push(State(a.desc))), c.encode(Build);
    var payload := Payload(c, a, pos + |Wrapper(c, a.desc)|);
    HereSplit(file, pos, Wrapper(c, a.desc), payload);
    HereSplit(file, pos, x + y, z);
    HereSplit(file, pos, x, y);
    TokenRuns(c, file, pos, New(NumpyArrayWrapper), stack);
    TokenRuns(c, file, pos + |x|, Push(State(a.desc)), stack + [Fresh(NumpyArrayWrapper)]);
    var full := stack + [Fresh(NumpyArrayWrapper)] + [Made(Scalar(State(a.desc)))];
    TokenRuns(c, file, pos + |x| + |y|, Build, full);
    PayloadReads(c, file, a, pos + |Wrapper(c, a.desc)|);
    assert full[..|full| - 2] == stack;
  }

  /** Running the tokens and array bytes of a value pushes that value, whatever the stack, the position
      and what follows. */
  lemma {:induction false} SavedRuns(c: Codec, file: Bytes, v: Value, pos: nat, stack: seq<Item>)
    requires SelfDelimiting(c) && Ok(v) && Here(file, pos, Save(c, v, pos))
    ensures Run(c, file, pos, stack) == Run(c, file, pos + |Save(c, v, pos)|, stack + [Made(v)])
    decreases v, 1, 0
  {
    hide SelfDelimiting, Payload, ReadArray, Run, TokenAt;
    match v
    case Scalar(a) =>
      TokenRuns(c, file, pos, Push(a), stack);
    case List(items) =>
      var all, last := SaveAll(c, items, pos), c.encode(Collect(|items|));
      HereSplit(file, pos, all, last);
      SavedAllRun(c, file, v, items, pos, stack);
      var full := stack + AllMade(items);
      TokenRuns(c, file, pos + |all|, Collect(|items|), full);
      assert full[|full| - |items|..] == AllMade(items) && full[..|full| - |items|] == stack;
      MadeValues(items);
    case Object(name, state) =>
      var head, last := c.encode(New(User(name))), c.encode(Build);
      var middle := Save(c, state, pos + |head|);
      HereSplit(file, pos, head + middle, last);
      HereSplit(file, pos, head, middle);
      TokenRuns(c, file, pos, New(User(name)), stack);
      SavedRuns(c, file, state, pos + |head|, stack + [Fresh(User(name))]);
      var full := stack + [Fresh(User(name))] + [Made(state)];
      TokenRuns(c, file, pos + |head| + |middle|, Build, full);
      assert full[..|full| - 2] == stack;
    case NdArray(a) =>
      ArrayLoads(c, file, a, pos, stack);
  }

  lemma {:induction false} SavedAllRun(c: Codec, file: Bytes, v: Value, vs: seq<Value>, pos: nat, stack: seq<Item>)
    requires SelfDelimiting(c) && Here(file, pos, SaveAll(c, vs, pos))
    requires v.List? && forall i :: 0 <= i < |vs| ==> vs[i] in v.items && Ok(vs[i])
    ensures Run(c, file, pos, stack) == Run(c, file, pos + |SaveAll(c, vs, pos)|, stack + AllMade(vs))
    decreases v, 0, |vs|
  {
    hide SelfDelimiting, Run, Save;
    if vs == [] {
      assert stack + AllMade(vs) == stack;
    } else {
      var first := Save(c, vs[0], pos);
      var rest := SaveAll(c, vs[1..], pos + |first|);
      HereSplit(file, pos, first, rest);
      SavedRuns(c, file, vs[0], pos, stack);
      SavedAllRun(c, file, v, vs[1..], pos + |first|, stack + [Made(vs[0])]);
      assert stack + [Made(vs[0])] + AllMade(vs[1..]) == stack + AllMade(vs);
    }
  }

  /** Loading what was dumped, at any position of any file, rebuilds the value and stops right after it. */
  lemma {:induction false} LoadsWhatWasDumped(c: Codec, file: Bytes, v: Value, pos: nat)
    requires SelfDelimiting(c) && Ok(v) && Here(file, pos, Dump(c, v, pos))
    ensures Load(c, file, pos) == Some((v, pos + |Dump(c, v, pos)|))
  {
    HereSplit(file, pos, Save(c, v, pos), c.encode(Stop));
    SavedRuns(c, file, v, pos, []);
    TokenHere(c, file, pos + |Save(c, v, pos)|, Stop);
    assert [] + [Made(v)] == [Made(v)];
  }

  /** Several values dumped one after the other are loaded one after the other. */
  function DumpEach(c: Codec, vs: seq<Value>, pos: nat): Bytes {
    if vs == [] then []
    else var first := Dump(c, vs[0], pos); first + DumpEach(c, vs[1..], pos + |first|)
  }

  function LoadEach(c: Codec, file: Bytes, n: nat, pos: nat): Option<(seq<Value>, nat)> {
    if n == 0 then Some(([], pos))
    else match Load(c, file, pos)
      case None => None
      case Some((v, p)) =>
        match LoadEach(c, file, n - 1, p)
        case None => None
        case Some((rest, end)) => Some(([v] + rest, end))
  }

  lemma {:induction false} LoadsEachDumped(c: Codec, file: Bytes, vs: seq<Value>, pos: nat)
    requires SelfDelimiting(c) && Here(file, pos, DumpEach(c, vs, pos))
    requires forall i :: 0 <= i < |vs| ==> Ok(vs[i])
    ensures LoadEach(c, file, |vs|, pos) == Some((vs, pos + |DumpEach(c, vs, pos)|))
  {
    hide Dump, Load;
    if vs != [] {
      var first := Dump(c, vs[0], pos);
      HereSplit(file, pos, first, DumpEach(c, vs[1..], pos + |first|));
      LoadsWhatWasDumped(c, file, vs[0], pos);
      LoadsEachDumped(c, file, vs[1..], pos + |first|);
      assert vs == [vs[0]] + vs[1..];
    }
  }

  // ---------------------------------------------------------------- alignment

  /** Where the bytes of a raw array are. */
  datatype Extent = Extent(start: nat, data: Bytes)

  function Extents(c: Codec, v: Value, pos: nat): seq<Extent> {
    match v
    case Scalar(_) => []
    case List(items) => ExtentsAll(c, items, pos)
    case Object(name, state) => Extents(c, state, pos + |c.encode(New(User(name)))|)
    case NdArray(Objects(_, _)) => []
    case NdArray(Raw(d, data)) =>
      var p := pos + |Wrapper(c, d)|;
      [Extent(p + 1 + Padding(p), data)]
  }

  function ExtentsAll(c: Codec, vs: seq<Value>, pos: nat): seq<Extent> {
    if vs == [] then []
    else Extents(c, vs[0], pos) + ExtentsAll(c, vs[1..], pos + |Save(c, vs[0], pos)|)
  }

  /** The contents of the raw arrays of a value, in order. */
  function Contents(v: Value): seq<Bytes> {
    match v
    case Scalar(_) => []
    case List(items) => ContentsAll(items)
    case Object(_, state) => Contents(state)
    case NdArray(Objects(_, _)) => []
    case NdArray(Raw(_, data)) => [data]
  }

  function ContentsAll(vs: seq<Value>): seq<Bytes> {
    if vs == [] then [] else Contents(vs[0]) + ContentsAll(vs[1..])
  }

  ghost predicate Placed(file: Bytes, extents: seq<Extent>, contents: seq<Bytes>) {
    && |extents| == |contents|
    && forall i :: 0 <= i < |extents| ==>
         && extents[i].data == contents[i] && extents[i].start % ALIGNMENT == 0
         && Here(file, extents[i].start, extents[i].data)
  }

  lemma {:induction false} RawPlaced(c: Codec, file: Bytes, d: Descriptor, data: Bytes, pos: nat)
    requires Here(file, pos, Save(c, NdArray(Raw(d, data)), pos))
    ensures Placed(file, Extents(c, NdArray(Raw(d, data)), pos), [data])
    ensures |data| == Size(d) ==>
              Start(file, d, pos + |Wrapper(c, d)|) == Some(Extents(c, NdArray(Raw(d, data)), pos)[0].start)
  {
    hide Wrapper, Product;
    var w := Wrapper(c, d);
    var p := pos + |w|;
    var head := [Padding(p)] + Filling(Padding(p));
    HereSplit(file, pos, w, head + data);
    HereSplit(file, p, head, data);
    assert file[p] == head[0];
  }

  /** The bytes of every array are at an offset that is a multiple of 16, whatever the position, so that
      mapping the file there gives the array. */
  lemma {:induction false} ArraysAreAligned(c: Codec, file: Bytes, v: Value, pos: nat)
    requires Here(file, pos, Save(c, v, pos))
    ensures Placed(file, Extents(c, v, pos), Contents(v))
    decreases v, 1, 0
  {
    hide Placed;
    match v
    case Scalar(_) => assert Placed(file, [], []) by { EmptyPlaced(file); }
    case List(items) =>
      HereSplit(file, pos, SaveAll(c, items, pos), c.encode(Collect(|items|)));
      AllAligned(c, file, v, items, pos);
    case Object(name, state) =>
      var head := c.encode(New(User(name)));
      var middle := Save(c, state, pos + |head|);
      HereSplit(file, pos, head + middle, c.encode(Build));
      HereSplit(file, pos, head, middle);
      ArraysAreAligned(c, file, state, pos + |head|);
    case NdArray(Objects(_, _)) => EmptyPlaced(file);
    case NdArray(Raw(d, data)) => RawPlaced(c, file, d, data, pos);
  }

  lemma EmptyPlaced(file: Bytes)
    ensures Placed(file, [], [])
  {
  }

  lemma {:induction false} PlacedTogether(file: Bytes, a: seq<Extent>, b: seq<Extent>, x: seq<Bytes>, y: seq<Bytes>)
    requires Placed(file, a, x) && Placed(file, b, y)
    ensures Placed(file, a + b, x + y)
  {
  }

  lemma {:induction false} AllAligned(c: Codec, file: Bytes, v: Value, vs: seq<Value>, pos: nat)
    requires Here(file, pos, SaveAll(c, vs, pos)) && v.List? && forall i :: 0 <= i < |vs| ==> vs[i] in v.items
    ensures Placed(file, ExtentsAll(c, vs, pos), ContentsAll(vs))
    decreases v, 0, |vs|
  {
    hide Placed, Save;
    if vs == [] {
      EmptyPlaced(file);
    } else {
      var first := Save(c, vs[0], pos);
      HereSplit(file, pos, first, SaveAll(c, vs[1..], pos + |first|));
      ArraysAreAligned(c, file, vs[0], pos);
      AllAligned(c, file, v, vs[1..], pos + |first|);
      PlacedTogether(file, Extents(c, vs[0], pos), ExtentsAll(c, vs[1..], pos + |first|),
                     Contents(vs[0]), ContentsAll(vs[1..]));
    }
  }
}
