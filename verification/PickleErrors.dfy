/** What is not loaded. A file that ends before a dumped value does is refused, wherever it was cut: in a token,
    in the padding of an array, in its bytes or before the last token. And of any file whatever, only what is
    there in full is loaded. */
module PickleErrors {
  import opened Wrappers
  import opened PickleFormat

  /** A token that is cut short is not taken for another one. */
  ghost predicate KnowsTheEnd(c: Codec) {
    forall t, k :: 0 <= k < |c.encode(t)| ==> c.decode(c.encode(t)[..k]) == None
  }

  /** The file ends in the middle of these bytes, or before them. */
  predicate Partly(file: Bytes, pos: nat, bytes: Bytes) {
    pos <= |file| < pos + |bytes| && file[pos..] == bytes[..|file| - pos]
  }

  lemma CutSplit(file: Bytes, pos: nat, a: Bytes, b: Bytes)
    requires Partly(file, pos, a + b)
    ensures Partly(file, pos, a) || (Here(file, pos, a) && Partly(file, pos + |a|, b))
  {
    var k := |file| - pos;
    if k < |a| {
      assert (a + b)[..k] == a[..k];
    } else {
      assert file[pos..pos + |a|] == file[pos..][..|a|] == (a + b)[..k][..|a|] == a;
      assert file[pos + |a|..] == file[pos..][|a|..] == (a + b)[..k][|a|..] == b[..k - |a|];
    }
  }

  lemma CutToken(c: Codec, file: Bytes, pos: nat, t: Token, stack: seq<Item>)
    requires KnowsTheEnd(c) && Partly(file, pos, c.encode(t))
    ensures TokenAt(c, file, pos) == None && Run(c, file, pos, stack) == None
  {
    assert file[pos..] == c.encode(t)[..|file| - pos];
  }

  lemma CutArray(c: Codec, file: Bytes, a: Array, pos: nat)
    requires SelfDelimiting(c) && KnowsTheEnd(c) && ArrayOk(a) && Partly(file, pos, Payload(c, a, pos))
    ensures ReadArray(c, file, a.desc, pos) == None
  {
    match a
    case Raw(d, data) =>
      var bytes := Payload(c, a, pos);
      if pos < |file| { assert file[pos] == file[pos..][0] == bytes[0]; }
    case Objects(_, items) =>
      var x, y := c.encode(Push(items)), c.encode(Stop);
      CutSplit(file, pos, x, y);
      if Partly(file, pos, x) {
        CutToken(c, file, pos, Push(items), []);
      } else {
        TokenHere(c, file, pos, Push(items));
        CutToken(c, file, pos + |x|, Stop, []);
      }
  }

  /** Up to its last token a wrapper is on the stack with its state. */
  lemma WrapperRuns(c: Codec, file: Bytes, d: Descriptor, pos: nat, stack: seq<Item>)
    requires SelfDelimiting(c) && Here(file, pos, c.encode(New(NumpyArrayWrapper)) + c.encode(Push(State(d))))
    ensures var next := pos + |c.encode(New(NumpyArrayWrapper))| + |c.encode(Push(State(d)))|;
            Run(c, file, pos, stack) == Run(c, file, next, Waiting(d, stack))
  {
    hide SelfDelimiting, Run, TokenAt;
    var x, y := c.encode(New(NumpyArrayWrapper)), c.encode(Push(State(d)));
    HereSplit(file, pos, x, y);
    TokenRuns(c, file, pos, New(NumpyArrayWrapper), stack);
    TokenRuns(c, file, pos + |x|, Push(State(d)), stack + [Fresh(NumpyArrayWrapper)]);
  }

  function Waiting(d: Descriptor, stack: seq<Item>): seq<Item> {
    stack + [Fresh(NumpyArrayWrapper)] + [Made(Scalar(State(d)))]
  }

  lemma CutWrapper(c: Codec, file: Bytes, d: Descriptor, pos: nat, stack: seq<Item>)
    requires SelfDelimiting(c) && KnowsTheEnd(c) && Partly(file, pos, Wrapper(c, d))
    ensures Run(c, file, pos, stack) == None
  {
    hide SelfDelimiting, KnowsTheEnd, Run, TokenAt, Partly, Here;
    var x, y, z := c.encode(New(NumpyArrayWrapper)), c.encode(Push(State(d))), c.encode(Build);
    CutSplit(file, pos, x + y, z);
    if Partly(file, pos, x + y) {
      CutSplit(file, pos, x, y);
      if Partly(file, pos, x) {
        CutToken(c, file, pos, New(NumpyArrayWrapper), stack);
      } else {
        TokenRuns(c, file, pos, New(NumpyArrayWrapper), stack);
        CutToken(c, file, pos + |x|, Push(State(d)), stack + [Fresh(NumpyArrayWrapper)]);
      }
    } else {
      WrapperRuns(c, file, d, pos, stack);
      CutToken(c, file, pos + |x| + |y|, Build, Waiting(d, stack));
    }
  }

  lemma CutNdArray(c: Codec, file: Bytes, a: Array, pos: nat, stack: seq<Item>)
    requires SelfDelimiting(c) && KnowsTheEnd(c) && ArrayOk(a) && Partly(file, pos, Save(c, NdArray(a), pos))
    ensures Run(c, file, pos, stack) == None
  {
    hide SelfDelimiting, KnowsTheEnd, Payload, ReadArray, Run, TokenAt, Partly, Here;
    var x, y, z := c.encode(New(NumpyArrayWrapper)), c.encode(Push(State(a.desc))), c.encode(Build);
    CutSplit(file, pos, Wrapper(c, a.desc), Payload(c, a, pos + |Wrapper(c, a.desc)|));
    if Partly(file, pos, Wrapper(c, a.desc)) {
      CutWrapper(c, file, a.desc, pos, stack);
    } else {
      HereSplit(file, pos, x + y, z);
      WrapperRuns(c, file, a.desc, pos, stack);
      TokenRuns(c, file, pos + |x| + |y|, Build, Waiting(a.desc, stack));
      CutArray(c, file, a, pos + |Wrapper(c, a.desc)|);
    }
  }

  /** Running what is left of a value that was cut anywhere comes to nothing, whatever the stack. */
  lemma {:induction false} CutValue(c: Codec, file: Bytes, v: Value, pos: nat, stack: seq<Item>)
    requires SelfDelimiting(c) && KnowsTheEnd(c) && Ok(v) && Partly(file, pos, Save(c, v, pos))
    ensures Run(c, file, pos, stack) == None
    decreases v, 1, 0
  {
    hide SelfDelimiting, KnowsTheEnd, Payload, ReadArray, Run, TokenAt, Partly;
    match v
    case Scalar(a) =>
      CutToken(c, file, pos, Push(a), stack);
    case List(items) =>
      var all, last := SaveAll(c, items, pos), c.encode(Collect(|items|));
      CutSplit(file, pos, all, last);
      if Partly(file, pos, all) {
        CutAll(c, file, v, items, pos, stack);
      } else {
        SavedAllRun(c, file, v, items, pos, stack);
        CutToken(c, file, pos + |all|, Collect(|items|), stack + AllMade(items));
      }
    case Object(name, state) =>
      var head, last := c.encode(New(User(name))), c.encode(Build);
      var middle := Save(c, state, pos + |head|);
      CutSplit(file, pos, head + middle, last);
      if Partly(file, pos, head + middle) {
        CutSplit(file, pos, head, middle);
        if Partly(file, pos, head) {
          CutToken(c, file, pos, New(User(name)), stack);
        } else {
          TokenRuns(c, file, pos, New(User(name)), stack);
          CutValue(c, file, state, pos + |head|, stack + [Fresh(User(name))]);
        }
      } else {
        HereSplit(file, pos, head, middle);
        TokenRuns(c, file, pos, New(User(name)), stack);
        SavedRuns(c, file, state, pos + |head|, stack + [Fresh(User(name))]);
        CutToken(c, file, pos + |head + middle|, Build, stack + [Fresh(User(name))] + [Made(state)]);
      }
    case NdArray(a) =>
      CutNdArray(c, file, a, pos, stack);
  }

  lemma {:induction false} CutAll(c: Codec, file: Bytes, v: Value, vs: seq<Value>, pos: nat, stack: seq<Item>)
    requires SelfDelimiting(c) && KnowsTheEnd(c) && Partly(file, pos, SaveAll(c, vs, pos))
    requires v.List? && forall i :: 0 <= i < |vs| ==> vs[i] in v.items && Ok(vs[i])
    ensures Run(c, file, pos, stack) == None
    decreases v, 0, |vs|
  {
    hide SelfDelimiting, KnowsTheEnd, Run, Save;
    if vs != [] {
      var first := Save(c, vs[0], pos);
      var rest := SaveAll(c, vs[1..], pos + |first|);
      CutSplit(file, pos, first, rest);
      if Partly(file, pos, first) {
        CutValue(c, file, vs[0], pos, stack);
      } else {
        SavedRuns(c, file, vs[0], pos, stack);
        CutAll(c, file, v, vs[1..], pos + |first|, stack + [Made(vs[0])]);
      }
    }
  }

  /** Whatever value was dumped, and wherever the file ends before the dump does: it is not loaded. */
  lemma {:induction false} TruncatedIsRefused(c: Codec, file: Bytes, v: Value, pos: nat)
    requires SelfDelimiting(c) && KnowsTheEnd(c) && Ok(v) && Partly(file, pos, Dump(c, v, pos))
    ensures Load(c, file, pos) == None
  {
    CutSplit(file, pos, Save(c, v, pos), c.encode(Stop));
    if Partly(file, pos, Save(c, v, pos)) {
      CutValue(c, file, v, pos, []);
    } else {
      SavedRuns(c, file, v, pos, []);
      CutToken(c, file, pos + |Save(c, v, pos)|, Stop, [] + [Made(v)]);
    }
  }

  // ---------------------------------------------------------------- any file

  ghost predicate StackOk(stack: seq<Item>) {
    forall i :: 0 <= i < |stack| && stack[i].Made? ==> Ok(stack[i].value)
  }

  lemma {:induction false} ValuesOk(stack: seq<Item>)
    requires StackOk(stack)
    ensures Values(stack).Some? ==> Ok(List(Values(stack).value)) && |Values(stack).value| == |stack|
  {
    if stack != [] {
      assert forall i :: 0 <= i < |stack[1..]| ==> stack[1..][i] == stack[i + 1];
      ValuesOk(stack[1..]);
    }
  }

  /** An array is read whole, from bytes that are there. */
  lemma ArrayIsWhole(c: Codec, file: Bytes, d: Descriptor, pos: nat)
    ensures match ReadArray(c, file, d, pos)
            case None => true
            case Some((a, end)) =>
              && a.desc == d && ArrayOk(a) && pos < end <= |file|
              && (a.Raw? ==> end >= |a.data| && Here(file, end - |a.data|, a.data))
  {
  }

  lemma TokenKeepsOk(c: Codec, file: Bytes, pos: nat, stack: seq<Item>, t: Token)
    requires StackOk(stack) && !t.Stop? && pos <= |file|
    ensures var r := Execute(c, file, pos, stack, t); r.Some? ==> StackOk(r.value.0) && r.value.1 <= |file|
  {
    hide ReadArray;
    forall d ensures ReadArray(c, file, d, pos).Some? ==>
                       ArrayOk(ReadArray(c, file, d, pos).value.0) && ReadArray(c, file, d, pos).value.1 <= |file|
    {
      ArrayIsWhole(c, file, d, pos);
    }
    if t.Collect? && t.n <= |stack| { ValuesOk(stack[|stack| - t.n..]); }
  }

  /** Whatever file it is: what is loaded is a well-formed value, each of whose arrays has all its bytes, and
      it was read from within the file. */
  lemma {:induction false} LoadedIsWhole(c: Codec, file: Bytes, pos: nat, stack: seq<Item>)
    requires StackOk(stack)
    ensures var r := Run(c, file, pos, stack); r.Some? ==> Ok(r.value.0) && pos < r.value.1 <= |file|
    decreases |file| - pos
  {
    hide Execute;
    var found := TokenAt(c, file, pos);
    if found.Some? && !found.value.token.Stop? {
      var next := pos + found.value.length;
      TokenKeepsOk(c, file, next, stack, found.value.token);
      var r := Execute(c, file, next, stack, found.value.token);
      if r.Some? { LoadedIsWhole(c, file, r.value.1, r.value.0); }
    }
  }

  lemma {:induction false} ValuesExactly(stack: seq<Item>)
    ensures Values(stack).Some? <==> forall i :: 0 <= i < |stack| ==> stack[i].Made?
  {
    if stack != [] {
      ValuesExactly(stack[1..]);
      assert forall i :: 0 <= i < |stack[1..]| ==> stack[1..][i] == stack[i + 1];
    }
  }

  /** What a token needs on the stack, and behind it in the file. */
  ghost predicate Ready(c: Codec, file: Bytes, pos: nat, stack: seq<Item>, t: Token) {
    var n := |stack|;
    match t
    case Push(_) => true
    case New(_) => true
    case Collect(k) => k <= n && forall i :: n - k <= i < n ==> stack[i].Made?
    case Build =>
      && n >= 2 && stack[n - 1].Made? && stack[n - 2].Fresh?
      && (stack[n - 2].cls.User? || exists d :: stack[n - 1] == Made(Scalar(State(d))) && HasArray(c, file, pos, d))
    case Stop => n > 0 && stack[n - 1].Made?
  }

  /** The bytes of an array, or the pickle of its objects, are there in full. */
  ghost predicate HasArray(c: Codec, file: Bytes, pos: nat, d: Descriptor) {
    if d.hasObject
    then
      && TokenAt(c, file, pos).Some? && TokenAt(c, file, pos).value.token.Push?
      && TokenAt(c, file, pos + TokenAt(c, file, pos).value.length).Some?
      && TokenAt(c, file, pos + TokenAt(c, file, pos).value.length).value.token.Stop?
    else pos < |file| && pos + 1 + file[pos] + Size(d) <= |file|
  }

  /** Running goes on past a token if and only if the token is there and has what it needs; so a file that
      lacks something anywhere is refused as a whole. */
  lemma {:induction false} RefusedExactly(c: Codec, file: Bytes, pos: nat, stack: seq<Item>)
    ensures var found := TokenAt(c, file, pos);
            match found
            case None => Run(c, file, pos, stack) == None
            case Some(Found(t, k)) =>
              && (!Ready(c, file, pos + k, stack, t) ==> Run(c, file, pos, stack) == None)
              && (Ready(c, file, pos + k, stack, t) && t.Stop? ==>
                    Run(c, file, pos, stack) == Some((stack[|stack| - 1].value, pos + k)))
              && (Ready(c, file, pos + k, stack, t) && !t.Stop? ==>
                    var r := Execute(c, file, pos + k, stack, t);
                    r.Some? && r.value.1 <= |file| && Run(c, file, pos, stack) == Run(c, file, r.value.1, r.value.0))
  {
    var found := TokenAt(c, file, pos);
    if found.Some? && !found.value.token.Stop? {
      var next := pos + found.value.length;
      ReadyExactly(c, file, next, stack, found.value.token);
    }
  }

  lemma ReadyExactly(c: Codec, file: Bytes, pos: nat, stack: seq<Item>, t: Token)
    requires !t.Stop? && pos <= |file|
    ensures Execute(c, file, pos, stack, t).Some? <==> Ready(c, file, pos, stack, t)
    ensures Execute(c, file, pos, stack, t).Some? ==> pos <= Execute(c, file, pos, stack, t).value.1 <= |file|
  {
    hide TokenAt;
    if t.Collect? && t.n <= |stack| { ValuesExactly(stack[|stack| - t.n..]); }
  }
}
