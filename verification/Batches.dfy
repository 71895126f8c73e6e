/** Batches of tasks: what `BatchedCalls.__call__` computes, and the batches a run has dispatched.
 */
module Batches {

  /** `[func(*args, **kwargs) for func, args, kwargs in items]`, with `f` evaluating one item. */
  function Map<T, R>(f: T -> R, items: seq<T>): (r: seq<R>)
    ensures |r| == |items|
  {
    seq(|items|, i requires 0 <= i < |items| => f(items[i]))
  }

  lemma MapConcat<T, R>(f: T -> R, a: seq<T>, b: seq<T>)
    ensures Map(f, a + b) == Map(f, a) + Map(f, b)
  {
  }

  datatype Status = Pending | Done | Error

  /** How far the completion callback of a batch has run: not yet called, past its first critical
      section with the second still to come, or finished. */
  datatype Stage = InFlight | Succeeded | Over

  /** One `BatchCompletionCallBack`. `read` records that the consumer has taken its results. */
  datatype Callback<T, R> = Callback(
    callId: nat, tasks: seq<T>, status: Status, result: seq<R>, stage: Stage, read: bool)

  /** The tasks of a list of batches, in dispatch order. */
  function Flat<T, R>(cs: seq<Callback<T, R>>): seq<T> {
    if cs == [] then [] else Flat(cs[..|cs| - 1]) + cs[|cs| - 1].tasks
  }

  /** What the batches the consumer has not taken yet are worth. */
  ghost function Unread<T, R>(f: T -> R, cs: seq<Callback<T, R>>): multiset<R> {
    if cs == [] then multiset{}
    else
      var last := cs[|cs| - 1];
      Unread(f, cs[..|cs| - 1]) + if last.read then multiset{} else multiset(Map(f, last.tasks))
  }

  function CountStage<T, R>(cs: seq<Callback<T, R>>, stage: Stage): nat {
    if cs == [] then 0
    else CountStage(cs[..|cs| - 1], stage) + if cs[|cs| - 1].stage == stage then 1 else 0
  }

  function CountDone<T, R>(cs: seq<Callback<T, R>>): nat {
    if cs == [] then 0
    else CountDone(cs[..|cs| - 1]) + if cs[|cs| - 1].status == Done then 1 else 0
  }

  lemma {:induction false} Append<T, R>(f: T -> R, cs: seq<Callback<T, R>>, c: Callback<T, R>)
    ensures Flat(cs + [c]) == Flat(cs) + c.tasks
    ensures Unread(f, cs + [c]) == Unread(f, cs) + if c.read then multiset{} else multiset(Map(f, c.tasks))
  {
    assert (cs + [c])[..|cs|] == cs;
  }

  lemma {:induction false} CountAppend<T, R>(cs: seq<Callback<T, R>>, c: Callback<T, R>, s: Stage)
    ensures CountStage(cs + [c], s) == CountStage(cs, s) + if c.stage == s then 1 else 0
    ensures CountDone(cs + [c]) == CountDone(cs) + if c.status == Done then 1 else 0
  {
    assert (cs + [c])[..|cs|] == cs;
  }

  lemma {:induction false} FlatUpdate<T, R>(cs: seq<Callback<T, R>>, i: nat, c: Callback<T, R>)
    requires i < |cs| && c.tasks == cs[i].tasks
    ensures Flat(cs[i := c]) == Flat(cs)
  {
    var n := |cs| - 1;
    if i == n {
      assert cs[i := c][..n] == cs[..n];
    } else {
      FlatUpdate(cs[..n], i, c);
      assert cs[i := c][..n] == cs[..n][i := c];
    }
  }

  /** Reading a batch takes its results, and only its results, off what is unread. */
  lemma {:induction false} UnreadUpdate<T, R>(f: T -> R, cs: seq<Callback<T, R>>, i: nat, c: Callback<T, R>)
    requires i < |cs| && c.tasks == cs[i].tasks && (cs[i].read ==> c.read)
    ensures Unread(f, cs) == Unread(f, cs[i := c])
                             + if c.read && !cs[i].read then multiset(Map(f, c.tasks)) else multiset{}
  {
    var n := |cs| - 1;
    if i == n {
      assert cs[i := c][..n] == cs[..n];
    } else {
      UnreadUpdate(f, cs[..n], i, c);
      assert cs[i := c][..n] == cs[..n][i := c];
    }
  }

  lemma {:induction false} CountUpdate<T, R>(cs: seq<Callback<T, R>>, i: nat, c: Callback<T, R>, s: Stage)
    requires i < |cs|
    ensures CountStage(cs[i := c], s) + (if cs[i].stage == s then 1 else 0)
         == CountStage(cs, s) + if c.stage == s then 1 else 0
  {
    var n := |cs| - 1;
    if i == n {
      assert cs[i := c][..n] == cs[..n];
    } else {
      CountUpdate(cs[..n], i, c, s);
      assert cs[i := c][..n] == cs[..n][i := c];
    }
  }

  lemma {:induction false} DoneUpdate<T, R>(cs: seq<Callback<T, R>>, i: nat, c: Callback<T, R>)
    requires i < |cs|
    ensures CountDone(cs[i := c]) + (if cs[i].status == Done then 1 else 0)
         == CountDone(cs) + if c.status == Done then 1 else 0
  {
    var n := |cs| - 1;
    if i == n {
      assert cs[i := c][..n] == cs[..n];
    } else {
      DoneUpdate(cs[..n], i, c);
      assert cs[i := c][..n] == cs[..n][i := c];
    }
  }

  lemma {:induction false} FlatSplit<T, R>(cs: seq<Callback<T, R>>, k: nat)
    requires k <= |cs|
    ensures Flat(cs) == Flat(cs[..k]) + Flat(cs[k..])
  {
    if k == |cs| {
      assert cs[..k] == cs;
    } else {
      var n := |cs| - 1;
      FlatSplit(cs[..n], k);
      assert cs[..n][..k] == cs[..k] && cs[..n][k..] == cs[k..][..n - k];
    }
  }

  /** What is unread is worth no more than what was dispatched; if nothing is unread, all were read. */
  lemma {:induction false} NothingUnread<T, R>(f: T -> R, cs: seq<Callback<T, R>>)
    requires forall i :: 0 <= i < |cs| ==> cs[i].tasks != []
    requires Unread(f, cs) == multiset{}
    ensures forall i :: 0 <= i < |cs| ==> cs[i].read
  {
    if cs != [] {
      var n := |cs| - 1;
      assert |multiset(Map(f, cs[n].tasks))| == |cs[n].tasks|;
      assert |Unread(f, cs)| == 0;
      NothingUnread(f, cs[..n]);
      forall i | 0 <= i < |cs| ensures cs[i].read { if i < n { assert cs[..n][i].read; } }
    }
  }

  /** If everything was read, nothing is unread. */
  lemma {:induction false} AllRead<T, R>(f: T -> R, cs: seq<Callback<T, R>>)
    requires forall i :: 0 <= i < |cs| ==> cs[i].read
    ensures Unread(f, cs) == multiset{}
  {
    if cs != [] { AllRead(f, cs[..|cs| - 1]); }
  }
}
