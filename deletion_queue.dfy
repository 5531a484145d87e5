/** `DeletionQueue`: an append-only list of teardown closures that `flush`
    runs from the most recently registered to the oldest, then empties.
    A closure is modelled by an abstract action identifier, and running it by
    appending that identifier to the queue's execution log. */
module DeletionQueues {

  /** A type-erased, zero-argument teardown action. */
  type Action = nat

  /** The order in which `flush` runs the registered actions: newest first. */
  function Reverse(s: seq<Action>): (r: seq<Action>)
    ensures |r| == |s|
  {
    if s == [] then [] else Reverse(s[1..]) + [s[0]]
  }

  /** Position k of the flush order holds the action registered k places
      before the last one. */
  lemma {:induction false} ReverseAt(s: seq<Action>, k: nat)
    requires k < |s|
    ensures Reverse(s)[k] == s[|s| - 1 - k]
  {
    if k < |s| - 1 {
      ReverseAt(s[1..], k);
    }
  }

  /** Flushing runs every registered action exactly as many times as it was
      registered: the flush order is a permutation of the registration order. */
  lemma {:induction false} ReverseRunsEachOnce(s: seq<Action>)
    ensures multiset(Reverse(s)) == multiset(s)
  {
    if s != [] {
      ReverseRunsEachOnce(s[1..]);
      assert s == [s[0]] + s[1..];
    }
  }

  /** LIFO: of two registered actions, the later one runs first. */
  lemma {:induction false} LaterRegisteredRunsFirst(s: seq<Action>, i: nat, j: nat)
    requires i < j < |s|
    ensures Reverse(s)[|s| - 1 - j] == s[j] && Reverse(s)[|s| - 1 - i] == s[i]
    ensures |s| - 1 - j < |s| - 1 - i
  {
    ReverseAt(s, |s| - 1 - j);
    ReverseAt(s, |s| - 1 - i);
  }

  /** The action registered last is the first one a flush runs. */
  lemma {:induction false} LastPushedRunsFirst(s: seq<Action>, a: Action)
    ensures Reverse(s + [a]) == [a] + Reverse(s)
  {
    if s == [] {
    } else {
      assert (s + [a])[1..] == s[1..] + [a];
      LastPushedRunsFirst(s[1..], a);
    }
  }

  class DeletionQueue {
    /** The registered actions, oldest first (`deletors`). */
    var deletors: seq<Action>
    /** Every action this queue has run, in the order it ran them. */
    var executed: seq<Action>

    constructor ()
      ensures deletors == [] && executed == []
    {
      deletors := [];
      executed := [];
    }

    /** `push_back`: registers one action at the end; runs nothing. */
    method PushBack(f: Action)
      modifies this
      ensures deletors == old(deletors) + [f]
      ensures executed == old(executed)
    {
      deletors := deletors + [f];
    }

    /** `flush`: runs the registered actions with a reverse iterator, then
        clears the queue. Flushing an empty queue runs nothing. */
    method Flush()
      modifies this
      ensures executed == old(executed) + Reverse(old(deletors))
      ensures deletors == []
      ensures old(deletors) == [] ==> executed == old(executed)
    {
      var i := |deletors|;
      while i > 0
        invariant 0 <= i <= |deletors|
        invariant deletors == old(deletors)
        invariant executed == old(executed) + Reverse(deletors[i..])
      {
        i := i - 1;
        assert deletors[i..][1..] == deletors[i + 1..];
        executed := executed + [deletors[i]];
      }
      assert deletors[0..] == deletors;
      deletors := [];
    }
  }

  /** Two consecutive flushes: the second runs nothing, and the first runs
      every action registered since the last flush, newest first. */
  method FlushTwice(q: DeletionQueue)
    modifies q
    ensures q.executed == old(q.executed) + Reverse(old(q.deletors))
    ensures q.deletors == []
  {
    q.Flush();
    ghost var afterFirst := q.executed;
    q.Flush();
    assert q.executed == afterFirst;
  }
}
