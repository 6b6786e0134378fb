/** The trie garbage-collection queue of a full, non-archive node in hash mode: one metadata
    reference is held per queue entry, and old entries are released as blocks are committed. */
module TrieGc {

  type Root = nat

  // A state root and the number of the block that pushed it; lower numbers pop first.
  datatype Entry = Entry(root: Root, number: nat)

  ghost function RootsOf(q: seq<Entry>): multiset<Root>
  {
    if q == [] then multiset{} else RootsOf(q[..|q| - 1]) + multiset{q[|q| - 1].root}
  }

  function Without(q: seq<Entry>, i: nat): seq<Entry>
    requires i < |q|
  {
    q[..i] + q[i + 1..]
  }

  lemma RootsOfPush(q: seq<Entry>, e: Entry)
    ensures RootsOf(q + [e]) == RootsOf(q) + multiset{e.root}
  {
    assert (q + [e])[..|q|] == q;
  }

  lemma {:induction false} RootsOfWithoutAt(q: seq<Entry>, i: nat, r: Root)
    requires i < |q|
    ensures RootsOf(q)[r] == RootsOf(Without(q, i))[r] + if q[i].root == r then 1 else 0
    decreases |q|
  {
    var n := |q| - 1;
    if i < n {
      RootsOfWithoutAt(q[..n], i, r);
      assert Without(q, i) == Without(q[..n], i) + [q[n]];
      RootsOfPush(Without(q[..n], i), q[n]);
    } else {
      assert Without(q, i) == q[..n];
    }
  }

  lemma RootsOfWithout(q: seq<Entry>, i: nat)
    requires i < |q|
    ensures RootsOf(q) == RootsOf(Without(q, i)) + multiset{q[i].root}
  {
    forall r: Root
      ensures RootsOf(q)[r] == RootsOf(Without(q, i))[r] + if q[i].root == r then 1 else 0
    {
      RootsOfWithoutAt(q, i, r);
    }
  }

  lemma WithoutEntries(q: seq<Entry>, i: nat)
    requires i < |q|
    ensures multiset(q) == multiset(Without(q, i)) + multiset{q[i]}
  {
    assert q == q[..i] + [q[i]] + q[i + 1..];
  }

  // What remains of a queue when everything up to height `chosen` has been released.
  ghost predicate KeepsAbove(before: multiset<Entry>, after: multiset<Entry>, chosen: int)
  {
    forall e: Entry :: after[e] == if e.number > chosen then before[e] else 0
  }

  lemma Separated(before: multiset<Entry>, after: multiset<Entry>, gone: multiset<Entry>, chosen: nat)
    requires before == after + gone
    requires forall e: Entry | e in gone :: e.number <= chosen
    requires forall e: Entry | e in after :: e.number > chosen
    ensures KeepsAbove(before, after, chosen)
  {
    forall e: Entry
      ensures after[e] == if e.number > chosen then before[e] else 0
    {
      assert before[e] == after[e] + gone[e];
    }
  }

  lemma AllAbove(q: seq<Entry>, e: Entry, chosen: nat)
    requires e.number > chosen && forall f | f in q :: e.number <= f.number
    ensures forall f: Entry | f in multiset(q + [e]) :: f.number > chosen
  {
    forall f: Entry | f in multiset(q + [e])
      ensures f.number > chosen
    {
      assert f in q + [e];
    }
  }

  class TrieQueue {
    const triesInMemory: nat
    var triegc: seq<Entry>
    var refs: multiset<Root>

    // Outstanding metadata references are exactly the roots in the queue, with multiplicity.
    ghost predicate Valid()
      reads this
    {
      refs == RootsOf(triegc)
    }

    constructor (triesInMemory: nat)
      ensures this.triesInMemory == triesInMemory && Valid() && triegc == []
    {
      this.triesInMemory := triesInMemory;
      triegc, refs := [], multiset{};
    }

    // Release a reference; there must be one to release.
    method Dereference(root: Root)
      requires root in refs
      modifies this`refs
      ensures refs == old(refs) - multiset{root}
    {
      refs := refs - multiset{root};
    }

    // The position of the entry with the greatest priority, that is the lowest number.
    method Lowest() returns (i: nat)
      requires triegc != []
      ensures i < |triegc| && forall j | 0 <= j < |triegc| :: triegc[i].number <= triegc[j].number
    {
      i := 0;
      for k := 1 to |triegc|
        invariant i < |triegc| && forall j | 0 <= j < k :: triegc[i].number <= triegc[j].number
      {
        if triegc[k].number < triegc[i].number {
          i := k;
        }
      }
    }

    method Pop() returns (e: Entry)
      requires triegc != []
      modifies this`triegc
      ensures multiset(old(triegc)) == multiset(triegc) + multiset{e}
      ensures RootsOf(old(triegc)) == RootsOf(triegc) + multiset{e.root}
      ensures |triegc| == |old(triegc)| - 1
      ensures forall f | f in triegc :: e.number <= f.number
    {
      var i := Lowest();
      RootsOfWithout(triegc, i);
      WithoutEntries(triegc, i);
      e := triegc[i];
      triegc := Without(triegc, i);
    }

    // Pop the lowest entry; release it, or push it back when it is above `chosen`.
    method ReleaseLowest(chosen: nat) returns (e: Entry, released: bool)
      requires Valid() && triegc != []
      modifies this`triegc, this`refs
      ensures Valid()
      ensures released <==> e.number <= chosen
      ensures released ==> multiset(old(triegc)) == multiset(triegc) + multiset{e} && |triegc| < |old(triegc)|
      ensures !released ==> multiset(old(triegc)) == multiset(triegc)
      ensures !released ==> forall f: Entry | f in multiset(triegc) :: f.number > chosen
    {
      e := Pop();
      released := e.number <= chosen;
      if released {
        Dereference(e.root);
      } else {
        RootsOfPush(triegc, e);
        AllAbove(triegc, e, chosen);
        triegc := triegc + [e];
      }
    }

    method Release(chosen: nat)
      requires Valid()
      modifies this`triegc, this`refs
      ensures Valid()
      ensures KeepsAbove(multiset(old(triegc)), multiset(triegc), chosen)
    {
      ghost var gone: multiset<Entry> := multiset{};
      while triegc != []
        invariant Valid()
        invariant multiset(old(triegc)) == multiset(triegc) + gone
        invariant forall e: Entry | e in gone :: e.number <= chosen
        decreases |triegc|
      {
        var e, released := ReleaseLowest(chosen);
        if !released {
          break;
        }
        gone := gone + multiset{e};
      }
      Separated(multiset(old(triegc)), multiset(triegc), gone, chosen);
    }

    // Reference the new block's trie, then release every trie at least triesInMemory below it.
    method Commit(root: Root, number: nat)
      requires Valid()
      modifies this`triegc, this`refs
      ensures Valid()
      ensures KeepsAbove(multiset(old(triegc)) + multiset{Entry(root, number)}, multiset(triegc),
                         if number <= triesInMemory then -1 else number - triesInMemory)
    {
      refs := refs + multiset{root};
      RootsOfPush(triegc, Entry(root, number));
      triegc := triegc + [Entry(root, number)];
      if number <= triesInMemory {
        return;
      }
      Release(number - triesInMemory);
    }

    // Shutdown: release what is left. Every reference is released exactly once.
    method Stop()
      requires Valid()
      modifies this`triegc, this`refs
      ensures triegc == [] && refs == multiset{}
    {
      while triegc != []
        invariant Valid()
        decreases |triegc|
      {
        var e := Pop();
        Dereference(e.root);
      }
    }
  }
}
