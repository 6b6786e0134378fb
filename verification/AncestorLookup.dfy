/** Two short-cut ancestor lookups, GetAncestor and the GetHashFn closure, against the plain
    parent walk. */
module AncestorLookup {
  import opened Options
  import opened ChainTree

  // The one way to ask GetAncestor for an ancestor of nothing: the zero hash at a height the
  // index does not reach compares equal to the absent entry.
  ghost predicate ZeroHashAboveIndex(c: Index, hash: Hash, number: nat, ancestor: nat)
  {
    hash == ZERO && 2 <= ancestor <= number && number !in c && number - ancestor in c
  }

  lemma LinkedIsWalkAt(s: Store, c: Index, head: Hash, n: nat, k: nat)
    requires Faithful(s) && IsPath(s, c, head) && n in c && k <= n
    ensures n - k in c && c[n - k] != ZERO && Ancestor(s, c[n], k) == Some(c[n - k])
  {
    assert LinkedUpTo(s, c, n);
    LinkedIsWalk(s, c, n, k);
  }

  method WalkToCanonical(s: Store, canon: Index, hash: Hash, number: nat, ancestor: nat, maxNonCanonical: nat,
      ghost head: Hash)
    returns (h: Hash, n: nat, left: nat)
    requires Faithful(s) && IsPath(s, canon, head) && Heights(s)
    requires ancestor <= number && ancestor != 1
    ensures left <= maxNonCanonical && maxNonCanonical - left <= ancestor
    ensures hash != ZERO && h != ZERO ==> Ancestor(s, hash, ancestor) == Some(h) && n == number - ancestor
    ensures hash == ZERO ==> (h != ZERO <==> ZeroHashAboveIndex(canon, hash, number, ancestor))
    ensures Closed(s) && GetBlock(s, hash, number).Some? && ancestor <= maxNonCanonical ==> h != ZERO
  {
    h, n, left := hash, number, maxNonCanonical;
    var k: nat := ancestor;
    while k != 0
      invariant k <= ancestor && n == number - (ancestor - k) && left == maxNonCanonical - (ancestor - k)
      invariant k <= n && (k < ancestor && h in s ==> s[h].number == n)
      invariant Ancestor(s, hash, ancestor) == Ancestor(s, h, k)
      invariant hash == ZERO ==> k == ancestor && h == hash
      invariant hash != ZERO ==> h != ZERO
      invariant Closed(s) && GetBlock(s, hash, number).Some? ==> GetBlock(s, h, n).Some?
      decreases k
    {
      if ReadCanonical(canon, n) == h {
        if h != ZERO {
          assert canon[n] == h && n in canon;
          LinkedIsWalkAt(s, canon, head, n, k);
        }
        return ReadCanonical(canon, n - k), n - k, left;
      }
      if left == 0 {
        return ZERO, 0, left;
      }
      left := left - 1;
      var header := GetBlock(s, h, n);
      if header.None? {
        return ZERO, 0, left;
      }
      assert ParentHeight(s, h) && (Closed(s) ==> ParentStored(s, h));
      h, n, k := header.value.parent, n - 1, k - 1;
    }
  }

  // The ancestor-th ancestor of the given block, or (ZERO, _). The walk outside the canonical
  // chain spends the counter; on the canonical chain the index answers at once.
  method GetAncestor(s: Store, canon: Index, hash: Hash, number: nat, ancestor: nat, maxNonCanonical: nat,
      ghost head: Hash)
    returns (h: Hash, n: nat, left: nat)
    requires Faithful(s) && IsPath(s, canon, head)
    requires Heights(s)
    ensures left <= maxNonCanonical && maxNonCanonical - left <= ancestor
    ensures (h != ZERO ==> Ancestor(s, hash, ancestor) == Some(h) && n == number - ancestor)
            <==> !ZeroHashAboveIndex(canon, hash, number, ancestor)
    ensures Closed(s) && GetBlock(s, hash, number).Some? && ancestor <= number && ancestor <= maxNonCanonical ==>
              h != ZERO
  {
    left := maxNonCanonical;
    if ancestor > number {
      return ZERO, 0, left;
    }
    if ancestor == 1 {
      var header := GetBlock(s, hash, number);
      if header.Some? {
        return header.value.parent, number - 1, left;
      }
      return ZERO, 0, left;
    }
    h, n, left := WalkToCanonical(s, canon, hash, number, ancestor, maxNonCanonical, head);
  }

  // The concrete failure: asking for the second ancestor of the zero hash at height 2 over a
  // one-block chain yields genesis.
  lemma ZeroHashExample() returns (s: Store, c: Index, head: Hash)
    ensures Faithful(s) && Heights(s) && IsPath(s, c, head)
    ensures ZeroHashAboveIndex(c, ZERO, 2, 2) && Ancestor(s, ZERO, 2) == None
  {
    var genesis := Block(1, ZERO, 0, 1, 0, 0, 1, 0, []);
    s, c, head := map[1 := genesis], map[0 := 1], 1;
  }

  // A walk that meets a missing block gets no further.
  lemma {:induction false} WalkStops(s: Store, h: Hash, j: nat, k: nat)
    requires Ancestor(s, h, j).Some? && Ancestor(s, h, j).value !in s && j < k
    ensures Ancestor(s, h, k).None?
  {
    AncestorCompose(s, h, j, k - j);
  }

  // The BLOCKHASH lookup: the cache is filled with the ancestors of ref, nearest first.
  class HashLookup {
    const ref: Block
    const store: Store
    var cache: seq<Hash>

    // Entry i of the cache is the hash of ancestor number ref.number - 1 - i.
    ghost predicate Valid()
      reads this
    {
      && Heights(store)
      && (ref.parent in store ==> store[ref.parent].number + 1 == ref.number)
      && |cache| <= ref.number
      && (forall i | 0 <= i < |cache| :: Ancestor(store, ref.parent, i) == Some(cache[i]))
      && (forall i | 0 <= i < |cache| && cache[i] in store :: store[cache[i]].number == ref.number - 1 - i)
    }

    constructor (ref: Block, store: Store)
      requires Heights(store) && (ref.parent in store ==> store[ref.parent].number + 1 == ref.number)
      ensures this.ref == ref && this.store == store && cache == [] && Valid()
    {
      this.ref, this.store, cache := ref, store, [];
    }

    // A fresh parent walk from ref down to height n; ZERO for heights not below ref and for
    // missing ancestors.
    ghost function HashAt(n: nat): Hash
    {
      if n >= ref.number then ZERO
      else
        var a := Ancestor(store, ref.parent, ref.number - 1 - n);
        if a.Some? then a.value else ZERO
    }

    method GetHash(n: nat) returns (h: Hash)
      requires Valid()
      modifies this`cache
      ensures Valid() && old(cache) <= cache
      ensures h == HashAt(n)
    {
      if ref.number <= n {
        return ZERO;
      }
      if |cache| == 0 {
        cache := cache + [ref.parent];
      }
      var idx := ref.number - n - 1;
      if idx < |cache| {
        return cache[idx];
      }
      var lastHash, lastNumber := cache[|cache| - 1], ref.number - |cache|;
      while true
        invariant Valid() && old(cache) <= cache && |cache| > 0
        invariant lastHash == cache[|cache| - 1] && lastNumber == ref.number - |cache| && n < lastNumber
        decreases lastNumber
      {
        AncestorStep(store, ref.parent, |cache| - 1);
        var header := GetBlock(store, lastHash, lastNumber);
        if header.None? {
          WalkStops(store, ref.parent, |cache| - 1, ref.number - 1 - n);
          return ZERO;
        }
        assert ParentHeight(store, lastHash);
        cache := cache + [header.value.parent];
        lastHash, lastNumber := header.value.parent, header.value.number - 1;
        if n == lastNumber {
          return lastHash;
        }
      }
    }
  }
}
