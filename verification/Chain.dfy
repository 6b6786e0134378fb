/** The hash-linked block tree, the number -> hash canonical index, and the
    predicate that ties the two together: the index is exactly the ancestor
    path of a head block. */
module ChainTree {
  import opened Options

  type Hash = nat
  type TxHash = nat

  // The all-zero hash: what a database read of an absent entry returns.
  const ZERO: Hash := 0

  // A block header together with the transaction hashes of its body.
  // `justified` is the justified block number the PoSA engine derives from it.
  datatype Block = Block(hash: Hash, parent: Hash, number: nat, difficulty: nat, time: nat,
                         coinbase: nat, root: Hash, justified: nat, txs: seq<TxHash>)

  type Store = map<Hash, Block>
  type Index = map<nat, Hash>

  // Header lookup is hash-faithful, and only genesis has no parent hash.
  ghost predicate Faithful(s: Store)
  {
    forall h | h in s :: h != ZERO && s[h].hash == h && (s[h].number > 0 <==> s[h].parent != ZERO)
  }

  ghost predicate ParentStored(s: Store, h: Hash)
  {
    h in s && s[h].number > 0 ==> s[h].parent in s && s[s[h].parent].number == s[h].number - 1
  }

  // Every stored block above height zero has its parent stored one below it.
  ghost predicate Closed(s: Store)
  {
    forall h {:trigger ParentStored(s, h)} | h in s :: ParentStored(s, h)
  }

  ghost predicate ParentHeight(s: Store, h: Hash)
  {
    h in s && s[h].number > 0 && s[h].parent in s ==> s[s[h].parent].number == s[h].number - 1
  }

  // Where a block and its parent are both stored, they are one height apart.
  ghost predicate Heights(s: Store)
  {
    forall h {:trigger ParentHeight(s, h)} | h in s :: ParentHeight(s, h)
  }

  function GetBlock(s: Store, h: Hash, n: nat): Option<Block>
  {
    if h in s && s[h].number == n then Some(s[h]) else None
  }

  // GetBlock(b.ParentHash, b.Number-1); the number wraps at genesis, where nothing is stored.
  function GetParent(s: Store, b: Block): Option<Block>
  {
    if b.number == 0 then None else GetBlock(s, b.parent, b.number - 1)
  }

  function ReadCanonical(c: Index, n: nat): Hash
  {
    if n in c then c[n] else ZERO
  }

  // Entry i-1 is the parent of entry i.
  ghost predicate ParentLink(s: Store, c: Index, i: nat)
  {
    i > 0 && i in c && i - 1 in c && c[i] in s && s[c[i]].parent == c[i - 1]
  }

  // Entries 0..n of the index are stored blocks of the right height, each the parent of the next.
  ghost predicate LinkedUpTo(s: Store, c: Index, n: nat)
  {
    && (forall i: nat | i <= n :: i in c && c[i] in s && s[c[i]].number == i)
    && (forall i: nat | 0 < i <= n :: ParentLink(s, c, i))
  }

  // The index is exactly the ancestor path of `head`: nothing missing below, nothing stale above.
  ghost predicate IsPath(s: Store, c: Index, head: Hash)
  {
    && head in s
    && LinkedUpTo(s, c, s[head].number)
    && c[s[head].number] == head
    && (forall n | n in c :: n <= s[head].number)
  }

  // The plain parent walk: the hash k steps above `h` towards genesis.
  ghost function Ancestor(s: Store, h: Hash, k: nat): Option<Hash>
    decreases k
  {
    if k == 0 then Some(h)
    else if h in s && s[h].number > 0 then Ancestor(s, s[h].parent, k - 1)
    else None
  }

  // One more block on top of a linked index.
  lemma AppendLink(s: Store, c: Index, b: Block)
    requires b.hash in s && s[b.hash] == b && b.number > 0
    requires LinkedUpTo(s, c, b.number - 1) && c[b.number - 1] == b.parent
    ensures LinkedUpTo(s, c[b.number := b.hash], b.number)
  {
    var d := c[b.number := b.hash];
    forall i: nat | 0 < i <= b.number
      ensures ParentLink(s, d, i)
    {
      assert i < b.number ==> ParentLink(s, c, i);
    }
  }

  // The walk from entry n of a linked index meets exactly the entries below it.
  lemma {:induction false} LinkedIsWalk(s: Store, c: Index, n: nat, k: nat)
    requires LinkedUpTo(s, c, n) && k <= n
    ensures Ancestor(s, c[n], k) == Some(c[n - k])
    decreases k
  {
    if k == 0 {
    } else {
      assert ParentLink(s, c, n);
      LinkedIsWalk(s, c, n - 1, k - 1);
    }
  }

  // Two linked indexes that agree at height n agree below it.
  lemma LinkedAgree(s: Store, c: Index, d: Index, n: nat, i: nat)
    requires LinkedUpTo(s, c, n) && LinkedUpTo(s, d, n) && c[n] == d[n] && i <= n
    ensures c[i] == d[i]
  {
    LinkedIsWalk(s, c, n, n - i);
    LinkedIsWalk(s, d, n, n - i);
  }

  ghost predicate WalkEntry(s: Store, c: Index, head: Hash, i: nat)
  {
    && i in c && head in s && i <= s[head].number
    && c[i] in s && s[c[i]].number == i && Ancestor(s, head, s[head].number - i) == Some(c[i])
  }

  // Reference definition of the same thing: the index tabulates the plain walk from `head`.
  ghost predicate TabulatesWalk(s: Store, c: Index, head: Hash)
  {
    && head in s
    && (forall i: nat :: i in c <==> i <= s[head].number)
    && (forall i: nat | i in c :: WalkEntry(s, c, head, i))
  }

  lemma PathTabulatesWalk(s: Store, c: Index, head: Hash)
    requires IsPath(s, c, head)
    ensures TabulatesWalk(s, c, head)
  {
    forall i: nat | i in c
      ensures WalkEntry(s, c, head, i)
    {
      LinkedIsWalk(s, c, s[head].number, s[head].number - i);
    }
  }

  // One more step of the walk is the parent of where the walk stands.
  lemma {:induction false} AncestorStep(s: Store, h: Hash, k: nat)
    requires Ancestor(s, h, k).Some?
    ensures var a := Ancestor(s, h, k).value;
            Ancestor(s, h, k + 1) == if a in s && s[a].number > 0 then Some(s[a].parent) else None
    decreases k
  {
    if k == 0 {
    } else {
      AncestorStep(s, s[h].parent, k - 1);
    }
  }

  lemma WalkTableIsPath(s: Store, c: Index, head: Hash)
    requires TabulatesWalk(s, c, head)
    ensures IsPath(s, c, head)
  {
    var n := s[head].number;
    forall i: nat | i <= n
      ensures i in c && c[i] in s && s[c[i]].number == i
    {
      assert i in c;
      assert WalkEntry(s, c, head, i);
    }
    assert WalkEntry(s, c, head, n);
    forall i: nat | 0 < i <= n
      ensures ParentLink(s, c, i)
    {
      assert WalkEntry(s, c, head, i) && WalkEntry(s, c, head, i - 1);
      AncestorStep(s, head, n - i);
    }
  }

  // Both directions: the index is a head's path if and only if it tabulates the walk,
  // and so the path of a head is unique.
  lemma PathIsAncestorWalk(s: Store, c: Index, head: Hash)
    ensures IsPath(s, c, head) <==> TabulatesWalk(s, c, head)
  {
    if IsPath(s, c, head) {
      PathTabulatesWalk(s, c, head);
    }
    if TabulatesWalk(s, c, head) {
      WalkTableIsPath(s, c, head);
    }
  }

  lemma PathUnique(s: Store, c: Index, d: Index, head: Hash)
    requires IsPath(s, c, head) && IsPath(s, d, head)
    ensures c == d
  {
    forall i | i in c
      ensures i in d && c[i] == d[i]
    {
      LinkedAgree(s, c, d, s[head].number, i);
    }
  }

  // Walks compose.
  lemma {:induction false} AncestorCompose(s: Store, h: Hash, j: nat, k: nat)
    requires Ancestor(s, h, j).Some?
    ensures Ancestor(s, h, j + k) == Ancestor(s, Ancestor(s, h, j).value, k)
    decreases j
  {
    if j == 0 {
    } else {
      AncestorCompose(s, s[h].parent, j - 1, k);
    }
  }

  // Storing more blocks changes no path.
  lemma PathGrows(s: Store, s': Store, c: Index, h: Hash)
    requires IsPath(s, c, h)
    requires forall x | x in s :: x in s' && s'[x] == s[x]
    ensures IsPath(s', c, h)
  {
    forall i: nat | 0 < i <= s[h].number
      ensures ParentLink(s', c, i)
    {
      assert ParentLink(s, c, i);
    }
  }

  function UpTo(c: Index, number: nat): Index
  {
    map n | n in c && n <= number :: c[n]
  }

  // Delete the hash markers above `number`, stopping at the first gap. The reads see the stored
  // index, the deletions go to the batch; on an index without gaps nothing stale survives.
  method DeleteMarkersAbove(canon: Index, number: nat, ghost last: nat) returns (batch: Index)
    requires forall n: nat | n > number :: n in canon <==> n <= last
    requires forall n | n in canon :: canon[n] != ZERO
    ensures batch == UpTo(canon, number)
  {
    batch := canon;
    var i := number + 1;
    while ReadCanonical(canon, i) != ZERO
      invariant i > number && (i <= last + 1 || i == number + 1)
      invariant batch == map n | n in canon && !(number < n < i) :: canon[n]
      decreases last + 1 - i
    {
      batch := batch - {i};
      i := i + 1;
    }
  }
}
