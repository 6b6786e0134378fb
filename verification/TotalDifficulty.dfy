/** The total-difficulty table: every stored block's entry is its parent's plus its own difficulty. */
module TotalDifficulty {
  import opened Options
  import opened ChainTree

  type TdTable = map<Hash, nat>

  ghost predicate TdEntryValid(s: Store, td: TdTable, h: Hash)
  {
    && h in s && h in td
    && (s[h].number == 0 ==> td[h] == s[h].difficulty)
    && (s[h].number > 0 && s[h].parent in td ==> td[h] == td[s[h].parent] + s[h].difficulty)
  }

  ghost predicate TdValid(s: Store, td: TdTable)
  {
    && td.Keys == s.Keys
    && (forall h {:trigger TdEntryValid(s, td, h)} | h in s :: TdEntryValid(s, td, h))
  }

  // The table is keyed by number and hash.
  function GetTd(s: Store, td: TdTable, h: Hash, n: nat): Option<nat>
  {
    if h in s && s[h].number == n && h in td then Some(td[h]) else None
  }

  function ParentTd(s: Store, td: TdTable, b: Block): Option<nat>
  {
    if b.number == 0 then None else GetTd(s, td, b.parent, b.number - 1)
  }

  // Reference definition: the difficulties on the way from genesis to h, added up.
  ghost function PathDifficulty(s: Store, h: Hash): nat
    requires Closed(s) && h in s
    decreases s[h].number
  {
    assert ParentStored(s, h);
    s[h].difficulty + if s[h].number == 0 then 0 else PathDifficulty(s, s[h].parent)
  }

  lemma {:induction false} TdIsPathDifficulty(s: Store, td: TdTable, h: Hash)
    requires Closed(s) && TdValid(s, td) && h in s
    ensures td[h] == PathDifficulty(s, h)
    decreases s[h].number
  {
    assert TdEntryValid(s, td, h) && ParentStored(s, h);
    if s[h].number == 0 {
    } else {
      TdIsPathDifficulty(s, td, s[h].parent);
    }
  }

  // A chain of nothing but its genesis block.
  lemma GenesisOnly(genesis: Block)
    requires genesis.number == 0 && genesis.hash != ZERO && genesis.parent == ZERO
    ensures var s: Store, td: TdTable, c: Index :=
              map[genesis.hash := genesis], map[genesis.hash := genesis.difficulty], map[0 := genesis.hash];
            Faithful(s) && Closed(s) && TdValid(s, td) && IsPath(s, c, genesis.hash)
  {
    var s: Store, td: TdTable := map[genesis.hash := genesis], map[genesis.hash := genesis.difficulty];
    forall h | h in s
      ensures TdEntryValid(s, td, h)
    {
    }
  }

  // A well-formed header: no other block is stored under its hash.
  ghost predicate Genuine(s: Store, b: Block)
  {
    && b.hash != ZERO && (b.number > 0 <==> b.parent != ZERO)
    && (b.hash in s ==> s[b.hash] == b)
  }

  ghost predicate Storable(s: Store, b: Block)
  {
    Genuine(s, b) && b.number > 0
  }

  ghost predicate ChildOf(headers: seq<Block>, i: nat)
  {
    0 < i < |headers| && headers[i].parent == headers[i - 1].hash && headers[i].number == headers[i - 1].number + 1
  }

  // Each header is the parent of the next one, and no hash occurs twice.
  ghost predicate Contiguous(headers: seq<Block>)
  {
    && (forall i {:trigger ChildOf(headers, i)} | 0 < i < |headers| :: ChildOf(headers, i))
    && (forall i, j | 0 <= i < j < |headers| :: headers[i].hash != headers[j].hash)
  }

  // Storing a block whose parent is known, with the parent's total difficulty plus its own,
  // keeps the table valid and the store faithful and closed.
  lemma StoreBlock(s: Store, td: TdTable, b: Block, ptd: nat)
    requires Faithful(s) && Closed(s) && TdValid(s, td) && Storable(s, b)
    requires ParentTd(s, td, b) == Some(ptd)
    ensures Faithful(s[b.hash := b]) && Closed(s[b.hash := b])
    ensures TdValid(s[b.hash := b], td[b.hash := ptd + b.difficulty])
    ensures b.hash in s ==> td[b.hash] == ptd + b.difficulty
  {
    var s', td' := s[b.hash := b], td[b.hash := ptd + b.difficulty];
    assert b.hash in s ==> TdEntryValid(s, td, b.hash);
    forall h | h in s'
      ensures TdEntryValid(s', td', h) && ParentStored(s', h)
    {
      if h != b.hash {
        assert TdEntryValid(s, td, h) && ParentStored(s, h);
      }
    }
  }

  // The store with the batch written into it.
  function StoreAll(s: Store, batch: seq<Block>): Store
  {
    if batch == [] then s
    else var n := |batch| - 1; StoreAll(s, batch[..n])[batch[n].hash := batch[n]]
  }

  lemma {:induction false} StoreAllElsewhere(s: Store, batch: seq<Block>, h: Hash)
    requires forall j | 0 <= j < |batch| :: batch[j].hash != h
    ensures h in StoreAll(s, batch) <==> h in s
    ensures h in s ==> StoreAll(s, batch)[h] == s[h]
  {
    if batch == [] {
    } else {
      StoreAllElsewhere(s, batch[..|batch| - 1], h);
    }
  }

  // Whether or not the next header is known, the store and table end up with it and its entry.
  lemma StoreStep(before: Store, s: Store, t: TdTable, batch: seq<Block>, i: nat, newTd: nat)
    requires i < |batch| && Contiguous(batch) && Genuine(before, batch[i])
    requires Faithful(s) && Closed(s) && TdValid(s, t) && s == StoreAll(before, batch[..i])
    requires ParentTd(s, t, batch[i]) == Some(newTd)
    ensures Faithful(s[batch[i].hash := batch[i]]) && Closed(s[batch[i].hash := batch[i]])
    ensures TdValid(s[batch[i].hash := batch[i]], t[batch[i].hash := newTd + batch[i].difficulty])
    ensures StoreAll(before, batch[..i + 1]) == s[batch[i].hash := batch[i]]
    ensures batch[i].hash in before ==> s[batch[i].hash := batch[i]] == s
    ensures batch[i].hash in before ==> t[batch[i].hash := newTd + batch[i].difficulty] == t
  {
    StoreAllElsewhere(before, batch[..i], batch[i].hash);
    assert batch[..i + 1][..i] == batch[..i];
    StoreBlock(s, t, batch[i], newTd);
  }

  lemma NextParentTd(s: Store, t: TdTable, batch: seq<Block>, i: nat)
    requires Contiguous(batch) && 0 < i < |batch|
    requires batch[i - 1].hash in s && s[batch[i - 1].hash] == batch[i - 1] && batch[i - 1].hash in t
    ensures ParentTd(s, t, batch[i]) == Some(t[batch[i - 1].hash])
  {
    assert ChildOf(batch, i);
  }

  lemma PrefixContiguous(batch: seq<Block>, n: nat)
    requires Contiguous(batch) && n <= |batch|
    ensures Contiguous(batch[..n])
  {
    var front := batch[..n];
    forall i | 0 < i < n
      ensures ChildOf(front, i)
    {
      assert ChildOf(batch, i);
    }
  }

  lemma {:induction false} BatchStored(s: Store, batch: seq<Block>)
    requires Contiguous(batch) && (forall i | 0 <= i < |batch| :: Genuine(s, batch[i]))
    ensures forall b | b in batch :: b.hash in StoreAll(s, batch) && StoreAll(s, batch)[b.hash] == b
    ensures forall h | h in s :: h in StoreAll(s, batch) && StoreAll(s, batch)[h] == s[h]
    decreases |batch|
  {
    if batch == [] {
    } else {
      var n := |batch| - 1;
      var front := batch[..n];
      PrefixContiguous(batch, n);
      BatchStored(s, front);
      assert batch == front + [batch[n]];
    }
  }
}
