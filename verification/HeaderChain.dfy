/** Header-chain maintenance: header reorg and header batches. */
module HeaderChains {
  import opened Options
  import opened ChainTree
  import opened TotalDifficulty
  import opened ForkChoices

  datatype Error = MissingParent | Aborted | ForkChoiceError(error: ForkError)

  // Entries lo..hi of the index are stored headers of the right height, each the parent of the next.
  ghost predicate LinkedBetween(s: Store, c: Index, lo: nat, hi: nat)
  {
    && (forall i: nat | lo <= i <= hi :: i in c && c[i] in s && s[c[i]].number == i)
    && (forall i: nat | lo < i <= hi :: ParentLink(s, c, i))
  }

  lemma JoinLinked(s: Store, c: Index, d: Index, mid: nat, hi: nat)
    requires LinkedUpTo(s, c, mid) && LinkedBetween(s, d, mid, hi) && mid <= hi
    requires forall i: nat | i <= mid :: i in d && c[i] == d[i]
    ensures LinkedUpTo(s, d, hi)
  {
    forall i: nat | 0 < i <= hi
      ensures ParentLink(s, d, i)
    {
      if i <= mid {
        assert ParentLink(s, c, i);
      }
    }
  }

  // One more link in front of a linked segment.
  lemma PrependLink(s: Store, d: Index, b: Block, hi: nat)
    requires b.hash in s && s[b.hash] == b && b.number < hi
    requires LinkedBetween(s, d, b.number + 1, hi) && s[d[b.number + 1]].parent == b.hash
    ensures LinkedBetween(s, d[b.number := b.hash], b.number, hi)
  {
    var e := d[b.number := b.hash];
    forall i: nat | b.number < i <= hi
      ensures ParentLink(s, e, i)
    {
      assert i > b.number + 1 ==> ParentLink(s, d, i);
    }
  }

  // Everything above `b` up to `top` is linked and hangs from b.
  ghost predicate HangsFrom(s: Store, d: Index, b: Block, top: Block)
  {
    && b.number < top.number
    && LinkedBetween(s, d, b.number + 1, top.number)
    && s[d[b.number + 1]].parent == b.hash
    && d[top.number] == top.hash
  }

  // The backward pass stands at `header`: everything from `first` down to above it is relinked, it
  // is untouched from there down, and as staged above `first`.
  ghost predicate Relinked(s: Store, canon: Index, staged: Index, out: Index, first: Block, header: Block)
  {
    && header.number <= first.number && header.hash in s && s[header.hash] == header
    && (header == first || HangsFrom(s, out, header, first))
    && (forall n: nat | n <= header.number :: (n in out <==> n in canon) && (n in canon ==> out[n] == canon[n]))
    && (forall n: nat | n > first.number :: (n in out <==> n in staged) && (n in staged ==> out[n] == staged[n]))
  }

  // The header gets its height, so all from it up to `first` is linked.
  lemma RelinkHeader(s: Store, canon: Index, staged: Index, out: Index, first: Block, header: Block)
    requires Relinked(s, canon, staged, out, first, header) && first.hash in s && s[first.hash] == first
    ensures var out' := out[header.number := header.hash];
            LinkedBetween(s, out', header.number, first.number) && out'[first.number] == first.hash
  {
    if header != first {
      PrependLink(s, out, header, first.number);
    }
  }

  lemma RelinkParent(s: Store, canon: Index, staged: Index, out: Index, first: Block, header: Block, parent: Block)
    requires Relinked(s, canon, staged, out, first, header) && first.hash in s && s[first.hash] == first
    requires header.number > 0 && Faithful(s) && GetBlock(s, header.parent, header.number - 1) == Some(parent)
    ensures Relinked(s, canon, staged, out[header.number := header.hash], first, parent)
  {
    RelinkHeader(s, canon, staged, out, first, header);
  }

  // The cross link: from there down the canonical index is the rest of the path.
  lemma RelinkCrossed(s: Store, canon: Index, staged: Index, out: Index, first: Block, header: Block, current: Hash)
    requires Relinked(s, canon, staged, out, first, header) && first.hash in s && s[first.hash] == first
    requires Faithful(s) && IsPath(s, canon, current) && ReadCanonical(canon, header.number) == header.hash
    ensures LinkedUpTo(s, out, first.number) && out[first.number] == first.hash
  {
    assert header.hash != ZERO && header.number in canon;
    RelinkHeader(s, canon, staged, out, first, header);
    assert out[header.number := header.hash] == out;
    JoinLinked(s, canon, out, header.number, first.number);
  }

  // The backward pass of Reorg: rewrite stale assignments from `first` down to the cross link.
  method RelinkBackwards(headers: Store, canon: Index, staged: Index, first: Block, ghost current: Hash)
    returns (err: Option<Error>, out: Index)
    requires Faithful(headers) && IsPath(headers, canon, current)
    requires first.hash in headers && headers[first.hash] == first
    requires forall n: nat | n <= first.number ::
               (n in staged <==> n in canon) && (n in canon ==> staged[n] == canon[n])
    ensures err.None? ==> LinkedUpTo(headers, out, first.number) && out[first.number] == first.hash
    ensures err.None? ==> forall n: nat | n > first.number ::
              (n in out <==> n in staged) && (n in staged ==> out[n] == staged[n])
    ensures Closed(headers) ==> err.None?
  {
    out := staged;
    var header := first;
    while ReadCanonical(canon, header.number) != header.hash
      invariant Relinked(headers, canon, staged, out, first, header)
      decreases header.number
    {
      ghost var before := out;
      out := out[header.number := header.hash];
      if header.number == 0 {
        RelinkHeader(headers, canon, staged, before, first, header);
        return None, out;
      }
      assert Closed(headers) ==> ParentStored(headers, header.hash);
      var parent := GetBlock(headers, header.parent, header.number - 1);
      if parent.None? {
        return Some(MissingParent), out;
      }
      RelinkParent(headers, canon, staged, before, first, header, parent.value);
      header := parent.value;
    }
    err := None;
    RelinkCrossed(headers, canon, staged, out, first, header, current);
  }

  lemma {:induction false} BatchNumbers(batch: seq<Block>, i: nat)
    requires Contiguous(batch) && i < |batch|
    ensures batch[i].number == batch[0].number + i
  {
    if i == 0 {
    } else {
      assert ChildOf(batch, i);
      BatchNumbers(batch, i - 1);
    }
  }

  // The forward pass of Reorg: assign the batch its heights.
  method AssignBatch(headers: Store, staged: Index, batch: seq<Block>) returns (out: Index)
    requires Contiguous(batch) && batch != [] && (forall b | b in batch :: b.hash in headers && headers[b.hash] == b)
    requires LinkedUpTo(headers, staged[batch[0].number := batch[0].hash], batch[0].number)
    requires forall n | n in staged :: n <= batch[|batch| - 1].number
    ensures IsPath(headers, out, batch[|batch| - 1].hash)
  {
    out := staged;
    BatchNumbers(batch, |batch| - 1);
    var i := 0;
    while i < |batch| - 1
      invariant 0 <= i < |batch|
      invariant LinkedUpTo(headers, out[batch[i].number := batch[i].hash], batch[i].number)
      invariant forall n | n in out :: n <= batch[|batch| - 1].number
    {
      assert ChildOf(batch, i + 1);
      BatchNumbers(batch, i);
      out := out[batch[i].number := batch[i + 1].parent];
      AppendLink(headers, out, batch[i + 1]);
      i := i + 1;
    }
    out := out[batch[i].number := batch[i].hash];
  }

  datatype Status = NonStat | SideStat | CanonStat

  // Canonical when the fork choice wanted the batch and it was not canonical already; a side
  // chain when it did not and something was new.
  ghost function Chosen(wanted: bool, canonical: bool, anyNew: bool): Status
  {
    if wanted then (if canonical then NonStat else CanonStat) else if anyNew then SideStat else NonStat
  }

  // How many headers at the start of the batch are stored already.
  ghost function KnownPrefix(s: Store, batch: seq<Block>): (k: nat)
    ensures k <= |batch|
    ensures forall i | 0 <= i < k :: batch[i].hash in s
    ensures k < |batch| ==> batch[k].hash !in s
  {
    if batch == [] then 0
    else
      var n := |batch| - 1;
      var k := KnownPrefix(s, batch[..n]);
      if k == n && batch[n].hash in s then n + 1 else k
  }

  // One more header extends the known prefix exactly when all before it and it are known.
  lemma KnownStep(s: Store, batch: seq<Block>, i: nat)
    requires i < |batch|
    ensures var k := KnownPrefix(s, batch[..i]);
            KnownPrefix(s, batch[..i + 1]) == if k == i && batch[i].hash in s then i + 1 else k
  {
    assert batch[..i + 1][..i] == batch[..i];
  }

  // The first i headers are staged; newTd is the total difficulty of the last, known says that all
  // of them were stored already.
  ghost predicate Staged(headers: Store, batch: seq<Block>, i: nat, s: Store, t: TdTable,
                         newTd: nat, known: bool, inserted: nat)
  {
    && i <= |batch|
    && Faithful(s) && Closed(s) && TdValid(s, t)
    && s == StoreAll(headers, batch[..i])
    && (i < |batch| ==> ParentTd(s, t, batch[i]) == Some(newTd))
    && (known <==> KnownPrefix(headers, batch[..i]) == i)
    && inserted == i - KnownPrefix(headers, batch[..i])
  }

  lemma StageNone(headers: Store, td: TdTable, batch: seq<Block>, ptd: nat)
    requires Faithful(headers) && Closed(headers) && TdValid(headers, td)
    requires batch != [] && ParentTd(headers, td, batch[0]) == Some(ptd)
    ensures Staged(headers, batch, 0, headers, td, ptd, true, 0)
  {
    assert batch[..0] == [];
  }

  // Writing a header and skipping a known one both stage it.
  lemma StageNext(headers: Store, batch: seq<Block>, i: nat, s: Store, t: TdTable,
                  newTd: nat, known: bool, inserted: nat)
    requires Contiguous(batch) && i < |batch| && Genuine(headers, batch[i])
    requires Staged(headers, batch, i, s, t, newTd, known, inserted)
    ensures var header, td := batch[i], newTd + batch[i].difficulty;
            if known && header.hash in headers
            then Staged(headers, batch, i + 1, s, t, td, true, inserted)
            else Staged(headers, batch, i + 1, s[header.hash := header], t[header.hash := td], td, false, inserted + 1)
  {
    var header, td := batch[i], newTd + batch[i].difficulty;
    var s', t' := s[header.hash := header], t[header.hash := td];
    StoreStep(headers, s, t, batch, i, newTd);
    KnownStep(headers, batch, i);
    if i + 1 < |batch| {
      NextParentTd(s', t', batch, i + 1);
    }
  }

  // Headers already stored are skipped as long as all before them were; everything from the
  // first unknown header on is staged, with the running total difficulty.
  method StageHeaders(headers: Store, td: TdTable, batch: seq<Block>, ptd: nat)
    returns (s: Store, t: TdTable, inserted: nat)
    requires Faithful(headers) && Closed(headers) && TdValid(headers, td)
    requires Contiguous(batch) && (forall i | 0 <= i < |batch| :: Genuine(headers, batch[i]))
    requires batch != [] && ParentTd(headers, td, batch[0]) == Some(ptd)
    ensures Faithful(s) && Closed(s) && TdValid(s, t)
    ensures s == StoreAll(headers, batch)
    ensures inserted == |batch| - KnownPrefix(headers, batch)
  {
    s, t, inserted := headers, td, 0;
    StageNone(headers, td, batch, ptd);
    var newTd: nat, parentKnown := ptd, true;
    var i := 0;
    while i < |batch|
      invariant 0 <= i <= |batch| && Staged(headers, batch, i, s, t, newTd, parentKnown, inserted)
    {
      var header := batch[i];
      StageNext(headers, batch, i, s, t, newTd, parentKnown, inserted);
      newTd := newTd + header.difficulty;
      var alreadyKnown := parentKnown && header.hash in headers;
      if !alreadyKnown {
        t := t[header.hash := newTd];
        s := s[header.hash := header];
        inserted := inserted + 1;
      }
      parentKnown := alreadyKnown;
      i := i + 1;
    }
    assert batch[..i] == batch;
  }

  class HeaderChain {
    var headers: Store
    var td: TdTable
    var canon: Index
    var currentHeader: Block

    ghost predicate Valid()
      reads this
    {
      && Faithful(headers) && Closed(headers) && TdValid(headers, td)
      && currentHeader.hash in headers && headers[currentHeader.hash] == currentHeader
      && IsPath(headers, canon, currentHeader.hash)
    }

    constructor (genesis: Block)
      requires genesis.number == 0 && genesis.hash != ZERO && genesis.parent == ZERO
      ensures Valid() && currentHeader == genesis
      ensures headers == map[genesis.hash := genesis] && td == map[genesis.hash := genesis.difficulty]
      ensures canon == map[0 := genesis.hash]
    {
      headers, td := map[genesis.hash := genesis], map[genesis.hash := genesis.difficulty];
      canon, currentHeader := map[0 := genesis.hash], genesis;
      GenesisOnly(genesis);
    }

    // Make the given batch canonical, by extending the chain or by switching branches through
    // whatever cross link there is.
    method Reorg(batch: seq<Block>) returns (err: Option<Error>)
      requires Faithful(headers) && IsPath(headers, canon, currentHeader.hash)
      requires Contiguous(batch) && (forall b | b in batch :: b.hash in headers && headers[b.hash] == b)
      requires currentHeader.hash in headers && headers[currentHeader.hash] == currentHeader
      requires batch != [] && batch[0].parent in headers ==> headers[batch[0].parent].number + 1 == batch[0].number
      modifies this`canon, this`currentHeader
      ensures err.Some? ==> unchanged(this)
      ensures err.None? && batch != [] ==>
                currentHeader == batch[|batch| - 1] && IsPath(headers, canon, currentHeader.hash)
      ensures batch == [] ==> err.None? && unchanged(this)
      ensures Closed(headers) ==> err.None?
    {
      if batch == [] {
        return None;
      }
      var first, last := batch[0], batch[|batch| - 1];
      BatchNumbers(batch, |batch| - 1);
      var staged := canon;
      if first.parent != currentHeader.hash {
        staged := DeleteMarkersAbove(canon, last.number,
                                     if currentHeader.number > last.number then currentHeader.number else last.number);
        var e;
        e, staged := RelinkBackwards(headers, canon, staged, first, currentHeader.hash);
        if e.Some? {
          return e;
        }
        assert staged[first.number := first.hash] == staged;
      } else {
        AppendLink(headers, canon, first);
      }
      staged := AssignBatch(headers, staged, batch);
      canon := staged;
      currentHeader := last;
      err := None;
    }

    // Store a batch of headers whose parents are known, with their total difficulties.
    // Nothing is written when the import is interrupted.
    method WriteHeaders(batch: seq<Block>, interrupted: bool) returns (err: Option<Error>, inserted: nat)
      requires Faithful(headers) && Closed(headers) && TdValid(headers, td)
      requires Contiguous(batch) && (forall i | 0 <= i < |batch| :: Genuine(headers, batch[i]))
      modifies this`headers, this`td
      ensures Faithful(headers) && Closed(headers) && TdValid(headers, td)
      ensures batch == [] ==> err.None? && inserted == 0 && unchanged(this)
      ensures batch != [] ==>
                err == if ParentTd(old(headers), old(td), batch[0]).None? then Some(ForkChoiceError(UnknownAncestor))
                       else if interrupted then Some(Aborted) else None
      ensures err.Some? ==> unchanged(this)
      ensures err.None? ==> inserted == |batch| - KnownPrefix(old(headers), batch)
      ensures err.None? ==> headers == StoreAll(old(headers), batch)
    {
      if batch == [] {
        return None, 0;
      }
      var ptd := ParentTd(headers, td, batch[0]);
      if ptd.None? {
        return Some(ForkChoiceError(UnknownAncestor)), 0;
      }
      var s, t;
      s, t, inserted := StageHeaders(headers, td, batch, ptd.value);
      if interrupted {
        return Some(Aborted), 0;
      }
      headers, td := s, t;
      err := None;
    }

    // The fork choice leaves `before` in place of the batch's last header.
    ghost predicate WantedNot(cfg: Config, before: Block, batch: seq<Block>, coin: bool)
      requires batch != []
      reads this
    {
      ReorgNeededWithFastFinality(cfg, headers, td, before, batch[|batch| - 1], coin) == Decided(false)
    }

    // The head's (justified number, total difficulty) is at least that of `before`.
    ghost predicate NoWorseHead(cfg: Config, before: Block)
      reads this
    {
      && before.hash in td && currentHeader.hash in td
      && ScoreLeq(Justified(cfg, before), td[before.hash], Justified(cfg, currentHeader), td[currentHeader.hash])
    }

    // The fork choice over a batch that is stored: both total difficulties are there, so it
    // never refuses, and a batch that is canonical already is left alone.
    method ChooseHead(cfg: Config, batch: seq<Block>, inserted: nat, coin: bool) returns (status: Status)
      requires Valid() && batch != []
      requires Contiguous(batch) && (forall b | b in batch :: b.hash in headers && headers[b.hash] == b)
      modifies this`canon, this`currentHeader
      ensures Valid()
      ensures currentHeader == if status == CanonStat then batch[|batch| - 1] else old(currentHeader)
      ensures var last := batch[|batch| - 1];
              var wanted := ReorgNeededWithFastFinality(cfg, headers, td, old(currentHeader), last, coin);
              && wanted.Decided?
              && status == Chosen(wanted.reorg, ReadCanonical(old(canon), last.number) == last.hash, inserted != 0)
      ensures cfg.posa && cfg.ttd.None? ==> NoWorseHead(cfg, old(currentHeader))
    {
      var last := batch[|batch| - 1];
      var d := ReorgNeededWithFastFinality(cfg, headers, td, currentHeader, last, coin);
      assert d.Decided?;
      if !d.reorg {
        return if inserted != 0 then SideStat else NonStat;
      }
      if ReadCanonical(canon, last.number) == last.hash && last.number <= currentHeader.number {
        return NonStat;
      }
      assert ParentStored(headers, batch[0].hash);
      var err := Reorg(batch);
      return CanonStat;
    }

    // Write a batch, then let the fork choice decide whether its last header becomes the head.
    // The index is the head's path whatever happens.
    method WriteHeadersAndSetHead(cfg: Config, batch: seq<Block>, interrupted: bool, coin: bool)
      returns (err: Option<Error>, status: Status)
      requires Valid() && batch != []
      requires Contiguous(batch) && (forall i | 0 <= i < |batch| :: Genuine(headers, batch[i]))
      modifies this
      ensures Valid()
      ensures err.Some? ==> unchanged(this)
      ensures err.None? <==> old(ParentTd(headers, td, batch[0])).Some? && !interrupted
      ensures err.None? ==> headers == StoreAll(old(headers), batch)
      ensures status == CanonStat ==> err.None? && currentHeader == batch[|batch| - 1]
      ensures status != CanonStat ==> currentHeader == old(currentHeader)
      ensures err.None? ==>
                var last := batch[|batch| - 1];
                var wanted := ReorgNeededWithFastFinality(cfg, headers, td, old(currentHeader), last, coin);
                && wanted.Decided?
                && status == Chosen(wanted.reorg, ReadCanonical(old(canon), last.number) == last.hash,
                                    KnownPrefix(old(headers), batch) < |batch|)
      ensures err.None? ==>
                var last := batch[|batch| - 1];
                (status == CanonStat <==>
                   && ReorgNeededWithFastFinality(cfg, headers, td, old(currentHeader), last, coin) == Decided(true)
                   && ReadCanonical(old(canon), last.number) != last.hash)
      ensures err.None? ==>
                (status == SideStat <==>
                   && currentHeader == old(currentHeader) && WantedNot(cfg, old(currentHeader), batch, coin)
                   && exists b | b in batch :: b.hash !in old(headers))
      ensures cfg.posa && cfg.ttd.None? ==> NoWorseHead(cfg, old(currentHeader))
    {
      var inserted;
      ghost var before := headers;
      err, inserted := WriteHeaders(batch, interrupted);
      status := NonStat;
      if err.Some? {
        return;
      }
      BatchStored(before, batch);
      PathGrows(before, headers, canon, currentHeader.hash);
      status := ChooseHead(cfg, batch, inserted, coin);
    }
  }
}
