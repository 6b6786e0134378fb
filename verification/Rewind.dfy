/** Rewinding: the search for a block with state, and setHead with its block-marker callback. */
module Rewind {
  import opened Options
  import opened ChainTree
  import opened TotalDifficulty
  import opened ForkChoices

  const FULL_IMMUTABILITY_THRESHOLD: nat := 90000

  // What a rewind looks at besides the header chain: the state roots and block bodies on disk,
  // the root to be crossed (ZERO for none), the snap-sync pivot and the number of frozen blocks.
  datatype Env = Env(states: set<Hash>, bodies: set<Hash>, root: Hash, pivot: Option<nat>, frozen: nat)

  // The oldest block the search may end at.
  function SearchLimit(env: Env, head: Block): nat
  {
    if env.pivot.Some? then env.pivot.value
    else if head.number > FULL_IMMUTABILITY_THRESHOLD then head.number - FULL_IMMUTABILITY_THRESHOLD
    else 0
  }

  ghost predicate CarriesRoot(s: Store, path: Index, root: Hash, n: nat)
  {
    n in path && path[n] in s && s[path[n]].root == root
  }

  // Height n has state, is not below the search limit, and lies at or below a block on the path
  // that carries the requested root.
  ghost predicate Eligible(s: Store, path: Index, env: Env, head: Block, n: nat)
  {
    && n in path && path[n] in s
    && SearchLimit(env, head) <= n
    && s[path[n]].root in env.states
    && (env.root == ZERO || exists m: nat :: n <= m <= head.number && CarriesRoot(s, path, env.root, m))
  }

  // The heights from `low` up have been examined: the flag says whether the root was among them,
  // and the number is the highest one carrying it.
  ghost predicate RootTracked(s: Store, path: Index, env: Env, head: Block, low: nat, beyondRoot: bool, rootNumber: nat)
  {
    if env.root == ZERO then beyondRoot && rootNumber == 0
    else if beyondRoot then
      && low <= rootNumber <= head.number && CarriesRoot(s, path, env.root, rootNumber)
      && (forall m: nat | rootNumber < m <= head.number :: !CarriesRoot(s, path, env.root, m))
    else
      rootNumber == 0 && forall m: nat | low <= m <= head.number :: !CarriesRoot(s, path, env.root, m)
  }

  // Height n is not too far down from height `from`: at or above the pivot when there is one, and
  // otherwise at most 90000 below.
  ghost predicate WithinReach(env: Env, from: nat, n: nat)
  {
    if env.pivot.Some? then env.pivot.value <= n else from <= n + 90000
  }

  // The requested root, if any, is that of some block from height n up.
  ghost predicate RootCrossed(s: Store, path: Index, root: Hash, n: nat, top: nat)
  {
    root == ZERO || exists m: nat :: n <= m <= top && CarriesRoot(s, path, root, m)
  }

  lemma EligibleOnFields(s: Store, path: Index, env: Env, head: Block, n: nat)
    requires n in path && path[n] in s
    ensures Eligible(s, path, env, head, n) <==>
              && WithinReach(env, head.number, n) && s[path[n]].root in env.states
              && RootCrossed(s, path, env.root, n, head.number)
  {
  }

  // The same, for what a search finds.
  lemma FoundOnFields(s: Store, path: Index, env: Env, head: Block, result: Block)
    requires IsPath(s, path, head.hash) && s[head.hash] == head
    requires result.number in path && path[result.number] in s && s[path[result.number]] == result
    requires result.number > 0 ==> Eligible(s, path, env, head, result.number)
    requires forall n: nat | result.number < n <= head.number :: !Eligible(s, path, env, head, n)
    ensures result.number > 0 ==>
              && result.root in env.states && WithinReach(env, head.number, result.number)
              && RootCrossed(s, path, env.root, result.number, head.number)
    ensures forall n: nat | result.number < n <= head.number && WithinReach(env, head.number, n)
                            && RootCrossed(s, path, env.root, n, head.number) ::
              s[path[n]].root !in env.states
  {
    if result.number > 0 {
      EligibleOnFields(s, path, env, head, result.number);
    }
    forall n: nat | result.number < n <= head.number && WithinReach(env, head.number, n)
                    && RootCrossed(s, path, env.root, n, head.number)
      ensures s[path[n]].root !in env.states
    {
      EligibleOnFields(s, path, env, head, n);
    }
  }

  // The search itself, against the limit it computes first.
  method SearchDown(s: Store, env: Env, genesis: Block, head: Block, ghost path: Index)
    returns (result: Block, rootNumber: nat)
    requires Faithful(s) && IsPath(s, path, head.hash) && s[head.hash] == head
    requires genesis.number == 0 && path[0] == genesis.hash && s[genesis.hash] == genesis
    ensures result.number <= head.number && path[result.number] == result.hash && s[result.hash] == result
    ensures result.number > 0 ==> Eligible(s, path, env, head, result.number)
    ensures forall n: nat | result.number < n <= head.number :: !Eligible(s, path, env, head, n)
    ensures rootNumber > 0 ==> rootNumber <= head.number && CarriesRoot(s, path, env.root, rootNumber)
    ensures rootNumber > 0 ==> forall m: nat | rootNumber < m <= head.number :: !CarriesRoot(s, path, env.root, m)
    ensures env.root == ZERO ==> rootNumber == 0
    ensures env.root != ZERO && result.number > 0 ==> result.number <= rootNumber
    ensures env.root != ZERO ==>
              forall m: nat | 0 < m <= head.number && result.number <= m && SearchLimit(env, head) <= m ::
                CarriesRoot(s, path, env.root, m) ==> m <= rootNumber
  {
    var limit := SearchLimit(env, head);
    var beyondRoot := env.root == ZERO;
    rootNumber := 0;
    var at := head;
    while true
      invariant at.number <= head.number && path[at.number] == at.hash && s[at.hash] == at
      invariant forall n: nat | at.number < n <= head.number :: !Eligible(s, path, env, head, n)
      invariant RootTracked(s, path, env, head, at.number + 1, beyondRoot, rootNumber)
      decreases at.number
    {
      if !beyondRoot && at.root == env.root {
        beyondRoot, rootNumber := true, at.number;
      }
      assert RootTracked(s, path, env, head, at.number, beyondRoot, rootNumber);
      if at.number < limit {
        return genesis, rootNumber;
      }
      if at.root !in env.states {
        var parent := GetParent(s, at);
        assert at.number > 0 ==> ParentLink(s, path, at.number);
        if parent.None? {
          return genesis, rootNumber;
        }
        at := parent.value;
        if at.number == 0 {
          return at, rootNumber;
        }
      } else if beyondRoot || at.number == 0 {
        return at, rootNumber;
      } else {
        assert ParentLink(s, path, at.number);
        at := GetParent(s, at).value;
      }
    }
  }

  // The highest block on the path of `head` with state, within reach and at or below the block that
  // carries the requested root; genesis when there is none.
  method RewindHashHead(s: Store, env: Env, genesis: Block, head: Block, ghost path: Index)
    returns (result: Block, rootNumber: nat)
    requires Faithful(s) && IsPath(s, path, head.hash) && s[head.hash] == head
    requires genesis.number == 0 && path[0] == genesis.hash && s[genesis.hash] == genesis
    ensures result.number <= head.number && path[result.number] == result.hash && s[result.hash] == result
    ensures result.number > 0 ==> Eligible(s, path, env, head, result.number)
    ensures forall n: nat | result.number < n <= head.number :: !Eligible(s, path, env, head, n)
    ensures result.number > 0 ==>
              && result.root in env.states && WithinReach(env, head.number, result.number)
              && RootCrossed(s, path, env.root, result.number, head.number)
    ensures forall n: nat | result.number < n <= head.number && WithinReach(env, head.number, n)
                            && RootCrossed(s, path, env.root, n, head.number) ::
              s[path[n]].root !in env.states
    ensures rootNumber > 0 ==> rootNumber <= head.number && CarriesRoot(s, path, env.root, rootNumber)
    ensures rootNumber > 0 ==> forall m: nat | rootNumber < m <= head.number :: !CarriesRoot(s, path, env.root, m)
    ensures env.root == ZERO ==> rootNumber == 0
    ensures env.root != ZERO && result.number > 0 ==> result.number <= rootNumber
    ensures env.root != ZERO ==>
              forall m: nat | 0 < m <= head.number && result.number <= m && WithinReach(env, head.number, m) ::
                CarriesRoot(s, path, env.root, m) ==> m <= rootNumber
  {
    result, rootNumber := SearchDown(s, env, genesis, head, path);
    FoundOnFields(s, path, env, head, result);
  }

  // The target of a rewind: a block number, or a timestamp when time > 0.
  datatype Target = Target(block: nat, time: nat)

  predicate Done(target: Target, header: Block)
  {
    if target.time > 0 then header.time <= target.time else header.number <= target.block
  }

  function AllHashes(s: Store, n: nat): set<Hash>
  {
    set h | h in s && s[h].number == n
  }

  ghost function HigherThan(s: Store, n: int): set<Hash>
  {
    set h | h in s && s[h].number > n
  }

  // The heights above num that hold headers, up to the first height without any.
  method LeftoverHeights(s: Store, num: nat) returns (top: nat)
    ensures top >= num
    ensures forall n: nat | num < n <= top :: AllHashes(s, n) != {}
    ensures AllHashes(s, top + 1) == {}
  {
    top := num;
    while AllHashes(s, top + 1) != {}
      invariant top >= num
      invariant forall n: nat | num < n <= top :: AllHashes(s, n) != {}
      decreases HigherThan(s, top)
    {
      assert HigherThan(s, top + 1) < HigherThan(s, top) by {
        var h :| h in AllHashes(s, top + 1);
        assert h in HigherThan(s, top) && h !in HigherThan(s, top + 1);
      }
      top := top + 1;
    }
  }

  // In a closed store the first empty height has nothing above it either.
  lemma {:induction false} NothingAboveGap(s: Store, gap: nat, h: Hash)
    requires Closed(s) && AllHashes(s, gap) == {} && h in s
    ensures s[h].number < gap
    decreases s[h].number
  {
    assert h !in AllHashes(s, gap);
    if s[h].number < gap {
    } else {
      assert ParentStored(s, h);
      NothingAboveGap(s, gap, s[h].parent);
    }
  }

  lemma NothingAbove(s: Store, top: nat)
    requires Closed(s) && AllHashes(s, top + 1) == {}
    ensures forall h | h in s :: s[h].number <= top
  {
    forall h | h in s
      ensures s[h].number <= top
    {
      NothingAboveGap(s, top + 1, h);
    }
  }

  // All headers, and all canonical entries, at the heights num..top.
  method WipeHeights(s: Store, num: nat, top: nat) returns (hashes: set<Hash>, nums: set<nat>)
    requires num <= top
    ensures hashes == set h | h in s && num <= s[h].number <= top
    ensures forall n :: n in nums <==> num <= n <= top
  {
    hashes, nums := {}, {};
    for n := num to top + 1
      invariant hashes == set h | h in s && num <= s[h].number < n
      invariant forall m :: m in nums <==> num <= m < n
    {
      hashes, nums := hashes + AllHashes(s, n), nums + {n};
    }
  }

  // What a turn that leaves height num deletes; on the first turn everything above it as well.
  method CollectHeights(s: Store, num: nat, origin: bool) returns (hashes: set<Hash>, nums: set<nat>)
    requires Closed(s)
    ensures hashes == if origin then HigherThan(s, num - 1) else AllHashes(s, num)
    ensures num in nums && forall n | n in nums :: n >= num
  {
    var top := num;
    if origin {
      top := LeftoverHeights(s, num);
      NothingAbove(s, top);
    }
    hashes, nums := WipeHeights(s, num, top);
  }

  // Exactly the headers and index entries above height n are to be deleted; before the first turn
  // nothing is.
  ghost predicate Collected(s: Store, c: Index, n: nat, origin: bool, delHeaders: set<Hash>, delCanon: set<nat>)
  {
    if origin then delHeaders == {} && delCanon == {}
    else delHeaders == HigherThan(s, n) && forall m | m in c :: m in delCanon <==> m > n
  }

  lemma CollectMore(s: Store, c: Index, n: nat, origin: bool, delHeaders: set<Hash>, delCanon: set<nat>,
                    hashes: set<Hash>, nums: set<nat>)
    requires Collected(s, c, n + 1, origin, delHeaders, delCanon)
    requires origin ==> forall m | m in c :: m <= n + 1
    requires hashes == if origin then HigherThan(s, n) else AllHashes(s, n + 1)
    requires n + 1 in nums && forall m | m in nums :: m >= n + 1
    ensures Collected(s, c, n, false, delHeaders + hashes, delCanon + nums)
  {
  }

  function TdUpTo(s: Store, td: TdTable, n: nat): TdTable
  {
    map h | h in td && h in s && s[h].number <= n :: td[h]
  }

  function HeadersUpTo(s: Store, n: nat): Store
  {
    map h | h in s && s[h].number <= n :: s[h]
  }

  // Dropping everything above a block on the path leaves a closed store with a valid difficulty
  // table, and an index that is exactly that block's path.
  lemma FlushValid(s: Store, td: TdTable, c: Index, head: Block, delHeaders: set<Hash>, delCanon: set<nat>)
    requires Faithful(s) && Closed(s) && TdValid(s, td) && LinkedUpTo(s, c, head.number)
    requires c[head.number] == head.hash && s[head.hash] == head
    requires Collected(s, c, head.number, false, delHeaders, delCanon)
    ensures s - delHeaders == HeadersUpTo(s, head.number) && c - delCanon == UpTo(c, head.number)
    ensures td - delHeaders == TdUpTo(s, td, head.number)
    ensures Faithful(s - delHeaders) && Closed(s - delHeaders) && TdValid(s - delHeaders, td - delHeaders)
    ensures IsPath(s - delHeaders, c - delCanon, head.hash)
  {
    var s', td', c' := s - delHeaders, td - delHeaders, c - delCanon;
    forall h | h in s'
      ensures TdEntryValid(s', td', h) && ParentStored(s', h)
    {
      assert TdEntryValid(s, td, h) && ParentStored(s, h);
    }
    forall i: nat | 0 < i <= head.number
      ensures ParentLink(s', c', i)
    {
      assert ParentLink(s, c, i);
    }
  }

  lemma SubPath(s: Store, c: Index, n: nat)
    requires LinkedUpTo(s, c, n)
    ensures IsPath(s, UpTo(c, n), c[n])
  {
    var d := UpTo(c, n);
    forall i: nat | 0 < i <= n
      ensures ParentLink(s, d, i)
    {
      assert ParentLink(s, c, i);
    }
  }

  // ---------------------------------------------------------------- where the markers end

  // No stored header, canonical or not, is above the head.
  ghost predicate NoneHigher(s: Store, head: Block)
  {
    forall h | h in s :: s[h].number <= head.number
  }

  ghost predicate NoneDoneAbove(s: Store, c: Index, target: Target, low: nat, high: nat)
  {
    forall n: nat | low < n <= high :: n in c && c[n] in s && !Done(target, s[c[n]])
  }

  // The new head is the highest block on the old path that meets the target.
  ghost predicate StopsAt(s: Store, c: Index, target: Target, high: nat, head: Block)
  {
    && head.number <= high && head.number in c && c[head.number] == head.hash
    && Done(target, head) && NoneDoneAbove(s, c, target, head.number, high)
  }

  // The three head markers.
  datatype Markers = Markers(header: Block, block: Block, snap: Block)

  // A block marker below the frozen blocks, and not below the pivot, forces the rewind further.
  predicate Forced(env: Env, n: nat)
  {
    n + 1 < env.frozen && (env.pivot.None? || n >= env.pivot.value)
  }

  predicate Below(target: Target, b: Block)
  {
    if target.time > 0 then b.time < target.time else b.number < target.block
  }

  // `after` is the highest eligible block at or below `head`, or genesis when there is none.
  ghost predicate Rewound(s: Store, c: Index, env: Env, head: Block, after: Block)
  {
    && (after.number > 0 ==> Eligible(s, UpTo(c, head.number), env, head, after.number))
    && (forall n: nat | after.number < n <= head.number :: !Eligible(s, UpTo(c, head.number), env, head, n))
  }

  // The full-block marker stays below `parent`, or is rewound to it.
  ghost predicate BlockMarkerMoved(s: Store, c: Index, env: Env, parent: Block, before: Block, after: Block)
  {
    if before.number < parent.number then after == before else Rewound(s, c, env, parent, after)
  }

  // The snap marker stays at or below `parent`, or falls to it, or to genesis without its body.
  function SnapMoved(env: Env, genesis: Block, parent: Block, before: Block): Block
  {
    if parent.number >= before.number then before
    else if parent.hash in env.bodies then parent
    else genesis
  }

  // One turn of the rewind: the header head goes to its parent, the block markers follow, and a
  // forced rewind gets a new target.
  ghost predicate Turn(s: Store, c: Index, env: Env, genesis: Block, target: Target, target': Target,
                       now: Markers, next: Markers)
  {
    && BlockMarkerMoved(s, c, env, next.header, now.block, next.block)
    && next.snap == SnapMoved(env, genesis, next.header, now.snap)
    && target' == if Forced(env, next.block.number) && Below(target, next.block) then Target(next.block.number, 0)
                  else target
  }

  // The height Rewound gives from `head`, searching from n down.
  ghost function HighestEligible(s: Store, c: Index, env: Env, head: Block, n: nat): nat
  {
    if n == 0 || Eligible(s, UpTo(c, head.number), env, head, n) then n else HighestEligible(s, c, env, head, n - 1)
  }

  ghost function RewoundFrom(s: Store, c: Index, env: Env, p: nat): nat
    requires LinkedUpTo(s, c, p)
  {
    HighestEligible(s, c, env, s[c[p]], p)
  }

  lemma {:induction false} HighestIsRewound(s: Store, c: Index, env: Env, head: Block, n: nat, after: Block)
    requires n <= head.number
    requires forall m: nat | n < m <= head.number :: !Eligible(s, UpTo(c, head.number), env, head, m)
    ensures HighestEligible(s, c, env, head, n) <= n
    ensures after.number <= head.number ==>
              (Rewound(s, c, env, head, after) <==> after.number == HighestEligible(s, c, env, head, n))
    decreases n
  {
    if n == 0 || Eligible(s, UpTo(c, head.number), env, head, n) {
    } else {
      HighestIsRewound(s, c, env, head, n - 1, after);
    }
  }

  // Where a marker at or above height p ends once the header head has gone from above p to `to`: it
  // is rewound when the header head reaches p; if that leaves it at `to` or above, it is rewound
  // again when the header head comes down to it.
  ghost function FinalHeight(s: Store, c: Index, env: Env, p: nat, to: nat): nat
    requires LinkedUpTo(s, c, p) && to <= p
    decreases p
  {
    var a := RewoundFrom(s, c, env, p);
    if p == to || a < to then a else FinalHeight(s, c, env, if a < p then a else p - 1, to)
  }

  // Over a rewind from height `from` to height `to` the full-block marker stays where it is when
  // that is below; otherwise it ends at the final height from where the header head first met it.
  ghost predicate BlockMarkerSettled(s: Store, c: Index, env: Env, from: nat, to: nat, before: Block, after: Block)
  {
    && to <= from && LinkedUpTo(s, c, from)
    && if from == to || before.number < to then after == before
       else after.number == FinalHeight(s, c, env, if before.number < from then before.number else from - 1, to)
  }

  lemma RewoundBelow(s: Store, c: Index, env: Env, p: nat)
    requires LinkedUpTo(s, c, p)
    ensures RewoundFrom(s, c, env, p) <= p
  {
    HighestIsRewound(s, c, env, s[c[p]], p, s[c[p]]);
  }

  // One height further down: the marker is rewound exactly when it is not below the header head.
  lemma {:induction false} FinalHeightStep(s: Store, c: Index, env: Env, p: nat, to: nat)
    requires LinkedUpTo(s, c, p) && 0 < to <= p
    ensures var now := FinalHeight(s, c, env, p, to);
            FinalHeight(s, c, env, p, to - 1) == if now < to - 1 then now else RewoundFrom(s, c, env, to - 1)
    decreases p
  {
    var a := RewoundFrom(s, c, env, p);
    if p == to || a < to {
      assert a >= to - 1 ==> FinalHeight(s, c, env, p, to - 1) == FinalHeight(s, c, env, to - 1, to - 1) by {
        RewoundBelow(s, c, env, p);
      }
    } else {
      FinalHeightStep(s, c, env, if a < p then a else p - 1, to);
    }
  }

  ghost predicate HasBody(c: Index, env: Env, p: nat)
  {
    p in c && c[p] in env.bodies
  }

  // The snap marker stays when it is at or below `to`; otherwise it is the new header head, provided
  // every block from there up to below the marker has a body, and genesis if one has not.
  ghost predicate SnapMarkerSettled(c: Index, env: Env, genesis: Block, to: Block, before: Block, after: Block)
  {
    after == if before.number <= to.number then before
             else if forall p: nat | to.number <= p < before.number :: HasBody(c, env, p) then to
             else genesis
  }

  // Some header from height `low` up meets the target.
  ghost predicate Reached(s: Store, c: Index, target: Target, low: nat, high: nat)
  {
    exists p: nat :: low <= p <= high && p in c && c[p] in s && Done(target, s[c[p]])
  }

  // The target is the wanted one, and no header left behind meets it; or it is a block number that
  // the rewind was forced to, at or below a header that meets the wanted one.
  ghost predicate TargetTracked(s: Store, c: Index, env: Env, wanted: Target, target: Target, from: nat, now: nat)
  {
    if target == wanted then NoneDoneAbove(s, c, wanted, now, from)
    else
      && target.time == 0 && target.block <= now && (wanted.time == 0 ==> target.block < wanted.block)
      && Forced(env, target.block) && Reached(s, c, wanted, target.block, from)
  }

  // All a rewind keeps track of between its turns.
  ghost predicate Progress(s: Store, c: Index, env: Env, genesis: Block, wanted: Target, target: Target,
                           start: Markers, now: Markers)
  {
    && now.header.number <= start.header.number
    && BlockMarkerSettled(s, c, env, start.header.number, now.header.number, start.block, now.block)
    && SnapMarkerSettled(c, env, genesis, now.header, start.snap, now.snap)
    && TargetTracked(s, c, env, wanted, target, start.header.number, now.header.number)
    && (now.header.number < start.header.number ==> !(Forced(env, now.block.number) && Below(target, now.block)))
  }

  lemma BlockMarkerStep(s: Store, c: Index, env: Env, from: nat, parent: Block, before: Block, now: Block, next: Block)
    requires parent.number < from && parent.number in c && c[parent.number] in s && s[c[parent.number]] == parent
    requires BlockMarkerSettled(s, c, env, from, parent.number + 1, before, now)
    requires BlockMarkerMoved(s, c, env, parent, now, next) && next.number <= parent.number
    ensures BlockMarkerSettled(s, c, env, from, parent.number, before, next)
  {
    var to := parent.number;
    var met := if before.number < from then before.number else from - 1;
    assert now.number >= to ==> next.number == RewoundFrom(s, c, env, to) by {
      HighestIsRewound(s, c, env, parent, to, next);
    }
    if from > to + 1 && before.number > to {
      FinalHeightStep(s, c, env, met, to + 1);
    } else if before.number >= to {
      assert met == to;
    }
  }

  lemma SnapMarkerStep(c: Index, env: Env, genesis: Block, header: Block, parent: Block, before: Block, now: Block)
    requires genesis.number == 0 && header.number == parent.number + 1
    requires parent.number in c && c[parent.number] == parent.hash
    requires SnapMarkerSettled(c, env, genesis, header, before, now)
    ensures SnapMarkerSettled(c, env, genesis, parent, before, SnapMoved(env, genesis, parent, now))
  {
    assert HasBody(c, env, parent.number) <==> parent.hash in env.bodies;
    if before.number > header.number {
      assert (forall p: nat | parent.number <= p < before.number :: HasBody(c, env, p)) <==>
             HasBody(c, env, parent.number) && forall p: nat | header.number <= p < before.number :: HasBody(c, env, p);
    }
  }

  lemma TargetStep(s: Store, c: Index, env: Env, wanted: Target, target: Target, target': Target, from: nat,
                   header: Block, block: Block)
    requires 0 < header.number <= from && header.number in c && c[header.number] in s && s[c[header.number]] == header
    requires block.number < header.number && block.number in c && c[block.number] in s && s[c[block.number]] == block
    requires TargetTracked(s, c, env, wanted, target, from, header.number) && !Done(target, header)
    requires target' == if Forced(env, block.number) && Below(target, block) then Target(block.number, 0) else target
    ensures TargetTracked(s, c, env, wanted, target', from, header.number - 1)
    ensures !(Forced(env, block.number) && Below(target', block))
  {
    if target' != target && target == wanted {
      assert Done(wanted, s[c[block.number]]);
    }
    if target == wanted && target' == wanted {
      assert NoneDoneAbove(s, c, wanted, header.number - 1, from);
    }
  }

  lemma ProgressStep(s: Store, c: Index, env: Env, genesis: Block, wanted: Target, target: Target, target': Target,
                     start: Markers, now: Markers, next: Markers)
    requires Progress(s, c, env, genesis, wanted, target, start, now) && !Done(target, now.header)
    requires genesis.number == 0 && now.header.number == next.header.number + 1
    requires now.header.number in c && c[now.header.number] in s && s[c[now.header.number]] == now.header
    requires next.header.number in c && c[next.header.number] in s && s[c[next.header.number]] == next.header
    requires c[next.header.number] == next.header.hash
    requires next.block.number < now.header.number && next.block.number in c && c[next.block.number] in s
    requires s[c[next.block.number]] == next.block
    requires Turn(s, c, env, genesis, target, target', now, next)
    ensures Progress(s, c, env, genesis, wanted, target', start, next)
  {
    BlockMarkerStep(s, c, env, start.header.number, next.header, start.block, now.block, next.block);
    SnapMarkerStep(c, env, genesis, now.header, next.header, start.snap, now.snap);
    TargetStep(s, c, env, wanted, target, target', start.header.number, now.header, next.block);
  }

  // Where a rewind from `start` ends: at the first header meeting the target, or, forced by frozen
  // blocks, at a block further down; and then the full-block marker is not left below the head
  // while it forces the rewind.
  ghost predicate Ends(s: Store, c: Index, env: Env, genesis: Block, wanted: Target, start: Markers, end: Markers)
  {
    && end.header.number <= start.header.number
    && BlockMarkerSettled(s, c, env, start.header.number, end.header.number, start.block, end.block)
    && SnapMarkerSettled(c, env, genesis, end.header, start.snap, end.snap)
    && (StopsAt(s, c, wanted, start.header.number, end.header)
        || (Forced(env, end.header.number) && Reached(s, c, wanted, end.header.number, start.header.number)))
    && (end.header.number < start.header.number && Forced(env, end.block.number) && Below(wanted, end.block)
        ==> end.block.number == end.header.number)
  }

  lemma ProgressEnds(s: Store, c: Index, env: Env, genesis: Block, wanted: Target, target: Target,
                     start: Markers, now: Markers)
    requires Progress(s, c, env, genesis, wanted, target, start, now) && Done(target, now.header)
    requires now.header.number in c && c[now.header.number] == now.header.hash && now.block.number <= now.header.number
    ensures Ends(s, c, env, genesis, wanted, start, now)
  {
  }

  // Lowering the head keeps the highest eligible block as long as it stays at or below the head.
  lemma LowerHead(s: Store, c: Index, env: Env, p: nat, to: nat, a: nat)
    requires LinkedUpTo(s, c, p) && 0 < a < to <= p && env.root == ZERO && Rewound(s, c, env, s[c[p]], s[c[a]])
    ensures a == RewoundFrom(s, c, env, to)
  {
    var high, low := UpTo(c, p), UpTo(c, to);
    assert Eligible(s, high, env, s[c[p]], a);
    forall n: nat | a < n <= to
      ensures !Eligible(s, low, env, s[c[to]], n)
    {
      assert !Eligible(s, high, env, s[c[p]], n);
      assert n in high && high[n] == low[n];
    }
    HighestIsRewound(s, c, env, s[c[to]], to, s[c[a]]);
  }

  // Where the jumps end is genesis or within reach of the height it was last rewound from.
  lemma {:induction false} FinalWithinReach(s: Store, c: Index, env: Env, p: nat, to: nat)
    requires LinkedUpTo(s, c, p) && to <= p
    ensures var a := FinalHeight(s, c, env, p, to);
            a > 0 ==> a in c && c[a] in s && s[c[a]].root in env.states && WithinReach(env, to, a)
    decreases p
  {
    var a := RewoundFrom(s, c, env, p);
    RewoundBelow(s, c, env, p);
    HighestIsRewound(s, c, env, s[c[p]], p, s[c[a]]);
    if p == to || a < to {
      if a > 0 {
        EligibleOnFields(s, UpTo(c, p), env, s[c[p]], a);
      }
    } else {
      FinalWithinReach(s, c, env, if a < p then a else p - 1, to);
    }
  }

  // A marker that was moved, once it has settled: genesis, or a block with state, at or above the
  // pivot or else at most 90000 below the new header head.
  ghost predicate MovedWithinReach(env: Env, start: Markers, end: Markers)
  {
    end.header.number < start.header.number && end.header.number <= start.block.number && end.block.number > 0 ==>
      end.block.root in env.states && WithinReach(env, end.header.number, end.block.number)
  }

  lemma SettledWithinReach(s: Store, c: Index, env: Env, start: Markers, end: Markers)
    requires BlockMarkerSettled(s, c, env, start.header.number, end.header.number, start.block, end.block)
    requires end.block.number in c && c[end.block.number] in s && s[c[end.block.number]] == end.block
    ensures MovedWithinReach(env, start, end)
  {
    var from, to, before := start.header.number, end.header.number, start.block;
    if to < from && to <= before.number {
      FinalWithinReach(s, c, env, if before.number < from then before.number else from - 1, to);
    }
  }

  // Where an unforced rewind ends: in block mode at the wanted number, or where it was; in timestamp
  // mode at the highest block that is not later than the wanted time.
  ghost predicate FirstToMeet(s: Store, c: Index, wanted: Target, from: Block, head: Block)
  {
    if wanted.time == 0 then head.number == if from.number < wanted.block then from.number else wanted.block
    else
      && head.time <= wanted.time
      && (forall n: nat | head.number < n <= from.number :: n in c && c[n] in s && s[c[n]].time > wanted.time)
  }

  lemma EndsOnFields(s: Store, c: Index, env: Env, genesis: Block, wanted: Target, start: Markers, end: Markers)
    requires Ends(s, c, env, genesis, wanted, start, end)
    requires start.header.number in c && c[start.header.number] in s && s[c[start.header.number]] == start.header
    ensures FirstToMeet(s, c, wanted, start.header, end.header)
            || (end.header.number + 1 < env.frozen && (env.pivot.None? || env.pivot.value <= end.header.number))
  {
    if StopsAt(s, c, wanted, start.header.number, end.header) && wanted.time == 0 {
      if end.header.number < start.header.number {
        assert !Done(wanted, s[c[end.header.number + 1]]);
      }
    }
  }

  // b is the indexed block of its height.
  ghost predicate Indexed(s: Store, c: Index, b: Block)
  {
    b.number in c && c[b.number] == b.hash && b.hash in s && s[b.hash] == b
  }

  // A block head left frozen, past the pivot and below the target pulls the header head down to it.
  ghost predicate ForcedDown(env: Env, wanted: Target, start: Markers, end: Markers)
  {
    && end.header.number < start.header.number
    && end.block.number + 1 < env.frozen && (env.pivot.None? || env.pivot.value <= end.block.number)
    && (if wanted.time > 0 then end.block.time < wanted.time else end.block.number < wanted.block)
    ==> end.header.number == end.block.number
  }

  lemma RewindEnds(s: Store, c: Index, env: Env, genesis: Block, wanted: Target, target: Target,
                   start: Markers, now: Markers)
    requires Progress(s, c, env, genesis, wanted, target, start, now) && Done(target, now.header)
    requires Indexed(s, c, start.header) && Indexed(s, c, now.header) && Indexed(s, c, now.block)
    requires now.block.number <= now.header.number
    ensures Ends(s, c, env, genesis, wanted, start, now)
    ensures MovedWithinReach(env, start, now)
    ensures FirstToMeet(s, c, wanted, start.header, now.header)
            || (now.header.number + 1 < env.frozen && (env.pivot.None? || env.pivot.value <= now.header.number))
    ensures ForcedDown(env, wanted, start, now)
  {
    ProgressEnds(s, c, env, genesis, wanted, target, start, now);
    SettledWithinReach(s, c, env, start, now);
    EndsOnFields(s, c, env, genesis, wanted, start, now);
  }

  // Without a root to cross, a marker that did not fall to genesis is the highest eligible block at
  // or below the new header head, wherever it was last rewound.
  lemma {:induction false} FinalIsHighest(s: Store, c: Index, env: Env, p: nat, to: nat)
    requires LinkedUpTo(s, c, p) && to <= p && env.root == ZERO && FinalHeight(s, c, env, p, to) > 0
    ensures FinalHeight(s, c, env, p, to) == RewoundFrom(s, c, env, to)
    decreases p
  {
    var a := RewoundFrom(s, c, env, p);
    RewoundBelow(s, c, env, p);
    HighestIsRewound(s, c, env, s[c[p]], p, s[c[a]]);
    if p == to {
    } else if a < to {
      LowerHead(s, c, env, p, to, a);
    } else {
      FinalIsHighest(s, c, env, if a < p then a else p - 1, to);
    }
  }

  lemma SettledIsHighest(s: Store, c: Index, env: Env, from: nat, to: nat, before: Block, after: Block)
    requires to < from && to <= before.number <= from && after.number > 0
    requires env.root == ZERO && BlockMarkerSettled(s, c, env, from, to, before, after)
    ensures after.number <= to && Rewound(s, c, env, s[c[to]], after)
  {
    FinalIsHighest(s, c, env, if before.number < from then before.number else from - 1, to);
    HighestIsRewound(s, c, env, s[c[to]], to, after);
  }

  class ChainHeads {
    const genesis: Block
    var headers: Store
    var td: TdTable
    var canon: Index
    var currentHeader: Block
    var currentBlock: Block
    var currentSnapBlock: Block

    // b is on the canonical path, at or below the header head.
    ghost predicate OnPath(b: Block)
      reads this
    {
      b.number <= currentHeader.number && b.number in canon && canon[b.number] == b.hash
      && b.hash in headers && headers[b.hash] == b
    }

    ghost predicate Linked()
      reads this
    {
      && Faithful(headers) && Closed(headers) && TdValid(headers, td)
      && genesis.number == 0 && OnPath(genesis) && OnPath(currentHeader)
      && LinkedUpTo(headers, canon, currentHeader.number)
    }

    // A gap-free chain: the index is exactly the header head's path, and the block markers are
    // ancestors of the header head or the header head itself.
    ghost predicate Valid()
      reads this
    {
      && Linked() && IsPath(headers, canon, currentHeader.hash)
      && OnPath(currentBlock) && OnPath(currentSnapBlock)
    }

    constructor (genesis: Block)
      requires genesis.number == 0 && genesis.hash != ZERO && genesis.parent == ZERO
      ensures Valid() && this.genesis == currentHeader == currentBlock == currentSnapBlock == genesis
      ensures headers == map[genesis.hash := genesis] && td == map[genesis.hash := genesis.difficulty]
      ensures canon == map[0 := genesis.hash]
    {
      this.genesis := genesis;
      headers, td := map[genesis.hash := genesis], map[genesis.hash := genesis.difficulty];
      canon := map[0 := genesis.hash];
      currentHeader, currentBlock, currentSnapBlock := genesis, genesis, genesis;
      GenesisOnly(genesis);
    }

    // The callback of setHead: pull the block markers down to `parent`, skipping blocks without
    // state, and report whether the freezer forces the rewind further.
    method UpdateMarkers(env: Env, parent: Block) returns (newHead: Block, force: bool)
      requires Linked() && OnPath(parent) && OnPath(currentBlock) && OnPath(currentSnapBlock)
      modifies this`currentBlock, this`currentSnapBlock
      ensures currentBlock.number <= parent.number && OnPath(currentBlock)
      ensures currentSnapBlock.number <= parent.number && OnPath(currentSnapBlock)
      ensures BlockMarkerMoved(headers, canon, env, parent, old(currentBlock), currentBlock)
      ensures currentSnapBlock == SnapMoved(env, genesis, parent, old(currentSnapBlock))
      ensures newHead == currentBlock
      ensures force <==> Forced(env, newHead.number)
    {
      if parent.number <= currentBlock.number {
        SubPath(headers, canon, parent.number);
        var rootNumber;
        currentBlock, rootNumber := RewindHashHead(headers, env, genesis, parent, UpTo(canon, parent.number));
      }
      if parent.number < currentSnapBlock.number {
        currentSnapBlock := if parent.hash in env.bodies then parent else genesis;
      }
      newHead := currentBlock;
      force := currentBlock.number + 1 < env.frozen && (env.pivot.None? || currentBlock.number >= env.pivot.value);
    }

    ghost function Marks(): Markers
      reads this
    {
      Markers(currentHeader, currentBlock, currentSnapBlock)
    }

    // One turn of the rewind loop: the header head moves to its parent, the block markers with it,
    // and the heights to wipe are collected; the first turn also takes in whatever lies above.
    method RewindOnce(env: Env, target: Target, origin: bool)
      returns (target': Target, hashes: set<Hash>, nums: set<nat>)
      requires Linked() && OnPath(currentBlock) && OnPath(currentSnapBlock) && currentHeader.number > 0
      modifies this`currentHeader, this`currentBlock, this`currentSnapBlock
      ensures currentHeader.number == old(currentHeader).number - 1
      ensures Linked() && OnPath(currentBlock) && OnPath(currentSnapBlock)
      ensures Turn(headers, canon, env, genesis, target, target', old(Marks()), Marks())
      ensures hashes == if origin then HigherThan(headers, currentHeader.number)
                        else AllHashes(headers, currentHeader.number + 1)
      ensures forall n | n in nums :: n > currentHeader.number
      ensures currentHeader.number + 1 in nums
    {
      var num := currentHeader.number;
      assert ParentLink(headers, canon, num);
      var parent := GetParent(headers, currentHeader).value;
      var newHead, force := UpdateMarkers(env, parent);
      target' := target;
      if force && ((target.time > 0 && newHead.time < target.time)
                   || (target.time == 0 && newHead.number < target.block)) {
        target' := Target(newHead.number, 0);
      }
      currentHeader := parent;
      hashes, nums := CollectHeights(headers, num, origin);
    }

    // One turn, with its deletions added to the batch.
    method RewindFurther(env: Env, ghost wanted: Target, target: Target, origin: bool,
                         delHeaders: set<Hash>, delCanon: set<nat>, ghost start: Markers)
      returns (target': Target, delHeaders': set<Hash>, delCanon': set<nat>)
      requires Linked() && OnPath(currentBlock) && OnPath(currentSnapBlock) && !Done(target, currentHeader)
      requires target.time > 0 ==> genesis.time <= target.time
      requires origin ==> IsPath(headers, canon, currentHeader.hash)
      requires Collected(headers, canon, currentHeader.number, origin, delHeaders, delCanon)
      requires Progress(headers, canon, env, genesis, wanted, target, start, Marks())
      modifies this`currentHeader, this`currentBlock, this`currentSnapBlock
      ensures currentHeader.number == old(currentHeader).number - 1
      ensures Linked() && OnPath(currentBlock) && OnPath(currentSnapBlock)
      ensures target'.time > 0 ==> target' == target
      ensures Collected(headers, canon, currentHeader.number, false, delHeaders', delCanon')
      ensures Progress(headers, canon, env, genesis, wanted, target', start, Marks())
    {
      ghost var now := Marks();
      assert currentHeader.number > 0;
      var hashes, nums;
      target', hashes, nums := RewindOnce(env, target, origin);
      delHeaders', delCanon' := delHeaders + hashes, delCanon + nums;
      CollectMore(headers, canon, currentHeader.number, origin, delHeaders, delCanon, hashes, nums);
      ProgressStep(headers, canon, env, genesis, wanted, target, target', start, now, Marks());
    }

    // The rewind loop. Only the head markers move; what is to be deleted goes into the batch.
    method RewindUntilDone(env: Env, wanted: Target)
      returns (delHeaders: set<Hash>, delCanon: set<nat>, ghost target: Target)
      requires Valid() && (wanted.time > 0 ==> genesis.time <= wanted.time)
      modifies this`currentHeader, this`currentBlock, this`currentSnapBlock
      ensures Linked() && OnPath(currentBlock) && OnPath(currentSnapBlock)
      ensures Done(wanted, old(currentHeader)) ==> unchanged(this)
      ensures Collected(headers, canon, currentHeader.number, Done(wanted, old(currentHeader)), delHeaders, delCanon)
      ensures Progress(headers, canon, env, genesis, wanted, target, old(Marks()), Marks())
      ensures Done(target, currentHeader)
    {
      var aim, origin := wanted, true;
      delHeaders, delCanon := {}, {};
      while !Done(aim, currentHeader)
        modifies this`currentHeader, this`currentBlock, this`currentSnapBlock
        invariant Linked() && OnPath(currentBlock) && OnPath(currentSnapBlock)
        invariant aim.time > 0 ==> aim == wanted
        invariant origin ==> aim == wanted && unchanged(this)
        invariant !origin ==> !Done(wanted, old(currentHeader))
        invariant Collected(headers, canon, currentHeader.number, origin, delHeaders, delCanon)
        invariant Progress(headers, canon, env, genesis, wanted, aim, old(Marks()), Marks())
        decreases currentHeader.number
      {
        aim, delHeaders, delCanon := RewindFurther(env, wanted, aim, origin, delHeaders, delCanon, old(Marks()));
        origin := false;
      }
      target := aim;
    }

    // The rewind loop, and where it ends.
    method RewindLoop(env: Env, wanted: Target) returns (delHeaders: set<Hash>, delCanon: set<nat>)
      requires Valid() && (wanted.time > 0 ==> genesis.time <= wanted.time)
      modifies this`currentHeader, this`currentBlock, this`currentSnapBlock
      ensures Linked() && OnPath(currentBlock) && OnPath(currentSnapBlock)
      ensures Done(wanted, old(currentHeader)) ==> unchanged(this)
      ensures Collected(headers, canon, currentHeader.number, Done(wanted, old(currentHeader)), delHeaders, delCanon)
      ensures Ends(headers, canon, env, genesis, wanted, old(Marks()), Marks())
      ensures MovedWithinReach(env, old(Marks()), Marks())
      ensures FirstToMeet(headers, canon, wanted, old(currentHeader), currentHeader)
              || (currentHeader.number + 1 < env.frozen && (env.pivot.None? || env.pivot.value <= currentHeader.number))
      ensures ForcedDown(env, wanted, old(Marks()), Marks())
    {
      ghost var target;
      delHeaders, delCanon, target := RewindUntilDone(env, wanted);
      RewindEnds(headers, canon, env, genesis, wanted, target, old(Marks()), Marks());
    }

    // Flush the batched deletions.
    method Flush(delHeaders: set<Hash>, delCanon: set<nat>)
      requires Linked() && OnPath(currentBlock) && OnPath(currentSnapBlock)
      requires Collected(headers, canon, currentHeader.number, false, delHeaders, delCanon)
      modifies this`headers, this`td, this`canon
      ensures Valid()
      ensures headers == HeadersUpTo(old(headers), currentHeader.number)
      ensures td == TdUpTo(old(headers), old(td), currentHeader.number)
      ensures canon == UpTo(old(canon), currentHeader.number)
    {
      FlushValid(headers, td, canon, currentHeader, delHeaders, delCanon);
      headers, td, canon := headers - delHeaders, td - delHeaders, canon - delCanon;
    }

    // Rewind the chain until the target is met, deleting everything above the new head. When the
    // current head meets the target already, nothing happens.
    method SetHead(env: Env, wanted: Target) returns (rejected: bool)
      requires Valid()
      modifies this
      ensures rejected <==> wanted.time > 0 && genesis.time > wanted.time
      ensures Valid()
      ensures rejected || Done(wanted, old(currentHeader)) ==> unchanged(this)
      ensures !rejected && !Done(wanted, old(currentHeader)) ==>
                && headers == HeadersUpTo(old(headers), currentHeader.number)
                && td == TdUpTo(old(headers), old(td), currentHeader.number)
                && canon == UpTo(old(canon), currentHeader.number)
      ensures !rejected ==> Ends(old(headers), old(canon), env, genesis, wanted, old(Marks()), Marks())
      ensures !rejected ==> MovedWithinReach(env, old(Marks()), Marks())
      ensures !rejected ==>
                FirstToMeet(old(headers), old(canon), wanted, old(currentHeader), currentHeader)
                || (currentHeader.number + 1 < env.frozen
                    && (env.pivot.None? || env.pivot.value <= currentHeader.number))
      ensures !rejected ==> ForcedDown(env, wanted, old(Marks()), Marks())
      ensures !rejected ==>
                (NoneHigher(headers, currentHeader) <==>
                   !Done(wanted, old(currentHeader)) || NoneHigher(old(headers), old(currentHeader)))
    {
      if wanted.time > 0 && genesis.time > wanted.time {
        return true;
      }
      var start := currentHeader;
      var delHeaders, delCanon := RewindLoop(env, wanted);
      if !Done(wanted, start) {
        Flush(delHeaders, delCanon);
      }
      return false;
    }
  }

  // Without the blocks `later`, the fork choice leaves the head where it is when b is imported.
  predicate Declines(cfg: Config, s: Store, td: TdTable, later: set<Hash>, head: Block, b: Block, coin: bool)
  {
    ReorgNeededWithFastFinality(cfg, s - later, td - later, head, b, coin) == Decided(false)
  }

  // A chain on which SetHead leaves a header above the head: the head meets the target already, so
  // the loop that wipes leftovers never runs, and a taller side branch stays. It satisfies all that
  // is asked of a chain, and importing the side branch after the head leaves the head where it is.
  lemma TallerSideBranch(cfg: Config)
    returns (s: Store, td: TdTable, c: Index, genesis: Block, head: Block, side: Block, taller: Block, target: Target)
    requires cfg.ttd.None?
    ensures Faithful(s) && Closed(s) && TdValid(s, td) && IsPath(s, c, head.hash)
    ensures genesis.number == 0 && 0 in c && c[0] == genesis.hash && genesis.hash in s && s[genesis.hash] == genesis
    ensures head.hash in s && s[head.hash] == head
    ensures s == map[genesis.hash := genesis, head.hash := head, side.hash := side, taller.hash := taller]
    ensures forall coin: bool :: Declines(cfg, s, td, {side.hash, taller.hash}, head, side, coin)
    ensures forall coin: bool :: Declines(cfg, s, td, {taller.hash}, head, taller, coin)
    ensures Done(target, head) && !NoneHigher(s, head)
  {
    genesis := Block(1, ZERO, 0, 1, 0, 0, 1, 0, []);
    head := Block(2, 1, 1, 2, 0, 0, 1, 0, []);
    side := Block(3, 1, 1, 1, 0, 0, 1, 0, []);
    taller := Block(4, 3, 2, 1, 0, 0, 1, 0, []);
    s := map[1 := genesis, 2 := head, 3 := side, 4 := taller];
    td := map[1 := 1, 2 := 3, 3 := 2, 4 := 3];
    c, target := map[0 := 1, 1 := 2], Target(1, 0);
    forall h | h in s
      ensures TdEntryValid(s, td, h) && ParentStored(s, h)
    {
    }
    assert ParentLink(s, c, 1);
    assert s[4].number > head.number;
  }
}
