/** The chain indexer: a background index over fixed-size sections of the canonical chain. The lock
    is dropped while a section is processed, so chain changes, new heads, rollbacks and reports
    interleave with it; and dropping sections after a failed Reset is done without the lock, so it
    interleaves with the turns of loops that hold it. A single indexer without checkpoints. */
module ChainIndexers {
  import opened Options
  import opened ChainTree

  // The update loop: the section being processed, the head of the section before it, the next
  // height to read, the hash the next header must have as its parent, and the headers handed to the
  // backend so far; or Reset has failed and
  // all sections are being dropped, then the count is stored, then the lock is to be taken again.
  datatype Phase =
    | Idle
    | Processing(section: nat, oldHead: Hash, next: nat, last: Hash, read: seq<Hash>)
    | Resetting | Clearing | Failed

  // What the last stored head is rechecked for.
  datatype Purpose = ForReport | ForBegin | ForAbandon

  // What the holder of the lock is at: rechecking the last head, dropping sections down to
  // `target` (for newHead, or as part of a recheck), done with the recheck for a report, or about to
  // report `count` sections.
  datatype Lock =
    | Free
    | Rechecking(purpose: Purpose)
    | Trimming(target: nat, recheck: Option<Purpose>)
    | Checked
    | Reporting(count: nat)

  // `canon` and `present` are the chain database as it is right now; the rest is the indexer's.
  datatype State = State(canon: Index, present: set<Hash>, stored: nat, heads: map<nat, Hash>,
                         known: nat, cascaded: int, phase: Phase, lock: Lock)

  function SectionHead(heads: map<nat, Hash>, section: int): Hash
  {
    if section >= 0 && section in heads then heads[section] else ZERO
  }

  // The canonical hash at the last height of a section.
  function SectionEnd(size: nat, canon: Index, section: nat): Hash
    requires size > 0
  {
    ReadCanonical(canon, (section + 1) * size - 1)
  }

  predicate LastIsCanonical(size: nat, st: State)
    requires size > 0
  {
    st.stored == 0 || SectionHead(st.heads, st.stored - 1) == SectionEnd(size, st.canon, st.stored - 1)
  }

  // ---------------------------------------------------------------- whole operations

  // setValidSections: drop the heads of the sections from `sections` on.
  function SetValid(st: State, sections: nat): State
  {
    st.(heads := map i | i in st.heads && !(sections <= i < st.stored) :: st.heads[i], stored := sections)
  }

  // verifyLastHead: drop stored sections from the top until the last one is canonical.
  function VerifyLast(size: nat, st: State): State
    requires size > 0
    decreases st.stored
  {
    if LastIsCanonical(size, st) then st else VerifyLast(size, SetValid(st, st.stored - 1))
  }

  // The notice to children, as far as the indexer remembers it.
  function Cascade(size: nat, st: State, known: nat): State
  {
    st.(cascaded := if known * size < st.cascaded then known * size else st.cascaded)
  }

  // newHead(head, true): everything above the reorg point is invalid.
  function Rollback(size: nat, st: State, head: nat): State
    requires size > 0
  {
    var known := (head + 1) / size;
    var noted := st.(known := if known < st.known then known else st.known);
    Cascade(size, if known < st.stored then SetValid(noted, known) else noted, known)
  }

  // newHead(head, false): enough confirmations make more sections known.
  function Advance(size: nat, confirms: nat, st: State, head: nat): State
    requires size > 0
  {
    if head >= confirms && (head + 1 - confirms) / size > st.known
    then st.(known := (head + 1 - confirms) / size) else st
  }

  // Taking up the section after the last stored one.
  function TakeUp(size: nat, st: State): State
  {
    var oldHead := SectionHead(st.heads, st.stored - 1);
    st.(phase := Processing(st.stored, oldHead, st.stored * size, oldHead, []))
  }

  function Begin(size: nat, st: State): State
    requires size > 0
  {
    TakeUp(size, VerifyLast(size, st))
  }

  // Reading one header of the section, without the lock: None when it is missing or does not
  // continue the chain read so far.
  function ReadNext(s: Store, st: State): Option<State>
    requires st.phase.Processing?
  {
    var h := ReadCanonical(st.canon, st.phase.next);
    if h == ZERO || h !in st.present then None
    else
      var header := GetBlock(s, h, st.phase.next);
      if header.None? || header.value.parent != st.phase.last then None
      else
        var p := st.phase;
        Some(st.(phase := p.(next := p.next + 1, last := header.value.hash, read := p.read + [h])))
  }

  // The section failed: recheck what is stored and wait for another notification.
  function Abandon(size: nat, st: State): State
    requires size > 0
  {
    var v := VerifyLast(size, st);
    v.(known := v.stored, phase := Idle)
  }

  // The predecessor of the processed section is still the stored one.
  predicate Continues(st: State)
    requires st.phase.Processing?
  {
    st.phase.section == 0 || st.phase.oldHead == SectionHead(st.heads, st.phase.section - 1)
  }

  // The section was read to its end: it becomes the last stored one.
  function Complete(size: nat, st: State): State
    requires st.phase.Processing?
  {
    var k := st.phase.section;
    var done := SetValid(st.(heads := st.heads[k := st.phase.last]), k + 1);
    done.(cascaded := (k + 1) * size - 1, phase := Idle)
  }

  function Finish(size: nat, st: State): State
    requires size > 0 && st.phase.Processing?
  {
    if Continues(st) then Complete(size, st) else Abandon(size, st)
  }

  // ---------------------------------------------------------------- single steps

  // One turn of the loop in setValidSections.
  function Drop(st: State): State
    requires st.stored > 0
  {
    st.(stored := st.stored - 1, heads := st.heads - {st.stored - 1})
  }

  // newHead(head, true) up to the first turn of that loop.
  function StartRollback(size: nat, st: State, head: nat): State
    requires size > 0
  {
    var known := (head + 1) / size;
    var noted := st.(known := if known < st.known then known else st.known);
    if known < st.stored then noted.(lock := Trimming(known, None)) else Cascade(size, noted, known)
  }

  // The store after that loop, and what its caller does next.
  function StoreCount(size: nat, st: State): State
    requires st.lock.Trimming?
  {
    var stored := st.(stored := st.lock.target);
    if st.lock.recheck.None? then Cascade(size, stored, st.lock.target).(lock := Free)
    else stored.(lock := Rechecking(st.lock.recheck.value))
  }

  function Rechecked(size: nat, st: State): State
    requires st.lock.Rechecking?
  {
    match st.lock.purpose
    case ForReport => st.(lock := Checked)
    case ForBegin => TakeUp(size, st).(lock := Free)
    case ForAbandon => st.(known := st.stored, lock := Free)
  }

  // One turn of the loop in verifyLastHead.
  function RecheckTurn(size: nat, st: State): State
    requires size > 0 && st.lock.Rechecking?
  {
    if LastIsCanonical(size, st) then Rechecked(size, st)
    else st.(lock := Trimming(st.stored - 1, Some(st.lock.purpose)))
  }

  function Recheck(st: State, purpose: Purpose): State
  {
    st.(phase := Idle, lock := Rechecking(purpose))
  }

  // The lock holder alone, step by step until it is done.
  ghost function Alone(size: nat, st: State): State
    requires size > 0 && (st.lock.Trimming? ==> st.lock.target <= st.stored)
    decreases if st.lock.Rechecking? then 3 * st.stored + 1
              else if st.lock.Trimming? then 3 * st.stored + (if st.stored > st.lock.target then 0 else 2)
              else 0
  {
    match st.lock
    case Rechecking(_) => if LastIsCanonical(size, st) then Rechecked(size, st) else Alone(size, RecheckTurn(size, st))
    case Trimming(target, recheck) =>
      if st.stored > target then Alone(size, Drop(st))
      else if recheck.None? then StoreCount(size, st)
      else Alone(size, StoreCount(size, st))
    case _ => st
  }

  lemma {:induction false} AloneTrims(size: nat, st: State)
    requires size > 0 && st.lock.Trimming? && st.lock.target <= st.stored
    ensures var valid := SetValid(st, st.lock.target);
            Alone(size, st) == if st.lock.recheck.None? then StoreCount(size, valid)
                               else Alone(size, StoreCount(size, valid))
    decreases st.stored
  {
    var target := st.lock.target;
    if st.stored == target {
      assert SetValid(st, target) == st;
    } else {
      AloneTrims(size, Drop(st));
      assert SetValid(Drop(st), target) == SetValid(st, target);
    }
  }

  lemma {:induction false} AloneRechecks(size: nat, st: State)
    requires size > 0 && st.lock.Rechecking?
    ensures VerifyLast(size, st).lock == st.lock && Alone(size, st) == Rechecked(size, VerifyLast(size, st))
    decreases st.stored
  {
    if LastIsCanonical(size, st) {
    } else {
      var turned, valid := RecheckTurn(size, st), SetValid(st, st.stored - 1);
      AloneTrims(size, turned);
      assert StoreCount(size, SetValid(turned, st.stored - 1)) == valid;
      AloneRechecks(size, valid);
    }
  }

  // The recheck looks at nothing but the stored heads and the index.
  lemma {:induction false} VerifyLastFrame(size: nat, st: State, phase: Phase, lock: Lock)
    requires size > 0
    ensures VerifyLast(size, st.(phase := phase, lock := lock)) == VerifyLast(size, st).(phase := phase, lock := lock)
    decreases st.stored
  {
    if LastIsCanonical(size, st) {
    } else {
      VerifyLastFrame(size, SetValid(st, st.stored - 1), phase, lock);
      assert SetValid(st.(phase := phase, lock := lock), st.stored - 1)
          == SetValid(st, st.stored - 1).(phase := phase, lock := lock);
    }
  }

  lemma RollbackAlone(size: nat, st: State, head: nat)
    requires size > 0 && st.lock.Free?
    ensures Alone(size, StartRollback(size, st, head)) == Rollback(size, st, head)
  {
    var started := StartRollback(size, st, head);
    if started.lock.Trimming? {
      AloneTrims(size, started);
    }
  }

  lemma RecheckAlone(size: nat, st: State, phase: Phase, purpose: Purpose)
    requires size > 0
    ensures var v := VerifyLast(size, st).(phase := phase, lock := Rechecking(purpose));
            Alone(size, st.(phase := phase, lock := Rechecking(purpose))) == Rechecked(size, v)
  {
    VerifyLastFrame(size, st, phase, Rechecking(purpose));
    AloneRechecks(size, st.(phase := phase, lock := Rechecking(purpose)));
  }

  // A lock holder that nobody disturbs does the whole operation.
  lemma UndisturbedIsWhole(size: nat, st: State, head: nat)
    requires size > 0 && st.lock.Free?
    ensures Alone(size, StartRollback(size, st, head)) == Rollback(size, st, head)
    ensures Alone(size, Recheck(st, ForBegin)) == Begin(size, st)
    ensures Alone(size, Recheck(st, ForAbandon)) == Abandon(size, st)
    ensures Alone(size, st.(lock := Rechecking(ForReport)))
         == VerifyLast(size, st).(lock := Checked)
  {
    RollbackAlone(size, st, head);
    VerifyLastFrame(size, st, st.phase, Free);
    assert st.(phase := st.phase, lock := Free) == st;
    RecheckAlone(size, st, Idle, ForBegin);
    RecheckAlone(size, st, Idle, ForAbandon);
    RecheckAlone(size, st, st.phase, ForReport);
  }

  // ---------------------------------------------------------------- runs

  datatype Event =
    | ChainChanged(canon: Index, present: set<Hash>)
    | Advanced(head: nat) | RolledBack(head: nat)
    | ReportBegun | Counted | Reported
    | SectionBegun | HeaderRead | SectionEnded | SectionFailed
    | ResetFailed | ResetTurn | ResetCleared | ResetStored
    | RecheckTurned | TrimTurned | TrimStored

  // One step of the indexer or of the chain under it. Whoever holds the lock moves alone among
  // those who need it; the chain, the reads of a section and a failed Reset do not need it.
  ghost predicate Step(s: Store, size: nat, confirms: nat, st: State, e: Event, st': State)
    requires size > 0
  {
    match e
    case ChainChanged(canon, present) => st' == st.(canon := canon, present := present)
    // newHead, in either form
    case Advanced(head) => st.lock.Free? && st' == Advance(size, confirms, st, head)
    case RolledBack(head) => st.lock.Free? && st' == StartRollback(size, st, head)
    // Sections()
    case ReportBegun => st.lock.Free? && st' == st.(lock := Rechecking(ForReport))
    case Counted => st.lock.Checked? && st' == st.(lock := Reporting(st.stored))
    case Reported => st.lock.Reporting? && st' == st.(lock := Free)
    // the update loop; a section may fail at any time
    case SectionBegun => st.lock.Free? && st.phase.Idle? && st.known > st.stored && st' == Recheck(st, ForBegin)
    case HeaderRead =>
      st.phase.Processing? && st.phase.next < (st.phase.section + 1) * size && ReadNext(s, st) == Some(st')
    case SectionEnded =>
      && st.lock.Free? && st.phase.Processing? && st.phase.next == (st.phase.section + 1) * size
      && st' == if Continues(st) then Complete(size, st) else Recheck(st, ForAbandon)
    case SectionFailed => st.lock.Free? && (st.phase.Processing? || st.phase.Failed?) && st' == Recheck(st, ForAbandon)
    // a failed Reset drops everything stored, without the lock
    case ResetFailed =>
      st.phase.Processing? && st.phase.next == st.phase.section * size && st' == st.(phase := Resetting)
    case ResetTurn => st.phase.Resetting? && st.stored > 0 && st' == Drop(st)
    case ResetCleared => st.phase.Resetting? && st.stored == 0 && st' == st.(phase := Clearing)
    case ResetStored => st.phase.Clearing? && st' == st.(stored := 0, phase := Failed)
    // turns of the loops that hold the lock
    case RecheckTurned => st.lock.Rechecking? && st' == RecheckTurn(size, st)
    case TrimTurned => st.lock.Trimming? && st.stored > st.lock.target && st' == Drop(st)
    case TrimStored => st.lock.Trimming? && st.stored <= st.lock.target && st' == StoreCount(size, st)
  }

  // The sections the lock holder relies on: those it will store, or the ones it is reporting.
  function Floor(lock: Lock): nat
  {
    match lock
    case Trimming(target, _) => target
    case Reporting(count) => count
    case _ => 0
  }

  // A turn of a failed Reset that takes a section from under the lock holder.
  predicate Undercuts(st: State, e: Event)
  {
    e.ResetTurn? && st.stored <= Floor(st.lock)
  }

  // Section i's stored head is the block at the section's last height, exactly one section above
  // the previous section's head.
  ghost predicate HeadLinked(s: Store, size: nat, heads: map<nat, Hash>, i: nat)
  {
    && i in heads && heads[i] in s
    && s[heads[i]].number == (i + 1) * size - 1
    && (i > 0 ==> i - 1 in heads && Ancestor(s, heads[i], size) == Some(heads[i - 1]))
  }

  ghost predicate HeadsLinked(s: Store, size: nat, st: State)
  {
    && (forall i: nat :: i in st.heads <==> i < st.stored)
    && (forall i: nat {:trigger HeadLinked(s, size, st.heads, i)} | i < st.stored :: HeadLinked(s, size, st.heads, i))
  }

  // What has been read of the section hangs from the previous section's head.
  ghost predicate PhaseLinked(s: Store, size: nat, stored: nat, p: Phase)
  {
    p.Processing? ==>
      && stored <= p.section
      && p.section * size <= p.next <= (p.section + 1) * size
      && (p.section > 0 ==> p.oldHead in s && s[p.oldHead].number == p.section * size - 1)
      && (p.next == p.section * size ==> p.last == p.oldHead)
      && (p.next > p.section * size ==> p.last in s && s[p.last].number == p.next - 1)
      && (p.section > 0 ==> Ancestor(s, p.last, p.next - p.section * size) == Some(p.oldHead))
  }

  // Header k of those read is the right ancestor of the last one.
  ghost predicate ReadAt(s: Store, read: seq<Hash>, k: nat)
  {
    k < |read| && Ancestor(s, read[|read| - 1], |read| - 1 - k) == Some(read[k])
  }

  // The headers read of a section, the first section included, form one chain ending in the last.
  ghost predicate ReadLinked(s: Store, size: nat, p: Phase)
  {
    p.Processing? ==>
      && |p.read| == p.next - p.section * size
      && (p.read != [] ==> p.last == p.read[|p.read| - 1])
      && (p.section == 0 ==> p.oldHead == ZERO)
      && (forall k: nat {:trigger ReadAt(s, p.read, k)} | k < |p.read| :: ReadAt(s, p.read, k))
  }

  ghost predicate Inv(s: Store, size: nat, st: State)
  {
    && Faithful(s) && size > 0
    && HeadsLinked(s, size, st) && PhaseLinked(s, size, st.stored, st.phase) && ReadLinked(s, size, st.phase)
    && Floor(st.lock) <= st.stored && (st.phase.Clearing? ==> st.stored == 0)
    && (st.lock.Reporting? ==> st.lock.count == st.stored)
  }

  lemma SetValidKeepsLinks(s: Store, size: nat, st: State, sections: nat)
    requires HeadsLinked(s, size, st) && sections <= st.stored
    ensures HeadsLinked(s, size, SetValid(st, sections))
  {
    var v := SetValid(st, sections);
    forall i: nat | i < sections
      ensures HeadLinked(s, size, v.heads, i)
    {
      assert HeadLinked(s, size, st.heads, i);
    }
  }

  lemma {:induction false} VerifyLastKeepsLinks(s: Store, size: nat, st: State)
    requires size > 0 && HeadsLinked(s, size, st)
    ensures var v := VerifyLast(size, st);
            && HeadsLinked(s, size, v) && v.stored <= st.stored
            && v == st.(stored := v.stored, heads := v.heads)
            && LastIsCanonical(size, v)
    decreases st.stored
  {
    if LastIsCanonical(size, st) {
    } else {
      SetValidKeepsLinks(s, size, st, st.stored - 1);
      VerifyLastKeepsLinks(s, size, SetValid(st, st.stored - 1));
    }
  }

  // The recheck drops no more than it must: the sections it keeps are untouched, and every section
  // it drops was off the canonical chain.
  lemma {:induction false} VerifyLastDropsReorged(size: nat, st: State, i: nat)
    requires size > 0 && i < st.stored
    ensures var v := VerifyLast(size, st);
            && v.stored <= st.stored
            && (i < v.stored ==> SectionHead(v.heads, i) == SectionHead(st.heads, i))
            && (v.stored <= i ==> SectionHead(st.heads, i) != SectionEnd(size, st.canon, i))
    decreases st.stored
  {
    if LastIsCanonical(size, st) {
    } else {
      var dropped := SetValid(st, st.stored - 1);
      if i < st.stored - 1 {
        VerifyLastDropsReorged(size, dropped, i);
      } else if dropped.stored > 0 {
        VerifyLastDropsReorged(size, dropped, 0);
      }
    }
  }

  lemma SectionBound(size: nat, i: nat, k: nat)
    requires i <= k
    ensures i * size <= k * size
  {
  }

  // A rollback to a common ancestor at height `head` keeps exactly the sections that lie wholly at
  // or below it, and their heads.
  lemma RollbackKeepsSharedSections(size: nat, st: State, head: nat, i: nat)
    requires size > 0 && (forall k: nat :: k in st.heads <==> k < st.stored)
    ensures var v := Rollback(size, st, head);
            && (i in v.heads <==> i in st.heads && (i + 1) * size - 1 <= head)
            && (i in v.heads ==> v.heads[i] == st.heads[i])
  {
    var known := (head + 1) / size;
    assert known * size <= head + 1 < (known + 1) * size;
    if i < known {
      SectionBound(size, i + 1, known);
    } else {
      SectionBound(size, known + 1, i + 1);
    }
  }

  // A section becomes known only with all its confirmations.
  lemma AdvanceIsConfirmed(size: nat, confirms: nat, st: State, head: nat)
    requires size > 0
    ensures var v := Advance(size, confirms, st, head);
            && v == st.(known := v.known) && v.known >= st.known
            && (v.known > st.known ==> v.known * size + confirms <= head + 1)
            && (head + 1 >= confirms + (st.known + 1) * size ==> (v.known + 1) * size + confirms > head + 1)
  {
    if head >= confirms {
      var sections := (head + 1 - confirms) / size;
      assert sections * size <= head + 1 - confirms < (sections + 1) * size;
      if sections <= st.known {
        SectionBound(size, sections + 1, st.known + 1);
      }
    }
  }

  // The links only depend on the table of section heads.
  lemma SameHeads(s: Store, size: nat, st: State, st': State)
    requires HeadsLinked(s, size, st) && st'.heads == st.heads && st'.stored == st.stored
    ensures HeadsLinked(s, size, st')
  {
    forall i: nat | i < st'.stored
      ensures HeadLinked(s, size, st'.heads, i)
    {
      assert HeadLinked(s, size, st.heads, i);
    }
  }

  // Dropping the last section, by whoever does it.
  lemma DropKeepsLinks(s: Store, size: nat, st: State)
    requires HeadsLinked(s, size, st) && st.stored > 0
    ensures HeadsLinked(s, size, Drop(st))
  {
    SetValidKeepsLinks(s, size, st, st.stored - 1);
    assert Drop(st).heads == SetValid(st, st.stored - 1).heads;
    SameHeads(s, size, SetValid(st, st.stored - 1), Drop(st));
  }

  // A section about to be read hangs from the head of the last stored one.
  lemma FreshPhase(s: Store, size: nat, v: State)
    requires size > 0 && HeadsLinked(s, size, v)
    ensures PhaseLinked(s, size, v.stored, TakeUp(size, v).phase)
  {
    if v.stored > 0 {
      assert HeadLinked(s, size, v.heads, v.stored - 1);
    }
    assert (v.stored + 1) * size == v.stored * size + size;
  }

  // One more header on top of those read.
  lemma ReadExtends(s: Store, read: seq<Hash>, h: Hash)
    requires h in s && (forall k: nat | k < |read| :: ReadAt(s, read, k))
    requires read != [] ==> s[h].number > 0 && s[h].parent == read[|read| - 1]
    ensures forall k: nat | k < |read| + 1 :: ReadAt(s, read + [h], k)
  {
    forall k: nat | k < |read| + 1
      ensures ReadAt(s, read + [h], k)
    {
      if k < |read| {
        assert ReadAt(s, read, k);
        assert Ancestor(s, h, |read| - k) == Ancestor(s, s[h].parent, |read| - 1 - k);
      }
    }
  }

  lemma ReadNextLinked(s: Store, size: nat, st: State)
    requires Faithful(s) && st.phase.Processing? && ReadNext(s, st).Some? && ReadLinked(s, size, st.phase)
    requires st.phase.next >= st.phase.section * size
    requires forall k: nat | k < |st.phase.read| + 1 :: ReadAt(s, st.phase.read + [ReadNext(s, st).value.phase.last], k)
    ensures ReadLinked(s, size, ReadNext(s, st).value.phase)
  {
  }

  lemma ReadNextKeepsInv(s: Store, size: nat, st: State)
    requires Inv(s, size, st) && st.phase.Processing? && ReadNext(s, st).Some?
    requires st.phase.next < (st.phase.section + 1) * size
    ensures Inv(s, size, ReadNext(s, st).value)
  {
    SameHeads(s, size, st, ReadNext(s, st).value);
    var p, q := st.phase, ReadNext(s, st).value.phase;
    ReadExtends(s, p.read, q.last);
    ReadNextLinked(s, size, st);
    if p.section > 0 {
      assert Ancestor(s, q.last, 1 + (p.next - p.section * size)) == Ancestor(s, p.last, p.next - p.section * size);
    }
  }

  lemma CompleteKeepsInv(s: Store, size: nat, st: State)
    requires Inv(s, size, st) && st.lock.Free? && st.phase.Processing? && st.phase.next == (st.phase.section + 1) * size
    requires Continues(st)
    ensures Inv(s, size, Complete(size, st))
  {
    var k, st' := st.phase.section, Complete(size, st);
    assert (k + 1) * size == k * size + size;
    forall i: nat | i < k + 1
      ensures HeadLinked(s, size, st'.heads, i)
    {
      if i < k {
        assert HeadLinked(s, size, st.heads, i);
      }
    }
  }

  // A section read to its end: the headers handed to the backend are exactly the blocks that end in
  // its new head, `size` of them, each the parent of the next.
  lemma ProcessedIsSection(s: Store, size: nat, st: State, k: nat)
    requires Inv(s, size, st) && st.phase.Processing? && st.phase.next == (st.phase.section + 1) * size && k < size
    ensures |st.phase.read| == size && Ancestor(s, st.phase.last, k) == Some(st.phase.read[size - 1 - k])
    ensures Complete(size, st).heads[st.phase.section] == st.phase.last == st.phase.read[size - 1]
  {
    assert (st.phase.section + 1) * size == st.phase.section * size + size;
    assert ReadAt(s, st.phase.read, size - 1 - k);
  }

  // Reading does not fail where the index is linked, its header is present and what was read last,
  // or the previous section's head, is its entry below.
  lemma ReadSucceeds(s: Store, size: nat, st: State)
    requires Inv(s, size, st) && st.phase.Processing? && LinkedUpTo(s, st.canon, st.phase.next)
    requires st.canon[st.phase.next] in st.present
    requires st.phase.next > 0 ==> st.canon[st.phase.next - 1] == st.phase.last
    ensures ReadNext(s, st).Some? && ReadNext(s, st).value.phase.last == st.canon[st.phase.next]
  {
    if st.phase.next > 0 {
      assert ParentLink(s, st.canon, st.phase.next);
    }
  }

  // The section is stored if and only if its predecessor is still there: then it is the last stored
  // one, the others keep their heads, and the height noted for children is that of its head.
  lemma FinishExact(s: Store, size: nat, st: State)
    requires Inv(s, size, st) && st.lock.Free? && st.phase.Processing? && st.phase.next == (st.phase.section + 1) * size
    ensures var k, v := st.phase.section, Finish(size, st);
            && v.phase.Idle? && v.canon == st.canon && v.present == st.present
            && (k in v.heads <==> k == 0 || (k - 1 in st.heads && st.heads[k - 1] == st.phase.oldHead))
            && (k in v.heads ==> v.stored == k + 1 && v.heads == st.heads[k := st.phase.last] && v.known == st.known
                                 && st.phase.last in s && v.cascaded == s[st.phase.last].number)
  {
    var k := st.phase.section;
    assert (k + 1) * size == k * size + size;
    VerifyLastKeepsLinks(s, size, st);
    assert k !in st.heads;
  }

  // A failed section is not tried again before another notification: nothing is known that is not
  // stored, and what is stored is canonical at the top.
  lemma AbandonWaits(s: Store, size: nat, st: State)
    requires Inv(s, size, st)
    ensures var v := Abandon(size, st);
            v.phase.Idle? && v.known == v.stored <= st.stored && LastIsCanonical(size, v)
  {
    VerifyLastKeepsLinks(s, size, st);
  }

  // The sections that lie wholly at or below a height.
  lemma WholeSections(size: nat, head: nat) returns (known: nat)
    requires size > 0
    ensures known == (head + 1) / size && known * size <= head + 1 < known * size + size
    ensures forall k: nat {:trigger k * size} :: k * size <= head + 1 <==> k <= known
  {
    known := (head + 1) / size;
    assert known * size <= head + 1 < known * size + size;
    forall k: nat
      ensures k * size <= head + 1 <==> k <= known
    {
      if k <= known {
        SectionBound(size, k, known);
      } else {
        SectionBound(size, known + 1, k);
        assert (known + 1) * size == known * size + size;
      }
    }
  }

  // What a rollback forgets: no section known or noted for children ends above the common ancestor,
  // and no more is forgotten than that.
  lemma RollbackForgets(size: nat, st: State, head: nat)
    requires size > 0
    ensures var v := Rollback(size, st, head);
            && v.known <= st.known && v.known * size <= head + 1
            && (st.known * size <= head + 1 ==> v.known == st.known)
            && (v.known < st.known ==> head + 1 < v.known * size + size)
            && v.cascaded <= st.cascaded && v.cascaded <= head + 1
            && (v.cascaded < st.cascaded ==> head + 1 < v.cascaded + size)
  {
    var known := WholeSections(size, head);
    var v := Rollback(size, st, head);
    assert v.known == if known < st.known then known else st.known;
    assert v.cascaded == if known * size < st.cascaded then known * size else st.cascaded;
  }

  lemma RecheckTurnKeepsInv(s: Store, size: nat, st: State)
    requires Inv(s, size, st) && st.lock.Rechecking?
    ensures Inv(s, size, RecheckTurn(size, st))
  {
    SameHeads(s, size, st, RecheckTurn(size, st));
    FreshPhase(s, size, st);
  }

  lemma DropKeepsInv(s: Store, size: nat, st: State)
    requires Inv(s, size, st) && st.stored > Floor(st.lock)
    ensures Inv(s, size, Drop(st))
  {
    DropKeepsLinks(s, size, st);
  }

  lemma StoreCountKeepsInv(s: Store, size: nat, st: State)
    requires Inv(s, size, st) && st.lock.Trimming? && st.stored <= st.lock.target
    ensures Inv(s, size, StoreCount(size, st))
  {
    SameHeads(s, size, st, StoreCount(size, st));
  }

  lemma StartRollbackKeepsInv(s: Store, size: nat, st: State, head: nat)
    requires Inv(s, size, st) && st.lock.Free?
    ensures Inv(s, size, StartRollback(size, st, head))
  {
    SameHeads(s, size, st, StartRollback(size, st, head));
  }

  lemma RecheckKeepsInv(s: Store, size: nat, st: State, purpose: Purpose)
    requires Inv(s, size, st)
    ensures Inv(s, size, Recheck(st, purpose))
  {
    SameHeads(s, size, st, Recheck(st, purpose));
  }

  // A step that leaves the stored sections alone, and does not make the lock holder rely on more.
  lemma QuietKeepsInv(s: Store, size: nat, st: State, st': State)
    requires Inv(s, size, st) && st'.heads == st.heads && st'.stored == st.stored
    requires st'.phase == st.phase || (!st'.phase.Processing? && (st'.phase.Clearing? ==> st.stored == 0))
    requires st'.lock == st.lock || st'.lock.Free? || st'.lock.Rechecking? || st'.lock == Reporting(st.stored)
    ensures Inv(s, size, st')
  {
    SameHeads(s, size, st, st');
  }

  // Every step keeps the heads linked, save one that undercuts the lock holder.
  lemma StepKeepsInv(s: Store, size: nat, confirms: nat, st: State, e: Event, st': State)
    requires Inv(s, size, st) && Step(s, size, confirms, st, e, st') && !Undercuts(st, e)
    ensures Inv(s, size, st')
  {
    match e {
      case HeaderRead => ReadNextKeepsInv(s, size, st);
      case RecheckTurned => RecheckTurnKeepsInv(s, size, st);
      case ResetTurn | TrimTurned => DropKeepsInv(s, size, st);
      case TrimStored => StoreCountKeepsInv(s, size, st);
      case RolledBack(head) => StartRollbackKeepsInv(s, size, st, head);
      case SectionEnded =>
        if Continues(st) {
          CompleteKeepsInv(s, size, st);
        } else {
          RecheckKeepsInv(s, size, st, ForAbandon);
        }
      case SectionBegun => RecheckKeepsInv(s, size, st, ForBegin);
      case SectionFailed => RecheckKeepsInv(s, size, st, ForAbandon);
      case _ => QuietKeepsInv(s, size, st, st');
    }
  }

  ghost predicate RunStep(s: Store, size: nat, confirms: nat, run: seq<State>, events: seq<Event>, k: nat)
    requires size > 0
  {
    k < |events| && k + 1 < |run| && Step(s, size, confirms, run[k], events[k], run[k + 1])
  }

  // A run from a fresh index: nothing stored and nothing under way.
  ghost predicate IsRun(s: Store, size: nat, confirms: nat, run: seq<State>, events: seq<Event>)
    requires size > 0
  {
    && |run| == |events| + 1
    && run[0].stored == 0 && run[0].heads == map[] && run[0].phase.Idle? && run[0].lock.Free?
    && (forall k: nat {:trigger RunStep(s, size, confirms, run, events, k)} | k < |events| ::
          RunStep(s, size, confirms, run, events, k))
  }

  // No section was taken from under a lock holder in the first j steps.
  ghost predicate NeverUndercut(run: seq<State>, events: seq<Event>, j: nat)
  {
    j <= |events| <= |run| && forall k | 0 <= k < j :: !Undercuts(run[k], events[k])
  }

  // In every interleaving without an undercut the stored section heads form one hash-linked chain.
  lemma {:induction false} RunKeepsHeadsLinked(s: Store, size: nat, confirms: nat, run: seq<State>,
                                               events: seq<Event>, j: nat)
    requires Faithful(s) && size > 0 && IsRun(s, size, confirms, run, events) && NeverUndercut(run, events, j)
    ensures Inv(s, size, run[j])
    decreases j
  {
    if j == 0 {
    } else {
      RunKeepsHeadsLinked(s, size, confirms, run, events, j - 1);
      assert RunStep(s, size, confirms, run, events, j - 1);
      StepKeepsInv(s, size, confirms, run[j - 1], events[j - 1], run[j]);
    }
  }

  // It takes a failed Reset to undercut anyone.
  lemma {:induction false} ResetsOnlyAfterFailure(s: Store, size: nat, confirms: nat, run: seq<State>,
                                                  events: seq<Event>, j: nat)
    requires size > 0 && IsRun(s, size, confirms, run, events) && j <= |events|
    requires forall k | 0 <= k < j :: !events[k].ResetFailed?
    ensures NeverUndercut(run, events, j)
    ensures !run[j].phase.Resetting? && !run[j].phase.Clearing?
    decreases j
  {
    if j == 0 {
    } else {
      ResetsOnlyAfterFailure(s, size, confirms, run, events, j - 1);
      assert RunStep(s, size, confirms, run, events, j - 1);
    }
  }

  lemma RunWithoutFailedReset(s: Store, size: nat, confirms: nat, run: seq<State>, events: seq<Event>, j: nat)
    requires Faithful(s) && size > 0 && IsRun(s, size, confirms, run, events) && j <= |events|
    requires forall k | 0 <= k < j :: !events[k].ResetFailed?
    ensures Inv(s, size, run[j])
  {
    ResetsOnlyAfterFailure(s, size, confirms, run, events, j);
    RunKeepsHeadsLinked(s, size, confirms, run, events, j);
  }

  // A section is missing below what the lock holder relies on.
  ghost predicate Undercut(s: Store, size: nat, st: State)
  {
    && HeadsLinked(s, size, st)
    && st.stored < Floor(st.lock)
    && (st.phase.Resetting? || st.phase.Clearing? || st.phase.Failed?)
    && (st.phase.Clearing? ==> st.stored == 0)
  }

  lemma UndercutStays(s: Store, size: nat, confirms: nat, st: State, e: Event, st': State)
    requires size > 0 && Undercut(s, size, st) && Step(s, size, confirms, st, e, st')
    requires !e.TrimStored? && !e.Reported?
    ensures Undercut(s, size, st')
  {
    if e.ResetTurn? {
      DropKeepsLinks(s, size, st);
    } else {
      SameHeads(s, size, st, st');
    }
  }

  // The block with this hash is stored at this height.
  ghost predicate BlockAt(s: Store, h: Hash, n: int)
  {
    h in s && s[h].number == n
  }

  // What Sections() hands out for `count` sections: the head of the section it finds last by then.
  function ReportedHead(st: State): Hash
  {
    SectionHead(st.heads, st.stored - 1)
  }

  // An undercut lock holder stores a count without heads; or it reports the head of an earlier
  // section than the count says, the zero hash when no section is left.
  lemma UndercutEnds(s: Store, size: nat, confirms: nat, st: State, e: Event, st': State)
    requires size > 0 && Faithful(s) && Undercut(s, size, st) && Step(s, size, confirms, st, e, st')
    ensures e.TrimStored? ==> !HeadsLinked(s, size, st')
    ensures e.Reported? ==>
              && st.lock.Reporting? && st.stored < st.lock.count
              && (st.stored == 0 ==> ReportedHead(st) == ZERO)
              && (st.stored > 0 ==> BlockAt(s, ReportedHead(st), st.stored * size - 1))
              && !BlockAt(s, ReportedHead(st), st.lock.count * size - 1)
  {
    if e.TrimStored? {
      assert st.stored !in st'.heads && st.stored < st'.stored;
    } else if e.Reported? {
      SectionBound(size, st.stored + 1, st.lock.count);
      assert (st.stored + 1) * size == st.stored * size + size;
      if st.stored > 0 {
        assert HeadLinked(s, size, st.heads, st.stored - 1);
      }
    }
  }

  // Between an undercut and the end of the critical section it stays undercut, whatever happens.
  lemma {:induction false} UndercutUntil(s: Store, size: nat, confirms: nat, run: seq<State>,
                                         events: seq<Event>, k: nat, m: nat)
    requires Faithful(s) && size > 0 && IsRun(s, size, confirms, run, events) && k < m <= |events|
    requires NeverUndercut(run, events, k) && Undercuts(run[k], events[k])
    requires forall i | k < i < m :: !events[i].TrimStored? && !events[i].Reported?
    ensures Undercut(s, size, run[m])
    decreases m
  {
    assert RunStep(s, size, confirms, run, events, m - 1);
    if m == k + 1 {
      RunKeepsHeadsLinked(s, size, confirms, run, events, k);
      DropKeepsLinks(s, size, run[k]);
    } else {
      UndercutUntil(s, size, confirms, run, events, k, m - 1);
      UndercutStays(s, size, confirms, run[m - 1], events[m - 1], run[m]);
    }
  }

  lemma {:induction false} FirstUndercut(run: seq<State>, events: seq<Event>, b: nat, m: nat) returns (k: nat)
    requires b <= m <= |events| <= |run| && NeverUndercut(run, events, b) && !NeverUndercut(run, events, m)
    ensures b <= k < m && NeverUndercut(run, events, k) && Undercuts(run[k], events[k])
    decreases m - b
  {
    if Undercuts(run[b], events[b]) {
      k := b;
    } else {
      k := FirstUndercut(run, events, b + 1, m);
    }
  }

  // The exact condition, turn by turn. No critical section that others rely on ended in steps b to
  // m - 1, and no step before b undercut one: then the count stored at m has its linked heads, and
  // the head reported at m is the one at the last height counted, if and only if no step before m
  // was an undercut.
  lemma BrokenExactlyByUndercut(s: Store, size: nat, confirms: nat, run: seq<State>, events: seq<Event>, b: nat, m: nat)
    requires Faithful(s) && size > 0 && IsRun(s, size, confirms, run, events) && b <= m < |events|
    requires NeverUndercut(run, events, b) && (forall i | b <= i < m :: !events[i].TrimStored? && !events[i].Reported?)
    ensures events[m].TrimStored? ==> (HeadsLinked(s, size, run[m + 1]) <==> NeverUndercut(run, events, m))
    ensures events[m].Reported? ==>
              && run[m].lock.Reporting?
              && (run[m].lock.count == 0 || BlockAt(s, ReportedHead(run[m]), run[m].lock.count * size - 1)
                  <==> NeverUndercut(run, events, m))
  {
    assert RunStep(s, size, confirms, run, events, m);
    if NeverUndercut(run, events, m) {
      RunKeepsHeadsLinked(s, size, confirms, run, events, m);
      if events[m].TrimStored? {
        StepKeepsInv(s, size, confirms, run[m], events[m], run[m + 1]);
      } else if events[m].Reported? && run[m].lock.count > 0 {
        assert HeadLinked(s, size, run[m].heads, run[m].lock.count - 1);
      }
    } else {
      var k := FirstUndercut(run, events, b, m);
      UndercutUntil(s, size, confirms, run, events, k, m);
      UndercutEnds(s, size, confirms, run[m], events[m], run[m + 1]);
    }
  }

  ghost predicate RunTo(s: Store, size: nat, confirms: nat, run: seq<State>, events: seq<Event>, st: State)
    requires size > 0
  {
    IsRun(s, size, confirms, run, events) && run[|run| - 1] == st
  }

  lemma Then(s: Store, size: nat, confirms: nat, run: seq<State>, events: seq<Event>, e: Event, st: State)
    returns (run': seq<State>, events': seq<Event>)
    requires size > 0 && IsRun(s, size, confirms, run, events) && Step(s, size, confirms, run[|run| - 1], e, st)
    ensures RunTo(s, size, confirms, run', events', st)
  {
    run', events' := run + [st], events + [e];
    forall k: nat | k < |events'|
      ensures RunStep(s, size, confirms, run', events', k)
    {
      if k < |events| {
        assert RunStep(s, size, confirms, run, events, k);
      }
    }
  }

  // Three blocks, and the state of an index of one-block sections over them.
  const THREE: Store := map[1 := Block(1, ZERO, 0, 1, 0, 0, 1, 0, []),
                            2 := Block(2, 1, 1, 1, 0, 0, 1, 0, []),
                            3 := Block(3, 2, 2, 1, 0, 0, 1, 0, [])]

  function Over(heads: map<nat, Hash>, stored: nat, known: nat, cascaded: int, phase: Phase, lock: Lock): State
  {
    State(map[0 := 1, 1 := 2, 2 := 3], {1, 2, 3}, stored, heads, known, cascaded, phase, lock)
  }

  lemma ThreeKnown() returns (run: seq<State>, events: seq<Event>)
    ensures RunTo(THREE, 1, 0, run, events, Over(map[], 0, 3, 0, Idle, Free))
  {
    run, events := [State(map[], {}, 0, map[], 0, 0, Idle, Free)], [];
    var st := Over(map[], 0, 0, 0, Idle, Free);
    run, events := Then(THREE, 1, 0, run, events, ChainChanged(st.canon, st.present), st);
    run, events := Then(THREE, 1, 0, run, events, Advanced(2), st.(known := 3));
  }

  lemma FirstSection() returns (run: seq<State>, events: seq<Event>)
    ensures RunTo(THREE, 1, 0, run, events, Over(map[0 := 1], 1, 3, 0, Idle, Free))
  {
    run, events := ThreeKnown();
    run, events := Then(THREE, 1, 0, run, events, SectionBegun, Over(map[], 0, 3, 0, Idle, Rechecking(ForBegin)));
    run, events := Then(THREE, 1, 0, run, events, RecheckTurned,
                        Over(map[], 0, 3, 0, Processing(0, ZERO, 0, ZERO, []), Free));
    assert run[|run| - 1].phase.read + [1] == [1];
    run, events := Then(THREE, 1, 0, run, events, HeaderRead,
                        Over(map[], 0, 3, 0, Processing(0, ZERO, 1, 1, [1]), Free));
    assert Complete(1, run[|run| - 1]).heads == map[0 := 1];
    run, events := Then(THREE, 1, 0, run, events, SectionEnded, Over(map[0 := 1], 1, 3, 0, Idle, Free));
  }

  lemma SecondSection() returns (run: seq<State>, events: seq<Event>)
    ensures RunTo(THREE, 1, 0, run, events, Over(map[0 := 1, 1 := 2], 2, 3, 1, Idle, Free))
  {
    run, events := FirstSection();
    var one := map[0 := 1];
    run, events := Then(THREE, 1, 0, run, events, SectionBegun, Over(one, 1, 3, 0, Idle, Rechecking(ForBegin)));
    run, events := Then(THREE, 1, 0, run, events, RecheckTurned, Over(one, 1, 3, 0, Processing(1, 1, 1, 1, []), Free));
    assert run[|run| - 1].phase.read + [2] == [2];
    run, events := Then(THREE, 1, 0, run, events, HeaderRead, Over(one, 1, 3, 0, Processing(1, 1, 2, 2, [2]), Free));
    assert Complete(1, run[|run| - 1]).heads == map[0 := 1, 1 := 2];
    run, events := Then(THREE, 1, 0, run, events, SectionEnded, Over(map[0 := 1, 1 := 2], 2, 3, 1, Idle, Free));
  }

  lemma ThirdResetFails() returns (run: seq<State>, events: seq<Event>)
    ensures RunTo(THREE, 1, 0, run, events, Over(map[0 := 1, 1 := 2], 2, 3, 1, Resetting, Free))
  {
    run, events := SecondSection();
    var two := map[0 := 1, 1 := 2];
    run, events := Then(THREE, 1, 0, run, events, SectionBegun, Over(two, 2, 3, 1, Idle, Rechecking(ForBegin)));
    run, events := Then(THREE, 1, 0, run, events, RecheckTurned, Over(two, 2, 3, 1, Processing(2, 2, 2, 2, []), Free));
    run, events := Then(THREE, 1, 0, run, events, ResetFailed, Over(two, 2, 3, 1, Resetting, Free));
  }

  // Such a run: two sections are stored and a third is taken up; its Reset fails, and while newHead
  // drops the second section the failed Reset drops both. One section is counted and none is there.
  lemma ResetRace() returns (run: seq<State>, events: seq<Event>)
    ensures Faithful(THREE) && RunTo(THREE, 1, 0, run, events, Over(map[], 1, 1, 1, Resetting, Free))
    ensures !HeadsLinked(THREE, 1, run[|run| - 1])
  {
    run, events := ThirdResetFails();
    var one, two: map<nat, Hash> := map[0 := 1], map[0 := 1, 1 := 2];
    run, events := Then(THREE, 1, 0, run, events, RolledBack(0), Over(two, 2, 1, 1, Resetting, Trimming(1, None)));
    assert two - {1} == one;
    run, events := Then(THREE, 1, 0, run, events, ResetTurn, Over(one, 1, 1, 1, Resetting, Trimming(1, None)));
    assert one - {0} == map[];
    run, events := Then(THREE, 1, 0, run, events, ResetTurn, Over(map[], 0, 1, 1, Resetting, Trimming(1, None)));
    run, events := Then(THREE, 1, 0, run, events, TrimStored, Over(map[], 1, 1, 1, Resetting, Free));
    assert 0 !in run[|run| - 1].heads;
  }

  // And one in which a report is undercut: two sections are counted, and the head handed out is that
  // of the first.
  lemma ReportRace() returns (run: seq<State>, events: seq<Event>)
    ensures Faithful(THREE) && RunTo(THREE, 1, 0, run, events, Over(map[0 := 1], 1, 3, 1, Resetting, Reporting(2)))
    ensures var last := run[|run| - 1]; ReportedHead(last) == 1 && !BlockAt(THREE, ReportedHead(last), 2 * 1 - 1)
  {
    run, events := ThirdResetFails();
    var one, two: map<nat, Hash> := map[0 := 1], map[0 := 1, 1 := 2];
    run, events := Then(THREE, 1, 0, run, events, ReportBegun, Over(two, 2, 3, 1, Resetting, Rechecking(ForReport)));
    run, events := Then(THREE, 1, 0, run, events, RecheckTurned, Over(two, 2, 3, 1, Resetting, Checked));
    run, events := Then(THREE, 1, 0, run, events, Counted, Over(two, 2, 3, 1, Resetting, Reporting(2)));
    assert two - {1} == one;
    run, events := Then(THREE, 1, 0, run, events, ResetTurn, Over(one, 1, 3, 1, Resetting, Reporting(2)));
  }

  lemma {:induction false} SectionsBelow(s: Store, size: nat, v: State, i: nat)
    requires Faithful(s) && size > 0 && HeadsLinked(s, size, v) && i < v.stored
    requires v.stored * size > 0 && LinkedUpTo(s, v.canon, v.stored * size - 1)
    requires LastIsCanonical(size, v)
    ensures SectionHead(v.heads, i) == SectionEnd(size, v.canon, i) && SectionHead(v.heads, i) != ZERO
    decreases v.stored - i
  {
    assert HeadLinked(s, size, v.heads, i);
    if i == v.stored - 1 {
    } else {
      SectionsBelow(s, size, v, i + 1);
      assert HeadLinked(s, size, v.heads, i + 1);
      var n := (i + 2) * size - 1;
      SectionBound(size, i + 2, v.stored);
      assert LinkedUpTo(s, v.canon, n);
      LinkedIsWalk(s, v.canon, n, size);
      assert n - size == (i + 1) * size - 1;
    }
  }

  // All sections of a state have canonical heads.
  ghost predicate AllCanonical(size: nat, st: State)
    requires size > 0
  {
    forall i: nat | i < st.stored ::
      SectionHead(st.heads, i) == SectionEnd(size, st.canon, i) && SectionHead(st.heads, i) != ZERO
  }

  // Hence what is stored is canonical once the last head is: where the index is linked up to there,
  // the one comparison covers all sections.
  lemma SectionsAreCanonical(s: Store, size: nat, st: State, n: nat)
    requires Faithful(s) && size > 0 && HeadsLinked(s, size, st) && LinkedUpTo(s, st.canon, n)
    ensures LastIsCanonical(size, st) && st.stored * size <= n + 1 ==> AllCanonical(size, st)
  {
    if LastIsCanonical(size, st) && st.stored * size <= n + 1 {
      forall i: nat | i < st.stored
        ensures SectionHead(st.heads, i) == SectionEnd(size, st.canon, i) && SectionHead(st.heads, i) != ZERO
      {
        SectionBound(size, 1, st.stored);
        SectionsBelow(s, size, st, i);
      }
    }
  }

  // At the moment the recheck for a report ends, all sections are canonical, though only the last is
  // compared and the index may have changed between the turns of the recheck.
  lemma ReportIsCanonical(s: Store, size: nat, confirms: nat, run: seq<State>, events: seq<Event>, j: nat, n: nat)
    requires Faithful(s) && size > 0 && IsRun(s, size, confirms, run, events)
    requires j < |events| && NeverUndercut(run, events, j) && events[j].RecheckTurned?
    requires LinkedUpTo(s, run[j].canon, n)
    ensures var st := run[j + 1];
            st.lock.Checked? && st.stored * size <= n + 1 ==> AllCanonical(size, st)
  {
    assert RunStep(s, size, confirms, run, events, j);
    RunKeepsHeadsLinked(s, size, confirms, run, events, j);
    RecheckTurnKeepsInv(s, size, run[j]);
    SectionsAreCanonical(s, size, run[j + 1], n);
  }

  // The indexer object. Each method is one critical section of the code, or one header read
  // between two of them; `canon` and `present` stand for the chain database it reads.
  class ChainIndexer {
    const sectionSize: nat
    const confirmsReq: nat
    var canon: Index
    var present: set<Hash>
    var storedSections: nat
    var sectionHeads: map<nat, Hash>
    var knownSections: nat
    var cascadedHead: int
    var phase: Phase

    ghost function Current(): State
      reads this
    {
      State(canon, present, storedSections, sectionHeads, knownSections, cascadedHead, phase, Free)
    }

    constructor (sectionSize: nat, confirmsReq: nat, ghost s: Store)
      requires sectionSize > 0 && Faithful(s)
      ensures this.sectionSize == sectionSize && this.confirmsReq == confirmsReq
      ensures Current() == State(map[], {}, 0, map[], 0, 0, Idle, Free)
      ensures Inv(s, sectionSize, Current())
    {
      this.sectionSize, this.confirmsReq := sectionSize, confirmsReq;
      canon, present := map[], {};
      storedSections, sectionHeads, knownSections, cascadedHead, phase := 0, map[], 0, 0, Idle;
    }

    method SetValidSections(sections: nat)
      modifies this`storedSections, this`sectionHeads
      ensures Current() == SetValid(old(Current()), sections)
    {
      while storedSections > sections
        invariant sections <= old(storedSections) ==> sections <= storedSections <= old(storedSections)
        invariant sections > old(storedSections) ==> storedSections == old(storedSections)
        invariant sectionHeads ==
                  map i | i in old(sectionHeads) && !(storedSections <= i < old(storedSections)) :: old(sectionHeads)[i]
      {
        storedSections := storedSections - 1;
        sectionHeads := sectionHeads - {storedSections};
      }
      storedSections := sections;
    }

    // One turn of verifyLastHead: drop the last section unless it is canonical.
    method VerifyOnce() returns (canonical: bool)
      requires sectionSize > 0 && storedSections > 0
      modifies this`storedSections, this`sectionHeads
      ensures canonical <==> LastIsCanonical(sectionSize, old(Current()))
      ensures Current() == if canonical then old(Current()) else SetValid(old(Current()), old(storedSections) - 1)
    {
      var last := ReadCanonical(canon, storedSections * sectionSize - 1);
      canonical := SectionHead(sectionHeads, storedSections - 1) == last;
      if !canonical {
        SetValidSections(storedSections - 1);
      }
    }

    method VerifyLastHead()
      requires sectionSize > 0
      modifies this`storedSections, this`sectionHeads
      ensures Current() == VerifyLast(sectionSize, old(Current()))
    {
      while storedSections > 0
        invariant VerifyLast(sectionSize, Current()) == VerifyLast(sectionSize, old(Current()))
        decreases storedSections
      {
        ghost var now := Current();
        var canonical := VerifyOnce();
        assert VerifyLast(sectionSize, now) == VerifyLast(sectionSize, Current());
        if canonical {
          return;
        }
      }
    }

    method NewHead(head: nat, reorg: bool)
      requires sectionSize > 0
      modifies this`storedSections, this`sectionHeads, this`knownSections, this`cascadedHead
      ensures Current() == if reorg then Rollback(sectionSize, old(Current()), head)
                           else Advance(sectionSize, confirmsReq, old(Current()), head)
    {
      if reorg {
        var known := (head + 1) / sectionSize;
        if known < knownSections {
          knownSections := known;
        }
        if known < storedSections {
          SetValidSections(known);
        }
        var end := known * sectionSize;
        if end < cascadedHead {
          cascadedHead := end;
        }
      } else if head >= confirmsReq {
        var sections := (head + 1 - confirmsReq) / sectionSize;
        if sections > knownSections {
          knownSections := sections;
        }
      }
    }

    // The update loop up to where it drops the lock.
    method BeginSection()
      requires sectionSize > 0 && phase.Idle? && knownSections > storedSections
      modifies this`storedSections, this`sectionHeads, this`phase
      ensures Current() == Begin(sectionSize, old(Current()))
    {
      VerifyLastHead();
      var section := storedSections;
      var oldHead := if section > 0 then SectionHead(sectionHeads, section - 1) else ZERO;
      phase := Processing(section, oldHead, section * sectionSize, oldHead, []);
    }

    // One turn of processSection's loop.
    method ProcessHeader(s: Store) returns (ok: bool)
      requires phase.Processing?
      modifies this`phase
      ensures ok <==> ReadNext(s, old(Current())).Some?
      ensures ok ==> Some(Current()) == ReadNext(s, old(Current()))
      ensures !ok ==> Current() == old(Current())
      ensures ok <==> var h := ReadCanonical(canon, old(phase).next);
                      && h in present && h != ZERO && h in s
                      && s[h].number == old(phase).next && s[h].parent == old(phase).last
    {
      var hash := ReadCanonical(canon, phase.next);
      if hash == ZERO || hash !in present {
        return false;
      }
      var header := GetBlock(s, hash, phase.next);
      if header.None? || header.value.parent != phase.last {
        return false;
      }
      phase := phase.(next := phase.next + 1, last := header.value.hash, read := phase.read + [hash]);
      return true;
    }

    // Reset has failed, and nobody else touches the stored sections meanwhile.
    method FailReset()
      requires phase.Processing?
      modifies this`storedSections, this`sectionHeads, this`phase
      ensures Current() == SetValid(old(Current()), 0).(phase := Failed)
    {
      SetValidSections(0);
      phase := Failed;
    }

    // The update loop from where it takes the lock again.
    method EndSection(failed: bool)
      requires sectionSize > 0 && (phase.Processing? || (phase.Failed? && failed))
      modifies this`storedSections, this`sectionHeads, this`knownSections, this`cascadedHead, this`phase
      ensures Current() == if failed then Abandon(sectionSize, old(Current())) else Finish(sectionSize, old(Current()))
    {
      if !failed && (phase.section == 0 || phase.oldHead == SectionHead(sectionHeads, phase.section - 1)) {
        var section := phase.section;
        sectionHeads := sectionHeads[section := phase.last];
        SetValidSections(section + 1);
        cascadedHead := storedSections * sectionSize - 1;
      } else {
        VerifyLastHead();
        knownSections := storedSections;
      }
      phase := Idle;
    }

    // The number of valid sections and the head of the last one.
    method Sections(ghost s: Store, ghost n: nat) returns (sections: nat, last: int, head: Hash)
      requires Inv(s, sectionSize, Current())
      modifies this`storedSections, this`sectionHeads
      ensures Current() == VerifyLast(sectionSize, old(Current())) && Inv(s, sectionSize, Current())
      ensures sections == storedSections && last == sections * sectionSize - 1
      ensures head == SectionHead(sectionHeads, sections - 1)
      ensures LastIsCanonical(sectionSize, Current())
      ensures LinkedUpTo(s, canon, n) && last <= n ==> AllCanonical(sectionSize, Current())
    {
      VerifyLastKeepsLinks(s, sectionSize, Current());
      VerifyLastHead();
      sections, last := storedSections, storedSections * sectionSize - 1;
      head := SectionHead(sectionHeads, storedSections - 1);
      if LinkedUpTo(s, canon, n) {
        SectionsAreCanonical(s, sectionSize, Current(), n);
      }
    }
  }
}
