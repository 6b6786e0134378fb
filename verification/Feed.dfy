/** The feed itself: the case list lives in one array, the active cases are a prefix of it, and
    delivering or removing a case rearranges the array in place. Each operation is the matching
    step of the protocol. */
module Feeds {
  import P = FeedProtocol
  import opened FeedProtocol

  lemma {:induction false} FirstOccurrence(cs: seq<Case>, c: Case, i: nat)
    requires i < |cs| && cs[i] == c && c !in cs[..i]
    ensures P.Find(cs, c) == i
  {
    if i == 0 {
    } else {
      assert cs[0] in cs[..i];
      assert cs[1..][..i - 1] == cs[1..i];
      FirstOccurrence(cs[1..], c, i - 1);
    }
  }

  // What there was when a send began: the subscribed cases, those waiting for removal, and all that
  // had been cancelled.
  datatype SendStart = SendStart(start: multiset<Case>, removing: multiset<Case>, cancelled: multiset<Case>)

  // Whoever waits for removal now waited before or has cancelled since.
  ghost predicate CaseWaits(removing0: multiset<Case>, cancelled0: multiset<Case>,
                            removing: multiset<Case>, cancelled: multiset<Case>, c: Case)
  {
    removing[c] + cancelled0[c] <= removing0[c] + cancelled[c]
  }

  ghost predicate OnlyCancelledWait(removing0: multiset<Case>, cancelled0: multiset<Case>,
                                    removing: multiset<Case>, cancelled: multiset<Case>)
  {
    forall c: Case {:trigger CaseWaits(removing0, cancelled0, removing, cancelled, c)} ::
      CaseWaits(removing0, cancelled0, removing, cancelled, c)
  }

  // Whatever a send has dropped waited when it began or was cancelled since.
  ghost predicate CaseOwed(phase: Phase, removing: multiset<Case>, cancelled: multiset<Case>, at: SendStart, c: Case)
    requires phase.Sending?
  {
    phase.dropped[c] + phase.late[c] + removing[c] + at.cancelled[c] <= at.removing[c] + cancelled[c]
  }

  ghost predicate Owed(phase: Phase, removing: multiset<Case>, cancelled: multiset<Case>, at: SendStart)
    requires phase.Sending?
  {
    forall c: Case {:trigger CaseOwed(phase, removing, cancelled, at, c)} :: CaseOwed(phase, removing, cancelled, at, c)
  }

  lemma OwedAtStart(phase: Phase, at: SendStart)
    requires phase.Sending? && phase.dropped == phase.late == multiset{}
    ensures Owed(phase, at.removing, at.cancelled, at)
  {
    forall c: Case
      ensures CaseOwed(phase, at.removing, at.cancelled, at, c)
    {
    }
  }

  lemma OwedAfterWait(phase: Phase, removing0: multiset<Case>, cancelled0: multiset<Case>,
                      removing: multiset<Case>, cancelled: multiset<Case>, at: SendStart)
    requires phase.Sending? && Owed(phase, removing0, cancelled0, at)
    requires OnlyCancelledWait(removing0, cancelled0, removing, cancelled)
    ensures Owed(phase, removing, cancelled, at)
  {
    forall c: Case
      ensures CaseOwed(phase, removing, cancelled, at, c)
    {
      assert CaseOwed(phase, removing0, cancelled0, at, c) && CaseWaits(removing0, cancelled0, removing, cancelled, c);
    }
  }

  lemma OwedAfterDelivery(phase: Phase, phase': Phase, removing: multiset<Case>, cancelled: multiset<Case>,
                          at: SendStart)
    requires phase.Sending? && phase'.Sending? && phase'.dropped == phase.dropped && phase'.late == phase.late
    requires Owed(phase, removing, cancelled, at)
    ensures Owed(phase', removing, cancelled, at)
  {
    forall c: Case
      ensures CaseOwed(phase', removing, cancelled, at, c)
    {
      assert CaseOwed(phase, removing, cancelled, at, c);
    }
  }

  lemma OwedAfterRemoval(f: Feed, x: Case, cancelled: multiset<Case>, at: SendStart)
    requires f.phase.Sending? && f.phase.active > 0 && P.Find(f.sendCases, x) >= 0 && x in f.removing
    requires Owed(f.phase, f.removing, cancelled, at)
    ensures Owed(P.RemoveDuring(f, x).phase, P.RemoveDuring(f, x).removing, cancelled, at)
  {
    var g := P.RemoveDuring(f, x);
    forall c: Case
      ensures CaseOwed(g.phase, g.removing, cancelled, at, c)
    {
      assert CaseOwed(f.phase, f.removing, cancelled, at, c);
      Less(f.removing, x, c);
      More(f.phase.dropped, x, c);
      More(f.phase.late, x, c);
    }
  }

  lemma RemovedAtRest(f: Feed, c: Case) returns (g: Feed)
    requires Inv(f) && c in f.removing && f.phase.Idle?
    ensures P.Find(f.sendCases, c) > 0 && g == P.RemoveIdle(f, c) && Inv(g)
    ensures multiset(g.sendCases) == multiset(f.sendCases) - multiset{c}
  {
    RemoveIdleKeepsInv(f, c);
    g := P.RemoveIdle(f, c);
    DeleteOne(f.sendCases, P.Find(f.sendCases, c));
  }

  lemma RemovalServed(f: Feed, c: Case, cancelled: multiset<Case>, at: SendStart) returns (g: Feed)
    requires Inv(f) && c in f.removing && f.phase.Sending? && f.phase.active > 1
    requires Owed(f.phase, f.removing, cancelled, at)
    ensures P.Find(f.sendCases, c) > 0 && g == P.RemoveDuring(f, c) && Inv(g)
    ensures g.phase.start == f.phase.start && g.phase.delivered == f.phase.delivered
    ensures 1 <= g.phase.active <= f.phase.active
    ensures multiset(g.sendCases) == multiset(f.sendCases) - multiset{c}
    ensures Owed(g.phase, g.removing, cancelled, at)
  {
    RemoveDuringKeepsInv(f, c);
    g := P.RemoveDuring(f, c);
    DeleteOne(f.sendCases, P.Find(f.sendCases, c));
    OwedAfterRemoval(f, c, cancelled, at);
  }

  lemma DroppedOwed(phase: Phase, removing: multiset<Case>, cancelled: multiset<Case>, at: SendStart)
    requires phase.Sending? && Owed(phase, removing, cancelled, at)
    ensures forall c: Case :: phase.dropped[c] + at.cancelled[c] <= at.removing[c] + cancelled[c]
  {
    forall c: Case
      ensures phase.dropped[c] + at.cancelled[c] <= at.removing[c] + cancelled[c]
    {
      assert CaseOwed(phase, removing, cancelled, at, c);
    }
  }

  // A cancellation adds one to what has been cancelled and at most that one to those who wait.
  lemma WaitAfterCancel(removing0: multiset<Case>, cancelled0: multiset<Case>, removing: multiset<Case>,
                        cancelled: multiset<Case>, x: Case, waits: bool)
    requires OnlyCancelledWait(removing0, cancelled0, removing, cancelled)
    ensures OnlyCancelledWait(removing0, cancelled0, if waits then removing + multiset{x} else removing,
                              cancelled + multiset{x})
  {
    var after := if waits then removing + multiset{x} else removing;
    forall c: Case
      ensures CaseWaits(removing0, cancelled0, after, cancelled + multiset{x}, c)
    {
      assert CaseWaits(removing0, cancelled0, removing, cancelled, c);
      More(removing, x, c);
      More(cancelled, x, c);
    }
  }

  class EventFeed {
    var buf: array<Case>        // backing array of sendCases
    var len: nat                // sendCases is buf[..len]
    var inbox: seq<Case>
    ghost var live: multiset<Case>
    var removing: multiset<Case>
    ghost var cancelled: multiset<Case>   // every Unsubscribe so far
    ghost var phase: Phase

    ghost function View(): Feed
      requires len <= buf.Length
      reads this, buf
    {
      Feed(inbox, buf[..len], live, removing, phase)
    }

    ghost predicate Valid()
      reads this, buf
    {
      len <= buf.Length && Inv(View())
    }

    constructor ()
      ensures fresh(buf) && Valid() && View() == NEW_FEED
    {
      buf := new Case[1][RemoveSub];
      len, inbox, removing := 1, [], multiset{};
      live, cancelled, phase := multiset{}, multiset{}, Idle;
      new;
      assert buf[..1] == [RemoveSub];
      NewFeedInv();
    }

    // caseList.find on sendCases.
    method FindCase(c: Case) returns (i: int)
      requires len <= buf.Length
      ensures i == P.Find(buf[..len], c)
    {
      i := 0;
      while i < len
        invariant 0 <= i <= len
        invariant c !in buf[..i]
      {
        if buf[i] == c {
          FirstOccurrence(buf[..len], c, i);
          return;
        }
        i := i + 1;
      }
      return -1;
    }

    // caseList.delete on sendCases: shift the cases behind index i one to the left.
    method DeleteCase(i: nat)
      requires i < len <= buf.Length
      modifies buf, this`len
      ensures len == old(len) - 1
      ensures buf[..len] == P.Delete(old(buf[..len]), i)
    {
      var k, last := i, len - 1;
      ghost var was := buf[..len];
      ghost var left := P.Delete(was, i);
      while k < last
        modifies buf
        invariant i <= k <= last
        invariant forall j | 0 <= j < k :: buf[j] == left[j]
        invariant forall j | k < j <= last :: buf[j] == was[j]
      {
        assert left[k] == was[k + 1];
        buf[k] := buf[k + 1];
        k := k + 1;
      }
      len := last;
    }

    // Find a case and delete it.
    method Extract(c: Case) returns (i: nat)
      requires len <= buf.Length && P.Find(buf[..len], c) >= 0
      modifies buf, this`len
      ensures i == P.Find(old(buf[..len]), c) && len == old(len) - 1
      ensures buf[..len] == P.Delete(old(buf[..len]), i)
    {
      i := FindCase(c);
      DeleteCase(i);
    }

    // caseList.deactivate on the prefix buf[..active].
    method DeactivateCase(active: nat, i: nat)
      requires i < active <= len <= buf.Length
      modifies buf
      ensures buf[..len] == P.Deactivate(old(buf[..len]), active, i)
      ensures buf[..i] == old(buf[..i])
    {
      buf[i], buf[active - 1] := buf[active - 1], buf[i];
    }

    // append(sendCases, inbox...): in place when the capacity allows it, otherwise in a new array.
    method AppendInbox()
      requires len <= buf.Length
      modifies this`buf, this`len, buf
      ensures buf == old(buf) || fresh(buf)
      ensures len <= buf.Length && buf[..len] == old(buf[..len]) + inbox
    {
      var b, n := buf, len + |inbox|;
      if n > buf.Length {
        b := new Case[n](_ => RemoveSub);
        forall j | 0 <= j < len {
          b[j] := buf[j];
        }
      }
      forall j | 0 <= j < |inbox| {
        b[len + j] := inbox[j];
      }
      buf, len := b, n;
    }

    method Subscribe(c: Case)
      requires Valid() && c.Send?
      modifies this`inbox, this`live
      ensures Valid() && View() == P.Subscribe(old(View()), c)
      ensures inbox == old(inbox) + [c] && live == old(live) + multiset{c}
    {
      SubscribeKeepsInv(View(), c);
      inbox := inbox + [c];
      live := live + multiset{c};
    }

    // Out of the inbox, or on to wait for the case list.
    method Withdraw(c: Case)
      requires len <= buf.Length
      modifies this`inbox, this`live, this`removing
      ensures View() == P.Unsubscribe(old(View()), c)
    {
      var i := P.Find(inbox, c);
      live := live - multiset{c};
      if i != -1 {
        inbox := P.Delete(inbox, i);
      } else {
        removing := removing + multiset{c};
      }
    }

    // remove, up to the point where it would have to wait for the case list.
    method Unsubscribe(c: Case)
      requires Valid() && c in live
      modifies this`inbox, this`live, this`removing, this`cancelled
      ensures Valid() && View() == P.Unsubscribe(old(View()), c)
      ensures live == old(live) - multiset{c} && cancelled == old(cancelled) + multiset{c}
      ensures multiset(inbox) == multiset(old(inbox)) - multiset{c}
      ensures removing == if c in old(inbox) then old(removing) else old(removing) + multiset{c}
    {
      ghost var after := P.Unsubscribe(View(), c);
      UnsubscribeKeepsInv(View(), c);
      UnsubscribedContents(View(), c);
      Withdraw(c);
      assert View() == after;
      cancelled := cancelled + multiset{c};
    }

    // Take c out of the case list.
    method Discard(c: Case)
      requires len <= buf.Length && P.Find(buf[..len], c) >= 0
      modifies buf, this`len, this`removing
      ensures len == old(len) - 1
      ensures View() == P.RemoveIdle(old(View()), c)
    {
      var i := Extract(c);
      removing := removing - multiset{c};
    }

    // remove, once it holds the send lock.
    method RemoveWhenIdle(c: Case)
      requires Valid() && c in removing && phase.Idle?
      modifies this`len, this`removing, buf
      ensures Valid() && P.Find(old(buf[..len]), c) > 0 && View() == P.RemoveIdle(old(View()), c)
      ensures multiset(buf[..len]) == old(multiset(buf[..len])) - multiset{c}
      ensures removing == old(removing) - multiset{c}
    {
      ghost var after := RemovedAtRest(View(), c);
      Discard(c);
      assert View() == after;
    }

    // Some entry for c belongs to a subscription that has not been cancelled.
    method IsLive(c: Case) returns (alive: bool)
      requires Valid()
      ensures alive <==> c in live
    {
      assert CaseAccounted(inbox, buf[..len], live, removing, c);
      CountIsMultiset(inbox, c);
      CountIsMultiset(buf[..len][1..], c);
      alive := multiset(inbox)[c] + multiset(buf[..len][1..])[c] > removing[c];
    }

    // What other goroutines may do while a send is in progress, any number of times.
    method Interfere()
      requires Valid()
      modifies this`inbox, this`live, this`removing, this`cancelled
      ensures Valid() && OnlyCancelledWait(old(removing), old(cancelled), removing, cancelled)
    {
      var turns: nat := *;
      while turns > 0
        invariant Valid() && OnlyCancelledWait(old(removing), old(cancelled), removing, cancelled)
      {
        turns := turns - 1;
        var ch: nat, cancel: bool := *, *;
        var c := Case.Send(ch);
        if cancel {
          var alive := IsLive(c);
          if alive {
            WaitAfterCancel(old(removing), old(cancelled), removing, cancelled, c, c !in inbox);
            Unsubscribe(c);
          }
        } else {
          Subscribe(c);
        }
      }
    }

    // A send is in progress with `active` cases to go and nsent values delivered.
    ghost predicate InSend(active: nat, nsent: nat, at: SendStart)
      reads this, buf
    {
      && Valid() && phase.Sending? && phase.active == active && |phase.delivered| == nsent && phase.start == at.start
      && Owed(phase, removing, cancelled, at)
    }

    // Others get their turns in the middle of a send.
    method Interrupted(active: nat, nsent: nat, ghost at: SendStart)
      requires InSend(active, nsent, at)
      modifies this`inbox, this`live, this`removing, this`cancelled
      ensures InSend(active, nsent, at)
    {
      ghost var removing0, cancelled0 := removing, cancelled;
      Interfere();
      OwedAfterWait(phase, removing0, cancelled0, removing, cancelled, at);
    }

    method DeliverTo(active: nat, i: nat, nsent: nat, ghost at: SendStart)
      requires InSend(active, nsent, at) && 0 < i < active
      modifies buf, this`phase
      ensures InSend(active - 1, nsent + 1, at)
      ensures View() == P.Deliver(old(View()), i)
      ensures buf[1..i] == old(buf[1..i])
    {
      DeliverKeepsInv(View(), i);
      ghost var after := P.Deliver(View(), i).phase;
      OwedAfterDelivery(phase, after, removing, cancelled, at);
      DeactivateCase(active, i);
      phase := after;
    }

    // The fast path: try each active case without blocking. Those left active have all refused.
    method TrySends(active0: nat, nsent0: nat, ghost at: SendStart)
      returns (active: nat, nsent: nat, ghost refused: seq<Case>)
      requires InSend(active0, nsent0, at)
      modifies buf, this`phase, this`inbox, this`live, this`removing, this`cancelled
      ensures InSend(active, nsent, at) && 1 <= active <= active0
      ensures buf == old(buf) && refused == buf[1..active]
    {
      active, nsent, refused := active0, nsent0, [];
      var i := 1;
      while i < active
        invariant InSend(active, nsent, at) && 1 <= i <= active <= active0
        invariant refused == buf[1..i]
        decreases active - i
      {
        Interrupted(active, nsent, at);
        var ready: bool := *;
        if ready {
          DeliverTo(active, i, nsent, at);
          active, nsent := active - 1, nsent + 1;
        } else {
          refused := refused + [buf[i]];
          i := i + 1;
        }
      }
    }

    // Take c out of the case list in the middle of a send.
    method TakeOut(active0: nat, c: Case) returns (active: nat)
      requires len <= buf.Length && P.Find(buf[..len], c) >= 0 && phase.Sending? && phase.active == active0 > 0
      modifies buf, this`phase, this`len, this`removing
      ensures len == old(len) - 1 && phase.Sending? && active == phase.active
      ensures View() == P.RemoveDuring(old(View()), c)
    {
      ghost var after := P.RemoveDuring(View(), c).phase;
      var index := Extract(c);
      removing := removing - multiset{c};
      phase := after;
      active := if index < active0 then active0 - 1 else active0;
    }

    // The removeSub case fired with c.
    method ServeRemoval(active0: nat, c: Case, nsent: nat, ghost at: SendStart) returns (active: nat)
      requires InSend(active0, nsent, at) && active0 > 1 && c in removing
      modifies buf, this`phase, this`len, this`removing
      ensures InSend(active, nsent, at) && 1 <= active <= active0
      ensures len == old(len) - 1
      ensures P.Find(old(buf[..len]), c) > 0 && View() == P.RemoveDuring(old(View()), c)
      ensures multiset(buf[..len]) == old(multiset(buf[..len])) - multiset{c}
    {
      ghost var after := RemovalServed(View(), c, cancelled, at);
      active := TakeOut(active0, c);
      assert View() == after;
    }

    // Take the send lock and move the inbox into the case list.
    method OpenSend()
      requires 0 < len <= buf.Length
      modifies this`buf, this`len, this`inbox, this`phase, buf
      ensures buf == old(buf) || fresh(buf)
      ensures len <= buf.Length && View() == P.BeginSend(old(View()))
      ensures buf[..len] == old(buf[..len]) + old(inbox) && inbox == []
    {
      ghost var begun := P.BeginSend(View());
      AppendInbox();
      inbox, phase := [], begun.phase;
    }

    // One select over the active cases: either the removal case fires or some case accepts.
    method SelectOnce(active0: nat, nsent0: nat, ghost at: SendStart) returns (active: nat, nsent: nat)
      requires InSend(active0, nsent0, at) && active0 > 1
      modifies buf, this`phase, this`len, this`removing
      ensures InSend(active, nsent, at) && 1 <= active <= active0
      ensures len + active < old(len) + active0
    {
      nsent := nsent0;
      var chosen: nat :| chosen < active0 && (chosen == 0 ==> removing != multiset{});
      if chosen == 0 {
        var c :| c in removing;
        active := ServeRemoval(active0, c, nsent, at);
      } else {
        DeliverTo(active0, chosen, nsent, at);
        active, nsent := active0 - 1, nsent + 1;
      }
    }

    // Alternate between the fast path and the select until only the removal case is active.
    method SendLoop(ghost at: SendStart) returns (nsent: nat)
      requires InSend(len, 0, at)
      modifies buf, this`phase, this`len, this`inbox, this`live, this`removing, this`cancelled
      ensures InSend(1, nsent, at)
    {
      nsent := 0;
      var active := len;
      while true
        invariant InSend(active, nsent, at) && 1 <= active
        decreases len + active
      {
        ghost var refused;
        active, nsent, refused := TrySends(active, nsent, at);
        if active == 1 {
          break;
        }
        Interrupted(active, nsent, at);
        active, nsent := SelectOnce(active, nsent, at);
      }
    }

    // Deliver to everyone subscribed when the send lock is taken; returns the number of deliveries.
    // Everyone is delivered to exactly once or was removed first.
    method Send() returns (nsent: nat, ghost delivered: seq<Case>, ghost dropped: multiset<Case>)
      requires Valid() && phase.Idle?
      modifies this, buf
      ensures Valid() && phase.Idle?
      ensures nsent == |delivered|
      ensures old(multiset(buf[..len][1..]) + multiset(inbox)) == multiset(delivered) + dropped
      ensures multiset(buf[..len][1..]) <= multiset(delivered)
      ensures forall c: Case :: dropped[c] + old(cancelled)[c] <= old(removing)[c] + cancelled[c]
    {
      BeginSendKeepsInv(View());
      ghost var begun := P.BeginSend(View());
      BeginSendStart(View());
      OpenSend();
      assert View() == begun;
      ghost var at := SendStart(begun.phase.start, removing, cancelled);
      OwedAtStart(phase, at);
      nsent := SendLoop(at);
      SendDeliversOnce(View());
      DroppedOwed(phase, removing, cancelled, at);
      EndSendKeepsInv(View());
      delivered, dropped := phase.delivered, phase.dropped;
      ghost var ended := P.EndSend(View());
      phase := Idle;
      assert View() == ended;
    }
  }
}
