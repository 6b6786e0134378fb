/** The one-to-many feed as a protocol: subscriptions wait in an inbox, a send works through the
    case list by swapping delivered cases behind the active prefix, and unsubscribing reaches
    into whichever list holds the case. Every interleaving of the three is a run of Next. */
module FeedProtocol {

  // A select case: slot 0 receives removal requests, every other slot sends to a channel.
  datatype Case = RemoveSub | Send(ch: nat)

  // A send in progress: `cases` is the prefix sendCases[..active]. The rest is history: what was
  // subscribed when it began, what was delivered, and what was removed before and after delivery.
  datatype Phase =
    | Idle
    | Sending(active: nat, start: multiset<Case>, delivered: seq<Case>, dropped: multiset<Case>, late: multiset<Case>)

  // `live` are the subscriptions not yet unsubscribed, `removing` those whose Unsubscribe found
  // nothing in the inbox and now waits for the send lock or for a running send.
  datatype Feed = Feed(inbox: seq<Case>, sendCases: seq<Case>, live: multiset<Case>, removing: multiset<Case>,
      phase: Phase)

  // The index of the first case equal to c, or -1.
  function Find(cs: seq<Case>, c: Case): (i: int)
    ensures -1 <= i < |cs|
    ensures i >= 0 ==> cs[i] == c && c !in cs[..i]
    ensures i == -1 ==> c !in cs
  {
    if cs == [] then -1
    else if cs[0] == c then 0
    else
      var k := Find(cs[1..], c);
      assert cs == [cs[0]] + cs[1..];
      if k == -1 then -1 else k + 1
  }

  function Delete(cs: seq<Case>, i: nat): seq<Case>
    requires i < |cs|
  {
    cs[..i] + cs[i + 1..]
  }

  // Move the case at i to the end of the active prefix, which shrinks by one.
  function Deactivate(cs: seq<Case>, active: nat, i: nat): seq<Case>
    requires i < active <= |cs|
  {
    cs[i := cs[active - 1]][active - 1 := cs[i]]
  }

  function Subscribe(f: Feed, c: Case): Feed
  {
    f.(inbox := f.inbox + [c], live := f.live + multiset{c})
  }

  // The first half of remove: take the case out of the inbox, or go on to wait for the case list.
  function Unsubscribe(f: Feed, c: Case): Feed
  {
    var i := Find(f.inbox, c);
    if i != -1 then f.(inbox := Delete(f.inbox, i), live := f.live - multiset{c})
    else f.(live := f.live - multiset{c}, removing := f.removing + multiset{c})
  }

  // The second half of remove while no send is in progress.
  function RemoveIdle(f: Feed, c: Case): Feed
    requires Find(f.sendCases, c) >= 0
  {
    f.(sendCases := Delete(f.sendCases, Find(f.sendCases, c)), removing := f.removing - multiset{c})
  }

  // Taking the send lock and emptying the inbox into the case list.
  function BeginSend(f: Feed): Feed
    requires f.sendCases != []
  {
    var cs := f.sendCases + f.inbox;
    f.(inbox := [], sendCases := cs, phase := Sending(|cs|, multiset(cs[1..]), [], multiset{}, multiset{}))
  }

  // A value delivered to the active case i, by TrySend or by the select.
  function Deliver(f: Feed, i: nat): Feed
    requires f.phase.Sending? && 0 < i < f.phase.active <= |f.sendCases|
  {
    f.(sendCases := Deactivate(f.sendCases, f.phase.active, i),
       phase := f.phase.(active := f.phase.active - 1, delivered := f.phase.delivered + [f.sendCases[i]]))
  }

  // The removeSub case chosen by the select: the case leaves the list, and the active prefix if
  // it was still in it.
  function RemoveDuring(f: Feed, c: Case): Feed
    requires f.phase.Sending? && Find(f.sendCases, c) >= 0 && f.phase.active > 0
  {
    var i := Find(f.sendCases, c);
    f.(sendCases := Delete(f.sendCases, i), removing := f.removing - multiset{c},
       phase := if i < f.phase.active
                then f.phase.(active := f.phase.active - 1, dropped := f.phase.dropped + multiset{c})
                else f.phase.(late := f.phase.late + multiset{c}))
  }

  function EndSend(f: Feed): Feed
  {
    f.(phase := Idle)
  }

  datatype Event =
    | Subscribed(c: Case) | Unsubscribed(c: Case) | RemovedIdle(c: Case)
    | SendBegun | Delivered(i: nat) | RemovedDuring(c: Case) | SendEnded

  ghost predicate Next(f: Feed, e: Event, f': Feed)
  {
    match e
    case Subscribed(c) => c.Send? && f' == Subscribe(f, c)
    case Unsubscribed(c) => c in f.live && f' == Unsubscribe(f, c)
    case RemovedIdle(c) => c in f.removing && f.phase.Idle? && Find(f.sendCases, c) >= 0 && f' == RemoveIdle(f, c)
    case SendBegun => f.phase.Idle? && f.sendCases != [] && f' == BeginSend(f)
    case Delivered(i) => f.phase.Sending? && 0 < i < f.phase.active <= |f.sendCases| && f' == Deliver(f, i)
    case RemovedDuring(c) => c in f.removing && f.phase.Sending? && f.phase.active > 1 && Find(f.sendCases, c) >= 0
                             && f' == RemoveDuring(f, c)
    case SendEnded => f.phase.Sending? && f.phase.active == 1 && f' == EndSend(f)
  }

  // ---------------------------------------------------------------- the invariant

  // Slot 0 is the removal case and no other slot is.
  ghost predicate SlotZero(cs: seq<Case>)
  {
    cs != [] && cs[0] == RemoveSub && RemoveSub !in cs[1..]
  }

  ghost function One(c: Case, x: Case): nat
  {
    if c == x then 1 else 0
  }

  // How often x occurs.
  ghost function Count(cs: seq<Case>, x: Case): nat
  {
    if cs == [] then 0 else One(cs[0], x) + Count(cs[1..], x)
  }

  ghost predicate CaseAccounted(inbox: seq<Case>, sendCases: seq<Case>, live: multiset<Case>, removing: multiset<Case>,
                                c: Case)
    requires sendCases != []
  {
    && Count(inbox, c) + Count(sendCases[1..], c) == live[c] + removing[c]
    && removing[c] <= Count(sendCases[1..], c)
  }

  // Entries across both lists are exactly the subscriptions, and whoever waits for the case
  // list has an entry in it.
  ghost predicate Accounted(inbox: seq<Case>, sendCases: seq<Case>, live: multiset<Case>, removing: multiset<Case>)
    requires sendCases != []
  {
    forall c: Case {:trigger CaseAccounted(inbox, sendCases, live, removing, c)} ::
      CaseAccounted(inbox, sendCases, live, removing, c)
  }

  ghost predicate CaseBalanced(f: Feed, c: Case)
    requires f.phase.Sending? && 1 <= f.phase.active <= |f.sendCases|
  {
    var p := f.phase;
    && p.start[c] == Count(f.sendCases[1..p.active], c) + Count(p.delivered, c) + p.dropped[c]
    && Count(p.delivered, c) == Count(f.sendCases[p.active..], c) + p.late[c]
  }

  // A running send: everything subscribed at its start is still active, was delivered, or was
  // removed first; and the cases behind the active prefix are the delivered ones still there.
  ghost predicate Balanced(f: Feed)
    requires f.sendCases != []
  {
    f.phase.Sending? ==>
      && 1 <= f.phase.active <= |f.sendCases|
      && (forall c: Case {:trigger CaseBalanced(f, c)} :: CaseBalanced(f, c))
  }

  ghost predicate Inv(f: Feed)
  {
    SlotZero(f.sendCases) && RemoveSub !in f.inbox && Accounted(f.inbox, f.sendCases, f.live, f.removing) && Balanced(f)
  }

  const NEW_FEED: Feed := Feed([], [RemoveSub], multiset{}, multiset{}, Idle)

  lemma NewFeedInv()
    ensures Inv(NEW_FEED)
  {
    assert [RemoveSub][1..] == [];
    forall d: Case
      ensures CaseAccounted([], [RemoveSub], multiset{}, multiset{}, d)
    {
    }
  }

  // ---------------------------------------------------------------- counting

  lemma {:induction false} CountConcat(a: seq<Case>, b: seq<Case>, x: Case)
    ensures Count(a + b, x) == Count(a, x) + Count(b, x)
    decreases |a|
  {
    if a == [] {
      assert a + b == b;
    } else {
      assert (a + b)[1..] == a[1..] + b;
      CountConcat(a[1..], b, x);
    }
  }

  lemma {:induction false} CountIsMultiset(cs: seq<Case>, x: Case)
    ensures Count(cs, x) == multiset(cs)[x]
  {
    if cs == [] {
    } else {
      CountIsMultiset(cs[1..], x);
      assert cs == [cs[0]] + cs[1..];
    }
  }

  lemma {:induction false} CountMember(cs: seq<Case>, x: Case)
    ensures Count(cs, x) > 0 <==> x in cs
  {
    if cs == [] {
    } else {
      CountMember(cs[1..], x);
      assert cs == [cs[0]] + cs[1..];
    }
  }

  lemma CountOne(c: Case, x: Case)
    ensures Count([c], x) == One(c, x)
  {
    assert [c][1..] == [];
  }

  // A slice split around position i.
  lemma CountAt(cs: seq<Case>, lo: nat, i: nat, hi: nat, x: Case)
    requires lo <= i < hi <= |cs|
    ensures Count(cs[lo..hi], x) == Count(cs[lo..i], x) + One(cs[i], x) + Count(cs[i + 1..hi], x)
  {
    assert cs[lo..hi] == cs[lo..i] + cs[i..hi];
    CountConcat(cs[lo..i], cs[i..hi], x);
    assert cs[i..hi][0] == cs[i] && cs[i..hi][1..] == cs[i + 1..hi];
  }

  // Deleting inside a slice takes just that case out of it.
  lemma DeleteSlice(cs: seq<Case>, lo: nat, i: nat, hi: nat, x: Case)
    requires lo <= i < hi <= |cs|
    ensures Count(cs[lo..hi], x) == Count(Delete(cs, i)[lo..hi - 1], x) + One(cs[i], x)
  {
    CountAt(cs, lo, i, hi, x);
    CountConcat(cs[lo..i], cs[i + 1..hi], x);
    assert Delete(cs, i)[lo..hi - 1] == cs[lo..i] + cs[i + 1..hi];
  }

  lemma DeleteFrom(cs: seq<Case>, lo: nat, i: nat, x: Case)
    requires lo <= i < |cs|
    ensures Count(cs[lo..], x) == Count(Delete(cs, i)[lo..], x) + One(cs[i], x)
  {
    DeleteSlice(cs, lo, i, |cs|, x);
    assert cs[lo..|cs|] == cs[lo..] && Delete(cs, i)[lo..|cs| - 1] == Delete(cs, i)[lo..];
  }

  // Deleting takes one occurrence out, as multisets.
  lemma DeleteOne(cs: seq<Case>, i: nat)
    requires i < |cs|
    ensures multiset(Delete(cs, i)) == multiset(cs) - multiset{cs[i]}
  {
    forall x: Case
      ensures multiset(cs)[x] == multiset(Delete(cs, i))[x] + One(cs[i], x)
    {
      DeleteFrom(cs, 0, i, x);
      assert cs[0..] == cs && Delete(cs, i)[0..] == Delete(cs, i);
      CountIsMultiset(cs, x);
      CountIsMultiset(Delete(cs, i), x);
    }
  }

  // Deactivating touches only the case and the end of the active part.
  lemma DeactivateElsewhere(cs: seq<Case>, active: nat, i: nat)
    requires 0 < i < active - 1 < |cs|
    ensures Deactivate(cs, active, i)[1..i] == cs[1..i]
    ensures Deactivate(cs, active, i)[i + 1..active - 1] == cs[i + 1..active - 1]
  {
  }

  // Where a delivered case goes: out of the active part ...
  lemma DeactivateActive(cs: seq<Case>, active: nat, i: nat, x: Case)
    requires 0 < i < active <= |cs|
    ensures Count(cs[1..active], x) == Count(Deactivate(cs, active, i)[1..active - 1], x) + One(cs[i], x)
  {
    var ds, last := Deactivate(cs, active, i), active - 1;
    CountAt(cs, 1, last, active, x);
    assert cs[active..active] == [];
    if i == last {
      assert ds[1..last] == cs[1..last];
    } else {
      CountAt(cs, 1, i, last, x);
      CountAt(ds, 1, i, last, x);
      DeactivateElsewhere(cs, active, i);
    }
  }

  // ... into the part behind it ...
  lemma DeactivateBehind(cs: seq<Case>, active: nat, i: nat, x: Case)
    requires 0 < i < active <= |cs|
    ensures Count(Deactivate(cs, active, i)[active - 1..], x) == One(cs[i], x) + Count(cs[active..], x)
  {
    var ds := Deactivate(cs, active, i)[active - 1..];
    assert ds[0] == cs[i] && ds[1..] == cs[active..];
  }

  lemma CountSplit(cs: seq<Case>, at: nat, x: Case)
    requires 1 <= at <= |cs|
    ensures Count(cs[1..], x) == Count(cs[1..at], x) + Count(cs[at..], x)
  {
    CountConcat(cs[1..at], cs[at..], x);
    assert cs[1..] == cs[1..at] + cs[at..];
  }

  // ... and nothing is lost.
  lemma DeactivateAll(cs: seq<Case>, active: nat, i: nat, x: Case)
    requires 0 < i < active <= |cs|
    ensures Count(Deactivate(cs, active, i)[1..], x) == Count(cs[1..], x)
  {
    var ds, last := Deactivate(cs, active, i), active - 1;
    DeactivateActive(cs, active, i, x);
    DeactivateBehind(cs, active, i, x);
    CountSplit(cs, active, x);
    CountSplit(ds, last, x);
  }

  // A waiting remover always finds its case: Find never yields -1 where its result is deleted.
  lemma RemoverFindsCase(f: Feed, c: Case)
    requires Inv(f) && c in f.removing
    ensures 0 < Find(f.sendCases, c) < |f.sendCases| && f.sendCases[Find(f.sendCases, c)] == c
  {
    assert CaseAccounted(f.inbox, f.sendCases, f.live, f.removing, c);
    CountMember(f.sendCases[1..], c);
    assert f.sendCases == [RemoveSub] + f.sendCases[1..];
    assert c in f.sendCases;
    assert c != RemoveSub;
  }

  // The tally of a send does not look at the inbox or at who waits.
  lemma SameBalance(f: Feed, g: Feed)
    requires f.sendCases != [] && Balanced(f) && g.sendCases == f.sendCases && g.phase == f.phase
    ensures Balanced(g)
  {
    if f.phase.Sending? {
      forall c: Case
        ensures CaseBalanced(g, c)
      {
        assert CaseBalanced(f, c);
      }
    }
  }

  // ---------------------------------------------------------------- every step keeps it

  lemma SubscribeKeepsInv(f: Feed, c: Case)
    requires Inv(f) && c.Send?
    ensures Inv(Subscribe(f, c))
  {
    var g := Subscribe(f, c);
    forall d: Case
      ensures CaseAccounted(g.inbox, g.sendCases, g.live, g.removing, d)
    {
      assert CaseAccounted(f.inbox, f.sendCases, f.live, f.removing, d);
      CountConcat(f.inbox, [c], d);
      CountOne(c, d);
    }
    SameBalance(f, g);
  }

  // A cancelled case leaves the inbox if it is there, and waits for removal otherwise.
  lemma UnsubscribedContents(f: Feed, c: Case)
    ensures var g := Unsubscribe(f, c);
            && multiset(g.inbox) == multiset(f.inbox) - multiset{c} && g.sendCases == f.sendCases
            && g.removing == if c in f.inbox then f.removing else f.removing + multiset{c}
  {
    var i := Find(f.inbox, c);
    if i != -1 {
      DeleteOne(f.inbox, i);
    }
  }

  lemma UnsubscribeKeepsInv(f: Feed, c: Case)
    requires Inv(f) && c in f.live
    ensures Inv(Unsubscribe(f, c))
  {
    var i, g := Find(f.inbox, c), Unsubscribe(f, c);
    forall d: Case
      ensures CaseAccounted(g.inbox, g.sendCases, g.live, g.removing, d)
    {
      assert CaseAccounted(f.inbox, f.sendCases, f.live, f.removing, d);
      if i != -1 {
        DeleteFrom(f.inbox, 0, i, d);
        assert f.inbox[0..] == f.inbox && g.inbox[0..] == g.inbox;
      } else {
        CountMember(f.inbox, c);
      }
    }
    SameBalance(f, g);
  }

  lemma DeleteKeepsSlot(cs: seq<Case>, i: nat)
    requires SlotZero(cs) && 0 < i < |cs|
    ensures SlotZero(Delete(cs, i))
  {
    DeleteFrom(cs, 1, i, RemoveSub);
    CountMember(cs[1..], RemoveSub);
    CountMember(Delete(cs, i)[1..], RemoveSub);
  }

  lemma RemoveKeepsAccounts(f: Feed, c: Case)
    requires Inv(f) && c in f.removing && Find(f.sendCases, c) > 0
    ensures var cs := Delete(f.sendCases, Find(f.sendCases, c));
            SlotZero(cs) && Accounted(f.inbox, cs, f.live, f.removing - multiset{c})
  {
    var i := Find(f.sendCases, c);
    var cs := Delete(f.sendCases, i);
    DeleteKeepsSlot(f.sendCases, i);
    forall d: Case
      ensures CaseAccounted(f.inbox, cs, f.live, f.removing - multiset{c}, d)
    {
      assert CaseAccounted(f.inbox, f.sendCases, f.live, f.removing, d);
      DeleteFrom(f.sendCases, 1, i, d);
    }
  }

  lemma RemoveActive(f: Feed, c: Case, d: Case)
    requires f.phase.Sending? && 1 < f.phase.active <= |f.sendCases| && CaseBalanced(f, d)
    requires 0 < Find(f.sendCases, c) < f.phase.active
    ensures CaseBalanced(RemoveDuring(f, c), d)
  {
    var cs, i, active := f.sendCases, Find(f.sendCases, c), f.phase.active;
    DeleteSlice(cs, 1, i, active, d);
    assert Delete(cs, i)[active - 1..] == cs[active..];
  }

  lemma RemoveBehind(f: Feed, c: Case, d: Case)
    requires f.phase.Sending? && 1 < f.phase.active <= |f.sendCases| && CaseBalanced(f, d)
    requires f.phase.active <= Find(f.sendCases, c)
    ensures CaseBalanced(RemoveDuring(f, c), d)
  {
    var cs, i, active := f.sendCases, Find(f.sendCases, c), f.phase.active;
    assert Delete(cs, i)[1..active] == cs[1..active];
    DeleteFrom(cs, active, i, d);
  }

  lemma RemoveDuringBalanced(f: Feed, c: Case)
    requires f.sendCases != [] && Balanced(f) && Find(f.sendCases, c) > 0 && f.phase.Sending? && f.phase.active > 1
    ensures RemoveDuring(f, c).sendCases != [] && Balanced(RemoveDuring(f, c))
  {
    forall d: Case
      ensures CaseBalanced(RemoveDuring(f, c), d)
    {
      assert CaseBalanced(f, d);
      if Find(f.sendCases, c) < f.phase.active {
        RemoveActive(f, c, d);
      } else {
        RemoveBehind(f, c, d);
      }
    }
  }

  lemma RemoveDuringKeepsInv(f: Feed, c: Case)
    requires Inv(f) && c in f.removing && f.phase.Sending? && f.phase.active > 1
    ensures Find(f.sendCases, c) > 0 && Inv(RemoveDuring(f, c))
  {
    RemoverFindsCase(f, c);
    RemoveDuringBalanced(f, c);
    RemoveKeepsAccounts(f, c);
  }

  lemma RemoveIdleKeepsInv(f: Feed, c: Case)
    requires Inv(f) && c in f.removing && f.phase.Idle?
    ensures Find(f.sendCases, c) > 0 && Inv(RemoveIdle(f, c))
  {
    RemoverFindsCase(f, c);
    RemoveKeepsAccounts(f, c);
  }

  lemma BeginSendKeepsInv(f: Feed)
    requires Inv(f) && f.phase.Idle?
    ensures Inv(BeginSend(f))
  {
    var cs, g := f.sendCases + f.inbox, BeginSend(f);
    assert cs[1..] == f.sendCases[1..] + f.inbox;
    assert cs[1..|cs|] == cs[1..] && cs[|cs|..] == [];
    forall d: Case
      ensures CaseAccounted([], cs, f.live, f.removing, d) && CaseBalanced(g, d)
    {
      assert CaseAccounted(f.inbox, f.sendCases, f.live, f.removing, d);
      CountConcat(f.sendCases[1..], f.inbox, d);
      CountIsMultiset(cs[1..], d);
    }
  }

  lemma BeginSendStart(f: Feed)
    requires f.sendCases != []
    ensures BeginSend(f).phase.start == multiset(f.sendCases[1..]) + multiset(f.inbox)
  {
    assert (f.sendCases + f.inbox)[1..] == f.sendCases[1..] + f.inbox;
  }

  lemma DeliverBalanced(f: Feed, i: nat)
    requires f.sendCases != [] && Balanced(f) && f.phase.Sending? && 0 < i < f.phase.active
    ensures Deliver(f, i).sendCases != [] && Balanced(Deliver(f, i))
  {
    var cs, p, g := f.sendCases, f.phase, Deliver(f, i);
    forall d: Case
      ensures CaseBalanced(g, d)
    {
      assert CaseBalanced(f, d);
      DeactivateActive(cs, p.active, i, d);
      DeactivateBehind(cs, p.active, i, d);
      CountConcat(p.delivered, [cs[i]], d);
      CountOne(cs[i], d);
    }
  }

  lemma DeliverKeepsInv(f: Feed, i: nat)
    requires Inv(f) && f.phase.Sending? && 0 < i < f.phase.active
    ensures Inv(Deliver(f, i))
  {
    var g := Deliver(f, i);
    DeliverBalanced(f, i);
    DeactivateAll(f.sendCases, f.phase.active, i, RemoveSub);
    CountMember(f.sendCases[1..], RemoveSub);
    CountMember(g.sendCases[1..], RemoveSub);
    forall d: Case
      ensures CaseAccounted(f.inbox, g.sendCases, f.live, f.removing, d)
    {
      assert CaseAccounted(f.inbox, f.sendCases, f.live, f.removing, d);
      DeactivateAll(f.sendCases, f.phase.active, i, d);
    }
  }

  lemma EndSendKeepsInv(f: Feed)
    requires Inv(f)
    ensures Inv(EndSend(f))
  {
  }

  lemma NextKeepsInv(f: Feed, e: Event, f': Feed)
    requires Inv(f) && Next(f, e, f')
    ensures Inv(f')
  {
    match e {
      case Subscribed(c) => SubscribeKeepsInv(f, c);
      case Unsubscribed(c) => UnsubscribeKeepsInv(f, c);
      case RemovedIdle(c) => RemoveIdleKeepsInv(f, c);
      case SendBegun => BeginSendKeepsInv(f);
      case Delivered(i) => DeliverKeepsInv(f, i);
      case RemovedDuring(c) => RemoveDuringKeepsInv(f, c);
      case SendEnded => EndSendKeepsInv(f);
    }
  }

  ghost predicate RunStep(run: seq<Feed>, events: seq<Event>, k: nat)
  {
    k < |events| && k + 1 < |run| && Next(run[k], events[k], run[k + 1])
  }

  ghost predicate IsRun(run: seq<Feed>, events: seq<Event>)
  {
    && |run| == |events| + 1 && run[0] == NEW_FEED
    && (forall k: nat {:trigger RunStep(run, events, k)} | k < |events| :: RunStep(run, events, k))
  }

  // In every interleaving of Subscribe, Unsubscribe and Send: the entries are the subscriptions,
  // and a remover that waits for the case list finds its case there.
  lemma {:induction false} RunKeepsInv(run: seq<Feed>, events: seq<Event>, j: nat)
    requires IsRun(run, events) && j < |run|
    ensures Inv(run[j])
    ensures forall c | c in run[j].removing :: Find(run[j].sendCases, c) > 0
    decreases j
  {
    if j == 0 {
      NewFeedInv();
    } else {
      RunKeepsInv(run, events, j - 1);
      assert RunStep(run, events, j - 1);
      NextKeepsInv(run[j - 1], events[j - 1], run[j]);
      forall c | c in run[j].removing
        ensures Find(run[j].sendCases, c) > 0
      {
        RemoverFindsCase(run[j], c);
      }
    }
  }

  // When a send ends, what was subscribed at its start was delivered exactly once or removed
  // before its turn came, with multiplicities.
  lemma SendDeliversOnce(f: Feed)
    requires Inv(f) && f.phase.Sending? && f.phase.active == 1
    ensures f.phase.start == multiset(f.phase.delivered) + f.phase.dropped
    ensures multiset(f.sendCases[1..]) + f.phase.late == multiset(f.phase.delivered)
  {
    var p := f.phase;
    assert f.sendCases[1..1] == [];
    forall c: Case
      ensures p.start[c] == multiset(p.delivered)[c] + p.dropped[c]
      ensures multiset(f.sendCases[1..])[c] + p.late[c] == multiset(p.delivered)[c]
    {
      assert CaseBalanced(f, c);
      CountIsMultiset(p.delivered, c);
      CountIsMultiset(f.sendCases[1..], c);
    }
  }

  // A send makes progress: every delivery and every removal it serves shrinks this measure.
  ghost function SendMeasure(f: Feed): nat
  {
    if f.phase.Sending? then |f.sendCases| + f.phase.active else 0
  }

  lemma SendProgress(f: Feed, e: Event, f': Feed)
    requires Inv(f) && f.phase.Sending? && Next(f, e, f')
    ensures e.Delivered? || e.RemovedDuring? || e.SendEnded? ==> SendMeasure(f') < SendMeasure(f)
    ensures e.Subscribed? || e.Unsubscribed? ==> SendMeasure(f') == SendMeasure(f)
  {
  }

  // ---------------------------------------------------------------- the books of a run

  // How often c was subscribed, and cancelled, in the first j steps.
  ghost function Subscriptions(events: seq<Event>, c: Case, j: nat): nat
    requires j <= |events|
  {
    if j == 0 then 0 else Subscriptions(events, c, j - 1) + if events[j - 1] == Subscribed(c) then 1 else 0
  }

  ghost function Cancellations(events: seq<Event>, c: Case, j: nat): nat
    requires j <= |events|
  {
    if j == 0 then 0 else Cancellations(events, c, j - 1) + if events[j - 1] == Unsubscribed(c) then 1 else 0
  }

  // The step takes an entry of c out of the feed: it is cancelled while still in the inbox, or its
  // removal is served.
  predicate Departs(f: Feed, e: Event, c: Case)
  {
    (e == Unsubscribed(c) && c in f.inbox) || e == RemovedIdle(c) || e == RemovedDuring(c)
  }

  ghost function Departures(run: seq<Feed>, events: seq<Event>, c: Case, j: nat): nat
    requires j <= |events| && j <= |run|
  {
    if j == 0 then 0 else Departures(run, events, c, j - 1) + if Departs(run[j - 1], events[j - 1], c) then 1 else 0
  }

  // Taking one x out of a multiset that has it, and putting one in.
  lemma Less(m: multiset<Case>, x: Case, c: Case)
    requires x in m
    ensures (m - multiset{x})[c] + One(x, c) == m[c]
  {
  }

  lemma More(m: multiset<Case>, x: Case, c: Case)
    ensures (m + multiset{x})[c] == m[c] + One(x, c)
  {
  }

  // The books before and after a step.
  ghost predicate Booked(f: Feed, e: Event, f': Feed, c: Case)
  {
    && f'.live[c] + (if e == Unsubscribed(c) then 1 else 0) == f.live[c] + (if e == Subscribed(c) then 1 else 0)
    && f'.removing[c] + (if Departs(f, e, c) then 1 else 0) == f.removing[c] + (if e == Unsubscribed(c) then 1 else 0)
  }

  lemma UnsubscribedBooked(f: Feed, x: Case, c: Case)
    requires x in f.live
    ensures Booked(f, Unsubscribed(x), Unsubscribe(f, x), c)
  {
    Less(f.live, x, c);
    More(f.removing, x, c);
    assert Find(f.inbox, x) >= 0 <==> x in f.inbox;
  }

  lemma RemovedBooked(f: Feed, e: Event, f': Feed, c: Case)
    requires (e.RemovedIdle? || e.RemovedDuring?) && e.c in f.removing
    requires f'.live == f.live && f'.removing == f.removing - multiset{e.c}
    ensures Booked(f, e, f', c)
  {
    Less(f.removing, e.c, c);
  }

  lemma StepCounts(f: Feed, e: Event, f': Feed, c: Case)
    requires Next(f, e, f')
    ensures Booked(f, e, f', c)
  {
    match e {
      case Subscribed(x) => More(f.live, x, c);
      case Unsubscribed(x) => UnsubscribedBooked(f, x, c);
      case RemovedIdle(x) => RemovedBooked(f, e, f', c);
      case RemovedDuring(x) => RemovedBooked(f, e, f', c);
      case _ =>
    }
  }

  // Over every run the books balance, case by case: what is live was subscribed and not cancelled,
  // what waits for removal was cancelled and has not left; hence the entries in inbox and case list
  // together are the subscriptions made less those that have left.
  lemma {:induction false} RunCounts(run: seq<Feed>, events: seq<Event>, c: Case, j: nat)
    requires IsRun(run, events) && j < |run|
    ensures run[j].live[c] + Cancellations(events, c, j) == Subscriptions(events, c, j)
    ensures run[j].removing[c] + Departures(run, events, c, j) == Cancellations(events, c, j)
    decreases j
  {
    if j == 0 {
    } else {
      RunCounts(run, events, c, j - 1);
      assert RunStep(run, events, j - 1);
      StepCounts(run[j - 1], events[j - 1], run[j], c);
    }
  }

  lemma EntriesAreSubscriptions(run: seq<Feed>, events: seq<Event>, c: Case, j: nat)
    requires IsRun(run, events) && j < |run|
    ensures run[j].sendCases != []
    ensures Count(run[j].inbox, c) + Count(run[j].sendCases[1..], c) + Departures(run, events, c, j)
         == Subscriptions(events, c, j)
  {
    RunCounts(run, events, c, j);
    RunKeepsInv(run, events, j);
    assert CaseAccounted(run[j].inbox, run[j].sendCases, run[j].live, run[j].removing, c);
  }

  // Removals served in the steps from b on.
  ghost function Served(events: seq<Event>, c: Case, b: nat, j: nat): nat
    requires b <= j <= |events|
  {
    if j == b then 0 else Served(events, c, b, j - 1) + if events[j - 1] == RemovedDuring(c) then 1 else 0
  }

  lemma StepServes(f: Feed, e: Event, f': Feed, c: Case)
    requires Next(f, e, f') && f.phase.Sending? && !e.SendEnded?
    ensures f'.phase.Sending?
    ensures f'.phase.dropped[c] + f'.phase.late[c]
         == f.phase.dropped[c] + f.phase.late[c] + if e == RemovedDuring(c) then 1 else 0
  {
  }

  // What a send dropped is what was removed while it ran: begun at step b and still running at j, it
  // has dropped, before or after delivery, exactly the removals served meanwhile.
  lemma {:induction false} DroppedWereRemoved(run: seq<Feed>, events: seq<Event>, c: Case, b: nat, j: nat)
    requires IsRun(run, events) && b < j < |run| && events[b].SendBegun?
    requires forall i | b < i < j :: !events[i].SendEnded?
    ensures run[j].phase.Sending? && run[j].phase.dropped[c] + run[j].phase.late[c] == Served(events, c, b, j)
    decreases j
  {
    assert RunStep(run, events, j - 1);
    if j == b + 1 {
    } else {
      DroppedWereRemoved(run, events, c, b, j - 1);
      StepServes(run[j - 1], events[j - 1], run[j], c);
    }
  }
}
