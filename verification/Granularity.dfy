/** The two readings of the protocol agree: a handler or an update whose lock
    regions run without interruption does what Protocol.dfy says it does in one
    piece.  And the two exceptions of Interleaving.dfy are real. */
module Granularity {
  import opened Sequences
  import opened Protocol
  import opened Interleaving

  function WorkOn(s: Sys, n: nat): Sys
    decreases n
  {
    if n == 0 then s else WorkOn(Do(s, Work), n - 1)
  }

  /** The six regions of an update, one after the other. */
  lemma {:induction false} UpdateAlone(s: Sys, latest: seq<TopicAndType>, lookup: string -> Lookup)
    requires s.poll.Resting?
    ensures Polled(Polled(Polled(Polled(Polled(BeginPoll(s, latest, lookup)))))).st == UpdateTopics(s.st, latest, lookup)
    ensures Polled(Polled(Polled(Polled(Polled(BeginPoll(s, latest, lookup)))))).poll.Resting?
  {
    RemovalAlone(s, latest, lookup);
    AdditionAlone(Polled(Polled(BeginPoll(s, latest, lookup))), latest, lookup);
  }

  lemma {:induction false} RemovalAlone(s: Sys, latest: seq<TopicAndType>, lookup: string -> Lookup)
    requires s.poll.Resting?
    ensures var s3 := Polled(Polled(BeginPoll(s, latest, lookup)));
            && s3.poll == Allocating(latest, lookup)
            && s3.st == RemoveChannels(BeginPoll(s, latest, lookup).st, Departed(s.st.advertised, latest))
  {
  }

  lemma {:induction false} AdditionAlone(s: Sys, latest: seq<TopicAndType>, lookup: string -> Lookup)
    requires s.poll == Allocating(latest, lookup)
    ensures var chans := NewChannels(Wanted(Pairs(s.st.advertised), latest, lookup), lookup);
            var added := AddChannels(s.st, chans);
            var s6 := Polled(Polled(Polled(s)));
            s6.poll.Resting? && s6.st == added.(advertised := added.advertised + Number(s.st.nextId, chans))
  {
    var s4 := Allocate(s);
    var s5 := Announce(s4);
    var s6 := Store(s5);
    assert Polled(s) == s4 && Polled(s4) == s5 && Polled(s5) == s6;
  }

  /** `handle_subscribe` from its first element to its end or its exception. */
  lemma {:induction false} SubscribeAlone(s: Sys, h: Handle, snap: map<ChannelId, SubscriptionId>, items: seq<SubItem>)
    returns (n: nat)
    requires s.poll.Resting? && s.worker == SubCheck(h, snap, items) && h in s.st.clients
    ensures WorkOn(s, n) == s.(st := SubscribeAll(s.st, h, snap, items).st, worker := Idle)
    decreases |items|
  {
    if items == [] || items[0].MalformedSub? {
      assert WorkOn(s, 1) == s.(worker := Idle);
      n := 1;
    } else {
      var r := SubscribeOne(s.st, h, snap, items[0]);
      var k := SubscribeOneAlone(s, h, snap, items);
      if r.threw {
        n := k;
      } else {
        var s' := s.(st := r.st, worker := SubCheck(h, snap, items[1..]));
        var m := SubscribeAlone(s', h, snap, items[1..]);
        WorkOnTwice(s, k, m);
        n := k + m;
      }
    }
  }

  lemma {:induction false} SubscribeOneAlone(s: Sys, h: Handle, snap: map<ChannelId, SubscriptionId>, items: seq<SubItem>) returns (k: nat)
    requires s.poll.Resting? && s.worker == SubCheck(h, snap, items) && h in s.st.clients
    requires items != [] && items[0].SubItem?
    ensures var r := SubscribeOne(s.st, h, snap, items[0]);
            WorkOn(s, k) == s.(st := r.st, worker := if r.threw then Idle else SubCheck(h, snap, items[1..]))
  {
    var s1 := Do(s, Work);
    assert WorkOn(s, 1) == s1;
    k := 1;
    if s1.worker.SubCall? {
      var m := SubCallAlone(s1, h, snap, items);
      WorkOnTwice(s, 1, m);
      k := 1 + m;
    }
  }

  lemma {:induction false} SubCallAlone(s: Sys, h: Handle, snap: map<ChannelId, SubscriptionId>, items: seq<SubItem>) returns (k: nat)
    requires s.poll.Resting? && s.worker == SubCall(h, snap, items) && h in s.st.clients
    requires items != [] && items[0].SubItem? && items[0].subId !in snap.Values && items[0].chan in s.st.channels
    ensures var r := SubscribeOne(s.st, h, snap, items[0]);
            WorkOn(s, k) == s.(st := r.st, worker := if r.threw then Idle else SubCheck(h, snap, items[1..]))
  {
    var s2 := Do(s, Work);
    k := 1;
    if s2.worker.SubRecord? {
      var s3 := Do(s2, Work);
      assert s3.late == s2.late;
      assert WorkOn(s2, 1) == s3;
      k := 2;
    }
  }

  lemma {:induction false} WorkOnTwice(s: Sys, k: nat, m: nat)
    ensures WorkOn(WorkOn(s, k), m) == WorkOn(s, k + m)
    decreases k
  {
    if k > 0 { WorkOnTwice(Do(s, Work), k - 1, m); }
  }

  /** `handle_unsubscribe`, likewise. */
  lemma {:induction false} UnsubscribeAlone(s: Sys, h: Handle, snap: map<ChannelId, SubscriptionId>,
                                            items: seq<UnsubItem>, find: Finder) returns (n: nat)
    requires s.poll.Resting? && s.worker == UnsubCall(h, snap, items, find) && h in s.st.clients
    ensures WorkOn(s, n) == s.(st := UnsubscribeAll(s.st, h, snap, items, find).st, worker := Idle)
    decreases |items|
  {
    if items == [] || items[0].MalformedUnsub? {
      assert WorkOn(s, 1) == s.(worker := Idle);
      n := 1;
    } else {
      var r := UnsubscribeOne(s.st, h, snap, items[0], find);
      var k := UnsubscribeOneAlone(s, h, snap, items, find);
      if r.threw {
        n := k;
      } else {
        var s' := s.(st := r.st, worker := UnsubCall(h, snap, items[1..], find));
        var m := UnsubscribeAlone(s', h, snap, items[1..], find);
        WorkOnTwice(s, k, m);
        n := k + m;
      }
    }
  }

  /** The whole requests, from the client's own table on. */
  lemma {:induction false} SubscribeRequestAlone(s: Sys, h: Handle, items: seq<SubItem>) returns (n: nat)
    requires s.poll.Resting? && s.worker.Idle? && h in s.st.clients
    ensures WorkOn(Do(s, StartSubscribe(h, items)), n) == s.(st := HandleSubscribe(s.st, h, items).st)
  {
    n := SubscribeAlone(Do(s, StartSubscribe(h, items)), h, SubsOf(s.st, h), items);
  }

  lemma {:induction false} UnsubscribeRequestAlone(s: Sys, h: Handle, items: seq<UnsubItem>, find: Finder) returns (n: nat)
    requires s.poll.Resting? && s.worker.Idle? && h in s.st.clients
    ensures WorkOn(Do(s, StartUnsubscribe(h, items, find)), n) == s.(st := HandleUnsubscribe(s.st, h, items, find).st)
  {
    n := UnsubscribeAlone(Do(s, StartUnsubscribe(h, items, find)), h, SubsOf(s.st, h), items, find);
  }

  lemma {:induction false} UnsubscribeOneAlone(s: Sys, h: Handle, snap: map<ChannelId, SubscriptionId>, items: seq<UnsubItem>, find: Finder)
    returns (k: nat)
    requires s.poll.Resting? && s.worker == UnsubCall(h, snap, items, find) && h in s.st.clients
    requires items != [] && items[0].UnsubItem?
    ensures var r := UnsubscribeOne(s.st, h, snap, items[0], find);
            WorkOn(s, k) == s.(st := r.st, worker := if r.threw then Idle else UnsubCall(h, snap, items[1..], find))
  {
    var s1 := Do(s, Work);
    if s1.worker.UnsubRecord? {
      var s2 := Do(s1, Work);
      assert WorkOn(s1, 1) == s2;
      k := 2;
    } else {
      assert WorkOn(s, 1) == s1;
      k := 1;
    }
  }

  function ReleaseAll(s: Sys, order: seq<ChannelId>): Sys
    decreases |order|
  {
    if order == [] then s else Do(ReleaseAll(s, order[..|order| - 1]), Release(order[|order| - 1]))
  }

  /** `handle_connection_closed`, releasing the channels in any order. */
  lemma {:induction false} ReleasedSoFar(s: Sys, h: Handle, chans: set<ChannelId>, order: seq<ChannelId>)
    requires s.poll.Resting? && s.worker == Closing(h, chans) && Distinct(order) && (forall c | c in order :: c in chans)
    ensures ReleaseAll(s, order) ==
            s.(st := s.st.(subscriptions := ReleasedSubs(s.st.subscriptions, s.st.advertised.Keys, h, Elements(order))),
               worker := Closing(h, chans - Elements(order)))
    decreases |order|
  {
    var live := s.st.advertised.Keys;
    if order == [] {
      assert ReleasedSubs(s.st.subscriptions, live, h, {}) == s.st.subscriptions;
    } else {
      var last := |order| - 1;
      var c := order[last];
      var pre := Elements(order[..last]);
      assert order == order[..last] + [c];
      assert Elements(order) == pre + {c};
      ReleasedSoFar(s, h, chans, order[..last]);
      ReleaseNext(ReleaseAll(s, order[..last]), s.st.subscriptions, h, chans, pre, c);
    }
  }

  lemma {:induction false} ReleaseNext(w: Sys, table: map<ChannelId, set<Handle>>, h: Handle, chans: set<ChannelId>,
                                       done: set<ChannelId>, c: ChannelId)
    requires w.poll.Resting? && w.worker == Closing(h, chans - done) && c in chans - done
    requires w.st.subscriptions == ReleasedSubs(table, w.st.advertised.Keys, h, done)
    ensures Do(w, Release(c)) ==
            w.(st := w.st.(subscriptions := ReleasedSubs(table, w.st.advertised.Keys, h, done + {c})),
               worker := Closing(h, chans - (done + {c})))
  {
    ReleaseOneMoreSub(w.st, table, h, done, c);
    assert chans - done - {c} == chans - (done + {c});
  }

  lemma {:induction false} CloseAlone(s: Sys, h: Handle, order: seq<ChannelId>)
    requires s.poll.Resting? && s.worker.Idle? && h in s.st.clients && Distinct(order)
    requires forall c :: c in order <==> c in s.st.clients[h].subs
    ensures Do(ReleaseAll(BeginClose(s, h), order), Work) ==
            BeginClose(s, h).(st := Close(s.st, h), worker := Idle)
  {
    var s1 := BeginClose(s, h);
    var chans := s.st.clients[h].subs.Keys;
    assert Elements(order) == chans;
    ReleasedSoFar(s1, h, chans, order);
    assert chans - chans == {};
    var s2 := ReleaseAll(s1, order);
    assert s2.st == Close(s.st, h);
    assert Worked(s2) == s2.(worker := Idle);
  }

  // ------------------------------------------------- the exceptions are real

  ghost predicate Reachable(s: Sys) { exists steps :: Trace(START, steps) == s }

  lemma {:induction false} OneMoreStep(s: Sys, step: Step)
    requires Reachable(s)
    ensures Reachable(Do(s, step))
  {
    var steps :| Trace(START, steps) == s;
    assert (steps + [step])[..|steps|] == steps;
    assert Trace(START, steps + [step]) == Do(s, step);
  }

  /** An update without interruption, from a reachable state. */
  lemma {:induction false} UpdateReached(s: Sys, latest: seq<TopicAndType>, lookup: string -> Lookup) returns (s': Sys)
    requires Reachable(s) && s.poll.Resting?
    ensures Reachable(s') && s'.worker == s.worker && s'.poll.Resting? && s'.st == UpdateTopics(s.st, latest, lookup)
  {
    UpdateAlone(s, latest, lookup);
    PollStarts(s, latest, lookup);
    var s1 := BeginPoll(s, latest, lookup);
    PollGoesOn(s1);
    PollGoesOn(Polled(s1));
    PollGoesOn(Polled(Polled(s1)));
    PollGoesOn(Polled(Polled(Polled(s1))));
    PollGoesOn(Polled(Polled(Polled(Polled(s1)))));
    s' := Polled(Polled(Polled(Polled(Polled(s1)))));
  }

  lemma {:induction false} PollStarts(s: Sys, latest: seq<TopicAndType>, lookup: string -> Lookup)
    requires Reachable(s) && s.poll.Resting?
    ensures Reachable(BeginPoll(s, latest, lookup))
  {
    OneMoreStep(s, StartPoll(latest, lookup));
  }

  lemma {:induction false} PollGoesOn(s: Sys)
    requires Reachable(s)
    ensures Reachable(Polled(s))
  {
    OneMoreStep(s, PollOn);
    assert Do(s, PollOn) == Polled(s);
  }

  lemma {:induction false} WorkGoesOn(s: Sys)
    requires Reachable(s) && WorkerReady(s)
    ensures Reachable(Worked(s))
  {
    OneMoreStep(s, Work);
  }

  const NO_SCHEMA: string -> Lookup := d => Missing

  /** One channel, nobody connected. */
  lemma {:induction false} ChannelReached() returns (s: Sys)
    ensures Reachable(s) && s.worker.Idle? && s.poll.Resting?
    ensures s.st.channels.Keys == {1} && s.st.advertised.Keys == {1} && s.st.nextId == 1
    ensures s.st.clients == map[] && s.st.subscriptions == map[]
  {
    assert Trace(START, []) == START;
    s := UpdateReached(START, [("t", "T")], NO_SCHEMA);
    FirstUpdate([("t", "T")], Wanted({}, [("t", "T")], NO_SCHEMA));
    assert [("t", "T")][..0] == [] && Wanted({}, [], NO_SCHEMA) == [];
  }

  lemma {:induction false} FirstUpdate(latest: seq<TopicAndType>, wanted: seq<TopicAndType>)
    requires wanted == Wanted({}, latest, NO_SCHEMA)
    ensures var st := UpdateTopics(INIT, latest, NO_SCHEMA);
            && st.nextId == |wanted| && st.clients == map[] && st.subscriptions == map[]
            && st.channels == st.advertised
            && (forall id :: id in st.channels <==> 0 < id <= |wanted|)
  {
    assert Departed(INIT.advertised, latest) == {};
    assert Pairs(INIT.advertised - {}) == {};
    var s2 := RemoveChannels(INIT.(advertised := INIT.advertised - {}, subscriptions := INIT.subscriptions - {}), {});
    assert s2.channels == map[] && s2.advertised == map[];
  }

  lemma {:induction false} ClientGreeted() returns (s: Sys)
    ensures Reachable(s) && s.poll.Resting? && s.worker == Greeting(0)
    ensures s.st.channels.Keys == {1} && s.st.advertised.Keys == {1} && s.st.nextId == 1
    ensures s.st.clients.Keys == {0} && s.st.clients[0].subs == map[] && s.st.subscriptions == map[]
    ensures s.view.Keys == {0} && s.view[0] == {} && s.phantoms.Keys == {0} && s.phantoms[0] == {}
  {
    var s0 := ChannelReached();
    ReachableReady(s0);
    OneMoreStep(s0, StartLogin(0, "u", {}));
    assert LostClients(s0.st, {}) == {};
    s := BeginLogin(s0, 0, "u", {});
  }

  lemma {:induction false} ReachableReady(s: Sys)
    requires Reachable(s)
    ensures ReadyInv(s)
  {
    var steps :| Trace(START, steps) == s;
    TraceInv(steps);
  }

  /** From a state with one channel, the client logs in and gets its list copied. */
  lemma {:induction false} ListCopied() returns (s: Sys)
    ensures Reachable(s) && s.poll.Resting? && s.worker == Sending(0, {1})
    ensures s.st.channels.Keys == {1} && s.st.advertised.Keys == {1} && s.st.nextId == 1
    ensures s.st.clients.Keys == {0} && s.st.clients[0].subs == map[] && s.st.subscriptions == map[]
    ensures s.view.Keys == {0} && s.view[0] == {} && s.phantoms.Keys == {0} && s.phantoms[0] == {}
  {
    var s0 := ClientGreeted();
    WorkGoesOn(s0);
    s := Worked(s0);
  }

  /** A second update withdraws the channel after the list was copied and announces
      that before the list goes out: the client is left with a channel that no longer
      exists and that nobody will ever withdraw again. */
  lemma {:induction false} PhantomsOccur() returns (s: Sys)
    ensures Reachable(s) && s.poll.Resting? && s.worker.Idle?
    ensures 0 in s.greeted && s.st.channels == map[] && 0 in s.view && s.view[0] == {1}
  {
    var s0 := PhantomSent();
    NothingToAdd(s0);
    PollGoesOn(s0);
    PollGoesOn(Polled(s0));
    PollGoesOn(Polled(Polled(s0)));
    s := Polled(Polled(Polled(s0)));
  }

  lemma {:induction false} NothingToAdd(s: Sys)
    requires s.poll == Allocating([], NO_SCHEMA)
    ensures Polled(Polled(Polled(s))) == s.(poll := Resting)
  {
    var s1 := Allocate(s);
    assert s1.poll == Announcing(s.st.nextId, []);
    assert s1.st == s.st;
    var s2 := Announce(s1);
    forall h | h in s.view ensures s2.view[h] == s.view[h] { }
    assert s2.view == s.view;
    var s3 := Store(s2);
    assert s3.st == s.st;
  }

  lemma {:induction false} ChannelWithdrawn() returns (s: Sys)
    ensures Reachable(s) && s.poll == Allocating([], NO_SCHEMA) && s.worker == Sending(0, {1}) && WorkerReady(s)
    ensures s.st.channels == map[] && s.view[0] == {}
  {
    var s0 := ChannelErased();
    PollGoesOn(s0);
    s := Withdraw(s0);
  }

  lemma {:induction false} ChannelErased() returns (s: Sys)
    ensures Reachable(s) && s.poll == Withdrawing([], NO_SCHEMA, {1}) && s.worker == Sending(0, {1}) && WorkerReady(s)
    ensures s.st.channels == map[] && s.view[0] == {}
  {
    var s0 := ListCopied();
    PollStarts(s0, [], NO_SCHEMA);
    assert Departed(s0.st.advertised, []) == {1};
    var s1 := BeginPoll(s0, [], NO_SCHEMA);
    PollGoesOn(s1);
    s := EraseChannels(s1);
    assert s.st.channels == map[];
  }

  lemma {:induction false} PhantomSent() returns (s: Sys)
    ensures Reachable(s) && s.poll == Allocating([], NO_SCHEMA) && s.worker.Idle?
    ensures 0 in s.greeted && s.st.channels == map[] && 0 in s.view && s.view[0] == {1}
  {
    var s0 := ChannelWithdrawn();
    WorkGoesOn(s0);
    s := SendChannels(s0);
  }

  /** The bridge accepts a subscription, an update retires the channel, and only then
      the server records the subscription. */
  lemma {:induction false} StaleSubscriptionsOccur() returns (s: Sys)
    ensures Reachable(s) && s.poll.Resting? && s.worker.Idle?
    ensures 1 in SubsOf(s.st, 0) && !BridgeSub(s.st, 1, 0) && 1 !in s.st.channels
  {
    var s0 := ChannelRetired();
    WorkGoesOn(s0);
    var s1 := RecordSub(s0);
    WorkGoesOn(s1);
    s := CheckSub(s1);
  }

  lemma {:induction false} ChannelRetired() returns (s: Sys)
    ensures Reachable(s) && s.poll.Resting? && s.worker == SubRecord(0, map[], [SubItem(5, 1, true)])
    ensures 0 in s.st.clients && 1 !in s.st.subscriptions && 1 !in s.st.channels
  {
    var s0 := SubscriptionAccepted();
    s := UpdateReached(s0, [], NO_SCHEMA);
    assert Departed(s0.st.advertised, []) == {1};
    assert Wanted(Pairs(s0.st.advertised - {1}), [], NO_SCHEMA) == [];
  }

  lemma {:induction false} SubscriptionAccepted() returns (s: Sys)
    ensures Reachable(s) && s.poll.Resting? && s.worker == SubRecord(0, map[], [SubItem(5, 1, true)])
    ensures s.st.channels.Keys == {1} && s.st.advertised.Keys == {1} && s.st.nextId == 1 && s.st.clients.Keys == {0}
  {
    var s0 := SubscriptionChecked();
    WorkGoesOn(s0);
    s := CallSub(s0);
  }

  lemma {:induction false} SubscriptionChecked() returns (s: Sys)
    ensures Reachable(s) && s.poll.Resting? && s.worker == SubCall(0, map[], [SubItem(5, 1, true)])
    ensures s.st.channels.Keys == {1} && s.st.advertised.Keys == {1} && s.st.nextId == 1
    ensures s.st.clients.Keys == {0} && s.st.subscriptions == map[]
  {
    var s0 := ListCopied();
    WorkGoesOn(s0);
    var s1 := SendChannels(s0);
    var items := [SubItem(5, 1, true)];
    OneMoreStep(s1, StartSubscribe(0, items));
    var s2 := s1.(worker := SubCheck(0, map[], items));
    WorkGoesOn(s2);
    s := CheckSub(s2);
  }
}
