/** What the lists of a request do, element by element: every element before the first one
    that the handler cannot carry out takes effect, in the tables of server and bridge alike,
    and nothing else changes.  All conditions speak of the tables before the request. */
module Effects {
  import opened Sequences
  import opened Protocol

  // ------------------------------------------------------------------ login

  /** A login: every client before the first lost connection loses its login flag and keeps the
      rest, every other client keeps everything, and the new client enters, with its name and
      nothing else, exactly if no connection is lost and it is not known. */
  lemma {:induction false} LoginEffect(s: State, h: Handle, user: string, lost: set<Handle>)
    ensures var s' := Login(s, h, user, lost);
            && (forall k | k in s.clients ::
                  && k in s'.clients && s'.clients[k] == s.clients[k].(login := s'.clients[k].login)
                  && (s'.clients[k].login <==> s.clients[k].login && exists l | l in lost && l in s.clients :: l <= k))
            && (h !in s.clients ==> (h in s'.clients <==> lost !! s.clients.Keys))
            && (h !in s.clients && h in s'.clients ==> s'.clients[h] == Client(user, map[], {}, false, true))
            && (forall k | k in s'.clients :: k == h || k in s.clients)
  {
    forall k | k in s.clients { LoginKicks(s, h, user, lost, k); }
    LostIff(s, lost);
  }

  lemma {:induction false} LoginKicks(s: State, h: Handle, user: string, lost: set<Handle>, k: Handle)
    requires k in s.clients
    ensures k in Login(s, h, user, lost).clients
    ensures Login(s, h, user, lost).clients[k].login <==> s.clients[k].login && exists l | l in lost && l in s.clients :: l <= k
  {
    LostUpTo(s, lost, k);
  }

  lemma {:induction false} LostUpTo(s: State, lost: set<Handle>, k: Handle)
    ensures (exists l | l in lost && l in s.clients :: l <= k) <==> !forall l | l in LostClients(s, lost) :: k < l
  {
    if l :| l in lost && l in s.clients && l <= k { assert l in LostClients(s, lost); }
    if l :| l in LostClients(s, lost) && l <= k { assert l in lost && l in s.clients; }
  }

  lemma {:induction false} LostIff(s: State, lost: set<Handle>)
    ensures LostClients(s, lost) == {} <==> lost !! s.clients.Keys
  {
    if l :| l in lost && l in s.clients.Keys { assert l in LostClients(s, lost); }
  }

  // --------------------------------------------------------------- subscribe

  /** The entries of the bridge's table: a failed creation leaves one behind, and the last client
      takes it away. */
  lemma {:induction false} BridgeEntries(s: State, c: ChannelId, h: Handle, rosOk: bool, d: ChannelId)
    ensures d in BridgeSubscribe(s, c, h, rosOk).st.subscriptions <==> d in s.subscriptions || (d == c && c in s.advertised)
    ensures d in BridgeUnsubscribe(s, c, h).st.subscriptions <==>
            d in s.subscriptions && !(d == c && c in s.advertised && s.subscriptions[c] == {h})
  {
  }

  /** The element asks for a channel that exists, under an id the client does not use. */
  predicate Asks(s: State, h: Handle, item: SubItem) {
    item.SubItem? && item.subId !in SubsOf(s, h).Values && item.chan in s.channels
  }

  /** The channels that the first `n` elements ask for, with their subscription ids. */
  function Asked(s: State, h: Handle, items: seq<SubItem>, n: nat): map<ChannelId, SubscriptionId>
    requires n <= |items|
  {
    if n == 0 then map[]
    else
      var before := Asked(s, h, items, n - 1);
      if Asks(s, h, items[n - 1]) then before[items[n - 1].chan := items[n - 1].subId] else before
  }

  /** The element makes the handler throw, if it comes to it. */
  predicate SubFails(s: State, h: Handle, items: seq<SubItem>, i: nat)
    requires i < |items|
  {
    || items[i].MalformedSub?
    || (&& Asks(s, h, items[i])
        && (|| items[i].chan !in s.advertised || BridgeSub(s, items[i].chan, h) || !items[i].rosOk
            || items[i].chan in Asked(s, h, items, i)))
  }

  /** The client has the channels in `more`, too, the bridge knows it, and no other pair has changed. */
  ghost predicate Gained(s: State, h: Handle, more: map<ChannelId, SubscriptionId>, w: State) {
    && w.channels == s.channels && w.advertised == s.advertised
    && (forall k :: SubsOf(w, k) == if k == h then more + SubsOf(s, k) else SubsOf(s, k))
    && (forall c, k :: BridgeSub(w, c, k) <==> BridgeSub(s, c, k) || (k == h && c in more))
  }

  lemma {:induction false} GainedTwice(s: State, h: Handle, a: map<ChannelId, SubscriptionId>, w: State,
                                      b: map<ChannelId, SubscriptionId>, w': State)
    requires Gained(s, h, a, w) && Gained(w, h, b, w')
    ensures Gained(s, h, b + a, w')
  {
    assert b + (a + SubsOf(s, h)) == b + a + SubsOf(s, h);
  }

  lemma {:induction false} SubscribeOneGains(w: State, h: Handle, snap: map<ChannelId, SubscriptionId>, item: SubItem)
    requires h in w.clients && item.SubItem? && item.subId !in snap.Values && item.chan in w.channels
    requires item.chan in w.advertised && !BridgeSub(w, item.chan, h) && item.rosOk
    ensures var r := SubscribeOne(w, h, snap, item); !r.threw && Gained(w, h, map[item.chan := item.subId], r.st)
  {
    var subs, b := SubsOf(w, h), BridgeSubscribe(w, item.chan, h, item.rosOk);
    var more := if item.chan in subs then subs else subs[item.chan := item.subId];
    assert more == map[item.chan := item.subId] + subs;
    RecordedGains(w, h, item.chan, item.subId, b.st, more);
  }

  lemma {:induction false} RecordedGains(w: State, h: Handle, c: ChannelId, id: SubscriptionId, b: State,
                                        more: map<ChannelId, SubscriptionId>)
    requires h in w.clients && b == w.(subscriptions := b.subscriptions) && more == map[c := id] + SubsOf(w, h)
    requires forall d, k :: BridgeSub(b, d, k) <==> BridgeSub(w, d, k) || (d == c && k == h)
    ensures Gained(w, h, map[c := id], WithSubs(b, h, more))
  {
    var w' := WithSubs(b, h, more);
    forall k ensures SubsOf(w', k) == if k == h then map[c := id] + SubsOf(w, k) else SubsOf(w, k) {
      assert SubsOf(b, k) == SubsOf(w, k);
    }
    forall d, k ensures BridgeSub(w', d, k) <==> BridgeSub(w, d, k) || (k == h && d in map[c := id]) {
      assert BridgeSub(w', d, k) == BridgeSub(b, d, k);
    }
  }

  lemma {:induction false} SubscribeOneThrows(w: State, h: Handle, snap: map<ChannelId, SubscriptionId>, item: SubItem)
    requires h in w.clients && item.SubItem? && item.subId !in snap.Values && item.chan in w.channels
    requires item.chan !in w.advertised || BridgeSub(w, item.chan, h) || !item.rosOk
    ensures var r := SubscribeOne(w, h, snap, item); r.threw && Gained(w, h, map[], r.st)
  {
    var r := BridgeSubscribe(w, item.chan, h, item.rosOk);
    forall k ensures SubsOf(r.st, k) == if k == h then map[] + SubsOf(w, k) else SubsOf(w, k) {
      assert map[] + SubsOf(w, k) == SubsOf(w, k);
    }
  }

  lemma {:induction false} SubscribeNext(s: State, h: Handle, items: seq<SubItem>, n: nat, w: State)
    requires h in w.clients && n < |items| && Gained(s, h, Asked(s, h, items, n), w)
    ensures var r := SubscribeOne(w, h, SubsOf(s, h), items[n]);
            && r.threw == SubFails(s, h, items, n)
            && Gained(s, h, Asked(s, h, items, if r.threw then n else n + 1), r.st)
  {
    var r, item := SubscribeOne(w, h, SubsOf(s, h), items[n]), items[n];
    if Asks(s, h, item) {
      if item.chan !in w.advertised || BridgeSub(w, item.chan, h) || !item.rosOk {
        SubscribeOneThrows(w, h, SubsOf(s, h), item);
        GainedNothing(s, h, Asked(s, h, items, n), w, r.st);
      } else {
        SubscribeOneGains(w, h, SubsOf(s, h), item);
        GainedMore(s, h, Asked(s, h, items, n), w, item.chan, item.subId, r.st);
      }
    }
  }

  lemma {:induction false} GainedNothing(s: State, h: Handle, a: map<ChannelId, SubscriptionId>, w: State, w': State)
    requires Gained(s, h, a, w) && Gained(w, h, map[], w')
    ensures Gained(s, h, a, w')
  {
    GainedTwice(s, h, a, w, map[], w');
    assert map[] + a == a;
  }

  lemma {:induction false} GainedMore(s: State, h: Handle, a: map<ChannelId, SubscriptionId>, w: State,
                                     c: ChannelId, id: SubscriptionId, w': State)
    requires Gained(s, h, a, w) && Gained(w, h, map[c := id], w') && c !in a
    ensures Gained(s, h, a[c := id], w')
  {
    GainedTwice(s, h, a, w, map[c := id], w');
    assert map[c := id] + a == a[c := id];
  }

  lemma {:induction false} SubscribeSplit(s: State, h: Handle, snap: map<ChannelId, SubscriptionId>, items: seq<SubItem>, n: nat)
    requires h in s.clients && n <= |items|
    ensures var r := SubscribeAll(s, h, snap, items[..n]);
            SubscribeAll(s, h, snap, items) == if r.threw then r else SubscribeAll(r.st, h, snap, items[n..])
    decreases n
  {
    if n == 0 {
      assert items[..0] == [] && items[0..] == items;
    } else {
      var r := SubscribeOne(s, h, snap, items[0]);
      assert items[..n][0] == items[0] && items[..n][1..] == items[1..][..n - 1] && items[1..][n - 1..] == items[n..];
      if !r.threw { SubscribeSplit(r.st, h, snap, items[1..], n - 1); }
    }
  }

  lemma {:induction false} SubscribeLast(s: State, h: Handle, snap: map<ChannelId, SubscriptionId>, items: seq<SubItem>, n: nat)
    requires h in s.clients && n < |items|
    ensures var r := SubscribeAll(s, h, snap, items[..n]);
            SubscribeAll(s, h, snap, items[..n + 1]) == if r.threw then r else SubscribeOne(r.st, h, snap, items[n])
  {
    SubscribeSplit(s, h, snap, items[..n + 1], n);
    assert items[..n + 1][..n] == items[..n] && items[..n + 1][n..] == [items[n]];
    assert [items[n]][1..] == [];
  }

  /** The first `n` elements, taken alone, do not throw and do what they ask for. */
  ghost predicate SubscribedUpTo(s: State, h: Handle, items: seq<SubItem>, n: nat)
    requires h in s.clients && n <= |items|
  {
    var r := SubscribeAll(s, h, SubsOf(s, h), items[..n]);
    !r.threw && Gained(s, h, Asked(s, h, items, n), r.st)
  }

  lemma {:induction false} SubscribedOneMore(s: State, h: Handle, items: seq<SubItem>, n: nat)
    requires h in s.clients && n < |items|
    requires SubscribedUpTo(s, h, items, n)
    ensures var r := SubscribeAll(s, h, SubsOf(s, h), items[..n + 1]);
            r.threw == SubFails(s, h, items, n) && Gained(s, h, Asked(s, h, items, if r.threw then n else n + 1), r.st)
  {
    SubscribeLast(s, h, SubsOf(s, h), items, n);
    SubscribeNext(s, h, items, n, SubscribeAll(s, h, SubsOf(s, h), items[..n]).st);
  }

  lemma {:induction false} SubscribedGoesOn(s: State, h: Handle, items: seq<SubItem>, n: nat)
    requires h in s.clients && n < |items| && !SubFails(s, h, items, n)
    requires SubscribedUpTo(s, h, items, n)
    ensures SubscribedUpTo(s, h, items, n + 1)
  {
    SubscribedOneMore(s, h, items, n);
  }

  lemma {:induction false} SubscribedNone(s: State, h: Handle, items: seq<SubItem>)
    requires h in s.clients
    ensures SubscribedUpTo(s, h, items, 0)
  {
    NothingGained(s, h);
    assert items[..0] == [];
  }

  predicate NoSubFailure(s: State, h: Handle, items: seq<SubItem>, n: nat)
    requires n <= |items|
  {
    n > 0 ==> NoSubFailure(s, h, items, n - 1) && !SubFails(s, h, items, n - 1)
  }

  lemma {:induction false} SubscribedSoFar(s: State, h: Handle, items: seq<SubItem>, n: nat)
    requires h in s.clients && n <= |items| && NoSubFailure(s, h, items, n)
    ensures SubscribedUpTo(s, h, items, n)
  {
    if n == 0 {
      SubscribedNone(s, h, items);
    } else {
      SubscribedSoFar(s, h, items, n - 1);
      SubscribedGoesOn(s, h, items, n - 1);
    }
  }

  lemma {:induction false} NothingGained(s: State, h: Handle)
    ensures Gained(s, h, map[], s)
  {
    assert map[] + SubsOf(s, h) == SubsOf(s, h);
  }

  /** A subscribe request: it throws exactly if some element fails, and exactly the elements
      before the first such element take effect, each under its subscription id. */
  lemma {:induction false} SubscribeEffect(s: State, h: Handle, items: seq<SubItem>) returns (n: nat)
    requires h in s.clients
    ensures n <= |items| && (forall i | 0 <= i < n :: !SubFails(s, h, items, i)) && (n < |items| ==> SubFails(s, h, items, n))
    ensures var r := HandleSubscribe(s, h, items);
            (r.threw <==> n < |items|) && SubsFrame(s, r.st) && Gained(s, h, Asked(s, h, items, n), r.st)
  {
    n := FirstSubFailure(s, h, items);
    SubscribedSoFar(s, h, items, n);
    if n < |items| {
      SubscribeStops(s, h, items, n);
    } else {
      assert items[..n] == items;
    }
  }

  lemma {:induction false} SubscribeStops(s: State, h: Handle, items: seq<SubItem>, n: nat)
    requires h in s.clients && n < |items| && SubFails(s, h, items, n)
    requires SubscribedUpTo(s, h, items, n)
    ensures var r := SubscribeAll(s, h, SubsOf(s, h), items); r.threw && Gained(s, h, Asked(s, h, items, n), r.st)
  {
    SubscribedOneMore(s, h, items, n);
    SubscribeSplit(s, h, SubsOf(s, h), items, n + 1);
  }

  lemma {:induction false} FirstSubFailure(s: State, h: Handle, items: seq<SubItem>) returns (n: nat)
    ensures n <= |items| && (forall i | 0 <= i < n :: !SubFails(s, h, items, i)) && (n < |items| ==> SubFails(s, h, items, n))
    ensures NoSubFailure(s, h, items, n)
  {
    n := 0;
    while n < |items| && !SubFails(s, h, items, n)
      invariant n <= |items| && NoSubFailure(s, h, items, n) && forall i | 0 <= i < n :: !SubFails(s, h, items, i)
    {
      n := n + 1;
    }
  }

  /** What the elements ask for, said without the tables of the handler. */
  lemma {:induction false} AskedIff(s: State, h: Handle, items: seq<SubItem>, n: nat, c: ChannelId)
    requires n <= |items| && forall i | 0 <= i < n :: !SubFails(s, h, items, i)
    ensures c in Asked(s, h, items, n) <==> exists i :: 0 <= i < n && Asks(s, h, items[i]) && items[i].chan == c
    ensures forall i | 0 <= i < n && Asks(s, h, items[i]) && items[i].chan == c :: c in Asked(s, h, items, n) && Asked(s, h, items, n)[c] == items[i].subId
  {
    if n > 0 {
      AskedIff(s, h, items, n - 1, c);
      if Asks(s, h, items[n - 1]) && items[n - 1].chan == c { assert !SubFails(s, h, items, n - 1); }
    }
  }

  // ------------------------------------------------------------- unsubscribe

  predicate Names(s: State, h: Handle, item: UnsubItem) {
    item.UnsubItem? && item.subId in SubsOf(s, h).Values
  }

  /** The channels that the client's own table gives for the ids of the first `n` elements. */
  function Named(s: State, h: Handle, items: seq<UnsubItem>, find: Finder, n: nat): set<ChannelId>
    requires n <= |items|
  {
    if n == 0 then {}
    else
      var before := Named(s, h, items, find, n - 1);
      if Names(s, h, items[n - 1]) then before + {find(SubsOf(s, h), items[n - 1].subId)} else before
  }

  predicate UnsubFails(s: State, h: Handle, items: seq<UnsubItem>, find: Finder, i: nat)
    requires i < |items|
  {
    || items[i].MalformedUnsub?
    || (&& Names(s, h, items[i])
        && var c := find(SubsOf(s, h), items[i].subId);
           c !in s.advertised || !BridgeSub(s, c, h) || c in Named(s, h, items, find, i))
  }

  /** The client has lost the channels in `less`, the bridge knows it, and no other pair has changed. */
  ghost predicate Lost(s: State, h: Handle, less: set<ChannelId>, w: State) {
    && w.channels == s.channels && w.advertised == s.advertised
    && (forall k :: SubsOf(w, k) == if k == h then SubsOf(s, k) - less else SubsOf(s, k))
    && (forall c, k :: BridgeSub(w, c, k) <==> BridgeSub(s, c, k) && !(k == h && c in less))
  }

  lemma {:induction false} LostTwice(s: State, h: Handle, a: set<ChannelId>, w: State, b: set<ChannelId>, w': State)
    requires Lost(s, h, a, w) && Lost(w, h, b, w')
    ensures Lost(s, h, a + b, w')
  {
    assert SubsOf(s, h) - a - b == SubsOf(s, h) - (a + b);
  }

  lemma {:induction false} NothingLost(s: State, h: Handle)
    ensures Lost(s, h, {}, s)
  {
    assert SubsOf(s, h) - {} == SubsOf(s, h);
  }

  lemma {:induction false} UnsubscribeOneLoses(w: State, h: Handle, snap: map<ChannelId, SubscriptionId>, item: UnsubItem, find: Finder)
    requires h in w.clients && item.UnsubItem? && item.subId in snap.Values
    ensures var r, c := UnsubscribeOne(w, h, snap, item, find), find(snap, item.subId);
            && r.threw == (c !in w.advertised || !BridgeSub(w, c, h))
            && (r.threw ==> r.st == w)
            && (!r.threw ==> Lost(w, h, {c}, r.st))
  {
    var c := find(snap, item.subId);
    var b := BridgeUnsubscribe(w, c, h);
    if !b.threw { ErasedLoses(w, h, c, b.st); }
  }

  lemma {:induction false} ErasedLoses(w: State, h: Handle, c: ChannelId, b: State)
    requires h in w.clients && b == w.(subscriptions := b.subscriptions)
    requires forall d, k :: BridgeSub(b, d, k) <==> BridgeSub(w, d, k) && (d != c || k != h)
    ensures Lost(w, h, {c}, WithSubs(b, h, SubsOf(w, h) - {c}))
  {
    var w' := WithSubs(b, h, SubsOf(w, h) - {c});
    forall k ensures SubsOf(w', k) == if k == h then SubsOf(w, k) - {c} else SubsOf(w, k) {
      assert SubsOf(b, k) == SubsOf(w, k);
    }
    forall d, k ensures BridgeSub(w', d, k) <==> BridgeSub(w, d, k) && !(k == h && d in {c}) {
      assert BridgeSub(w', d, k) == BridgeSub(b, d, k);
    }
  }

  lemma {:induction false} UnsubscribeNext(s: State, h: Handle, items: seq<UnsubItem>, find: Finder, n: nat, w: State)
    requires h in w.clients && n < |items| && Lost(s, h, Named(s, h, items, find, n), w)
    ensures var r := UnsubscribeOne(w, h, SubsOf(s, h), items[n], find);
            && r.threw == UnsubFails(s, h, items, find, n)
            && Lost(s, h, Named(s, h, items, find, if r.threw then n else n + 1), r.st)
  {
    if Names(s, h, items[n]) {
      var r, c := UnsubscribeOne(w, h, SubsOf(s, h), items[n], find), find(SubsOf(s, h), items[n].subId);
      UnsubscribeOneLoses(w, h, SubsOf(s, h), items[n], find);
      if !r.threw { LostTwice(s, h, Named(s, h, items, find, n), w, {c}, r.st); }
    }
  }

  lemma {:induction false} UnsubscribeSplit(s: State, h: Handle, snap: map<ChannelId, SubscriptionId>, items: seq<UnsubItem>,
                                            find: Finder, n: nat)
    requires h in s.clients && n <= |items|
    ensures var r := UnsubscribeAll(s, h, snap, items[..n], find);
            UnsubscribeAll(s, h, snap, items, find) == if r.threw then r else UnsubscribeAll(r.st, h, snap, items[n..], find)
    decreases n
  {
    if n == 0 {
      assert items[..0] == [] && items[0..] == items;
    } else {
      var r := UnsubscribeOne(s, h, snap, items[0], find);
      assert items[..n][0] == items[0] && items[..n][1..] == items[1..][..n - 1] && items[1..][n - 1..] == items[n..];
      if !r.threw { UnsubscribeSplit(r.st, h, snap, items[1..], find, n - 1); }
    }
  }

  lemma {:induction false} UnsubscribeLast(s: State, h: Handle, snap: map<ChannelId, SubscriptionId>, items: seq<UnsubItem>,
                                           find: Finder, n: nat)
    requires h in s.clients && n < |items|
    ensures var r := UnsubscribeAll(s, h, snap, items[..n], find);
            UnsubscribeAll(s, h, snap, items[..n + 1], find) ==
            if r.threw then r else UnsubscribeOne(r.st, h, snap, items[n], find)
  {
    UnsubscribeSplit(s, h, snap, items[..n + 1], find, n);
    assert items[..n + 1][..n] == items[..n] && items[..n + 1][n..] == [items[n]];
    assert [items[n]][1..] == [];
  }

  ghost predicate UnsubscribedUpTo(s: State, h: Handle, items: seq<UnsubItem>, find: Finder, n: nat)
    requires h in s.clients && n <= |items|
  {
    var r := UnsubscribeAll(s, h, SubsOf(s, h), items[..n], find);
    !r.threw && Lost(s, h, Named(s, h, items, find, n), r.st)
  }

  lemma {:induction false} UnsubscribedOneMore(s: State, h: Handle, items: seq<UnsubItem>, find: Finder, n: nat)
    requires h in s.clients && n < |items|
    requires UnsubscribedUpTo(s, h, items, find, n)
    ensures var r := UnsubscribeAll(s, h, SubsOf(s, h), items[..n + 1], find);
            && r.threw == UnsubFails(s, h, items, find, n)
            && Lost(s, h, Named(s, h, items, find, if r.threw then n else n + 1), r.st)
  {
    UnsubscribeLast(s, h, SubsOf(s, h), items, find, n);
    UnsubscribeNext(s, h, items, find, n, UnsubscribeAll(s, h, SubsOf(s, h), items[..n], find).st);
  }

  lemma {:induction false} UnsubscribedGoesOn(s: State, h: Handle, items: seq<UnsubItem>, find: Finder, n: nat)
    requires h in s.clients && n < |items| && !UnsubFails(s, h, items, find, n)
    requires UnsubscribedUpTo(s, h, items, find, n)
    ensures UnsubscribedUpTo(s, h, items, find, n + 1)
  {
    UnsubscribedOneMore(s, h, items, find, n);
  }

  lemma {:induction false} UnsubscribedNone(s: State, h: Handle, items: seq<UnsubItem>, find: Finder)
    requires h in s.clients
    ensures UnsubscribedUpTo(s, h, items, find, 0)
  {
    NothingLost(s, h);
    assert items[..0] == [];
  }

  lemma {:induction false} UnsubscribedSoFar(s: State, h: Handle, items: seq<UnsubItem>, find: Finder, n: nat)
    requires h in s.clients && n <= |items| && forall i | 0 <= i < n :: !UnsubFails(s, h, items, find, i)
    ensures UnsubscribedUpTo(s, h, items, find, n)
  {
    if n == 0 {
      UnsubscribedNone(s, h, items, find);
    } else {
      UnsubscribedSoFar(s, h, items, find, n - 1);
      UnsubscribedGoesOn(s, h, items, find, n - 1);
    }
  }

  lemma {:induction false} UnsubscribeStops(s: State, h: Handle, items: seq<UnsubItem>, find: Finder, n: nat)
    requires h in s.clients && n < |items| && UnsubFails(s, h, items, find, n)
    requires UnsubscribedUpTo(s, h, items, find, n)
    ensures var r := UnsubscribeAll(s, h, SubsOf(s, h), items, find);
            r.threw && Lost(s, h, Named(s, h, items, find, n), r.st)
  {
    UnsubscribedOneMore(s, h, items, find, n);
    UnsubscribeSplit(s, h, SubsOf(s, h), items, find, n + 1);
  }

  lemma {:induction false} FirstUnsubFailure(s: State, h: Handle, items: seq<UnsubItem>, find: Finder) returns (n: nat)
    ensures n <= |items| && (forall i | 0 <= i < n :: !UnsubFails(s, h, items, find, i))
    ensures n < |items| ==> UnsubFails(s, h, items, find, n)
  {
    n := 0;
    while n < |items| && !UnsubFails(s, h, items, find, n)
      invariant n <= |items| && forall i | 0 <= i < n :: !UnsubFails(s, h, items, find, i)
    {
      n := n + 1;
    }
  }

  /** An unsubscribe request: it throws exactly if some element fails, and server and bridge
      lose exactly the channels that the client's table gives for the ids before that
      element; every other client keeps its pairs. */
  lemma {:induction false} UnsubscribeEffect(s: State, h: Handle, items: seq<UnsubItem>, find: Finder) returns (n: nat)
    requires h in s.clients
    ensures n <= |items| && (forall i | 0 <= i < n :: !UnsubFails(s, h, items, find, i))
    ensures n < |items| ==> UnsubFails(s, h, items, find, n)
    ensures var r := HandleUnsubscribe(s, h, items, find);
            (r.threw <==> n < |items|) && SubsFrame(s, r.st) && Lost(s, h, Named(s, h, items, find, n), r.st)
  {
    n := FirstUnsubFailure(s, h, items, find);
    UnsubscribedSoFar(s, h, items, find, n);
    if n < |items| {
      UnsubscribeStops(s, h, items, find, n);
    } else {
      assert items[..n] == items;
    }
  }

  predicate OneChannelPerId(s: State, h: Handle) {
    forall c, d | c in SubsOf(s, h) && d in SubsOf(s, h) && SubsOf(s, h)[c] == SubsOf(s, h)[d] :: c == d
  }

  /** The channels named: each is held under one of the listed ids, and each listed id that the
      client uses names one; with one channel per id these are all channels held under a listed id. */
  lemma {:induction false} NamedIff(s: State, h: Handle, items: seq<UnsubItem>, find: Finder, n: nat)
    requires n <= |items| && FindsEntries(find)
    ensures forall c | c in Named(s, h, items, find, n) :: c in SubsOf(s, h) && UnsubItem(SubsOf(s, h)[c]) in items[..n]
    ensures forall id | UnsubItem(id) in items[..n] && id in SubsOf(s, h).Values ::
              exists c :: c in Named(s, h, items, find, n) && c in SubsOf(s, h) && SubsOf(s, h)[c] == id
    ensures OneChannelPerId(s, h) ==>
              forall c :: c in Named(s, h, items, find, n) <==> c in SubsOf(s, h) && UnsubItem(SubsOf(s, h)[c]) in items[..n]
  {
    if n > 0 {
      NamedIff(s, h, items, find, n - 1);
      assert items[..n] == items[..n - 1] + [items[n - 1]];
    }
  }

  // --------------------------------------------------------------- advertise

  predicate Offers(s: State, h: Handle, item: AdItem) {
    item.AdItem? && item.whitelisted && item.id !in ServerAds(s, h)
  }

  /** The ids that the first `n` elements add. */
  function Offered(s: State, h: Handle, items: seq<AdItem>, n: nat): set<ClientChannelId>
    requires n <= |items|
  {
    if n == 0 then {}
    else
      var before := Offered(s, h, items, n - 1);
      if Offers(s, h, items[n - 1]) then before + {items[n - 1].id} else before
  }

  /** A repeated id fails inside the client's first list and is skipped in a later one. */
  predicate AdFails(s: State, h: Handle, items: seq<AdItem>, i: nat)
    requires i < |items|
  {
    || items[i].MalformedAd?
    || (&& Offers(s, h, items[i])
        && if items[i].id in Offered(s, h, items, i) then h !in s.clientChannels
           else items[i].id in BridgeAds(s, h) || !items[i].rosOk)
  }

  ghost predicate AdsGainedAt(s: State, h: Handle, more: set<ClientChannelId>, w: State, k: Handle) {
    var more' := if k == h then more else {};
    && ServerAds(w, k) == ServerAds(s, k) + more'
    && AdsOf(w, k) == AdsOf(s, k) + more'
    && BridgeAds(w, k) == BridgeAds(s, k) + more'
  }

  /** All three tables have `more` for the client, too, and nothing else for anybody. */
  ghost predicate AdsGained(s: State, h: Handle, more: set<ClientChannelId>, w: State) {
    forall k :: AdsGainedAt(s, h, more, w, k)
  }

  lemma {:induction false} AdsGainedTwice(s: State, h: Handle, a: set<ClientChannelId>, w: State,
                                        b: set<ClientChannelId>, w': State)
    requires AdsGained(s, h, a, w) && AdsGained(w, h, b, w')
    ensures AdsGained(s, h, a + b, w')
  {
    forall k ensures AdsGainedAt(s, h, a + b, w', k) {
      assert AdsGainedAt(s, h, a, w, k) && AdsGainedAt(w, h, b, w', k);
      AdsGainedAtTwice(s, h, a, w, b, w', k);
    }
  }

  lemma {:induction false} AdsGainedAtTwice(s: State, h: Handle, a: set<ClientChannelId>, w: State,
                                          b: set<ClientChannelId>, w': State, k: Handle)
    requires AdsGainedAt(s, h, a, w, k) && AdsGainedAt(w, h, b, w', k)
    ensures AdsGainedAt(s, h, a + b, w', k)
  {
  }

  lemma {:induction false} NoGainedAds(s: State, h: Handle, s0: State)
    requires forall k :: ServerAds(s0, k) == ServerAds(s, k) && AdsOf(s0, k) == AdsOf(s, k) && BridgeAds(s0, k) == BridgeAds(s, k)
    ensures AdsGained(s, h, {}, s0)
  {
    forall k ensures AdsGainedAt(s, h, {}, s0, k) {
      assert ServerAds(s0, k) == ServerAds(s, k);
    }
  }

  lemma {:induction false} AdvertiseOneGains(w: State, h: Handle, first: bool, item: AdItem)
    requires h in w.clients && item.AdItem? && item.whitelisted && (first || item.id !in ServerAds(w, h))
    ensures var r := AdvertiseOne(w, h, first, item);
            && r.threw == (item.id in BridgeAds(w, h) || !item.rosOk)
            && AdsGained(w, h, if r.threw then {} else {item.id}, r.st)
  {
    var r := AdvertiseOne(w, h, first, item);
    var more := if r.threw then {} else {item.id};
    forall k ensures AdsGainedAt(w, h, more, r.st, k) {
      AdvertiseOneGainsAt(w, h, first, item, k);
    }
  }

  lemma {:induction false} AdvertiseOneGainsAt(w: State, h: Handle, first: bool, item: AdItem, k: Handle)
    requires h in w.clients && item.AdItem? && item.whitelisted && (first || item.id !in ServerAds(w, h))
    ensures var r := AdvertiseOne(w, h, first, item);
            AdsGainedAt(w, h, if r.threw then {} else {item.id}, r.st, k)
  {
    var b := BridgeAdvertise(w, h, item.id, item.rosOk);
    if !b.threw { StoredGainsAt(w, h, item.id, b.st, k); }
  }

  lemma {:induction false} StoredGainsAt(w: State, h: Handle, id: ClientChannelId, b: State, k: Handle)
    requires h in w.clients && b == w.(clientAdvertised := b.clientAdvertised)
    requires BridgeAds(b, k) == if k == h then BridgeAds(w, k) + {id} else BridgeAds(w, k)
    ensures AdsGainedAt(w, h, {id}, WithAds(b, h, AdsOf(w, h) + {id}, ServerAds(w, h) + {id}), k)
  {
    assert AdsOf(b, k) == AdsOf(w, k) && ServerAds(b, k) == ServerAds(w, k);
  }

  lemma {:induction false} AdvertiseNext(s: State, h: Handle, items: seq<AdItem>, n: nat, w: State)
    requires h in w.clients && n < |items| && AdsGained(s, h, Offered(s, h, items, n), w)
    ensures var r := AdvertiseOne(w, h, h !in s.clientChannels, items[n]);
            && r.threw == AdFails(s, h, items, n)
            && AdsGained(s, h, Offered(s, h, items, if r.threw then n else n + 1), r.st)
  {
    assert AdsGainedAt(s, h, Offered(s, h, items, n), w, h);
    var first, item := h !in s.clientChannels, items[n];
    var r, a := AdvertiseOne(w, h, first, item), Offered(s, h, items, n);
    if Offers(s, h, item) && (first || item.id !in ServerAds(w, h)) {
      AdvertiseOneGains(w, h, first, item);
      AdsGainedTwice(s, h, a, w, if r.threw then {} else {item.id}, r.st);
      assert a + {} == a;
    } else if Offers(s, h, item) {
      assert a + {item.id} == a;
    }
  }

  lemma {:induction false} AdvertiseSplit(s: State, h: Handle, first: bool, items: seq<AdItem>, n: nat)
    requires n <= |items|
    ensures var r := AdvertiseAll(s, h, first, items[..n]);
            AdvertiseAll(s, h, first, items) == if r.threw then r else AdvertiseAll(r.st, h, first, items[n..])
    decreases n
  {
    if n == 0 {
      assert items[..0] == [] && items[0..] == items;
    } else {
      var r := AdvertiseOne(s, h, first, items[0]);
      assert items[..n][0] == items[0] && items[..n][1..] == items[1..][..n - 1] && items[1..][n - 1..] == items[n..];
      if !r.threw { AdvertiseSplit(r.st, h, first, items[1..], n - 1); }
    }
  }

  lemma {:induction false} AdvertiseLast(s: State, h: Handle, first: bool, items: seq<AdItem>, n: nat)
    requires n < |items|
    ensures var r := AdvertiseAll(s, h, first, items[..n]);
            AdvertiseAll(s, h, first, items[..n + 1]) == if r.threw then r else AdvertiseOne(r.st, h, first, items[n])
  {
    AdvertiseSplit(s, h, first, items[..n + 1], n);
    assert items[..n + 1][..n] == items[..n] && items[..n + 1][n..] == [items[n]];
    assert [items[n]][1..] == [];
  }

  /** `s0` is `s` with the table for the client that the handler creates. */
  lemma {:induction false} AdvertisedOneMore(s: State, s0: State, h: Handle, items: seq<AdItem>, n: nat)
    requires h in s0.clients && n < |items|
    requires var r := AdvertiseAll(s0, h, h !in s.clientChannels, items[..n]);
             !r.threw && AdsGained(s, h, Offered(s, h, items, n), r.st)
    ensures var r := AdvertiseAll(s0, h, h !in s.clientChannels, items[..n + 1]);
            && r.threw == AdFails(s, h, items, n)
            && AdsGained(s, h, Offered(s, h, items, if r.threw then n else n + 1), r.st)
  {
    AdvertiseLast(s0, h, h !in s.clientChannels, items, n);
    AdvertiseNext(s, h, items, n, AdvertiseAll(s0, h, h !in s.clientChannels, items[..n]).st);
  }

  lemma {:induction false} AdvertisedNone(s: State, s0: State, h: Handle, items: seq<AdItem>)
    requires AdsGained(s, h, {}, s0)
    ensures var r := AdvertiseAll(s0, h, h !in s.clientChannels, items[..0]);
            !r.threw && AdsGained(s, h, Offered(s, h, items, 0), r.st)
  {
    assert items[..0] == [];
  }

  lemma {:induction false} AdvertisedSoFar(s: State, s0: State, h: Handle, items: seq<AdItem>, n: nat)
    requires h in s0.clients && AdsGained(s, h, {}, s0)
    requires n <= |items| && forall i | 0 <= i < n :: !AdFails(s, h, items, i)
    ensures var r := AdvertiseAll(s0, h, h !in s.clientChannels, items[..n]);
            !r.threw && AdsGained(s, h, Offered(s, h, items, n), r.st)
  {
    if n == 0 {
      AdvertisedNone(s, s0, h, items);
    } else {
      AdvertisedSoFar(s, s0, h, items, n - 1);
      AdvertisedOneMore(s, s0, h, items, n - 1);
    }
  }

  lemma {:induction false} AdvertiseStops(s: State, s0: State, h: Handle, items: seq<AdItem>, n: nat)
    requires h in s0.clients && n < |items| && AdFails(s, h, items, n)
    requires var r := AdvertiseAll(s0, h, h !in s.clientChannels, items[..n]);
             !r.threw && AdsGained(s, h, Offered(s, h, items, n), r.st)
    ensures var r := AdvertiseAll(s0, h, h !in s.clientChannels, items);
            r.threw && AdsGained(s, h, Offered(s, h, items, n), r.st)
  {
    AdvertisedOneMore(s, s0, h, items, n);
    AdvertiseSplit(s0, h, h !in s.clientChannels, items, n + 1);
  }

  lemma {:induction false} FirstAdFailure(s: State, h: Handle, items: seq<AdItem>) returns (n: nat)
    ensures n <= |items| && (forall i | 0 <= i < n :: !AdFails(s, h, items, i)) && (n < |items| ==> AdFails(s, h, items, n))
  {
    n := 0;
    while n < |items| && !AdFails(s, h, items, n)
      invariant n <= |items| && forall i | 0 <= i < n :: !AdFails(s, h, items, i)
    {
      n := n + 1;
    }
  }

  /** An advertise request of a client: it throws exactly if some element fails, and exactly
      the ids offered before that element enter all three tables. */
  lemma {:induction false} AdvertiseEffect(s: State, h: Handle, items: seq<AdItem>) returns (n: nat)
    requires h in s.clients
    ensures n <= |items| && (forall i | 0 <= i < n :: !AdFails(s, h, items, i)) && (n < |items| ==> AdFails(s, h, items, n))
    ensures var r := HandleAdvertise(s, h, items);
            (r.threw <==> n < |items|) && AdsFrame(s, r.st) && AdsGained(s, h, Offered(s, h, items, n), r.st)
  {
    n := FirstAdFailure(s, h, items);
    var s0 := if h !in s.clientChannels then s.(clientChannels := s.clientChannels[h := {}]) else s;
    NoGainedAds(s, h, s0);
    AdvertisedSoFar(s, s0, h, items, n);
    if n < |items| {
      AdvertiseStops(s, s0, h, items, n);
    } else {
      assert items[..n] == items;
    }
  }

  lemma {:induction false} OfferedIff(s: State, h: Handle, items: seq<AdItem>, n: nat, id: ClientChannelId)
    requires n <= |items|
    ensures id in Offered(s, h, items, n) <==> exists i :: 0 <= i < n && Offers(s, h, items[i]) && items[i].id == id
  {
    if n > 0 { OfferedIff(s, h, items, n - 1, id); }
  }

  // ------------------------------------------------------------- unadvertise

  /** The ids of the first `n` elements that the server holds for the client. */
  function Withdrawn(s: State, h: Handle, items: seq<UnadItem>, n: nat): set<ClientChannelId>
    requires n <= |items|
  {
    if n == 0 then {}
    else
      var before := Withdrawn(s, h, items, n - 1);
      if items[n - 1].UnadItem? && items[n - 1].id in ServerAds(s, h) then before + {items[n - 1].id} else before
  }

  predicate UnadFails(s: State, h: Handle, items: seq<UnadItem>, i: nat)
    requires i < |items|
  {
    || items[i].MalformedUnad?
    || (items[i].id in ServerAds(s, h) && items[i].id !in Withdrawn(s, h, items, i) && items[i].id !in BridgeAds(s, h))
  }

  ghost predicate AdsLostAt(s: State, h: Handle, less: set<ClientChannelId>, w: State, k: Handle) {
    var less' := if k == h then less else {};
    && ServerAds(w, k) == ServerAds(s, k) - less'
    && AdsOf(w, k) == AdsOf(s, k) - less'
    && BridgeAds(w, k) == BridgeAds(s, k) - less'
  }

  /** All three tables have lost `less` for the client, and nothing else for anybody. */
  ghost predicate AdsLost(s: State, h: Handle, less: set<ClientChannelId>, w: State) {
    forall k :: AdsLostAt(s, h, less, w, k)
  }

  lemma {:induction false} AdsLostTwice(s: State, h: Handle, a: set<ClientChannelId>, w: State,
                                        b: set<ClientChannelId>, w': State)
    requires AdsLost(s, h, a, w) && AdsLost(w, h, b, w')
    ensures AdsLost(s, h, a + b, w')
  {
    forall k ensures AdsLostAt(s, h, a + b, w', k) {
      assert AdsLostAt(s, h, a, w, k) && AdsLostAt(w, h, b, w', k);
      AdsLostAtTwice(s, h, a, w, b, w', k);
    }
  }

  lemma {:induction false} AdsLostAtTwice(s: State, h: Handle, a: set<ClientChannelId>, w: State,
                                          b: set<ClientChannelId>, w': State, k: Handle)
    requires AdsLostAt(s, h, a, w, k) && AdsLostAt(w, h, b, w', k)
    ensures AdsLostAt(s, h, a + b, w', k)
  {
  }

  lemma {:induction false} NoLostAds(s: State, h: Handle, s0: State)
    requires forall k :: ServerAds(s0, k) == ServerAds(s, k) && AdsOf(s0, k) == AdsOf(s, k) && BridgeAds(s0, k) == BridgeAds(s, k)
    ensures AdsLost(s, h, {}, s0)
  {
    forall k ensures AdsLostAt(s, h, {}, s0, k) {
      assert ServerAds(s0, k) == ServerAds(s, k);
    }
  }

  lemma {:induction false} UnadvertiseOneLoses(w: State, h: Handle, item: UnadItem)
    requires h in w.clients && item.UnadItem? && item.id in ServerAds(w, h)
    ensures var r := UnadvertiseOne(w, h, item);
            && r.threw == (item.id !in BridgeAds(w, h))
            && (r.threw ==> r.st == w)
            && (!r.threw ==> AdsLost(w, h, {item.id}, r.st))
  {
    var r := UnadvertiseOne(w, h, item);
    if !r.threw {
      forall k ensures AdsLostAt(w, h, {item.id}, r.st, k) { }
    }
  }

  lemma {:induction false} UnadvertiseNext(s: State, h: Handle, items: seq<UnadItem>, n: nat, w: State)
    requires h in w.clients && n < |items| && AdsLost(s, h, Withdrawn(s, h, items, n), w)
    ensures var r := UnadvertiseOne(w, h, items[n]);
            && r.threw == UnadFails(s, h, items, n)
            && AdsLost(s, h, Withdrawn(s, h, items, if r.threw then n else n + 1), r.st)
  {
    assert AdsLostAt(s, h, Withdrawn(s, h, items, n), w, h);
    var a, item, r := Withdrawn(s, h, items, n), items[n], UnadvertiseOne(w, h, items[n]);
    if item.UnadItem? && item.id in ServerAds(w, h) {
      UnadvertiseOneLoses(w, h, item);
      if !r.threw { AdsLostTwice(s, h, a, w, {item.id}, r.st); }
    } else if item.UnadItem? && item.id in ServerAds(s, h) {
      assert a + {item.id} == a;
    }
  }

  lemma {:induction false} UnadvertiseSplit(s: State, h: Handle, items: seq<UnadItem>, n: nat)
    requires n <= |items|
    ensures var r := UnadvertiseAll(s, h, items[..n]);
            UnadvertiseAll(s, h, items) == if r.threw then r else UnadvertiseAll(r.st, h, items[n..])
    decreases n
  {
    if n == 0 {
      assert items[..0] == [] && items[0..] == items;
    } else {
      var r := UnadvertiseOne(s, h, items[0]);
      assert items[..n][0] == items[0] && items[..n][1..] == items[1..][..n - 1] && items[1..][n - 1..] == items[n..];
      if !r.threw { UnadvertiseSplit(r.st, h, items[1..], n - 1); }
    }
  }

  lemma {:induction false} UnadvertisedOneMore(s: State, h: Handle, items: seq<UnadItem>, n: nat)
    requires h in s.clients && n < |items|
    requires var r := UnadvertiseAll(s, h, items[..n]); !r.threw && AdsLost(s, h, Withdrawn(s, h, items, n), r.st)
    ensures var r := UnadvertiseAll(s, h, items[..n + 1]);
            r.threw == UnadFails(s, h, items, n) && AdsLost(s, h, Withdrawn(s, h, items, if r.threw then n else n + 1), r.st)
  {
    UnadvertiseLast(s, h, items, n);
    UnadvertiseNext(s, h, items, n, UnadvertiseAll(s, h, items[..n]).st);
  }

  lemma {:induction false} UnadvertiseLast(s: State, h: Handle, items: seq<UnadItem>, n: nat)
    requires n < |items|
    ensures var r := UnadvertiseAll(s, h, items[..n]);
            UnadvertiseAll(s, h, items[..n + 1]) == if r.threw then r else UnadvertiseOne(r.st, h, items[n])
  {
    UnadvertiseSplit(s, h, items[..n + 1], n);
    assert items[..n + 1][..n] == items[..n] && items[..n + 1][n..] == [items[n]];
    assert [items[n]][1..] == [];
  }

  lemma {:induction false} UnadvertisedSoFar(s: State, h: Handle, items: seq<UnadItem>, n: nat)
    requires h in s.clients && n <= |items| && forall i | 0 <= i < n :: !UnadFails(s, h, items, i)
    ensures var r := UnadvertiseAll(s, h, items[..n]); !r.threw && AdsLost(s, h, Withdrawn(s, h, items, n), r.st)
  {
    if n == 0 {
      NoLostAds(s, h, s);
      assert items[..0] == [];
    } else {
      UnadvertisedSoFar(s, h, items, n - 1);
      UnadvertisedOneMore(s, h, items, n - 1);
    }
  }

  lemma {:induction false} UnadvertiseStops(s: State, h: Handle, items: seq<UnadItem>, n: nat)
    requires h in s.clients && n < |items| && UnadFails(s, h, items, n)
    requires var r := UnadvertiseAll(s, h, items[..n]); !r.threw && AdsLost(s, h, Withdrawn(s, h, items, n), r.st)
    ensures var r := UnadvertiseAll(s, h, items); r.threw && AdsLost(s, h, Withdrawn(s, h, items, n), r.st)
  {
    UnadvertisedOneMore(s, h, items, n);
    UnadvertiseSplit(s, h, items, n + 1);
  }

  lemma {:induction false} FirstUnadFailure(s: State, h: Handle, items: seq<UnadItem>) returns (n: nat)
    ensures n <= |items| && (forall i | 0 <= i < n :: !UnadFails(s, h, items, i)) && (n < |items| ==> UnadFails(s, h, items, n))
  {
    n := 0;
    while n < |items| && !UnadFails(s, h, items, n)
      invariant n <= |items| && forall i | 0 <= i < n :: !UnadFails(s, h, items, i)
    {
      n := n + 1;
    }
  }

  /** An unadvertise request of a client that has advertised: it throws exactly if some element
      fails, and exactly the listed ids before that element leave all three tables. */
  lemma {:induction false} UnadvertiseEffect(s: State, h: Handle, items: seq<UnadItem>) returns (n: nat)
    requires h in s.clients && h in s.clientChannels
    ensures n <= |items| && (forall i | 0 <= i < n :: !UnadFails(s, h, items, i)) && (n < |items| ==> UnadFails(s, h, items, n))
    ensures var r := HandleUnadvertise(s, h, items);
            (r.threw <==> n < |items|) && AdsFrame(s, r.st) && AdsLost(s, h, Withdrawn(s, h, items, n), r.st)
  {
    n := FirstUnadFailure(s, h, items);
    UnadvertisedSoFar(s, h, items, n);
    if n < |items| {
      UnadvertiseStops(s, h, items, n);
    } else {
      assert items[..n] == items;
    }
  }

  lemma {:induction false} WithdrawnIff(s: State, h: Handle, items: seq<UnadItem>, n: nat, id: ClientChannelId)
    requires n <= |items|
    ensures id in Withdrawn(s, h, items, n) <==> id in ServerAds(s, h) && UnadItem(id) in items[..n]
  {
    if n > 0 {
      WithdrawnIff(s, h, items, n - 1, id);
      assert items[..n] == items[..n - 1] + [items[n - 1]];
    }
  }

  // -------------------------------------------------------------- parameters

  predicate Holds(s: State, k: Handle, p: string) { k in s.params && p in s.params[k] }

  lemma {:induction false} HeldIff(s: State, p: string)
    ensures p in HeldParams(s.params) <==> exists k :: Holds(s, k, p)
  {
    if p in HeldParams(s.params) {
      var k :| k in s.params && p in s.params[k];
      assert Holds(s, k, p);
    }
  }

  lemma {:induction false} HeldByOthers(s: State, s0: State, h: Handle, p: string)
    requires forall k | k != h :: Holds(s0, k, p) == Holds(s, k, p)
    ensures (exists k :: k != h && Holds(s, k, p)) <==> exists k :: k != h && Holds(s0, k, p)
  {
    if k :| k != h && Holds(s, k, p) { assert Holds(s0, k, p); }
  }

  /** One call that names the parameters, or none if there are none. */
  ghost predicate Calls(s: State, s': State, call: ParamCall) {
    s'.paramCalls == s.paramCalls + if call.names == {} then [] else [call]
  }

  /** Asking for parameters: the client holds them, too, nobody else's set changes, and the
      bridge is asked for exactly those that nobody held. */
  lemma {:induction false} SubscribeParamsEffect(s: State, h: Handle, names: set<string>) returns (unheld: set<string>)
    ensures var s' := SubscribeParams(s, h, names);
            && (forall k, p :: Holds(s', k, p) <==> Holds(s, k, p) || (k == h && p in names))
            && (forall p :: p in unheld <==> p in names && forall k :: !Holds(s, k, p))
            && Calls(s, s', Subscribe(unheld))
  {
    unheld := names - HeldParams(s.params);
    forall p ensures p in unheld <==> p in names && forall k :: !Holds(s, k, p) { HeldIff(s, p); }
  }

  /** Giving parameters back: the client no longer holds them, nobody else's set changes, and
      the bridge is released from exactly those that nobody else holds. */
  lemma {:induction false} UnsubscribeParamsEffect(s: State, h: Handle, names: set<string>) returns (dropped: set<string>)
    ensures var s' := UnsubscribeParams(s, h, names);
            && (forall k, p :: Holds(s', k, p) <==> Holds(s, k, p) && !(k == h && p in names))
            && (forall p :: p in dropped <==> p in names && forall k | k != h :: !Holds(s, k, p))
            && Calls(s, s', Unsubscribe(dropped))
  {
    var mine := if h in s.params then s.params[h] else {};
    var s0 := s.(params := s.params[h := mine - names]);
    dropped := names - HeldParams(s0.params);
    forall p ensures p in dropped <==> p in names && forall k | k != h :: !Holds(s, k, p) {
      HeldIff(s0, p);
      HeldByOthers(s, s0, h, p);
    }
  }

  // ------------------------------------------------------------------- close

  /** A closed connection: the client is gone, everybody else keeps everything, the bridge loses
      the client's own live subscriptions and its advertisements, and is released from exactly
      the parameters that only this client held. */
  lemma {:induction false} CloseEffect(s: State, h: Handle) returns (dropped: set<string>)
    requires h in s.clients
    ensures var s' := Close(s, h);
            && s'.clients == s.clients - {h} && s'.channels == s.channels && s'.advertised == s.advertised
            && (forall c, k :: BridgeSub(s', c, k) <==> BridgeSub(s, c, k) && !(k == h && c in SubsOf(s, h) && c in s.advertised))
            && (forall k :: ServerAds(s', k) == if k == h then {} else ServerAds(s, k))
            && (forall k :: BridgeAds(s', k) == if k == h then BridgeAds(s, k) - AdsOf(s, h) else BridgeAds(s, k))
            && (forall k, p :: Holds(s', k, p) <==> Holds(s, k, p) && k != h)
            && (forall p :: p in dropped <==> Holds(s, h, p) && forall k | k != h :: !Holds(s, k, p))
            && Calls(s, s', Unsubscribe(dropped))
  {
    dropped := CloseDrops(s, h);
    var s' := Close(s, h);
    forall c, k ensures BridgeSub(s', c, k) <==> BridgeSub(s, c, k) && !(k == h && c in SubsOf(s, h) && c in s.advertised) {
    }
  }

  lemma {:induction false} CloseDrops(s: State, h: Handle) returns (dropped: set<string>)
    requires h in s.clients
    ensures forall p :: p in dropped <==> Holds(s, h, p) && forall k | k != h :: !Holds(s, k, p)
    ensures Calls(s, Close(s, h), Unsubscribe(dropped))
  {
    var mine := if h in s.params then s.params[h] else {};
    var s0 := s.(params := s.params - {h});
    dropped := mine - HeldParams(s0.params);
    forall p ensures p in dropped <==> Holds(s, h, p) && forall k | k != h :: !Holds(s, k, p) {
      HeldIff(s0, p);
      HeldByOthers(s, s0, h, p);
    }
  }

  // ---------------------------------------------------------- topic updates

  /** The schema that a channel gets: the flattened text of its type, or none if there is no definition. */
  predicate SchemaOf(ch: Channel, lookup: string -> Lookup) {
    match lookup(ch.schemaName)
    case Found(text) => ch.schema == text
    case Missing => ch.schema == ""
    case Rejected => false
  }

  /** An update takes exactly the departed channels from every client and from the bridge. */
  lemma {:induction false} UpdateTakes(s: State, latest: seq<TopicAndType>, lookup: string -> Lookup)
    ensures var s', gone := UpdateTopics(s, latest, lookup), Departed(s.advertised, latest);
            && (forall h :: SubsOf(s', h) == SubsOf(s, h) - gone)
            && (forall c, h :: BridgeSub(s', c, h) <==> BridgeSub(s, c, h) && c !in gone)
  {
    var s', gone := UpdateTopics(s, latest, lookup), Departed(s.advertised, latest);
    forall h ensures SubsOf(s', h) == SubsOf(s, h) - gone { }
    assert s'.subscriptions == s.subscriptions - gone;
  }

  lemma {:induction false} NewSchemas(wanted: seq<TopicAndType>, lookup: string -> Lookup)
    requires forall p | p in wanted :: !lookup(p.1).Rejected?
    ensures forall i | 0 <= i < |wanted| :: SchemaOf(NewChannels(wanted, lookup)[i], lookup)
  {
    forall i | 0 <= i < |wanted| ensures SchemaOf(NewChannels(wanted, lookup)[i], lookup) { assert wanted[i] in wanted; }
  }

  lemma {:induction false} UpdatedTables(s: State, latest: seq<TopicAndType>, lookup: string -> Lookup)
    ensures var s', gone := UpdateTopics(s, latest, lookup), Departed(s.advertised, latest);
            var added := Number(s.nextId, NewChannels(Wanted(Pairs(s.advertised - gone), latest, lookup), lookup));
            s'.advertised == s.advertised - gone + added && s'.channels == s.channels - gone + added
  {
  }

  lemma {:induction false} NumberedAt(kept: map<ChannelId, Channel>, next: nat, chans: seq<Channel>, id: ChannelId)
    requires (forall k | k in kept :: k <= next) && id > next
    ensures id in kept + Number(next, chans) <==> id <= next + |chans|
    ensures id in kept + Number(next, chans) ==> (kept + Number(next, chans))[id] == chans[id - next - 1]
  {
  }

  /** Every channel that an update adds has, in both tables, the schema of its type. */
  lemma {:induction false} UpdateSchemas(s: State, latest: seq<TopicAndType>, lookup: string -> Lookup, id: ChannelId)
    requires (forall k | k in s.advertised || k in s.channels :: k <= s.nextId) && id > s.nextId
    requires id in UpdateTopics(s, latest, lookup).advertised
    ensures var s' := UpdateTopics(s, latest, lookup);
            SchemaOf(s'.advertised[id], lookup) && id in s'.channels && s'.channels[id] == s'.advertised[id]
  {
    var gone := Departed(s.advertised, latest);
    var wanted := Wanted(Pairs(s.advertised - gone), latest, lookup);
    UpdatedTables(s, latest, lookup);
    NumberedAt(s.advertised - gone, s.nextId, NewChannels(wanted, lookup), id);
    NumberedAt(s.channels - gone, s.nextId, NewChannels(wanted, lookup), id);
    NewSchemas(wanted, lookup);
  }
}
