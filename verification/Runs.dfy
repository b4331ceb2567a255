/** What every sequence of handler calls and topic updates keeps, each handler
    running to its end (or to its exception) before the next one starts. */
module Runs {
  import opened Sequences
  import opened Protocol

  datatype Event =
    | ELogin(h: Handle, user: string, lost: set<Handle>)
    | ESubscribe(h: Handle, subs: seq<SubItem>)
    | EUnsubscribe(h: Handle, unsubs: seq<UnsubItem>, find: Finder)
    | EAdvertise(h: Handle, ads: seq<AdItem>)
    | EUnadvertise(h: Handle, unads: seq<UnadItem>)
    | ESubscribeParams(h: Handle, names: set<string>)
    | EUnsubscribeParams(h: Handle, names: set<string>)
    | ESubscribeGraph(h: Handle, handlerOk: bool)
    | EUnsubscribeGraph(h: Handle)
    | EClose(h: Handle)
    | EUpdate(latest: seq<TopicAndType>, lookup: string -> Lookup)

  function Apply(s: State, e: Event): State {
    match e
    case ELogin(h, user, lost) => Login(s, h, user, lost)
    case ESubscribe(h, items) => HandleSubscribe(s, h, items).st
    case EUnsubscribe(h, items, find) => HandleUnsubscribe(s, h, items, find).st
    case EAdvertise(h, items) => HandleAdvertise(s, h, items).st
    case EUnadvertise(h, items) => HandleUnadvertise(s, h, items).st
    case ESubscribeParams(h, names) => SubscribeParams(s, h, names)
    case EUnsubscribeParams(h, names) => UnsubscribeParams(s, h, names)
    case ESubscribeGraph(h, ok) => SubscribeGraph(s, h, ok).st
    case EUnsubscribeGraph(h) => UnsubscribeGraph(s, h).st
    case EClose(h) => Close(s, h)
    case EUpdate(latest, lookup) => UpdateTopics(s, latest, lookup)
  }

  function Run(s: State, es: seq<Event>): State
    decreases |es|
  {
    if es == [] then s else Apply(Run(s, es[..|es| - 1]), es[|es| - 1])
  }

  /** A hash set has no duplicates and a table lookup finds an entry it holds. */
  ghost predicate WellFormed(e: Event) {
    match e
    case EUnsubscribe(_, _, find) => FindsEntries(find)
    case EUpdate(latest, _) => Distinct(latest)
    case _ => true
  }

  /** A client logs in before it sends anything else. */
  predicate LoggedIn(s: State, e: Event) {
    e.ELogin? || e.EClose? || e.EUpdate? || e.h in s.clients
  }

  ghost predicate AllWellFormed(es: seq<Event>) {
    forall i | 0 <= i < |es| :: WellFormed(es[i])
  }

  ghost predicate LoginFirst(s: State, es: seq<Event>) {
    forall i | 0 <= i < |es| :: LoggedIn(Run(s, es[..i]), es[i])
  }

  // ----------------------------------------------------------- invariants

  predicate SubAgrees(s: State, c: ChannelId, h: Handle) {
    c in SubsOf(s, h) <==> BridgeSub(s, c, h)
  }

  /** Server and bridge hold the same (channel, client) pairs. */
  ghost predicate SubsAgree(s: State) {
    forall c, h :: SubAgrees(s, c, h)
  }

  predicate AdAgrees(s: State, h: Handle) {
    AdsOf(s, h) == ServerAds(s, h) == BridgeAds(s, h)
  }

  /** The three tables of client advertisements agree. */
  ghost predicate AdsAgree(s: State) {
    forall h :: AdAgrees(s, h)
  }

  /** The channel tables are equal, ids stem from the counter, no topic is
      advertised twice and subscriptions exist only for advertised channels. */
  ghost predicate TablesAgree(s: State) {
    && s.channels == s.advertised
    && s.subscriptions.Keys <= s.advertised.Keys
    && (forall id | id in s.advertised :: 0 < id <= s.nextId)
    && OneIdPerTopic(s.advertised)
  }

  /** The server's advertisement table only holds connected clients. */
  ghost predicate AdsInv(s: State) {
    AdsAgree(s) && s.clientChannels.Keys <= s.clients.Keys
  }

  ghost predicate SubsInv(s: State) {
    SubsAgree(s) && TablesAgree(s)
  }

  lemma {:induction false} KeepAds(s: State, s': State)
    requires AdsInv(s)
    requires s'.clientChannels == s.clientChannels && s'.clientAdvertised == s.clientAdvertised
    requires s.clients.Keys <= s'.clients.Keys
    requires forall h :: AdsOf(s', h) == AdsOf(s, h)
    ensures AdsInv(s')
  {
    forall h ensures AdAgrees(s', h) { assert AdAgrees(s, h); }
  }

  lemma {:induction false} KeepSubs(s: State, s': State)
    requires SubsInv(s)
    requires s'.channels == s.channels && s'.advertised == s.advertised && s'.nextId == s.nextId
    requires s'.subscriptions == s.subscriptions
    requires forall h :: SubsOf(s', h) == SubsOf(s, h)
    ensures SubsInv(s')
  {
    forall c, h ensures SubAgrees(s', c, h) { assert SubAgrees(s, c, h); }
  }

  // ------------------------------------------------------------ one handler

  lemma {:induction false} SubscribeOneSubs(s: State, h: Handle, snap: map<ChannelId, SubscriptionId>, item: SubItem)
    requires h in s.clients && SubsInv(s)
    ensures SubsInv(SubscribeOne(s, h, snap, item).st)
  {
    var s' := SubscribeOne(s, h, snap, item).st;
    forall c, k ensures SubAgrees(s', c, k) { assert SubAgrees(s, c, k); }
  }

  lemma {:induction false} SubscribeAllSubs(s: State, h: Handle, snap: map<ChannelId, SubscriptionId>, items: seq<SubItem>)
    requires h in s.clients && SubsInv(s)
    ensures SubsInv(SubscribeAll(s, h, snap, items).st)
    decreases |items|
  {
    if items != [] {
      SubscribeOneSubs(s, h, snap, items[0]);
      var r := SubscribeOne(s, h, snap, items[0]);
      if !r.threw { SubscribeAllSubs(r.st, h, snap, items[1..]); }
    }
  }

  lemma {:induction false} UnsubscribeOneSubs(s: State, h: Handle, snap: map<ChannelId, SubscriptionId>, item: UnsubItem, find: Finder)
    requires h in s.clients && SubsInv(s)
    ensures SubsInv(UnsubscribeOne(s, h, snap, item, find).st)
  {
    var s' := UnsubscribeOne(s, h, snap, item, find).st;
    forall c, k ensures SubAgrees(s', c, k) { assert SubAgrees(s, c, k); }
  }

  lemma {:induction false} UnsubscribeAllSubs(s: State, h: Handle, snap: map<ChannelId, SubscriptionId>,
                                              items: seq<UnsubItem>, find: Finder)
    requires h in s.clients && SubsInv(s)
    ensures SubsInv(UnsubscribeAll(s, h, snap, items, find).st)
    decreases |items|
  {
    if items != [] {
      UnsubscribeOneSubs(s, h, snap, items[0], find);
      var r := UnsubscribeOne(s, h, snap, items[0], find);
      if !r.threw { UnsubscribeAllSubs(r.st, h, snap, items[1..], find); }
    }
  }

  lemma {:induction false} AdvertiseOneAds(s: State, h: Handle, first: bool, item: AdItem)
    requires h in s.clients && AdsInv(s)
    ensures AdsInv(AdvertiseOne(s, h, first, item).st)
  {
    var s' := AdvertiseOne(s, h, first, item).st;
    forall k ensures AdAgrees(s', k) {
      assert AdAgrees(s, k);
      AdvertiseOneTables(s, h, first, item, k);
    }
  }

  lemma {:induction false} AdvertiseAllAds(s: State, h: Handle, first: bool, items: seq<AdItem>)
    requires h in s.clients && AdsInv(s)
    ensures AdsInv(AdvertiseAll(s, h, first, items).st)
    decreases |items|
  {
    if items != [] {
      AdvertiseOneAds(s, h, first, items[0]);
      var r := AdvertiseOne(s, h, first, items[0]);
      if !r.threw { AdvertiseAllAds(r.st, h, first, items[1..]); }
    }
  }

  lemma {:induction false} UnadvertiseOneAds(s: State, h: Handle, item: UnadItem)
    requires h in s.clients && AdsInv(s)
    ensures AdsInv(UnadvertiseOne(s, h, item).st)
  {
    var s' := UnadvertiseOne(s, h, item).st;
    forall k ensures AdAgrees(s', k) { assert AdAgrees(s, k); }
  }

  lemma {:induction false} UnadvertiseAllAds(s: State, h: Handle, items: seq<UnadItem>)
    requires h in s.clients && AdsInv(s)
    ensures AdsInv(UnadvertiseAll(s, h, items).st)
    decreases |items|
  {
    if items != [] {
      UnadvertiseOneAds(s, h, items[0]);
      var r := UnadvertiseOne(s, h, items[0]);
      if !r.threw { UnadvertiseAllAds(r.st, h, items[1..]); }
    }
  }

  lemma {:induction false} CloseAdsInv(s: State, h: Handle)
    requires h in s.clients && AdsInv(s)
    ensures AdsInv(Close(s, h))
  {
    var s' := Close(s, h);
    forall k ensures AdAgrees(s', k) { assert AdAgrees(s, k) && AdAgrees(s, h); }
  }

  lemma {:induction false} CloseSubsInv(s: State, h: Handle)
    requires h in s.clients && SubsInv(s)
    ensures SubsInv(Close(s, h))
  {
    var s' := Close(s, h);
    forall c, k ensures SubAgrees(s', c, k) { assert SubAgrees(s, c, k); }
  }

  // ---------------------------------------------------------- topic updates

  predicate OneIdPerTopic(chans: map<ChannelId, Channel>) {
    forall i, j | i in chans && j in chans && Pair(chans[i]) == Pair(chans[j]) :: i == j
  }

  /** Adding fresh ids for the wanted topics keeps one id per topic. */
  lemma {:induction false} MergedTopics(kept: map<ChannelId, Channel>, next: nat, latest: seq<TopicAndType>, lookup: string -> Lookup)
    requires OneIdPerTopic(kept) && (forall id | id in kept :: id <= next) && Distinct(latest)
    ensures OneIdPerTopic(kept + Number(next, NewChannels(Wanted(Pairs(kept), latest, lookup), lookup)))
  {
    assert forall k | k in kept :: Pair(kept[k]) in Pairs(kept);
  }

  lemma {:induction false} MergedPair(kept: map<ChannelId, Channel>, next: nat, wanted: seq<TopicAndType>, lookup: string -> Lookup,
                   p: TopicAndType)
    requires forall id | id in kept :: id <= next
    ensures p in Pairs(kept + Number(next, NewChannels(wanted, lookup))) <==> p in Pairs(kept) || p in wanted
  {
    var all := kept + Number(next, NewChannels(wanted, lookup));
    if p in wanted {
      var i :| 0 <= i < |wanted| && wanted[i] == p;
      assert Pair(all[next + 1 + i]) == p;
    }
    if p in Pairs(kept) {
      var id :| id in kept && Pair(kept[id]) == p;
      assert Pair(all[id]) == p;
    }
  }

  lemma {:induction false} KeptPair(chans: map<ChannelId, Channel>, latest: seq<TopicAndType>, p: TopicAndType)
    ensures p in Pairs(chans - Departed(chans, latest)) <==> p in latest && p in Pairs(chans)
  {
    if p in Pairs(chans) && p in latest {
      var id :| id in chans && Pair(chans[id]) == p;
      assert id in chans - Departed(chans, latest);
    }
  }

  lemma {:induction false} UpdateTablesAgree(s: State, latest: seq<TopicAndType>, lookup: string -> Lookup)
    requires TablesAgree(s) && Distinct(latest)
    ensures TablesAgree(UpdateTopics(s, latest, lookup))
  {
    MergedTopics(s.advertised - Departed(s.advertised, latest), s.nextId, latest, lookup);
  }

  lemma {:induction false} UpdateSubsInv(s: State, latest: seq<TopicAndType>, lookup: string -> Lookup)
    requires SubsInv(s) && Distinct(latest)
    ensures SubsInv(UpdateTopics(s, latest, lookup))
  {
    UpdateTablesAgree(s, latest, lookup);
    var s' := UpdateTopics(s, latest, lookup);
    forall c, k ensures SubAgrees(s', c, k) { assert SubAgrees(s, c, k); }
  }

  /** Topic reconciliation: afterwards exactly the visible topics are advertised
      whose lookup was not rejected (or that were advertised already), surviving
      topics keep their ids and channels, new ids lie above every id given out
      before, and no client keeps a subscription to a departed channel. */
  lemma {:induction false} UpdateReconciles(s: State, latest: seq<TopicAndType>, lookup: string -> Lookup)
    requires TablesAgree(s) && Distinct(latest)
    ensures var s' := UpdateTopics(s, latest, lookup);
            && TablesAgree(s')
            && (forall p :: p in Pairs(s'.advertised) <==>
                            p in latest && (p in Pairs(s.advertised) || !lookup(p.1).Rejected?))
            && (forall id | id in s.advertised && Pair(s.advertised[id]) in latest ::
                  id in s'.advertised && s'.advertised[id] == s.advertised[id])
            && (forall id | id in s'.advertised && id !in s.advertised :: s.nextId < id <= s'.nextId)
            && (forall h, c | h in s'.clients && c in s'.clients[h].subs :: c !in Departed(s.advertised, latest))
  {
    UpdateTablesAgree(s, latest, lookup);
    var kept := s.advertised - Departed(s.advertised, latest);
    var wanted := Wanted(Pairs(kept), latest, lookup);
    var s' := UpdateTopics(s, latest, lookup);
    assert s'.advertised == kept + Number(s.nextId, NewChannels(wanted, lookup));
    forall p ensures p in Pairs(s'.advertised) <==> p in latest && (p in Pairs(s.advertised) || !lookup(p.1).Rejected?) {
      MergedPair(kept, s.nextId, wanted, lookup, p);
      KeptPair(s.advertised, latest, p);
    }
  }

  /** With the topics of the ROS graph as they come: advertised afterwards is what the graph lists, is not
      hidden unless hidden topics are included, and is whitelisted, unless its lookup was rejected. */
  lemma {:induction false} UpdateAdvertisesVisible(s: State, topics: map<string, seq<string>>, includeHidden: bool,
                                                  whitelisted: string -> bool, latest: seq<TopicAndType>,
                                                  lookup: string -> Lookup, name: string, datatype': string)
    requires TablesAgree(s) && Distinct(latest)
    requires forall p :: p in latest <==> p in Visible(topics, includeHidden, whitelisted)
    ensures (name, datatype') in Pairs(UpdateTopics(s, latest, lookup).advertised) <==>
            && name in topics && datatype' in topics[name]
            && (includeHidden || (name != "" && !Hidden(name))) && whitelisted(name)
            && ((name, datatype') in Pairs(s.advertised) || !lookup(datatype').Rejected?)
  {
    UpdateReconciles(s, latest, lookup);
    VisibleIff(topics, includeHidden, whitelisted, (name, datatype'));
  }

  /** A topic is hidden by an underscore at the beginning of its name or of a part of it: unless hidden
      topics are included an update leaves none of these advertised. */
  lemma {:induction false} HiddenTopicsStayHidden(s: State, topics: map<string, seq<string>>, whitelisted: string -> bool,
                                                  latest: seq<TopicAndType>, lookup: string -> Lookup,
                                                  a: string, b: string, datatype': string)
    requires TablesAgree(s) && Distinct(latest) && forall p :: p in latest <==> p in Visible(topics, false, whitelisted)
    ensures (a + "/_" + b, datatype') !in Pairs(UpdateTopics(s, latest, lookup).advertised)
    ensures ("_" + b, datatype') !in Pairs(UpdateTopics(s, latest, lookup).advertised)
  {
    HiddenIff(a + "/_" + b);
    HiddenIff("_" + b);
    UpdateAdvertisesVisible(s, topics, false, whitelisted, latest, lookup, a + "/_" + b, datatype');
    UpdateAdvertisesVisible(s, topics, false, whitelisted, latest, lookup, "_" + b, datatype');
  }

  // -------------------------------------------------------------- every run

  lemma {:induction false} StepSubs(s: State, e: Event)
    requires SubsInv(s) && WellFormed(e)
    ensures SubsInv(Apply(s, e))
  {
    match e
    case ESubscribe(h, items) => if h in s.clients { SubscribeAllSubs(s, h, s.clients[h].subs, items); }
    case EUnsubscribe(h, items, find) => if h in s.clients { UnsubscribeAllSubs(s, h, s.clients[h].subs, items, find); }
    case EClose(h) => if h in s.clients { CloseSubsInv(s, h); }
    case EUpdate(latest, lookup) => UpdateSubsInv(s, latest, lookup);
    case _ => QuietSubs(s, e);
  }

  lemma {:induction false} QuietSubs(s: State, e: Event)
    requires SubsInv(s) && !e.ESubscribe? && !e.EUnsubscribe? && !e.EClose? && !e.EUpdate?
    ensures SubsInv(Apply(s, e))
  {
    KeepSubs(s, Apply(s, e));
  }

  lemma {:induction false} AdvertiseAds(s: State, h: Handle, items: seq<AdItem>)
    requires h in s.clients && AdsInv(s)
    ensures AdsInv(HandleAdvertise(s, h, items).st)
  {
    var first := h !in s.clientChannels;
    var s0 := if first then s.(clientChannels := s.clientChannels[h := {}]) else s;
    forall k ensures AdAgrees(s0, k) { assert AdAgrees(s, k); }
    AdvertiseAllAds(s0, h, first, items);
  }

  lemma {:induction false} StepAds(s: State, e: Event)
    requires AdsInv(s) && LoggedIn(s, e)
    ensures AdsInv(Apply(s, e))
  {
    match e
    case EAdvertise(h, items) => AdvertiseAds(s, h, items);
    case EUnadvertise(h, items) => if h in s.clientChannels { UnadvertiseAllAds(s, h, items); }
    case EClose(h) => if h in s.clients { CloseAdsInv(s, h); }
    case _ => QuietAds(s, e);
  }

  lemma {:induction false} QuietAds(s: State, e: Event)
    requires AdsInv(s) && !e.EAdvertise? && !e.EUnadvertise? && !e.EClose?
    ensures AdsInv(Apply(s, e))
  {
    KeepAds(s, Apply(s, e));
  }

  lemma {:induction false} StepParamOwners(s: State, e: Event)
    requires s.params.Keys <= s.clients.Keys && LoggedIn(s, e)
    ensures Apply(s, e).params.Keys <= Apply(s, e).clients.Keys
  {
  }

  /** In every run, whoever has logged in, server and bridge hold the same
      subscriptions and the same channels. */
  lemma {:induction false} SubscriptionsAgree(es: seq<Event>)
    requires AllWellFormed(es)
    ensures SubsAgree(Run(INIT, es)) && TablesAgree(Run(INIT, es))
  {
    if es != [] {
      var last := |es| - 1;
      SubscriptionsAgree(es[..last]);
      StepSubs(Run(INIT, es[..last]), es[last]);
    }
  }

  lemma {:induction false} LoginFirstPrefix(es: seq<Event>)
    requires es != [] && LoginFirst(INIT, es)
    ensures LoginFirst(INIT, es[..|es| - 1]) && LoggedIn(Run(INIT, es[..|es| - 1]), es[|es| - 1])
  {
    var pre := es[..|es| - 1];
    forall i | 0 <= i < |pre| ensures LoggedIn(Run(INIT, pre[..i]), pre[i]) {
      assert pre[..i] == es[..i];
    }
  }

  lemma {:induction false} AdvertisementsAgree(es: seq<Event>)
    requires LoginFirst(INIT, es)
    ensures AdsInv(Run(INIT, es))
    ensures Run(INIT, es).params.Keys <= Run(INIT, es).clients.Keys
  {
    if es != [] {
      var last := |es| - 1;
      LoginFirstPrefix(es);
      AdvertisementsAgree(es[..last]);
      StepAds(Run(INIT, es[..last]), es[last]);
      StepParamOwners(Run(INIT, es[..last]), es[last]);
    }
  }

  /** No subscription, advertisement or parameter table mentions the handle. */
  ghost predicate NoTrace(s: State, h: Handle) {
    && (forall c :: !BridgeSub(s, c, h))
    && h !in s.clientChannels && h !in s.clientAdvertised
    && h !in s.params
  }

  // --------------------------------------- traces in runs without login first

  /** A close that finds its client: any other close returns at once. */
  predicate ClosesAt(es: seq<Event>, h: Handle, i: nat)
    requires i < |es|
  {
    es[i] == EClose(h) && h in Run(INIT, es[..i]).clients
  }

  /** Event `i` makes an entry for the handle, and no close has removed it since. */
  ghost predicate LastsSince(es: seq<Event>, h: Handle, i: nat)
    requires i < |es|
  {
    forall j | i < j < |es| :: !ClosesAt(es, h, j)
  }

  predicate AsksParams(e: Event, h: Handle) { (e.ESubscribeParams? || e.EUnsubscribeParams?) && e.h == h }

  predicate Advertises(e: Event, h: Handle) { e.EAdvertise? && e.h == h }

  ghost predicate ParamsLeft(es: seq<Event>, h: Handle) {
    exists i :: 0 <= i < |es| && AsksParams(es[i], h) && LastsSince(es, h, i)
  }

  ghost predicate AdsLeft(es: seq<Event>, h: Handle) {
    exists i :: 0 <= i < |es| && Advertises(es[i], h) && LastsSince(es, h, i)
  }

  lemma {:induction false} ClosesPrefix(es: seq<Event>, h: Handle, i: nat)
    requires i < |es| - 1
    ensures ClosesAt(es[..|es| - 1], h, i) == ClosesAt(es, h, i)
  {
    assert es[..|es| - 1][..i] == es[..i];
  }

  lemma {:induction false} LastsOneMore(es: seq<Event>, h: Handle, i: nat)
    requires i < |es| - 1
    ensures LastsSince(es, h, i) <==> LastsSince(es[..|es| - 1], h, i) && !ClosesAt(es, h, |es| - 1)
  {
    if LastsSince(es, h, i) {
      LastsBefore(es, h, i);
    } else if LastsSince(es[..|es| - 1], h, i) && !ClosesAt(es, h, |es| - 1) {
      LastsOn(es, h, i);
    }
  }

  lemma {:induction false} LastsBefore(es: seq<Event>, h: Handle, i: nat)
    requires i < |es| - 1 && LastsSince(es, h, i)
    ensures LastsSince(es[..|es| - 1], h, i) && !ClosesAt(es, h, |es| - 1)
  {
    var pre := es[..|es| - 1];
    forall j: nat | i < j < |pre| ensures !ClosesAt(pre, h, j) { ClosesPrefix(es, h, j); }
  }

  lemma {:induction false} LastsOn(es: seq<Event>, h: Handle, i: nat)
    requires i < |es| - 1 && LastsSince(es[..|es| - 1], h, i) && !ClosesAt(es, h, |es| - 1)
    ensures LastsSince(es, h, i)
  {
    forall j: nat | i < j < |es| ensures !ClosesAt(es, h, j) {
      if j < |es| - 1 { ClosesPrefix(es, h, j); }
    }
  }

  lemma {:induction false} ParamsOneMore(es: seq<Event>, h: Handle)
    requires es != []
    ensures ParamsLeft(es, h) <==>
            AsksParams(es[|es| - 1], h) || (ParamsLeft(es[..|es| - 1], h) && !ClosesAt(es, h, |es| - 1))
  {
    var last := |es| - 1;
    var pre := es[..last];
    if AsksParams(es[last], h) { assert LastsSince(es, h, last); }
    if i :| 0 <= i < |pre| && AsksParams(pre[i], h) && LastsSince(pre, h, i) {
      LastsOneMore(es, h, i);
      assert AsksParams(es[i], h);
    }
    if i :| 0 <= i < |es| && AsksParams(es[i], h) && LastsSince(es, h, i) {
      if i < last { LastsOneMore(es, h, i); assert AsksParams(pre[i], h); }
    }
  }

  lemma {:induction false} AdsOneMore(es: seq<Event>, h: Handle)
    requires es != []
    ensures AdsLeft(es, h) <==>
            Advertises(es[|es| - 1], h) || (AdsLeft(es[..|es| - 1], h) && !ClosesAt(es, h, |es| - 1))
  {
    var last := |es| - 1;
    var pre := es[..last];
    if Advertises(es[last], h) { assert LastsSince(es, h, last); }
    if i :| 0 <= i < |pre| && Advertises(pre[i], h) && LastsSince(pre, h, i) {
      LastsOneMore(es, h, i);
      assert Advertises(es[i], h);
    }
    if i :| 0 <= i < |es| && Advertises(es[i], h) && LastsSince(es, h, i) {
      if i < last { LastsOneMore(es, h, i); assert Advertises(pre[i], h); }
    }
  }

  lemma {:induction false} StepTraces(s: State, e: Event, h: Handle)
    ensures h in Apply(s, e).params <==> AsksParams(e, h) || (h in s.params && !(e == EClose(h) && h in s.clients))
    ensures h in Apply(s, e).clientChannels <==>
            Advertises(e, h) || (h in s.clientChannels && !(e == EClose(h) && h in s.clients))
  {
  }

  /** In every run, logged in or not: a handle owns parameters exactly when it asked for some, or gave some
      back, and has not been closed as a client since; likewise it owns a table of client channels exactly
      when it sent an advertisement since.  A close without login removes neither. */
  lemma {:induction false} TracesIff(es: seq<Event>, h: Handle)
    ensures h in Run(INIT, es).params <==> ParamsLeft(es, h)
    ensures h in Run(INIT, es).clientChannels <==> AdsLeft(es, h)
  {
    if es != [] {
      var pre := es[..|es| - 1];
      TracesIff(pre, h);
      StepTraces(Run(INIT, pre), es[|es| - 1], h);
      ParamsOneMore(es, h);
      AdsOneMore(es, h);
    }
  }

  /** And no run leaves a subscription behind. */
  lemma {:induction false} NoSubscriptionLeft(es: seq<Event>, h: Handle, c: ChannelId)
    requires AllWellFormed(es) && h !in Run(INIT, es).clients
    ensures !BridgeSub(Run(INIT, es), c, h)
  {
    SubscriptionsAgree(es);
    assert SubAgrees(Run(INIT, es), c, h);
  }

  /** An id given out before keeps its channel or disappears. */
  predicate Persists(s: State, s': State, id: ChannelId) {
    id <= s.nextId ==>
      && id <= s'.nextId
      && (id in s'.advertised ==> id in s.advertised && s'.advertised[id] == s.advertised[id])
  }

  lemma {:induction false} StepIds(s: State, e: Event, id: ChannelId)
    requires TablesAgree(s) && WellFormed(e)
    ensures Persists(s, Apply(s, e), id)
  {
    if e.EUpdate? { UpdateReconciles(s, e.latest, e.lookup); }
  }

  /** A channel id names one channel for the whole run: once given out it never
      changes its meaning, and once withdrawn it never comes back. */
  lemma {:induction false} IdsNeverReturn(es: seq<Event>, i: nat, id: ChannelId)
    requires AllWellFormed(es) && i <= |es|
    ensures Persists(Run(INIT, es[..i]), Run(INIT, es), id)
    decreases |es|
  {
    if i == |es| {
      assert es[..i] == es;
    } else {
      var last := |es| - 1;
      assert es[..last][..i] == es[..i];
      IdsNeverReturn(es[..last], i, id);
      PersistsToEnd(Run(INIT, es[..i]), es, id);
    }
  }

  lemma {:induction false} PersistsToEnd(a: State, es: seq<Event>, id: ChannelId)
    requires AllWellFormed(es) && es != [] && Persists(a, Run(INIT, es[..|es| - 1]), id)
    ensures Persists(a, Run(INIT, es), id)
  {
    SubscriptionsAgree(es[..|es| - 1]);
    PersistsFurther(a, Run(INIT, es[..|es| - 1]), es[|es| - 1], id);
  }

  lemma {:induction false} PersistsFurther(a: State, b: State, e: Event, id: ChannelId)
    requires Persists(a, b, id) && TablesAgree(b) && WellFormed(e)
    ensures Persists(a, Apply(b, e), id)
  {
    StepIds(b, e, id);
  }

  // -------------------------------------------------------- the 32-bit counter

  const ID_RANGE: nat := 0x1_0000_0000

  function Bits(id: ChannelId): nat { id % ID_RANGE }

  /** While fewer ids than the 32-bit counter can tell apart have been allocated, the counter gives the ids
      of this model: it has not wrapped at any point of the run, and every id in the tables fits. */
  lemma {:induction false} CounterFits(es: seq<Event>, i: nat)
    requires AllWellFormed(es) && i <= |es| && Run(INIT, es).nextId < ID_RANGE
    ensures Bits(Run(INIT, es[..i]).nextId) == Run(INIT, es[..i]).nextId
    ensures forall id | id in Run(INIT, es[..i]).channels :: Bits(id) == id
  {
    IdsNeverReturn(es, i, Run(INIT, es[..i]).nextId);
    SubscriptionsAgree(es[..i]);
    FitsRange(Run(INIT, es[..i]), Run(INIT, es).nextId);
  }

  lemma {:induction false} FitsRange(s: State, n: nat)
    requires TablesAgree(s) && s.nextId <= n < ID_RANGE
    ensures Bits(s.nextId) == s.nextId && forall id | id in s.channels :: Bits(id) == id
  {
  }

  /** `emplace` keeps the entry it finds. */
  function EmplaceOne(table: map<nat, Channel>, id: ChannelId, ch: Channel): map<nat, Channel> {
    if Bits(id) in table then table else table[Bits(id) := ch]
  }

  /** The loop of `add_channels` as it is, with a counter that wraps. */
  function Emplaced(table: map<nat, Channel>, next: nat, chans: seq<Channel>): map<nat, Channel>
    decreases |chans|
  {
    if chans == [] then table
    else EmplaceOne(Emplaced(table, next, chans[..|chans| - 1]), next + |chans|, chans[|chans| - 1])
  }

  /** Every channel of `channels` is found in `table` under the 32 bits of its id. */
  ghost predicate FindsAll(table: map<nat, Channel>, channels: map<ChannelId, Channel>) {
    forall id | id in channels :: Bits(id) in table && table[Bits(id)] == channels[id]
  }

  ghost predicate HoldsOnly(table: map<nat, Channel>, channels: map<ChannelId, Channel>) {
    forall k | k in table :: exists id | id in channels :: Bits(id) == k
  }

  ghost predicate Apart(channels: map<ChannelId, Channel>) {
    forall a, b | a in channels && b in channels && Bits(a) == Bits(b) :: a == b
  }

  ghost predicate Mirrors(table: map<nat, Channel>, channels: map<ChannelId, Channel>) {
    FindsAll(table, channels) && HoldsOnly(table, channels)
  }

  lemma {:induction false} EmplacedMirrors(table: map<nat, Channel>, channels: map<ChannelId, Channel>, next: nat, chans: seq<Channel>)
    requires Mirrors(table, channels) && (forall id | id in channels :: id <= next)
    requires Apart(channels + Number(next, chans))
    ensures Mirrors(Emplaced(table, next, chans), channels + Number(next, chans))
    decreases |chans|
  {
    if chans == [] {
      assert channels + Number(next, chans) == channels;
    } else {
      ApartPrefix(channels, next, chans);
      EmplacedMirrors(table, channels, next, chans[..|chans| - 1]);
      EmplacedLast(table, channels, next, chans);
    }
  }

  lemma {:induction false} ApartPrefix(channels: map<ChannelId, Channel>, next: nat, chans: seq<Channel>)
    requires chans != [] && (forall id | id in channels :: id <= next) && Apart(channels + Number(next, chans))
    ensures Apart(channels + Number(next, chans[..|chans| - 1]))
  {
    LastNumber(channels, next, chans);
    ApartBefore(channels + Number(next, chans[..|chans| - 1]), next + |chans|, chans[|chans| - 1]);
  }

  lemma {:induction false} EmplacedLast(table: map<nat, Channel>, channels: map<ChannelId, Channel>, next: nat, chans: seq<Channel>)
    requires chans != [] && (forall id | id in channels :: id <= next) && Apart(channels + Number(next, chans))
    requires Mirrors(Emplaced(table, next, chans[..|chans| - 1]), channels + Number(next, chans[..|chans| - 1]))
    ensures Mirrors(Emplaced(table, next, chans), channels + Number(next, chans))
  {
    var pre := chans[..|chans| - 1];
    LastNumber(channels, next, chans);
    EmplacedOne(Emplaced(table, next, pre), channels + Number(next, pre), next + |chans|, chans[|chans| - 1]);
  }

  lemma {:induction false} LastNumber(channels: map<ChannelId, Channel>, next: nat, chans: seq<Channel>)
    requires chans != [] && (forall id | id in channels :: id <= next)
    ensures var was := channels + Number(next, chans[..|chans| - 1]);
            next + |chans| !in was && channels + Number(next, chans) == was[next + |chans| := chans[|chans| - 1]]
  {
  }

  lemma {:induction false} ApartBefore(channels: map<ChannelId, Channel>, id: nat, ch: Channel)
    requires id !in channels && Apart(channels[id := ch])
    ensures Apart(channels)
  {
    var after := channels[id := ch];
    forall a, b | a in channels && b in channels && Bits(a) == Bits(b) ensures a == b {
      assert a in after && b in after;
    }
  }

  lemma {:induction false} EmplacedOne(table: map<nat, Channel>, channels: map<ChannelId, Channel>, id: nat, ch: Channel)
    requires Mirrors(table, channels) && id !in channels && Apart(channels[id := ch])
    ensures Mirrors(EmplaceOne(table, id, ch), channels[id := ch])
  {
    var after := channels[id := ch];
    forall a | a in channels ensures Bits(a) != Bits(id) { assert a in after && id in after; }
    var table' := table[Bits(id) := ch];
    forall k | k in table' ensures exists a | a in after :: Bits(a) == k {
      if k in table {
        var a :| a in channels && Bits(a) == k;
        assert a in after;
      } else {
        assert id in after;
      }
    }
  }

  /** Adding channels that differ from each other and from those there: all of them, old and new, are found
      under their ids afterwards if and only if no two of these ids have the same 32 bits. */
  lemma {:induction false} CounterWrapsIff(s: State, table: map<nat, Channel>, chans: seq<Channel>)
    requires Mirrors(table, s.channels) && (forall id | id in s.channels :: id <= s.nextId)
    requires forall a, b | a in AddChannels(s, chans).channels && b in AddChannels(s, chans).channels
                           && AddChannels(s, chans).channels[a] == AddChannels(s, chans).channels[b] :: a == b
    ensures FindsAll(Emplaced(table, s.nextId, chans), AddChannels(s, chans).channels) <==>
            Apart(AddChannels(s, chans).channels)
  {
    if Apart(AddChannels(s, chans).channels) { EmplacedMirrors(table, s.channels, s.nextId, chans); }
  }

  // ------------------------------------------ what fails, and exactly when

  /** An update in which `add_channels` throws. The message that announces the new channels is written after
      their ids are stored, and a text that is not UTF-8 cannot be written; the bridge never hears the ids. */
  function UpdateAborted(s: State, latest: seq<TopicAndType>, lookup: string -> Lookup): State {
    var gone := Departed(s.advertised, latest);
    var s1 := RemoveChannels(s.(advertised := s.advertised - gone, subscriptions := s.subscriptions - gone), gone);
    AddChannels(s1, NewChannels(Wanted(Pairs(s1.advertised), latest, lookup), lookup))
  }

  /** A channel of the server that the bridge does not know. */
  predicate Stranded(s: State, id: ChannelId) { id in s.channels && id !in s.advertised && id <= s.nextId }

  /** Such an update strands exactly the channels that it would have added. */
  lemma {:induction false} AbortedUpdateStrands(s: State, latest: seq<TopicAndType>, lookup: string -> Lookup, id: ChannelId)
    requires TablesAgree(s)
    ensures Stranded(UpdateAborted(s, latest, lookup), id) <==>
            id in UpdateTopics(s, latest, lookup).advertised && id !in s.advertised
  {
  }

  lemma {:induction false} StrandedStep(s: State, e: Event, id: ChannelId)
    requires Stranded(s, id)
    ensures Stranded(Apply(s, e), id) && Apply(s, e).channels[id] == s.channels[id]
  {
  }

  /** Whatever follows, a stranded channel stays: the bridge can neither serve it nor withdraw it. */
  lemma {:induction false} StrandedForever(s: State, es: seq<Event>, id: ChannelId)
    requires Stranded(s, id)
    ensures Stranded(Run(s, es), id) && Run(s, es).channels[id] == s.channels[id]
    decreases |es|
  {
    if es != [] {
      StrandedForever(s, es[..|es| - 1], id);
      StrandedStep(Run(s, es[..|es| - 1]), es[|es| - 1], id);
    }
  }

  /** The list makes the bridge store an advertisement: everything before the first
      whitelisted element is skipped, and for that one ROS creates a publisher. */
  predicate ReachesBridge(items: seq<AdItem>) {
    exists i | 0 <= i < |items| ::
      && items[i].AdItem? && items[i].whitelisted && items[i].rosOk
      && forall j | 0 <= j < i :: items[j].AdItem? && !items[j].whitelisted
  }

  lemma {:induction false} UnknownClientOne(s: State, h: Handle, first: bool, item: AdItem)
    requires h !in s.clients && ServerAds(s, h) == {}
    ensures var r := AdvertiseOne(s, h, first, item);
            && (r.threw <==> item.AdItem? ==> item.whitelisted)
            && (!r.threw ==> r.st == s)
            && (r.threw ==> && r.st.clients == s.clients && r.st.clientChannels == s.clientChannels
                            && (BridgeAds(r.st, h) != {} <==> BridgeAds(s, h) != {} || (item.AdItem? && item.rosOk))
                            && (forall k | k != h :: BridgeAds(r.st, k) == BridgeAds(s, k)))
  {
  }

  lemma {:induction false} UnknownClientAdvertises(s: State, h: Handle, first: bool, items: seq<AdItem>)
    requires h !in s.clients && ServerAds(s, h) == {}
    ensures var s' := AdvertiseAll(s, h, first, items).st;
            && s'.clients == s.clients && s'.clientChannels == s.clientChannels
            && (BridgeAds(s', h) != {} <==> BridgeAds(s, h) != {} || ReachesBridge(items))
            && (forall k | k != h :: BridgeAds(s', k) == BridgeAds(s, k))
  {
    if items != [] {
      UnknownClientOne(s, h, first, items[0]);
      if !AdvertiseOne(s, h, first, items[0]).threw {
        UnknownClientAdvertises(s, h, first, items[1..]);
        ReachesLater(items);
      }
    }
  }

  /** An advertisement by a connection that never logged in keeps the three tables
      in agreement exactly when it does not reach the bridge. */
  lemma {:induction false} AdvertiseBeforeLogin(s: State, h: Handle, items: seq<AdItem>)
    requires AdsAgree(s) && h !in s.clients
    ensures AdsAgree(HandleAdvertise(s, h, items).st) <==> !ReachesBridge(items)
  {
    assert AdAgrees(s, h);
    var first := h !in s.clientChannels;
    var s0 := if first then s.(clientChannels := s.clientChannels[h := {}]) else s;
    UnknownClientAdvertises(s0, h, first, items);
    var s' := HandleAdvertise(s, h, items).st;
    assert AdAgrees(s', h) <==> !ReachesBridge(items);
    forall k | k != h ensures AdAgrees(s', k) { assert AdAgrees(s, k); }
  }

  // ------------------------------------- advertisements in runs without login first

  /** What the server knows of a handle's advertisements agrees, and the bridge knows it, too. */
  predicate AdBase(s: State, h: Handle) { ServerAds(s, h) == AdsOf(s, h) <= BridgeAds(s, h) }

  /** Advertisements only the bridge knows. */
  function Stray(s: State, h: Handle): set<ClientChannelId> { BridgeAds(s, h) - AdsOf(s, h) }

  predicate Early(s: State, e: Event, h: Handle) {
    e.EAdvertise? && e.h == h && h !in s.clients && ReachesBridge(e.ads)
  }

  lemma {:induction false} AdvertiseOneStray(s: State, h: Handle, first: bool, item: AdItem, k: Handle)
    requires AdBase(s, k) && (h in s.clients || k != h)
    ensures var s' := AdvertiseOne(s, h, first, item).st; AdBase(s', k) && Stray(s', k) == Stray(s, k)
  {
    if h in s.clients {
      AdvertiseOneTables(s, h, first, item, k);
    } else {
      AdvertiseOneElsewhere(s, h, first, item, k);
    }
  }

  ghost predicate SameAds(s: State, s': State, k: Handle) {
    ServerAds(s', k) == ServerAds(s, k) && AdsOf(s', k) == AdsOf(s, k) && BridgeAds(s', k) == BridgeAds(s, k)
  }

  lemma {:induction false} AdvertiseOneElsewhere(s: State, h: Handle, first: bool, item: AdItem, k: Handle)
    requires k != h
    ensures SameAds(s, AdvertiseOne(s, h, first, item).st, k)
  {
  }

  /** One element of a client's list goes into all three tables or into none. */
  lemma {:induction false} AdvertiseOneTables(s: State, h: Handle, first: bool, item: AdItem, k: Handle)
    requires h in s.clients
    ensures var s' := AdvertiseOne(s, h, first, item).st;
            || SameAds(s, s', k)
            || (&& k == h && item.AdItem? && item.id !in BridgeAds(s, h)
                && ServerAds(s', h) == ServerAds(s, h) + {item.id} && AdsOf(s', h) == AdsOf(s, h) + {item.id}
                && BridgeAds(s', h) == BridgeAds(s, h) + {item.id})
  {
    var r := AdvertiseOne(s, h, first, item);
    if k != h {
      AdvertiseOneElsewhere(s, h, first, item, k);
    } else if item.AdItem? && !r.threw && (first || item.id !in ServerAds(s, h)) && item.whitelisted {
      var b := BridgeAdvertise(s, h, item.id, item.rosOk);
      assert r.st == WithAds(b.st, h, AdsOf(s, h) + {item.id}, ServerAds(s, h) + {item.id});
    } else {
      assert SameAds(s, r.st, h);
    }
  }

  lemma {:induction false} AdvertiseAllStray(s: State, h: Handle, first: bool, items: seq<AdItem>, k: Handle)
    requires AdBase(s, k) && (h in s.clients || k != h)
    ensures var s' := AdvertiseAll(s, h, first, items).st; AdBase(s', k) && Stray(s', k) == Stray(s, k)
    decreases |items|
  {
    if items != [] {
      var r := AdvertiseOne(s, h, first, items[0]);
      AdvertiseOneStray(s, h, first, items[0], k);
      if !r.threw { AdvertiseAllStray(r.st, h, first, items[1..], k); }
    }
  }

  lemma {:induction false} UnadvertiseOneElsewhere(s: State, h: Handle, item: UnadItem, k: Handle)
    requires k != h
    ensures var s' := UnadvertiseOne(s, h, item).st;
            SameAds(s, s', k) && EmptyBucket(s', k) == EmptyBucket(s, k)
  {
  }

  lemma {:induction false} UnadvertiseOwn(s: State, h: Handle, item: UnadItem)
    requires AdBase(s, h)
    ensures var s' := UnadvertiseOne(s, h, item).st; AdBase(s', h) && Stray(s', h) == Stray(s, h)
  {
    if h !in s.clients { assert ServerAds(s, h) == {}; }
  }

  lemma {:induction false} UnadvertiseOwnBucket(s: State, h: Handle, item: UnadItem)
    requires AdBase(s, h)
    ensures EmptyBucket(UnadvertiseOne(s, h, item).st, h) == EmptyBucket(s, h)
  {
  }

  lemma {:induction false} UnadvertiseOneStray(s: State, h: Handle, item: UnadItem, k: Handle)
    requires AdBase(s, k)
    ensures var s' := UnadvertiseOne(s, h, item).st;
            AdBase(s', k) && Stray(s', k) == Stray(s, k) && EmptyBucket(s', k) == EmptyBucket(s, k)
  {
    if k == h {
      UnadvertiseOwn(s, h, item);
      UnadvertiseOwnBucket(s, h, item);
    } else {
      UnadvertiseOneElsewhere(s, h, item, k);
    }
  }

  lemma {:induction false} UnadvertiseAllStray(s: State, h: Handle, items: seq<UnadItem>, k: Handle)
    requires AdBase(s, k)
    ensures var s' := UnadvertiseAll(s, h, items).st;
            AdBase(s', k) && Stray(s', k) == Stray(s, k) && EmptyBucket(s', k) == EmptyBucket(s, k)
    decreases |items|
  {
    if items != [] {
      var r := UnadvertiseOne(s, h, items[0]);
      UnadvertiseOneStray(s, h, items[0], k);
      if !r.threw { UnadvertiseAllStray(r.st, h, items[1..], k); }
    }
  }

  lemma {:induction false} AdvertiseStray(s: State, h: Handle, items: seq<AdItem>, k: Handle)
    requires AdBase(s, k)
    ensures var s' := HandleAdvertise(s, h, items).st;
            && AdBase(s', k)
            && (Stray(s', k) != {} <==> Stray(s, k) != {} || (k == h && h !in s.clients && ReachesBridge(items)))
  {
    var first := h !in s.clientChannels;
    var s0 := if first then s.(clientChannels := s.clientChannels[h := {}]) else s;
    assert AdBase(s0, k) && Stray(s0, k) == Stray(s, k);
    if k == h && h !in s.clients {
      UnknownClientAdvertises(s0, h, first, items);
    } else {
      AdvertiseAllStray(s0, h, first, items, k);
    }
  }

  lemma {:induction false} StepStray(s: State, e: Event, h: Handle)
    requires AdBase(s, h)
    ensures AdBase(Apply(s, e), h)
    ensures Stray(Apply(s, e), h) != {} <==> Stray(s, h) != {} || Early(s, e, h)
  {
    match e
    case EAdvertise(k, items) => AdvertiseStray(s, k, items, h);
    case EUnadvertise(k, items) => if k in s.clientChannels { UnadvertiseAllStray(s, k, items, h); }
    case EClose(k) => CloseStray(s, k, h);
    case _ => QuietStray(s, e, h);
  }

  lemma {:induction false} QuietStray(s: State, e: Event, h: Handle)
    requires !e.EAdvertise? && !e.EUnadvertise? && !e.EClose?
    ensures SameAds(s, Apply(s, e), h)
  {
  }

  lemma {:induction false} CloseStray(s: State, k: Handle, h: Handle)
    requires AdBase(s, h)
    ensures AdBase(Close(s, k), h) && Stray(Close(s, k), h) == Stray(s, h)
  {
  }

  ghost predicate AnyEarly(es: seq<Event>, h: Handle) { exists i :: 0 <= i < |es| && EarlyAt(es, h, i) }

  predicate EarlyAt(es: seq<Event>, h: Handle, i: nat)
    requires i < |es|
  {
    Early(Run(INIT, es[..i]), es[i], h)
  }

  lemma {:induction false} EarlyStays(es: seq<Event>, h: Handle)
    requires es != [] && AnyEarly(es[..|es| - 1], h)
    ensures AnyEarly(es, h)
  {
    var i: nat :| i < |es| - 1 && EarlyAt(es[..|es| - 1], h, i);
    EarlyPrefix(es, h, i);
  }

  lemma {:induction false} EarlyBefore(es: seq<Event>, h: Handle)
    requires es != [] && AnyEarly(es, h) && !EarlyAt(es, h, |es| - 1)
    ensures AnyEarly(es[..|es| - 1], h)
  {
    var i: nat :| i < |es| && EarlyAt(es, h, i);
    EarlyPrefix(es, h, i);
  }

  lemma {:induction false} EarlyOneMore(es: seq<Event>, h: Handle)
    requires es != []
    ensures AnyEarly(es, h) <==> AnyEarly(es[..|es| - 1], h) || EarlyAt(es, h, |es| - 1)
  {
    if AnyEarly(es[..|es| - 1], h) {
      EarlyStays(es, h);
    } else if AnyEarly(es, h) && !EarlyAt(es, h, |es| - 1) {
      EarlyBefore(es, h);
    }
  }

  lemma {:induction false} EarlyPrefix(es: seq<Event>, h: Handle, i: nat)
    requires i < |es| - 1
    ensures EarlyAt(es[..|es| - 1], h, i) == EarlyAt(es, h, i)
  {
    assert es[..|es| - 1][..i] == es[..i];
  }

  /** In every run, logged in or not: only the bridge knows some advertisement of a handle
      exactly when the handle advertised something that reached the bridge while it was not
      logged in.  Nothing ever removes it. */
  lemma {:induction false} StrayIff(es: seq<Event>, h: Handle)
    ensures AdBase(Run(INIT, es), h)
    ensures Stray(Run(INIT, es), h) != {} <==> AnyEarly(es, h)
  {
    if es != [] {
      var pre := es[..|es| - 1];
      StrayIff(pre, h);
      StepStray(Run(INIT, pre), es[|es| - 1], h);
      EarlyOneMore(es, h);
    }
  }

  /** Hence the three tables agree on a handle exactly when it never did. */
  lemma {:induction false} AdsAgreeIff(es: seq<Event>, h: Handle)
    ensures AdAgrees(Run(INIT, es), h) <==> !AnyEarly(es, h)
  {
    StrayIff(es, h);
    AgreeIff(Run(INIT, es), h);
  }

  lemma {:induction false} AgreeIff(s: State, h: Handle)
    requires AdBase(s, h)
    ensures AdAgrees(s, h) <==> Stray(s, h) == {}
  {
    assert BridgeAds(s, h) == AdsOf(s, h) + Stray(s, h);
  }

  // -------------------------------------------------- buckets without advertisements

  predicate EmptyBucket(s: State, h: Handle) { h in s.clientAdvertised && s.clientAdvertised[h] == {} }

  /** ROS refuses the first whitelisted element of the list, which is reached. */
  predicate RefusedFirst(items: seq<AdItem>) {
    exists i | 0 <= i < |items| ::
      && items[i].AdItem? && items[i].whitelisted && !items[i].rosOk
      && forall j | 0 <= j < i :: items[j].AdItem? && !items[j].whitelisted
  }

  /** A failed advertisement of a handle for which the bridge holds nothing. */
  predicate Refused(s: State, e: Event, h: Handle) {
    e.EAdvertise? && e.h == h && BridgeAds(s, h) == {} && RefusedFirst(e.ads)
  }

  predicate Succeeds(e: Event, h: Handle) { e.EAdvertise? && e.h == h && ReachesBridge(e.ads) }

  lemma {:induction false} FirstElement(items: seq<AdItem>)
    requires items != []
    ensures items[0].MalformedAd? ==> !RefusedFirst(items) && !ReachesBridge(items)
    ensures items[0].AdItem? && !items[0].whitelisted ==>
              RefusedFirst(items) == RefusedFirst(items[1..]) && ReachesBridge(items) == ReachesBridge(items[1..])
    ensures items[0].AdItem? && items[0].whitelisted ==>
              RefusedFirst(items) == !items[0].rosOk && ReachesBridge(items) == items[0].rosOk
  {
    if items[0].AdItem? && !items[0].whitelisted {
      RefusedLater(items);
      ReachesLater(items);
    }
  }

  lemma {:induction false} RefusedLater(items: seq<AdItem>)
    requires items != [] && items[0].AdItem? && !items[0].whitelisted
    ensures RefusedFirst(items) == RefusedFirst(items[1..])
  {
    var rest := items[1..];
    if i :| && 0 <= i < |rest| && rest[i].AdItem? && rest[i].whitelisted && !rest[i].rosOk
            && forall j | 0 <= j < i :: rest[j].AdItem? && !rest[j].whitelisted {
      assert !items[i + 1].rosOk;
      assert forall j | 1 <= j < i + 1 :: items[j] == rest[j - 1];
    }
    if i :| && 0 <= i < |items| && items[i].AdItem? && items[i].whitelisted && !items[i].rosOk
            && forall j | 0 <= j < i :: items[j].AdItem? && !items[j].whitelisted {
      assert !rest[i - 1].rosOk;
      assert forall j | 0 <= j < i - 1 :: rest[j] == items[j + 1];
    }
  }

  lemma {:induction false} ReachesLater(items: seq<AdItem>)
    requires items != [] && items[0].AdItem? && !items[0].whitelisted
    ensures ReachesBridge(items) == ReachesBridge(items[1..])
  {
    var rest := items[1..];
    if i :| && 0 <= i < |rest| && rest[i].AdItem? && rest[i].whitelisted && rest[i].rosOk
            && forall j | 0 <= j < i :: rest[j].AdItem? && !rest[j].whitelisted {
      assert items[i + 1].rosOk;
      assert forall j | 1 <= j < i + 1 :: items[j] == rest[j - 1];
    }
    if i :| && 0 <= i < |items| && items[i].AdItem? && items[i].whitelisted && items[i].rosOk
            && forall j | 0 <= j < i :: items[j].AdItem? && !items[j].whitelisted {
      assert rest[i - 1].rosOk;
      assert forall j | 0 <= j < i - 1 :: rest[j] == items[j + 1];
    }
  }

  /** The bridge's table after one element is that of the bridge's own handler, or unchanged. */
  lemma {:induction false} AdvertiseOneBridge(s: State, h: Handle, first: bool, item: AdItem)
    ensures var r := AdvertiseOne(s, h, first, item);
            if item.MalformedAd? then r == Outcome(s, true)
            else if (!first && item.id in ServerAds(s, h)) || !item.whitelisted then r == Outcome(s, false)
            else
              var b := BridgeAdvertise(s, h, item.id, item.rosOk);
              r.st.clientAdvertised == b.st.clientAdvertised && (b.threw ==> r.threw)
  {
  }

  lemma {:induction false} BridgeAdvertiseBucket(s: State, h: Handle, id: ClientChannelId, rosOk: bool, k: Handle)
    ensures var b := BridgeAdvertise(s, h, id, rosOk);
            && (k != h ==> EmptyBucket(b.st, k) == EmptyBucket(s, k))
            && (BridgeAds(s, h) != {} ==> BridgeAds(b.st, h) != {})
            && (BridgeAds(s, h) == {} ==> if rosOk then BridgeAds(b.st, h) != {} else b.threw && EmptyBucket(b.st, h))
  {
  }

  lemma {:induction false} AdvertiseOneOther(s: State, h: Handle, first: bool, item: AdItem, k: Handle)
    requires k != h
    ensures EmptyBucket(AdvertiseOne(s, h, first, item).st, k) == EmptyBucket(s, k)
  {
    AdvertiseOneBridge(s, h, first, item);
    if item.AdItem? { BridgeAdvertiseBucket(s, h, item.id, item.rosOk, k); }
  }

  lemma {:induction false} AdvertiseOneFull(s: State, h: Handle, first: bool, item: AdItem)
    requires BridgeAds(s, h) != {}
    ensures BridgeAds(AdvertiseOne(s, h, first, item).st, h) != {}
  {
    AdvertiseOneBridge(s, h, first, item);
    if item.AdItem? { BridgeAdvertiseBucket(s, h, item.id, item.rosOk, h); }
  }

  lemma {:induction false} AdvertiseOneEmpty(s: State, h: Handle, first: bool, item: AdItem)
    requires ServerAds(s, h) == BridgeAds(s, h) == {}
    ensures var r := AdvertiseOne(s, h, first, item);
            if item.MalformedAd? then r == Outcome(s, true)
            else if !item.whitelisted then r == Outcome(s, false)
            else if item.rosOk then BridgeAds(r.st, h) != {}
            else r.threw && EmptyBucket(r.st, h)
  {
    AdvertiseOneBridge(s, h, first, item);
    if item.AdItem? { BridgeAdvertiseBucket(s, h, item.id, item.rosOk, h); }
  }

  lemma {:induction false} AdvertiseAllKeepsFull(s: State, h: Handle, first: bool, items: seq<AdItem>)
    requires BridgeAds(s, h) != {}
    ensures !EmptyBucket(AdvertiseAll(s, h, first, items).st, h)
    decreases |items|
  {
    if items != [] {
      AdvertiseOneFull(s, h, first, items[0]);
      var r := AdvertiseOne(s, h, first, items[0]);
      if !r.threw { AdvertiseAllKeepsFull(r.st, h, first, items[1..]); }
    }
  }

  lemma {:induction false} AdvertiseAllBucket(s: State, h: Handle, first: bool, items: seq<AdItem>)
    requires ServerAds(s, h) == BridgeAds(s, h) == {}
    ensures EmptyBucket(AdvertiseAll(s, h, first, items).st, h) <==>
            RefusedFirst(items) || (EmptyBucket(s, h) && !ReachesBridge(items))
    decreases |items|
  {
    if items != [] {
      FirstElement(items);
      AdvertiseOneEmpty(s, h, first, items[0]);
      var r := AdvertiseOne(s, h, first, items[0]);
      if !r.threw {
        if BridgeAds(r.st, h) != {} { AdvertiseAllKeepsFull(r.st, h, first, items[1..]); }
        else { AdvertiseAllBucket(r.st, h, first, items[1..]); }
      }
    }
  }

  lemma {:induction false} AdvertiseAllOtherBucket(s: State, h: Handle, first: bool, items: seq<AdItem>, k: Handle)
    requires k != h
    ensures EmptyBucket(AdvertiseAll(s, h, first, items).st, k) == EmptyBucket(s, k)
    decreases |items|
  {
    if items != [] {
      AdvertiseOneOther(s, h, first, items[0], k);
      var r := AdvertiseOne(s, h, first, items[0]);
      if !r.threw { AdvertiseAllOtherBucket(r.st, h, first, items[1..], k); }
    }
  }

  lemma {:induction false} AdvertiseBucket(s: State, h: Handle, items: seq<AdItem>, k: Handle)
    requires AdBase(s, k)
    ensures EmptyBucket(HandleAdvertise(s, h, items).st, k) <==>
            || (k == h && BridgeAds(s, h) == {} && RefusedFirst(items))
            || (EmptyBucket(s, k) && !(k == h && ReachesBridge(items)))
  {
    var first := h !in s.clientChannels;
    var s0 := if first then s.(clientChannels := s.clientChannels[h := {}]) else s;
    assert EmptyBucket(s0, k) == EmptyBucket(s, k) && BridgeAds(s0, k) == BridgeAds(s, k);
    if k != h { AdvertiseAllOtherBucket(s0, h, first, items, k); }
    else if BridgeAds(s, h) != {} { AdvertiseAllKeepsFull(s0, h, first, items); }
    else { AdvertiseAllBucket(s0, h, first, items); }
  }

  lemma {:induction false} CloseBucket(s: State, k: Handle, h: Handle)
    requires AdBase(s, h)
    ensures EmptyBucket(Close(s, k), h) == EmptyBucket(s, h)
  {
    if k in s.clients { ReleasedBucket(s.clientAdvertised, k, s.clients[k].ads, h); }
  }

  lemma {:induction false} ReleasedBucket(table: map<Handle, set<ClientChannelId>>, k: Handle, ads: set<ClientChannelId>, h: Handle)
    ensures var after := ReleasedAds(table, k, ads);
            h in after && after[h] == {} <==> h in table && table[h] == {}
  {
    if h == k && h in table && !(table[h] !! ads) && !(table[h] <= ads) {
      var x :| x in table[h] && x !in ads;
      assert x in table[h] - ads;
    }
  }

  /** A failed advertisement of a handle for which the bridge holds nothing leaves an
      empty bucket, and only an advertisement that succeeds fills it: no close removes it. */
  lemma {:induction false} StepBucket(s: State, e: Event, h: Handle)
    requires AdBase(s, h)
    ensures EmptyBucket(Apply(s, e), h) <==> Refused(s, e, h) || (EmptyBucket(s, h) && !Succeeds(e, h))
  {
    match e
    case EAdvertise(k, items) => AdvertiseBucket(s, k, items, h);
    case EUnadvertise(k, items) => if k in s.clientChannels { UnadvertiseAllStray(s, k, items, h); }
    case EClose(k) => CloseBucket(s, k, h);
    case _ => assert Apply(s, e).clientAdvertised == s.clientAdvertised;
  }

  predicate RefusedAt(es: seq<Event>, h: Handle, i: nat)
    requires i < |es|
  {
    Refused(Run(INIT, es[..i]), es[i], h)
  }

  ghost predicate NoSuccessSince(es: seq<Event>, h: Handle, i: nat) {
    forall j | i < j < |es| :: !Succeeds(es[j], h)
  }

  ghost predicate BucketAt(es: seq<Event>, h: Handle, i: nat) {
    i < |es| && RefusedAt(es, h, i) && NoSuccessSince(es, h, i)
  }

  /** A failed advertisement left an empty bucket, and none has succeeded since. */
  ghost predicate BucketLeft(es: seq<Event>, h: Handle) { exists i: nat :: BucketAt(es, h, i) }

  lemma {:induction false} RefusedPrefix(es: seq<Event>, h: Handle, i: nat)
    requires i < |es| - 1
    ensures RefusedAt(es[..|es| - 1], h, i) == RefusedAt(es, h, i)
  {
    assert es[..|es| - 1][..i] == es[..i];
  }

  lemma {:induction false} SuccessPrefix(es: seq<Event>, h: Handle, i: nat)
    requires i < |es| - 1
    ensures NoSuccessSince(es, h, i) <==> NoSuccessSince(es[..|es| - 1], h, i) && !Succeeds(es[|es| - 1], h)
  {
    if NoSuccessSince(es, h, i) {
      var pre := es[..|es| - 1];
      forall j | i < j < |pre| ensures !Succeeds(pre[j], h) { assert !Succeeds(es[j], h); }
    }
  }

  lemma {:induction false} BucketPrefix(es: seq<Event>, h: Handle, i: nat)
    requires i < |es| - 1
    ensures BucketAt(es, h, i) <==> BucketAt(es[..|es| - 1], h, i) && !Succeeds(es[|es| - 1], h)
  {
    RefusedPrefix(es, h, i);
    SuccessPrefix(es, h, i);
  }

  lemma {:induction false} BucketStays(es: seq<Event>, h: Handle)
    requires es != [] && BucketLeft(es[..|es| - 1], h) && !Succeeds(es[|es| - 1], h)
    ensures BucketLeft(es, h)
  {
    var i: nat :| BucketAt(es[..|es| - 1], h, i);
    BucketPrefix(es, h, i);
  }

  lemma {:induction false} BucketBefore(es: seq<Event>, h: Handle)
    requires es != [] && BucketLeft(es, h) && !RefusedAt(es, h, |es| - 1)
    ensures BucketLeft(es[..|es| - 1], h) && !Succeeds(es[|es| - 1], h)
  {
    var i: nat :| BucketAt(es, h, i);
    BucketPrefix(es, h, i);
  }

  lemma {:induction false} BucketOneMore(es: seq<Event>, h: Handle)
    requires es != []
    ensures BucketLeft(es, h) <==>
            RefusedAt(es, h, |es| - 1) || (BucketLeft(es[..|es| - 1], h) && !Succeeds(es[|es| - 1], h))
  {
    if RefusedAt(es, h, |es| - 1) {
      assert BucketAt(es, h, |es| - 1);
    } else if BucketLeft(es, h) {
      BucketBefore(es, h);
    } else if BucketLeft(es[..|es| - 1], h) && !Succeeds(es[|es| - 1], h) {
      BucketStays(es, h);
    }
  }

  /** In every run the bridge holds an empty bucket for a handle exactly when ROS refused an
      advertisement of it while the bridge held nothing for it, and none has succeeded since. */
  lemma {:induction false} EmptyBucketIff(es: seq<Event>, h: Handle)
    ensures EmptyBucket(Run(INIT, es), h) <==> BucketLeft(es, h)
  {
    if es != [] {
      var pre := es[..|es| - 1];
      EmptyBucketIff(pre, h);
      StrayIff(pre, h);
      StepBucket(Run(INIT, pre), es[|es| - 1], h);
      BucketOneMore(es, h);
    }
  }

  // ------------------------------------------------------------- traces, exactly

  /** In every run the bridge's advertisement table mentions a handle that is not a client
      exactly when it has an early advertisement or an empty bucket left. */
  lemma {:induction false} BridgeMentionsIff(es: seq<Event>, h: Handle)
    requires h !in Run(INIT, es).clients
    ensures h in Run(INIT, es).clientAdvertised <==> AnyEarly(es, h) || BucketLeft(es, h)
  {
    StrayIff(es, h);
    EmptyBucketIff(es, h);
  }

  /** Which handles without a client leave a trace, in every run: exactly those with
      parameters, client channels, an early advertisement or an empty bucket left. */
  lemma {:induction false} TraceLeftIff(es: seq<Event>, h: Handle)
    requires AllWellFormed(es) && h !in Run(INIT, es).clients
    ensures NoTrace(Run(INIT, es), h) <==>
            !ParamsLeft(es, h) && !AdsLeft(es, h) && !AnyEarly(es, h) && !BucketLeft(es, h)
  {
    TracesIff(es, h);
    BridgeMentionsIff(es, h);
    forall c ensures !BridgeSub(Run(INIT, es), c, h) { NoSubscriptionLeft(es, h, c); }
  }

  /** In every run in which clients log in first, a handle that is not a client (never
      logged in, or closed) has left no trace, exactly unless an empty bucket is left. */
  lemma {:induction false} ClosedClientsLeaveNoTrace(es: seq<Event>, h: Handle)
    requires AllWellFormed(es) && LoginFirst(INIT, es) && h !in Run(INIT, es).clients
    ensures NoTrace(Run(INIT, es), h) <==> !BucketLeft(es, h)
  {
    AdvertisementsAgree(es);
    EmptyBucketIff(es, h);
    forall c ensures !BridgeSub(Run(INIT, es), c, h) { NoSubscriptionLeft(es, h, c); }
    assert AdAgrees(Run(INIT, es), h);
  }

  /** Closing removes a client's bucket from the bridge's advertisement table except when
      the bucket is empty, as a failed publisher creation leaves it, or holds an
      advertisement the server does not know. */
  lemma {:induction false} CloseKeepsEmptyBucket(s: State, h: Handle)
    requires AdBase(s, h) && h in s.clients
    ensures h in Close(s, h).clientAdvertised <==> EmptyBucket(s, h) || Stray(s, h) != {}
  {
    if h in s.clientAdvertised && s.clientAdvertised[h] != {} && Stray(s, h) == {} {
      forall x | x in s.clientAdvertised[h] ensures x in s.clients[h].ads { assert x !in Stray(s, h); }
    }
  }

  /** Such a bucket is reachable: log in, fail to advertise, disconnect. */
  lemma {:induction false} EmptyBucketOutlivesClient()
    ensures var es := [ELogin(0, "u", {}), EAdvertise(0, [AdItem(7, true, false)]), EClose(0)];
            LoginFirst(INIT, es) && 0 !in Run(INIT, es).clients && 0 in Run(INIT, es).clientAdvertised
  {
    var es := [ELogin(0, "u", {}), EAdvertise(0, [AdItem(7, true, false)]), EClose(0)];
    var s1 := Login(INIT, 0, "u", {});
    var s2 := HandleAdvertise(s1, 0, [AdItem(7, true, false)]).st;
    assert es[..0] == [] && es[..1] == [es[0]] && es[..2] == [es[0], es[1]] && es[..3] == es;
    assert es[..1][..0] == [] && es[..2][..1] == es[..1];
    assert Run(INIT, es[..1]) == s1;
    assert Run(INIT, es[..2]) == s2;
    assert Run(INIT, es) == Close(s2, 0);
  }
}
