/** The worker thread that runs the handlers against the thread that polls the
    ROS graph, one step per lock region.

    The poll thread holds the bridge's `_subscriptions_mutex` for a whole update,
    so the worker's calls into the bridge wait while an update is under way.
    Everything else interleaves freely: the poll thread touches the server's
    tables in four regions of its own, and the worker leaves its locks between
    looking a channel up, calling the bridge and recording the result. */
module Interleaving {
  import opened Protocol
  import opened Runs

  datatype Worker =
    | Idle
    // handle_subscribe: about to look at items[0] / let through / accepted by the bridge
    | SubCheck(h: Handle, snap: map<ChannelId, SubscriptionId>, subs: seq<SubItem>)
    | SubCall(h: Handle, snap: map<ChannelId, SubscriptionId>, subs: seq<SubItem>)
    | SubRecord(h: Handle, snap: map<ChannelId, SubscriptionId>, subs: seq<SubItem>)
    // handle_unsubscribe: about to look at items[0] / released by the bridge
    | UnsubCall(h: Handle, snap: map<ChannelId, SubscriptionId>, unsubs: seq<UnsubItem>, find: Finder)
    | UnsubRecord(h: Handle, snap: map<ChannelId, SubscriptionId>, unsubs: seq<UnsubItem>, find: Finder, c: ChannelId)
    // handle_connection_closed: client erased, these channels still to be released
    | Closing(h: Handle, chans: set<ChannelId>)
    // handle_login: client inserted / channel list copied but not sent
    | Greeting(h: Handle)
    | Sending(h: Handle, list: set<ChannelId>)

  datatype Poll =
    | Resting
    | Erasing(latest: seq<TopicAndType>, lookup: string -> Lookup, gone: set<ChannelId>)      // bridge tables erased
    | Withdrawing(latest: seq<TopicAndType>, lookup: string -> Lookup, gone: set<ChannelId>)  // channels erased
    | Allocating(latest: seq<TopicAndType>, lookup: string -> Lookup)                         // unadvertise sent
    | Announcing(base: nat, chans: seq<Channel>)                                              // ids allocated
    | Storing(base: nat, chans: seq<Channel>)                                                 // advertise sent

  datatype Sys = Sys(
    st: State,
    worker: Worker,
    poll: Poll,
    // What the clients have been told: replaying the advertise and unadvertise messages
    view: map<Handle, set<ChannelId>>,
    // History: ids withdrawn so far, clients whose login ran to its end, and channels
    // sent to a client after their withdrawal had been announced
    retired: set<ChannelId>,
    greeted: set<Handle>,
    phantoms: map<Handle, set<ChannelId>>,
    // Subscriptions the server recorded after their channel had been withdrawn
    late: set<(ChannelId, Handle)>)

  const START := Sys(INIT, Idle, Resting, map[], {}, {}, map[], {})

  datatype Step =
    | StartLogin(h: Handle, user: string, lost: set<Handle>)
    | StartSubscribe(h: Handle, subs: seq<SubItem>)
    | StartUnsubscribe(h: Handle, unsubs: seq<UnsubItem>, find: Finder)
    | StartClose(h: Handle)
    | Other(e: Event)
    | Work
    | Abort
    | Release(c: ChannelId)
    | StartPoll(latest: seq<TopicAndType>, lookup: string -> Lookup)
    | PollOn

  // ------------------------------------------------------- the worker thread

  /** Steps that leave the channel tables and the poll thread alone. */
  ghost predicate ChannelFrame(s: Sys, s': Sys) {
    && s'.poll == s.poll && s'.retired == s.retired
    && s'.st.nextId == s.st.nextId && s'.st.channels == s.st.channels && s'.st.advertised == s.st.advertised
  }

  /** Steps that leave what the clients have been told alone, too. */
  ghost predicate ViewFrame(s: Sys, s': Sys) {
    && ChannelFrame(s, s')
    && s'.view == s.view && s'.phantoms == s.phantoms && s'.greeted == s.greeted
    && s'.st.clients.Keys == s.st.clients.Keys
  }

  /** The late subscriptions of one client. */
  function LateOf(late: set<(ChannelId, Handle)>, h: Handle): set<(ChannelId, Handle)> {
    set pair | pair in late && pair.1 == h
  }

  /** First region of `handle_login`; a lost connection ends it at once. */
  function BeginLogin(s: Sys, h: Handle, user: string, lost: set<Handle>): (s': Sys)
    ensures ChannelFrame(s, s') && s'.st.subscriptions == s.st.subscriptions && s'.greeted == s.greeted && s'.late == s.late
    ensures forall k :: SubsOf(s'.st, k) == SubsOf(s.st, k)
    ensures s'.st.clients.Keys == s.st.clients.Keys ==> s'.view == s.view && s'.phantoms == s.phantoms
    ensures s'.st.clients.Keys != s.st.clients.Keys ==>
              && s'.st.clients.Keys == s.st.clients.Keys + {h}
              && s'.view == s.view[h := {}] && s'.phantoms == s.phantoms[h := {}] && h !in s.st.clients
    ensures s'.worker == s.worker || (s'.worker == Greeting(h) && h in s'.st.clients)
  {
    var st := Login(s.st, h, user, lost);
    if LostClients(s.st, lost) != {} then s.(st := st)
    else if h in s.st.clients then s.(st := st, worker := Greeting(h))
    else s.(st := st, worker := Greeting(h), view := s.view[h := {}], phantoms := s.phantoms[h := {}])
  }

  /** First region of `handle_connection_closed`.  The tables of advertisements,
      parameters and the connection graph are out of the poll thread's reach, so
      they are cleared here as well. */
  function BeginClose(s: Sys, h: Handle): (s': Sys)
    requires h in s.st.clients
    ensures ChannelFrame(s, s') && s'.st.subscriptions == s.st.subscriptions
    ensures s'.st.clients == s.st.clients - {h}
  {
    s.(st := Close(s.st, h).(subscriptions := s.st.subscriptions),
       worker := Closing(h, s.st.clients[h].subs.Keys),
       view := s.view - {h}, phantoms := s.phantoms - {h}, greeted := s.greeted - {h},
       late := s.late - LateOf(s.late, h))
  }

  /** Look an element up in the snapshot and in the channel table. */
  function CheckSub(s: Sys): (s': Sys)
    requires s.worker.SubCheck?
    ensures ViewFrame(s, s') && s'.st == s.st
  {
    var SubCheck(h, snap, items) := s.worker;
    if items == [] || items[0].MalformedSub? then s.(worker := Idle)
    else if items[0].subId in snap.Values || items[0].chan !in s.st.channels then
      s.(worker := SubCheck(h, snap, items[1..]))
    else s.(worker := SubCall(h, snap, items))
  }

  /** Call the bridge, once the poll thread has let go of its mutex. */
  function CallSub(s: Sys): (s': Sys)
    requires s.worker.SubCall? && s.worker.subs != [] && s.worker.subs[0].SubItem?
    ensures ViewFrame(s, s') && s'.st.clients == s.st.clients
  {
    var SubCall(h, snap, items) := s.worker;
    if !s.poll.Resting? then s
    else
      var r := BridgeSubscribe(s.st, items[0].chan, h, items[0].rosOk);
      s.(st := r.st, worker := if r.threw then Idle else SubRecord(h, snap, items))
  }

  function RecordSub(s: Sys): (s': Sys)
    requires s.worker.SubRecord? && s.worker.subs != [] && s.worker.subs[0].SubItem? && s.worker.h in s.st.clients
    ensures ViewFrame(s, s') && s'.st.subscriptions == s.st.subscriptions
  {
    var SubRecord(h, snap, items) := s.worker;
    var mine := SubsOf(s.st, h);
    var subs := if items[0].chan in mine then mine else mine[items[0].chan := items[0].subId];
    var withdrawn := items[0].chan !in s.st.channels && items[0].chan !in Retracting(s);
    s.(st := WithSubs(s.st, h, subs), worker := SubCheck(h, snap, items[1..]),
       late := s.late + if withdrawn then {(items[0].chan, h)} else {})
  }

  function CallUnsub(s: Sys): (s': Sys)
    requires s.worker.UnsubCall?
    ensures ViewFrame(s, s') && s'.st.clients == s.st.clients
  {
    var UnsubCall(h, snap, items, find) := s.worker;
    if items == [] || items[0].MalformedUnsub? then s.(worker := Idle)
    else if items[0].subId !in snap.Values then s.(worker := UnsubCall(h, snap, items[1..], find))
    else if !s.poll.Resting? then s
    else
      var c := find(snap, items[0].subId);
      var r := BridgeUnsubscribe(s.st, c, h);
      s.(st := r.st, worker := if r.threw then Idle else UnsubRecord(h, snap, items[1..], find, c))
  }

  function RecordUnsub(s: Sys): (s': Sys)
    requires s.worker.UnsubRecord? && s.worker.h in s.st.clients
    ensures ViewFrame(s, s') && s'.st.subscriptions == s.st.subscriptions
  {
    var UnsubRecord(h, snap, items, find, c) := s.worker;
    s.(st := WithSubs(s.st, h, SubsOf(s.st, h) - {c}), worker := UnsubCall(h, snap, items, find))
  }

  /** One call to the bridge while a connection is being closed; exceptions are swallowed. */
  function Released(s: Sys, c: ChannelId): (s': Sys)
    requires s.worker.Closing?
    ensures ViewFrame(s, s') && s'.st.clients == s.st.clients
  {
    if c !in s.worker.chans || !s.poll.Resting? then s
    else s.(st := BridgeUnsubscribe(s.st, c, s.worker.h).st, worker := s.worker.(chans := s.worker.chans - {c}))
  }

  /** The channels withdrawn from the table whose unadvertise message is not out yet. */
  function Retracting(s: Sys): set<ChannelId> {
    if s.poll.Withdrawing? then s.poll.gone else {}
  }

  /** Last region of `handle_login`: the copied channel list goes out. */
  function SendChannels(s: Sys): (s': Sys)
    requires s.worker.Sending? && s.worker.h in s.view && s.worker.h in s.phantoms
    ensures ChannelFrame(s, s') && s'.st == s.st
  {
    var Sending(h, list) := s.worker;
    s.(worker := Idle, greeted := s.greeted + {h},
       view := s.view[h := s.view[h] + list],
       phantoms := s.phantoms[h := s.phantoms[h] + (list - s.st.channels.Keys - Retracting(s))])
  }

  /** What the worker's program counter promises. */
  predicate WorkerReady(s: Sys) {
    match s.worker
    case SubCall(h, _, items) => h in s.st.clients && items != [] && items[0].SubItem?
    case SubRecord(h, _, items) => h in s.st.clients && items != [] && items[0].SubItem?
    case SubCheck(h, _, _) => h in s.st.clients
    case UnsubCall(h, _, _, _) => h in s.st.clients
    case UnsubRecord(h, _, _, _, _) => h in s.st.clients
    case Closing(h, _) => h !in s.st.clients
    case Greeting(h) => h in s.st.clients && h in s.view && h in s.phantoms
    case Sending(h, _) => h in s.st.clients && h in s.view && h in s.phantoms
    case Idle => true
  }

  function Worked(s: Sys): (s': Sys)
    requires WorkerReady(s)
    ensures ChannelFrame(s, s')
  {
    match s.worker
    case SubCheck(_, _, _) => CheckSub(s)
    case SubCall(_, _, _) => CallSub(s)
    case SubRecord(_, _, _) => RecordSub(s)
    case UnsubCall(_, _, _, _) => CallUnsub(s)
    case UnsubRecord(_, _, _, _, _) => RecordUnsub(s)
    case Closing(h, chans) => if chans == {} then s.(worker := Idle) else s
    case Greeting(h) => s.(worker := Sending(h, s.st.channels.Keys))
    case Sending(_, _) => SendChannels(s)
    case Idle => s
  }

  // --------------------------------------------------------- the poll thread

  function BeginPoll(s: Sys, latest: seq<TopicAndType>, lookup: string -> Lookup): Sys
    requires s.poll.Resting?
  {
    var gone := Departed(s.st.advertised, latest);
    s.(st := s.st.(advertised := s.st.advertised - gone, subscriptions := s.st.subscriptions - gone),
       poll := Erasing(latest, lookup, gone), retired := s.retired + gone)
  }

  /** Every client is sent one message. */
  function Told(view: map<Handle, set<ChannelId>>, more: set<ChannelId>, less: set<ChannelId>): (r: map<Handle, set<ChannelId>>)
    ensures r.Keys == view.Keys
    ensures forall h | h in view :: r[h] == view[h] - less + more
  {
    map h | h in view :: view[h] - less + more
  }

  function EraseChannels(s: Sys): Sys
    requires s.poll.Erasing?
  {
    s.(st := s.st.(channels := s.st.channels - s.poll.gone),
       poll := Withdrawing(s.poll.latest, s.poll.lookup, s.poll.gone))
  }

  function Withdraw(s: Sys): Sys
    requires s.poll.Withdrawing?
  {
    s.(st := s.st.(clients := WithoutSubs(s.st.clients, s.poll.gone)),
       poll := Allocating(s.poll.latest, s.poll.lookup),
       view := Told(s.view, {}, s.poll.gone))
  }

  function Allocate(s: Sys): Sys
    requires s.poll.Allocating?
  {
    var chans := NewChannels(Wanted(Pairs(s.st.advertised), s.poll.latest, s.poll.lookup), s.poll.lookup);
    s.(st := AddChannels(s.st, chans), poll := Announcing(s.st.nextId, chans))
  }

  function Announce(s: Sys): Sys
    requires s.poll.Announcing?
  {
    s.(poll := Storing(s.poll.base, s.poll.chans), view := Told(s.view, Number(s.poll.base, s.poll.chans).Keys, {}))
  }

  function Store(s: Sys): Sys
    requires s.poll.Storing?
  {
    s.(st := s.st.(advertised := s.st.advertised + Number(s.poll.base, s.poll.chans)), poll := Resting)
  }

  function Polled(s: Sys): (s': Sys)
    ensures s'.worker == s.worker && s'.greeted == s.greeted && s'.phantoms == s.phantoms && s'.retired == s.retired
    ensures s'.st.clients.Keys == s.st.clients.Keys && s'.view.Keys == s.view.Keys
    ensures s'.st.subscriptions == s.st.subscriptions && s.st.advertised.Keys <= s'.st.advertised.Keys
    ensures !s.poll.Withdrawing? ==> s'.st.clients == s.st.clients
    ensures s'.late == s.late
  {
    match s.poll
    case Resting => s
    case Erasing(_, _, _) => EraseChannels(s)
    case Withdrawing(_, _, _) => Withdraw(s)
    case Allocating(_, _) => Allocate(s)
    case Announcing(_, _) => Announce(s)
    case Storing(_, _) => Store(s)
  }

  // -------------------------------------------------------------------- runs

  /** Handlers whose tables the poll thread never touches run in one piece. */
  predicate OutOfReach(e: Event) {
    || e.EAdvertise? || e.EUnadvertise? || e.ESubscribeParams? || e.EUnsubscribeParams?
    || e.ESubscribeGraph? || e.EUnsubscribeGraph?
  }

  function DoOther(s: Sys, e: Event): (s': Sys)
    requires OutOfReach(e)
    ensures ViewFrame(s, s') && s'.worker == s.worker && s'.st.subscriptions == s.st.subscriptions
    ensures forall k :: SubsOf(s'.st, k) == SubsOf(s.st, k)
  {
    OutOfReachFrame(s.st, e);
    s.(st := Apply(s.st, e))
  }

  lemma {:induction false} OutOfReachFrame(s: State, e: Event)
    requires OutOfReach(e)
    ensures var s' := Apply(s, e);
            && s'.nextId == s.nextId && s'.channels == s.channels && s'.advertised == s.advertised
            && s'.subscriptions == s.subscriptions && s'.clients.Keys == s.clients.Keys
            && forall k :: SubsOf(s', k) == SubsOf(s, k)
  {
  }

  /** A step that is not enabled leaves the system as it is. */
  function Do(s: Sys, step: Step): Sys {
    match step
    case StartLogin(h, user, lost) => if s.worker.Idle? then BeginLogin(s, h, user, lost) else s
    case StartSubscribe(h, items) =>
      if s.worker.Idle? && h in s.st.clients then s.(worker := SubCheck(h, s.st.clients[h].subs, items)) else s
    case StartUnsubscribe(h, items, find) =>
      if s.worker.Idle? && h in s.st.clients then s.(worker := UnsubCall(h, s.st.clients[h].subs, items, find)) else s
    case StartClose(h) => if s.worker.Idle? && h in s.st.clients then BeginClose(s, h) else s
    case Other(e) => if s.worker.Idle? && OutOfReach(e) then DoOther(s, e) else s
    case Work => if WorkerReady(s) then Worked(s) else s
    case Abort => if s.worker.Greeting? then s.(worker := Idle) else s
    case Release(c) => if s.worker.Closing? then Released(s, c) else s
    case StartPoll(latest, lookup) => if s.poll.Resting? then BeginPoll(s, latest, lookup) else s
    case PollOn => Polled(s)
  }

  function Trace(s: Sys, steps: seq<Step>): Sys
    decreases |steps|
  {
    if steps == [] then s else Do(Trace(s, steps[..|steps| - 1]), steps[|steps| - 1])
  }

  // ------------------------------------------------------- channels and ids

  /** Ids allocated by an update that has not stored them in the bridge yet. */
  function Unstored(s: Sys): map<ChannelId, Channel> {
    if s.poll.Announcing? || s.poll.Storing? then Number(s.poll.base, s.poll.chans) else map[]
  }

  /** Channels gone from the bridge but still in the server's table. */
  function Lingering(s: Sys): set<ChannelId> {
    if s.poll.Erasing? then s.poll.gone else {}
  }

  /** Every id ever given out is advertised, about to be, or retired for good. */
  ghost predicate IdsInv(s: Sys) {
    && (forall id :: 0 < id <= s.st.nextId <==>
                     id in s.st.advertised || id in Unstored(s) || id in s.retired)
    && s.st.advertised.Keys !! Unstored(s).Keys
    && s.retired !! s.st.advertised.Keys && s.retired !! Unstored(s).Keys
    && Lingering(s) + Retracting(s) <= s.retired
    && s.st.channels.Keys == s.st.advertised.Keys + Unstored(s).Keys + Lingering(s)
    && (forall id | id in s.st.advertised :: s.st.channels[id] == s.st.advertised[id])
    && (forall id | id in Unstored(s) :: s.st.channels[id] == Unstored(s)[id])
    && (s.poll.Announcing? || s.poll.Storing? ==> s.st.nextId == s.poll.base + |s.poll.chans|)
  }

  // ----------------------------------------------------------- subscriptions

  /** Accepted by the bridge and not recorded yet, or not released yet by a close. */
  predicate OnItsWayIn(s: Sys, c: ChannelId, h: Handle) {
    || (s.worker.SubRecord? && s.worker.h == h && s.worker.subs != [] && s.worker.subs[0].SubItem? && s.worker.subs[0].chan == c)
    || (s.worker.Closing? && s.worker.h == h && c in s.worker.chans)
  }

  /** Released by the bridge and not erased by the server yet. */
  predicate OnItsWayOut(s: Sys, c: ChannelId, h: Handle) {
    s.worker.UnsubRecord? && s.worker.h == h && s.worker.c == c
  }

  /** Gone from the bridge, but the clients' subscriptions are not cleared yet. */
  function Leaving(s: Sys): set<ChannelId> { Lingering(s) + Retracting(s) }

  predicate PairInv(s: Sys, c: ChannelId, h: Handle) {
    && (BridgeSub(s.st, c, h) ==> c in SubsOf(s.st, h) || OnItsWayIn(s, c, h))
    && (c in SubsOf(s.st, h) ==> BridgeSub(s.st, c, h) || (c, h) in s.late || c in Leaving(s) || OnItsWayOut(s, c, h))
    && ((c, h) in s.late ==> c in SubsOf(s.st, h) && c in s.retired - Leaving(s) && !OnItsWayOut(s, c, h))
    && (OnItsWayOut(s, c, h) ==> !BridgeSub(s.st, c, h))
  }

  ghost predicate PairsInv(s: Sys) {
    && (forall c, h :: PairInv(s, c, h))
    && s.st.subscriptions.Keys <= s.st.advertised.Keys
    && (s.worker.SubRecord? && s.worker.subs != [] && s.worker.subs[0].SubItem? ==>
          BridgeSub(s.st, s.worker.subs[0].chan, s.worker.h) || s.worker.subs[0].chan in s.retired)
  }

  // ------------------------------------------------- every step keeps the ids

  predicate OfPoll(step: Step) { step.StartPoll? || step.PollOn? }

  lemma {:induction false} WorkerKeepsChannels(s: Sys, step: Step)
    requires !OfPoll(step)
    ensures ChannelFrame(s, Do(s, step))
  {
  }

  lemma {:induction false} BeginPollIds(s: Sys, latest: seq<TopicAndType>, lookup: string -> Lookup)
    requires IdsInv(s) && s.poll.Resting?
    ensures IdsInv(BeginPoll(s, latest, lookup))
  {
  }

  lemma {:induction false} EraseChannelsIds(s: Sys)
    requires IdsInv(s) && s.poll.Erasing?
    ensures IdsInv(EraseChannels(s))
  {
  }

  lemma {:induction false} AllocateIds(s: Sys)
    requires IdsInv(s) && s.poll.Allocating?
    ensures IdsInv(Allocate(s))
  {
    var s' := Allocate(s);
    var added := Number(s.st.nextId, s'.poll.chans);
    assert Unstored(s') == added && Unstored(s) == map[] && s'.st.channels == s.st.channels + added;
    assert forall id :: id in added <==> s.st.nextId < id <= s'.st.nextId;
  }

  lemma {:induction false} StoreIds(s: Sys)
    requires IdsInv(s) && s.poll.Storing?
    ensures IdsInv(Store(s))
  {
  }

  lemma {:induction false} PolledIds(s: Sys)
    requires IdsInv(s)
    ensures IdsInv(Polled(s)) && Polled(s).retired == s.retired
  {
    match s.poll
    case Erasing(_, _, _) => EraseChannelsIds(s);
    case Allocating(_, _) => AllocateIds(s);
    case Storing(_, _) => StoreIds(s);
    case _ =>
  }

  lemma {:induction false} StepIds(s: Sys, step: Step)
    requires IdsInv(s)
    ensures IdsInv(Do(s, step)) && s.retired <= Do(s, step).retired
  {
    match step
    case StartPoll(latest, lookup) => if s.poll.Resting? { BeginPollIds(s, latest, lookup); }
    case PollOn => PolledIds(s);
    case _ => WorkerKeepsChannels(s, step);
  }

  // ---------------------------------------- every step keeps the worker ready

  /** Exactly the clients have a view, and the worker can always go on. */
  ghost predicate ReadyInv(s: Sys) {
    && s.view.Keys == s.st.clients.Keys && s.phantoms.Keys == s.st.clients.Keys && s.greeted <= s.st.clients.Keys
    && WorkerReady(s)
  }

  lemma {:induction false} SameReady(s: Sys, s': Sys)
    requires ReadyInv(s) && s'.worker == s.worker
    requires s'.st.clients.Keys == s.st.clients.Keys && s'.greeted == s.greeted
    requires s'.view.Keys == s.view.Keys && s'.phantoms == s.phantoms
    ensures ReadyInv(s')
  {
  }

  lemma {:induction false} WorkedKeys(s: Sys)
    requires ReadyInv(s)
    ensures var s' := Worked(s);
            s'.st.clients.Keys == s.st.clients.Keys && s'.view.Keys == s.view.Keys &&
            s'.phantoms.Keys == s.phantoms.Keys && s'.greeted <= s'.st.clients.Keys
  {
  }

  lemma {:induction false} WorkedGoesOn(s: Sys)
    requires ReadyInv(s)
    ensures WorkerReady(Worked(s))
  {
    match s.worker
    case SubCheck(_, _, _) => assert WorkerReady(CheckSub(s));
    case SubCall(_, _, _) => assert WorkerReady(CallSub(s));
    case SubRecord(_, _, _) => assert WorkerReady(RecordSub(s));
    case UnsubCall(_, _, _, _) => assert WorkerReady(CallUnsub(s));
    case UnsubRecord(_, _, _, _, _) => assert WorkerReady(RecordUnsub(s));
    case _ =>
  }

  lemma {:induction false} WorkedReady(s: Sys)
    requires ReadyInv(s)
    ensures ReadyInv(Worked(s))
  {
    WorkedKeys(s);
    WorkedGoesOn(s);
  }

  lemma {:induction false} LoginReady(s: Sys, h: Handle, user: string, lost: set<Handle>)
    requires ReadyInv(s) && s.worker.Idle?
    ensures ReadyInv(BeginLogin(s, h, user, lost))
  {
  }

  lemma {:induction false} StepReady(s: Sys, step: Step)
    requires ReadyInv(s)
    ensures ReadyInv(Do(s, step))
  {
    match step
    case Work => WorkedReady(s);
    case StartLogin(h, user, lost) => if s.worker.Idle? { LoginReady(s, h, user, lost); }
    case Other(e) => if s.worker.Idle? && OutOfReach(e) { SameReady(s, DoOther(s, e)); }
    case PollOn => SameReady(s, Polled(s));
    case _ =>
  }

  // ----------------------------------------------- every step keeps the pairs

  lemma {:induction false} BeginPollPairs(s: Sys, latest: seq<TopicAndType>, lookup: string -> Lookup)
    requires IdsInv(s) && PairsInv(s) && s.poll.Resting?
    ensures PairsInv(BeginPoll(s, latest, lookup))
  {
    var s' := BeginPoll(s, latest, lookup);
    forall c, h ensures PairInv(s', c, h) { assert PairInv(s, c, h); }
  }

  lemma {:induction false} WithdrawPairs(s: Sys)
    requires IdsInv(s) && PairsInv(s) && s.poll.Withdrawing?
    ensures PairsInv(Withdraw(s))
  {
    var s' := Withdraw(s);
    forall c, h ensures PairInv(s', c, h) { assert PairInv(s, c, h); }
  }

  /** A step that moves no subscription and leaves the worker's duties alone. */
  lemma {:induction false} SamePairs(s: Sys, s': Sys)
    requires PairsInv(s) && s'.retired == s.retired && s'.late == s.late && Leaving(s') == Leaving(s)
    requires s'.st.subscriptions == s.st.subscriptions && s.st.advertised.Keys <= s'.st.advertised.Keys
    requires forall k :: SubsOf(s'.st, k) == SubsOf(s.st, k)
    requires s'.worker == s.worker || (!s.worker.SubRecord? && !s.worker.Closing? && !s.worker.UnsubRecord? &&
                                       !s'.worker.SubRecord? && !s'.worker.Closing? && !s'.worker.UnsubRecord?)
    ensures PairsInv(s')
  {
    forall c, h ensures PairInv(s', c, h) { assert PairInv(s, c, h); }
  }

  lemma {:induction false} CallSubPairs(s: Sys)
    requires PairsInv(s) && s.worker.SubCall? && WorkerReady(s)
    ensures PairsInv(CallSub(s))
  {
    var s' := CallSub(s);
    forall c, h ensures PairInv(s', c, h) { assert PairInv(s, c, h); }
  }

  /** The record holds the id that the client chose, unless the channel has one already. */
  lemma {:induction false} RecordedId(s: Sys)
    requires s.worker.SubRecord? && WorkerReady(s)
    ensures var h, item := s.worker.h, s.worker.subs[0];
            SubsOf(Do(s, Work).st, h) == map[item.chan := item.subId] + SubsOf(s.st, h)
  {
  }

  lemma {:induction false} RecordSubPair(s: Sys, c: ChannelId, h: Handle)
    requires IdsInv(s) && PairsInv(s) && s.worker.SubRecord? && WorkerReady(s)
    ensures PairInv(RecordSub(s), c, h)
  {
    assert PairInv(s, c, h);
  }

  lemma {:induction false} RecordSubPairs(s: Sys)
    requires IdsInv(s) && PairsInv(s) && s.worker.SubRecord? && WorkerReady(s)
    ensures PairsInv(RecordSub(s))
  {
    forall c, h ensures PairInv(RecordSub(s), c, h) { RecordSubPair(s, c, h); }
  }

  lemma {:induction false} CallUnsubPairs(s: Sys)
    requires IdsInv(s) && PairsInv(s) && s.worker.UnsubCall? && WorkerReady(s)
    ensures PairsInv(CallUnsub(s))
  {
    var s' := CallUnsub(s);
    forall c, h ensures PairInv(s', c, h) { assert PairInv(s, c, h); }
  }

  lemma {:induction false} RecordUnsubPairs(s: Sys)
    requires PairsInv(s) && s.worker.UnsubRecord? && WorkerReady(s)
    ensures PairsInv(RecordUnsub(s))
  {
    var s' := RecordUnsub(s);
    forall c, h ensures PairInv(s', c, h) { assert PairInv(s, c, h); }
  }

  lemma {:induction false} ReleasedPairs(s: Sys, c0: ChannelId)
    requires IdsInv(s) && PairsInv(s) && s.worker.Closing? && WorkerReady(s)
    ensures PairsInv(Released(s, c0))
  {
    var s' := Released(s, c0);
    forall c, h ensures PairInv(s', c, h) { assert PairInv(s, c, h); }
  }

  lemma {:induction false} ClosePairs(s: Sys, h0: Handle)
    requires PairsInv(s) && s.worker.Idle? && h0 in s.st.clients
    ensures PairsInv(BeginClose(s, h0))
  {
    var s' := BeginClose(s, h0);
    forall c, h ensures PairInv(s', c, h) { assert PairInv(s, c, h); }
  }

  lemma {:induction false} WorkedPairs(s: Sys)
    requires IdsInv(s) && PairsInv(s) && WorkerReady(s)
    ensures PairsInv(Worked(s))
  {
    match s.worker
    case SubCall(_, _, _) => CallSubPairs(s);
    case SubRecord(_, _, _) => RecordSubPairs(s);
    case UnsubCall(_, _, _, _) => CallUnsubPairs(s);
    case UnsubRecord(_, _, _, _, _) => RecordUnsubPairs(s);
    case Closing(_, chans) =>
      if chans == {} {
        forall c, h ensures PairInv(Worked(s), c, h) { assert PairInv(s, c, h); }
      }
    case _ => SamePairs(s, Worked(s));
  }

  lemma {:induction false} PolledPairs(s: Sys)
    requires IdsInv(s) && PairsInv(s)
    ensures PairsInv(Polled(s))
  {
    if s.poll.Withdrawing? { WithdrawPairs(s); } else { SamePairs(s, Polled(s)); }
  }

  lemma {:induction false} StepPairs(s: Sys, step: Step)
    requires IdsInv(s) && PairsInv(s) && ReadyInv(s)
    ensures PairsInv(Do(s, step))
  {
    match step
    case Work => WorkedPairs(s);
    case Release(c) => if s.worker.Closing? { ReleasedPairs(s, c); }
    case StartClose(h) => if s.worker.Idle? && h in s.st.clients { ClosePairs(s, h); }
    case StartPoll(latest, lookup) => if s.poll.Resting? { BeginPollPairs(s, latest, lookup); }
    case PollOn => PolledPairs(s);
    case _ => StartPairs(s, step);
  }

  lemma {:induction false} StartPairs(s: Sys, step: Step)
    requires PairsInv(s)
    requires step.StartLogin? || step.StartSubscribe? || step.StartUnsubscribe? || step.Other? || step.Abort?
    ensures PairsInv(Do(s, step))
  {
    SamePairs(s, Do(s, step));
  }

  // ----------------------------------------------- what the clients are told

  /** Channels in the table whose advertise message is not out yet. */
  function Unannounced(s: Sys): set<ChannelId> {
    if s.poll.Announcing? then Unstored(s).Keys else {}
  }

  /** A client knows no channel but those in the table, those about to be withdrawn
      and its phantoms; once greeted it knows every announced channel. */
  predicate ClientView(s: Sys, h: Handle) {
    h in s.view && h in s.phantoms ==>
      && s.view[h] <= s.st.channels.Keys + Retracting(s) + s.phantoms[h]
      && s.phantoms[h] <= s.view[h]
      && s.phantoms[h] <= s.retired - Lingering(s) - Retracting(s)
      && (h in s.greeted ==> s.st.channels.Keys - Unannounced(s) <= s.view[h])
      && (s.worker.Sending? && s.worker.h == h ==>
            && s.st.channels.Keys - Unannounced(s) <= s.view[h] + s.worker.list
            && s.worker.list <= s.st.channels.Keys + s.retired)
  }

  ghost predicate ViewInv(s: Sys) { forall h :: ClientView(s, h) }

  lemma {:induction false} BeginPollView(s: Sys, latest: seq<TopicAndType>, lookup: string -> Lookup)
    requires IdsInv(s) && ViewInv(s) && s.poll.Resting?
    ensures ViewInv(BeginPoll(s, latest, lookup))
  {
    var s' := BeginPoll(s, latest, lookup);
    forall h ensures ClientView(s', h) { assert ClientView(s, h); }
  }

  lemma {:induction false} EraseChannelsView(s: Sys)
    requires IdsInv(s) && ViewInv(s) && s.poll.Erasing?
    ensures ViewInv(EraseChannels(s))
  {
    var s' := EraseChannels(s);
    forall h ensures ClientView(s', h) { assert ClientView(s, h); }
  }

  lemma {:induction false} WithdrawView(s: Sys)
    requires IdsInv(s) && ViewInv(s) && s.poll.Withdrawing?
    ensures ViewInv(Withdraw(s))
  {
    var s' := Withdraw(s);
    forall h ensures ClientView(s', h) { assert ClientView(s, h); }
  }

  lemma {:induction false} AllocateView(s: Sys)
    requires IdsInv(s) && ViewInv(s) && s.poll.Allocating?
    ensures ViewInv(Allocate(s))
  {
    var s' := Allocate(s);
    forall h ensures ClientView(s', h) { assert ClientView(s, h); }
  }

  lemma {:induction false} AnnounceView(s: Sys)
    requires IdsInv(s) && ViewInv(s) && s.poll.Announcing?
    ensures ViewInv(Announce(s))
  {
    var s' := Announce(s);
    forall h ensures ClientView(s', h) { assert ClientView(s, h); }
  }

  lemma {:induction false} PolledView(s: Sys)
    requires IdsInv(s) && ViewInv(s)
    ensures ViewInv(Polled(s))
  {
    match s.poll
    case Erasing(_, _, _) => EraseChannelsView(s);
    case Withdrawing(_, _, _) => WithdrawView(s);
    case Allocating(_, _) => AllocateView(s);
    case Announcing(_, _) => AnnounceView(s);
    case _ => forall h ensures ClientView(Polled(s), h) { assert ClientView(s, h); }
  }

  lemma {:induction false} SendChannelsView(s: Sys)
    requires IdsInv(s) && ViewInv(s) && s.worker.Sending? && WorkerReady(s)
    ensures ViewInv(SendChannels(s))
  {
    var s' := SendChannels(s);
    forall h ensures ClientView(s', h) { assert ClientView(s, h); }
  }

  lemma {:induction false} LoginView(s: Sys, h0: Handle, user: string, lost: set<Handle>)
    requires ViewInv(s) && ReadyInv(s) && s.worker.Idle?
    ensures ViewInv(BeginLogin(s, h0, user, lost))
  {
    forall h ensures ClientView(BeginLogin(s, h0, user, lost), h) { LoginViewAt(s, h0, user, lost, h); }
  }

  lemma {:induction false} LoginViewAt(s: Sys, h0: Handle, user: string, lost: set<Handle>, h: Handle)
    requires ViewInv(s) && ReadyInv(s) && s.worker.Idle?
    ensures ClientView(BeginLogin(s, h0, user, lost), h)
  {
    assert ClientView(s, h);
  }

  /** A step that sends nothing and does not copy the channel list. */
  lemma {:induction false} SameView(s: Sys, s': Sys)
    requires ViewInv(s) && ChannelFrame(s, s') && (s'.worker == s.worker || !s'.worker.Sending?)
    requires s'.view.Keys <= s.view.Keys && s'.phantoms.Keys <= s.phantoms.Keys && s'.greeted <= s.greeted
    requires forall h | h in s'.view :: s'.view[h] == s.view[h]
    requires forall h | h in s'.phantoms :: s'.phantoms[h] == s.phantoms[h]
    ensures ViewInv(s')
  {
    forall h ensures ClientView(s', h) { assert ClientView(s, h); }
  }

  lemma {:induction false} WorkedView(s: Sys)
    requires IdsInv(s) && ViewInv(s) && ReadyInv(s)
    ensures ViewInv(Worked(s))
  {
    match s.worker
    case Sending(_, _) => SendChannelsView(s);
    case Greeting(_) => forall h ensures ClientView(Worked(s), h) { assert ClientView(s, h); }
    case _ => SameView(s, Worked(s));
  }

  lemma {:induction false} StepView(s: Sys, step: Step)
    requires IdsInv(s) && ReadyInv(s) && ViewInv(s)
    ensures ViewInv(Do(s, step))
  {
    match step
    case Work => WorkedView(s);
    case StartPoll(latest, lookup) => if s.poll.Resting? { BeginPollView(s, latest, lookup); }
    case PollOn => PolledView(s);
    case StartLogin(h, user, lost) => if s.worker.Idle? { LoginView(s, h, user, lost); }
    case StartClose(h) => if s.worker.Idle? && h in s.st.clients { SameView(s, BeginClose(s, h)); }
    case _ => QuietView(s, step);
  }

  /** The steps that do no more than move the worker or touch tables of no interest here. */
  lemma {:induction false} QuietView(s: Sys, step: Step)
    requires ViewInv(s) && (step.StartSubscribe? || step.StartUnsubscribe? || step.Other? || step.Abort? || step.Release?)
    ensures ViewInv(Do(s, step))
  {
    SameView(s, Do(s, step));
  }

  // ------------------------------------------------------------- every trace

  ghost predicate Inv(s: Sys) { IdsInv(s) && ReadyInv(s) && PairsInv(s) && ViewInv(s) }

  lemma {:induction false} TraceInv(steps: seq<Step>)
    ensures Inv(Trace(START, steps))
  {
    if steps != [] {
      var last := |steps| - 1;
      TraceInv(steps[..last]);
      var s := Trace(START, steps[..last]);
      StepIds(s, steps[last]);
      StepReady(s, steps[last]);
      StepPairs(s, steps[last]);
      StepView(s, steps[last]);
    }
  }

  /** Whenever the worker is idle, at any point of an update, every subscription the
      bridge holds is held by the server as well, and what the server holds beyond
      that names a retired channel. */
  lemma {:induction false} IdleWorkerAgrees(steps: seq<Step>, c: ChannelId, h: Handle)
    requires Trace(START, steps).worker.Idle?
    ensures var s := Trace(START, steps);
            && (BridgeSub(s.st, c, h) ==> c in SubsOf(s.st, h))
            && (c in SubsOf(s.st, h) ==> BridgeSub(s.st, c, h) || c in s.retired)
  {
    TraceInv(steps);
    assert PairInv(Trace(START, steps), c, h);
  }

  /** Whenever the worker is idle and no withdrawal is under way, what the server holds
      beyond the bridge is exactly what it recorded late. */
  lemma {:induction false} IdlePairsExactly(steps: seq<Step>, c: ChannelId, h: Handle)
    requires var s := Trace(START, steps); s.worker.Idle? && !s.poll.Erasing? && !s.poll.Withdrawing?
    ensures var s := Trace(START, steps);
            && (c in SubsOf(s.st, h) <==> BridgeSub(s.st, c, h) || (c, h) in s.late)
            && ((c, h) in s.late ==> c in s.retired && !BridgeSub(s.st, c, h))
  {
    TraceInv(steps);
    assert PairInv(Trace(START, steps), c, h);
  }

  /** Then server and bridge hold the same subscriptions if and only if none was recorded
      late. */
  lemma {:induction false} PairsAgreeIff(steps: seq<Step>)
    requires var s := Trace(START, steps); s.worker.Idle? && !s.poll.Erasing? && !s.poll.Withdrawing?
    ensures var s := Trace(START, steps); SubsAgree(s.st) <==> s.late == {}
  {
    var s := Trace(START, steps);
    forall c: ChannelId, h: Handle ensures SubAgrees(s.st, c, h) <==> (c, h) !in s.late {
      IdlePairsExactly(steps, c, h);
    }
    if SubsAgree(s.st) {
      forall pair: (ChannelId, Handle) ensures pair !in s.late {
        assert SubAgrees(s.st, pair.0, pair.1);
      }
    }
  }

  /** A retired id stays retired and is never advertised again, whatever follows. */
  lemma {:induction false} RetiredForever(steps: seq<Step>, i: nat)
    requires i <= |steps|
    ensures Trace(START, steps[..i]).retired <= Trace(START, steps).retired
    ensures Trace(START, steps).retired !! Trace(START, steps).st.advertised.Keys
    decreases |steps|
  {
    TraceInv(steps);
    if i == |steps| {
      assert steps[..i] == steps;
    } else {
      var last := |steps| - 1;
      assert steps[..last][..i] == steps[..i];
      RetiredForever(steps[..last], i);
      TraceInv(steps[..last]);
      StepIds(Trace(START, steps[..last]), steps[last]);
    }
  }

  /** Between updates a greeted client's view is exactly the channel table plus its
      phantoms: nothing is ever missed. */
  lemma {:induction false} ViewsAreComplete(steps: seq<Step>, h: Handle)
    requires var s := Trace(START, steps); s.poll.Resting? && h in s.greeted
    ensures var s := Trace(START, steps);
            && h in s.view && h in s.phantoms
            && s.view[h] == s.st.channels.Keys + s.phantoms[h]
            && s.phantoms[h] !! s.st.channels.Keys && s.st.channels == s.st.advertised
            && (s.view[h] == s.st.channels.Keys <==> s.phantoms[h] == {})
  {
    TraceInv(steps);
    assert ClientView(Trace(START, steps), h);
  }

  // ------------------------------------------------------ uninterrupted logins

  /** Nothing happens between the regions of a login but the login itself. */
  ghost predicate LoginsUninterrupted(steps: seq<Step>) {
    forall i | 0 <= i < |steps| :: LoginGoesOn(Trace(START, steps[..i]), steps[i])
  }

  predicate LoginGoesOn(s: Sys, step: Step) {
    s.worker.Greeting? || s.worker.Sending? ==> step.Work? || step.Abort?
  }

  lemma {:induction false} LoginsPrefix(steps: seq<Step>)
    requires LoginsUninterrupted(steps) && steps != []
    ensures LoginsUninterrupted(steps[..|steps| - 1])
    ensures LoginGoesOn(Trace(START, steps[..|steps| - 1]), steps[|steps| - 1])
  {
    var pre := steps[..|steps| - 1];
    forall i | 0 <= i < |pre| ensures LoginGoesOn(Trace(START, pre[..i]), pre[i]) { assert pre[..i] == steps[..i]; }
  }

  ghost predicate NoPhantoms(s: Sys) {
    && (forall h | h in s.phantoms :: s.phantoms[h] == {})
    && (s.worker.Sending? ==> s.worker.list == s.st.channels.Keys)
  }

  lemma {:induction false} StepNoPhantoms(s: Sys, step: Step)
    requires NoPhantoms(s) && (s.worker.Greeting? || s.worker.Sending? ==> step.Work? || step.Abort?)
    ensures NoPhantoms(Do(s, step))
  {
    match step
    case Work =>
    case StartLogin(h, user, lost) =>
    case PollOn =>
    case _ =>
  }

  lemma {:induction false} UninterruptedNoPhantoms(steps: seq<Step>)
    requires LoginsUninterrupted(steps)
    ensures NoPhantoms(Trace(START, steps))
  {
    if steps != [] {
      LoginsPrefix(steps);
      UninterruptedNoPhantoms(steps[..|steps| - 1]);
      StepNoPhantoms(Trace(START, steps[..|steps| - 1]), steps[|steps| - 1]);
    }
  }

  /** With uninterrupted logins a client's view equals the channel table. */
  lemma {:induction false} UninterruptedViewsAreExact(steps: seq<Step>, h: Handle)
    requires LoginsUninterrupted(steps)
    requires var s := Trace(START, steps); s.poll.Resting? && h in s.greeted
    ensures var s := Trace(START, steps); h in s.view && s.view[h] == s.st.channels.Keys
  {
    ViewsAreComplete(steps, h);
    UninterruptedNoPhantoms(steps);
  }

  // --------------------------------------------------- uninterrupted records

  /** The poll thread takes no step between the bridge's acceptance of a subscription
      and its record in the server. */
  ghost predicate RecordsUninterrupted(steps: seq<Step>) {
    forall i | 0 <= i < |steps| :: RecordGoesOn(Trace(START, steps[..i]), steps[i])
  }

  predicate RecordGoesOn(s: Sys, step: Step) { s.worker.SubRecord? ==> !OfPoll(step) }

  lemma {:induction false} RecordsPrefix(steps: seq<Step>)
    requires RecordsUninterrupted(steps) && steps != []
    ensures RecordsUninterrupted(steps[..|steps| - 1])
    ensures RecordGoesOn(Trace(START, steps[..|steps| - 1]), steps[|steps| - 1])
  {
    var pre := steps[..|steps| - 1];
    forall i | 0 <= i < |pre| ensures RecordGoesOn(Trace(START, pre[..i]), pre[i]) { assert pre[..i] == steps[..i]; }
  }

  ghost predicate NoneLate(s: Sys) {
    && s.late == {}
    && (s.worker.SubRecord? && s.worker.subs != [] && s.worker.subs[0].SubItem? ==>
          s.worker.subs[0].chan in s.st.channels)
  }

  lemma {:induction false} WorkedNoneLate(s: Sys)
    requires IdsInv(s) && NoneLate(s) && WorkerReady(s)
    ensures NoneLate(Worked(s))
  {
    if s.worker.SubCall? && s.poll.Resting? { assert s.st.channels.Keys >= s.st.advertised.Keys; }
  }

  lemma {:induction false} StepNoneLate(s: Sys, step: Step)
    requires IdsInv(s) && ReadyInv(s) && NoneLate(s) && (s.worker.SubRecord? ==> !OfPoll(step))
    ensures NoneLate(Do(s, step))
  {
    match step
    case Work => WorkedNoneLate(s);
    case StartClose(h) =>
      if s.worker.Idle? && h in s.st.clients { assert BeginClose(s, h).late == {}; }
    case _ =>
  }

  lemma {:induction false} UninterruptedNoneLate(steps: seq<Step>)
    requires RecordsUninterrupted(steps)
    ensures NoneLate(Trace(START, steps))
  {
    if steps != [] {
      RecordsPrefix(steps);
      UninterruptedNoneLate(steps[..|steps| - 1]);
      TraceInv(steps[..|steps| - 1]);
      StepNoneLate(Trace(START, steps[..|steps| - 1]), steps[|steps| - 1]);
    }
  }

  /** If no poll step falls between the two, server and bridge hold the same
      subscriptions. */
  lemma {:induction false} UninterruptedPairsAgree(steps: seq<Step>)
    requires RecordsUninterrupted(steps)
    requires var s := Trace(START, steps); s.worker.Idle? && !s.poll.Erasing? && !s.poll.Withdrawing?
    ensures SubsAgree(Trace(START, steps).st)
  {
    UninterruptedNoneLate(steps);
    PairsAgreeIff(steps);
  }
}
