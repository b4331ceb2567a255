/** The tables kept by the WebSocket server and by the ROS 2 bridge, and what
    each handler does to them.

    Everything here is a value: the classes in Server.dfy update the same tables
    in place and are proved against these functions, and Runs.dfy reasons about
    all sequences of handler calls.

    A C++ exception is part of the model.  Every place where a handler can throw
    is decided either by the tables or by a field of the event: `rosOk` says
    whether ROS managed to create a publisher or a subscription, `Malformed`
    stands for a list element whose JSON cannot be read, `lost` names the
    connections that no longer exist.
 */
module Protocol {
  import opened Sequences

  // Connection handles; the order is the one `_clients` is iterated in.
  type Handle = nat
  type ChannelId = nat
  type SubscriptionId = nat
  type ClientChannelId = nat

  datatype Channel = Channel(topic: string, schemaName: string, schema: string)

  datatype Client = Client(
    user: string,
    subs: map<ChannelId, SubscriptionId>,
    ads: set<ClientChannelId>,
    graphFlag: bool,
    login: bool)

  datatype ParamCall = Subscribe(names: set<string>) | Unsubscribe(names: set<string>)

  datatype State = State(
    // Server
    nextId: nat,
    clients: map<Handle, Client>,
    channels: map<ChannelId, Channel>,
    clientChannels: map<Handle, set<ClientChannelId>>,
    params: map<Handle, set<string>>,
    graphCount: int,
    // CoBridge
    advertised: map<ChannelId, Channel>,
    subscriptions: map<ChannelId, set<Handle>>,
    clientAdvertised: map<Handle, set<ClientChannelId>>,
    // Calls the server made into the bridge, oldest first
    graphCalls: seq<bool>,
    paramCalls: seq<ParamCall>)

  const INIT := State(0, map[], map[], map[], map[], 0, map[], map[], map[], [], [])

  /** The state a handler leaves behind and whether it left by an exception. */
  datatype Outcome = Outcome(st: State, threw: bool)

  // ------------------------------------------------------------------ login

  function NewClient(user: string): Client {
    Client(user, map[], {}, false, true)
  }

  /** The clients whose connection is gone: looking one up throws. */
  function LostClients(s: State, lost: set<Handle>): set<Handle> {
    set k | k in lost && k in s.clients
  }

  /** The client table after kicking everybody before the first lost connection. */
  function Kicked(clients: map<Handle, Client>, gone: set<Handle>): (r: map<Handle, Client>)
    ensures r.Keys == clients.Keys
    ensures forall k | k in clients :: r[k] == clients[k].(login := r[k].login)
  {
    map k | k in clients :: if forall l | l in gone :: k < l then clients[k].(login := false) else clients[k]
  }

  /** `handle_login`: the new client is only inserted when nobody was lost, and
      never replaces an existing entry. */
  function Login(s: State, h: Handle, user: string, lost: set<Handle>): (s': State)
    ensures s' == s.(clients := s'.clients)
    ensures s.clients.Keys <= s'.clients.Keys <= s.clients.Keys + {h}
    ensures forall k | k in s.clients :: s'.clients[k] == s.clients[k].(login := s'.clients[k].login)
    ensures h in s'.clients && h !in s.clients ==> s'.clients[h] == NewClient(user)
  {
    var gone := LostClients(s, lost);
    var kicked := Kicked(s.clients, gone);
    s.(clients := if gone == {} && h !in s.clients then kicked[h := NewClient(user)] else kicked)
  }

  // ---------------------------------------------------------- subscriptions

  function SubsOf(s: State, h: Handle): map<ChannelId, SubscriptionId> {
    if h in s.clients then s.clients[h].subs else map[]
  }

  predicate BridgeSub(s: State, c: ChannelId, h: Handle) {
    c in s.subscriptions && h in s.subscriptions[c]
  }

  /** Only the subscription tables differ. */
  ghost predicate SubsFrame(s: State, s': State) {
    && s' == s.(clients := s'.clients, subscriptions := s'.subscriptions)
    && s'.clients.Keys == s.clients.Keys
    && (forall k | k in s.clients :: s'.clients[k] == s.clients[k].(subs := s'.clients[k].subs))
  }

  function WithSubs(s: State, h: Handle, subs: map<ChannelId, SubscriptionId>): (s': State)
    requires h in s.clients
    ensures SubsFrame(s, s') && s'.subscriptions == s.subscriptions
    ensures forall k :: SubsOf(s', k) == if k == h then subs else SubsOf(s, k)
  {
    s.(clients := s.clients[h := s.clients[h].(subs := subs)])
  }

  /** `CoBridge::subscribe`: a failed creation leaves an empty bucket behind. */
  function BridgeSubscribe(s: State, c: ChannelId, h: Handle, rosOk: bool): (r: Outcome)
    ensures r.st == s.(subscriptions := r.st.subscriptions)
    ensures r.st.subscriptions.Keys <= s.subscriptions.Keys + (s.advertised.Keys * {c})
    ensures !r.threw <==> c in s.advertised && !BridgeSub(s, c, h) && rosOk
    ensures forall d, k :: BridgeSub(r.st, d, k) <==> BridgeSub(s, d, k) || (!r.threw && d == c && k == h)
  {
    if c !in s.advertised then Outcome(s, true)
    else
      var bucket := if c in s.subscriptions then s.subscriptions[c] else {};
      if h in bucket then Outcome(s, true)
      else if !rosOk then Outcome(s.(subscriptions := s.subscriptions[c := bucket]), true)
      else Outcome(s.(subscriptions := s.subscriptions[c := bucket + {h}]), false)
  }

  /** `CoBridge::unsubscribe`: the last client takes the bucket with it. */
  function BridgeUnsubscribe(s: State, c: ChannelId, h: Handle): (r: Outcome)
    ensures r.st == s.(subscriptions := r.st.subscriptions)
    ensures r.st.subscriptions.Keys <= s.subscriptions.Keys
    ensures !r.threw <==> c in s.advertised && BridgeSub(s, c, h)
    ensures forall d, k :: BridgeSub(r.st, d, k) <==> BridgeSub(s, d, k) && (r.threw || d != c || k != h)
  {
    if c !in s.advertised || c !in s.subscriptions || h !in s.subscriptions[c] then Outcome(s, true)
    else if s.subscriptions[c] == {h} then Outcome(s.(subscriptions := s.subscriptions - {c}), false)
    else Outcome(s.(subscriptions := s.subscriptions[c := s.subscriptions[c] - {h}]), false)
  }

  datatype SubItem = MalformedSub | SubItem(subId: SubscriptionId, chan: ChannelId, rosOk: bool)

  /** One element of the `subscriptions` list.  `snapshot` is the copy of the
      client's table taken before the first element. */
  function SubscribeOne(s: State, h: Handle, snapshot: map<ChannelId, SubscriptionId>, item: SubItem): (r: Outcome)
    requires h in s.clients
    ensures SubsFrame(s, r.st)
  {
    if item.MalformedSub? then Outcome(s, true)
    else if item.subId in snapshot.Values || item.chan !in s.channels then Outcome(s, false)
    else
      var r := BridgeSubscribe(s, item.chan, h, item.rosOk);
      if r.threw then r
      else
        var subs := SubsOf(s, h);
        Outcome(WithSubs(r.st, h, if item.chan in subs then subs else subs[item.chan := item.subId]), false)
  }

  function SubscribeAll(s: State, h: Handle, snapshot: map<ChannelId, SubscriptionId>, items: seq<SubItem>): (r: Outcome)
    requires h in s.clients
    ensures SubsFrame(s, r.st)
    decreases |items|
  {
    if items == [] then Outcome(s, false)
    else
      var r := SubscribeOne(s, h, snapshot, items[0]);
      if r.threw then r else SubscribeAll(r.st, h, snapshot, items[1..])
  }

  /** `handle_subscribe`; a client that has not logged in gets an exception. */
  function HandleSubscribe(s: State, h: Handle, items: seq<SubItem>): (r: Outcome)
    ensures SubsFrame(s, r.st)
  {
    if h !in s.clients then Outcome(s, true)
    else SubscribeAll(s, h, s.clients[h].subs, items)
  }

  /** A hash table holding one subscription id twice yields either channel; which
      one depends on the table alone, so the choice is a function of the snapshot. */
  type Finder = (map<ChannelId, SubscriptionId>, SubscriptionId) -> ChannelId

  ghost predicate FindsEntries(find: Finder) {
    forall m: map<ChannelId, SubscriptionId>, id: SubscriptionId ::
      id in m.Values ==> find(m, id) in m && m[find(m, id)] == id
  }

  datatype UnsubItem = MalformedUnsub | UnsubItem(subId: SubscriptionId)

  function UnsubscribeOne(s: State, h: Handle, snapshot: map<ChannelId, SubscriptionId>, item: UnsubItem,
                          find: Finder): (r: Outcome)
    requires h in s.clients
    ensures SubsFrame(s, r.st)
  {
    if item.MalformedUnsub? then Outcome(s, true)
    else if item.subId !in snapshot.Values then Outcome(s, false)
    else
      var c := find(snapshot, item.subId);
      var r := BridgeUnsubscribe(s, c, h);
      if r.threw then r else Outcome(WithSubs(r.st, h, SubsOf(s, h) - {c}), false)
  }

  function UnsubscribeAll(s: State, h: Handle, snapshot: map<ChannelId, SubscriptionId>, items: seq<UnsubItem>,
                          find: Finder): (r: Outcome)
    requires h in s.clients
    ensures SubsFrame(s, r.st)
    decreases |items|
  {
    if items == [] then Outcome(s, false)
    else
      var r := UnsubscribeOne(s, h, snapshot, items[0], find);
      if r.threw then r else UnsubscribeAll(r.st, h, snapshot, items[1..], find)
  }

  /** `handle_unsubscribe` */
  function HandleUnsubscribe(s: State, h: Handle, items: seq<UnsubItem>, find: Finder): (r: Outcome)
    ensures SubsFrame(s, r.st)
  {
    if h !in s.clients then Outcome(s, true)
    else UnsubscribeAll(s, h, s.clients[h].subs, items, find)
  }

  // --------------------------------------------------- client advertisements

  function AdsOf(s: State, h: Handle): set<ClientChannelId> {
    if h in s.clients then s.clients[h].ads else {}
  }

  function ServerAds(s: State, h: Handle): set<ClientChannelId> {
    if h in s.clientChannels then s.clientChannels[h] else {}
  }

  function BridgeAds(s: State, h: Handle): set<ClientChannelId> {
    if h in s.clientAdvertised then s.clientAdvertised[h] else {}
  }

  /** Only the advertisement tables differ. */
  ghost predicate AdsFrame(s: State, s': State) {
    && s' == s.(clients := s'.clients, clientChannels := s'.clientChannels, clientAdvertised := s'.clientAdvertised)
    && s'.clients.Keys == s.clients.Keys
    && (forall k | k in s.clients :: s'.clients[k] == s.clients[k].(ads := s'.clients[k].ads))
  }

  function WithAds(s: State, h: Handle, ads: set<ClientChannelId>, mine: set<ClientChannelId>): (s': State)
    requires h in s.clients
    ensures AdsFrame(s, s') && s'.clientAdvertised == s.clientAdvertised
    ensures s'.clientChannels.Keys == s.clientChannels.Keys + {h}
    ensures forall k :: AdsOf(s', k) == if k == h then ads else AdsOf(s, k)
    ensures forall k :: ServerAds(s', k) == if k == h then mine else ServerAds(s, k)
  {
    s.(clients := s.clients[h := s.clients[h].(ads := ads)], clientChannels := s.clientChannels[h := mine])
  }

  /** `CoBridge::client_advertise`: a failed creation leaves an empty bucket behind. */
  function BridgeAdvertise(s: State, h: Handle, id: ClientChannelId, rosOk: bool): (r: Outcome)
    ensures r.st == s.(clientAdvertised := r.st.clientAdvertised)
    ensures !r.threw <==> id !in BridgeAds(s, h) && rosOk
    ensures forall k :: BridgeAds(r.st, k) == if !r.threw && k == h then BridgeAds(s, k) + {id} else BridgeAds(s, k)
  {
    var bucket := BridgeAds(s, h);
    if id in bucket then Outcome(s, true)
    else if !rosOk then Outcome(s.(clientAdvertised := s.clientAdvertised[h := bucket]), true)
    else Outcome(s.(clientAdvertised := s.clientAdvertised[h := bucket + {id}]), false)
  }

  /** `CoBridge::client_unadvertise` */
  function BridgeUnadvertise(s: State, h: Handle, id: ClientChannelId): (r: Outcome)
    ensures r.st == s.(clientAdvertised := r.st.clientAdvertised)
    ensures !r.threw <==> id in BridgeAds(s, h)
    ensures forall k :: BridgeAds(r.st, k) == if k == h then BridgeAds(s, k) - {id} else BridgeAds(s, k)
  {
    if id !in BridgeAds(s, h) then Outcome(s, true)
    else if s.clientAdvertised[h] == {id} then Outcome(s.(clientAdvertised := s.clientAdvertised - {h}), false)
    else Outcome(s.(clientAdvertised := s.clientAdvertised[h := s.clientAdvertised[h] - {id}]), false)
  }

  datatype AdItem = MalformedAd | AdItem(id: ClientChannelId, whitelisted: bool, rosOk: bool)

  /** One element of the `channels` list; `first` is fixed for the whole list, so
      inside a client's first list only the bridge notices a repeated id.  The
      bridge is told before the server looks the client up. */
  function AdvertiseOne(s: State, h: Handle, first: bool, item: AdItem): (r: Outcome)
    ensures AdsFrame(s, r.st)
    ensures h in s.clientChannels ==> r.st.clientChannels.Keys == s.clientChannels.Keys
  {
    if item.MalformedAd? then Outcome(s, true)
    else if !first && item.id in ServerAds(s, h) then Outcome(s, false)
    else if !item.whitelisted then Outcome(s, false)
    else
      var r := BridgeAdvertise(s, h, item.id, item.rosOk);
      if r.threw || h !in s.clients then Outcome(r.st, true)
      else Outcome(WithAds(r.st, h, AdsOf(s, h) + {item.id}, ServerAds(s, h) + {item.id}), false)
  }

  function AdvertiseAll(s: State, h: Handle, first: bool, items: seq<AdItem>): (r: Outcome)
    ensures AdsFrame(s, r.st)
    ensures h in s.clientChannels ==> r.st.clientChannels.Keys == s.clientChannels.Keys
    decreases |items|
  {
    if items == [] then Outcome(s, false)
    else
      var r := AdvertiseOne(s, h, first, items[0]);
      if r.threw then r else AdvertiseAll(r.st, h, first, items[1..])
  }

  /** `handle_advertise`: the client's table is created even when nothing is added. */
  function HandleAdvertise(s: State, h: Handle, items: seq<AdItem>): (r: Outcome)
    ensures AdsFrame(s, r.st)
    ensures r.st.clientChannels.Keys == s.clientChannels.Keys + {h}
  {
    var first := h !in s.clientChannels;
    AdvertiseAll(if first then s.(clientChannels := s.clientChannels[h := {}]) else s, h, first, items)
  }

  datatype UnadItem = MalformedUnad | UnadItem(id: ClientChannelId)

  function UnadvertiseOne(s: State, h: Handle, item: UnadItem): (r: Outcome)
    ensures AdsFrame(s, r.st)
    ensures h in s.clientChannels ==> r.st.clientChannels.Keys == s.clientChannels.Keys
  {
    if item.MalformedUnad? then Outcome(s, true)
    else if item.id !in ServerAds(s, h) then Outcome(s, false)
    else
      var r := BridgeUnadvertise(s, h, item.id);
      if r.threw || h !in s.clients then Outcome(r.st, true)
      else Outcome(WithAds(r.st, h, AdsOf(s, h) - {item.id}, ServerAds(s, h) - {item.id}), false)
  }

  function UnadvertiseAll(s: State, h: Handle, items: seq<UnadItem>): (r: Outcome)
    ensures AdsFrame(s, r.st)
    ensures h in s.clientChannels ==> r.st.clientChannels.Keys == s.clientChannels.Keys
    decreases |items|
  {
    if items == [] then Outcome(s, false)
    else
      var r := UnadvertiseOne(s, h, items[0]);
      if r.threw then r else UnadvertiseAll(r.st, h, items[1..])
  }

  /** `handle_unadvertise` */
  function HandleUnadvertise(s: State, h: Handle, items: seq<UnadItem>): (r: Outcome)
    ensures AdsFrame(s, r.st) && r.st.clientChannels.Keys == s.clientChannels.Keys
  {
    if h !in s.clientChannels then Outcome(s, false)
    else UnadvertiseAll(s, h, items)
  }

  // -------------------------------------------------- parameter subscriptions

  /** Every parameter some client holds. */
  function HeldParams(params: map<Handle, set<string>>): set<string> {
    set h, p | h in params && p in params[h] :: p
  }

  function CallParams(s: State, call: ParamCall): (s': State)
    ensures s' == s.(paramCalls := s'.paramCalls)
  {
    if call.names == {} then s else s.(paramCalls := s.paramCalls + [call])
  }

  /** `handle_subscribe_parameter_updates` */
  function SubscribeParams(s: State, h: Handle, names: set<string>): (s': State)
    ensures s' == s.(params := s'.params, paramCalls := s'.paramCalls)
    ensures s'.params.Keys == s.params.Keys + {h}
  {
    var unheld := names - HeldParams(s.params);
    var mine := if h in s.params then s.params[h] else {};
    CallParams(s.(params := s.params[h := mine + names]), Subscribe(unheld))
  }

  /** `unsubscribe_params_without_subscriptions` */
  function DropUnheld(s: State, names: set<string>): (s': State)
    ensures s' == s.(paramCalls := s'.paramCalls)
  {
    CallParams(s, Unsubscribe(names - HeldParams(s.params)))
  }

  /** `handle_unsubscribe_parameter_updates` */
  function UnsubscribeParams(s: State, h: Handle, names: set<string>): (s': State)
    ensures s' == s.(params := s'.params, paramCalls := s'.paramCalls)
    ensures s'.params.Keys == s.params.Keys + {h}
  {
    var mine := if h in s.params then s.params[h] else {};
    DropUnheld(s.(params := s.params[h := mine - names]), names)
  }

  // ------------------------------------------------------- connection graph

  /** Only the connection-graph bookkeeping differs. */
  ghost predicate GraphFrame(s: State, s': State) {
    && s' == s.(clients := s'.clients, graphCount := s'.graphCount, graphCalls := s'.graphCalls)
    && s'.clients.Keys == s.clients.Keys
    && (forall k | k in s.clients :: s'.clients[k] == s.clients[k].(graphFlag := s'.clients[k].graphFlag))
  }

  /** `handle_subscribe_connection_graph`: only the subscriber that raises the
      count to one gets the flag. */
  function SubscribeGraph(s: State, h: Handle, handlerOk: bool): (r: Outcome)
    ensures GraphFrame(s, r.st)
  {
    var s1 := s.(graphCount := s.graphCount + 1);
    if s1.graphCount != 1 then Outcome(s1, false)
    else
      var s2 := s1.(graphCalls := s1.graphCalls + [true]);
      if !handlerOk || h !in s2.clients then Outcome(s2, true)
      else Outcome(s2.(clients := s2.clients[h := s2.clients[h].(graphFlag := true)]), false)
  }

  function ReleaseGraph(s: State): (s': State)
    ensures s' == s.(graphCount := s.graphCount - 1, graphCalls := s'.graphCalls)
  {
    var s1 := s.(graphCount := s.graphCount - 1);
    if s1.graphCount == 0 then s1.(graphCalls := s1.graphCalls + [false]) else s1
  }

  /** `handle_unsubscribe_connection_graph` */
  function UnsubscribeGraph(s: State, h: Handle): (r: Outcome)
    ensures GraphFrame(s, r.st)
  {
    if h !in s.clients then Outcome(s, true)
    else if !s.clients[h].graphFlag then Outcome(s, false)
    else Outcome(ReleaseGraph(s.(clients := s.clients[h := s.clients[h].(graphFlag := false)])), false)
  }

  // ------------------------------------------------------------------- close

  /** The bridge's table after unadvertising every id of `ads`; exceptions are
      swallowed, so the order of the ids does not matter. */
  function ReleasedAds(table: map<Handle, set<ClientChannelId>>, h: Handle, ads: set<ClientChannelId>):
    map<Handle, set<ClientChannelId>>
  {
    if h !in table || table[h] !! ads then table
    else if table[h] <= ads then table - {h}
    else table[h := table[h] - ads]
  }

  /** The bridge's table after unsubscribing `h` from every channel of `chans`;
      `live` are the advertised channels, the others only raise a swallowed exception. */
  function ReleasedSubs(table: map<ChannelId, set<Handle>>, live: set<ChannelId>, h: Handle, chans: set<ChannelId>):
    map<ChannelId, set<Handle>>
  {
    map c | c in table && !(c in live * chans && table[c] == {h}) ::
      if c in live * chans then table[c] - {h} else table[c]
  }

  lemma {:induction false} ReleaseOneMoreSub(w: State, table: map<ChannelId, set<Handle>>, h: Handle, done: set<ChannelId>, c: ChannelId)
    requires w.subscriptions == ReleasedSubs(table, w.advertised.Keys, h, done)
    ensures BridgeUnsubscribe(w, c, h).st.subscriptions == ReleasedSubs(table, w.advertised.Keys, h, done + {c})
  {
    var after := BridgeUnsubscribe(w, c, h).st.subscriptions;
    var goal := ReleasedSubs(table, w.advertised.Keys, h, done + {c});
    forall d: ChannelId ensures (d in after <==> d in goal) && (d in after ==> after[d] == goal[d]) {
      ReleaseOneSubAt(w, table, h, done, c, d);
    }
  }

  lemma {:induction false} ReleaseOneSubAt(w: State, table: map<ChannelId, set<Handle>>, h: Handle, done: set<ChannelId>,
                                           c: ChannelId, d: ChannelId)
    requires w.subscriptions == ReleasedSubs(table, w.advertised.Keys, h, done)
    ensures var after := BridgeUnsubscribe(w, c, h).st.subscriptions;
            var goal := ReleasedSubs(table, w.advertised.Keys, h, done + {c});
            (d in after <==> d in goal) && (d in after ==> after[d] == goal[d])
  {
    if d == c && c in table { assert table[c] - {h} - {h} == table[c] - {h}; }
  }

  function CloseParams(s: State, h: Handle): (s': State)
    ensures s' == s.(params := s.params - {h}, paramCalls := s'.paramCalls)
  {
    var mine := if h in s.params then s.params[h] else {};
    DropUnheld(s.(params := s.params - {h}), mine)
  }

  /** Everything `handle_connection_closed` does before it looks at the flag for
      connection-graph updates. */
  function CloseTables(s: State, h: Handle): (s': State)
    requires h in s.clients
    ensures s' == s.(
        clients := s.clients - {h},
        clientChannels := s.clientChannels - {h},
        params := s.params - {h},
        clientAdvertised := ReleasedAds(s.clientAdvertised, h, s.clients[h].ads),
        subscriptions := ReleasedSubs(s.subscriptions, s.advertised.Keys, h, s.clients[h].subs.Keys),
        paramCalls := s'.paramCalls)
  {
    var cl := s.clients[h];
    CloseParams(s.(clients := s.clients - {h},
                   clientChannels := s.clientChannels - {h},
                   clientAdvertised := ReleasedAds(s.clientAdvertised, h, cl.ads),
                   subscriptions := ReleasedSubs(s.subscriptions, s.advertised.Keys, h, cl.subs.Keys)), h)
  }

  /** `handle_connection_closed` */
  function Close(s: State, h: Handle): (s': State)
    ensures h in s.clients ==>
              s' == CloseTables(s, h).(graphCount := s'.graphCount, graphCalls := s'.graphCalls)
  {
    if h !in s.clients then s
    else if s.clients[h].graphFlag then ReleaseGraph(CloseTables(s, h))
    else CloseTables(s, h)
  }

  // ---------------------------------------------------------- topic updates

  function WithoutSubs(clients: map<Handle, Client>, ids: set<ChannelId>): (r: map<Handle, Client>)
    ensures r.Keys == clients.Keys
    ensures forall k | k in clients :: r[k] == clients[k].(subs := clients[k].subs - ids)
  {
    map k | k in clients :: clients[k].(subs := clients[k].subs - ids)
  }

  /** `remove_channels` */
  function RemoveChannels(s: State, ids: set<ChannelId>): (s': State)
    ensures SubsFrame(s.(channels := s.channels - ids), s')
  {
    s.(channels := s.channels - ids, clients := WithoutSubs(s.clients, ids))
  }

  /** Consecutive ids starting after `next`. */
  function Number(next: nat, chans: seq<Channel>): (r: map<ChannelId, Channel>)
    ensures forall id :: id in r <==> next < id <= next + |chans|
    ensures forall id | id in r :: r[id] == chans[id - next - 1]
  {
    if chans == [] then map[]
    else Number(next, chans[..|chans| - 1])[next + |chans| := chans[|chans| - 1]]
  }

  /** `add_channels` */
  function AddChannels(s: State, chans: seq<Channel>): State {
    s.(channels := s.channels + Number(s.nextId, chans), nextId := s.nextId + |chans|)
  }

  type TopicAndType = (string, string)

  function Pair(ch: Channel): TopicAndType { (ch.topic, ch.schemaName) }

  /** What the definition cache says about a datatype: `Missing` is advertised with
      an empty schema, `Rejected` is not advertised at all. */
  datatype Lookup = Found(schema: string) | Missing | Rejected

  function Pairs(chans: map<ChannelId, Channel>): set<TopicAndType> {
    set id | id in chans :: Pair(chans[id])
  }

  /** The topics of `latest` that need a channel: not advertised yet, lookup not rejected. */
  function Wanted(known: set<TopicAndType>, latest: seq<TopicAndType>, lookup: string -> Lookup): (r: seq<TopicAndType>)
    ensures forall p :: p in r <==> p in latest && p !in known && !lookup(p.1).Rejected?
    ensures Distinct(latest) ==> Distinct(r)
  {
    if latest == [] then []
    else
      var last := |latest| - 1;
      var rest := Wanted(known, latest[..last], lookup);
      if latest[last] in known || lookup(latest[last].1).Rejected? then rest else rest + [latest[last]]
  }

  function NewChannel(p: TopicAndType, lookup: string -> Lookup): Channel {
    Channel(p.0, p.1, if lookup(p.1).Found? then lookup(p.1).schema else "")
  }

  function NewChannels(wanted: seq<TopicAndType>, lookup: string -> Lookup): (r: seq<Channel>)
    ensures |r| == |wanted|
    ensures forall i | 0 <= i < |r| :: Pair(r[i]) == wanted[i]
  {
    seq(|wanted|, i requires 0 <= i < |wanted| => NewChannel(wanted[i], lookup))
  }

  function Departed(chans: map<ChannelId, Channel>, latest: seq<TopicAndType>): set<ChannelId> {
    set id | id in chans && Pair(chans[id]) !in latest
  }

  /** `is_hidden_topic_or_service`, which throws on the empty name. */
  predicate Hidden(name: string)
    requires name != ""
  {
    name[0] == '_' || exists i :: 0 <= i < |name| - 1 && name[i] == '/' && name[i + 1] == '_'
  }

  /** The name begins with an underscore, or one of its parts does. */
  lemma {:induction false} HiddenIff(name: string)
    requires name != ""
    ensures Hidden(name) <==> (exists b :: name == "_" + b) || exists a, b :: name == a + "/_" + b
  {
    if name[0] == '_' { assert name == "_" + name[1..]; }
    if i :| 0 <= i < |name| - 1 && name[i] == '/' && name[i + 1] == '_' {
      assert name == name[..i] + "/_" + name[i + 2..];
    }
    if a, b :| name == a + "/_" + b { assert name[|a|] == '/' && name[|a| + 1] == '_'; }
  }

  predicate Shown(name: string, includeHidden: bool, whitelisted: string -> bool) {
    (includeHidden || (name != "" && !Hidden(name))) && whitelisted(name)
  }

  /** The topics of the ROS graph that are offered to clients. */
  function Visible(topics: map<string, seq<string>>, includeHidden: bool, whitelisted: string -> bool): set<TopicAndType> {
    set name, i | name in topics && 0 <= i < |topics[name]| && Shown(name, includeHidden, whitelisted) ::
      (name, topics[name][i])
  }

  /** One topic under each of its types. */
  function WithTypes(name: string, types: seq<string>): set<TopicAndType> {
    set i | 0 <= i < |types| :: (name, types[i])
  }

  lemma {:induction false} NothingVisible(topics: map<string, seq<string>>, includeHidden: bool, whitelisted: string -> bool)
    ensures Visible(topics - (topics.Keys - {}), includeHidden, whitelisted) == {}
  {
  }

  lemma {:induction false} AllTopics(topics: map<string, seq<string>>)
    ensures topics - (topics.Keys - topics.Keys) == topics
  {
  }

  lemma {:induction false} VisibleOneMore(topics: map<string, seq<string>>, done: set<string>, name: string,
                                          includeHidden: bool, whitelisted: string -> bool)
    requires name in topics && name !in done
    ensures var before, after := topics - (topics.Keys - done), topics - (topics.Keys - (done + {name}));
            Visible(after, includeHidden, whitelisted) ==
            Visible(before, includeHidden, whitelisted) +
            if Shown(name, includeHidden, whitelisted) then WithTypes(name, topics[name]) else {}
  {
    var before, after := topics - (topics.Keys - done), topics - (topics.Keys - (done + {name}));
    var more := if Shown(name, includeHidden, whitelisted) then WithTypes(name, topics[name]) else {};
    forall p ensures p in Visible(after, includeHidden, whitelisted) <==>
                     p in Visible(before, includeHidden, whitelisted) + more
    {
      VisibleIff(after, includeHidden, whitelisted, p);
      VisibleIff(before, includeHidden, whitelisted, p);
      if p.0 == name && p.1 in topics[name] {
        var i :| 0 <= i < |topics[name]| && topics[name][i] == p.1;
        assert p in WithTypes(name, topics[name]);
      }
    }
  }

  lemma {:induction false} VisibleIff(topics: map<string, seq<string>>, includeHidden: bool, whitelisted: string -> bool,
                                      p: TopicAndType)
    ensures p in Visible(topics, includeHidden, whitelisted) <==>
            p.0 in topics && p.1 in topics[p.0] && Shown(p.0, includeHidden, whitelisted)
  {
    if p.0 in topics && p.1 in topics[p.0] && Shown(p.0, includeHidden, whitelisted) {
      var i :| 0 <= i < |topics[p.0]| && topics[p.0][i] == p.1;
      assert (p.0, topics[p.0][i]) in Visible(topics, includeHidden, whitelisted);
    }
  }

  /** `CoBridge::update_advertised_topics`; `latest` lists the visible, whitelisted
      topics in the order the hash set yields them. */
  function UpdateTopics(s: State, latest: seq<TopicAndType>, lookup: string -> Lookup): (s': State)
    ensures SubsFrame(s.(nextId := s'.nextId, channels := s'.channels, advertised := s'.advertised), s')
  {
    var gone := Departed(s.advertised, latest);
    var s1 := s.(advertised := s.advertised - gone, subscriptions := s.subscriptions - gone);
    var s2 := RemoveChannels(s1, gone);
    var chans := NewChannels(Wanted(Pairs(s2.advertised), latest, lookup), lookup);
    var s3 := AddChannels(s2, chans);
    s3.(advertised := s3.advertised + Number(s2.nextId, chans))
  }
}
