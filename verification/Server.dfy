/** The server and the bridge as objects whose methods update their tables in
    place.  Every method is proved to do what Protocol.dfy says, so the theorems
    of Runs.dfy and Signals.dfy are theorems about these objects.

    A method that can leave by an exception returns `threw`.  The bridge's methods
    take the tables of both objects as a ghost argument: it lets their contracts
    speak about the whole state although they touch only their own part. */
module ServerObjects {
  import opened Sequences
  import opened Protocol

  class CoBridge {
    var advertised: map<ChannelId, Channel>
    var subscriptions: map<ChannelId, set<Handle>>
    var clientAdvertised: map<Handle, set<ClientChannelId>>
    var subscribeGraphUpdates: bool
    ghost var graphCalls: seq<bool>
    ghost var paramCalls: seq<ParamCall>

    constructor ()
      ensures advertised == map[] && subscriptions == map[] && clientAdvertised == map[]
      ensures graphCalls == [] && paramCalls == [] && !subscribeGraphUpdates
    {
      advertised, subscriptions, clientAdvertised := map[], map[], map[];
      subscribeGraphUpdates := false;
      graphCalls, paramCalls := [], [];
    }

    ghost predicate Holds(w: State)
      reads this
    {
      && w.advertised == advertised && w.subscriptions == subscriptions && w.clientAdvertised == clientAdvertised
      && w.graphCalls == graphCalls && w.paramCalls == paramCalls
    }

    method Subscribe(ghost w: State, c: ChannelId, h: Handle, rosOk: bool) returns (threw: bool)
      requires Holds(w)
      modifies this`subscriptions
      ensures BridgeSubscribe(w, c, h, rosOk) == Outcome(w.(subscriptions := subscriptions), threw)
    {
      if c !in advertised { return true; }
      var first := c !in subscriptions;
      if first { subscriptions := subscriptions[c := {}]; }
      if !first && h in subscriptions[c] { return true; }
      if !rosOk {
        assert !first ==> subscriptions == subscriptions[c := subscriptions[c]];
        return true;
      }
      subscriptions := subscriptions[c := subscriptions[c] + {h}];
      assert first ==> subscriptions == old(subscriptions)[c := {} + {h}];
      return false;
    }

    method Unsubscribe(ghost w: State, c: ChannelId, h: Handle) returns (threw: bool)
      requires Holds(w)
      modifies this`subscriptions
      ensures BridgeUnsubscribe(w, c, h) == Outcome(w.(subscriptions := subscriptions), threw)
    {
      if c !in advertised { return true; }
      if c !in subscriptions { return true; }
      if h !in subscriptions[c] { return true; }
      subscriptions := subscriptions[c := subscriptions[c] - {h}];
      if subscriptions[c] == {} {
        subscriptions := subscriptions - {c};
        assert old(subscriptions)[c] == {h};
        assert subscriptions == old(subscriptions) - {c};
      }
      return false;
    }

    method ClientAdvertise(ghost w: State, h: Handle, id: ClientChannelId, rosOk: bool) returns (threw: bool)
      requires Holds(w)
      modifies this`clientAdvertised
      ensures BridgeAdvertise(w, h, id, rosOk) == Outcome(w.(clientAdvertised := clientAdvertised), threw)
    {
      var first := h !in clientAdvertised;
      if first { clientAdvertised := clientAdvertised[h := {}]; }
      if !first && id in clientAdvertised[h] { return true; }
      if !rosOk {
        assert !first ==> clientAdvertised == clientAdvertised[h := clientAdvertised[h]];
        return true;
      }
      clientAdvertised := clientAdvertised[h := clientAdvertised[h] + {id}];
      assert first ==> clientAdvertised == old(clientAdvertised)[h := {} + {id}];
      return false;
    }

    method ClientUnadvertise(ghost w: State, h: Handle, id: ClientChannelId) returns (threw: bool)
      requires Holds(w)
      modifies this`clientAdvertised
      ensures BridgeUnadvertise(w, h, id) == Outcome(w.(clientAdvertised := clientAdvertised), threw)
    {
      if h !in clientAdvertised { return true; }
      if id !in clientAdvertised[h] { return true; }
      clientAdvertised := clientAdvertised[h := clientAdvertised[h] - {id}];
      if clientAdvertised[h] == {} {
        clientAdvertised := clientAdvertised - {h};
        assert old(clientAdvertised)[h] == {id};
        assert clientAdvertised == old(clientAdvertised) - {h};
      }
      return false;
    }

    /** The first loop of `update_advertised_topics`, over the topics of the ROS graph; an
        empty name makes it throw. */
    static method VisibleTopics(topics: map<string, seq<string>>, includeHidden: bool, whitelisted: string -> bool)
      returns (latest: set<TopicAndType>, threw: bool)
      ensures threw <==> !includeHidden && "" in topics
      ensures !threw ==> latest == Visible(topics, includeHidden, whitelisted)
    {
      latest := {};
      var done: set<string> := {};
      NothingVisible(topics, includeHidden, whitelisted);
      while done != topics.Keys
        invariant done <= topics.Keys && (includeHidden || "" !in done)
        invariant latest == Visible(topics - (topics.Keys - done), includeHidden, whitelisted)
        decreases |topics.Keys - done|
      {
        var name :| name in topics.Keys - done;
        if !includeHidden && name == "" { return {}, true; }
        VisibleOneMore(topics, done, name, includeHidden, whitelisted);
        latest := EmplaceTopic(latest, name, topics[name], includeHidden, whitelisted);
        done := done + {name};
      }
      AllTopics(topics);
      return latest, false;
    }

    static method EmplaceTopic(latest: set<TopicAndType>, name: string, types: seq<string>,
                               includeHidden: bool, whitelisted: string -> bool)
      returns (r: set<TopicAndType>)
      requires includeHidden || name != ""
      ensures r == latest + if Shown(name, includeHidden, whitelisted) then WithTypes(name, types) else {}
    {
      if (includeHidden || !Hidden(name)) && whitelisted(name) {
        r := EmplaceTypes(latest, name, types);
      } else {
        r := latest;
      }
    }

    static method EmplaceTypes(latest: set<TopicAndType>, name: string, types: seq<string>) returns (r: set<TopicAndType>)
      ensures r == latest + WithTypes(name, types)
    {
      r := latest;
      for i := 0 to |types|
        invariant r == latest + WithTypes(name, types[..i])
      {
        r := r + {(name, types[i])};
      }
      assert types[..|types|] == types;
    }

    /** The erase-while-iterating loop: drop every channel whose topic is gone. */
    method DropDeparted(latest: seq<TopicAndType>) returns (ids: seq<ChannelId>)
      modifies this`advertised, this`subscriptions
      ensures Elements(ids) == Departed(old(advertised), latest)
      ensures advertised == old(advertised) - Departed(old(advertised), latest)
      ensures subscriptions == old(subscriptions) - Departed(old(advertised), latest)
    {
      ids := [];
      ghost var table := advertised;
      var todo := advertised.Keys;
      ghost var gone: set<ChannelId> := {};
      while todo != {}
        invariant todo <= table.Keys && gone == Elements(ids)
        invariant gone == Departed(table, latest) - todo
        invariant advertised == table - gone
        invariant subscriptions == old(subscriptions) - gone
      {
        var id :| id in todo;
        todo := todo - {id};
        if Pair(advertised[id]) !in latest {
          ids := ids + [id];
          gone := gone + {id};
          subscriptions := subscriptions - {id};
          advertised := advertised - {id};
        }
      }
      assert gone == Departed(table, latest);
    }

    /** The topics nobody advertises yet, with the schema the definition cache found. */
    method ChannelsToAdd(latest: seq<TopicAndType>, lookup: string -> Lookup) returns (chans: seq<Channel>)
      ensures chans == NewChannels(Wanted(Pairs(advertised), latest, lookup), lookup)
    {
      chans := [];
      for i := 0 to |latest|
        invariant chans == NewChannels(Wanted(Pairs(advertised), latest[..i], lookup), lookup)
      {
        assert latest[..i + 1][..i] == latest[..i];
        if exists id | id in advertised :: Pair(advertised[id]) == latest[i] { continue; }
        if lookup(latest[i].1).Rejected? { continue; }
        chans := chans + [NewChannel(latest[i], lookup)];
      }
      assert latest[..|latest|] == latest;
    }

    method StoreChannels(ids: seq<ChannelId>, chans: seq<Channel>, ghost next: nat)
      requires |ids| == |chans| && forall i | 0 <= i < |ids| :: ids[i] == next + 1 + i
      modifies this`advertised
      ensures advertised == old(advertised) + Number(next, chans)
    {
      ghost var base := advertised;
      for i := 0 to |chans|
        invariant advertised == Numbered(base, next, chans, i)
      {
        NumberOneMore(base, next, chans, i);
        advertised := advertised[ids[i] := chans[i]];
      }
      assert chans[..|chans|] == chans;
    }

    /** `update_advertised_topics`, from the point where it takes the lock. */
    method UpdateAdvertisedTopics(server: Server, latest: seq<TopicAndType>, lookup: string -> Lookup)
      requires server.bridge == this
      modifies this`advertised, this`subscriptions, server`channels, server`clients, server`nextId
      ensures server.Tables() == UpdateTopics(old(server.Tables()), latest, lookup)
    {
      ghost var s := server.Tables();
      ghost var gone := Departed(s.advertised, latest);
      var ids := DropDeparted(latest);
      ghost var s1 := s.(advertised := s.advertised - gone, subscriptions := s.subscriptions - gone);
      assert server.Tables() == s1;
      server.RemoveChannels(ids);
      ghost var s2 := Protocol.RemoveChannels(s1, gone);
      assert server.Tables() == s2;
      var chans := ChannelsToAdd(latest, lookup);
      var newIds := server.AddChannels(chans);
      ghost var s3 := Protocol.AddChannels(s2, chans);
      assert server.Tables() == s3;
      StoreChannels(newIds, chans, s2.nextId);
      assert server.Tables() == s3.(advertised := s3.advertised + Number(s2.nextId, chans));
    }

    method SubscribeConnectionGraph(subscribe: bool)
      modifies this`subscribeGraphUpdates, this`graphCalls
      ensures subscribeGraphUpdates == subscribe && graphCalls == old(graphCalls) + [subscribe]
    {
      subscribeGraphUpdates := subscribe;
      graphCalls := graphCalls + [subscribe];
    }

    method SubscribeParameters(call: ParamCall)
      modifies this`paramCalls
      ensures paramCalls == old(paramCalls) + [call]
    {
      paramCalls := paramCalls + [call];
    }
  }

  class Server {
    const bridge: CoBridge
    var nextId: nat
    var clients: map<Handle, Client>
    var channels: map<ChannelId, Channel>
    var clientChannels: map<Handle, set<ClientChannelId>>
    var params: map<Handle, set<string>>
    var graphCount: int

    constructor (bridge: CoBridge)
      ensures this.bridge == bridge
      ensures nextId == 0 && clients == map[] && channels == map[] && clientChannels == map[] && params == map[] && graphCount == 0
    {
      this.bridge := bridge;
      nextId, clients, channels, clientChannels, params, graphCount := 0, map[], map[], map[], map[], 0;
    }

    /** The tables of both objects. */
    ghost function Tables(): (s: State)
      reads this, bridge
      ensures bridge.Holds(s)
    {
      State(nextId, clients, channels, clientChannels, params, graphCount,
            bridge.advertised, bridge.subscriptions, bridge.clientAdvertised, bridge.graphCalls, bridge.paramCalls)
    }

    // ------------------------------------------------------------ login

    /** Kick the clients in the order of the table, up to the first lost connection. */
    method KickClients(lost: set<Handle>) returns (threw: bool)
      modifies this`clients
      ensures clients == Kicked(old(clients), lost * old(clients).Keys)
      ensures threw <==> lost * old(clients).Keys != {}
    {
      ghost var table := clients;
      var todo := clients.Keys;
      while todo != {}
        invariant todo <= table.Keys && lost * table.Keys <= todo
        invariant clients == KickedExcept(table, todo)
        invariant forall k, l | k in table && k !in todo && l in todo :: k < l
      {
        var k := Least(todo);
        if k in lost {
          KickedUpTo(table, todo, k, lost * table.Keys);
          return true;
        }
        KickOneMore(table, todo, k);
        clients := clients[k := clients[k].(login := false)];
        todo := todo - {k};
      }
      KickedAll(table, lost * table.Keys);
      return false;
    }

    /** The new handle's own connection is looked up after it was inserted. */
    method HandleLogin(h: Handle, user: string, lost: set<Handle>) returns (threw: bool)
      modifies this`clients
      ensures Tables() == Login(old(Tables()), h, user, lost)
      ensures threw <==> h in lost || LostClients(old(Tables()), lost) != {}
    {
      LostAre(Tables(), lost);
      threw := KickClients(lost);
      if threw { return; }
      if h !in clients { clients := clients[h := NewClient(user)]; }
      return h in lost;
    }

    // ---------------------------------------------------- subscriptions

    method SubscribeItem(h: Handle, snapshot: map<ChannelId, SubscriptionId>, item: SubItem) returns (threw: bool)
      requires h in clients
      modifies this`clients, bridge`subscriptions
      ensures h in clients
      ensures Outcome(Tables(), threw) == SubscribeOne(old(Tables()), h, snapshot, item)
    {
      if item.MalformedSub? { return true; }
      if item.subId in snapshot.Values { return false; }
      if item.chan !in channels { return false; }
      threw := bridge.Subscribe(Tables(), item.chan, h, item.rosOk);
      if threw { return; }
      if item.chan !in clients[h].subs {
        clients := clients[h := clients[h].(subs := clients[h].subs[item.chan := item.subId])];
      } else {
        assert clients == clients[h := clients[h].(subs := clients[h].subs)];
      }
    }

    method HandleSubscribe(h: Handle, items: seq<SubItem>) returns (threw: bool)
      modifies this`clients, bridge`subscriptions
      ensures Outcome(Tables(), threw) == Protocol.HandleSubscribe(old(Tables()), h, items)
    {
      if h !in clients { return true; }
      var snapshot := clients[h].subs;
      for i := 0 to |items|
        invariant h in clients
        invariant SubscribeAll(Tables(), h, snapshot, items[i..]) == SubscribeAll(old(Tables()), h, snapshot, items)
      {
        assert items[i..][1..] == items[i + 1..];
        threw := SubscribeItem(h, snapshot, items[i]);
        if threw { return; }
      }
      return false;
    }

    method UnsubscribeItem(h: Handle, snapshot: map<ChannelId, SubscriptionId>, item: UnsubItem, find: Finder)
      returns (threw: bool)
      requires h in clients
      modifies this`clients, bridge`subscriptions
      ensures h in clients
      ensures Outcome(Tables(), threw) == UnsubscribeOne(old(Tables()), h, snapshot, item, find)
    {
      if item.MalformedUnsub? { return true; }
      if item.subId !in snapshot.Values { return false; }
      var c := find(snapshot, item.subId);
      threw := bridge.Unsubscribe(Tables(), c, h);
      if threw { return; }
      clients := clients[h := clients[h].(subs := clients[h].subs - {c})];
    }

    method HandleUnsubscribe(h: Handle, items: seq<UnsubItem>, find: Finder) returns (threw: bool)
      modifies this`clients, bridge`subscriptions
      ensures Outcome(Tables(), threw) == Protocol.HandleUnsubscribe(old(Tables()), h, items, find)
    {
      if h !in clients { return true; }
      var snapshot := clients[h].subs;
      for i := 0 to |items|
        invariant h in clients
        invariant UnsubscribeAll(Tables(), h, snapshot, items[i..], find) ==
                  UnsubscribeAll(old(Tables()), h, snapshot, items, find)
      {
        assert items[i..][1..] == items[i + 1..];
        threw := UnsubscribeItem(h, snapshot, items[i], find);
        if threw { return; }
      }
      return false;
    }

    // --------------------------------------------- client advertisements

    method AdvertiseItem(h: Handle, first: bool, item: AdItem) returns (threw: bool)
      requires h in clientChannels
      modifies this`clients, this`clientChannels, bridge`clientAdvertised
      ensures h in clientChannels
      ensures Outcome(Tables(), threw) == AdvertiseOne(old(Tables()), h, first, item)
    {
      if item.MalformedAd? { return true; }
      if !first && item.id in clientChannels[h] { return false; }
      if !item.whitelisted { return false; }
      threw := bridge.ClientAdvertise(Tables(), h, item.id, item.rosOk);
      if threw { return; }
      if h !in clients { return true; }
      clients := clients[h := clients[h].(ads := clients[h].ads + {item.id})];
      clientChannels := clientChannels[h := clientChannels[h] + {item.id}];
    }

    method HandleAdvertise(h: Handle, items: seq<AdItem>) returns (threw: bool)
      modifies this`clients, this`clientChannels, bridge`clientAdvertised
      ensures Outcome(Tables(), threw) == Protocol.HandleAdvertise(old(Tables()), h, items)
    {
      var first := h !in clientChannels;
      if first { clientChannels := clientChannels[h := {}]; }
      ghost var s0 := Tables();
      for i := 0 to |items|
        invariant h in clientChannels
        invariant AdvertiseAll(Tables(), h, first, items[i..]) == AdvertiseAll(s0, h, first, items)
      {
        assert items[i..][1..] == items[i + 1..];
        threw := AdvertiseItem(h, first, items[i]);
        if threw { return; }
      }
      return false;
    }

    method UnadvertiseItem(h: Handle, item: UnadItem) returns (threw: bool)
      requires h in clientChannels
      modifies this`clients, this`clientChannels, bridge`clientAdvertised
      ensures h in clientChannels
      ensures Outcome(Tables(), threw) == UnadvertiseOne(old(Tables()), h, item)
    {
      if item.MalformedUnad? { return true; }
      if item.id !in clientChannels[h] { return false; }
      threw := bridge.ClientUnadvertise(Tables(), h, item.id);
      if threw { return; }
      if h !in clients { return true; }
      clientChannels := clientChannels[h := clientChannels[h] - {item.id}];
      clients := clients[h := clients[h].(ads := clients[h].ads - {item.id})];
    }

    method HandleUnadvertise(h: Handle, items: seq<UnadItem>) returns (threw: bool)
      modifies this`clients, this`clientChannels, bridge`clientAdvertised
      ensures Outcome(Tables(), threw) == Protocol.HandleUnadvertise(old(Tables()), h, items)
    {
      if h !in clientChannels { return false; }
      for i := 0 to |items|
        invariant h in clientChannels
        invariant UnadvertiseAll(Tables(), h, items[i..]) == UnadvertiseAll(old(Tables()), h, items)
      {
        assert items[i..][1..] == items[i + 1..];
        threw := UnadvertiseItem(h, items[i]);
        if threw { return; }
      }
      return false;
    }

    // ------------------------------------------- parameter subscriptions

    /** `is_parameter_subscribed` */
    predicate IsParameterSubscribed(p: string)
      reads this`params
      ensures IsParameterSubscribed(p) <==> p in HeldParams(params)
    {
      exists h | h in params :: p in params[h]
    }

    method HandleSubscribeParameterUpdates(h: Handle, names: set<string>)
      modifies this`params, bridge`paramCalls
      ensures Tables() == SubscribeParams(old(Tables()), h, names)
    {
      var unheld := set p | p in names && !IsParameterSubscribed(p);
      assert unheld == names - HeldParams(params);
      if h !in params { params := params[h := {}]; }
      params := params[h := params[h] + names];
      assert params == old(params)[h := (if h in old(params) then old(params)[h] else {}) + names];
      if unheld != {} { bridge.SubscribeParameters(ParamCall.Subscribe(unheld)); }
    }

    method UnsubscribeParamsWithoutSubscriptions(names: set<string>)
      modifies bridge`paramCalls
      ensures Tables() == DropUnheld(old(Tables()), names)
    {
      var unheld := set p | p in names && !IsParameterSubscribed(p);
      assert unheld == names - HeldParams(params);
      if unheld != {} { bridge.SubscribeParameters(ParamCall.Unsubscribe(unheld)); }
    }

    method HandleUnsubscribeParameterUpdates(h: Handle, names: set<string>)
      modifies this`params, bridge`paramCalls
      ensures Tables() == UnsubscribeParams(old(Tables()), h, names)
    {
      if h !in params { params := params[h := {}]; }
      params := params[h := params[h] - names];
      assert params == old(params)[h := (if h in old(params) then old(params)[h] else {}) - names];
      UnsubscribeParamsWithoutSubscriptions(names);
    }

    // -------------------------------------------------- connection graph

    method HandleSubscribeConnectionGraph(h: Handle, handlerOk: bool) returns (threw: bool)
      modifies this`clients, this`graphCount, bridge`subscribeGraphUpdates, bridge`graphCalls
      ensures Outcome(Tables(), threw) == SubscribeGraph(old(Tables()), h, handlerOk)
    {
      graphCount := graphCount + 1;
      if graphCount == 1 {
        bridge.SubscribeConnectionGraph(true);
        if !handlerOk || h !in clients { return true; }
        clients := clients[h := clients[h].(graphFlag := true)];
      }
      return false;
    }

    method HandleUnsubscribeConnectionGraph(h: Handle) returns (threw: bool)
      modifies this`clients, this`graphCount, bridge`subscribeGraphUpdates, bridge`graphCalls
      ensures Outcome(Tables(), threw) == UnsubscribeGraph(old(Tables()), h)
    {
      if h !in clients { return true; }
      if clients[h].graphFlag {
        clients := clients[h := clients[h].(graphFlag := false)];
        graphCount := graphCount - 1;
        if graphCount == 0 { bridge.SubscribeConnectionGraph(false); }
      }
      return false;
    }

    // ---------------------------------------------------- topic updates

    method EraseChannels(ids: seq<ChannelId>)
      modifies this`channels
      ensures channels == old(channels) - Elements(ids)
    {
      for i := 0 to |ids|
        invariant channels == old(channels) - Elements(ids[..i])
      {
        assert ids[..i + 1] == ids[..i] + [ids[i]];
        channels := channels - {ids[i]};
      }
      assert ids[..|ids|] == ids;
    }

    method EraseSubscriptions(ids: seq<ChannelId>)
      modifies this`clients
      ensures clients == WithoutSubs(old(clients), Elements(ids))
    {
      var gone := Elements(ids);
      var todo := clients.Keys;
      while todo != {}
        invariant todo <= clients.Keys == old(clients).Keys
        invariant forall k | k in clients ::
                    clients[k] == if k in todo then old(clients)[k]
                                  else old(clients)[k].(subs := old(clients)[k].subs - gone)
      {
        var h :| h in todo;
        clients := clients[h := clients[h].(subs := clients[h].subs - gone)];
        todo := todo - {h};
      }
    }

    method RemoveChannels(ids: seq<ChannelId>)
      modifies this`channels, this`clients
      ensures Tables() == Protocol.RemoveChannels(old(Tables()), Elements(ids))
    {
      EraseChannels(ids);
      EraseSubscriptions(ids);
    }

    method AddChannels(chans: seq<Channel>) returns (ids: seq<ChannelId>)
      modifies this`channels, this`nextId
      ensures Tables() == Protocol.AddChannels(old(Tables()), chans)
      ensures |ids| == |chans| && forall i | 0 <= i < |ids| :: ids[i] == old(nextId) + 1 + i
    {
      ids := [];
      ghost var base, next := channels, nextId;
      for i := 0 to |chans|
        invariant nextId == next + i
        invariant |ids| == i && forall j | 0 <= j < i :: ids[j] == next + 1 + j
        invariant channels == Numbered(base, next, chans, i)
      {
        NumberOneMore(base, next, chans, i);
        nextId := nextId + 1;
        ids := ids + [nextId];
        channels := channels[nextId := chans[i]];
      }
      assert chans[..|chans|] == chans;
    }

    // ------------------------------------------------------------- close

    method CloseAdvertisements(h: Handle, ads: set<ClientChannelId>)
      modifies bridge`clientAdvertised
      ensures bridge.clientAdvertised == ReleasedAds(old(bridge.clientAdvertised), h, ads)
    {
      var todo := ads;
      while todo != {}
        invariant todo <= ads
        invariant bridge.clientAdvertised == ReleasedAds(old(bridge.clientAdvertised), h, ads - todo)
      {
        var id :| id in todo;
        ReleaseOneMoreAd(old(bridge.clientAdvertised), h, ads - todo, id);
        assert ads - (todo - {id}) == ads - todo + {id};
        var _ := bridge.ClientUnadvertise(Tables(), h, id);  // exceptions are only logged
        todo := todo - {id};
      }
      assert ads - todo == ads;
    }

    method CloseSubscriptions(h: Handle, chans: set<ChannelId>)
      modifies bridge`subscriptions
      ensures bridge.subscriptions == ReleasedSubs(old(bridge.subscriptions), bridge.advertised.Keys, h, chans)
    {
      var todo := chans;
      while todo != {}
        invariant todo <= chans
        invariant bridge.subscriptions ==
                  ReleasedSubs(old(bridge.subscriptions), bridge.advertised.Keys, h, chans - todo)
      {
        var c :| c in todo;
        ReleaseOneMoreSub(Tables(), old(bridge.subscriptions), h, chans - todo, c);
        assert chans - (todo - {c}) == chans - todo + {c};
        var _ := bridge.Unsubscribe(Tables(), c, h);
        todo := todo - {c};
      }
      assert chans - todo == chans;
    }

    method HandleConnectionClosed(h: Handle)
      modifies this, bridge
      ensures Tables() == Close(old(Tables()), h)
    {
      if h !in clients { return; }
      var client := clients[h];
      clients := clients - {h};
      CloseAdvertisements(h, client.ads);
      clientChannels := clientChannels - {h};
      CloseSubscriptions(h, client.subs.Keys);
      var mine := if h in params then params[h] else {};
      params := params - {h};
      UnsubscribeParamsWithoutSubscriptions(mine);
      if client.graphFlag {
        graphCount := graphCount - 1;
        if graphCount == 0 { bridge.SubscribeConnectionGraph(false); }
      }
    }
  }

  lemma {:induction false} LostAre(s: State, lost: set<Handle>)
    ensures LostClients(s, lost) == lost * s.clients.Keys
  {
  }

  ghost function Numbered(base: map<ChannelId, Channel>, next: nat, chans: seq<Channel>, i: nat): map<ChannelId, Channel>
    requires i <= |chans|
  {
    base + Number(next, chans[..i])
  }

  lemma {:induction false} NumberOneMore(base: map<ChannelId, Channel>, next: nat, chans: seq<Channel>, i: nat)
    requires i < |chans|
    ensures Numbered(base, next, chans, i + 1) == Numbered(base, next, chans, i)[next + i + 1 := chans[i]]
  {
    assert chans[..i + 1][..i] == chans[..i];
  }

  /** The client table after kicking everybody but `todo`. */
  function KickedExcept(clients: map<Handle, Client>, todo: set<Handle>): map<Handle, Client> {
    map k | k in clients :: if k in todo then clients[k] else clients[k].(login := false)
  }

  lemma {:induction false} KickOneMore(clients: map<Handle, Client>, todo: set<Handle>, k: Handle)
    requires k in todo && todo <= clients.Keys
    ensures KickedExcept(clients, todo - {k}) ==
            KickedExcept(clients, todo)[k := KickedExcept(clients, todo)[k].(login := false)]
  {
  }

  lemma {:induction false} KickedUpTo(clients: map<Handle, Client>, todo: set<Handle>, k: Handle, gone: set<Handle>)
    requires gone <= todo && k in gone && (forall j | j in todo :: k <= j)
    requires forall i, j | i in clients && i !in todo && j in todo :: i < j
    ensures KickedExcept(clients, todo) == Kicked(clients, gone)
  {
    forall i | i in clients ensures (forall l | l in gone :: i < l) <==> i !in todo {
    }
  }

  lemma {:induction false} KickedAll(clients: map<Handle, Client>, gone: set<Handle>)
    requires gone == {}
    ensures KickedExcept(clients, {}) == Kicked(clients, gone)
  {
  }

  function Least(s: set<nat>): (m: nat)
    requires s != {}
    ensures m in s && forall j | j in s :: m <= j
  {
    var x :| x in s;
    LeastExists(s, x);
    var m :| m in s && forall j | j in s :: m <= j;
    m
  }

  lemma {:induction false} LeastExists(s: set<nat>, x: nat)
    requires x in s
    ensures exists m :: m in s && forall j | j in s :: m <= j
    decreases x
  {
    if y :| y in s && y < x { LeastExists(s, y); }
  }

  lemma {:induction false} ReleaseOneMoreAd(table: map<Handle, set<ClientChannelId>>, h: Handle, done: set<ClientChannelId>, id: ClientChannelId)
    ensures var t := ReleasedAds(table, h, done);
            ReleasedAds(table, h, done + {id}) ==
            if h !in t || id !in t[h] then t else if t[h] == {id} then t - {h} else t[h := t[h] - {id}]
  {
    var t := ReleasedAds(table, h, done);
    if h in table {
      assert table[h] - (done + {id}) == table[h] - done - {id};
      if h in t && id in t[h] {
        assert t[h] == table[h] - done;
        assert table[h] <= done + {id} <==> t[h] == {id};
        assert t[h := t[h] - {id}] == table[h := table[h] - (done + {id})];
      } else if h in t && !(table[h] !! done) {
        assert t[h] == table[h] - (done + {id});
      }
    }
  }
}

/** A run of the objects is a run of Runs.dfy: its theorems, and those of Signals.dfy, hold
    of the tables of the objects after every sequence of handler calls and updates. */
module ServerRuns {
  import opened Protocol
  import opened Runs
  import opened ServerObjects

  method Dispatch(server: Server, e: Event)
    modifies server, server.bridge
    ensures server.Tables() == Apply(old(server.Tables()), e)
  {
    if e.EUpdate? {
      DispatchPoll(server, e.latest, e.lookup);
    } else if e.ELogin? || e.EClose? {
      DispatchConnection(server, e);
    } else if e.ESubscribe? || e.EUnsubscribe? || e.EAdvertise? || e.EUnadvertise? {
      DispatchChannels(server, e);
    } else {
      DispatchUpdates(server, e);
    }
  }

  method DispatchPoll(server: Server, latest: seq<TopicAndType>, lookup: string -> Lookup)
    modifies server, server.bridge
    ensures server.Tables() == Apply(old(server.Tables()), EUpdate(latest, lookup))
  {
    server.bridge.UpdateAdvertisedTopics(server, latest, lookup);
  }

  method DispatchConnection(server: Server, e: Event)
    requires e.ELogin? || e.EClose?
    modifies server, server.bridge
    ensures server.Tables() == Apply(old(server.Tables()), e)
  {
    match e {
      case ELogin(h, user, lost) => var _ := server.HandleLogin(h, user, lost);
      case EClose(h) => server.HandleConnectionClosed(h);
    }
  }

  method DispatchChannels(server: Server, e: Event)
    requires e.ESubscribe? || e.EUnsubscribe? || e.EAdvertise? || e.EUnadvertise?
    modifies server, server.bridge
    ensures server.Tables() == Apply(old(server.Tables()), e)
  {
    match e {
      case ESubscribe(h, items) => var _ := server.HandleSubscribe(h, items);
      case EUnsubscribe(h, items, find) => var _ := server.HandleUnsubscribe(h, items, find);
      case EAdvertise(h, items) => var _ := server.HandleAdvertise(h, items);
      case EUnadvertise(h, items) => var _ := server.HandleUnadvertise(h, items);
    }
  }

  method DispatchUpdates(server: Server, e: Event)
    requires e.ESubscribeParams? || e.EUnsubscribeParams? || e.ESubscribeGraph? || e.EUnsubscribeGraph?
    modifies server, server.bridge
    ensures server.Tables() == Apply(old(server.Tables()), e)
  {
    match e {
      case ESubscribeParams(h, names) => server.HandleSubscribeParameterUpdates(h, names);
      case EUnsubscribeParams(h, names) => server.HandleUnsubscribeParameterUpdates(h, names);
      case ESubscribeGraph(h, ok) => var _ := server.HandleSubscribeConnectionGraph(h, ok);
      case EUnsubscribeGraph(h) => var _ := server.HandleUnsubscribeConnectionGraph(h);
    }
  }

  method Execute(es: seq<Event>) returns (server: Server)
    ensures fresh(server) && fresh(server.bridge) && server.Tables() == Run(INIT, es)
  {
    var bridge := new CoBridge();
    server := new Server(bridge);
    for i := 0 to |es|
      invariant fresh(server) && fresh(server.bridge) && server.Tables() == Run(INIT, es[..i])
    {
      Dispatch(server, es[i]);
      assert es[..i + 1][..i] == es[..i];
    }
    assert es[..|es|] == es;
  }
}
