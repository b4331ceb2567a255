/** Connection-graph updates: the difference message, what a client that follows the messages knows, and
  * the race between a client's snapshot and the broadcast of a difference.
  *
  * The message's arrays of name/ids pairs have one pair per name, in no particular order: they are maps. */
module GraphDiff {
  import opened Wrappers

  type MapOfSets = map<string, set<string>>

  datatype Graph = Graph(published: MapOfSets, subscribed: MapOfSets, services: MapOfSets)

  datatype Diff = Diff(published: MapOfSets, subscribed: MapOfSets, services: MapOfSets,
                       removedTopics: set<string>, removedServices: set<string>)

  const EMPTY: Graph := Graph(map[], map[], map[])

  predicate Differs(known: MapOfSets, now: MapOfSets, n: string) {
    n in now && (n !in known || known[n] != now[n])
  }

  function Changed(known: MapOfSets, now: MapOfSets): MapOfSets {
    map n | n in now && Differs(known, now, n) :: now[n]
  }

  function DiffOf(known: Graph, now: Graph): Diff {
    Diff(Changed(known.published, now.published), Changed(known.subscribed, now.subscribed),
         Changed(known.services, now.services),
         (known.published.Keys + known.subscribed.Keys) - (now.published.Keys + now.subscribed.Keys),
         known.services.Keys - now.services.Keys)
  }

  // The message a client gets when it subscribes.
  function Full(g: Graph): Diff {
    Diff(g.published, g.subscribed, g.services, {}, {})
  }

  predicate Quiet(d: Diff) {
    d.published == map[] && d.subscribed == map[] && d.services == map[] && d.removedTopics == {} &&
    d.removedServices == {}
  }

  // A client forgets the removed names and takes over the listed entries.
  function Apply(view: Graph, d: Diff): Graph {
    Graph((view.published - d.removedTopics) + d.published,
          (view.subscribed - d.removedTopics) + d.subscribed,
          (view.services - d.removedServices) + d.services)
  }

  // --- One difference ---

  // The name left one map but stays in the other, so it is not listed as removed.
  predicate Lost(known: MapOfSets, now: MapOfSets, other: MapOfSets, n: string) {
    n in known && n !in now && n in other
  }

  ghost predicate NothingLost(known: Graph, now: Graph) {
    && (forall n: string :: !Lost(known.published, now.published, now.subscribed, n))
    && (forall n: string :: !Lost(known.subscribed, now.subscribed, now.published, n))
  }

  // The new map together with the lost entries.
  function WithLost(known: MapOfSets, now: MapOfSets, other: MapOfSets): MapOfSets {
    now + map n | n in known && Lost(known, now, other, n) :: known[n]
  }

  lemma {:induction false} PatchIsWithLost(known: MapOfSets, now: MapOfSets, removed: set<string>, other: MapOfSets)
    requires forall n | n in known :: n in removed <==> n !in now && n !in other
    requires removed !! now.Keys
    ensures (known - removed) + Changed(known, now) == WithLost(known, now, other)
  {
    var patched, expected := (known - removed) + Changed(known, now), WithLost(known, now, other);
    forall n: string ensures n in patched <==> n in expected {
      assert Differs(known, now, n) || !Differs(known, now, n);
      assert Lost(known, now, other, n) || !Lost(known, now, other, n);
    }
    forall n | n in patched ensures patched[n] == expected[n] {
      assert Differs(known, now, n) || !Differs(known, now, n);
    }
  }

  /** Applying a difference yields the new graph plus exactly the lost entries. */
  lemma {:induction false} ApplyDiff(known: Graph, now: Graph)
    ensures Apply(known, DiffOf(known, now)) ==
            Graph(WithLost(known.published, now.published, now.subscribed),
                  WithLost(known.subscribed, now.subscribed, now.published), now.services)
  {
    var removed := DiffOf(known, now).removedTopics;
    PatchIsWithLost(known.published, now.published, removed, now.subscribed);
    PatchIsWithLost(known.subscribed, now.subscribed, removed, now.published);
    PatchIsWithLost(known.services, now.services, known.services.Keys - now.services.Keys, map[]);
    NoneLost(known.services, now.services, map[]);
  }

  lemma {:induction false} NoneLost(known: MapOfSets, now: MapOfSets, other: MapOfSets)
    ensures WithLost(known, now, other) == now <==> forall n: string :: !Lost(known, now, other, n)
  {
    var all := WithLost(known, now, other);
    if all == now {
      forall n: string ensures !Lost(known, now, other, n) {
        assert Lost(known, now, other, n) ==> n in all;
      }
    }
  }

  /** A difference rebuilds the new graph if and only if no topic left one map while staying in the other. */
  lemma {:induction false} RebuildsIff(known: Graph, now: Graph)
    ensures Apply(known, DiffOf(known, now)) == now <==> NothingLost(known, now)
  {
    ApplyDiff(known, now);
    NoneLost(known.published, now.published, now.subscribed);
    NoneLost(known.subscribed, now.subscribed, now.published);
  }

  // Every topic has an entry in both maps, as in the graphs of the ROS 2 bridge.
  predicate Coincide(g: Graph) {
    g.published.Keys == g.subscribed.Keys
  }

  lemma {:induction false} QuietMap(known: MapOfSets, now: MapOfSets)
    ensures Changed(known, now) == map[] <==> forall n | n in now :: n in known && known[n] == now[n]
  {
    var changed := Changed(known, now);
    if changed == map[] {
      forall n | n in now ensures n in known && known[n] == now[n] {
        assert Differs(known, now, n) ==> n in changed;
      }
    }
  }

  /** If both maps of a graph have the same topics, a difference rebuilds the new graph and no message is
    * sent exactly when nothing changed. */
  lemma {:induction false} CoincideRebuilds(known: Graph, now: Graph)
    requires Coincide(now) && Coincide(known)
    ensures Apply(known, DiffOf(known, now)) == now
    ensures Quiet(DiffOf(known, now)) <==> known == now
  {
    assert NothingLost(known, now);
    RebuildsIff(known, now);
    QuietMap(known.published, now.published);
    QuietMap(known.subscribed, now.subscribed);
    QuietMap(known.services, now.services);
    if Quiet(DiffOf(known, now)) {
      QuietApply(known, DiffOf(known, now));
    }
  }

  lemma {:induction false} QuietApply(view: Graph, d: Diff)
    requires Quiet(d)
    ensures Apply(view, d) == view
  {
    assert (view.published - {}) + map[] == view.published;
    assert (view.subscribed - {}) + map[] == view.subscribed;
    assert (view.services - {}) + map[] == view.services;
  }

  // --- What a client knows ---

  // Entries of the view are current, except that a topic which left `now` may stay while it is in `other`.
  predicate SoundMap(view: MapOfSets, now: MapOfSets, other: MapOfSets) {
    forall n | n in view :: if n in now then view[n] == now[n] else n in other
  }

  predicate Sound(view: Graph, g: Graph) {
    && SoundMap(view.published, g.published, g.subscribed)
    && SoundMap(view.subscribed, g.subscribed, g.published)
    && SoundMap(view.services, g.services, map[])
  }

  predicate Complete(view: Graph, g: Graph) {
    g.published.Keys <= view.published.Keys && g.subscribed.Keys <= view.subscribed.Keys &&
    g.services.Keys <= view.services.Keys
  }

  predicate Tracks(view: Graph, g: Graph) {
    Sound(view, g) && Complete(view, g)
  }

  /** A view that tracks a graph whose maps have the same topics is that graph. */
  lemma {:induction false} TracksExactly(view: Graph, g: Graph)
    requires Tracks(view, g) && Coincide(g)
    ensures view == g
  {
    assert view.published.Keys == g.published.Keys;
    assert view.subscribed.Keys == g.subscribed.Keys;
    assert view.services.Keys == g.services.Keys;
  }

  lemma {:induction false} PatchSound(view: MapOfSets, known: MapOfSets, now: MapOfSets, removed: set<string>,
                   wasOther: MapOfSets, other: MapOfSets)
    requires SoundMap(view, known, wasOther)
    requires forall n | n in known || n in wasOther :: n in removed <==> n !in now && n !in other
    requires removed !! now.Keys
    ensures var patched := (view - removed) + Changed(known, now);
            SoundMap(patched, now, other) && (known.Keys <= view.Keys ==> now.Keys <= patched.Keys)
  {
    var changed := Changed(known, now);
    forall n | n in now ensures n in changed <==> Differs(known, now, n) {
    }
  }

  /** A difference keeps a sound view sound and a tracking view tracking. */
  lemma {:induction false} ApplySound(view: Graph, known: Graph, now: Graph)
    requires Sound(view, known)
    ensures Sound(Apply(view, DiffOf(known, now)), now)
    ensures Complete(view, known) ==> Complete(Apply(view, DiffOf(known, now)), now)
  {
    var removed := DiffOf(known, now).removedTopics;
    PatchSound(view.published, known.published, now.published, removed, known.subscribed, now.subscribed);
    PatchSound(view.subscribed, known.subscribed, now.subscribed, removed, known.published, now.published);
    PatchSound(view.services, known.services, now.services, DiffOf(known, now).removedServices, map[], map[]);
  }

  /** No message is sent exactly when the old graph already tracks the new one. */
  lemma {:induction false} QuietIff(known: Graph, now: Graph)
    ensures Quiet(DiffOf(known, now)) <==> Tracks(known, now)
  {
    QuietMap(known.published, now.published);
    QuietMap(known.subscribed, now.subscribed);
    QuietMap(known.services, now.services);
    var d := DiffOf(known, now);
    if Quiet(d) {
      QuietApply(known, d);
      forall n | n in known.published || n in known.subscribed ensures n in now.published || n in now.subscribed {
        assert n !in d.removedTopics;
      }
      forall n | n in known.services ensures n in now.services {
        assert n !in d.removedServices;
      }
    }
  }

  // --- The server's graph as an object ---

  class ConnectionGraph {
    var published: MapOfSets
    var subscribed: MapOfSets
    var services: MapOfSets

    ghost function Value(): Graph
      reads this
    {
      Graph(published, subscribed, services)
    }

    constructor ()
      ensures Value() == EMPTY
    {
      published, subscribed, services := map[], map[], map[];
    }

    // One of the three loops that collect changed entries and the names seen.
    static method Collect(known: MapOfSets, now: MapOfSets) returns (changed: MapOfSets, names: set<string>)
      ensures changed == Changed(known, now) && names == now.Keys
    {
      changed, names := map[], {};
      var todo := now.Keys;
      while todo != {}
        invariant names + todo == now.Keys && names !! todo
        invariant changed == map n | n in names && Differs(known, now, n) :: now[n]
        decreases |todo|
      {
        var name :| name in todo;
        todo := todo - {name};
        if name !in known || known[name] != now[name] {
          changed := changed[name := now[name]];
        }
        names := names + {name};
      }
    }

    // update_connection_graph: the message for the subscribed clients, if any.
    method Update(now: Graph) returns (message: Option<Diff>)
      modifies this
      ensures Value() == now
      ensures message == if Quiet(DiffOf(old(Value()), now)) then None else Some(DiffOf(old(Value()), now))
    {
      var publisherDiff, publishedNames := Collect(published, now.published);
      var subscriberDiff, subscribedNames := Collect(subscribed, now.subscribed);
      var servicesDiff, serviceNames := Collect(services, now.services);
      var removedTopics := (published.Keys + subscribed.Keys) - (publishedNames + subscribedNames);
      var removedServices := services.Keys - serviceNames;
      var diff := Diff(publisherDiff, subscriberDiff, servicesDiff, removedTopics, removedServices);
      assert diff == DiffOf(Value(), now);
      published, subscribed, services := now.published, now.subscribed, now.services;
      if publisherDiff == map[] && subscriberDiff == map[] && servicesDiff == map[] &&
         removedTopics == {} && removedServices == {} {
        return None;
      }
      return Some(diff);
    }
  }

  // --- A subscribing client while the poll thread and the worker interleave ---

  /** `pending` is the message the poll thread has computed and not broadcast yet; `read` is the snapshot
    * taken for the client and not sent yet. */
  datatype Sys = Sys(graph: Graph, pending: Option<Diff>, flagged: bool, read: Option<Graph>, view: Graph,
                     answered: bool)

  /** The poll thread stores a graph and then broadcasts the difference. The worker, for the first
    * subscriber, stores a graph of its own while nobody is flagged, flags the client, reads the snapshot and
    * replies. */
  datatype Action = Store(now: Graph) | Broadcast | WorkerStore(now: Graph) | Flag | Read | Reply

  function Start(g: Graph): Sys {
    Sys(g, None, false, None, EMPTY, false)
  }

  predicate Enabled(s: Sys, a: Action) {
    match a
    case Store(_) => s.pending.None?
    case Broadcast => s.pending.Some?
    case WorkerStore(_) => !s.flagged
    case Flag => !s.flagged
    case Read => s.flagged && s.read.None?
    case Reply => s.flagged && s.read.Some?
  }

  function Do(s: Sys, a: Action): Sys
    requires Enabled(s, a)
  {
    match a
    case Store(now) => s.(graph := now, pending := Some(DiffOf(s.graph, now)))
    case Broadcast => s.(pending := None, view := if s.flagged then Apply(s.view, s.pending.value) else s.view)
    case WorkerStore(now) => s.(graph := now)
    case Flag => s.(flagged := true)
    case Read => s.(read := Some(s.graph))
    case Reply => s.(view := Apply(s.view, Full(s.read.value)), read := None, answered := true)
  }

  ghost predicate Trace(states: seq<Sys>, actions: seq<Action>) {
    && |states| == |actions| + 1
    && forall i | 0 <= i < |actions| :: Enabled(states[i], actions[i]) && states[i + 1] == Do(states[i], actions[i])
  }

  // What becomes of a view once the pending message has been delivered.
  function Over(s: Sys, view: Graph): Graph {
    if s.pending.Some? then Apply(view, s.pending.value) else view
  }

  function Listed(d: Diff): Graph {
    Graph(d.published, d.subscribed, d.services)
  }

  // Everything the message lists is right for `g`, and nothing it removes is in `g`.
  predicate Harmless(d: Diff, g: Graph) {
    && Sound(Listed(d), g)
    && d.removedTopics !! g.published.Keys + g.subscribed.Keys && d.removedServices !! g.services.Keys
  }

  // No message removes what it lists.
  predicate Formed(d: Diff) {
    d.removedTopics !! d.published.Keys + d.subscribed.Keys && d.removedServices !! d.services.Keys
  }

  predicate Pending(s: Sys) {
    s.pending.Some? ==> Harmless(s.pending.value, s.graph)
  }

  // Between them the two views know every name of `g`.
  predicate Cover(view: Graph, read: Graph, g: Graph) {
    g.published.Keys <= view.published.Keys + read.published.Keys &&
    g.subscribed.Keys <= view.subscribed.Keys + read.subscribed.Keys &&
    g.services.Keys <= view.services.Keys + read.services.Keys
  }

  predicate Inv(s: Sys) {
    && (s.pending.Some? ==> Formed(s.pending.value))
    && (if !s.flagged then s.view == EMPTY && !s.answered && s.read.None?
        else
          && Pending(s) && Sound(Over(s, s.view), s.graph)
          && (s.answered ==> Complete(Over(s, s.view), s.graph))
          && (s.read.Some? ==> Cover(Over(s, s.view), s.read.value, s.graph)))
  }

  lemma {:induction false} DiffHarmless(known: Graph, now: Graph)
    ensures Harmless(DiffOf(known, now), now) && Formed(DiffOf(known, now))
  {
  }

  lemma {:induction false} PatchKeys(view: MapOfSets, known: MapOfSets, now: MapOfSets, removed: set<string>, n: string)
    requires removed !! now.Keys && n in now
    ensures n in (view - removed) + Changed(known, now) || (n in known && n !in view)
  {
    assert Differs(known, now, n) || n in known;
  }

  lemma {:induction false} StoreCovers(s: Sys, now: Graph)
    requires Inv(s) && s.flagged && s.pending.None? && s.read.Some?
    ensures Cover(Over(Do(s, Store(now)), s.view), s.read.value, now)
  {
    var d := DiffOf(s.graph, now);
    forall n | n in now.published ensures n in Apply(s.view, d).published || n in s.read.value.published {
      PatchKeys(s.view.published, s.graph.published, now.published, d.removedTopics, n);
    }
    forall n | n in now.subscribed ensures n in Apply(s.view, d).subscribed || n in s.read.value.subscribed {
      PatchKeys(s.view.subscribed, s.graph.subscribed, now.subscribed, d.removedTopics, n);
    }
    forall n | n in now.services ensures n in Apply(s.view, d).services || n in s.read.value.services {
      PatchKeys(s.view.services, s.graph.services, now.services, d.removedServices, n);
    }
  }

  lemma {:induction false} StoreInv(s: Sys, now: Graph)
    requires Inv(s) && Enabled(s, Store(now))
    ensures Inv(Do(s, Store(now)))
  {
    DiffHarmless(s.graph, now);
    if s.flagged {
      ApplySound(s.view, s.graph, now);
      if s.read.Some? {
        StoreCovers(s, now);
      }
    }
  }

  // --- The flag and the message on its way ---

  /** A message that is on its way when the client is flagged keeps the books in order if and only if it is
    * harmless for the graph of that moment. */
  lemma {:induction false} FlagIff(s: Sys)
    requires Inv(s) && !s.flagged
    ensures Inv(Do(s, Flag)) <==> Pending(s)
  {
    if s.pending.Some? {
      var d := s.pending.value;
      assert Apply(EMPTY, d).published == d.published && Apply(EMPTY, d).subscribed == d.subscribed;
      assert Apply(EMPTY, d).services == d.services;
    }
  }

  // --- The reply ---

  lemma {:induction false} ReplyMap(view: MapOfSets, late: MapOfSets, removed: set<string>, changed: MapOfSets, now: MapOfSets,
                 other: MapOfSets)
    requires SoundMap((view - removed) + changed, now, other)
    ensures SoundMap((((view - {}) + late) - removed) + changed, now, other) <==>
            SoundMap((late - removed) + changed, now, other)
  {
    var all, mine, theirs := (((view - {}) + late) - removed) + changed, (view - removed) + changed, (late - removed) + changed;
    if SoundMap(all, now, other) {
      forall n | n in theirs ensures if n in now then theirs[n] == now[n] else n in other {
        assert n in all && all[n] == theirs[n];
      }
    }
    if SoundMap(theirs, now, other) {
      forall n | n in all ensures if n in now then all[n] == now[n] else n in other {
        if n in theirs { assert all[n] == theirs[n]; } else { assert n in mine && all[n] == mine[n]; }
      }
    }
  }

  function RemovedTopics(s: Sys): set<string> {
    if s.pending.Some? then s.pending.value.removedTopics else {}
  }

  function RemovedServices(s: Sys): set<string> {
    if s.pending.Some? then s.pending.value.removedServices else {}
  }

  function Message(s: Sys): Graph {
    if s.pending.Some? then Listed(s.pending.value) else EMPTY
  }

  lemma {:induction false} OverParts(s: Sys, view: Graph)
    ensures Over(s, view) == Graph((view.published - RemovedTopics(s)) + Message(s).published,
                                   (view.subscribed - RemovedTopics(s)) + Message(s).subscribed,
                                   (view.services - RemovedServices(s)) + Message(s).services)
  {
    if s.pending.None? {
      assert (view.published - {}) + map[] == view.published;
      assert (view.subscribed - {}) + map[] == view.subscribed;
      assert (view.services - {}) + map[] == view.services;
    }
  }

  /** A reply, however late, keeps the client on track if and only if the snapshot is sound for the current
    * graph once the message on its way, if any, has been applied to it. */
  lemma {:induction false} ReplyIff(s: Sys)
    requires Inv(s) && Enabled(s, Reply)
    ensures Inv(Do(s, Reply)) <==> Sound(Over(s, s.read.value), s.graph)
    ensures Tracks(Over(s, Do(s, Reply).view), s.graph) <==> Sound(Over(s, s.read.value), s.graph)
  {
    var g, late, after := s.graph, s.read.value, Apply(s.view, Full(s.read.value));
    OverParts(s, s.view);
    OverParts(s, late);
    OverParts(s, after);
    ReplyMap(s.view.published, late.published, RemovedTopics(s), Message(s).published, g.published, g.subscribed);
    ReplyMap(s.view.subscribed, late.subscribed, RemovedTopics(s), Message(s).subscribed, g.subscribed, g.published);
    ReplyMap(s.view.services, late.services, RemovedServices(s), Message(s).services, g.services, map[]);
    ReplyComplete(s);
    assert Over(Do(s, Reply), after) == Over(s, after);
  }

  lemma {:induction false} ReplyComplete(s: Sys)
    requires Inv(s) && Enabled(s, Reply)
    ensures Complete(Over(s, Apply(s.view, Full(s.read.value))), s.graph)
  {
    OverParts(s, s.view);
    OverParts(s, Apply(s.view, Full(s.read.value)));
  }

  // The snapshot about to be sent is the current graph, or the one whose difference is still to come.
  predicate Timely(s: Sys, a: Action) {
    a.Reply? && s.read.Some? ==> s.read.value == s.graph || s.pending == Some(DiffOf(s.read.value, s.graph))
  }

  lemma {:induction false} TimelyReply(s: Sys)
    requires Inv(s) && Enabled(s, Reply) && Timely(s, Reply)
    ensures Sound(Over(s, s.read.value), s.graph)
  {
    if s.read.value == s.graph {
      OverParts(s, s.graph);
    } else {
      ApplySound(s.read.value, s.read.value, s.graph);
    }
  }

  // --- Runs ---

  // The two places where a step can lead the client astray.
  predicate OnTrack(s: Sys, a: Action) {
    && (a.Flag? ==> Pending(s))
    && (a.Reply? && s.read.Some? ==> Sound(Over(s, s.read.value), s.graph))
  }

  lemma {:induction false} StepInvIff(s: Sys, a: Action)
    requires Inv(s) && Enabled(s, a)
    ensures Inv(Do(s, a)) <==> OnTrack(s, a)
  {
    match a
    case Store(now) => StoreInv(s, now);
    case Broadcast =>
    case WorkerStore(_) =>
    case Flag => FlagIff(s);
    case Read =>
    case Reply => ReplyIff(s);
  }

  // With nothing on its way, a client that has its snapshot tracks the graph.
  predicate Settled(s: Sys) {
    s.answered && s.pending.None? ==> Tracks(s.view, s.graph) && (Coincide(s.graph) ==> s.view == s.graph)
  }

  lemma {:induction false} InvSettled(s: Sys)
    requires Inv(s)
    ensures Settled(s)
  {
    if s.answered && s.pending.None? && Coincide(s.graph) {
      TracksExactly(s.view, s.graph);
    }
  }

  lemma {:induction false} TraceInv(states: seq<Sys>, actions: seq<Action>)
    requires Trace(states, actions) && Inv(states[0])
    requires forall i | 0 <= i < |actions| :: OnTrack(states[i], actions[i])
    ensures Inv(states[|actions|])
  {
    if actions != [] {
      var n := |actions| - 1;
      TraceInv(states[..n + 1], actions[..n]);
      assert Enabled(states[n], actions[n]) && OnTrack(states[n], actions[n]);
      StepInvIff(states[n], actions[n]);
    }
  }

  /** In every interleaving of updates, the client's subscription and its snapshots in which the message on
    * its way at the flag is harmless and every reply is sound when it is sent: whenever nothing is on its
    * way, a client that has its snapshot tracks the graph, and knows it exactly if its maps have the same
    * topics. */
  lemma {:induction false} ViewTracks(g: Graph, states: seq<Sys>, actions: seq<Action>)
    requires Trace(states, actions) && states[0] == Start(g)
    requires forall i | 0 <= i < |actions| :: OnTrack(states[i], actions[i])
    ensures Settled(states[|actions|])
  {
    TraceInv(states, actions);
    InvSettled(states[|actions|]);
  }

  lemma {:induction false} TimelyInv(states: seq<Sys>, actions: seq<Action>)
    requires Trace(states, actions) && Inv(states[0]) && states[0].flagged
    requires forall i | 0 <= i < |actions| :: Timely(states[i], actions[i])
    ensures Inv(states[|actions|]) && states[|actions|].flagged
  {
    if actions != [] {
      var n := |actions| - 1;
      TimelyInv(states[..n + 1], actions[..n]);
      assert Enabled(states[n], actions[n]) && Timely(states[n], actions[n]);
      if actions[n].Reply? {
        TimelyReply(states[n]);
      }
      StepInvIff(states[n], actions[n]);
    }
  }

  // Every continuation with timely replies settles.
  ghost predicate AlwaysSettles(s: Sys) {
    forall states, actions |
      Trace(states, actions) && states[0] == s && (forall i | 0 <= i < |actions| :: Timely(states[i], actions[i])) ::
      Settled(states[|actions|])
  }

  /** What the moment of the flag decides: with timely replies every continuation settles if and only if the
    * message on its way at that moment is harmless. */
  lemma {:induction false} LeftoverIff(s: Sys)
    requires Inv(s) && !s.flagged
    ensures AlwaysSettles(Do(s, Flag)) <==> Pending(s)
  {
    FlagIff(s);
    var s0 := Do(s, Flag);
    if Pending(s) {
      forall states, actions |
        Trace(states, actions) && states[0] == s0 && (forall i | 0 <= i < |actions| :: Timely(states[i], actions[i]))
        ensures Settled(states[|actions|])
      {
        TimelyInv(states, actions);
        InvSettled(states[|actions|]);
      }
    } else {
      var s1 := Do(s0, Read);
      var s2 := Do(s1, Reply);
      var s3 := Do(s2, Broadcast);
      var states, actions := [s0, s1, s2, s3], [Read, Reply, Broadcast];
      assert Trace(states, actions);
      assert forall i | 0 <= i < |actions| :: Timely(states[i], actions[i]);
      LeftoverUnsettles(s3.view, s.graph, s.pending.value);
    }
  }

  lemma {:induction false} LeftoverUnsettles(view: Graph, g: Graph, d: Diff)
    requires Formed(d) && !Harmless(d, g) && view == Apply(Apply(EMPTY, Full(g)), d)
    ensures !Tracks(view, g)
  {
    FullIsGraph(g);
    LeftoverMap(g.published, d.removedTopics, d.published, g.subscribed);
    LeftoverMap(g.subscribed, d.removedTopics, d.subscribed, g.published);
    LeftoverMap(g.services, d.removedServices, d.services, map[]);
  }

  lemma {:induction false} FullIsGraph(g: Graph)
    ensures Apply(EMPTY, Full(g)) == g
  {
    var empty: MapOfSets := map[];
    assert (empty - {}) + g.published == g.published && (empty - {}) + g.subscribed == g.subscribed;
    assert (empty - {}) + g.services == g.services;
  }

  lemma {:induction false} LeftoverMap(now: MapOfSets, removed: set<string>, listed: MapOfSets, other: MapOfSets)
    requires removed !! listed.Keys
    ensures var view := (now - removed) + listed;
            SoundMap(view, now, other) && now.Keys <= view.Keys ==> SoundMap(listed, now, other) && removed !! now.Keys
  {
    var view := (now - removed) + listed;
    if SoundMap(view, now, other) && now.Keys <= view.Keys {
      forall n | n in listed ensures if n in now then listed[n] == now[n] else n in other {
        assert n in view && view[n] == listed[n];
      }
      forall n | n in now ensures n !in removed { assert n in view; }
    }
  }

  // --- Both ways to go astray occur ---

  function OneTopic(node: string): Graph {
    Graph(map["topic" := {node}], map["topic" := {}], map[])
  }

  ghost predicate Astray(states: seq<Sys>, actions: seq<Action>) {
    && Trace(states, actions) && states[0] == Start(states[0].graph)
    && var s := states[|actions|];
       s.answered && s.pending.None? && s.read.None? && Coincide(s.graph) && s.view != s.graph
  }

  /** A difference overtakes the snapshot: the late reply undoes it. */
  lemma {:induction false} LateSnapshotMisleads() returns (states: seq<Sys>, actions: seq<Action>)
    ensures Astray(states, actions)
  {
    var a, b := OneTopic("/a"), OneTopic("/b");
    var s0 := Start(a);
    var s1 := Do(s0, Flag);
    var s2 := Do(s1, Read);
    var s3 := Do(s2, Store(b));
    var s4 := Do(s3, Broadcast);
    var s5 := Do(s4, Reply);
    states, actions := [s0, s1, s2, s3, s4, s5], [Flag, Read, Store(b), Broadcast, Reply];
    assert Trace(states, actions);
    assert "/a" in s5.view.published["topic"] && "/a" !in s5.graph.published["topic"];
  }

  /** The poll thread stores a graph, the worker stores the next one and flags the client, and the poll
    * thread's message for the older graph arrives: its topics stay, although the reply is timely. */
  lemma {:induction false} LeftoverMisleads() returns (states: seq<Sys>, actions: seq<Action>)
    ensures Astray(states, actions)
    ensures forall i | 0 <= i < |actions| :: Timely(states[i], actions[i])
  {
    var a := OneTopic("/a");
    var s0 := Start(EMPTY);
    var s1 := Do(s0, Store(a));
    var s2 := Do(s1, WorkerStore(EMPTY));
    var s3 := Do(s2, Flag);
    var s4 := Do(s3, Broadcast);
    var s5 := Do(s4, Read);
    var s6 := Do(s5, Reply);
    states, actions := [s0, s1, s2, s3, s4, s5, s6], [Store(a), WorkerStore(EMPTY), Flag, Broadcast, Read, Reply];
    assert Trace(states, actions);
    assert Differs(map[], a.published, "topic") && "topic" in s4.view.published;
    assert "topic" in s6.view.published && "topic" !in s6.graph.published;
  }
}
