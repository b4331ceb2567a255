/** What the tables hold after a run, told from its history: what was asked for and has not been
    taken back since. */
module History {
  import opened Sequences
  import opened Protocol
  import opened Runs
  import opened Effects

  // ------------------------------------------------------------ on and off

  /** What one event does to one entry of a table: puts it there, takes it away. */
  datatype Mark = Mark(on: bool, off: bool)

  predicate Standing(marks: seq<Mark>)
    decreases |marks|
  {
    marks != [] && (marks[|marks| - 1].on || (Standing(marks[..|marks| - 1]) && !marks[|marks| - 1].off))
  }

  ghost predicate StandsSince(marks: seq<Mark>, i: nat) {
    i < |marks| && marks[i].on && forall j | i < j < |marks| :: !marks[j].off
  }

  lemma {:induction false} StandingIff(marks: seq<Mark>)
    ensures Standing(marks) <==> exists i: nat :: StandsSince(marks, i)
    decreases |marks|
  {
    if marks != [] {
      var last := |marks| - 1;
      StandingIff(marks[..last]);
      if marks[last].on {
        assert StandsSince(marks, last);
      } else {
        forall i: nat | i < last ensures StandsSince(marks, i) <==> StandsSince(marks[..last], i) && !marks[last].off {
          StandsPrefix(marks, i);
        }
      }
    }
  }

  lemma {:induction false} StandsPrefix(marks: seq<Mark>, i: nat)
    requires i < |marks| - 1
    ensures StandsSince(marks, i) <==> StandsSince(marks[..|marks| - 1], i) && !marks[|marks| - 1].off
  {
    var pre := marks[..|marks| - 1];
    if StandsSince(marks, i) {
      forall j | i < j < |pre| ensures !pre[j].off { assert !marks[j].off; }
    }
  }

  // ---------------------------------------------------------- subscriptions

  /** Element `i` of a subscribe request brings the client channel `c`. */
  ghost predicate GrantsAt(s: State, h: Handle, items: seq<SubItem>, i: nat, c: ChannelId) {
    && i < |items| && Asks(s, h, items[i]) && items[i].chan == c
    && forall j | 0 <= j <= i :: !SubFails(s, h, items, j)
  }

  ghost predicate Grants(s: State, e: Event, c: ChannelId, h: Handle) {
    e.ESubscribe? && e.h == h && h in s.clients && exists i: nat :: GrantsAt(s, h, e.subs, i, c)
  }

  /** Element `i` of an unsubscribe request takes channel `c` from the client. */
  ghost predicate TakesAt(s: State, h: Handle, items: seq<UnsubItem>, find: Finder, i: nat, c: ChannelId) {
    && i < |items| && Names(s, h, items[i]) && find(SubsOf(s, h), items[i].subId) == c
    && forall j | 0 <= j <= i :: !UnsubFails(s, h, items, find, j)
  }

  /** The client gives the channel back, the connection of the client is closed, or the topic has gone. */
  ghost predicate Revokes(s: State, e: Event, c: ChannelId, h: Handle) {
    || (e.EUnsubscribe? && e.h == h && h in s.clients && exists i: nat :: TakesAt(s, h, e.unsubs, e.find, i, c))
    || (e == EClose(h) && h in s.clients)
    || (e.EUpdate? && c in Departed(s.advertised, e.latest))
  }

  lemma {:induction false} GrantedIff(s: State, h: Handle, items: seq<SubItem>, n: nat, c: ChannelId)
    requires n <= |items| && (forall i | 0 <= i < n :: !SubFails(s, h, items, i)) && (n < |items| ==> SubFails(s, h, items, n))
    ensures c in Asked(s, h, items, n) <==> exists i: nat :: GrantsAt(s, h, items, i, c)
  {
    AskedIff(s, h, items, n, c);
    if c in Asked(s, h, items, n) {
      var i :| 0 <= i < n && Asks(s, h, items[i]) && items[i].chan == c;
      assert GrantsAt(s, h, items, i, c);
    }
  }

  lemma {:induction false} NamedAt(s: State, h: Handle, items: seq<UnsubItem>, find: Finder, n: nat, c: ChannelId)
    requires n <= |items|
    ensures c in Named(s, h, items, find, n) <==>
            exists i :: 0 <= i < n && Names(s, h, items[i]) && find(SubsOf(s, h), items[i].subId) == c
  {
    if n > 0 { NamedAt(s, h, items, find, n - 1, c); }
  }

  lemma {:induction false} TakenIff(s: State, h: Handle, items: seq<UnsubItem>, find: Finder, n: nat, c: ChannelId)
    requires n <= |items| && (forall i | 0 <= i < n :: !UnsubFails(s, h, items, find, i))
    requires n < |items| ==> UnsubFails(s, h, items, find, n)
    ensures c in Named(s, h, items, find, n) <==> exists i: nat :: TakesAt(s, h, items, find, i, c)
  {
    NamedAt(s, h, items, find, n, c);
    if c in Named(s, h, items, find, n) {
      var i :| 0 <= i < n && Names(s, h, items[i]) && find(SubsOf(s, h), items[i].subId) == c;
      assert TakesAt(s, h, items, find, i, c);
    }
  }

  lemma {:induction false} SubscribePair(s: State, k: Handle, items: seq<SubItem>, c: ChannelId, h: Handle)
    requires k in s.clients
    ensures BridgeSub(HandleSubscribe(s, k, items).st, c, h) <==>
            BridgeSub(s, c, h) || (k == h && exists i: nat :: GrantsAt(s, h, items, i, c))
  {
    var n := SubscribeEffect(s, k, items);
    GrantedIff(s, k, items, n, c);
  }

  lemma {:induction false} UnsubscribePair(s: State, k: Handle, items: seq<UnsubItem>, find: Finder, c: ChannelId, h: Handle)
    requires k in s.clients
    ensures BridgeSub(HandleUnsubscribe(s, k, items, find).st, c, h) <==>
            BridgeSub(s, c, h) && !(k == h && exists i: nat :: TakesAt(s, h, items, find, i, c))
  {
    var n := UnsubscribeEffect(s, k, items, find);
    TakenIff(s, k, items, find, n, c);
  }

  /** In the states of a run only a malformed element and an id whose channel an earlier element
      has taken make an unsubscribe request fail. */
  lemma {:induction false} UnsubFailsIff(s: State, h: Handle, items: seq<UnsubItem>, find: Finder, i: nat)
    requires SubsInv(s) && FindsEntries(find) && i < |items|
    ensures UnsubFails(s, h, items, find, i) <==>
            || items[i].MalformedUnsub?
            || (Names(s, h, items[i]) && find(SubsOf(s, h), items[i].subId) in Named(s, h, items, find, i))
  {
    if Names(s, h, items[i]) {
      var c := find(SubsOf(s, h), items[i].subId);
      assert SubAgrees(s, c, h);
    }
  }

  lemma {:induction false} ClosePair(s: State, k: Handle, c: ChannelId, h: Handle)
    requires SubsInv(s) && k in s.clients
    ensures BridgeSub(Close(s, k), c, h) <==> BridgeSub(s, c, h) && k != h
  {
    var _ := CloseEffect(s, k);
    assert SubAgrees(s, c, h);
  }

  /** Every event, on every pair of a channel and a client. */
  lemma {:induction false} StepPair(s: State, e: Event, c: ChannelId, h: Handle)
    requires SubsInv(s) && WellFormed(e)
    ensures BridgeSub(Apply(s, e), c, h) <==> Grants(s, e, c, h) || (BridgeSub(s, c, h) && !Revokes(s, e, c, h))
  {
    match e
    case ESubscribe(k, items) => if k in s.clients { SubscribePair(s, k, items, c, h); }
    case EUnsubscribe(k, items, find) => if k in s.clients { UnsubscribePair(s, k, items, find, c, h); }
    case EClose(k) => if k in s.clients { ClosePair(s, k, c, h); }
    case EUpdate(latest, lookup) => UpdateTakes(s, latest, lookup);
    case _ => QuietPair(s, e);
  }

  lemma {:induction false} QuietPair(s: State, e: Event)
    requires !e.ESubscribe? && !e.EUnsubscribe? && !e.EClose? && !e.EUpdate?
    ensures Apply(s, e).subscriptions == s.subscriptions
  {
  }

  ghost predicate Granted(es: seq<Event>, c: ChannelId, h: Handle, i: nat)
    requires i < |es|
  {
    Grants(Run(INIT, es[..i]), es[i], c, h)
  }

  ghost predicate Revoked(es: seq<Event>, c: ChannelId, h: Handle, i: nat)
    requires i < |es|
  {
    Revokes(Run(INIT, es[..i]), es[i], c, h)
  }

  ghost function PairMark(es: seq<Event>, c: ChannelId, h: Handle, i: nat): Mark
    requires i < |es|
  {
    Mark(Granted(es, c, h, i), Revoked(es, c, h, i))
  }

  ghost function PairMarks(es: seq<Event>, c: ChannelId, h: Handle): seq<Mark> {
    seq(|es|, i requires 0 <= i < |es| => PairMark(es, c, h, i))
  }

  lemma {:induction false} PairMarkPrefix(es: seq<Event>, c: ChannelId, h: Handle, i: nat)
    requires i < |es| - 1
    ensures PairMark(es[..|es| - 1], c, h, i) == PairMark(es, c, h, i)
  {
    assert es[..|es| - 1][..i] == es[..i];
  }

  lemma {:induction false} PairMarksPrefix(es: seq<Event>, c: ChannelId, h: Handle)
    requires es != []
    ensures PairMarks(es, c, h)[..|es| - 1] == PairMarks(es[..|es| - 1], c, h)
  {
    var a, b := PairMarks(es, c, h)[..|es| - 1], PairMarks(es[..|es| - 1], c, h);
    forall i: nat | i < |es| - 1 ensures a[i] == b[i] { PairMarkPrefix(es, c, h, i); }
  }

  lemma {:induction false} PairStands(es: seq<Event>, c: ChannelId, h: Handle)
    requires AllWellFormed(es)
    ensures BridgeSub(Run(INIT, es), c, h) <==> Standing(PairMarks(es, c, h))
    decreases |es|
  {
    if es != [] {
      PairStands(es[..|es| - 1], c, h);
      PairMarksPrefix(es, c, h);
      PairStep(es, c, h);
    }
  }

  lemma {:induction false} PairStep(es: seq<Event>, c: ChannelId, h: Handle)
    requires AllWellFormed(es) && es != []
    ensures var mark := PairMark(es, c, h, |es| - 1);
            BridgeSub(Run(INIT, es), c, h) <==> mark.on || (BridgeSub(Run(INIT, es[..|es| - 1]), c, h) && !mark.off)
  {
    SubscriptionsAgree(es[..|es| - 1]);
    StepPair(Run(INIT, es[..|es| - 1]), es[|es| - 1], c, h);
  }

  /** Event `i` brought the pair, and no later one took it away. */
  ghost predicate PairSince(es: seq<Event>, c: ChannelId, h: Handle, i: nat) {
    i < |es| && Granted(es, c, h, i) && forall j | i < j < |es| :: !Revoked(es, c, h, j)
  }

  /** In every run a client is subscribed to a channel, in the server's table and in the bridge's,
      if and only if it asked for it and has not given it back, lost its connection or lost the
      topic since. */
  lemma {:induction false} PairHeldIff(es: seq<Event>, c: ChannelId, h: Handle)
    requires AllWellFormed(es)
    ensures BridgeSub(Run(INIT, es), c, h) <==> exists i: nat :: PairSince(es, c, h, i)
    ensures c in SubsOf(Run(INIT, es), h) <==> exists i: nat :: PairSince(es, c, h, i)
  {
    PairStands(es, c, h);
    StandingIff(PairMarks(es, c, h));
    forall i: nat ensures StandsSince(PairMarks(es, c, h), i) <==> PairSince(es, c, h, i) { PairSinceMarks(es, c, h, i); }
    SubscriptionsAgree(es);
    assert SubAgrees(Run(INIT, es), c, h);
  }

  lemma {:induction false} PairSinceMarks(es: seq<Event>, c: ChannelId, h: Handle, i: nat)
    ensures StandsSince(PairMarks(es, c, h), i) <==> PairSince(es, c, h, i)
  {
    var marks := PairMarks(es, c, h);
    if i < |es| {
      assert marks[i] == PairMark(es, c, h, i);
      if StandsSince(marks, i) {
        forall j | i < j < |es| ensures !Revoked(es, c, h, j) { assert marks[j] == PairMark(es, c, h, j); }
      }
      if PairSince(es, c, h, i) {
        forall j | i < j < |es| ensures !marks[j].off { assert !Revoked(es, c, h, j); }
      }
    }
  }

  // ------------------------------------------------------------- parameters

  predicate AsksFor(e: Event, k: Handle, p: string) { e.ESubscribeParams? && e.h == k && p in e.names }

  predicate GivesBack(s: State, e: Event, k: Handle, p: string) {
    (e.EUnsubscribeParams? && e.h == k && p in e.names) || (e == EClose(k) && k in s.clients)
  }

  lemma {:induction false} StepHolds(s: State, e: Event, k: Handle, p: string)
    ensures Holds(Apply(s, e), k, p) <==> AsksFor(e, k, p) || (Holds(s, k, p) && !GivesBack(s, e, k, p))
  {
    match e
    case ESubscribeParams(h, names) => var _ := SubscribeParamsEffect(s, h, names);
    case EUnsubscribeParams(h, names) => var _ := UnsubscribeParamsEffect(s, h, names);
    case EClose(h) => if h in s.clients { var _ := CloseEffect(s, h); }
    case _ => QuietHolds(s, e);
  }

  lemma {:induction false} QuietHolds(s: State, e: Event)
    requires !e.ESubscribeParams? && !e.EUnsubscribeParams? && !e.EClose?
    ensures Apply(s, e).params == s.params
  {
  }

  predicate GivenBack(es: seq<Event>, k: Handle, p: string, i: nat)
    requires i < |es|
  {
    GivesBack(Run(INIT, es[..i]), es[i], k, p)
  }

  function ParamMark(es: seq<Event>, k: Handle, p: string, i: nat): Mark
    requires i < |es|
  {
    Mark(AsksFor(es[i], k, p), GivenBack(es, k, p, i))
  }

  function ParamMarks(es: seq<Event>, k: Handle, p: string): seq<Mark> {
    seq(|es|, i requires 0 <= i < |es| => ParamMark(es, k, p, i))
  }

  lemma {:induction false} ParamMarkPrefix(es: seq<Event>, k: Handle, p: string, i: nat)
    requires i < |es| - 1
    ensures ParamMark(es[..|es| - 1], k, p, i) == ParamMark(es, k, p, i)
  {
    assert es[..|es| - 1][..i] == es[..i];
  }

  lemma {:induction false} ParamMarksPrefix(es: seq<Event>, k: Handle, p: string)
    requires es != []
    ensures ParamMarks(es, k, p)[..|es| - 1] == ParamMarks(es[..|es| - 1], k, p)
  {
    var a, b := ParamMarks(es, k, p)[..|es| - 1], ParamMarks(es[..|es| - 1], k, p);
    forall i: nat | i < |es| - 1 ensures a[i] == b[i] { ParamMarkPrefix(es, k, p, i); }
  }

  lemma {:induction false} ParamStands(es: seq<Event>, k: Handle, p: string)
    ensures Holds(Run(INIT, es), k, p) <==> Standing(ParamMarks(es, k, p))
    decreases |es|
  {
    if es != [] {
      ParamStands(es[..|es| - 1], k, p);
      ParamMarksPrefix(es, k, p);
      StepHolds(Run(INIT, es[..|es| - 1]), es[|es| - 1], k, p);
    }
  }

  ghost predicate HeldSince(es: seq<Event>, k: Handle, p: string, i: nat) {
    i < |es| && AsksFor(es[i], k, p) && forall j | i < j < |es| :: !GivenBack(es, k, p, j)
  }

  /** In every run a connection holds a parameter if and only if it asked for it and has neither
      given it back nor been closed as a client since. */
  lemma {:induction false} ParamHeldIff(es: seq<Event>, k: Handle, p: string)
    ensures Holds(Run(INIT, es), k, p) <==> exists i: nat :: HeldSince(es, k, p, i)
  {
    ParamStands(es, k, p);
    StandingIff(ParamMarks(es, k, p));
    forall i: nat ensures StandsSince(ParamMarks(es, k, p), i) <==> HeldSince(es, k, p, i) { HeldSinceMarks(es, k, p, i); }
  }

  lemma {:induction false} HeldSinceMarks(es: seq<Event>, k: Handle, p: string, i: nat)
    ensures StandsSince(ParamMarks(es, k, p), i) <==> HeldSince(es, k, p, i)
  {
    var marks := ParamMarks(es, k, p);
    if i < |es| {
      assert marks[i] == ParamMark(es, k, p, i);
      if StandsSince(marks, i) {
        forall j | i < j < |es| ensures !GivenBack(es, k, p, j) { assert marks[j] == ParamMark(es, k, p, j); }
      }
      if HeldSince(es, k, p, i) {
        forall j | i < j < |es| ensures !marks[j].off { assert !GivenBack(es, k, p, j); }
      }
    }
  }

  // ----------------------------------------------------------------- schemas

  /** The update that added the channel: it lists the topic and its lookup gave the schema. */
  ghost predicate AddedBy(e: Event, ch: Channel) {
    e.EUpdate? && Pair(ch) in e.latest && SchemaOf(ch, e.lookup)
  }

  lemma {:induction false} StepAdded(s: State, e: Event, id: ChannelId)
    requires TablesAgree(s) && WellFormed(e) && id in Apply(s, e).advertised
    ensures (id in s.advertised && Apply(s, e).advertised[id] == s.advertised[id]) || AddedBy(e, Apply(s, e).advertised[id])
  {
    if e.EUpdate? {
      UpdateReconciles(s, e.latest, e.lookup);
      var s' := UpdateTopics(s, e.latest, e.lookup);
      assert Pair(s'.advertised[id]) in Pairs(s'.advertised);
      if id !in s.advertised { UpdateSchemas(s, e.latest, e.lookup, id); }
    } else {
      QuietAdvertised(s, e);
    }
  }

  lemma {:induction false} QuietAdvertised(s: State, e: Event)
    requires !e.EUpdate?
    ensures Apply(s, e).advertised == s.advertised
  {
  }

  /** In every run each channel that server and bridge advertise was added by an update of the
      run that lists its topic, with the schema of its type at that update. */
  lemma {:induction false} ChannelsWereAdded(es: seq<Event>, id: ChannelId) returns (i: nat)
    requires AllWellFormed(es) && id in Run(INIT, es).advertised
    ensures i < |es| && AddedBy(es[i], Run(INIT, es).advertised[id])
    ensures id in Run(INIT, es).channels && Run(INIT, es).channels[id] == Run(INIT, es).advertised[id]
    decreases |es|
  {
    SubscriptionsAgree(es);
    var last := |es| - 1;
    SubscriptionsAgree(es[..last]);
    StepAdded(Run(INIT, es[..last]), es[last], id);
    i := last;
    if !AddedBy(es[last], Run(INIT, es).advertised[id]) { i := ChannelsWereAdded(es[..last], id); }
  }
}

/** From the definition files to the schemas that clients are told. */
module Schemas {
  import opened Wrappers
  import opened Protocol
  import opened Effects
  import D = Definitions
  import F = Flatten

  /** What the bridge makes of the definition cache's answer: a definition that is not found leaves
      the schema empty, any other failure keeps the topic from being advertised. */
  function Answer(full: F.Result<F.FullText>): Lookup {
    match full
    case Ok(text) => Found(text.text)
    case Err(err) => if err == D.NotFound then Missing else Rejected
  }

  /** The schema of every channel that an update adds: the definition of its type and one section
      for each definition that this reaches, none twice; the IDL definition, in the same way, if
      a message definition is not found; nothing if an IDL definition is not found either.  No
      channel is added for a type with another failure. */
  lemma {:induction false} AdvertisedSchema(s: State, latest: seq<TopicAndType>, lookup: string -> Lookup, id: ChannelId,
                                           env: D.Env, universe: set<D.Id>)
    returns (msgs: seq<D.Id>, idls: seq<D.Id>)
    requires (forall k | k in s.advertised || k in s.channels :: k <= s.nextId) && id > s.nextId
    requires id in UpdateTopics(s, latest, lookup).advertised
    requires var t := UpdateTopics(s, latest, lookup).advertised[id].schemaName;
             && D.Id(D.MSG, t) in universe && D.Id(D.IDL, t) in universe && F.Closed(env, universe)
             && lookup(t) == Answer(F.FullMessage(env, t, universe))
    ensures var ch := UpdateTopics(s, latest, lookup).advertised[id];
            var msg, idl := D.Id(D.MSG, ch.schemaName), D.Id(D.IDL, ch.schemaName);
            && F.ListsReached(env, msg, msgs) && F.ListsReached(env, idl, idls)
            && match F.FirstError(env, [msg] + msgs)
               case None => ch.schema == F.Flattened(env, msg, msgs)
               case Some(err) =>
                 && err == D.NotFound
                 && match F.FirstError(env, [idl] + idls)
                    case None => ch.schema == F.Delimiter(idl) + F.Flattened(env, idl, idls)
                    case Some(err) => err == D.NotFound && ch.schema == ""
  {
    var t := UpdateTopics(s, latest, lookup).advertised[id].schemaName;
    UpdateSchemas(s, latest, lookup, id);
    msgs, idls := F.FullMessageSections(env, t, universe);
  }
}
