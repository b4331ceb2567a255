/** Connection-graph notifications and the login flag, over every run. */
module Signals {
  import opened Protocol
  import opened Runs

  // ------------------------------------------------------- connection graph

  predicate Flagged(s: State, h: Handle) { h in s.clients && s.clients[h].graphFlag }

  /** The flagged clients: nobody, or exactly one. */
  ghost predicate AtMostOneFlagged(s: State) {
    forall h, k :: Flagged(s, h) && Flagged(s, k) ==> h == k
  }

  ghost predicate SomeFlagged(s: State) { exists h :: Flagged(s, h) }

  predicate Alternating(calls: seq<bool>) {
    forall i | 0 <= i < |calls| :: calls[i] == (i % 2 == 0)
  }

  /** The count is never negative and covers the flagged client; the bridge hears
      true, false, true, ... and the last word is true exactly while the count is
      positive. */
  ghost predicate GraphInv(s: State) {
    && s.graphCount >= 0
    && AtMostOneFlagged(s)
    && (SomeFlagged(s) ==> s.graphCount >= 1)
    && Alternating(s.graphCalls)
    && (s.graphCount > 0 <==> s.graphCalls != [] && s.graphCalls[|s.graphCalls| - 1])
  }

  /** Subscriptions counted but not flagged: nothing can give them back. */
  ghost function Orphans(s: State): int {
    s.graphCount - if SomeFlagged(s) then 1 else 0
  }

  /** Steps that leave the bookkeeping alone. */
  ghost predicate GraphSame(s: State, s': State) {
    && s'.graphCount == s.graphCount && s'.graphCalls == s.graphCalls
    && (forall h :: Flagged(s', h) == Flagged(s, h))
  }

  lemma {:induction false} GraphSameKeeps(s: State, s': State)
    requires GraphSame(s, s')
    ensures GraphInv(s) ==> GraphInv(s')
    ensures Orphans(s') == Orphans(s)
  {
    if h :| Flagged(s, h) { assert Flagged(s', h); }
  }

  /** A subscription that is counted although its client is not flagged: there is a
      subscriber already, the bridge throws, or the connection never logged in. */
  predicate Orphaning(s: State, e: Event) {
    e.ESubscribeGraph? && (s.graphCount > 0 || !e.handlerOk || e.h !in s.clients)
  }

  lemma {:induction false} SubscribeGraphKeeps(s: State, h: Handle, ok: bool)
    requires GraphInv(s)
    ensures GraphInv(SubscribeGraph(s, h, ok).st)
    ensures Orphans(SubscribeGraph(s, h, ok).st) ==
            Orphans(s) + if s.graphCount > 0 || !ok || h !in s.clients then 1 else 0
  {
    var s' := SubscribeGraph(s, h, ok).st;
    if s.graphCount > 0 || !ok || h !in s.clients {
      GraphFlagsSame(s, s');
    } else {
      assert forall k :: !Flagged(s, k);
      forall k ensures Flagged(s', k) ==> k == h { assert !Flagged(s, k); }
      assert Flagged(s', h);
    }
  }

  lemma {:induction false} GraphFlagsSame(s: State, s': State)
    requires forall h :: Flagged(s', h) == Flagged(s, h)
    ensures SomeFlagged(s') == SomeFlagged(s) && AtMostOneFlagged(s') == AtMostOneFlagged(s)
  {
    if h :| Flagged(s, h) { assert Flagged(s', h); }
  }

  /** Dropping the flag of `h` together with one count. */
  lemma {:induction false} ReleaseKeeps(s: State, s0: State, h: Handle)
    requires GraphInv(s) && Flagged(s, h)
    requires s0.graphCount == s.graphCount && s0.graphCalls == s.graphCalls
    requires forall k :: Flagged(s0, k) <==> Flagged(s, k) && k != h
    ensures GraphInv(ReleaseGraph(s0)) && Orphans(ReleaseGraph(s0)) == Orphans(s)
  {
    var s' := ReleaseGraph(s0);
    assert forall k :: !Flagged(s', k) by {
      forall k ensures !Flagged(s', k) { assert Flagged(s', k) == Flagged(s0, k); }
    }
  }

  lemma {:induction false} CloseGraph(s: State, h: Handle)
    requires GraphInv(s)
    ensures GraphInv(Close(s, h)) && Orphans(Close(s, h)) == Orphans(s)
  {
    if Flagged(s, h) { ReleaseKeeps(s, CloseTables(s, h), h); }
    else { GraphSameKeeps(s, Close(s, h)); }
  }

  lemma {:induction false} UnsubscribeGraphKeeps(s: State, h: Handle)
    requires GraphInv(s)
    ensures GraphInv(UnsubscribeGraph(s, h).st) && Orphans(UnsubscribeGraph(s, h).st) == Orphans(s)
  {
    if Flagged(s, h) {
      ReleaseKeeps(s, s.(clients := s.clients[h := s.clients[h].(graphFlag := false)]), h);
    }
  }

  lemma {:induction false} QuietGraph(s: State, e: Event)
    requires GraphInv(s) && !e.ESubscribeGraph? && !e.EUnsubscribeGraph? && !e.EClose?
    ensures GraphInv(Apply(s, e)) && Orphans(Apply(s, e)) == Orphans(s)
  {
    GraphSameKeeps(s, Apply(s, e));
  }

  /** Every event keeps the bookkeeping, and the orphans grow by exactly the orphaning
      subscriptions: nothing takes one back. */
  lemma {:induction false} StepGraph(s: State, e: Event)
    requires GraphInv(s)
    ensures GraphInv(Apply(s, e)) && Orphans(Apply(s, e)) == Orphans(s) + if Orphaning(s, e) then 1 else 0
  {
    match e
    case ESubscribeGraph(h, ok) => SubscribeGraphKeeps(s, h, ok);
    case EUnsubscribeGraph(h) => UnsubscribeGraphKeeps(s, h);
    case EClose(h) => CloseGraph(s, h);
    case _ => QuietGraph(s, e);
  }

  /** In every run, logged in or not, handler exceptions included. */
  lemma {:induction false} GraphSignals(es: seq<Event>)
    ensures GraphInv(Run(INIT, es))
  {
    if es != [] {
      GraphSignals(es[..|es| - 1]);
      StepGraph(Run(INIT, es[..|es| - 1]), es[|es| - 1]);
    }
  }

  lemma {:induction false} StepAddsOneCall(s: State, e: Event)
    ensures s.graphCalls <= Apply(s, e).graphCalls && |Apply(s, e).graphCalls| <= |s.graphCalls| + 1
  {
    match e
    case ESubscribeGraph(h, ok) => AddsOneCall(s, SubscribeGraph(s, h, ok).st, true);
    case EUnsubscribeGraph(h) => AddsOneCall(s, UnsubscribeGraph(s, h).st, false);
    case EClose(h) => CloseAddsOneCall(s, h);
    case _ => SilentStep(s, e);
  }

  lemma {:induction false} AddsOneCall(s: State, s': State, call: bool)
    requires s'.graphCalls == s.graphCalls || s'.graphCalls == s.graphCalls + [call]
    ensures s.graphCalls <= s'.graphCalls && |s'.graphCalls| <= |s.graphCalls| + 1
  {
  }

  lemma {:induction false} CloseAddsOneCall(s: State, h: Handle)
    ensures s.graphCalls <= Close(s, h).graphCalls && |Close(s, h).graphCalls| <= |s.graphCalls| + 1
  {
    AddsOneCall(s, Close(s, h), false);
  }

  lemma {:induction false} SilentStep(s: State, e: Event)
    requires !e.ESubscribeGraph? && !e.EUnsubscribeGraph? && !e.EClose?
    ensures Apply(s, e).graphCalls == s.graphCalls
  {
  }

  /** Orphaned subscriptions stay, and with them the last word the bridge heard. */
  ghost predicate Frozen(s: State, s': State) {
    Orphans(s) > 0 ==> Orphans(s') > 0 && s'.graphCalls == s.graphCalls
  }

  lemma {:induction false} StepFrozen(s: State, e: Event)
    requires GraphInv(s)
    ensures Frozen(s, Apply(s, e))
  {
    StepGraph(s, e);
    StepAddsOneCall(s, e);
  }

  /** From the moment a subscription is counted without being flagged, the bridge
      never hears another word of the same run. */
  lemma {:induction false} SecondSubscriberFreezesSignals(es: seq<Event>, i: nat)
    requires i <= |es|
    ensures Frozen(Run(INIT, es[..i]), Run(INIT, es))
    decreases |es|
  {
    if i == |es| {
      assert es[..i] == es;
    } else {
      var last := |es| - 1;
      assert es[..last][..i] == es[..i];
      SecondSubscriberFreezesSignals(es[..last], i);
      FrozenOneMore(es);
      FrozenFurther(Run(INIT, es[..i]), Run(INIT, es[..last]), Run(INIT, es));
    }
  }

  lemma {:induction false} FrozenOneMore(es: seq<Event>)
    requires es != []
    ensures Frozen(Run(INIT, es[..|es| - 1]), Run(INIT, es))
  {
    GraphSignals(es[..|es| - 1]);
    StepFrozen(Run(INIT, es[..|es| - 1]), es[|es| - 1]);
  }

  lemma {:induction false} FrozenFurther(a: State, b: State, c: State)
    requires Frozen(a, b) && Frozen(b, c)
    ensures Frozen(a, c)
  {
  }

  lemma {:induction false} RunFrozen(s: State, more: seq<Event>)
    requires GraphInv(s)
    ensures GraphInv(Run(s, more)) && Frozen(s, Run(s, more))
    decreases |more|
  {
    if more != [] {
      var before := Run(s, more[..|more| - 1]);
      RunFrozen(s, more[..|more| - 1]);
      StepGraph(before, more[|more| - 1]);
      StepFrozen(before, more[|more| - 1]);
    }
  }

  /** While there is no orphan, some event makes the bridge hear another word. */
  lemma {:induction false} NextWord(s: State) returns (e: Event)
    requires GraphInv(s) && Orphans(s) == 0
    ensures Apply(s, e).graphCalls != s.graphCalls
  {
    if s.graphCount == 0 {
      e := ESubscribeGraph(0, true);
    } else {
      var h :| Flagged(s, h);
      e := EUnsubscribeGraph(h);
    }
  }

  ghost predicate SilentForever(s: State) {
    forall more: seq<Event> :: Run(s, more).graphCalls == s.graphCalls
  }

  /** The bridge never hears another word, whatever follows, if and only if some
      subscription of the run was counted without flagging its client. */
  lemma {:induction false} FrozenIff(es: seq<Event>)
    ensures SilentForever(Run(INIT, es)) <==> HasOrphaning(es)
  {
    var s := Run(INIT, es);
    GraphSignals(es);
    OrphansCount(es);
    if Orphans(s) > 0 {
      forall more: seq<Event> ensures Run(s, more).graphCalls == s.graphCalls { RunFrozen(s, more); }
    } else {
      var e := NextWord(s);
      assert [e][..0] == [] && Run(s, []) == s;
      assert Run(s, [e]) == Apply(s, e);
    }
  }

  predicate OrphansAt(es: seq<Event>, i: nat)
    requires i < |es|
  {
    Orphaning(Run(INIT, es[..i]), es[i])
  }

  ghost predicate HasOrphaning(es: seq<Event>) { exists i :: 0 <= i < |es| && OrphansAt(es, i) }

  lemma {:induction false} OrphansPrefix(es: seq<Event>, i: nat)
    requires i < |es| - 1
    ensures OrphansAt(es[..|es| - 1], i) == OrphansAt(es, i)
  {
    assert es[..|es| - 1][..i] == es[..i];
  }

  lemma {:induction false} OrphaningStays(es: seq<Event>)
    requires es != [] && HasOrphaning(es[..|es| - 1])
    ensures HasOrphaning(es)
  {
    var i: nat :| i < |es| - 1 && OrphansAt(es[..|es| - 1], i);
    OrphansPrefix(es, i);
  }

  lemma {:induction false} OrphaningBefore(es: seq<Event>)
    requires es != [] && HasOrphaning(es) && !OrphansAt(es, |es| - 1)
    ensures HasOrphaning(es[..|es| - 1])
  {
    var i: nat :| i < |es| && OrphansAt(es, i);
    OrphansPrefix(es, i);
  }

  lemma {:induction false} OrphaningOneMore(es: seq<Event>)
    requires es != []
    ensures HasOrphaning(es) <==> HasOrphaning(es[..|es| - 1]) || OrphansAt(es, |es| - 1)
  {
    if HasOrphaning(es[..|es| - 1]) {
      OrphaningStays(es);
    } else if HasOrphaning(es) && !OrphansAt(es, |es| - 1) {
      OrphaningBefore(es);
    }
  }

  lemma {:induction false} OrphansCount(es: seq<Event>)
    ensures Orphans(Run(INIT, es)) >= 0
    ensures Orphans(Run(INIT, es)) > 0 <==> HasOrphaning(es)
  {
    if es != [] {
      var pre := es[..|es| - 1];
      OrphansCount(pre);
      GraphSignals(pre);
      StepGraph(Run(INIT, pre), es[|es| - 1]);
      OrphaningOneMore(es);
    }
  }

  /** One subscription before login, or one that makes the bridge throw, is enough. */
  lemma {:induction false} FirstSubscriberFreezes()
    ensures SilentForever(Run(INIT, [ESubscribeGraph(0, true)]))
    ensures SilentForever(Run(INIT, [ELogin(0, "u", {}), ESubscribeGraph(0, false)]))
  {
    var a, b := [ESubscribeGraph(0, true)], [ELogin(0, "u", {}), ESubscribeGraph(0, false)];
    assert a[..0] == [] && OrphansAt(a, 0);
    FrozenIff(a);
    assert b[1] == ESubscribeGraph(0, false) && OrphansAt(b, 1);
    FrozenIff(b);
  }

  // ------------------------------------------------------------------ login

  predicate IsLoggedIn(s: State, h: Handle) { h in s.clients && s.clients[h].login }

  ghost predicate AtMostOneLogin(s: State) {
    forall h, k :: IsLoggedIn(s, h) && IsLoggedIn(s, k) ==> h == k
  }

  lemma {:induction false} FewerLogins(s: State, s': State)
    requires AtMostOneLogin(s) && (forall h :: IsLoggedIn(s', h) ==> IsLoggedIn(s, h))
    ensures AtMostOneLogin(s')
  {
  }

  /** A login that meets no lost connection kicks everybody: by a new handle it
      leaves exactly that handle, by a known one nobody at all. */
  lemma {:induction false} CompletedLogin(s: State, h: Handle, user: string, lost: set<Handle>)
    requires LostClients(s, lost) == {}
    ensures forall k :: IsLoggedIn(Login(s, h, user, lost), k) <==> k == h && h !in s.clients
  {
  }

  lemma {:induction false} StepLogin(s: State, e: Event)
    requires AtMostOneLogin(s)
    ensures AtMostOneLogin(Apply(s, e))
  {
    if e.ELogin? && LostClients(s, e.lost) == {} {
      CompletedLogin(s, e.h, e.user, e.lost);
    } else {
      FewerLogins(s, Apply(s, e));
    }
  }

  lemma {:induction false} OneLogin(es: seq<Event>)
    ensures AtMostOneLogin(Run(INIT, es))
  {
    if es != [] {
      OneLogin(es[..|es| - 1]);
      StepLogin(Run(INIT, es[..|es| - 1]), es[|es| - 1]);
    }
  }
}
