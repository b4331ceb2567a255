/** The server's bookkeeping and the bridge's tables together, over every run. */
module ParameterRuns {
  import opened Wrappers
  import opened Sequences
  import opened Protocol
  import opened Runs
  import opened ParameterNames
  import T = ParameterTables

  /** The parameters the bridge has been asked for and not released from. */
  function Upstream(calls: seq<ParamCall>): set<string>
    decreases |calls|
  {
    if calls == [] then {}
    else
      var before := Upstream(calls[..|calls| - 1]);
      match calls[|calls| - 1]
      case Subscribe(names) => before + names
      case Unsubscribe(names) => before - names
  }

  lemma {:induction false} UpstreamOneMore(calls: seq<ParamCall>, c: ParamCall)
    ensures Upstream(calls + [c]) == if c.Subscribe? then Upstream(calls) + c.names else Upstream(calls) - c.names
  {
    assert (calls + [c])[..|calls|] == calls;
  }

  /** A call into the bridge names only parameters nobody held before, or only
      parameters nobody holds any more. */
  ghost predicate CallSound(before: State, after: State) {
    after.paramCalls == before.paramCalls ||
    (|after.paramCalls| == |before.paramCalls| + 1 && after.paramCalls[..|before.paramCalls|] == before.paramCalls &&
     var c := after.paramCalls[|before.paramCalls|];
     && c.names != {}
     && (c.Subscribe? ==> c.names !! HeldParams(before.params) && c.names <= HeldParams(after.params))
     && (c.Unsubscribe? ==> c.names !! HeldParams(after.params)))
  }

  lemma {:induction false} HeldAfter(params: map<Handle, set<string>>, h: Handle, mine: set<string>, p: string)
    ensures p in HeldParams(params[h := mine]) <==> p in mine || exists k | k in params :: k != h && p in params[k]
  {
    if p in mine { assert p in params[h := mine][h]; }
    if k :| k in params && k != h && p in params[k] { assert p in params[h := mine][k]; }
  }

  lemma {:induction false} SubscribeParamsStep(s: State, h: Handle, names: set<string>)
    requires Upstream(s.paramCalls) == HeldParams(s.params)
    ensures var s' := SubscribeParams(s, h, names);
            && Upstream(s'.paramCalls) == HeldParams(s'.params) && CallSound(s, s')
            && HeldParams(s'.params) == HeldParams(s.params) + names
  {
    var mine := if h in s.params then s.params[h] else {};
    var s0 := s.(params := s.params[h := mine + names]);
    HeldMore(s.params, h, names);
    AskStep(s, s0, names);
  }

  lemma {:induction false} HeldMore(params: map<Handle, set<string>>, h: Handle, names: set<string>)
    ensures var mine := if h in params then params[h] else {};
            HeldParams(params[h := mine + names]) == HeldParams(params) + names
  {
    var mine := if h in params then params[h] else {};
    forall p ensures p in HeldParams(params[h := mine + names]) <==> p in HeldParams(params) + names {
      HeldAfter(params, h, mine + names, p);
    }
  }

  /** Adding names and telling the bridge about the ones nobody held. */
  lemma {:induction false} AskStep(s: State, s0: State, names: set<string>)
    requires Upstream(s.paramCalls) == HeldParams(s.params) && s0.paramCalls == s.paramCalls
    requires HeldParams(s0.params) == HeldParams(s.params) + names
    ensures var s' := CallParams(s0, Subscribe(names - HeldParams(s.params)));
            Upstream(s'.paramCalls) == HeldParams(s'.params) && CallSound(s, s')
  {
    UpstreamOneMore(s.paramCalls, Subscribe(names - HeldParams(s.params)));
    assert HeldParams(s.params) + (names - HeldParams(s.params)) == HeldParams(s0.params);
  }

  /** Dropping names of one client and telling the bridge about the unheld ones. */
  lemma {:induction false} DropStep(s: State, s0: State, names: set<string>)
    requires Upstream(s.paramCalls) == HeldParams(s.params) && s0.paramCalls == s.paramCalls
    requires HeldParams(s0.params) <= HeldParams(s.params) && HeldParams(s.params) - HeldParams(s0.params) <= names
    ensures var s' := DropUnheld(s0, names);
            Upstream(s'.paramCalls) == HeldParams(s'.params) && CallSound(s, s')
  {
    UpstreamOneMore(s.paramCalls, Unsubscribe(names - HeldParams(s0.params)));
    assert HeldParams(s.params) - (names - HeldParams(s0.params)) == HeldParams(s0.params);
  }

  lemma {:induction false} UnsubscribeParamsStep(s: State, h: Handle, names: set<string>)
    requires Upstream(s.paramCalls) == HeldParams(s.params)
    ensures var s' := UnsubscribeParams(s, h, names);
            Upstream(s'.paramCalls) == HeldParams(s'.params) && CallSound(s, s')
  {
    var mine := if h in s.params then s.params[h] else {};
    var s0 := s.(params := s.params[h := mine - names]);
    forall p ensures && (p in HeldParams(s0.params) ==> p in HeldParams(s.params))
                     && (p in HeldParams(s.params) && p !in HeldParams(s0.params) ==> p in names) {
      HeldAfter(s.params, h, mine - names, p);
    }
    DropStep(s, s0, names);
  }

  lemma {:induction false} CloseParamsStep(s: State, h: Handle)
    requires Upstream(s.paramCalls) == HeldParams(s.params)
    ensures var s' := CloseParams(s, h);
            Upstream(s'.paramCalls) == HeldParams(s'.params) && CallSound(s, s')
  {
    var mine := if h in s.params then s.params[h] else {};
    var s0 := s.(params := s.params - {h});
    forall p | p in HeldParams(s.params) ensures p in HeldParams(s0.params) || p in mine {
      var k :| k in s.params && p in s.params[k];
      if k != h { assert p in s0.params[k]; }
    }
    DropStep(s, s0, mine);
  }

  lemma {:induction false} CloseStep(s: State, h: Handle)
    requires Upstream(s.paramCalls) == HeldParams(s.params)
    ensures var s' := Close(s, h);
            Upstream(s'.paramCalls) == HeldParams(s'.params) && CallSound(s, s')
  {
    CloseParamsStep(s, h);
    if h in s.clients {
      assert CloseTables(s, h).paramCalls == CloseParams(s, h).paramCalls;
    }
  }

  lemma {:induction false} StepParams(s: State, e: Event)
    requires Upstream(s.paramCalls) == HeldParams(s.params)
    ensures var s' := Apply(s, e); Upstream(s'.paramCalls) == HeldParams(s'.params) && CallSound(s, s')
  {
    match e
    case ESubscribeParams(h, names) => SubscribeParamsStep(s, h, names);
    case EUnsubscribeParams(h, names) => UnsubscribeParamsStep(s, h, names);
    case EClose(h) => CloseStep(s, h);
    case _ =>
      assert Apply(s, e).paramCalls == s.paramCalls && Apply(s, e).params == s.params;
  }

  /** In every run the bridge is asked for exactly the parameters some client holds,
      and every call is sound. */
  lemma {:induction false} UpstreamIsUnion(es: seq<Event>)
    ensures Upstream(Run(INIT, es).paramCalls) == HeldParams(Run(INIT, es).params)
    ensures es != [] ==> CallSound(Run(INIT, es[..|es| - 1]), Run(INIT, es))
  {
    if es != [] {
      UpstreamIsUnion(es[..|es| - 1]);
      StepParams(Run(INIT, es[..|es| - 1]), es[|es| - 1]);
    }
  }

  // ------------------------------------------------------ the bridge's tables

  /** One call with its names in the order the hash set yields them. */
  datatype Ordered = Sub(names: seq<string>, made: set<string>) | Unsub(names: seq<string>)

  ghost predicate Orders(o: Ordered, c: ParamCall) {
    o.Sub? == c.Subscribe? && Elements(o.names) == c.names && Distinct(o.names)
  }

  function Replay(calls: seq<Ordered>, whitelisted: string -> bool): Option<T.Tables>
    decreases |calls|
  {
    if calls == [] then Some(T.Tables(map[], {}))
    else
      var r := Replay(calls[..|calls| - 1], whitelisted);
      if r.None? then r
      else
        match calls[|calls| - 1]
        case Sub(names, made) => Some(T.Subscribe(r.value, names, whitelisted, made))
        case Unsub(names) => T.Unsubscribe(r.value, names)
  }

  /** Clients ask for whitelisted names with a separator and give back only what they hold. */
  predicate Polite(s: State, e: Event, whitelisted: string -> bool) {
    && (e.ESubscribeParams? ==> forall p | p in e.names :: Dotted(p) && whitelisted(p))
    && (e.EUnsubscribeParams? ==> e.h in s.params && e.names <= s.params[e.h])
  }

  ghost predicate PoliteRun(es: seq<Event>, whitelisted: string -> bool) {
    forall i | 0 <= i < |es| :: Polite(Run(INIT, es[..i]), es[i], whitelisted)
  }

  ghost predicate PoliteCall(c: ParamCall, upstream: set<string>, whitelisted: string -> bool) {
    && (c.Subscribe? ==> forall p | p in c.names :: Dotted(p) && whitelisted(p))
    && (c.Unsubscribe? ==> c.names <= upstream)
  }

  ghost predicate PoliteCalls(calls: seq<ParamCall>, whitelisted: string -> bool) {
    forall i | 0 <= i < |calls| :: PoliteCall(calls[i], Upstream(calls[..i]), whitelisted)
  }

  lemma {:induction false} PoliteOneMore(calls: seq<ParamCall>, c: ParamCall, whitelisted: string -> bool)
    requires PoliteCalls(calls, whitelisted) && PoliteCall(c, Upstream(calls), whitelisted)
    ensures PoliteCalls(calls + [c], whitelisted)
  {
    var more := calls + [c];
    forall i | 0 <= i < |more| ensures PoliteCall(more[i], Upstream(more[..i]), whitelisted) {
      assert more[..i] == calls[..i];
      if i == |calls| { assert calls[..i] == calls; }
    }
  }

  lemma {:induction false} StepPolite(s: State, e: Event, whitelisted: string -> bool)
    requires Upstream(s.paramCalls) == HeldParams(s.params)
    requires PoliteCalls(s.paramCalls, whitelisted) && Polite(s, e, whitelisted)
    ensures PoliteCalls(Apply(s, e).paramCalls, whitelisted)
  {
    match e
    case ESubscribeParams(h, names) =>
      PoliteOneMore(s.paramCalls, Subscribe(names - HeldParams(s.params)), whitelisted);
    case EUnsubscribeParams(h, names) =>
      var s0 := s.(params := s.params[h := s.params[h] - names]);
      PoliteOneMore(s.paramCalls, Unsubscribe(names - HeldParams(s0.params)), whitelisted);
    case EClose(h) => ClosePolite(s, h, whitelisted);
    case _ => assert Apply(s, e).paramCalls == s.paramCalls;
  }

  lemma {:induction false} ClosePolite(s: State, h: Handle, whitelisted: string -> bool)
    requires Upstream(s.paramCalls) == HeldParams(s.params) && PoliteCalls(s.paramCalls, whitelisted)
    ensures PoliteCalls(Close(s, h).paramCalls, whitelisted)
  {
    var mine := if h in s.params then s.params[h] else {};
    var s0 := s.(params := s.params - {h});
    PoliteOneMore(s.paramCalls, Unsubscribe(mine - HeldParams(s0.params)), whitelisted);
    if h in s.clients {
      assert CloseTables(s, h).paramCalls == CloseParams(s, h).paramCalls;
    }
  }

  lemma {:induction false} PoliteRunCalls(es: seq<Event>, whitelisted: string -> bool)
    requires PoliteRun(es, whitelisted)
    ensures PoliteCalls(Run(INIT, es).paramCalls, whitelisted)
  {
    if es != [] {
      var pre := es[..|es| - 1];
      forall i | 0 <= i < |pre| ensures Polite(Run(INIT, pre[..i]), pre[i], whitelisted) {
        assert pre[..i] == es[..i];
      }
      PoliteRunCalls(pre, whitelisted);
      UpstreamIsUnion(pre);
      StepPolite(Run(INIT, pre), es[|es| - 1], whitelisted);
    }
  }

  predicate AllDotted(names: set<string>) { forall p | p in names :: Dotted(p) }

  /** Taking names with a separator apart loses nothing. */
  lemma {:induction false} EntriesDifference(held: set<string>, names: set<string>)
    requires AllDotted(held) && names <= held
    ensures T.Entries(held - names) == T.Entries(held) - T.Entries(names)
  {
    forall p | p in held - names ensures Split(p) !in T.Entries(names) {
      forall q | q in names ensures Split(p) != Split(q) {
        if Split(p) == Split(q) { SplitInjective(p, q); }
      }
    }
  }

  lemma {:induction false} DottedSeparate(names: seq<string>)
    requires Distinct(names) && AllDotted(Elements(names))
    ensures T.Separate(names)
  {
    forall i, j | 0 <= i < j < |names| ensures Split(names[i]) != Split(names[j]) {
      assert names[i] in Elements(names) && names[j] in Elements(names);
      if Split(names[i]) == Split(names[j]) { SplitInjective(names[i], names[j]); }
    }
  }

  ghost predicate OrdersAll(ordered: seq<Ordered>, calls: seq<ParamCall>) {
    |ordered| == |calls| && forall i | 0 <= i < |calls| :: Orders(ordered[i], calls[i])
  }

  /** ROS makes every event subscription it is asked for. */
  predicate Made(o: Ordered) { o.Sub? ==> forall p | p in o.names :: Split(p).0 in o.made }

  lemma {:induction false} ReplayRepresents(ordered: seq<Ordered>, calls: seq<ParamCall>, whitelisted: string -> bool)
    requires PoliteCalls(calls, whitelisted) && OrdersAll(ordered, calls) && forall o | o in ordered :: Made(o)
    ensures AllDotted(Upstream(calls))
    ensures var r := Replay(ordered, whitelisted); r.Some? && T.Good(r.value, T.Entries(Upstream(calls)))
    decreases |calls|
  {
    if calls != [] {
      var last := |calls| - 1;
      var pre, o, c := calls[..last], ordered[last], calls[last];
      forall i | 0 <= i < |pre| ensures PoliteCall(pre[i], Upstream(pre[..i]), whitelisted) {
        assert pre[..i] == calls[..i];
      }
      ReplayRepresents(ordered[..last], pre, whitelisted);
      assert PoliteCall(c, Upstream(pre), whitelisted);
      assert Orders(o, c);
      CallRepresents(Replay(ordered[..last], whitelisted).value, o, c, Upstream(pre), whitelisted);
    }
  }

  lemma {:induction false} CallRepresents(t: T.Tables, o: Ordered, c: ParamCall, held: set<string>, whitelisted: string -> bool)
    requires T.Good(t, T.Entries(held)) && AllDotted(held) && Orders(o, c) && PoliteCall(c, held, whitelisted) && Made(o)
    ensures c.Subscribe? ==>
              AllDotted(held + c.names) && T.Good(T.Subscribe(t, o.names, whitelisted, o.made), T.Entries(held + c.names))
    ensures c.Unsubscribe? ==>
              var r := T.Unsubscribe(t, o.names); r.Some? && T.Good(r.value, T.Entries(held - c.names))
  {
    if c.Subscribe? {
      assert forall p | p in o.names :: p in Elements(o.names);
      T.SubscribeGood(t, T.Entries(held), o.names, whitelisted, o.made);
      assert T.Entries(held + c.names) == T.Entries(held) + T.Entries(c.names);
    } else {
      DottedSeparate(o.names);
      EntriesDifference(held, c.names);
      T.UnsubscribeGood(t, T.Entries(held), o.names);
    }
  }

  /** With polite clients the bridge never runs into undefined behaviour, whatever order
      the hash sets yield, and its tables list exactly the parameters the clients hold,
      with no empty node and an event subscription for exactly the listed nodes. */
  lemma {:induction false} TablesFollowClients(es: seq<Event>, ordered: seq<Ordered>, whitelisted: string -> bool)
    requires PoliteRun(es, whitelisted) && OrdersAll(ordered, Run(INIT, es).paramCalls)
    requires forall o | o in ordered :: Made(o)
    ensures var r := Replay(ordered, whitelisted);
            r.Some? && T.Good(r.value, T.Entries(HeldParams(Run(INIT, es).params)))
  {
    UpstreamIsUnion(es);
    PoliteRunCalls(es, whitelisted);
    ReplayRepresents(ordered, Run(INIT, es).paramCalls, whitelisted);
  }

  // ------------------------------------------------- undefined behaviour, exactly

  lemma {:induction false} ReplayShape(ordered: seq<Ordered>, whitelisted: string -> bool)
    ensures Replay(ordered, whitelisted).Some? ==> T.Shape(Replay(ordered, whitelisted).value)
    decreases |ordered|
  {
    if ordered != [] && Replay(ordered[..|ordered| - 1], whitelisted).Some? {
      ReplayShape(ordered[..|ordered| - 1], whitelisted);
      var t := Replay(ordered[..|ordered| - 1], whitelisted).value;
      match ordered[|ordered| - 1]
      case Sub(names, made) => T.SubscribeRepresents(t, T.HeldBy(t), names, whitelisted, made);
      case Unsub(names) => T.UnsubscribeIff(t, T.HeldBy(t), names);
    }
  }

  /** Call `i` of the history is the first to run into undefined behaviour. */
  predicate FailsAt(ordered: seq<Ordered>, whitelisted: string -> bool, i: nat)
    requires i < |ordered|
  {
    ordered[i].Unsub? &&
    var r := Replay(ordered[..i], whitelisted);
    r.Some? && !T.ErasableInOrder(r.value.events, T.HeldBy(r.value), ordered[i].names)
  }

  /** After any history of calls, whatever clients, whitelist and ROS do, the bridge has run
      into undefined behaviour exactly when some unsubscribe call met a name that could
      not be erased at its turn. */
  lemma {:induction false} UndefinedIff(ordered: seq<Ordered>, whitelisted: string -> bool)
    ensures Replay(ordered, whitelisted).None? <==> exists i :: 0 <= i < |ordered| && FailsAt(ordered, whitelisted, i)
    decreases |ordered|
  {
    if ordered != [] {
      var last := |ordered| - 1;
      var pre := ordered[..last];
      UndefinedIff(pre, whitelisted);
      FailsOneMore(ordered, whitelisted);
      var r := Replay(pre, whitelisted);
      if r.Some? && ordered[last].Unsub? {
        ReplayShape(pre, whitelisted);
        T.UnsubscribeIff(r.value, T.HeldBy(r.value), ordered[last].names);
      }
    }
  }

  lemma {:induction false} FailsOneMore(ordered: seq<Ordered>, whitelisted: string -> bool)
    requires ordered != []
    ensures var pre := ordered[..|ordered| - 1];
            (exists i :: 0 <= i < |ordered| && FailsAt(ordered, whitelisted, i)) <==>
            (exists i :: 0 <= i < |pre| && FailsAt(pre, whitelisted, i)) || FailsAt(ordered, whitelisted, |pre|)
  {
    var pre := ordered[..|ordered| - 1];
    if i :| 0 <= i < |pre| && FailsAt(pre, whitelisted, i) { FailsPrefix(ordered, whitelisted, i); }
    if i :| 0 <= i < |ordered| && FailsAt(ordered, whitelisted, i) {
      if i < |pre| { FailsPrefix(ordered, whitelisted, i); }
    }
  }

  lemma {:induction false} FailsPrefix(ordered: seq<Ordered>, whitelisted: string -> bool, i: nat)
    requires i < |ordered| - 1
    ensures FailsAt(ordered[..|ordered| - 1], whitelisted, i) == FailsAt(ordered, whitelisted, i)
  {
    assert ordered[..|ordered| - 1][..i] == ordered[..i];
  }

  /** A whitelist with one name. */
  function Only(a: string): string -> bool { p => p == a }

  /** A client that never gives back what it does not hold can bring it about: it asks for
      `n.a`, then for `n.b`, which is not whitelisted, and disconnects.  Whether the bridge
      runs into undefined behaviour depends on the order of the hash set. */
  lemma {:induction false} DisconnectCanBeUndefined()
    ensures var a, b := Join("n", "a"), Join("n", "b");
            var es := [ELogin(0, "u", {}), ESubscribeParams(0, {a}), ESubscribeParams(0, {b}), EClose(0)];
            var calls := [Subscribe({a}), Subscribe({b}), Unsubscribe({a, b})];
            && Run(INIT, es).paramCalls == calls
            && Replay([Sub([a], {"n"}), Sub([b], {"n"}), Unsub([b, a])], Only(a)).None?
            && Replay([Sub([a], {"n"}), Sub([b], {"n"}), Unsub([a, b])], Only(a)).Some?
  {
    var a, b := Join("n", "a"), Join("n", "b");
    SplitJoin("n", "a");
    SplitJoin("n", "b");
    assert Split(a) == ("n", "a") && Split(b) == ("n", "b");
    TwoCalls(a, b);
    LastCall(a, b);
  }

  lemma {:induction false} TwoCalls(a: string, b: string)
    requires a != b
    ensures var es := [ELogin(0, "u", {}), ESubscribeParams(0, {a}), ESubscribeParams(0, {b}), EClose(0)];
            Run(INIT, es).paramCalls == [Subscribe({a}), Subscribe({b}), Unsubscribe({a, b})]
  {
    var es := [ELogin(0, "u", {}), ESubscribeParams(0, {a}), ESubscribeParams(0, {b}), EClose(0)];
    var s1 := Login(INIT, 0, "u", {});
    var s2 := SubscribeParams(s1, 0, {a});
    var s3 := SubscribeParams(s2, 0, {b});
    assert es[..0] == [] && es[..1] == [es[0]] && es[..2] == [es[0], es[1]] && es[..3] == [es[0], es[1], es[2]];
    assert Run(INIT, []) == INIT && es[..1][..0] == [] && es[..2][..1] == es[..1] && es[..3][..2] == es[..2];
    assert Run(INIT, es[..1]) == s1;
    assert Run(INIT, es[..2]) == s2;
    assert Run(INIT, es[..3]) == s3;
    assert Run(INIT, es) == Close(s3, 0);
    OneSubscriber(s1, 0, {}, {a});
    assert {} + {a} == {a};
    OneSubscriber(s2, 0, {a}, {b});
    assert {a} + {b} == {a, b};
    OneLeaves(s3, 0, {a, b});
  }

  lemma {:induction false} OneSubscriber(s: State, h: Handle, mine: set<string>, names: set<string>)
    requires (if h in s.params then s.params == map[h := mine] else s.params == map[] && mine == {})
    requires names != {} && names !! mine
    ensures var s' := SubscribeParams(s, h, names);
            s'.params == map[h := mine + names] && s'.paramCalls == s.paramCalls + [Subscribe(names)] && s'.clients == s.clients
  {
    assert HeldParams(s.params) == mine by {
      if h in s.params { assert forall p | p in mine :: p in s.params[h]; }
    }
    assert names - mine == names;
  }

  lemma {:induction false} OneLeaves(s: State, h: Handle, mine: set<string>)
    requires h in s.clients && s.params == map[h := mine] && mine != {}
    ensures Close(s, h).paramCalls == s.paramCalls + [Unsubscribe(mine)]
  {
    assert s.params - {h} == map[] && HeldParams(map[]) == {} && mine - {} == mine;
    assert CloseTables(s, h).paramCalls == CloseParams(s, h).paramCalls;
  }

  lemma {:induction false} LastCall(a: string, b: string)
    requires Split(a) == ("n", "a") && Split(b) == ("n", "b")
    ensures && Replay([Sub([a], {"n"}), Sub([b], {"n"}), Unsub([b, a])], Only(a)).None?
            && Replay([Sub([a], {"n"}), Sub([b], {"n"}), Unsub([a, b])], Only(a)).Some?
  {
    var onlyA := Only(a);
    var sub1, sub2 := Sub([a], {"n"}), Sub([b], {"n"});
    var t := T.Tables(map["n" := {"a"}], {"n"});
    assert [sub1][..0] == [] && [sub1, sub2][..1] == [sub1];
    assert [a][..0] == [] && T.Accepted([a], onlyA) == [a] && T.Accepted([b], onlyA) == [];
    assert {} + {"a"} == {"a"} && T.AddNames(map[], []) == map[];
    assert T.AddNames(map[], [a]) == map["n" := {"a"}];
    var empty := T.Tables(map[], {});
    assert T.AddNames(map[], [a]).Keys - empty.nodes.Keys == {"n"} && {} + {"n"} * {"n"} == {"n"};
    assert T.Subscribe(empty, [a], onlyA, {"n"}) == t;
    assert T.AddNames(t.nodes, []) == t.nodes && T.Subscribe(t, [b], onlyA, {"n"}) == t;
    assert Replay([], onlyA) == Some(empty);
    assert Replay([sub1], onlyA) == Some(t);
    assert Replay([sub1, sub2], onlyA) == Some(t);
    assert [sub1, sub2, Unsub([b, a])][..2] == [sub1, sub2] && [sub1, sub2, Unsub([a, b])][..2] == [sub1, sub2];
    assert [b, a][..1] == [b] && [b][..0] == [] && T.Unsubscribe(t, []) == Some(t);
    assert T.Unsubscribe(t, [b]).None?;
    assert T.Unsubscribe(t, [b, a]).None?;
    assert [a, b][..1] == [a] && t.nodes["n"] == {"a"};
    assert T.Unsubscribe(t, [a]) == Some(T.Tables(t.nodes - {"n"}, {"n"} - {"n"}));
    assert T.Unsubscribe(t, [a, b]).Some?;
  }
}
