/** Parameter subscriptions: the server counts who holds a parameter and tells the
    bridge only about the first and the last holder; the bridge keeps the
    parameters in tables indexed by node. */
module ParameterNames {

  const SEP := '.'

  predicate Dotted(name: string) { SEP in name }

  function IndexOf(name: string): (i: nat)
    requires Dotted(name)
    ensures i < |name| && name[i] == SEP && SEP !in name[..i]
  {
    if name[0] == SEP then 0 else 1 + IndexOf(name[1..])
  }

  /** `get_node_and_param_name`: without a separator both parts are the whole name. */
  function Split(name: string): (string, string) {
    if Dotted(name) then (name[..IndexOf(name)], name[IndexOf(name) + 1..]) else (name, name)
  }

  /** `prepend_node_name_to_param_name` */
  function Join(node: string, param: string): string { node + [SEP] + param }

  lemma {:induction false} JoinSplit(name: string)
    ensures Join(Split(name).0, Split(name).1) == name <==> Dotted(name)
  {
    if !Dotted(name) {
      assert |Join(name, name)| == 2 * |name| + 1;
    }
  }

  lemma {:induction false} FirstSeparator(name: string, i: nat)
    requires i < |name| && name[i] == SEP && SEP !in name[..i]
    ensures Dotted(name) && IndexOf(name) == i
    decreases i
  {
    if i > 0 {
      assert name[0] == name[..i][0];
      assert name[1..][..i - 1] == name[..i][1..];
      FirstSeparator(name[1..], i - 1);
    }
  }

  /** A name is taken apart into the node and the parameter it was built from exactly
      when the node's name has no separator. */
  lemma {:induction false} SplitJoin(node: string, param: string)
    ensures Split(Join(node, param)) == (node, param) <==> !Dotted(node)
  {
    var name := Join(node, param);
    assert name[|node|] == SEP && name[..|node|] == node && name[|node| + 1..] == param;
    if !Dotted(node) { FirstSeparator(name, |node|); }
    else { assert SEP !in Split(name).0; }
  }

  /** Names with a separator never collide; the two names below do. */
  lemma {:induction false} SplitInjective(a: string, b: string)
    requires Dotted(a) && Dotted(b) && Split(a) == Split(b)
    ensures a == b
  {
    JoinSplit(a);
    JoinSplit(b);
  }

  lemma {:induction false} UndottedCollides(a: string)
    requires !Dotted(a)
    ensures Split(a) == Split(Join(a, a)) && a != Join(a, a)
  {
    SplitJoin(a, a);
    assert |Join(a, a)| == 2 * |a| + 1;
  }
}

module ParameterTables {
  import opened Wrappers
  import opened Sequences
  import opened ParameterNames

  /** `_subscribed_params_by_node` and the keys of `_param_subscriptions_by_node`. */
  datatype Tables = Tables(nodes: map<string, set<string>>, events: set<string>)

  function AddName(nodes: map<string, set<string>>, name: string): map<string, set<string>> {
    var (n, p) := Split(name);
    nodes[n := (if n in nodes then nodes[n] else {}) + {p}]
  }

  function AddNames(nodes: map<string, set<string>>, names: seq<string>): map<string, set<string>>
    decreases |names|
  {
    if names == [] then nodes else AddName(AddNames(nodes, names[..|names| - 1]), names[|names| - 1])
  }

  /** The names up to the first one that is not whitelisted. */
  function Accepted(names: seq<string>, whitelisted: string -> bool): (r: seq<string>)
    ensures r <= names && (forall p | p in r :: whitelisted(p))
    ensures |r| < |names| ==> !whitelisted(names[|r|])
  {
    if names == [] || !whitelisted(names[0]) then [] else [names[0]] + Accepted(names[1..], whitelisted)
  }

  /** `subscribe_params`: at a name that is not whitelisted it returns before it
      subscribes to the events of the nodes it has just listed.  `made` are the nodes
      for which the event subscription is made before ROS throws, if it does. */
  function Subscribe(t: Tables, names: seq<string>, whitelisted: string -> bool, made: set<string>): Tables {
    var ok := Accepted(names, whitelisted);
    var nodes := AddNames(t.nodes, ok);
    Tables(nodes, if ok == names then t.events + (nodes.Keys - t.nodes.Keys) * made else t.events)
  }

  function NewNodes(t: Tables, names: seq<string>): set<string> {
    (set p | p in names :: Split(p).0) - t.nodes.Keys
  }

  /** One name of `unsubscribe_params`; erasing an entry that is not there is
      undefined behaviour, here `None`. */
  function UnsubscribeOne(t: Tables, name: string): Option<Tables> {
    var (n, p) := Split(name);
    if n !in t.nodes then Some(t)
    else if p !in t.nodes[n] then None
    else if t.nodes[n] != {p} then Some(t.(nodes := t.nodes[n := t.nodes[n] - {p}]))
    else if n !in t.events then None
    else Some(Tables(t.nodes - {n}, t.events - {n}))
  }

  function Unsubscribe(t: Tables, names: seq<string>): Option<Tables>
    decreases |names|
  {
    if names == [] then Some(t)
    else
      var r := Unsubscribe(t, names[..|names| - 1]);
      if r.None? then None else UnsubscribeOne(r.value, names[|names| - 1])
  }

  // -------------------------------------------------------------- invariants

  /** No empty node, and an event subscription for exactly the listed nodes. */
  predicate Valid(t: Tables) { t.events == t.nodes.Keys && NoEmptyNode(t) }

  predicate Has(t: Tables, n: string, p: string) { n in t.nodes && p in t.nodes[n] }

  type Entry = (string, string)

  /** The tables hold exactly these entries. */
  ghost predicate Represents(t: Tables, held: set<Entry>) {
    forall n, p :: Has(t, n, p) <==> (n, p) in held
  }

  predicate NoEmptyNode(t: Tables) { forall n | n in t.nodes :: t.nodes[n] != {} }

  ghost predicate Good(t: Tables, held: set<Entry>) { Valid(t) && Represents(t, held) }

  function Entries(names: set<string>): set<Entry> { set name | name in names :: Split(name) }

  lemma {:induction false} AddNameRepresents(t: Tables, held: set<Entry>, name: string)
    requires Represents(t, held) && NoEmptyNode(t)
    ensures var t' := t.(nodes := AddName(t.nodes, name)); Represents(t', held + {Split(name)}) && NoEmptyNode(t')
  {
    var t' := t.(nodes := AddName(t.nodes, name));
    forall n, p ensures Has(t', n, p) <==> (n, p) in held + {Split(name)} { assert Has(t, n, p) <==> (n, p) in held; }
  }

  lemma {:induction false} AddNamesRepresents(t: Tables, held: set<Entry>, names: seq<string>)
    requires Represents(t, held) && NoEmptyNode(t)
    ensures var t' := t.(nodes := AddNames(t.nodes, names));
            Represents(t', held + Entries(Elements(names))) && NoEmptyNode(t')
    decreases |names|
  {
    if names == [] {
      assert held + Entries(Elements(names)) == held;
    } else {
      var last := |names| - 1;
      AddNamesRepresents(t, held, names[..last]);
      var before := held + Entries(Elements(names[..last]));
      AddNameRepresents(t.(nodes := AddNames(t.nodes, names[..last])), before, names[last]);
      EntriesOneMore(names);
      assert before + {Split(names[last])} == held + Entries(Elements(names));
    }
  }

  lemma {:induction false} EntriesOneMore(names: seq<string>)
    requires names != []
    ensures Entries(Elements(names)) == Entries(Elements(names[..|names| - 1])) + {Split(names[|names| - 1])}
  {
    assert names == names[..|names| - 1] + [names[|names| - 1]];
  }

  lemma {:induction false} AddNamesGrows(nodes: map<string, set<string>>, names: seq<string>)
    ensures nodes.Keys <= AddNames(nodes, names).Keys
    decreases |names|
  {
    if names != [] { AddNamesGrows(nodes, names[..|names| - 1]); }
  }

  /** For whitelisted names the tables hold the old entries and the new ones, and they are
      in shape exactly when ROS made the event subscription of every new node. */
  lemma {:induction false} SubscribeGood(t: Tables, held: set<Entry>, names: seq<string>, whitelisted: string -> bool,
                                         made: set<string>)
    requires Good(t, held) && (forall p | p in names :: whitelisted(p))
    ensures var t' := Subscribe(t, names, whitelisted, made);
            && Represents(t', held + Entries(Elements(names)))
            && (Valid(t') <==> NewNodes(t, names) <= made)
  {
    assert Accepted(names, whitelisted) == names;
    SubscribeRepresents(t, held, names, whitelisted, made);
    AddNamesKeys(t.nodes, names);
  }

  lemma {:induction false} SubscribeRepresents(t: Tables, held: set<Entry>, names: seq<string>, whitelisted: string -> bool,
                                               made: set<string>)
    requires Shape(t) && Represents(t, held)
    ensures var t' := Subscribe(t, names, whitelisted, made);
            Shape(t') && Represents(t', held + Entries(Elements(Accepted(names, whitelisted))))
  {
    var ok := Accepted(names, whitelisted);
    AddNamesRepresents(t, held, ok);
    AddNamesGrows(t.nodes, ok);
    var t' := Subscribe(t, names, whitelisted, made);
    forall n, p ensures Has(t', n, p) <==> (n, p) in held + Entries(Elements(ok)) {
      assert Has(t', n, p) == Has(t.(nodes := AddNames(t.nodes, ok)), n, p);
    }
  }

  /** What a call with arbitrary names does to the event subscriptions: they match the
      listed nodes afterwards exactly when the names before the first rejected one
      brought no new node, or nothing was rejected and ROS made every subscription. */
  lemma {:induction false} SubscribeKeepsEvents(t: Tables, names: seq<string>, whitelisted: string -> bool, made: set<string>)
    requires t.events == t.nodes.Keys
    ensures var t' := Subscribe(t, names, whitelisted, made);
            t'.events == t'.nodes.Keys <==>
              || NewNodes(t, Accepted(names, whitelisted)) == {}
              || ((forall p | p in names :: whitelisted(p)) && NewNodes(t, names) <= made)
  {
    var ok := Accepted(names, whitelisted);
    AddNamesGrows(t.nodes, ok);
    AddNamesKeys(t.nodes, ok);
    var new', t' := NewNodes(t, ok), Subscribe(t, names, whitelisted, made);
    assert t'.nodes.Keys == t.nodes.Keys + new';
    if forall p | p in names :: whitelisted(p) {
      assert ok == names && t'.events == t.nodes.Keys + new' * made;
      if t'.events == t'.nodes.Keys {
        forall n | n in new' ensures n in made { assert n in t'.events; }
      }
    } else {
      assert ok != names && t'.events == t.nodes.Keys;
    }
  }

  lemma {:induction false} AddNamesKeys(nodes: map<string, set<string>>, names: seq<string>)
    ensures AddNames(nodes, names).Keys == nodes.Keys + set p | p in names :: Split(p).0
    decreases |names|
  {
    if names != [] {
      var last := |names| - 1;
      AddNamesKeys(nodes, names[..last]);
      assert names == names[..last] + [names[last]];
    }
  }

  // ------------------------------------------------- undefined behaviour, exactly

  /** What every history leaves: no empty node, and events for listed nodes only. */
  predicate Shape(t: Tables) { NoEmptyNode(t) && t.events <= t.nodes.Keys }

  /** The entries of the tables. */
  function HeldBy(t: Tables): set<Entry> { set n, p | n in t.nodes && p in t.nodes[n] :: (n, p) }

  /** Erasing `e` from these entries is defined: its node is not listed at all, or `e` is
      listed and, when it is the last of its node, the node has an event subscription. */
  predicate Erasable(events: set<string>, held: set<Entry>, e: Entry) {
    || (forall x | x in held :: x.0 != e.0)
    || (e in held && (e.0 in events || exists x | x in held :: x.0 == e.0 && x != e))
  }

  lemma {:induction false} UnsubscribeOneIff(t: Tables, held: set<Entry>, name: string)
    requires Shape(t) && Represents(t, held)
    ensures UnsubscribeOne(t, name).Some? <==> Erasable(t.events, held, Split(name))
  {
    var (n, p) := Split(name);
    if n in t.nodes {
      var q :| q in t.nodes[n];
      assert Has(t, n, q) && (n, q) in held;
      if p in t.nodes[n] && t.nodes[n] != {p} {
        var r :| r in t.nodes[n] && r != p;
        assert Has(t, n, p) && Has(t, n, r) && (n, r) in held && (n, r) != (n, p);
      }
      if x :| x in held && x.0 == n && x != (n, p) { assert Has(t, n, x.1); }
      assert Has(t, n, p) <==> (n, p) in held;
    } else {
      forall x | x in held ensures x.0 != n { assert Has(t, x.0, x.1); }
    }
  }

  lemma {:induction false} UnsubscribeOneShape(t: Tables, held: set<Entry>, name: string)
    requires Shape(t) && Represents(t, held) && UnsubscribeOne(t, name).Some?
    ensures var t' := UnsubscribeOne(t, name).value;
            && Shape(t') && Represents(t', held - {Split(name)})
            && forall n | n in t'.nodes :: n in t'.events <==> n in t.events
  {
    var t' := UnsubscribeOne(t, name).value;
    forall n, p ensures Has(t', n, p) <==> (n, p) in held - {Split(name)} { assert Has(t, n, p) <==> (n, p) in held; }
  }

  /** The call erases its names in the order in which the hash set yields them. */
  predicate ErasableInOrder(events: set<string>, held: set<Entry>, names: seq<string>) {
    forall i | 0 <= i < |names| :: ErasableAt(events, held, names, i)
  }

  predicate ErasableAt(events: set<string>, held: set<Entry>, names: seq<string>, i: nat)
    requires i < |names|
  {
    Erasable(events, held - Entries(Elements(names[..i])), Split(names[i]))
  }

  lemma {:induction false} ErasableOneMore(events: set<string>, held: set<Entry>, names: seq<string>)
    requires names != []
    ensures ErasableInOrder(events, held, names) <==>
            ErasableInOrder(events, held, names[..|names| - 1]) && ErasableAt(events, held, names, |names| - 1)
  {
    var pre := names[..|names| - 1];
    forall i | 0 <= i < |pre| ensures ErasableAt(events, held, pre, i) == ErasableAt(events, held, names, i) {
      assert pre[..i] == names[..i];
    }
    if ErasableInOrder(events, held, names) {
      forall i | 0 <= i < |pre| ensures ErasableAt(events, held, pre, i) {
        assert ErasableAt(events, held, names, i);
      }
    }
  }

  /** For the tables any history leaves, a call is defined exactly when every name, at its
      turn, can be erased; then exactly its entries are gone. */
  lemma {:induction false} UnsubscribeIff(t: Tables, held: set<Entry>, names: seq<string>)
    requires Shape(t) && Represents(t, held)
    ensures Unsubscribe(t, names).Some? <==> ErasableInOrder(t.events, held, names)
    ensures Unsubscribe(t, names).Some? ==>
              var t' := Unsubscribe(t, names).value;
              && Shape(t') && Represents(t', held - Entries(Elements(names)))
              && forall n | n in t'.nodes :: n in t'.events <==> n in t.events
    decreases |names|
  {
    if names == [] {
      assert held - Entries(Elements(names)) == held;
    } else {
      var last := |names| - 1;
      UnsubscribeIff(t, held, names[..last]);
      ErasableOneMore(t.events, held, names);
      if Unsubscribe(t, names[..last]).Some? { UnsubscribeLast(t, held, names, Unsubscribe(t, names[..last]).value); }
    }
  }

  lemma {:induction false} UnsubscribeLast(t: Tables, held: set<Entry>, names: seq<string>, r: Tables)
    requires names != [] && Shape(r) && Represents(r, held - Entries(Elements(names[..|names| - 1])))
    requires forall n | n in r.nodes :: n in r.events <==> n in t.events
    ensures var after := UnsubscribeOne(r, names[|names| - 1]);
            && (after.Some? <==> ErasableAt(t.events, held, names, |names| - 1))
            && (after.Some? ==>
                  && Shape(after.value) && Represents(after.value, held - Entries(Elements(names)))
                  && forall n | n in after.value.nodes :: n in after.value.events <==> n in t.events)
  {
    var last := |names| - 1;
    var before, e := held - Entries(Elements(names[..last])), Split(names[last]);
    UnsubscribeOneIff(r, before, names[last]);
    if e in before { assert Has(r, e.0, e.1); }
    if UnsubscribeOne(r, names[last]).Some? {
      UnsubscribeOneShape(r, before, names[last]);
      EntriesOneMore(names);
      assert before - {e} == held - Entries(Elements(names));
    }
  }

  /** Held, or of a node that is not listed at all. */
  predicate Safe(held: set<Entry>, e: Entry) { e in held || forall x | x in held :: x.0 != e.0 }

  lemma {:induction false} SafeInOrder(t: Tables, held: set<Entry>, names: seq<string>)
    requires Good(t, held) && Separate(names) && forall i | 0 <= i < |names| :: Safe(held, Split(names[i]))
    ensures Unsubscribe(t, names).Some?
  {
    forall i | 0 <= i < |names| ensures ErasableAt(t.events, held, names, i) {
      var e, gone := Split(names[i]), Entries(Elements(names[..i]));
      assert Safe(held, e);
      if e in held {
        forall name | name in Elements(names[..i]) ensures Split(name) != e {
          var j :| 0 <= j < i && names[..i][j] == name;
          assert Split(names[j]) != Split(names[i]);
        }
        assert e in held - gone && Has(t, e.0, e.1);
      }
    }
    UnsubscribeIff(t, held, names);
  }

  /** The same names in another order. */
  ghost predicate Reorders(order: seq<string>, names: seq<string>) {
    |order| == |names| && Separate(order) && Elements(order) == Elements(names)
  }

  /** For tables in shape and names that do not collide: the call is defined in every order
      of its names exactly when each is held or its node is not listed. */
  lemma {:induction false} EveryOrderIff(t: Tables, held: set<Entry>, names: seq<string>)
    requires Good(t, held) && Separate(names)
    ensures (forall order | Reorders(order, names) :: Unsubscribe(t, order).Some?) <==>
            forall i | 0 <= i < |names| :: Safe(held, Split(names[i]))
  {
    if forall i | 0 <= i < |names| :: Safe(held, Split(names[i])) {
      forall order | Reorders(order, names) ensures Unsubscribe(t, order).Some? {
        forall i | 0 <= i < |order| ensures Safe(held, Split(order[i])) {
          assert order[i] in Elements(order);
          var j :| 0 <= j < |names| && names[j] == order[i];
        }
        SafeInOrder(t, held, order);
      }
    } else {
      var i :| 0 <= i < |names| && !Safe(held, Split(names[i]));
      var order := [names[i]] + names[..i] + names[i + 1..];
      UnsafeFirst(names, i, order);
      UnsubscribeIff(t, held, order);
      assert held - Entries(Elements(order[..0])) == held;
      assert !ErasableAt(t.events, held, order, 0);
    }
  }

  lemma {:induction false} UnsafeFirst(names: seq<string>, i: nat, order: seq<string>)
    requires Separate(names) && i < |names| && order == [names[i]] + names[..i] + names[i + 1..]
    ensures Reorders(order, names)
  {
    forall k | 0 <= k < |order| ensures order[k] == names[if k == 0 then i else if k <= i then k - 1 else k] {
    }
    forall name ensures name in order <==> name in names {
      if name in names {
        var j :| 0 <= j < |names| && names[j] == name;
        assert order[if j == i then 0 else if j < i then j + 1 else j] == name;
      }
    }
  }

  lemma {:induction false} UnsubscribeOneGood(t: Tables, held: set<Entry>, name: string)
    requires Good(t, held) && Split(name) in held
    ensures UnsubscribeOne(t, name).Some? && Good(UnsubscribeOne(t, name).value, held - {Split(name)})
  {
    assert Has(t, Split(name).0, Split(name).1);
    var t' := UnsubscribeOne(t, name).value;
    forall n, p ensures Has(t', n, p) <==> (n, p) in held - {Split(name)} { assert Has(t, n, p) <==> (n, p) in held; }
  }

  /** The names of one call come from a hash set, and none collides with another. */
  predicate Separate(names: seq<string>) {
    forall i, j | 0 <= i < j < |names| :: Split(names[i]) != Split(names[j])
  }

  lemma {:induction false} UnsubscribeGood(t: Tables, held: set<Entry>, names: seq<string>)
    requires Good(t, held) && Separate(names) && Entries(Elements(names)) <= held
    ensures Unsubscribe(t, names).Some? && Good(Unsubscribe(t, names).value, held - Entries(Elements(names)))
    decreases |names|
  {
    if names == [] {
      assert held - Entries(Elements(names)) == held;
    } else {
      var last := |names| - 1;
      EntriesOneMore(names);
      UnsubscribeGood(t, held, names[..last]);
      var before := held - Entries(Elements(names[..last]));
      assert Split(names[last]) in before;
      UnsubscribeOneGood(Unsubscribe(t, names[..last]).value, before, names[last]);
      assert before - {Split(names[last])} == held - Entries(Elements(names));
    }
  }
}

module ParameterObjects {
  import opened Wrappers
  import opened Sequences
  import opened ParameterNames
  import opened ParameterTables

  class ParameterInterface {
    var nodes: map<string, set<string>>  // _subscribed_params_by_node
    var events: set<string>              // keys of _param_subscriptions_by_node

    constructor ()
      ensures nodes == map[] && events == {}
    {
      nodes, events := map[], {};
    }

    ghost function State(): Tables
      reads this
    {
      Tables(nodes, events)
    }

    /** The first loop: it lists the names up to the first rejected one. */
    method ListNames(names: seq<string>, whitelisted: string -> bool) returns (created: set<string>, rejected: bool)
      modifies `nodes
      ensures nodes == AddNames(old(nodes), Accepted(names, whitelisted))
      ensures created == nodes.Keys - old(nodes).Keys
      ensures rejected <==> Accepted(names, whitelisted) != names
    {
      created := {};
      for i := 0 to |names|
        invariant forall p | p in names[..i] :: whitelisted(p)
        invariant nodes == AddNames(old(nodes), names[..i])
        invariant created == nodes.Keys - old(nodes).Keys && old(nodes).Keys <= nodes.Keys
      {
        if !whitelisted(names[i]) {
          AcceptedPrefix(names, whitelisted, i);
          return created, true;
        }
        var (n, p) := Split(names[i]);
        assert names[..i + 1][..i] == names[..i];
        if n !in nodes {
          nodes := nodes[n := {}];
          created := created + {n};
        }
        nodes := nodes[n := nodes[n] + {p}];
        assert nodes == AddNames(old(nodes), names[..i + 1]);
      }
      assert names[..|names|] == names;
      AcceptedPrefix(names, whitelisted, |names|);
      return created, false;
    }

    /** `threw` when ROS fails to make an event subscription. */
    method SubscribeParams(names: seq<string>, whitelisted: string -> bool, made: set<string>) returns (threw: bool)
      modifies this
      ensures State() == Subscribe(old(State()), names, whitelisted, made)
      ensures threw <==> (forall p | p in names :: whitelisted(p)) && !(NewNodes(old(State()), names) <= made)
    {
      var created, rejected := ListNames(names, whitelisted);
      if rejected {
        ghost var ok := Accepted(names, whitelisted);
        assert names[|ok|] in names && !whitelisted(names[|ok|]);
        return false;
      }
      AddNamesKeys(old(nodes), names);
      threw := SubscribeEvents(created, made);
    }

    /** The loop over the new nodes: `made` are those it reaches before ROS throws. */
    method SubscribeEvents(created: set<string>, made: set<string>) returns (threw: bool)
      modifies `events
      ensures events == old(events) + created * made && (threw <==> !(created <= made))
    {
      var todo := created;
      while todo * made != {}
        invariant todo <= created && events == old(events) + (created - todo) && created - todo <= made
      {
        var n :| n in todo * made;
        events := events + {n};
        todo := todo - {n};
      }
      forall n | n in todo ensures n !in made {
        assert n in made ==> n in todo * made;
      }
      assert created * made == created - todo;
      return todo != {};
    }

    /** `ok` is false when the code runs into undefined behaviour. */
    method UnsubscribeParams(names: seq<string>) returns (ok: bool)
      modifies this
      ensures ok ==> Unsubscribe(old(State()), names) == Some(State())
      ensures !ok ==> Unsubscribe(old(State()), names).None?
    {
      for i := 0 to |names|
        invariant Unsubscribe(old(State()), names[..i]) == Some(State())
      {
        var (n, p) := Split(names[i]);
        assert names[..i + 1][..i] == names[..i];
        if n in nodes {
          if p !in nodes[n] || (nodes[n] == {p} && n !in events) {
            StaysUndefined(old(State()), names, i + 1);
            return false;
          }
          ghost var before := nodes;
          nodes := nodes[n := nodes[n] - {p}];
          if nodes[n] == {} {
            assert before[n] == {p};
            nodes := nodes - {n};
            assert nodes == before - {n};
            events := events - {n};
          }
        }
        assert UnsubscribeOne(Unsubscribe(old(State()), names[..i]).value, names[i]) == Some(State());
      }
      assert names[..|names|] == names;
      return true;
    }
  }

  lemma {:induction false} AcceptedPrefix(names: seq<string>, whitelisted: string -> bool, i: nat)
    requires i <= |names| && (forall p | p in names[..i] :: whitelisted(p))
    requires i < |names| ==> !whitelisted(names[i])
    ensures Accepted(names, whitelisted) == names[..i]
  {
    if i > 0 {
      assert names[0] in names[..i];
      assert names[1..][..i - 1] == names[..i][1..];
      AcceptedPrefix(names[1..], whitelisted, i - 1);
    }
  }

  lemma {:induction false} StaysUndefined(t: Tables, names: seq<string>, i: nat)
    requires i <= |names| && Unsubscribe(t, names[..i]).None?
    ensures Unsubscribe(t, names).None?
    decreases |names|
  {
    if i < |names| {
      assert names[..|names| - 1][..i] == names[..i];
      StaysUndefined(t, names[..|names| - 1], i);
    } else {
      assert names[..i] == names;
    }
  }
}
