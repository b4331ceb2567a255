/** The patched outgoing queue of a websocket connection: `write_push`, `write_pop` and the batching
  * loop of `write_frame`, with the clock as a parameter.
  *
  * What a pop or a batch does is stated by the fate of each entry it takes from the front of the queue:
  * sent or dropped. */
module WriteQueue {
  import opened Wrappers

  datatype Message = Message(payload: string, terminal: bool)

  datatype Entry = Entry(time: nat, msg: Message, reliable: bool)

  datatype Fate = Sent | Dropped

  // A batch stops once its payloads exceed this many bytes.
  const BATCH_LIMIT: nat := 1048576

  // An unreliable entry of at least this age in milliseconds is stale.
  const MAX_AGE: nat := 100

  // Byte counters and clock readings are 64 bits wide.
  function Wrap(x: int): nat {
    x % 0x1_0000_0000_0000_0000
  }

  // No std::string is this long.
  const MAX_PAYLOAD: nat := 0x8000_0000_0000_0000

  predicate Stale(e: Entry, now: nat) {
    !e.reliable && Wrap(now - e.time) >= MAX_AGE
  }

  /** An unreliable entry is stale after a hundred milliseconds, or when the clock has been set back
    * behind its time, by less than its range less a hundred milliseconds. */
  lemma {:induction false} StaleIff(e: Entry, now: nat)
    requires e.time < 0x1_0000_0000_0000_0000 && now < 0x1_0000_0000_0000_0000
    ensures Stale(e, now) <==>
            !e.reliable && if e.time <= now then now - e.time >= 100 else e.time - now <= 0x1_0000_0000_0000_0000 - 100
  {
    if e.time > now { WrapAround(now - e.time, 1); }
  }

  predicate Small(es: seq<Entry>) {
    forall i | 0 <= i < |es| :: |es[i].msg.payload| < MAX_PAYLOAD
  }

  function Size(es: seq<Entry>): nat {
    if es == [] then 0 else Size(es[..|es| - 1]) + |es[|es| - 1].msg.payload|
  }

  lemma {:induction false} SizeAppend(a: seq<Entry>, b: seq<Entry>)
    ensures Size(a + b) == Size(a) + Size(b)
  {
    if b == [] {
      assert a + b == a;
    } else {
      var n := |b| - 1;
      SizeAppend(a, b[..n]);
      assert (a + b)[..|a + b| - 1] == a + b[..n];
    }
  }

  function Messages(es: seq<Entry>): (ms: seq<Message>)
    ensures |ms| == |es| && forall i | 0 <= i < |es| :: ms[i] == es[i].msg
  {
    seq(|es|, i requires 0 <= i < |es| => es[i].msg)
  }

  // How many of the given fates are `Sent`, which is also how many clock readings were made for them.
  function Sends(fates: seq<Fate>): nat {
    if fates == [] then 0
    else Sends(fates[..|fates| - 1]) + if fates[|fates| - 1].Sent? then 1 else 0
  }

  // The entries of the given fate, in order.
  function Pick(es: seq<Entry>, fates: seq<Fate>, fate: Fate): (r: seq<Entry>)
    requires |es| == |fates|
    ensures |r| <= |es|
  {
    if es == [] then []
    else
      var n := |es| - 1;
      Pick(es[..n], fates[..n], fate) + if fates[n] == fate then [es[n]] else []
  }

  lemma {:induction false} PickMember(es: seq<Entry>, fates: seq<Fate>, fate: Fate, e: Entry)
    requires |es| == |fates|
    ensures e in Pick(es, fates, fate) <==> exists j :: 0 <= j < |es| && es[j] == e && fates[j] == fate
  {
    if es != [] {
      PickMember(es[..|es| - 1], fates[..|es| - 1], fate, e);
    }
  }

  // Entry `j` is dropped exactly when it is stale at the clock reading of its pop and an entry follows it.
  predicate Right(q: seq<Entry>, fates: seq<Fate>, clock: nat -> nat, j: nat)
    requires j < |fates| <= |q|
  {
    fates[j].Dropped? <==> Stale(q[j], clock(Sends(fates[..j]))) && j + 1 < |q|
  }

  // The three reasons for which a batch is over once its first `n` entries are taken.
  predicate Ends(q: seq<Entry>, fates: seq<Fate>, n: nat)
    requires 0 < n <= |fates| <= |q|
  {
    n == |q| || q[n - 1].msg.terminal || Size(Pick(q[..n], fates[..n], Sent)) > BATCH_LIMIT
  }

  // A batch that has taken the entries with these fates and did not stop before the last of them.
  predicate Running(q: seq<Entry>, fates: seq<Fate>, clock: nat -> nat) {
    && |fates| <= |q|
    && (forall j | 0 <= j < |fates| :: Right(q, fates, clock, j))
    && (forall n | 0 < n < |fates| && fates[n - 1].Sent? :: !Ends(q, fates, n))
    && (fates != [] ==> fates[|fates| - 1].Sent?)
  }

  /** What `write_frame` does to the queue `q`. */
  predicate Frame(q: seq<Entry>, fates: seq<Fate>, clock: nat -> nat) {
    Running(q, fates, clock) && (q != [] ==> fates != [] && Ends(q, fates, |fates|))
  }

  // --- The description determines the batch ---

  lemma {:induction false} FatesAgree(q: seq<Entry>, f: seq<Fate>, g: seq<Fate>, clock: nat -> nat, n: nat)
    requires n <= |f| <= |q| && n <= |g| <= |q|
    requires forall j | 0 <= j < |f| :: Right(q, f, clock, j)
    requires forall j | 0 <= j < |g| :: Right(q, g, clock, j)
    ensures f[..n] == g[..n]
  {
    if n > 0 {
      FatesAgree(q, f, g, clock, n - 1);
      assert Right(q, f, clock, n - 1) && Right(q, g, clock, n - 1);
      assert f[..n] == f[..n - 1] + [f[n - 1]] && g[..n] == g[..n - 1] + [g[n - 1]];
    }
  }

  lemma {:induction false} EndsAgree(q: seq<Entry>, f: seq<Fate>, g: seq<Fate>, n: nat)
    requires 0 < n <= |f| <= |q| && n <= |g| <= |q| && f[..n] == g[..n]
    ensures Ends(q, f, n) == Ends(q, g, n) && f[n - 1] == g[n - 1]
  {
    assert f[n - 1] == f[..n][n - 1] && g[n - 1] == g[..n][n - 1];
  }

  lemma {:induction false} NotLonger(q: seq<Entry>, f: seq<Fate>, g: seq<Fate>, clock: nat -> nat)
    requires Frame(q, f, clock) && Frame(q, g, clock)
    ensures |f| >= |g|
  {
    if |f| < |g| {
      FatesAgree(q, f, g, clock, |f|);
      EndsAgree(q, f, g, |f|);
    }
  }

  /** A queue and a clock allow one batch only. */
  lemma {:induction false} FrameUnique(q: seq<Entry>, f: seq<Fate>, g: seq<Fate>, clock: nat -> nat)
    requires Frame(q, f, clock) && Frame(q, g, clock)
    ensures f == g
  {
    NotLonger(q, f, g, clock);
    NotLonger(q, g, f, clock);
    FatesAgree(q, f, g, clock, |f|);
    assert f[..|f|] == f && g[..|g|] == g;
  }

  // --- What a batch looks like ---

  // The last entry sent before position `n`, if there is one.
  lemma {:induction false} LastSent(q: seq<Entry>, fates: seq<Fate>, n: nat) returns (m: nat)
    requires n <= |fates| <= |q| && Pick(q[..n], fates[..n], Sent) != []
    ensures 0 < m <= n && fates[m - 1].Sent?
    ensures Pick(q[..n], fates[..n], Sent) == Pick(q[..m], fates[..m], Sent)
  {
    m := n;
    if !fates[n - 1].Sent? {
      assert q[..n][..n - 1] == q[..n - 1] && fates[..n][..n - 1] == fates[..n - 1];
      m := LastSent(q, fates, n - 1);
    }
  }

  lemma {:induction false} EarlierFits(q: seq<Entry>, fates: seq<Fate>, clock: nat -> nat, n: nat)
    requires Running(q, fates, clock) && n < |fates|
    ensures Size(Pick(q[..n], fates[..n], Sent)) <= BATCH_LIMIT
  {
    if Pick(q[..n], fates[..n], Sent) != [] {
      var m := LastSent(q, fates, n);
      assert !Ends(q, fates, m);
    }
  }

  lemma {:induction false} BeforeLast(q: seq<Entry>, fates: seq<Fate>, clock: nat -> nat, n: nat)
    requires Running(q, fates, clock) && n < |fates|
    ensures var earlier := Pick(q[..n], fates[..n], Sent);
            Size(earlier) <= BATCH_LIMIT && forall e | e in earlier :: !e.msg.terminal
  {
    EarlierFits(q, fates, clock, n);
    var earlier := Pick(q[..n], fates[..n], Sent);
    forall e | e in earlier ensures !e.msg.terminal {
      PickMember(q[..n], fates[..n], Sent, e);
      var j :| 0 <= j < n && q[..n][j] == e && fates[..n][j] == Sent;
      assert fates[(j + 1) - 1].Sent? && !Ends(q, fates, j + 1);
    }
  }

  lemma {:induction false} OnlyStaleDropped(q: seq<Entry>, fates: seq<Fate>, clock: nat -> nat, e: Entry)
    requires Frame(q, fates, clock) && e in Pick(q[..|fates|], fates, Dropped)
    ensures !e.reliable && exists k :: 0 <= k < Sends(fates) && Stale(e, clock(k))
  {
    PickMember(q[..|fates|], fates, Dropped, e);
    var j :| 0 <= j < |fates| && q[..|fates|][j] == e && fates[j] == Dropped;
    assert Right(q, fates, clock, j);
    SendsGrow(fates, j);
  }

  // The clock reading for an entry before the last one sent is one of those the batch made.
  lemma {:induction false} SendsGrow(fates: seq<Fate>, j: nat)
    requires j < |fates| && fates[|fates| - 1].Sent?
    ensures Sends(fates[..j]) < Sends(fates)
  {
    SendsUpTo(fates, j, |fates| - 1);
  }

  lemma {:induction false} SendsUpTo(fates: seq<Fate>, j: nat, n: nat)
    requires j <= n <= |fates|
    ensures Sends(fates[..j]) <= Sends(fates[..n])
  {
    if j < n {
      SendsUpTo(fates, j, n - 1);
      assert fates[..n][..n - 1] == fates[..n - 1];
    }
  }

  /** A batch on a nonempty queue sends something; without its last message it holds at most
    * `BATCH_LIMIT` bytes and no terminal message; it drops only unreliable entries that are stale at one
    * of its clock readings; and it leaves entries queued only if it exceeds the limit or ends with a
    * terminal message. */
  lemma {:induction false} BatchShape(q: seq<Entry>, fates: seq<Fate>, clock: nat -> nat)
    requires Frame(q, fates, clock) && q != []
    ensures var batch := Pick(q[..|fates|], fates, Sent);
            && batch != []
            && Size(batch[..|batch| - 1]) <= BATCH_LIMIT
            && (forall e | e in batch[..|batch| - 1] :: !e.msg.terminal)
            && (|fates| < |q| ==> Size(batch) > BATCH_LIMIT || batch[|batch| - 1].msg.terminal)
    ensures forall e | e in Pick(q[..|fates|], fates, Dropped) ::
              !e.reliable && exists k :: 0 <= k < Sends(fates) && Stale(e, clock(k))
  {
    var n := |fates|;
    assert q[..n][..n - 1] == q[..n - 1] && fates[..n] == fates;
    var earlier := Pick(q[..n - 1], fates[..n - 1], Sent);
    assert Pick(q[..n], fates, Sent) == earlier + [q[n - 1]] && (earlier + [q[n - 1]])[..|earlier|] == earlier;
    BeforeLast(q, fates, clock, n - 1);
    forall e | e in Pick(q[..n], fates, Dropped)
      ensures !e.reliable && exists k :: 0 <= k < Sends(fates) && Stale(e, clock(k))
    {
      OnlyStaleDropped(q, fates, clock, e);
    }
  }

  // --- Runs ---

  datatype State = State(queue: seq<Entry>, bytes: nat, sent: seq<Message>)

  datatype Event =
    | Push(msg: Option<Message>, reliable: bool, now: nat)
    | Flush(clock: nat -> nat)

  function Entries(e: Event): seq<Entry> {
    if e.Push? && e.msg.Some? then [Entry(e.now, e.msg.value, e.reliable)] else []
  }

  function PushSize(e: Event): nat {
    if e.Push? && e.msg.Some? then |e.msg.value.payload| else 0
  }

  function AfterPush(s: State, e: Event): State {
    s.(queue := s.queue + Entries(e), bytes := Wrap(s.bytes + PushSize(e)))
  }

  // What is left once a batch has taken the entries with the given fates from the front of the queue.
  function Flushed(s: State, fates: seq<Fate>): State
    requires |fates| <= |s.queue|
  {
    var gone := s.queue[..|fates|];
    State(s.queue[|fates|..], Wrap(s.bytes - Size(gone)), s.sent + Messages(Pick(gone, fates, Sent)))
  }

  ghost predicate Step(s: State, e: Event, s': State) {
    match e
    case Push(_, _, _) =>
      s' == AfterPush(s, e)
    case Flush(clock) =>
      exists fates: seq<Fate> :: Frame(s.queue, fates, clock) && s' == Flushed(s, fates)
  }

  // The states of a run on a connection that starts with nothing queued.
  ghost predicate Trace(events: seq<Event>, states: seq<State>) {
    && |states| == |events| + 1 && states[0] == State([], 0, [])
    && forall i | 0 <= i < |events| :: Step(states[i], events[i], states[i + 1])
  }

  lemma {:induction false} TracePrefix(events: seq<Event>, states: seq<State>)
    requires Trace(events, states) && events != []
    ensures Trace(events[..|events| - 1], states[..|events|])
    ensures Step(states[|events| - 1], events[|events| - 1], states[|events|])
  {
  }

  function Pushed(events: seq<Event>): seq<Entry> {
    if events == [] then [] else Pushed(events[..|events| - 1]) + Entries(events[|events| - 1])
  }

  // `fates` accounts for every entry pushed so far: the entries with a fate are gone, the others are queued.
  predicate Accounts(pushed: seq<Entry>, s: State, fates: seq<Fate>) {
    && |fates| <= |pushed|
    && s.queue == pushed[|fates|..]
    && s.sent == Messages(Pick(pushed[..|fates|], fates, Sent))
  }

  // The entries in front of mark `i` are gone when event `i` happens: a push takes none, and a batch gives
  // the entries up to the next mark the fates that `Frame` says, at its own clock readings.
  ghost predicate ExplainedAt(events: seq<Event>, fates: seq<Fate>, marks: seq<nat>, i: nat)
    requires i < |events| && |marks| == |events| + 1
  {
    && marks[i] <= marks[i + 1] <= |fates| && marks[i] <= |Pushed(events[..i])|
    && match events[i]
       case Push(_, _, _) => marks[i + 1] == marks[i]
       case Flush(clock) => Frame(Pushed(events[..i])[marks[i]..], fates[marks[i]..marks[i + 1]], clock)
  }

  ghost predicate Explained(events: seq<Event>, fates: seq<Fate>, marks: seq<nat>) {
    && |marks| == |events| + 1 && marks[0] == 0 && marks[|events|] == |fates|
    && forall i | 0 <= i < |events| :: ExplainedAt(events, fates, marks, i)
  }

  lemma {:induction false} PickAppend(a: seq<Entry>, f: seq<Fate>, b: seq<Entry>, g: seq<Fate>, fate: Fate)
    requires |a| == |f| && |b| == |g|
    ensures Pick(a + b, f + g, fate) == Pick(a, f, fate) + Pick(b, g, fate)
  {
    if b == [] {
      assert a + b == a && f + g == f;
    } else {
      var n := |b| - 1;
      PickAppend(a, f, b[..n], g[..n], fate);
      assert (a + b)[..|a| + n] == a + b[..n] && (f + g)[..|a| + n] == f + g[..n];
    }
  }

  lemma {:induction false} MessagesAppend(a: seq<Entry>, b: seq<Entry>)
    ensures Messages(a + b) == Messages(a) + Messages(b)
  {
  }

  lemma {:induction false} TakeMore(es: seq<Entry>, n: nat, m: nat)
    requires n + m <= |es|
    ensures es[..n + m] == es[..n] + es[n..][..m] && es[n + m..] == es[n..][m..]
  {
  }

  lemma {:induction false} FlushAccounts(pushed: seq<Entry>, s: State, fates: seq<Fate>, more: seq<Fate>)
    requires Accounts(pushed, s, fates) && |more| <= |s.queue|
    ensures Accounts(pushed, Flushed(s, more), fates + more)
  {
    var gone, going := pushed[..|fates|], s.queue[..|more|];
    TakeMore(pushed, |fates|, |more|);
    PickAppend(gone, fates, going, more, Sent);
    MessagesAppend(Pick(gone, fates, Sent), Pick(going, more, Sent));
  }

  lemma {:induction false} PushAccounts(pushed: seq<Entry>, s: State, fates: seq<Fate>, e: Event, bytes: nat)
    requires Accounts(pushed, s, fates)
    ensures Accounts(pushed + Entries(e), s.(queue := s.queue + Entries(e), bytes := bytes), fates)
  {
    var added := Entries(e);
    assert (pushed + added)[..|fates|] == pushed[..|fates|];
    assert (pushed + added)[|fates|..] == pushed[|fates|..] + added;
  }

  // The fates that event `e` gives out while `queue` is queued.
  ghost predicate Takes(e: Event, queue: seq<Entry>, more: seq<Fate>) {
    match e
    case Push(_, _, _) => more == []
    case Flush(clock) => Frame(queue, more, clock)
  }

  lemma {:induction false} ExplainedMore(events: seq<Event>, fates: seq<Fate>, marks: seq<nat>, more: seq<Fate>)
    requires events != [] && Explained(events[..|events| - 1], fates, marks) && |fates| <= |Pushed(events[..|events| - 1])|
    requires Takes(events[|events| - 1], Pushed(events[..|events| - 1])[|fates|..], more)
    ensures Explained(events, fates + more, marks + [|fates| + |more|])
  {
    var n := |events| - 1;
    var after, marks' := fates + more, marks + [|fates| + |more|];
    forall i | 0 <= i < |events| ensures ExplainedAt(events, after, marks', i) {
      if i < n {
        StillExplained(events, fates, marks, after, marks', i);
      } else {
        NowExplained(events, fates, marks, more);
      }
    }
  }

  lemma {:induction false} NowExplained(events: seq<Event>, fates: seq<Fate>, marks: seq<nat>, more: seq<Fate>)
    requires events != [] && |marks| == |events| && marks[|events| - 1] == |fates| <= |Pushed(events[..|events| - 1])|
    requires Takes(events[|events| - 1], Pushed(events[..|events| - 1])[|fates|..], more)
    ensures ExplainedAt(events, fates + more, marks + [|fates| + |more|], |events| - 1)
  {
    var i, marks' := |events| - 1, marks + [|fates| + |more|];
    assert marks'[i] == |fates| && marks'[i + 1] == |fates| + |more|;
    assert (fates + more)[|fates|..|fates| + |more|] == more;
  }

  lemma {:induction false} StillExplained(events: seq<Event>, fates: seq<Fate>, marks: seq<nat>,
                                         after: seq<Fate>, marks': seq<nat>, i: nat)
    requires events != [] && Explained(events[..|events| - 1], fates, marks) && i < |events| - 1
    requires fates <= after && marks <= marks' && |marks'| == |events| + 1
    ensures ExplainedAt(events, after, marks', i)
  {
    assert ExplainedAt(events[..|events| - 1], fates, marks, i);
    assert events[..|events| - 1][..i] == events[..i] && marks'[i] == marks[i] && marks'[i + 1] == marks[i + 1];
    assert after[marks[i]..marks[i + 1]] == fates[marks[i]..marks[i + 1]];
  }

  /** Conservation over every run: the entries pushed so far are, in order, those with a fate followed by
    * those queued; the messages sent are exactly the entries with fate `Sent`, in push order; and each
    * entry got its fate from one batch of the run, by the rules of a batch at that batch's clock readings. */
  lemma {:induction false} RunAccounts(events: seq<Event>, states: seq<State>)
    returns (fates: seq<Fate>, marks: seq<nat>)
    requires Trace(events, states)
    ensures Accounts(Pushed(events), states[|events|], fates)
    ensures Explained(events, fates, marks)
  {
    fates, marks := [], [0];
    if events != [] {
      var n := |events| - 1;
      TracePrefix(events, states);
      fates, marks := RunAccounts(events[..n], states[..n + 1]);
      fates, marks := StepAccounts(events, states[n], fates, marks, states[n + 1]);
    }
  }

  lemma {:induction false} StepAccounts(events: seq<Event>, s: State, fates: seq<Fate>, marks: seq<nat>, s': State)
    returns (after: seq<Fate>, marks': seq<nat>)
    requires events != [] && Step(s, events[|events| - 1], s')
    requires Accounts(Pushed(events[..|events| - 1]), s, fates) && Explained(events[..|events| - 1], fates, marks)
    ensures Accounts(Pushed(events), s', after) && Explained(events, after, marks')
  {
    var e := events[|events| - 1];
    var more := StepTakes(s, e, s');
    EventAccounts(Pushed(events[..|events| - 1]), s, fates, e, more);
    ExplainedMore(events, fates, marks, more);
    after, marks' := fates + more, marks + [|fates| + |more|];
  }

  function After(s: State, e: Event, more: seq<Fate>): State
    requires |more| <= |s.queue|
  {
    if e.Push? then AfterPush(s, e) else Flushed(s, more)
  }

  lemma {:induction false} StepTakes(s: State, e: Event, s': State) returns (more: seq<Fate>)
    requires Step(s, e, s')
    ensures |more| <= |s.queue| && s' == After(s, e, more) && Takes(e, s.queue, more)
  {
    more := [];
    if e.Flush? { more :| Frame(s.queue, more, e.clock) && s' == Flushed(s, more); }
  }

  lemma {:induction false} EventAccounts(pushed: seq<Entry>, s: State, fates: seq<Fate>, e: Event, more: seq<Fate>)
    requires Accounts(pushed, s, fates) && |more| <= |s.queue| && (e.Push? ==> more == [])
    ensures Accounts(pushed + Entries(e), After(s, e, more), fates + more)
  {
    if e.Push? {
      PushAccounts(pushed, s, fates, e, Wrap(s.bytes + PushSize(e)));
      assert fates + more == fates;
    } else {
      FlushAccounts(pushed, s, fates, more);
      assert pushed + Entries(e) == pushed;
    }
  }

  // The event whose batch took entry `j`.
  lemma {:induction false} TakenBy(events: seq<Event>, fates: seq<Fate>, marks: seq<nat>, j: nat, n: nat) returns (i: nat)
    requires Explained(events, fates, marks) && n <= |events| && j < marks[n]
    ensures i < n && marks[i] <= j < marks[i + 1]
  {
    assert ExplainedAt(events, fates, marks, n - 1);
    i := n - 1;
    if j < marks[n - 1] {
      i := TakenBy(events, fates, marks, j, n - 1);
    }
  }

  /** Entry `j` was taken by a batch that came after its push, and it was dropped exactly when it was stale
    * at the clock reading of its pop in that batch and an entry was queued behind it. */
  lemma {:induction false} DropReason(events: seq<Event>, fates: seq<Fate>, marks: seq<nat>, j: nat) returns (i: nat)
    requires Explained(events, fates, marks) && j < |fates|
    ensures i < |events| && events[i].Flush? && marks[i] <= j < marks[i + 1] && j < |Pushed(events[..i])|
    ensures fates[j].Dropped? <==>
            && Stale(Pushed(events[..i])[j], events[i].clock(Sends(fates[marks[i]..j])))
            && j + 1 < |Pushed(events[..i])|
  {
    i := TakenBy(events, fates, marks, j, |events|);
    assert ExplainedAt(events, fates, marks, i);
    var q, f, k := Pushed(events[..i])[marks[i]..], fates[marks[i]..marks[i + 1]], j - marks[i];
    assert Right(q, f, events[i].clock, k);
    assert f[..k] == fates[marks[i]..j];
  }

  lemma {:induction false} PushedBefore(events: seq<Event>, i: nat)
    requires i <= |events|
    ensures Pushed(events[..i]) <= Pushed(events)
  {
    if i < |events| {
      PushedBefore(events[..|events| - 1], i);
      assert events[..|events| - 1][..i] == events[..i];
    } else {
      assert events[..i] == events;
    }
  }

  /** A reliable entry is never lost: once pushed it is queued or sent. */
  lemma {:induction false} ReliableArrives(events: seq<Event>, states: seq<State>, j: nat)
    requires Trace(events, states) && j < |Pushed(events)| && Pushed(events)[j].reliable
    ensures Pushed(events)[j] in states[|events|].queue || Pushed(events)[j].msg in states[|events|].sent
  {
    var fates, marks := RunAccounts(events, states);
    var pushed := Pushed(events);
    if j < |fates| {
      var i := DropReason(events, fates, marks, j);
      PushedBefore(events, i);
      assert pushed[..|fates|][j] == pushed[j];
      PickMember(pushed[..|fates|], fates, Sent, pushed[j]);
    } else {
      assert pushed[|fates|..][j - |fates|] == pushed[j];
    }
  }

  lemma {:induction false} FlushedBytes(s: State, fates: seq<Fate>)
    requires |fates| <= |s.queue| && s.bytes == Wrap(Size(s.queue))
    ensures Flushed(s, fates).bytes == Wrap(Size(s.queue[|fates|..]))
  {
    var gone, rest := s.queue[..|fates|], s.queue[|fates|..];
    assert gone + rest == s.queue;
    SizeAppend(gone, rest);
    Wrapped(Size(s.queue), Size(gone));
  }

  lemma {:induction false} PushedSize(q: seq<Entry>, e: Event)
    requires e.Push?
    ensures Size(q + Entries(e)) == Size(q) + PushSize(e)
  {
    if e.msg.Some? {
      SizeMore(q, Entries(e)[0]);
    } else {
      assert q + [] == q;
    }
  }

  lemma {:induction false} PushedBytes(s: State, e: Event)
    requires e.Push? && s.bytes == Wrap(Size(s.queue))
    ensures AfterPush(s, e).bytes == Wrap(Size(AfterPush(s, e).queue))
  {
    PushedSize(s.queue, e);
    Wrapped(Size(s.queue), PushSize(e));
  }

  lemma {:induction false} PushedSmall(s: State, e: Event)
    requires e.Push? && Small(s.queue) && PushSize(e) < MAX_PAYLOAD
    ensures Small(AfterPush(s, e).queue)
  {
  }

  lemma {:induction false} StepBytes(s: State, e: Event, s': State)
    requires Step(s, e, s') && s.bytes == Wrap(Size(s.queue))
    ensures s'.bytes == Wrap(Size(s'.queue))
  {
    match e
    case Push(_, _, _) =>
      PushedBytes(s, e);
    case Flush(clock) =>
      var more: seq<Fate> :| Frame(s.queue, more, clock) && s' == Flushed(s, more);
      FlushedBytes(s, more);
  }

  /** The byte counter is the 64-bit sum of the queued payload sizes in every reachable state. */
  lemma {:induction false} RunBytes(events: seq<Event>, states: seq<State>)
    requires Trace(events, states)
    ensures states[|events|].bytes == Wrap(Size(states[|events|].queue))
  {
    if events != [] {
      var n := |events| - 1;
      TracePrefix(events, states);
      RunBytes(events[..n], states[..n + 1]);
      StepBytes(states[n], events[n], states[n + 1]);
    }
  }

  lemma {:induction false} PickCounts(es: seq<Entry>, fates: seq<Fate>, fate: Fate)
    requires |es| == |fates| > 0
    ensures var n := |es| - 1;
            multiset(Pick(es, fates, fate)) ==
            multiset(Pick(es[..n], fates[..n], fate)) + if fates[n] == fate then multiset{es[n]} else multiset{}
  {
  }

  lemma {:induction false} CountLast(es: seq<Entry>)
    requires es != []
    ensures multiset(es) == multiset(es[..|es| - 1]) + multiset{es[|es| - 1]}
  {
    assert es == es[..|es| - 1] + [es[|es| - 1]];
  }

  /** Nothing is lost or duplicated by sorting entries by fate. */
  lemma {:induction false} PickPartitions(es: seq<Entry>, fates: seq<Fate>)
    requires |es| == |fates|
    ensures multiset(Pick(es, fates, Sent)) + multiset(Pick(es, fates, Dropped)) == multiset(es)
  {
    if es != [] {
      PickPartitions(es[..|es| - 1], fates[..|es| - 1]);
      PickCounts(es, fates, Sent);
      PickCounts(es, fates, Dropped);
      CountLast(es);
    }
  }

  // The entries of the given fate sit at the increasing positions `at`, and at all positions with that fate.
  ghost predicate Positions(es: seq<Entry>, fates: seq<Fate>, fate: Fate, at: seq<nat>)
    requires |es| == |fates|
  {
    var picked := Pick(es, fates, fate);
    && |at| == |picked|
    && (forall i | 0 <= i < |at| :: at[i] < |es| && fates[at[i]] == fate && picked[i] == es[at[i]])
    && (forall i, j | 0 <= i < j < |at| :: at[i] < at[j])
    && (forall j | 0 <= j < |es| && fates[j] == fate :: j in at)
  }

  lemma {:induction false} PositionsMore(es: seq<Entry>, fates: seq<Fate>, fate: Fate, at: seq<nat>)
    requires |es| == |fates| > 0 && Positions(es[..|es| - 1], fates[..|es| - 1], fate, at) && fates[|es| - 1] == fate
    ensures Positions(es, fates, fate, at + [|es| - 1])
  {
  }

  lemma {:induction false} PositionsSame(es: seq<Entry>, fates: seq<Fate>, fate: Fate, at: seq<nat>)
    requires |es| == |fates| > 0 && Positions(es[..|es| - 1], fates[..|es| - 1], fate, at) && fates[|es| - 1] != fate
    ensures Positions(es, fates, fate, at)
  {
  }

  /** Entries of one fate keep their order: they sit at increasing positions, and at all positions with
    * that fate. */
  lemma {:induction false} PickOrdered(es: seq<Entry>, fates: seq<Fate>, fate: Fate) returns (at: seq<nat>)
    requires |es| == |fates|
    ensures Positions(es, fates, fate, at)
  {
    at := [];
    if es != [] {
      var n := |es| - 1;
      at := PickOrdered(es[..n], fates[..n], fate);
      if fates[n] == fate {
        PositionsMore(es, fates, fate, at);
        at := at + [n];
      } else {
        PositionsSame(es, fates, fate, at);
      }
    }
  }

  // --- The queue as an object ---

  // The first `n` entries of `q` are taken by one pop: all but the last are dropped.
  predicate Taken(q: seq<Entry>, now: nat, n: nat) {
    && n <= |q| && (n == 0 <==> q == [])
    && (forall j | 0 <= j < n - 1 :: Stale(q[j], now))
    && (n > 0 ==> n == |q| || !Stale(q[n - 1], now))
  }

  // The last entry taken is not part of the batch yet.
  predicate Pending(q: seq<Entry>, fates: seq<Fate>, batch: seq<Entry>, m: Message) {
    && 0 < |fates| <= |q| && m == q[|fates| - 1].msg
    && batch == Pick(q[..|fates| - 1], fates[..|fates| - 1], Sent)
  }

  function Drops(n: nat): (fates: seq<Fate>)
    ensures |fates| == n && forall i | 0 <= i < n :: fates[i] == Dropped
  {
    seq(n, _ => Dropped)
  }

  lemma {:induction false} DropMore(q: seq<Entry>, fates: seq<Fate>, n: nat)
    requires |fates| + n <= |q|
    ensures Sends(fates + Drops(n)) == Sends(fates)
    ensures Pick(q[..|fates| + n], fates + Drops(n), Sent) == Pick(q[..|fates|], fates, Sent)
  {
    var f := fates + Drops(n);
    if n == 0 {
      assert f == fates;
    } else {
      DropMore(q, fates, n - 1);
      assert f[..|f| - 1] == fates + Drops(n - 1) && q[..|f|][..|f| - 1] == q[..|f| - 1];
    }
  }

  lemma {:induction false} TakenRight(q: seq<Entry>, fates: seq<Fate>, clock: nat -> nat, taken: nat, f: seq<Fate>, j: nat)
    requires Running(q, fates, clock)
    requires 0 < taken && Taken(q[|fates|..], clock(Sends(fates)), taken)
    requires f == fates + Drops(taken - 1) + [Sent] && j < |f|
    ensures Right(q, f, clock, j)
  {
    if j < |fates| {
      assert Right(q, fates, clock, j) && f[..j] == fates[..j];
    } else {
      var k := j - |fates|;
      DropMore(q, fates, k);
      assert f[..j] == fates + Drops(k) && q[j] == q[|fates|..][k];
    }
  }

  // A pop adds one sent message, so the batch could have ended only where it could before.
  lemma {:induction false} TakenEnds(q: seq<Entry>, fates: seq<Fate>, k: nat, f: seq<Fate>, n: nat)
    requires 0 < n < |f| <= |q| && f == fates + Drops(k) + [Sent] && f[n - 1].Sent?
    ensures n <= |fates| && fates[n - 1].Sent? && Ends(q, f, n) == Ends(q, fates, n)
  {
    assert f[..n] == fates[..n];
    EndsAgree(q, f, fates, n);
  }

  // One pop takes a running batch that has not ended one message further.
  lemma {:induction false} TakenRuns(q: seq<Entry>, fates: seq<Fate>, clock: nat -> nat, taken: nat, f: seq<Fate>)
    requires Running(q, fates, clock) && (fates != [] ==> !Ends(q, fates, |fates|))
    requires 0 < taken && Taken(q[|fates|..], clock(Sends(fates)), taken)
    requires f == fates + Drops(taken - 1) + [Sent]
    ensures Running(q, f, clock)
  {
    forall j | 0 <= j < |f| ensures Right(q, f, clock, j) {
      TakenRight(q, fates, clock, taken, f, j);
    }
    forall n | 0 < n < |f| && f[n - 1].Sent? ensures !Ends(q, f, n) {
      TakenEnds(q, fates, taken - 1, f, n);
    }
  }

  lemma {:induction false} TakenPicks(q: seq<Entry>, fates: seq<Fate>, k: nat, f: seq<Fate>)
    requires |f| <= |q| && f == fates + Drops(k) + [Sent]
    ensures Sends(f) == Sends(fates) + 1
    ensures Pick(q[..|f| - 1], f[..|f| - 1], Sent) == Pick(q[..|fates|], fates, Sent)
  {
    DropMore(q, fates, k);
    assert f[..|f| - 1] == fates + Drops(k);
  }

  lemma {:induction false} TakenNext(q: seq<Entry>, fates: seq<Fate>, clock: nat -> nat, taken: nat) returns (more: seq<Fate>)
    requires Running(q, fates, clock) && (fates != [] ==> !Ends(q, fates, |fates|))
    requires 0 < taken && Taken(q[|fates|..], clock(Sends(fates)), taken)
    ensures |more| == |fates| + taken && Sends(more) == Sends(fates) + 1
    ensures Running(q, more, clock) && q[|more|..] == q[|fates|..][taken..]
    ensures Pending(q, more, Pick(q[..|fates|], fates, Sent), q[|fates|..][taken - 1].msg)
  {
    more := fates + Drops(taken - 1) + [Sent];
    TakenRuns(q, fates, clock, taken, more);
    TakenPicks(q, fates, taken - 1, more);
  }

  lemma {:induction false} PickLast(q: seq<Entry>, fates: seq<Fate>)
    requires 0 < |fates| <= |q| && fates[|fates| - 1].Sent?
    ensures Pick(q[..|fates|], fates, Sent) == Pick(q[..|fates| - 1], fates[..|fates| - 1], Sent) + [q[|fates| - 1]]
  {
    assert q[..|fates|][..|fates| - 1] == q[..|fates| - 1];
  }

  lemma {:induction false} SendOne(earlier: seq<Entry>, e: Entry)
    requires Size(earlier) <= BATCH_LIMIT && |e.msg.payload| < MAX_PAYLOAD
    ensures Wrap(Size(earlier) + |e.msg.payload|) == Size(earlier + [e])
    ensures Messages(earlier + [e]) == Messages(earlier) + [e.msg]
  {
    SizeMore(earlier, e);
    Unwrapped(Size(earlier) + |e.msg.payload|);
  }

  // The message at the end of a running batch joins those before it.
  lemma {:induction false} SendLast(q: seq<Entry>, fates: seq<Fate>, clock: nat -> nat, m: Message, earlier: seq<Entry>)
    requires Running(q, fates, clock) && Pending(q, fates, earlier, m) && Small(q)
    ensures var batch := Pick(q[..|fates|], fates, Sent);
            && Wrap(Size(earlier) + |m.payload|) == Size(batch)
            && Messages(batch) == Messages(earlier) + [m]
            && (Ends(q, fates, |fates|) <==> |fates| == |q| || m.terminal || Size(batch) > BATCH_LIMIT)
  {
    EarlierFits(q, fates, clock, |fates| - 1);
    PickLast(q, fates);
    SendOne(earlier, q[|fates| - 1]);
    EndsAtLast(q, fates);
  }

  lemma {:induction false} EndsAtLast(q: seq<Entry>, fates: seq<Fate>)
    requires 0 < |fates| <= |q|
    ensures Ends(q, fates, |fates|) <==>
            |fates| == |q| || q[|fates| - 1].msg.terminal || Size(Pick(q[..|fates|], fates, Sent)) > BATCH_LIMIT
  {
    assert fates[..|fates|] == fates;
  }

  lemma {:induction false} SizeMore(es: seq<Entry>, e: Entry)
    ensures Size(es + [e]) == Size(es) + |e.msg.payload|
  {
    assert (es + [e])[..|es|] == es;
  }

  lemma {:induction false} SizeFront(es: seq<Entry>)
    requires es != []
    ensures Size(es) == |es[0].msg.payload| + Size(es[1..])
  {
    SizeAppend(es[..1], es[1..]);
    assert es[..1] + es[1..] == es && es[..1][..0] == [];
  }

  lemma {:induction false} PopBytes(q: seq<Entry>)
    requires q != [] && Small(q)
    ensures Small(q[1..]) && Wrap(Wrap(Size(q)) - |q[0].msg.payload|) == Wrap(Size(q[1..]))
  {
    SizeFront(q);
    Wrapped(Size(q), |q[0].msg.payload|);
  }

  lemma {:induction false} WrapAround(x: int, q: int)
    ensures Wrap(x + 0x1_0000_0000_0000_0000 * q) == Wrap(x)
  {
  }

  lemma {:induction false} Wrapped(a: nat, b: nat)
    ensures Wrap(Wrap(a) + b) == Wrap(a + b)
    ensures b <= a ==> Wrap(Wrap(a) - b) == Wrap(a - b)
  {
    var q := a / 0x1_0000_0000_0000_0000;
    WrapAround(Wrap(a) + b, q);
    WrapAround(Wrap(a) - b, q);
  }

  lemma {:induction false} PushNothing(s: State, e: Event)
    requires e.Push? && e.msg.None? && s.bytes == Wrap(Size(s.queue))
    ensures AfterPush(s, e) == s
  {
    Wrapped(Size(s.queue), 0);
    assert s.queue + [] == s.queue;
  }

  lemma {:induction false} Unwrapped(a: nat)
    requires a < 2 * MAX_PAYLOAD
    ensures Wrap(a) == a
  {
  }

  lemma {:induction false} Assoc(a: seq<Message>, b: seq<Message>, c: seq<Message>)
    ensures a + b + c == a + (b + c)
  {
  }

  predicate StaleUpTo(q: seq<Entry>, now: nat, n: nat) {
    n <= |q| && forall j | 0 <= j < n :: Stale(q[j], now)
  }

  // The front of the rest of the queue: the loop goes on exactly when it is stale.
  lemma {:induction false} FrontStale(q: seq<Entry>, now: nat, n: nat)
    requires StaleUpTo(q, now, n) && n < |q|
    ensures q[n..][0] == q[n] && q[n..][1..] == q[n + 1..]
    ensures if Stale(q[n], now) then StaleUpTo(q, now, n + 1) else Taken(q, now, n + 1)
    ensures n + 1 == |q| ==> Taken(q, now, n + 1)
  {
  }

  class Connection {
    var queue: seq<Entry>
    var bytes: nat
    var current: seq<Message>

    // The byte counter is the 64-bit sum of the queued payload sizes.
    ghost predicate Valid()
      reads `queue, `bytes
    {
      && bytes == Wrap(Size(queue))
      && Small(queue)
    }

    ghost function Snapshot(): State
      reads this
    {
      State(queue, bytes, current)
    }

    constructor ()
      ensures Valid() && Snapshot() == State([], 0, [])
    {
      queue, bytes, current := [], 0, [];
    }

    // write_push
    method Push(msg: Option<Message>, reliable: bool, now: nat)
      requires Valid() && (msg.Some? ==> |msg.value.payload| < MAX_PAYLOAD)
      modifies this
      ensures Valid() && Snapshot() == AfterPush(old(Snapshot()), Event.Push(msg, reliable, now))
    {
      ghost var s, e := Snapshot(), Event.Push(msg, reliable, now);
      if msg.None? {
        PushNothing(s, e);
        return;
      }
      PushedBytes(s, e);
      PushedSmall(s, e);
      bytes := Wrap(bytes + |msg.value.payload|);
      queue := queue + [Entry(now, msg.value, reliable)];
      assert queue == AfterPush(s, e).queue;
    }

    // write_pop
    method Pop(now: nat) returns (msg: Option<Message>, ghost taken: nat)
      requires Valid()
      modifies `queue, `bytes
      ensures Valid()
      ensures Taken(old(queue), now, taken) && queue == old(queue)[taken..]
      ensures msg == if taken == 0 then None else Some(old(queue)[taken - 1].msg)
    {
      msg, taken := None, 0;
      while queue != []
        invariant StaleUpTo(old(queue), now, taken) && queue == old(queue)[taken..]
        invariant msg == if taken == 0 then None else Some(old(queue)[taken - 1].msg)
        invariant Valid()
        decreases |queue|
      {
        var front := queue[0];
        msg := Some(front.msg);
        PopBytes(queue);
        FrontStale(old(queue), now, taken);
        bytes := Wrap(bytes - |front.msg.payload|);
        queue := queue[1..];
        taken := taken + 1;
        if Wrap(now - front.time) < MAX_AGE || front.reliable {
          return;
        }
      }
    }

    // A pop on behalf of a batch that has taken `fates` from the queue `q` and has not ended.
    method PopNext(now: nat, ghost q: seq<Entry>, ghost fates: seq<Fate>, ghost clock: nat -> nat)
      returns (next: Option<Message>, ghost more: seq<Fate>)
      requires Valid() && Running(q, fates, clock) && queue == q[|fates|..] && now == clock(Sends(fates))
      requires fates == [] || queue == [] || !Ends(q, fates, |fates|)
      modifies `queue, `bytes
      ensures Valid()
      ensures Running(q, more, clock) && queue == q[|more|..]
      ensures next.None? ==> fates == more && |fates| == |q|
      ensures next.Some? ==> Pending(q, more, Pick(q[..|fates|], fates, Sent), next.value)
      ensures next.Some? ==> |more| > |fates| && Sends(more) == Sends(fates) + 1
    {
      ghost var taken;
      next, taken := Pop(now);
      more := fates;
      if next.Some? { more := TakenNext(q, fates, clock, taken); }
    }

    // The tail of the batching loop's body: the next message unless `m`, the one just sent, is terminal.
    method NextAfter(m: Message, clock: nat -> nat, pops: nat, ghost q: seq<Entry>, ghost fates: seq<Fate>)
      returns (next: Option<Message>, ghost more: seq<Fate>)
      requires Valid() && Running(q, fates, clock) && queue == q[|fates|..] && pops == Sends(fates)
      requires fates != [] && (Ends(q, fates, |fates|) <==> |fates| == |q| || m.terminal)
      modifies `queue, `bytes
      ensures Valid()
      ensures Running(q, more, clock) && queue == q[|more|..]
      ensures next.None? ==> fates == more && Frame(q, fates, clock)
      ensures next.Some? ==> Pending(q, more, Pick(q[..|fates|], fates, Sent), next.value)
      ensures next.Some? ==> |more| > |fates| && Sends(more) == pops + 1
    {
      next, more := None, fates;
      if !m.terminal {
        next, more := PopNext(clock(pops), q, fates, clock);
      }
    }

    // The first half of a turn of the batching loop: `m` joins the batch.
    method Send(m: Message, total: nat, ghost q: seq<Entry>, ghost fates: seq<Fate>, ghost clock: nat -> nat,
                ghost batch: seq<Entry>)
      returns (total': nat)
      requires Running(q, fates, clock) && Pending(q, fates, batch, m) && Small(q) && total == Size(batch)
      modifies `current
      ensures current == old(current) + [m]
      ensures total' == Size(Pick(q[..|fates|], fates, Sent))
      ensures Messages(Pick(q[..|fates|], fates, Sent)) == Messages(batch) + [m]
      ensures Ends(q, fates, |fates|) <==> |fates| == |q| || m.terminal || total' > BATCH_LIMIT
    {
      SendLast(q, fates, clock, m, batch);
      current := current + [m];
      total' := Wrap(total + |m.payload|);
    }

    // The batching loop of write_frame.
    method Batch(clock: nat -> nat) returns (ghost fates: seq<Fate>)
      requires Valid()
      modifies this
      ensures Valid() && Frame(old(queue), fates, clock)
      ensures queue == old(queue)[|fates|..]
      ensures current == old(current) + Messages(Pick(old(queue)[..|fates|], fates, Sent))
    {
      ghost var q := queue;
      ghost var batch: seq<Entry> := [];
      var total, pops := 0, 1;
      var next: Option<Message>;
      next, fates := PopNext(clock(0), q, [], clock);
      while next.Some?
        invariant Valid() && Running(q, fates, clock) && queue == q[|fates|..]
        invariant next.Some? ==> Pending(q, fates, batch, next.value) && pops == Sends(fates)
        invariant current == old(current) + Messages(batch) && total == Size(batch)
        invariant next.None? ==> Frame(q, fates, clock) && batch == Pick(q[..|fates|], fates, Sent)
        decreases |queue|, next.Some?
      {
        Assoc(old(current), Messages(batch), [next.value]);
        total := Send(next.value, total, q, fates, clock, batch);
        batch := Pick(q[..|fates|], fates, Sent);
        if total > BATCH_LIMIT {
          break;
        }
        next, fates := NextAfter(next.value, clock, pops, q, fates);
        pops := pops + 1;
      }
    }

    method WriteFrame(clock: nat -> nat)
      requires Valid()
      modifies this
      ensures Valid() && Step(old(Snapshot()), Flush(clock), Snapshot())
    {
      ghost var s := Snapshot();
      ghost var fates := Batch(clock);
      FlushedBytes(s, fates);
      assert Snapshot() == Flushed(s, fates);
    }
  }
}
