/** The queue on which message handlers run: any number of producers and worker threads, stepping through
  * the regions between which another thread can run. */
module CallbackQueue {
  import opened Wrappers

  type Callback = nat

  /** Where a worker is: about to test the quit flag, waiting for work, past the second test of the flag and
    * holding the lock, running a callback, or gone. */
  datatype Worker = Looping | Waiting | Holding | Running(cb: Callback) | Gone

  /** `holder` is the worker that holds the lock between two steps. `entering` holds callbacks whose producer
    * saw the quit flag clear but has not taken the lock yet. `accepted`, `started` and `finished` record
    * history. */
  datatype State = State(queue: seq<Callback>, quit: bool, workers: seq<Worker>, holder: Option<nat>,
                         entering: multiset<Callback>,
                         accepted: seq<Callback>, started: seq<Callback>, finished: seq<Callback>)

  datatype Step =
    | Enter(cb: Callback)
    | Push(cb: Callback)
    | Check(w: nat)
    | Test(w: nat)
    | Remove(w: nat)
    | Finish(w: nat)
    | Quit

  function Start(n: nat): State {
    State([], false, seq(n, _ => Looping), None, multiset{}, [], [], [])
  }

  predicate Enabled(s: State, step: Step) {
    match step
    case Enter(_) => true
    case Push(cb) => cb in s.entering && s.holder.None?
    case Check(w) => w < |s.workers| && s.workers[w].Looping?
    case Test(w) => w < |s.workers| && s.workers[w].Waiting? && s.holder.None? && (s.quit || s.queue != [])
    case Remove(w) => w < |s.workers| && s.workers[w].Holding?
    case Finish(w) => w < |s.workers| && s.workers[w].Running?
    case Quit => true
  }

  function Do(s: State, step: Step): State
    requires Enabled(s, step)
  {
    match step
    case Enter(cb) => if s.quit then s else s.(entering := s.entering + multiset{cb})
    case Push(cb) =>
      s.(entering := s.entering - multiset{cb}, queue := s.queue + [cb], accepted := s.accepted + [cb])
    case Check(w) => s.(workers := s.workers[w := if s.quit then Gone else Waiting])
    case Test(w) =>
      if s.quit then s.(workers := s.workers[w := Gone])
      else s.(workers := s.workers[w := Holding], holder := Some(w))
    case Remove(w) =>
      if s.queue == [] then s.(workers := s.workers[w := Looping], holder := None)
      else s.(workers := s.workers[w := Running(s.queue[0])], holder := None, queue := s.queue[1..],
              started := s.started + [s.queue[0]])
    case Finish(w) =>
      s.(workers := s.workers[w := Looping], finished := s.finished + [s.workers[w].cb])
    case Quit => s.(quit := true)
  }

  ghost predicate Trace(n: nat, steps: seq<Step>, states: seq<State>) {
    && |states| == |steps| + 1 && states[0] == Start(n)
    && forall i | 0 <= i < |steps| :: Enabled(states[i], steps[i]) && states[i + 1] == Do(states[i], steps[i])
  }

  function RunningIn(w: Worker): seq<Callback> {
    if w.Running? then [w.cb] else []
  }

  // How many of the workers are running `cb`.
  function Runs(ws: seq<Worker>, cb: Callback): nat {
    if ws == [] then 0 else Runs(ws[..|ws| - 1], cb) + One(ws[|ws| - 1], cb)
  }

  function One(w: Worker, cb: Callback): nat {
    if w == Running(cb) then 1 else 0
  }

  lemma {:induction false} RunsUpdate(ws: seq<Worker>, i: nat, w: Worker, cb: Callback)
    requires i < |ws|
    ensures Runs(ws[i := w], cb) + One(ws[i], cb) == Runs(ws, cb) + One(w, cb)
  {
    var n := |ws| - 1;
    if i == n {
      assert ws[i := w][..n] == ws[..n];
    } else {
      RunsUpdate(ws[..n], i, w, cb);
      assert ws[i := w][..n] == ws[..n][i := w];
    }
  }

  lemma {:induction false} NoneRuns(ws: seq<Worker>, cb: Callback)
    requires forall w | w in ws :: !w.Running?
    ensures Runs(ws, cb) == 0
  {
    if ws != [] {
      NoneRuns(ws[..|ws| - 1], cb);
    }
  }

  function Count(cbs: seq<Callback>, cb: Callback): nat {
    multiset(cbs)[cb]
  }

  // What was started is finished or running.
  predicate Balanced(s: State, cb: Callback) {
    Count(s.started, cb) == Count(s.finished, cb) + Runs(s.workers, cb)
  }

  predicate InOrder(s: State) {
    && s.accepted == s.started + s.queue
    && (|s.workers| == 1 ==> s.started == s.finished + RunningIn(s.workers[0]))
  }

  lemma {:induction false} StepBalanced(s: State, step: Step, cb: Callback)
    requires Balanced(s, cb) && Enabled(s, step)
    ensures Balanced(Do(s, step), cb)
  {
    match step
    case Enter(_) =>
    case Push(_) =>
    case Check(w) =>
      RunsUpdate(s.workers, w, if s.quit then Gone else Waiting, cb);
    case Test(w) =>
      RunsUpdate(s.workers, w, if s.quit then Gone else Holding, cb);
    case Remove(w) =>
      RunsUpdate(s.workers, w, if s.queue == [] then Looping else Running(s.queue[0]), cb);
    case Finish(w) =>
      RunsUpdate(s.workers, w, Looping, cb);
    case Quit =>
  }

  lemma {:induction false} StepInOrder(s: State, step: Step)
    requires InOrder(s) && Enabled(s, step)
    ensures InOrder(Do(s, step))
  {
    match step
    case Enter(_) =>
    case Push(cb) =>
      assert s.started + s.queue + [cb] == s.started + (s.queue + [cb]);
    case Check(w) =>
    case Test(w) =>
    case Remove(w) =>
      if s.queue != [] {
        assert s.queue == [s.queue[0]] + s.queue[1..];
        assert s.started + s.queue == s.started + [s.queue[0]] + s.queue[1..];
      }
    case Finish(w) =>
    case Quit =>
  }

  lemma {:induction false} AlwaysInOrder(n: nat, steps: seq<Step>, states: seq<State>)
    requires Trace(n, steps, states)
    ensures InOrder(states[|steps|]) && |states[|steps|].workers| == n
  {
    if steps != [] {
      var k := |steps| - 1;
      AlwaysInOrder(n, steps[..k], states[..k + 1]);
      StepInOrder(states[k], steps[k]);
    }
  }

  lemma {:induction false} AlwaysBalanced(n: nat, steps: seq<Step>, states: seq<State>, cb: Callback)
    requires Trace(n, steps, states)
    ensures Balanced(states[|steps|], cb)
  {
    if steps == [] {
      NoneRuns(Start(n).workers, cb);
    } else {
      var k := |steps| - 1;
      AlwaysBalanced(n, steps[..k], states[..k + 1], cb);
      StepBalanced(states[k], steps[k], cb);
    }
  }

  /** In every run with any number of workers the accepted callbacks are the started ones followed by the
    * queued ones, and each callback was started as often as it finished or is running now. With one
    * worker, callbacks therefore run one at a time, in arrival order, each at most once. */
  lemma {:induction false} Accounted(n: nat, steps: seq<Step>, states: seq<State>)
    requires Trace(n, steps, states)
    ensures InOrder(states[|steps|])
    ensures forall cb: Callback :: Balanced(states[|steps|], cb)
    ensures n == 1 ==> states[|steps|].finished <= states[|steps|].started <= states[|steps|].accepted
  {
    AlwaysInOrder(n, steps, states);
    forall cb: Callback ensures Balanced(states[|steps|], cb) {
      AlwaysBalanced(n, steps, states, cb);
    }
  }

  // The lock has one holder, and the holder finds a callback: the wait was over and nobody else could take it.
  predicate Locked(s: State) {
    && (forall w | 0 <= w < |s.workers| && s.workers[w].Holding? :: s.holder == Some(w))
    && (s.holder.Some? ==> s.holder.value < |s.workers| && s.workers[s.holder.value].Holding? && s.queue != [])
  }

  lemma {:induction false} StepLocked(s: State, step: Step)
    requires Locked(s) && Enabled(s, step)
    ensures Locked(Do(s, step))
  {
  }

  lemma {:induction false} AlwaysLocked(n: nat, steps: seq<Step>, states: seq<State>)
    requires Trace(n, steps, states)
    ensures Locked(states[|steps|])
  {
    if steps != [] {
      var k := |steps| - 1;
      AlwaysLocked(n, steps[..k], states[..k + 1]);
      StepLocked(states[k], steps[k]);
    }
  }

  // How `s` can follow a state `q` in which the quit flag is set: only the worker that was past its second
  // test of the flag in `q` may have started a callback, one only, the first of the queue.
  predicate Winding(q: State, s: State)
    requires Locked(q)
  {
    && s.quit && |s.workers| == |q.workers| && Locked(s)
    && (forall w | 0 <= w < |q.workers| && q.holder != Some(w) && s.workers[w].Running? :: s.workers[w] == q.workers[w])
    && (if s.holder.Some? then s.holder == q.holder && s.started == q.started && s.queue[..1] == q.queue[..1]
        else s.started == q.started + if q.holder.Some? then q.queue[..1] else [])
    && (q.holder.Some? && s.workers[q.holder.value].Running? ==> s.workers[q.holder.value].cb == q.queue[0])
  }

  lemma {:induction false} StepWinding(q: State, s: State, step: Step)
    requires q.quit && Locked(q) && Winding(q, s) && Enabled(s, step)
    ensures Winding(q, Do(s, step))
  {
    StepLocked(s, step);
  }

  lemma {:induction false} AlwaysWinding(n: nat, steps: seq<Step>, states: seq<State>, from: nat)
    requires Trace(n, steps, states) && from <= |steps| && states[from].quit
    ensures Locked(states[from]) && Winding(states[from], states[|steps|])
    decreases |steps|
  {
    if from == |steps| {
      AlwaysLocked(n, steps, states);
    } else {
      var k := |steps| - 1;
      AlwaysWinding(n, steps[..k], states[..k + 1], from);
      StepWinding(states[from], states[k], steps[k]);
    }
  }

  /** After the quit flag is set one more callback starts if and only if a worker held the lock at that
    * moment, past its test of the flag: the first of the queue, once that worker has released the lock. No
    * other worker starts any. When the workers are gone nothing is running: what was accepted is either
    * finished or still queued. */
  lemma {:induction false} Stopped(n: nat, steps: seq<Step>, states: seq<State>, from: nat)
    requires Trace(n, steps, states) && from <= |steps| && states[from].quit
    ensures var q, s := states[from], states[|steps|];
            && s.quit && |s.workers| == |q.workers|
            && (q.holder.Some? ==> q.queue != [])
            && s.started == q.started + (if q.holder.Some? && s.holder.None? then [q.queue[0]] else [])
            && (forall w | 0 <= w < |q.workers| && q.holder != Some(w) && s.workers[w].Running? ::
                  s.workers[w] == q.workers[w])
            && ((forall w | w in s.workers :: w.Gone?) ==>
                  forall cb: Callback :: Count(s.accepted, cb) == Count(s.finished, cb) + Count(s.queue, cb))
  {
    AlwaysWinding(n, steps, states, from);
    var q, s := states[from], states[|steps|];
    assert q.holder.Some? ==> q.queue[..1] == [q.queue[0]];
    if forall w | w in s.workers :: w.Gone? {
      forall cb: Callback ensures Count(s.accepted, cb) == Count(s.finished, cb) + Count(s.queue, cb) {
        NothingRuns(n, steps, states, cb);
      }
    }
  }

  lemma {:induction false} NothingRuns(n: nat, steps: seq<Step>, states: seq<State>, cb: Callback)
    requires Trace(n, steps, states) && forall w | w in states[|steps|].workers :: w.Gone?
    ensures var s := states[|steps|]; Count(s.accepted, cb) == Count(s.finished, cb) + Count(s.queue, cb)
  {
    AlwaysInOrder(n, steps, states);
    AlwaysBalanced(n, steps, states, cb);
    NoneRuns(states[|steps|].workers, cb);
  }

  /** A callback does start after the flag is set when a worker is past its test. */
  lemma {:induction false} StartsAfterQuit(n: nat) returns (steps: seq<Step>, states: seq<State>, from: nat)
    requires n >= 1
    ensures Trace(n, steps, states) && from <= |steps|
    ensures states[from].quit && states[from].started == [] && states[|steps|].started == [0]
  {
    steps, states := Accept(n, [], [Start(n)], 0);
    steps, states := OneMore(n, steps, states, Check(0));
    steps, states := OneMore(n, steps, states, Test(0));
    steps, states := OneMore(n, steps, states, Quit);
    from := |steps|;
    var before := states;
    steps, states := OneMore(n, steps, states, Remove(0));
    assert states[from] == before[from];
  }

  lemma {:induction false} OneMore(n: nat, steps: seq<Step>, states: seq<State>, step: Step)
    returns (more: seq<Step>, after: seq<State>)
    requires Trace(n, steps, states) && Enabled(states[|steps|], step)
    ensures Trace(n, more, after) && after[|more|] == Do(states[|steps|], step)
    ensures |more| == |steps| + 1 && after[..|states|] == states
  {
    more, after := steps + [step], states + [Do(states[|steps|], step)];
  }

  lemma {:induction false} Accept(n: nat, steps: seq<Step>, states: seq<State>, cb: Callback)
    returns (more: seq<Step>, after: seq<State>)
    requires Trace(n, steps, states) && !states[|steps|].quit && states[|steps|].holder.None?
    ensures Trace(n, more, after)
    ensures var s := states[|steps|];
            after[|more|] == s.(queue := s.queue + [cb], accepted := s.accepted + [cb])
  {
    more, after := OneMore(n, steps, states, Enter(cb));
    more, after := OneMore(n, more, after, Push(cb));
  }

  lemma {:induction false} Take(n: nat, steps: seq<Step>, states: seq<State>, w: nat)
    returns (more: seq<Step>, after: seq<State>)
    requires Trace(n, steps, states)
    requires var s := states[|steps|];
             !s.quit && s.holder.None? && s.queue != [] && w < |s.workers| && s.workers[w].Looping?
    ensures Trace(n, more, after)
    ensures var s := states[|steps|];
            after[|more|] == s.(workers := s.workers[w := Running(s.queue[0])], queue := s.queue[1..],
                                started := s.started + [s.queue[0]])
  {
    more, after := OneMore(n, steps, states, Check(w));
    more, after := OneMore(n, more, after, Test(w));
    more, after := OneMore(n, more, after, Remove(w));
  }

  /** With two or more workers a callback can finish before one that arrived earlier. */
  lemma {:induction false} MoreWorkersReorder(n: nat) returns (steps: seq<Step>, states: seq<State>)
    requires n >= 2
    ensures Trace(n, steps, states)
    ensures states[|steps|].accepted == [0, 1] && states[|steps|].finished == [1]
  {
    steps, states := Accept(n, [], [Start(n)], 0);
    steps, states := Accept(n, steps, states, 1);
    steps, states := Take(n, steps, states, 0);
    steps, states := Take(n, steps, states, 1);
    steps, states := OneMore(n, steps, states, Finish(1));
  }

  /** The shared part of the state as an object: each method is what one thread does under the lock. */
  class Queue {
    var callbacks: seq<Callback>
    var quit: bool

    ghost predicate Agrees(s: State)
      reads this
    {
      callbacks == s.queue && quit == s.quit
    }

    constructor ()
      ensures forall n: nat :: Agrees(Start(n))
    {
      callbacks, quit := [], false;
    }

    // add_callback, after its test of the quit flag.
    method Add(cb: Callback, ghost s: State)
      requires Agrees(s) && Enabled(s, Push(cb))
      modifies this
      ensures Agrees(Do(s, Push(cb)))
    {
      callbacks := callbacks + [cb];
    }

    // The second test of the flag in do_work, once the wait is over; the worker ends unless `go`.
    method Test(ghost s: State, ghost w: nat) returns (go: bool)
      requires Agrees(s) && Enabled(s, Step.Test(w))
      ensures Agrees(Do(s, Step.Test(w)))
      ensures Do(s, Step.Test(w)).workers[w] == if go then Holding else Gone
    {
      return !quit;
    }

    // The removal that follows; the flag is not looked at again.
    method Remove(ghost s: State, ghost w: nat) returns (cb: Option<Callback>)
      requires Agrees(s) && Enabled(s, Step.Remove(w))
      modifies this
      ensures Agrees(Do(s, Step.Remove(w)))
      ensures Do(s, Step.Remove(w)).workers[w] == match cb case Some(c) => Running(c) case None => Looping
    {
      if callbacks == [] {
        return None;
      }
      cb := Some(callbacks[0]);
      callbacks := callbacks[1..];
    }

    method Stop(ghost s: State)
      requires Agrees(s)
      modifies this
      ensures Agrees(Do(s, Quit))
    {
      quit := true;
    }
  }
}
