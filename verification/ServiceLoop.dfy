/**
 The event loop as the code writes it: one object whose variables the loop
 updates in place.  Every method is proved to do to those variables what the
 function of the same event in `ServiceRuntime` says.
 */
module ServiceLoop {
  import opened Basics
  import opened ServiceRuntime

  /** What can happen to the loop's variables from outside: an admitter takes a
      slot, or gives it back because the loop is gone; or the loop's select
      receives the stop signal or an event. */
  datatype Input =
    | SlotTaken(id: Id)
    | SlotReturned(id: Id)
    | StopSignal
    | EnqueueEvent(id: Id)
    | YieldEvent(id: Id)
    | ResumeEvent(id: Id)
    | DoneEvent(id: Id)

  predicate ByAdmitter(ev: Input) {
    ev.SlotTaken? || ev.SlotReturned?
  }

  function Handle(o: Opts, l: Loop, ev: Input): Loop {
    match ev
    case SlotTaken(id) => HoldSlot(l, id)
    case SlotReturned(id) => ReleaseSlot(l, id)
    case StopSignal => if l.stopping then l else OnStop(l)
    case EnqueueEvent(id) => OnEnqueue(l, id)
    case YieldEvent(id) => OnYield(o, l, id)
    case ResumeEvent(id) => OnResume(l, id)
    case DoneEvent(id) => OnDone(l, id)
  }

  /** From one top of the loop to the next: an admitter's step needs no loop, and
      any other input is received after a pass, or by nobody once the loop is over. */
  function NextTop(o: Opts, l: Loop, ev: Input): Loop {
    if ByAdmitter(ev) then Handle(o, l, ev)
    else if MayReturn(l) then l
    else Handle(o, Schedule(l), ev)
  }

  function TopAfter(o: Opts, l: Loop, script: seq<Input>): Loop {
    if script == [] then l else NextTop(o, TopAfter(o, l, script[..|script| - 1]), script[|script| - 1])
  }

  lemma TopAfterMore(o: Opts, l: Loop, script: seq<Input>, k: nat)
    requires k < |script|
    ensures TopAfter(o, l, script[..k + 1]) == NextTop(o, TopAfter(o, l, script[..k]), script[k])
  {
    assert script[..k + 1][..k] == script[..k];
  }

  lemma ReturnedStays(o: Opts, l: Loop, ev: Input)
    requires MayReturn(l)
    ensures MayReturn(NextTop(o, l, ev))
  {
  }

  /** The loop over a script of inputs, until it returns or waits at its select. */
  function RunAll(o: Opts, l: Loop, script: seq<Input>): (Loop, bool) {
    var top := TopAfter(o, l, script);
    if MayReturn(top) then (top, true) else (Schedule(top), false)
  }

  lemma FinishPendingFrame(l: Loop, id: Id)
    ensures FinishPending(l, id).ready == l.ready && FinishPending(l, id).started == l.started
  {
  }

  lemma FinishAllFrame(l: Loop, ids: seq<Id>)
    ensures FinishAll(l, ids).ready == l.ready && FinishAll(l, ids).started == l.started
  {
  }

  class EventLoop {
    const opts: Opts
    var current: Option<Id>
    var ready: seq<Id>
    var suspended: set<Id>
    var segmentSeq: nat
    var stopping: bool
    var started: set<Id>
    var yieldAt: map<Id, nat>
    var version: map<Id, nat>
    var slots: int
    var slotHeld: set<Id>
    ghost var segments: seq<Id>
    ghost var starts: seq<Id>
    ghost var enqueued: seq<Id>
    ghost var failed: seq<Id>

    ghost function View(): Loop
      reads this
    {
      Loop(current, ready, suspended, segmentSeq, stopping, started, yieldAt, version,
           slots, slotHeld, segments, starts, enqueued, failed)
    }

    /** Every held slot is a token in the slot channel, so taking one back never blocks. */
    ghost predicate Valid()
      reads this
    {
      slots >= |slotHeld|
    }

    function YieldAtOf(id: Id): nat
      reads this
    {
      if id in yieldAt then yieldAt[id] else 0
    }

    function VersionOf(id: Id): nat
      reads this
    {
      if id in version then version[id] else 0
    }

    constructor (o: Opts)
      ensures Valid() && View() == EMPTY_LOOP && opts == o
    {
      opts := o;
      current, ready, suspended, segmentSeq, stopping := None, [], {}, 0, false;
      started, yieldAt, version, slots, slotHeld := {}, map[], map[], 0, {};
      segments, starts, enqueued, failed := [], [], [], [];
    }

    method TakeBackSlot(id: Id)
      requires Valid()
      modifies this`slots, this`slotHeld
      ensures Valid() && View() == ReleaseSlot(old(View()), id)
    {
      if id in slotHeld {
        assert slots > 0;
        slots := slots - 1;
        slotHeld := slotHeld - {id};
      }
    }

    method AnswerPending(id: Id)
      requires Valid()
      modifies this
      ensures Valid() && View() == FinishPending(old(View()), id)
    {
      TakeBackSlot(id);
      failed := failed + [id];
    }

    method CountInterleaving(id: Id)
      modifies this`version
      ensures View() == old(View()).(version := Bumped(old(View()), id))
    {
      if id in started && segmentSeq > YieldAtOf(id) {
        version := version[id := VersionOf(id) + 1];
      }
    }

    method EnterSegment(id: Id)
      modifies this`current, this`segmentSeq, this`segments, this`started, this`starts
      ensures View() == Entered(old(View()), id)
    {
      if id !in started {
        starts := starts + [id];
      }
      started := started + {id};
      segments := segments + [id];
      segmentSeq := segmentSeq + 1;
      current := Some(id);
    }

    method GiveTurn(id: Id)
      requires Valid()
      modifies this
      ensures Valid() && View() == Begin(old(View()), id)
    {
      CountInterleaving(id);
      TakeBackSlot(id);
      EnterSegment(id);
    }

    method DoSchedule()
      requires Valid()
      modifies this
      ensures Valid() && View() == Schedule(old(View()))
    {
      if current.Some? || ready == [] {
        return;
      }
      var id := ready[0];
      ready := ready[1..];
      if stopping && id !in started {
        AnswerPending(id);
      } else {
        GiveTurn(id);
      }
    }

    method AnswerUnstarted()
      requires Valid()
      modifies this
      ensures Valid() && View() == FinishAll(old(View()), Unstarted(old(ready), old(started)))
    {
      ghost var l0 := View();
      var i := 0;
      while i < |ready|
        invariant 0 <= i <= |ready| && Valid()
        invariant ready == l0.ready && started == l0.started
        invariant View() == FinishAll(l0, Unstarted(l0.ready[..i], l0.started))
      {
        ghost var done := Unstarted(l0.ready[..i], l0.started);
        assert l0.ready[..i + 1][..i] == l0.ready[..i];
        if ready[i] !in started {
          assert (done + [ready[i]])[..|done|] == done;
          FinishPendingFrame(View(), ready[i]);
          AnswerPending(ready[i]);
        }
        i := i + 1;
      }
      assert l0.ready[..i] == l0.ready;
    }

    method KeepStarted()
      modifies this`ready
      ensures ready == Kept(old(ready), started)
    {
      var kept: seq<Id> := [];
      var i := 0;
      while i < |ready|
        invariant 0 <= i <= |ready|
        invariant kept == Kept(ready[..i], started)
      {
        assert ready[..i + 1][..i] == ready[..i];
        if ready[i] in started {
          kept := kept + [ready[i]];
        }
        i := i + 1;
      }
      assert ready[..i] == ready;
      ready := kept;
    }

    method HandleStop()
      requires Valid()
      modifies this
      ensures Valid() && View() == OnStop(old(View()))
    {
      ghost var l0 := View();
      FinishAllFrame(l0, Unstarted(l0.ready, l0.started));
      AnswerUnstarted();
      KeepStarted();
      stopping := true;
    }

    method HandleEnqueue(id: Id)
      requires Valid()
      modifies this
      ensures Valid() && View() == OnEnqueue(old(View()), id)
    {
      if stopping {
        AnswerPending(id);
      } else {
        ready := ready + [id];
        enqueued := enqueued + [id];
      }
    }

    method HandleYield(id: Id) returns (reply: YieldReply)
      requires Valid()
      modifies this
      ensures Valid() && View() == OnYield(opts, old(View()), id)
      ensures reply == YieldVerdict(opts, old(View()), id)
    {
      if opts.noInterleave {
        return RuntimeInvariant;
      }
      if current != Some(id) {
        return NotRunning;
      }
      if |suspended| >= opts.maxSuspended {
        return SuspendLimit;
      }
      yieldAt := yieldAt[id := segmentSeq];
      suspended := suspended + {id};
      current := None;
      return Accepted;
    }

    method HandleResume(id: Id)
      requires Valid()
      modifies this
      ensures Valid() && View() == OnResume(old(View()), id)
    {
      if id in suspended {
        suspended := suspended - {id};
        ready := ready + [id];
      }
    }

    method HandleDone(id: Id)
      requires Valid()
      modifies this
      ensures Valid() && View() == OnDone(old(View()), id)
    {
      if current == Some(id) {
        current := None;
      }
      suspended := suspended - {id};
    }

    method AdmitterStep(ev: Input)
      requires Valid() && ByAdmitter(ev)
      modifies this`slots, this`slotHeld
      ensures Valid() && View() == Handle(opts, old(View()), ev)
    {
      match ev {
        case SlotTaken(id) =>
          slots := slots + 1;
          slotHeld := slotHeld + {id};
        case SlotReturned(id) => TakeBackSlot(id);
      }
    }

    /** What the admitters do before the loop gets to run again. */
    method ServeAdmitters(ghost l0: Loop, script: seq<Input>, from: nat) returns (k: nat)
      requires Valid() && from <= |script| && View() == TopAfter(opts, l0, script[..from])
      modifies this`slots, this`slotHeld
      ensures Valid() && from <= k <= |script| && View() == TopAfter(opts, l0, script[..k])
      ensures k < |script| ==> !ByAdmitter(script[k])
    {
      k := from;
      while k < |script| && ByAdmitter(script[k])
        invariant Valid() && from <= k <= |script| && View() == TopAfter(opts, l0, script[..k])
      {
        TopAfterMore(opts, l0, script, k);
        AdmitterStep(script[k]);
        k := k + 1;
      }
    }

    method LateStep(ev: Input)
      requires Valid() && MayReturn(View())
      modifies this`slots, this`slotHeld
      ensures Valid() && View() == NextTop(opts, old(View()), ev) && MayReturn(View())
    {
      ReturnedStays(opts, View(), ev);
      if ByAdmitter(ev) {
        AdmitterStep(ev);
      }
    }

    /** After the loop has returned only admitters still move; nobody receives events. */
    method Outlive(ghost l0: Loop, script: seq<Input>, from: nat)
      requires Valid() && from <= |script| && View() == TopAfter(opts, l0, script[..from]) && MayReturn(View())
      modifies this`slots, this`slotHeld
      ensures Valid() && View() == TopAfter(opts, l0, script) && MayReturn(View())
    {
      var k := from;
      while k < |script|
        invariant Valid() && k <= |script| && View() == TopAfter(opts, l0, script[..k]) && MayReturn(View())
      {
        TopAfterMore(opts, l0, script, k);
        LateStep(script[k]);
        k := k + 1;
      }
      assert script[..k] == script;
    }

    /** One thing the loop's select receives. */
    method Receive(ev: Input)
      requires Valid() && !ByAdmitter(ev)
      modifies this
      ensures Valid() && View() == Handle(opts, old(View()), ev)
    {
      match ev {
        case StopSignal =>
          if !stopping {
            HandleStop();
          }
        case EnqueueEvent(id) => HandleEnqueue(id);
        case YieldEvent(id) => var _ := HandleYield(id);
        case ResumeEvent(id) => HandleResume(id);
        case DoneEvent(id) => HandleDone(id);
        case SlotTaken(_) =>
        case SlotReturned(_) =>
      }
    }

    /** The loop itself, driven by whatever its select receives while admitters come and go. */
    method Run(script: seq<Input>) returns (returned: bool)
      requires Valid()
      modifies this
      ensures Valid() && (View(), returned) == RunAll(opts, old(View()), script)
    {
      var k := 0;
      while true
        invariant 0 <= k <= |script| && Valid() && View() == TopAfter(opts, old(View()), script[..k])
        decreases |script| - k
      {
        k := ServeAdmitters(old(View()), script, k);
        if stopping && current.None? && ready == [] && suspended == {} {
          Outlive(old(View()), script, k);
          return true;
        }
        DoSchedule();
        if k == |script| {
          assert script[..k] == script;
          return false;
        }
        TopAfterMore(opts, old(View()), script, k);
        Receive(script[k]);
        k := k + 1;
      }
    }
  }

  // -------------------------------------------------- the loop and the machine

  /** What an action of the machine is to the loop; the handlers' own steps are nothing to it. */
  function InputOf(a: Action): seq<Input> {
    match a
    case TakeSlot(id) => [SlotTaken(id)]
    case SeeDoneWhileAdmitting(id) => [SlotReturned(id)]
    case Stop => [StopSignal]
    case Enqueue(id) => [EnqueueEvent(id)]
    case Yield(id) => [YieldEvent(id)]
    case Resume(id) => [ResumeEvent(id)]
    case Done(id) => [DoneEvent(id)]
    case Pass => []
    case TakeGrant(_) => []
    case WaitReturns(_) => []
    case SeeDoneWhileResuming(_) => []
    case HandlerReturns(_) => []
  }

  function Inputs(acts: seq<Action>): seq<Input> {
    if acts == [] then [] else Inputs(acts[..|acts| - 1]) + InputOf(acts[|acts| - 1])
  }

  /** The machine's state `s` has the loop that `top` was at its last top: still
      there, past its scheduling pass, or returned. */
  ghost predicate Simulates(s: Sys, top: Loop) {
    && (s.pc.Top? ==> s.loop == top)
    && (s.pc.Select? ==> s.loop == Schedule(top) && !MayReturn(top))
    && (s.pc.Exited? ==> s.loop == top && MayReturn(top))
    && (top.stopping ==> forall id :: id in top.ready ==> id in top.started)
  }

  /** A slot may be taken before or after a pass that does not concern its taker. */
  lemma HoldCommutes(l: Loop, id: Id)
    requires l.current.None? && l.ready != [] ==> l.ready[0] != id
    ensures Schedule(HoldSlot(l, id)) == HoldSlot(Schedule(l), id)
  {
    if l.current.None? && l.ready != [] {
      var x, rest := l.ready[0], l.(ready := l.ready[1..]);
      HoldRelease(rest, id, x);
      HoldRelease(rest.(version := Bumped(rest, x)), id, x);
    }
  }

  lemma HoldRelease(l: Loop, id: Id, x: Id)
    requires x != id
    ensures ReleaseSlot(HoldSlot(l, id), x) == HoldSlot(ReleaseSlot(l, x), id)
  {
    assert (l.slotHeld + {id}) - {x} == (l.slotHeld - {x}) + {id};
  }

  lemma SimulatesHold(o: Opts, s: Sys, id: Id, top: Loop)
    requires FullInv(o, s) && Simulates(s, top) && Enabled(o, s, TakeSlot(id))
    ensures Simulates(Apply(o, s, TakeSlot(id)), HoldSlot(top, id))
  {
    assert PlacedAt(s, id);
    if s.pc.Select? {
      HoldCommutes(top, id);
    }
  }

  predicate Received(a: Action) {
    a.Stop? || a.Enqueue? || a.Yield? || a.Resume? || a.Done?
  }

  lemma ReceivedEffect(o: Opts, s: Sys, a: Action)
    requires Enabled(o, s, a) && Received(a)
    ensures var s' := Apply(o, s, a);
      s.pc.Select? && s'.pc.Top? && s'.loop == Handle(o, s.loop, InputOf(a)[0]) && !ByAdmitter(InputOf(a)[0])
  {
  }

  lemma SimulatesReceived(o: Opts, s: Sys, a: Action, top: Loop)
    requires Simulates(s, top) && Enabled(o, s, a) && Received(a) && StopClean(Apply(o, s, a))
    ensures Simulates(Apply(o, s, a), NextTop(o, top, InputOf(a)[0]))
  {
    ReceivedEffect(o, s, a);
  }

  lemma SimulatesPass(s: Sys, top: Loop)
    requires Simulates(s, top) && s.pc.Top?
    ensures Simulates(PassOf(s), top)
  {
  }

  /** The handlers' own steps leave the loop where it is. */
  lemma SimulatesHandler(o: Opts, s: Sys, a: Action, top: Loop)
    requires Simulates(s, top) && Enabled(o, s, a) && InputOf(a) == [] && !a.Pass?
    ensures Simulates(Apply(o, s, a), top)
  {
  }

  lemma SimulatesStep(o: Opts, s: Sys, a: Action, top: Loop)
    requires FullInv(o, s) && Simulates(s, top) && Enabled(o, s, a)
    ensures Simulates(Apply(o, s, a), TopAfter(o, top, InputOf(a)))
  {
    assert InputOf(a) != [] ==> TopAfter(o, top, InputOf(a)) == NextTop(o, top, InputOf(a)[0]) by {
      assert InputOf(a) != [] ==> InputOf(a)[..0] == [];
    }
    if Received(a) {
      FullInvStep(o, s, a);
      SimulatesReceived(o, s, a, top);
    } else if a.TakeSlot? {
      SimulatesHold(o, s, a.id, top);
    } else if a.Pass? {
      SimulatesPass(s, top);
    } else if !a.SeeDoneWhileAdmitting? {
      SimulatesHandler(o, s, a, top);
    }
  }

  lemma {:induction false} TopAfterConcat(o: Opts, l: Loop, x: seq<Input>, y: seq<Input>)
    ensures TopAfter(o, l, x + y) == TopAfter(o, TopAfter(o, l, x), y)
  {
    if y == [] {
      assert x + y == x;
    } else {
      assert (x + y)[..|x + y| - 1] == x + y[..|y| - 1];
      TopAfterConcat(o, l, x, y[..|y| - 1]);
    }
  }

  /** In every state of every run, the machine's loop is where the loop alone
      gets on the inputs the run gave it. */
  lemma {:induction false} LoopSimulation(o: Opts, ss: seq<Sys>, acts: seq<Action>, i: nat)
    requires IsRun(o, ss, acts) && i < |ss|
    ensures Simulates(ss[i], TopAfter(o, EMPTY_LOOP, Inputs(acts[..i])))
  {
    if i == 0 {
    } else {
      LoopSimulation(o, ss, acts, i - 1);
      FullInvRun(o, ss, acts, i - 1);
      assert Step(o, ss[i - 1], acts[i - 1], ss[i]);
      assert acts[..i][..i - 1] == acts[..i - 1];
      SimulatesStep(o, ss[i - 1], acts[i - 1], TopAfter(o, EMPTY_LOOP, Inputs(acts[..i - 1])));
      TopAfterConcat(o, EMPTY_LOOP, Inputs(acts[..i - 1]), InputOf(acts[i - 1]));
    }
  }

  /** The state once the loop has gone on to its select, or has returned. */
  function Settled(s: Sys): Sys {
    if s.pc.Top? then PassOf(s) else s
  }

  /** The loop alone, run on a run's inputs, ends as the machine does. */
  lemma RunAllIsTheMachine(o: Opts, ss: seq<Sys>, acts: seq<Action>)
    requires IsRun(o, ss, acts)
    ensures var s := Settled(ss[|acts|]);
      RunAll(o, EMPTY_LOOP, Inputs(acts)) == (s.loop, s.pc.Exited?)
  {
    LoopSimulation(o, ss, acts, |acts|);
    assert acts[..|acts|] == acts;
  }

  /** The settled state is itself one of a run. */
  lemma SettledIsReached(o: Opts, ss: seq<Sys>, acts: seq<Action>) returns (ss': seq<Sys>, acts': seq<Action>)
    requires IsRun(o, ss, acts)
    ensures IsRun(o, ss', acts') && ss'[|acts'|] == Settled(ss[|acts|])
  {
    ss', acts' := ss, acts;
    if ss[|acts|].pc.Top? {
      ss', acts' := ss + [PassOf(ss[|acts|])], acts + [Pass];
      forall i | 0 <= i < |acts'| ensures Step(o, ss'[i], acts'[i], ss'[i + 1]) {
        assert i < |acts| ==> Step(o, ss[i], acts[i], ss[i + 1]);
      }
    }
  }

  /** What the machine's theorems say of a state, said of the loop's variables alone. */
  ghost predicate LoopSafe(o: Opts, l: Loop, returned: bool) {
    && (forall id :: Places(l, id) <= 1) && Distinct(l.ready) && |l.suspended| <= o.maxSuspended
    && l.slots == |l.slotHeld| <= o.mailboxSize
    && l.starts <= l.enqueued && Distinct(l.failed)
    && (returned ==> forall id :: Places(l, id) == 0)
  }

  lemma SafeAt(o: Opts, s: Sys)
    requires FullInv(o, s) && Answered(s)
    ensures LoopSafe(o, s.loop, s.pc.Exited?)
    ensures s.pc.Exited? ==> forall id :: !Live(Ph(s, id))
  {
    forall id ensures Places(s.loop, id) <= 1 && (s.pc.Exited? ==> Places(s.loop, id) == 0 && !Live(Ph(s, id))) {
      assert PlacedAt(s, id);
    }
  }

  lemma PassKeepsPhases(s: Sys)
    ensures PassOf(s).pc.Exited? ==> PassOf(s).phase == s.phase
  {
  }

  lemma SettledSafe(o: Opts, ss: seq<Sys>, acts: seq<Action>)
    requires IsRun(o, ss, acts)
    ensures var s := Settled(ss[|acts|]); LoopSafe(o, s.loop, s.pc.Exited?)
    ensures Settled(ss[|acts|]).pc.Exited? ==> forall id :: !Live(Ph(ss[|acts|], id))
  {
    var ss', acts' := SettledIsReached(o, ss, acts);
    FullInvRun(o, ss', acts', |acts'|);
    AnsweredRun(o, ss', acts', |acts'|);
    SafeAt(o, ss'[|acts'|]);
    PassKeepsPhases(ss[|acts|]);
    forall id | Settled(ss[|acts|]).pc.Exited? ensures !Live(Ph(ss[|acts|], id)) {
      assert Ph(ss[|acts|], id) == Ph(ss'[|acts'|], id);
    }
  }

  /** Scheduler safety, slot conservation, mailbox order and single answers hold of
      the loop's own variables on the inputs of every run. */
  lemma RunAllSafe(o: Opts, ss: seq<Sys>, acts: seq<Action>)
    requires IsRun(o, ss, acts)
    ensures var run := RunAll(o, EMPTY_LOOP, Inputs(acts)); LoopSafe(o, run.0, run.1)
  {
    RunAllIsTheMachine(o, ss, acts);
    SettledSafe(o, ss, acts);
  }

  /** A new service loop, run to its select or its end on the inputs of any run
      of the machine: its fields are as safe as the machine's. */
  method RunService(o: Opts, script: seq<Input>, ghost ss: seq<Sys>, ghost acts: seq<Action>)
    returns (loop: EventLoop, returned: bool)
    requires IsRun(o, ss, acts) && script == Inputs(acts)
    ensures fresh(loop) && loop.Valid() && LoopSafe(o, loop.View(), returned)
    ensures loop.View() == Settled(ss[|acts|]).loop && returned == Settled(ss[|acts|]).pc.Exited?
    ensures returned ==> forall id :: !Live(Ph(ss[|acts|], id))
  {
    loop := new EventLoop(o);
    RunAllIsTheMachine(o, ss, acts);
    SettledSafe(o, ss, acts);
    returned := loop.Run(script);
  }
}
