/**
 The event loop of one service and the handler processes it schedules.

 `Loop` holds the local variables of the loop; `Schedule` and the `On...`
 functions say what one pass does to them.  `Sys` adds the processes the loop
 talks to: admitters that took a mailbox slot, and one sequential handler per
 activation, each at a `Phase` of its own code.  An `Action` is one atomic step
 of one process; a rendezvous on the unbuffered event channel is one action.
 */
module ServiceRuntime {
  import opened Basics

  type Id = int

  datatype Opts = Opts(mailboxSize: nat, maxSuspended: nat, noInterleave: bool)

  /** The loop's variables, the envelope and activation flags it owns, and a
      record of what it did: `segments` lists the owner of every segment begun,
      `starts` the activations in the order their handlers were started,
      `enqueued` the envelopes in the order they were accepted, and `failed` the
      envelopes answered by `FinishPending`. */
  datatype Loop = Loop(
    current: Option<Id>,
    ready: seq<Id>,
    suspended: set<Id>,
    segmentSeq: nat,
    stopping: bool,
    started: set<Id>,
    yieldAt: map<Id, nat>,
    version: map<Id, nat>,
    slots: int,
    slotHeld: set<Id>,
    segments: seq<Id>,
    starts: seq<Id>,
    enqueued: seq<Id>,
    failed: seq<Id>)

  const EMPTY_LOOP := Loop(None, [], {}, 0, false, {}, map[], map[], 0, {}, [], [], [], [])

  function Unstarted(ids: seq<Id>, started: set<Id>): seq<Id> {
    if ids == [] then []
    else if ids[|ids| - 1] in started then Unstarted(ids[..|ids| - 1], started)
    else Unstarted(ids[..|ids| - 1], started) + [ids[|ids| - 1]]
  }

  function Kept(ids: seq<Id>, started: set<Id>): seq<Id> {
    if ids == [] then []
    else if ids[|ids| - 1] in started then Kept(ids[..|ids| - 1], started) + [ids[|ids| - 1]]
    else Kept(ids[..|ids| - 1], started)
  }

  function YieldAt(l: Loop, id: Id): nat {
    if id in l.yieldAt then l.yieldAt[id] else 0
  }

  function Version(l: Loop, id: Id): nat {
    if id in l.version then l.version[id] else 0
  }

  function HoldSlot(l: Loop, id: Id): Loop {
    l.(slots := l.slots + 1, slotHeld := l.slotHeld + {id})
  }

  function ReleaseSlot(l: Loop, id: Id): Loop {
    l.(slots := if id in l.slotHeld then l.slots - 1 else l.slots, slotHeld := l.slotHeld - {id})
  }

  function FinishPending(l: Loop, id: Id): Loop {
    ReleaseSlot(l, id).(failed := l.failed + [id])
  }

  function FinishAll(l: Loop, ids: seq<Id>): Loop {
    if ids == [] then l else FinishPending(FinishAll(l, ids[..|ids| - 1]), ids[|ids| - 1])
  }

  /** A resumed activation counts that somebody else had a turn since it yielded. */
  function Bumped(l: Loop, id: Id): map<Id, nat> {
    if id in l.started && l.segmentSeq > YieldAt(l, id) then l.version[id := Version(l, id) + 1] else l.version
  }

  /** A segment of `id` begins. */
  function Entered(l: Loop, id: Id): Loop {
    l.(current := Some(id),
       segmentSeq := l.segmentSeq + 1,
       segments := l.segments + [id],
       starts := if id in l.started then l.starts else l.starts + [id],
       started := l.started + {id})
  }

  /** Gives the turn to `id`. */
  function Begin(l: Loop, id: Id): Loop {
    Entered(ReleaseSlot(l.(version := Bumped(l, id)), id), id)
  }

  function Schedule(l: Loop): Loop {
    if l.current.Some? || l.ready == [] then l
    else
      var id := l.ready[0];
      var rest := l.(ready := l.ready[1..]);
      if l.stopping && id !in l.started then FinishPending(rest, id) else Begin(rest, id)
  }

  function OnStop(l: Loop): Loop {
    var dropped := Unstarted(l.ready, l.started);
    FinishAll(l, dropped).(stopping := true, ready := Kept(l.ready, l.started))
  }

  function OnEnqueue(l: Loop, id: Id): Loop {
    if l.stopping then FinishPending(l, id)
    else l.(ready := l.ready + [id], enqueued := l.enqueued + [id])
  }

  datatype YieldReply = Accepted | RuntimeInvariant | NotRunning | SuspendLimit

  function YieldVerdict(o: Opts, l: Loop, id: Id): YieldReply {
    if o.noInterleave then RuntimeInvariant
    else if l.current != Some(id) then NotRunning
    else if |l.suspended| >= o.maxSuspended then SuspendLimit
    else Accepted
  }

  function OnYield(o: Opts, l: Loop, id: Id): Loop {
    if YieldVerdict(o, l, id) != Accepted then l
    else l.(yieldAt := l.yieldAt[id := l.segmentSeq], suspended := l.suspended + {id}, current := None)
  }

  function OnResume(l: Loop, id: Id): Loop {
    if id !in l.suspended then l
    else l.(suspended := l.suspended - {id}, ready := l.ready + [id])
  }

  function OnDone(l: Loop, id: Id): Loop {
    l.(current := if l.current == Some(id) then None else l.current, suspended := l.suspended - {id})
  }

  predicate MayReturn(l: Loop) {
    l.stopping && l.current.None? && l.ready == [] && l.suspended == {}
  }

  // ---------------------------------------------------------------- processes

  /** Where the process that owns an envelope stands.
      - Admitting: holds a slot and offers the enqueue event
      - Queued: handed over, handler not started
      - Starting: handler process created, not yet past its first grant
      - Running: executing handler code
      - Waiting: inside the wait function of an accepted yield
      - Resuming: wait returned, offering the resume event
      - Parked: resume received, blocked on its grant
      - Finishing: handler returned and was answered, offering the done event
      - Rejected, Dropped, Finished: terminal */
  datatype Phase =
    | New | Admitting | Rejected | Dropped | Queued | Starting | Running
    | Waiting | Resuming | Parked | Finishing | Finished

  datatype Pc = Top | Select | Exited

  datatype Sys = Sys(loop: Loop, pc: Pc, phase: map<Id, Phase>, grants: set<Id>)

  const INIT := Sys(EMPTY_LOOP, Top, map[], {})

  function Ph(s: Sys, id: Id): Phase {
    if id in s.phase then s.phase[id] else New
  }

  predicate Live(p: Phase) {
    p in {Queued, Starting, Running, Waiting, Resuming, Parked, Finishing}
  }

  datatype Action =
    | TakeSlot(id: Id)
    | SeeDoneWhileAdmitting(id: Id)
    | Enqueue(id: Id)
    | Stop
    | Pass                       // top of the loop: return, or schedule
    | TakeGrant(id: Id)
    | Yield(id: Id)
    | WaitReturns(id: Id)
    | Resume(id: Id)
    | SeeDoneWhileResuming(id: Id)
    | HandlerReturns(id: Id)
    | Done(id: Id)

  predicate Enabled(o: Opts, s: Sys, a: Action) {
    match a
    case TakeSlot(id) => Ph(s, id) == New && s.loop.slots < o.mailboxSize
    case SeeDoneWhileAdmitting(id) => Ph(s, id) == Admitting && s.pc == Exited
    case Enqueue(id) => Ph(s, id) == Admitting && s.pc == Select
    case Stop => s.pc == Select && !s.loop.stopping
    case Pass => s.pc == Top
    case TakeGrant(id) => Ph(s, id) in {Starting, Parked} && id in s.grants
    case Yield(id) => Ph(s, id) == Running && s.pc == Select && !o.noInterleave
    case WaitReturns(id) => Ph(s, id) == Waiting
    case Resume(id) => Ph(s, id) == Resuming && s.pc == Select
    case SeeDoneWhileResuming(id) => Ph(s, id) in {Resuming, Parked} && s.pc == Exited
    case HandlerReturns(id) => Ph(s, id) == Running
    case Done(id) => Ph(s, id) == Finishing && s.pc == Select
  }

  function SetPhase(s: Sys, id: Id, p: Phase): Sys {
    s.(phase := s.phase[id := p])
  }

  function DropAll(phase: map<Id, Phase>, ids: seq<Id>): map<Id, Phase> {
    phase + map id | id in ids :: Dropped
  }

  /** The top of the loop: return and close `done`, or schedule and select. */
  function PassOf(s: Sys): Sys {
    if MayReturn(s.loop) then s.(pc := Exited)
    else if s.loop.current.Some? || s.loop.ready == [] then s.(pc := Select)
    else
      var id := s.loop.ready[0];
      var s1 := s.(loop := Schedule(s.loop), pc := Select);
      if s.loop.stopping && id !in s.loop.started then SetPhase(s1, id, Dropped)
      else
        var s2 := s1.(grants := s.grants + {id});
        if id in s.loop.started then s2 else SetPhase(s2, id, Starting)
  }

  function Apply(o: Opts, s: Sys, a: Action): Sys {
    match a
    case TakeSlot(id) =>
      SetPhase(s, id, Admitting).(loop := HoldSlot(s.loop, id))
    case SeeDoneWhileAdmitting(id) => SetPhase(s, id, Rejected).(loop := ReleaseSlot(s.loop, id))
    case Enqueue(id) =>
      SetPhase(s, id, if s.loop.stopping then Dropped else Queued).(loop := OnEnqueue(s.loop, id), pc := Top)
    case Stop =>
      s.(loop := OnStop(s.loop), pc := Top, phase := DropAll(s.phase, Unstarted(s.loop.ready, s.loop.started)))
    case Pass => PassOf(s)
    case TakeGrant(id) => SetPhase(s, id, Running).(grants := s.grants - {id})
    case Yield(id) =>
      SetPhase(s, id, if YieldVerdict(o, s.loop, id) == Accepted then Waiting else Running)
        .(loop := OnYield(o, s.loop, id), pc := Top)
    case WaitReturns(id) => SetPhase(s, id, Resuming)
    case Resume(id) => SetPhase(s, id, Parked).(loop := OnResume(s.loop, id), pc := Top)
    case SeeDoneWhileResuming(id) => SetPhase(s, id, Running)
    case HandlerReturns(id) => SetPhase(s, id, Finishing)
    case Done(id) => SetPhase(s, id, Finished).(loop := OnDone(s.loop, id), pc := Top)
  }

  ghost predicate Step(o: Opts, s: Sys, a: Action, s': Sys) {
    Enabled(o, s, a) && s' == Apply(o, s, a)
  }

  /** `ss` are the states passed through by the actions `acts`, one by one. */
  ghost predicate IsPath(o: Opts, ss: seq<Sys>, acts: seq<Action>) {
    && |ss| == |acts| + 1
    && forall i :: 0 <= i < |acts| ==> Step(o, ss[i], acts[i], ss[i + 1])
  }

  ghost predicate IsRun(o: Opts, ss: seq<Sys>, acts: seq<Action>) {
    IsPath(o, ss, acts) && ss[0] == INIT
  }

  /** A run goes on with any step its last state allows. */
  lemma RunMore(o: Opts, ss: seq<Sys>, acts: seq<Action>, a: Action, s': Sys)
    requires IsRun(o, ss, acts) && Step(o, ss[|acts|], a, s')
    ensures IsRun(o, ss + [s'], acts + [a])
  {
    var ss', acts' := ss + [s'], acts + [a];
    forall i | 0 <= i < |acts'| ensures Step(o, ss'[i], acts'[i], ss'[i + 1]) {
      assert i < |acts| ==> Step(o, ss[i], acts[i], ss[i + 1]);
    }
  }

  // --------------------------------------------------------------- invariants

  /** The phases in which the activation's own code owns the turn. */
  predicate OwnsTurn(p: Phase) {
    p.Starting? || p.Running? || p.Finishing?
  }

  /** The phases in which the activation has yielded and not asked to resume. */
  predicate Away(p: Phase) {
    p.Waiting? || p.Resuming?
  }

  /** Where the loop keeps `id` is determined by the phase of its handler. */
  ghost predicate PlacedAt(s: Sys, id: Id) {
    var p := Ph(s, id);
    && (id in s.loop.ready <==> p.Queued? || (p.Parked? && id !in s.grants))
    && (id in s.loop.suspended <==> Away(p))
    && (s.loop.current == Some(id) <==> OwnsTurn(p) || (p.Parked? && id in s.grants))
    && (id in s.grants ==> p.Starting? || p.Parked?)
    && (p.Starting? ==> id in s.grants)
    && (id in s.loop.started <==> OwnsTurn(p) || Away(p) || p.Parked? || p.Finished?)
    && (id in s.loop.slotHeld <==> p.Admitting? || p.Queued?)
  }

  ghost predicate Placed(s: Sys) {
    Distinct(s.loop.ready) && forall id :: PlacedAt(s, id)
  }

  ghost predicate Bounded(o: Opts, s: Sys) {
    && |s.loop.suspended| <= o.maxSuspended
    && (s.pc.Select? && s.loop.current.None? ==> s.loop.ready == [])
    && (s.pc.Exited? ==> MayReturn(s.loop))
  }

  /** Once stopping, nothing that has not started is waiting for a turn. */
  ghost predicate StopClean(s: Sys) {
    s.loop.stopping ==> forall id :: id in s.loop.ready ==> id in s.loop.started
  }

  /** On a NoInterleave service nothing ever leaves its turn before it ends. */
  ghost predicate Atomic(o: Opts, s: Sys) {
    o.noInterleave ==> forall id :: !Away(Ph(s, id)) && !Ph(s, id).Parked?
  }

  ghost predicate SlotsConserved(o: Opts, s: Sys) {
    s.loop.slots == |s.loop.slotHeld| <= o.mailboxSize
  }

  lemma {:induction false} UnstartedElems(ids: seq<Id>, started: set<Id>)
    ensures forall id :: id in Unstarted(ids, started) <==> id in ids && id !in started
    ensures forall id :: id in Kept(ids, started) <==> id in ids && id in started
    ensures Distinct(ids) ==> Distinct(Unstarted(ids, started)) && Distinct(Kept(ids, started))
  {
    if ids == [] {
    } else {
      assert ids == ids[..|ids| - 1] + [ids[|ids| - 1]];
      UnstartedElems(ids[..|ids| - 1], started);
    }
  }

  lemma {:induction false} FinishAllEffect(l: Loop, ids: seq<Id>)
    requires Distinct(ids) && forall id :: id in ids ==> id in l.slotHeld
    ensures FinishAll(l, ids)
         == l.(slots := l.slots - |ids|, slotHeld := l.slotHeld - Elems(ids), failed := l.failed + ids)
  {
    if ids == [] {
    } else {
      var front, x := ids[..|ids| - 1], ids[|ids| - 1];
      FinishAllEffect(l, front);
      assert ids == front + [x];
      assert Elems(ids) == Elems(front) + {x};
    }
  }

  lemma StopEffect(s: Sys)
    requires Placed(s)
    ensures var dropped := Unstarted(s.loop.ready, s.loop.started);
      && Distinct(dropped) && Elems(dropped) <= s.loop.slotHeld
      && OnStop(s.loop) == s.loop.(stopping := true, ready := Kept(s.loop.ready, s.loop.started),
                                   slots := s.loop.slots - |dropped|, slotHeld := s.loop.slotHeld - Elems(dropped),
                                   failed := s.loop.failed + dropped)
  {
    var dropped := Unstarted(s.loop.ready, s.loop.started);
    UnstartedElems(s.loop.ready, s.loop.started);
    forall id | id in dropped ensures id in s.loop.slotHeld {
      assert PlacedAt(s, id);
    }
    FinishAllEffect(s.loop, dropped);
  }

  lemma PlacedStop(o: Opts, s: Sys)
    requires Placed(s) && Enabled(o, s, Stop)
    ensures Placed(Apply(o, s, Stop))
  {
    UnstartedElems(s.loop.ready, s.loop.started);
    StopEffect(s);
    forall id ensures PlacedAt(Apply(o, s, Stop), id) {
      assert PlacedAt(s, id);
    }
  }

  lemma {:induction false} PlacedPass(o: Opts, s: Sys)
    requires Placed(s) && Enabled(o, s, Pass)
    ensures Placed(Apply(o, s, Pass))
  {
    var s' := Apply(o, s, Pass);
    if !MayReturn(s.loop) && s.loop.current.None? && s.loop.ready != [] {
      assert s.loop.ready == [s.loop.ready[0]] + s.loop.ready[1..];
      assert PlacedAt(s, s.loop.ready[0]);
    }
    forall id ensures PlacedAt(s', id) {
      assert PlacedAt(s, id);
    }
  }

  /** A step about one envelope, seen from any envelope `id`. */
  lemma PlacedAtEvent(o: Opts, s: Sys, a: Action, id: Id)
    requires Bounded(o, s) && Enabled(o, s, a)
    requires a.Enqueue? || a.Yield? || a.Resume? || a.Done?
    requires PlacedAt(s, a.id) && PlacedAt(s, id)
    ensures PlacedAt(Apply(o, s, a), id)
  {
  }

  lemma PlacedAtLocal(o: Opts, s: Sys, a: Action, id: Id)
    requires Bounded(o, s) && Enabled(o, s, a) && !a.Stop? && !a.Pass?
    requires !(a.Enqueue? || a.Yield? || a.Resume? || a.Done?)
    requires PlacedAt(s, a.id) && PlacedAt(s, id)
    ensures PlacedAt(Apply(o, s, a), id)
  {
  }

  lemma PlacedStep(o: Opts, s: Sys, a: Action)
    requires Placed(s) && Bounded(o, s) && Enabled(o, s, a)
    ensures Placed(Apply(o, s, a))
  {
    if a.Stop? {
      PlacedStop(o, s);
    } else if a.Pass? {
      PlacedPass(o, s);
    } else {
      assert PlacedAt(s, a.id);
      forall id ensures PlacedAt(Apply(o, s, a), id) {
        assert PlacedAt(s, id);
        if a.Enqueue? || a.Yield? || a.Resume? || a.Done? {
          PlacedAtEvent(o, s, a, id);
        } else {
          PlacedAtLocal(o, s, a, id);
        }
      }
    }
  }

  lemma BoundedStep(o: Opts, s: Sys, a: Action)
    requires Placed(s) && Bounded(o, s) && StopClean(s) && Enabled(o, s, a)
    ensures Bounded(o, Apply(o, s, a))
  {
    if a.Stop? {
      StopEffect(s);
    } else if !a.Pass? {
      assert PlacedAt(s, a.id);
    }
  }

  lemma StopCleanStep(o: Opts, s: Sys, a: Action)
    requires Placed(s) && StopClean(s) && Enabled(o, s, a)
    ensures StopClean(Apply(o, s, a))
  {
    if a.Stop? {
      StopEffect(s);
      UnstartedElems(s.loop.ready, s.loop.started);
    } else if !a.Pass? {
      assert PlacedAt(s, a.id);
    }
  }

  lemma ReleaseCounts(l: Loop, id: Id)
    requires l.slots == |l.slotHeld|
    ensures ReleaseSlot(l, id).slots == |ReleaseSlot(l, id).slotHeld| <= |l.slotHeld|
  {
  }

  lemma SlotsPass(o: Opts, s: Sys)
    requires SlotsConserved(o, s)
    ensures SlotsConserved(o, PassOf(s))
  {
    var l := s.loop;
    if l.current.None? && l.ready != [] {
      ReleaseCounts(l.(ready := l.ready[1..]), l.ready[0]);
    }
  }

  /** Stop takes back one slot for each unstarted envelope, and that many are held. */
  lemma StopSlots(s: Sys)
    requires Placed(s)
    ensures var dropped := Unstarted(s.loop.ready, s.loop.started);
      |s.loop.slotHeld - Elems(dropped)| == |s.loop.slotHeld| - |dropped|
  {
    var dropped := Unstarted(s.loop.ready, s.loop.started);
    StopEffect(s);
    DistinctSize(dropped);
    SubtractSize(s.loop.slotHeld, Elems(dropped));
  }

  lemma SlotsStop(o: Opts, s: Sys)
    requires Placed(s) && SlotsConserved(o, s)
    ensures SlotsConserved(o, Apply(o, s, Stop))
  {
    StopEffect(s);
    StopSlots(s);
  }

  lemma SlotsStep(o: Opts, s: Sys, a: Action)
    requires Placed(s) && SlotsConserved(o, s) && Enabled(o, s, a)
    ensures SlotsConserved(o, Apply(o, s, a))
  {
    if a.Stop? {
      SlotsStop(o, s);
    } else if a.Pass? {
      SlotsPass(o, s);
    } else {
      assert PlacedAt(s, a.id);
      ReleaseCounts(s.loop, a.id);
    }
  }

  lemma AtomicStep(o: Opts, s: Sys, a: Action)
    requires Atomic(o, s) && Enabled(o, s, a)
    ensures Atomic(o, Apply(o, s, a))
  {
    var s' := Apply(o, s, a);
    forall id | o.noInterleave ensures !Away(Ph(s', id)) && !Ph(s', id).Parked? {
      assert !Away(Ph(s, id)) && !Ph(s, id).Parked?;
      if !a.Stop? && !a.Pass? {
        assert !Away(Ph(s, a.id)) && !Ph(s, a.id).Parked?;
      }
    }
  }

  ghost predicate Inv(o: Opts, s: Sys) {
    Placed(s) && Bounded(o, s) && StopClean(s) && SlotsConserved(o, s) && Atomic(o, s)
  }

  lemma InvStep(o: Opts, s: Sys, a: Action)
    requires Inv(o, s) && Enabled(o, s, a)
    ensures Inv(o, Apply(o, s, a))
  {
    PlacedStep(o, s, a);
    BoundedStep(o, s, a);
    StopCleanStep(o, s, a);
    SlotsStep(o, s, a);
    AtomicStep(o, s, a);
  }

  // ---------------------------------------------------------- order of starts

  /** Handlers start in mailbox order: what has been accepted is what has been
      started followed by what still waits to start, and Stop only cuts the tail. */
  ghost predicate Ordered(l: Loop) {
    && l.starts <= l.enqueued
    && (!l.stopping ==> l.enqueued == l.starts + Unstarted(l.ready, l.started))
  }

  lemma {:induction false} UnstartedConcat(x: seq<Id>, y: seq<Id>, started: set<Id>)
    ensures Unstarted(x + y, started) == Unstarted(x, started) + Unstarted(y, started)
  {
    if y == [] {
      assert x + y == x;
    } else {
      var y' := y[..|y| - 1];
      assert (x + y)[..|x + y| - 1] == x + y';
      UnstartedConcat(x, y', started);
    }
  }

  lemma {:induction false} UnstartedFrame(x: seq<Id>, started: set<Id>, id: Id)
    requires id !in x
    ensures Unstarted(x, started + {id}) == Unstarted(x, started)
  {
    if x == [] {
    } else {
      assert x[|x| - 1] != id;
      UnstartedFrame(x[..|x| - 1], started, id);
    }
  }

  /** Starting the head of the queue moves it from the unstarted to the started. */
  lemma {:induction false} StartHead(ready: seq<Id>, started: set<Id>)
    requires ready != [] && Distinct(ready)
    ensures Unstarted(ready, started)
      == (if ready[0] in started then [] else [ready[0]]) + Unstarted(ready[1..], started + {ready[0]})
  {
    var id, rest := ready[0], ready[1..];
    assert ready == [id] + rest;
    UnstartedConcat([id], rest, started);
    assert [id][..0] == [];
    assert id !in rest;
    UnstartedFrame(rest, started, id);
  }

  lemma {:induction false} OrderedBegin(l: Loop, l': Loop)
    requires l.ready != [] && Distinct(l.ready) && Ordered(l)
    requires l'.ready == l.ready[1..] && l'.enqueued == l.enqueued && l'.stopping == l.stopping
    requires l'.started == l.started + {l.ready[0]}
    requires l'.starts == if l.ready[0] in l.started then l.starts else l.starts + [l.ready[0]]
    requires l.stopping ==> l.ready[0] in l.started
    ensures Ordered(l')
  {
    StartHead(l.ready, l.started);
    var id, rest := l.ready[0], Unstarted(l'.ready, l'.started);
    if id in l.started {
      assert Unstarted(l.ready, l.started) == [] + rest == rest;
    } else {
      assert l.enqueued == l.starts + ([id] + rest) == l'.starts + rest;
    }
  }

  lemma {:induction false} OrderedPass(s: Sys)
    requires Distinct(s.loop.ready) && StopClean(s) && Ordered(s.loop)
    ensures Ordered(PassOf(s).loop)
  {
    var l := s.loop;
    if !MayReturn(l) && l.current.None? && l.ready != [] {
      OrderedBegin(l, Begin(l.(ready := l.ready[1..]), l.ready[0]));
    }
  }

  lemma {:induction false} OrderedStep(o: Opts, s: Sys, a: Action)
    requires Placed(s) && StopClean(s) && Ordered(s.loop) && Enabled(o, s, a)
    ensures Ordered(Apply(o, s, a).loop)
  {
    if a.Stop? {
      StopEffect(s);
    } else if a.Pass? {
      OrderedPass(s);
    } else {
      assert PlacedAt(s, a.id);
      UnstartedConcat(s.loop.ready, [a.id], s.loop.started);
      assert [a.id][..0] == [];
    }
  }

  // ------------------------------------------------------- interleaving marks

  /** While an activation is out of its turn, every segment begun since it
      yielded belongs to somebody else. */
  ghost predicate SegmentsAt(l: Loop, id: Id) {
    id in l.suspended || (id in l.ready && id in l.started) ==>
      && YieldAt(l, id) <= |l.segments|
      && id !in l.segments[YieldAt(l, id)..]
  }

  ghost predicate Segmented(o: Opts, s: Sys) {
    && s.loop.segmentSeq == |s.loop.segments|
    && (forall id :: SegmentsAt(s.loop, id))
    && (o.noInterleave ==> s.loop.version == map[])
  }

  lemma SegmentsAtPass(o: Opts, s: Sys, id: Id)
    requires Placed(s) && StopClean(s) && Segmented(o, s) && Enabled(o, s, Pass)
    ensures SegmentsAt(PassOf(s).loop, id)
  {
    assert SegmentsAt(s.loop, id);
    var l := s.loop;
    if !MayReturn(l) && l.current.None? && l.ready != [] {
      assert l.ready == [l.ready[0]] + l.ready[1..];
      assert PlacedAt(s, l.ready[0]) && PlacedAt(s, id);
      var l' := PassOf(s).loop;
      if id != l.ready[0] && (id in l.suspended || (id in l.ready && id in l.started)) {
        assert l'.segments[YieldAt(l, id)..] == l.segments[YieldAt(l, id)..] + [l.ready[0]];
      }
    }
  }

  lemma SegmentsAtEvent(o: Opts, s: Sys, a: Action, id: Id)
    requires Enabled(o, s, a) && !a.Pass? && !a.Stop?
    requires PlacedAt(s, a.id) && PlacedAt(s, id) && SegmentsAt(s.loop, id) && s.loop.segmentSeq == |s.loop.segments|
    ensures SegmentsAt(Apply(o, s, a).loop, id)
  {
  }

  lemma SegmentedStep(o: Opts, s: Sys, a: Action)
    requires Inv(o, s) && Segmented(o, s) && Enabled(o, s, a)
    ensures Segmented(o, Apply(o, s, a))
  {
    forall id ensures SegmentsAt(Apply(o, s, a).loop, id) {
      assert SegmentsAt(s.loop, id);
      if a.Stop? {
        StopEffect(s);
        UnstartedElems(s.loop.ready, s.loop.started);
      } else if a.Pass? {
        SegmentsAtPass(o, s, id);
      } else {
        assert PlacedAt(s, a.id) && PlacedAt(s, id);
        SegmentsAtEvent(o, s, a, id);
      }
    }
    if a.Stop? {
      StopEffect(s);
    } else if a.Pass? && s.loop.ready != [] {
      assert PlacedAt(s, s.loop.ready[0]);
      assert o.noInterleave ==> !Ph(s, s.loop.ready[0]).Parked?;
    }
  }

  ghost predicate FullInv(o: Opts, s: Sys) {
    Inv(o, s) && Ordered(s.loop) && Segmented(o, s)
  }

  lemma FullInvStep(o: Opts, s: Sys, a: Action)
    requires FullInv(o, s) && Enabled(o, s, a)
    ensures FullInv(o, Apply(o, s, a))
  {
    InvStep(o, s, a);
    OrderedStep(o, s, a);
    SegmentedStep(o, s, a);
  }

  lemma {:induction false} FullInvRun(o: Opts, ss: seq<Sys>, acts: seq<Action>, i: nat)
    requires IsRun(o, ss, acts) && i < |ss|
    ensures FullInv(o, ss[i])
  {
    if i == 0 {
      assert forall id :: PlacedAt(INIT, id) && SegmentsAt(INIT.loop, id);
    } else {
      FullInvRun(o, ss, acts, i - 1);
      assert Step(o, ss[i - 1], acts[i - 1], ss[i]);
      FullInvStep(o, ss[i - 1], acts[i - 1]);
    }
  }

  // ------------------------------------------------------------- main results

  /** In how many of the loop's three places `id` is. */
  function Places(l: Loop, id: Id): nat {
    (if l.current == Some(id) then 1 else 0) + (if id in l.ready then 1 else 0) + (if id in l.suspended then 1 else 0)
  }

  /** Scheduler safety, for every state of every run: a live activation is in
      exactly one place and any other id in none, handler code runs only for the
      activation that owns the turn, the suspended set is bounded, and `done` is
      closed only when nothing is live. */
  lemma SchedulerSafety(o: Opts, ss: seq<Sys>, acts: seq<Action>, i: nat)
    requires IsRun(o, ss, acts) && i < |ss|
    ensures forall id :: Places(ss[i].loop, id) == if Live(Ph(ss[i], id)) then 1 else 0
    ensures Distinct(ss[i].loop.ready)
    ensures forall id :: Ph(ss[i], id).Running? ==> ss[i].loop.current == Some(id)
    ensures |ss[i].loop.suspended| <= o.maxSuspended
    ensures ss[i].pc.Exited? ==> forall id :: !Live(Ph(ss[i], id))
  {
    var s := ss[i];
    FullInvRun(o, ss, acts, i);
    forall id ensures Places(s.loop, id) == if Live(Ph(s, id)) then 1 else 0 {
      assert PlacedAt(s, id);
    }
    forall id | Ph(s, id).Running? ensures s.loop.current == Some(id) {
      assert PlacedAt(s, id);
    }
    forall id | s.pc.Exited? ensures !Live(Ph(s, id)) {
      assert PlacedAt(s, id);
    }
  }

  /** Code the loop carries for cases that cannot arise: a yield is never
      refused for not running, no waiting handler sees `done` closed, the
      scheduler never meets an unstarted activation after Stop, and the grant
      and slot channels never block the loop. */
  lemma DefensiveBranchesDead(o: Opts, ss: seq<Sys>, acts: seq<Action>, i: nat)
    requires IsRun(o, ss, acts) && i < |acts|
    ensures acts[i].Yield? ==> YieldVerdict(o, ss[i].loop, acts[i].id) in {Accepted, SuspendLimit}
    ensures !acts[i].SeeDoneWhileResuming?
    ensures acts[i].Pass? && ss[i].loop.current.None? && ss[i].loop.ready != [] ==>
      var id := ss[i].loop.ready[0];
      (ss[i].loop.stopping ==> id in ss[i].loop.started) && id !in ss[i].grants
    ensures ss[i + 1].loop.slotHeld < ss[i].loop.slotHeld ==> ss[i].loop.slots > 0
    ensures acts[i].Stop? ==> ss[i].loop.slots >= |Unstarted(ss[i].loop.ready, ss[i].loop.started)|
  {
    var s, a := ss[i], acts[i];
    FullInvRun(o, ss, acts, i);
    assert Step(o, s, a, ss[i + 1]);
    if a.Yield? || a.SeeDoneWhileResuming? {
      assert PlacedAt(s, a.id);
    } else if s.loop.ready != [] {
      assert PlacedAt(s, s.loop.ready[0]);
    }
    if ss[i + 1].loop.slotHeld < s.loop.slotHeld {
      assert s.loop.slotHeld != {};
    }
    if a.Stop? {
      StopSlots(s);
    }
  }

  /** Handlers start in the order in which the mailbox accepted their envelopes,
      with none skipped. */
  lemma StartsInMailboxOrder(o: Opts, ss: seq<Sys>, acts: seq<Action>, i: nat)
    requires IsRun(o, ss, acts) && i < |ss|
    ensures ss[i].loop.starts <= ss[i].loop.enqueued
  {
    FullInvRun(o, ss, acts, i);
  }

  /** Slot occupancy is exactly the envelopes between taking a slot and leaving
      the queue, and never exceeds the mailbox size. */
  lemma SlotConservation(o: Opts, ss: seq<Sys>, acts: seq<Action>, i: nat, ids: set<Id>)
    requires IsRun(o, ss, acts) && i < |ss|
    requires forall id :: id in ids <==> Ph(ss[i], id) in {Admitting, Queued}
    ensures ss[i].loop.slots == |ids| <= o.mailboxSize
  {
    FullInvRun(o, ss, acts, i);
    forall id ensures id in ids <==> id in ss[i].loop.slotHeld {
      assert PlacedAt(ss[i], id);
    }
    assert ids == ss[i].loop.slotHeld;
  }

  /** `id` held a slot and gave it up. */
  predicate SlotGone(s: Sys, id: Id) {
    var p := Ph(s, id); !(p.New? || p.Admitting? || p.Queued?)
  }

  lemma SlotStaysGone(o: Opts, s: Sys, a: Action, s': Sys, id: Id)
    requires Placed(s) && Step(o, s, a, s') && SlotGone(s, id)
    ensures SlotGone(s', id)
  {
    assert PlacedAt(s, id);
  }

  lemma {:induction false} SlotGoneRun(o: Opts, ss: seq<Sys>, acts: seq<Action>, i: nat, j: nat, id: Id)
    requires IsRun(o, ss, acts) && i <= j < |ss| && SlotGone(ss[i], id)
    ensures SlotGone(ss[j], id)
  {
    if i == j {
    } else {
      SlotGoneRun(o, ss, acts, i, j - 1, id);
      FullInvRun(o, ss, acts, j - 1);
      assert Step(o, ss[j - 1], acts[j - 1], ss[j]);
      SlotStaysGone(o, ss[j - 1], acts[j - 1], ss[j], id);
    }
  }

  /** A slot once released is never held, and so never released, again. */
  lemma SlotReleasedOnce(o: Opts, ss: seq<Sys>, acts: seq<Action>, i: nat, j: nat, id: Id)
    requires IsRun(o, ss, acts) && i <= j < |ss| && SlotGone(ss[i], id)
    ensures SlotGone(ss[j], id) && id !in ss[j].loop.slotHeld
  {
    SlotGoneRun(o, ss, acts, i, j, id);
    FullInvRun(o, ss, acts, j);
    assert PlacedAt(ss[j], id);
  }

  /** The envelopes the loop answered with an error are the dropped ones, each answered once. */
  ghost predicate FailedAt(s: Sys, id: Id) {
    id in s.loop.failed <==> Ph(s, id).Dropped?
  }

  ghost predicate Answered(s: Sys) {
    Distinct(s.loop.failed) && forall id :: FailedAt(s, id)
  }

  lemma DistinctAppend(a: seq<Id>, b: seq<Id>)
    requires Distinct(a) && Distinct(b) && forall id :: id in b ==> id !in a
    ensures Distinct(a + b)
  {
    forall i, j | 0 <= i < j < |a + b| ensures (a + b)[i] != (a + b)[j] {
      if i < |a| <= j {
        assert (a + b)[j] in b;
      }
    }
  }

  lemma AnsweredStop(o: Opts, s: Sys)
    requires Placed(s) && Answered(s)
    ensures Answered(Apply(o, s, Stop))
  {
    var s', dropped := Apply(o, s, Stop), Unstarted(s.loop.ready, s.loop.started);
    StopEffect(s);
    UnstartedElems(s.loop.ready, s.loop.started);
    forall id ensures FailedAt(s', id) && (id in dropped ==> id !in s.loop.failed) {
      assert FailedAt(s, id) && PlacedAt(s, id);
    }
    DistinctAppend(s.loop.failed, dropped);
  }

  lemma AnsweredPass(s: Sys)
    requires Placed(s) && StopClean(s) && Answered(s)
    ensures Answered(PassOf(s)) && PassOf(s).loop.failed == s.loop.failed
  {
    forall id ensures FailedAt(PassOf(s), id) {
      assert FailedAt(s, id) && PlacedAt(s, id);
    }
  }

  lemma FailedAtEvent(o: Opts, s: Sys, a: Action, id: Id)
    requires Enabled(o, s, a) && !a.Pass? && !a.Stop? && FailedAt(s, id) && FailedAt(s, a.id)
    ensures FailedAt(Apply(o, s, a), id)
  {
  }

  lemma AnsweredStep(o: Opts, s: Sys, a: Action)
    requires Placed(s) && StopClean(s) && Answered(s) && Enabled(o, s, a)
    ensures Answered(Apply(o, s, a))
  {
    if a.Stop? {
      AnsweredStop(o, s);
    } else if a.Pass? {
      AnsweredPass(s);
    } else {
      assert FailedAt(s, a.id);
      forall id ensures FailedAt(Apply(o, s, a), id) {
        assert FailedAt(s, id);
        FailedAtEvent(o, s, a, id);
      }
    }
  }

  lemma {:induction false} AnsweredRun(o: Opts, ss: seq<Sys>, acts: seq<Action>, i: nat)
    requires IsRun(o, ss, acts) && i < |ss|
    ensures Answered(ss[i])
  {
    if i == 0 {
      assert forall id :: FailedAt(INIT, id);
    } else {
      AnsweredRun(o, ss, acts, i - 1);
      FullInvRun(o, ss, acts, i - 1);
      assert Step(o, ss[i - 1], acts[i - 1], ss[i]);
      AnsweredStep(o, ss[i - 1], acts[i - 1]);
    }
  }

  /** In every state of every run the loop itself has answered exactly the
      envelopes that were accepted or offered and never started, each once. */
  lemma DroppedAnsweredOnce(o: Opts, ss: seq<Sys>, acts: seq<Action>, i: nat, id: Id)
    requires IsRun(o, ss, acts) && i < |ss|
    ensures Distinct(ss[i].loop.failed)
    ensures id in ss[i].loop.failed <==> Ph(ss[i], id).Dropped?
    ensures id in ss[i].loop.failed ==> id !in ss[i].loop.started && id !in ss[i].loop.slotHeld
  {
    AnsweredRun(o, ss, acts, i);
    FullInvRun(o, ss, acts, i);
    assert FailedAt(ss[i], id) && PlacedAt(ss[i], id);
  }

  // -------------------------------------------------- what each step decides

  /** Stop was among the first `i` actions. */
  ghost predicate Stopped(acts: seq<Action>, i: nat)
    requires i <= |acts|
  {
    exists k :: 0 <= k < i && acts[k].Stop?
  }

  lemma StoppingStep(o: Opts, s: Sys, a: Action)
    requires Placed(s) && Enabled(o, s, a)
    ensures Apply(o, s, a).loop.stopping <==> s.loop.stopping || a.Stop?
  {
    if a.Stop? {
      StopEffect(s);
    }
  }

  lemma {:induction false} StoppingIff(o: Opts, ss: seq<Sys>, acts: seq<Action>, i: nat)
    requires IsRun(o, ss, acts) && i < |ss|
    ensures ss[i].loop.stopping <==> Stopped(acts, i)
  {
    if i == 0 {
    } else {
      StoppingIff(o, ss, acts, i - 1);
      FullInvRun(o, ss, acts, i - 1);
      assert Step(o, ss[i - 1], acts[i - 1], ss[i]);
      StoppingStep(o, ss[i - 1], acts[i - 1]);
      if Stopped(acts, i - 1) {
        var k :| 0 <= k < i - 1 && acts[k].Stop?;
        assert 0 <= k < i && acts[k].Stop?;
      }
    }
  }

  /** A yield is accepted if and only if fewer activations than the limit allows
      are away from their turn; otherwise the handler goes on running. */
  lemma YieldAcceptedIff(o: Opts, ss: seq<Sys>, acts: seq<Action>, i: nat, away: set<Id>)
    requires IsRun(o, ss, acts) && i < |acts| && acts[i].Yield?
    requires forall id :: id in away <==> Away(Ph(ss[i], id))
    ensures Ph(ss[i + 1], acts[i].id).Waiting? <==> |away| < o.maxSuspended
    ensures Ph(ss[i + 1], acts[i].id).Running? <==> |away| >= o.maxSuspended
  {
    FullInvRun(o, ss, acts, i);
    assert Step(o, ss[i], acts[i], ss[i + 1]);
    assert PlacedAt(ss[i], acts[i].id);
    forall id ensures id in away <==> id in ss[i].loop.suspended {
      assert PlacedAt(ss[i], id);
    }
    assert away == ss[i].loop.suspended;
  }

  /** An envelope handed to the loop is queued if Stop has not come, and dropped if it has. */
  lemma EnqueueAcceptedIff(o: Opts, ss: seq<Sys>, acts: seq<Action>, i: nat)
    requires IsRun(o, ss, acts) && i < |acts| && acts[i].Enqueue?
    ensures Ph(ss[i + 1], acts[i].id) == if Stopped(acts, i) then Dropped else Queued
    ensures acts[i].id in ss[i + 1].loop.enqueued <==> !Stopped(acts, i) || acts[i].id in ss[i].loop.enqueued
  {
    StoppingIff(o, ss, acts, i);
    assert Step(o, ss[i], acts[i], ss[i + 1]);
  }

  /** Stop drops exactly the envelopes whose handlers have not started. */
  lemma StopDropsExactly(o: Opts, ss: seq<Sys>, acts: seq<Action>, i: nat, id: Id)
    requires IsRun(o, ss, acts) && i < |acts| && acts[i].Stop?
    ensures Ph(ss[i + 1], id) == if Ph(ss[i], id).Queued? then Dropped else Ph(ss[i], id)
  {
    FullInvRun(o, ss, acts, i);
    assert Step(o, ss[i], acts[i], ss[i + 1]);
    assert PlacedAt(ss[i], id);
    UnstartedElems(ss[i].loop.ready, ss[i].loop.started);
  }

  /** At the top of the loop: it returns if and only if Stop has come and no
      activation is live. */
  lemma ReturnsIff(o: Opts, ss: seq<Sys>, acts: seq<Action>, i: nat)
    requires IsRun(o, ss, acts) && i < |acts| && acts[i].Pass?
    ensures ss[i + 1].pc.Exited? <==> Stopped(acts, i) && forall id :: !Live(Ph(ss[i], id))
  {
    var s := ss[i];
    StoppingIff(o, ss, acts, i);
    FullInvRun(o, ss, acts, i);
    assert Step(o, s, acts[i], ss[i + 1]);
    if MayReturn(s.loop) {
      forall id ensures !Live(Ph(s, id)) {
        assert PlacedAt(s, id);
      }
    } else if s.loop.stopping {
      LiveSomewhere(s);
    }
  }

  lemma LiveSomewhere(s: Sys)
    requires Placed(s) && (s.loop.current.Some? || s.loop.ready != [] || s.loop.suspended != {})
    ensures exists id :: Live(Ph(s, id))
  {
    if s.loop.current.Some? {
      assert PlacedAt(s, s.loop.current.value) && Live(Ph(s, s.loop.current.value));
    } else if s.loop.ready != [] {
      assert PlacedAt(s, s.loop.ready[0]) && Live(Ph(s, s.loop.ready[0]));
    } else {
      assert (forall id :: id !in s.loop.suspended) ==> s.loop.suspended == {};
      var id :| id in s.loop.suspended;
      assert PlacedAt(s, id) && Live(Ph(s, id));
    }
  }

  /** The activation has the turn, used or granted and not yet taken up. */
  predicate HasTurn(s: Sys, id: Id) {
    OwnsTurn(Ph(s, id)) || (Ph(s, id).Parked? && id in s.grants)
  }

  /** The loop never idles: whenever it waits for events while no activation has
      the turn, none is waiting for one; and whoever has the turn is running, has
      just finished, or finds its grant ready. */
  lemma WorkConserving(o: Opts, ss: seq<Sys>, acts: seq<Action>, i: nat, id: Id)
    requires IsRun(o, ss, acts) && i < |ss|
    ensures ss[i].pc.Select? && (forall x :: !HasTurn(ss[i], x)) ==> !Ph(ss[i], id).Queued? && !Ph(ss[i], id).Parked?
    ensures HasTurn(ss[i], id) ==>
      Ph(ss[i], id).Running? || Ph(ss[i], id).Finishing? || Enabled(o, ss[i], TakeGrant(id))
  {
    var s := ss[i];
    FullInvRun(o, ss, acts, i);
    assert PlacedAt(s, id);
    if s.loop.current.Some? {
      assert PlacedAt(s, s.loop.current.value) && HasTurn(s, s.loop.current.value);
    }
  }

  /** A slot can be taken if and only if fewer envelopes than the mailbox holds are
      being admitted or queued. */
  lemma SlotFreeIff(o: Opts, ss: seq<Sys>, acts: seq<Action>, i: nat, ids: set<Id>, id: Id)
    requires IsRun(o, ss, acts) && i < |ss| && Ph(ss[i], id).New?
    requires forall x :: x in ids <==> Ph(ss[i], x) in {Admitting, Queued}
    ensures Enabled(o, ss[i], TakeSlot(id)) <==> |ids| < o.mailboxSize
  {
    SlotConservation(o, ss, acts, i, ids);
  }

  /** Some segment in `segs[from..to]` belongs to an activation other than `id`. */
  ghost predicate Others(segs: seq<Id>, from: nat, to: nat, id: Id)
    requires to <= |segs|
  {
    exists m :: from <= m < to && segs[m] != id
  }

  lemma OthersAppend(segs: seq<Id>, from: nat, y: nat, id: Id)
    requires from <= y <= |segs| && id !in segs[y..]
    ensures Others(segs + [id], from, |segs| + 1, id) <==> Others(segs, from, y, id) || y < |segs|
  {
    var t := segs + [id];
    if y < |segs| {
      assert segs[y] in segs[y..];
      assert t[y] != id;
    } else if m :| from <= m < y && segs[m] != id {
      assert t[m] != id;
    }
  }

  lemma OthersKept(segs: seq<Id>, x: Id, from: nat, to: nat, id: Id)
    requires to <= |segs|
    ensures Others(segs + [x], from, to, id) <==> Others(segs, from, to, id)
  {
    assert forall m :: 0 <= m < to ==> (segs + [x])[m] == segs[m];
    if m :| from <= m < to && segs[m] != id {
      assert (segs + [x])[m] != id;
    }
  }

  /** What a mark (`v0` taken when `h0` segments had begun) means in a later state. */
  ghost predicate MarkMeans(s: Sys, id: Id, v0: nat, h0: nat) {
    var l := s.loop;
    Ph(s, id).Finished? ||
    (&& Live(Ph(s, id)) && id in l.started && v0 <= Version(l, id)
     && if l.current == Some(id)
        then h0 <= |l.segments| && (Version(l, id) != v0 <==> Others(l.segments, h0, |l.segments|, id))
        else h0 <= YieldAt(l, id) <= |l.segments|
             && (Version(l, id) != v0 <==> Others(l.segments, h0, YieldAt(l, id), id)))
  }

  lemma {:induction false} MarkPass(o: Opts, s: Sys, id: Id, v0: nat, h0: nat)
    requires FullInv(o, s) && s.pc.Top? && MarkMeans(s, id, v0, h0)
    ensures MarkMeans(PassOf(s), id, v0, h0)
  {
    var l, l' := s.loop, PassOf(s).loop;
    assert PlacedAt(s, id) && SegmentsAt(l, id);
    if !MayReturn(l) && l.current.None? && l.ready != [] {
      var x := l.ready[0];
      assert PlacedAt(s, x);
      assert l'.segments == l.segments + [x];
      if x == id && !Ph(s, id).Finished? {
        var y, n := YieldAt(l, id), |l.segments|;
        OthersAppend(l.segments, h0, y, id);
      } else if !Ph(s, id).Finished? {
        OthersKept(l.segments, x, h0, YieldAt(l, id), id);
      }
    }
  }

  lemma MarkEvent(o: Opts, s: Sys, a: Action, id: Id, v0: nat, h0: nat)
    requires Enabled(o, s, a) && !a.Pass? && !a.Stop? && MarkMeans(s, id, v0, h0)
    requires PlacedAt(s, id) && PlacedAt(s, a.id) && s.loop.segmentSeq == |s.loop.segments|
    ensures MarkMeans(Apply(o, s, a), id, v0, h0)
  {
  }

  lemma MarkStop(o: Opts, s: Sys, id: Id, v0: nat, h0: nat)
    requires Placed(s) && MarkMeans(s, id, v0, h0)
    ensures MarkMeans(Apply(o, s, Stop), id, v0, h0)
  {
    assert PlacedAt(s, id);
    StopEffect(s);
    UnstartedElems(s.loop.ready, s.loop.started);
  }

  lemma MarkStep(o: Opts, s: Sys, a: Action, id: Id, v0: nat, h0: nat)
    requires FullInv(o, s) && Enabled(o, s, a) && MarkMeans(s, id, v0, h0)
    ensures MarkMeans(Apply(o, s, a), id, v0, h0)
  {
    if a.Stop? {
      MarkStop(o, s, id, v0, h0);
    } else if a.Pass? {
      MarkPass(o, s, id, v0, h0);
    } else {
      assert PlacedAt(s, id) && PlacedAt(s, a.id);
      MarkEvent(o, s, a, id, v0, h0);
    }
  }

  lemma {:induction false} MarkRun(o: Opts, ss: seq<Sys>, acts: seq<Action>, i: nat, j: nat, id: Id)
    requires IsRun(o, ss, acts) && i <= j < |ss| && ss[i].loop.current == Some(id)
    ensures MarkMeans(ss[j], id, Version(ss[i].loop, id), |ss[i].loop.segments|)
  {
    FullInvRun(o, ss, acts, i);
    assert PlacedAt(ss[i], id);
    if i == j {
    } else {
      MarkRun(o, ss, acts, i, j - 1, id);
      FullInvRun(o, ss, acts, j - 1);
      assert Step(o, ss[j - 1], acts[j - 1], ss[j]);
      MarkStep(o, ss[j - 1], acts[j - 1], id, Version(ss[i].loop, id), |ss[i].loop.segments|);
    }
  }

  /** The version an activation's mark records. */
  function MarkTurn(s: Sys, id: Id): nat {
    Version(s.loop, id)
  }

  predicate InterleavedSince(s: Sys, id: Id, mark: nat) {
    Version(s.loop, id) != mark
  }

  /** A mark taken in one state of a run and queried in a later one, both while
      the activation holds its turn, reports interleaving if and only if another
      activation's segment began in between; on a NoInterleave service it never does. */
  lemma InterleavingExact(o: Opts, ss: seq<Sys>, acts: seq<Action>, i: nat, j: nat, id: Id)
    requires IsRun(o, ss, acts) && i <= j < |ss|
    requires ss[i].loop.current == Some(id) && ss[j].loop.current == Some(id)
    ensures InterleavedSince(ss[j], id, MarkTurn(ss[i], id))
            <==> exists m :: |ss[i].loop.segments| <= m < |ss[j].loop.segments| && ss[j].loop.segments[m] != id
    ensures o.noInterleave ==> !InterleavedSince(ss[j], id, MarkTurn(ss[i], id))
  {
    MarkRun(o, ss, acts, i, j, id);
    FullInvRun(o, ss, acts, i);
    FullInvRun(o, ss, acts, j);
    assert PlacedAt(ss[j], id);
  }

  /** `id` had its turn among the `k + 1` segments from `h`, or was dropped by
      Stop, or still waits with at most the rest of those segments ahead of it. */
  ghost predicate TurnDue(s: Sys, id: Id, h: nat, k: nat) {
    || (exists m :: h <= m <= h + k && m < |s.loop.segments| && s.loop.segments[m] == id)
    || Ph(s, id).Dropped?
    || (h <= |s.loop.segments|
        && exists p :: 0 <= p < |s.loop.ready| && s.loop.ready[p] == id && p + |s.loop.segments| <= h + k)
  }

  lemma {:induction false} KeptPosition(ids: seq<Id>, started: set<Id>, p: nat)
    requires p < |ids| && ids[p] in started
    ensures exists q :: 0 <= q < |Kept(ids, started)| && q <= p && Kept(ids, started)[q] == ids[p]
  {
    if p == |ids| - 1 {
      KeptShorter(ids[..p], started);
      var q := |Kept(ids[..p], started)|;
      assert Kept(ids, started)[q] == ids[p];
    } else {
      var front := ids[..|ids| - 1];
      KeptPosition(front, started, p);
      var q :| 0 <= q < |Kept(front, started)| && q <= p && Kept(front, started)[q] == ids[p];
      assert Kept(ids, started)[q] == ids[p];
    }
  }

  lemma KeptShorter(ids: seq<Id>, started: set<Id>)
    ensures |Kept(ids, started)| <= |ids|
  {
  }

  lemma TurnDuePass(o: Opts, s: Sys, id: Id, h: nat, k: nat, p: nat)
    requires FullInv(o, s) && s.pc.Top? && h <= |s.loop.segments|
    requires p < |s.loop.ready| && s.loop.ready[p] == id && p + |s.loop.segments| <= h + k
    ensures TurnDue(PassOf(s), id, h, k)
  {
    var l, l' := s.loop, PassOf(s).loop;
    if l.current.None? {
      assert PlacedAt(s, l.ready[0]);
      if p == 0 {
        assert l'.segments[|l.segments|] == id;
      } else {
        assert l'.ready[p - 1] == id;
      }
    } else {
      assert l'.ready[p] == id;
    }
  }

  lemma {:induction false} TurnDueKept(s: Sys, s': Sys, h: nat, k: nat, p: nat)
    requires p < |s.loop.ready| && s.loop.ready[p] in s.loop.started && p + |s.loop.segments| <= h + k
    requires s'.loop.ready == Kept(s.loop.ready, s.loop.started) && h <= |s'.loop.segments| == |s.loop.segments|
    ensures TurnDue(s', s.loop.ready[p], h, k)
  {
    var kept := Kept(s.loop.ready, s.loop.started);
    KeptPosition(s.loop.ready, s.loop.started, p);
    var q :| 0 <= q < |kept| && q <= p && kept[q] == s.loop.ready[p];
    assert s'.loop.ready[q] == s.loop.ready[p];
  }

  lemma TurnDueStop(o: Opts, s: Sys, id: Id, h: nat, k: nat, p: nat)
    requires Placed(s) && h <= |s.loop.segments|
    requires p < |s.loop.ready| && s.loop.ready[p] == id && p + |s.loop.segments| <= h + k
    ensures TurnDue(Apply(o, s, Stop), id, h, k)
  {
    StopEffect(s);
    if id in s.loop.started {
      TurnDueKept(s, Apply(o, s, Stop), h, k, p);
    } else {
      UnstartedElems(s.loop.ready, s.loop.started);
      assert id in Unstarted(s.loop.ready, s.loop.started);
    }
  }

  /** Segments are only added, a dropped envelope stays dropped, and events only
      append to the ready queue. */
  lemma QueueMoves(o: Opts, s: Sys, a: Action, id: Id)
    requires Placed(s) && StopClean(s) && Enabled(o, s, a)
    ensures s.loop.segments <= Apply(o, s, a).loop.segments
    ensures Ph(s, id).Dropped? ==> Ph(Apply(o, s, a), id).Dropped?
    ensures !a.Stop? && !a.Pass? ==>
      s.loop.ready <= Apply(o, s, a).loop.ready && s.loop.segments == Apply(o, s, a).loop.segments
  {
    if a.Stop? {
      StopEffect(s);
      UnstartedElems(s.loop.ready, s.loop.started);
    } else if a.Pass? {
      assert PlacedAt(s, id);
    } else {
      assert PlacedAt(s, a.id);
    }
  }

  lemma TurnDueStep(o: Opts, s: Sys, a: Action, id: Id, h: nat, k: nat)
    requires FullInv(o, s) && Enabled(o, s, a) && TurnDue(s, id, h, k)
    ensures TurnDue(Apply(o, s, a), id, h, k)
  {
    var s' := Apply(o, s, a);
    QueueMoves(o, s, a, id);
    if m :| h <= m <= h + k && m < |s.loop.segments| && s.loop.segments[m] == id {
      assert s'.loop.segments[m] == id;
    } else if !Ph(s, id).Dropped? {
      var p :| 0 <= p < |s.loop.ready| && s.loop.ready[p] == id && p + |s.loop.segments| <= h + k;
      if a.Stop? {
        TurnDueStop(o, s, id, h, k, p);
      } else if a.Pass? {
        TurnDuePass(o, s, id, h, k, p);
      } else {
        assert s'.loop.ready[p] == id;
      }
    }
  }

  lemma TurnDueNext(o: Opts, ss: seq<Sys>, acts: seq<Action>, i: nat, id: Id, h: nat, k: nat)
    requires IsRun(o, ss, acts) && i < |acts| && TurnDue(ss[i], id, h, k)
    ensures TurnDue(ss[i + 1], id, h, k)
  {
    FullInvRun(o, ss, acts, i);
    assert Step(o, ss[i], acts[i], ss[i + 1]);
    TurnDueStep(o, ss[i], acts[i], id, h, k);
  }

  lemma {:induction false} TurnDueRun(o: Opts, ss: seq<Sys>, acts: seq<Action>, i: nat, j: nat, id: Id, h: nat, k: nat)
    requires IsRun(o, ss, acts) && i <= j < |ss| && TurnDue(ss[i], id, h, k)
    ensures TurnDue(ss[j], id, h, k)
  {
    if i == j {
    } else {
      TurnDueRun(o, ss, acts, i, j - 1, id, h, k);
      TurnDueNext(o, ss, acts, j - 1, id, h, k);
    }
  }

  /** The activation at position `k` of the ready queue gets its turn after at
      most `k` further segments: of any `k + 1` segments begun from then on, one
      of the first `k + 1` is its own, unless Stop dropped it before it started. */
  lemma BoundedOvertaking(o: Opts, ss: seq<Sys>, acts: seq<Action>, i: nat, j: nat, k: nat)
    requires IsRun(o, ss, acts) && i <= j < |ss| && k < |ss[i].loop.ready|
    requires |ss[j].loop.segments| > |ss[i].loop.segments| + k
    ensures var id, h := ss[i].loop.ready[k], |ss[i].loop.segments|;
      id in ss[j].loop.segments[h..h + k + 1] || Ph(ss[j], id).Dropped?
  {
    var id, h := ss[i].loop.ready[k], |ss[i].loop.segments|;
    TurnDueRun(o, ss, acts, i, j, id, h, k);
    if m :| h <= m <= h + k && m < |ss[j].loop.segments| && ss[j].loop.segments[m] == id {
      assert ss[j].loop.segments[h..h + k + 1][m - h] == id;
    }
  }
}
