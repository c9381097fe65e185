/**
 Drain over a running service: the tracker of `Drain` and the event loop of
 `ServiceRuntime` side by side.  Each step of the service does to the tracker
 what the code does there: an envelope is tracked before it asks for a slot,
 becomes an activation when the loop receives it, and is finished when its
 admission fails, its handler returns or the loop answers it.
 */
module DrainService {
  import opened Basics
  import D = Drain
  import R = ServiceRuntime

  type Id = int

  /** `mine` are the envelopes of this service; other services share the tracker. */
  datatype Sys = Sys(d: D.Sys, rt: R.Sys, mine: set<Id>)

  const INIT := Sys(D.INIT, R.INIT, {})

  /** `Track` is the start of an admission, with its context; `AdmissionFails` ends
      one that got no slot; `failed` says how a handler that returns ends. */
  datatype Action =
    | Track(c: D.Ctx, id: Id)
    | AdmissionFails(id: Id)
    | OnService(r: R.Action, failed: bool)
    | Elsewhere(a: D.Action)

  /** The envelope an action of the tracker is about, if it is about one. */
  function Subject(a: D.Action): Option<Id> {
    match a
    case Admit(_, env) => Some(env)
    case HandOver(env) => Some(env)
    case AdmitFails(env) => Some(env)
    case Finish(env, _) => Some(env)
    case _ => None
  }

  predicate Enabled(o: R.Opts, s: Sys, a: Action) {
    match a
    case Track(_, id) => id !in s.d.issued
    case AdmissionFails(id) => id in s.mine && R.Ph(s.rt, id).New?
    case OnService(r, _) => R.Enabled(o, s.rt, r) && (r.TakeSlot? ==> r.id in s.mine && r.id in s.d.d.tracked)
    case Elsewhere(a) => D.Enabled(s.d, a) && (Subject(a).Some? ==> Subject(a).value !in s.mine)
  }

  function Finishes(ids: seq<Id>): seq<D.Action> {
    seq(|ids|, k requires 0 <= k < |ids| => D.Finish(ids[k], true))
  }

  /** The pass answers an unstarted activation instead of starting it. */
  predicate PassDrops(l: R.Loop) {
    !R.MayReturn(l) && l.current.None? && l.ready != [] && l.stopping && l.ready[0] !in l.started
  }

  /** What a step does to the tracker, one locked section after the other. */
  function Effects(s: Sys, a: Action): seq<D.Action> {
    match a
    case Track(c, id) => [D.Admit(c, id)]
    case AdmissionFails(id) => [D.AdmitFails(id)]
    case Elsewhere(a) => [a]
    case OnService(r, failed) =>
      if r.SeeDoneWhileAdmitting? then [D.AdmitFails(r.id)]
      else if r.Enqueue? then
        if s.rt.loop.stopping then [D.HandOver(r.id), D.Finish(r.id, true)] else [D.HandOver(r.id)]
      else if r.Stop? then Finishes(R.Unstarted(s.rt.loop.ready, s.rt.loop.started))
      else if r.HandlerReturns? then [D.Finish(r.id, failed)]
      else if r.Pass? && PassDrops(s.rt.loop) then [D.Finish(s.rt.loop.ready[0], true)]
      else []
  }

  function ApplyAll(d: D.Sys, effects: seq<D.Action>): D.Sys {
    if effects == [] then d
    else D.Apply(ApplyAll(d, effects[..|effects| - 1]), effects[|effects| - 1])
  }

  function Apply(o: R.Opts, s: Sys, a: Action): Sys {
    Sys(ApplyAll(s.d, Effects(s, a)),
        if a.OnService? then R.Apply(o, s.rt, a.r) else s.rt,
        if a.Track? then s.mine + {a.id} else s.mine)
  }

  ghost predicate Step(o: R.Opts, s: Sys, a: Action, s': Sys) {
    Enabled(o, s, a) && s' == Apply(o, s, a)
  }

  ghost predicate IsRun(o: R.Opts, ss: seq<Sys>, acts: seq<Action>) {
    && |ss| == |acts| + 1 && ss[0] == INIT
    && forall i :: 0 <= i < |acts| ==> Step(o, ss[i], acts[i], ss[i + 1])
  }

  // ------------------------------------------------------- the tracker's steps

  /** Each effect is a step the tracker allows where it happens. */
  ghost predicate AllEnabled(d: D.Sys, effects: seq<D.Action>) {
    forall i :: 0 <= i < |effects| ==> D.Enabled(ApplyAll(d, effects[..i]), effects[i])
  }

  lemma AllEnabledFront(d: D.Sys, effects: seq<D.Action>)
    requires AllEnabled(d, effects) && effects != []
    ensures var n := |effects| - 1;
      AllEnabled(d, effects[..n]) && D.Enabled(ApplyAll(d, effects[..n]), effects[n])
  {
    var n := |effects| - 1;
    forall i | 0 <= i < n ensures D.Enabled(ApplyAll(d, effects[..n][..i]), effects[..n][i]) {
      assert effects[..n][..i] == effects[..i];
      assert D.Enabled(ApplyAll(d, effects[..i]), effects[i]);
    }
  }

  lemma AllEnabledMore(d: D.Sys, effects: seq<D.Action>, a: D.Action)
    requires AllEnabled(d, effects) && D.Enabled(ApplyAll(d, effects), a)
    ensures AllEnabled(d, effects + [a])
  {
    var all := effects + [a];
    forall i | 0 <= i < |all| ensures D.Enabled(ApplyAll(d, all[..i]), all[i]) {
      assert all[..i] == effects[..i];
      if i == |effects| {
        assert all[..i] == effects;
      }
    }
  }

  lemma {:induction false} TrackerInv(d: D.Sys, effects: seq<D.Action>)
    requires D.Inv(d) && AllEnabled(d, effects)
    ensures D.Inv(ApplyAll(d, effects))
  {
    if effects == [] {
    } else {
      AllEnabledFront(d, effects);
      TrackerInv(d, effects[..|effects| - 1]);
      D.InvStep(ApplyAll(d, effects[..|effects| - 1]), effects[|effects| - 1]);
    }
  }

  /** No effect reopens admission or ends the Drain call `k`. */
  ghost predicate Quiet(effects: seq<D.Action>, k: Id) {
    forall i :: 0 <= i < |effects| ==>
      !D.Reopens(effects[i]) && effects[i] != D.DrainReturns(k) && effects[i] != D.DrainGivesUp(k)
  }

  /** The Drain call `k` waits on the tracker's own channel, admission closed. */
  predicate Captured(d: D.Sys, k: Id) {
    d.d.closed && k in d.waiting && d.waiting[k] == d.d.zero
  }

  lemma {:induction false} CapturedStays(d: D.Sys, effects: seq<D.Action>, k: Id)
    requires D.Inv(d) && AllEnabled(d, effects) && Quiet(effects, k) && Captured(d, k)
    ensures Captured(ApplyAll(d, effects), k)
  {
    if effects == [] {
    } else {
      var n := |effects| - 1;
      var before := ApplyAll(d, effects[..n]);
      AllEnabledFront(d, effects);
      TrackerInv(d, effects[..n]);
      CapturedStays(d, effects[..n], k);
      D.CapturedStep(before, effects[n], D.Apply(before, effects[n]), k);
    }
  }

  predicate Drained(d: D.Sys) {
    d.d.closed && d.d.pending == 0
  }

  lemma {:induction false} DrainedStays(d: D.Sys, effects: seq<D.Action>)
    requires D.Inv(d) && AllEnabled(d, effects) && Drained(d)
    requires forall i :: 0 <= i < |effects| ==> !D.Reopens(effects[i])
    ensures Drained(ApplyAll(d, effects))
  {
    if effects == [] {
    } else {
      var n := |effects| - 1;
      var before := ApplyAll(d, effects[..n]);
      AllEnabledFront(d, effects);
      TrackerInv(d, effects[..n]);
      DrainedStays(d, effects[..n]);
      D.DrainedRejects(before, effects[n], D.Apply(before, effects[n]));
    }
  }

  /** One envelope's standing with the tracker: counted, handed to a mailbox, alive. */
  datatype Standing = Standing(tracked: bool, handed: bool, live: bool)

  function StandingOf(d: D.Sys, id: Id): Standing {
    Standing(id in d.d.tracked, id in d.d.handed, id in d.d.live)
  }

  /** A step that is not about `id` leaves its standing. */
  lemma StandingKept(d: D.Sys, a: D.Action, id: Id)
    requires Subject(a) != Some(id)
    ensures StandingOf(D.Apply(d, a), id) == StandingOf(d, id)
  {
  }

  lemma One(d: D.Sys, a: D.Action)
    ensures ApplyAll(d, [a]) == D.Apply(d, a)
    ensures AllEnabled(d, [a]) <==> D.Enabled(d, a)
  {
    assert [a][..0] == [];
    assert D.Enabled(ApplyAll(d, [a][..0]), [a][0]) <==> D.Enabled(d, a);
  }

  lemma Two(d: D.Sys, a: D.Action, b: D.Action)
    requires D.Enabled(d, a) && D.Enabled(D.Apply(d, a), b)
    ensures ApplyAll(d, [a, b]) == D.Apply(D.Apply(d, a), b) && AllEnabled(d, [a, b])
  {
    assert [a, b][..0] == [] && [a, b][..1] == [a];
    One(d, a);
  }

  /** Stop finishes the unstarted envelopes one by one. */
  lemma {:induction false} FinishesEffect(d: D.Sys, ids: seq<Id>, id: Id)
    requires forall x :: x in ids ==> x in d.d.handed
    ensures AllEnabled(d, Finishes(ids)) && ApplyAll(d, Finishes(ids)).d.handed == d.d.handed
    ensures ApplyAll(d, Finishes(ids)).issued == d.issued
    ensures StandingOf(ApplyAll(d, Finishes(ids)), id)
         == if id in ids then Standing(false, true, false) else StandingOf(d, id)
  {
    if ids == [] {
    } else {
      var n := |ids| - 1;
      var front := ids[..n];
      assert ids == front + [ids[n]];
      assert Finishes(ids)[..n] == Finishes(front);
      FinishesEffect(d, front, id);
      AllEnabledMore(d, Finishes(front), Finishes(ids)[n]);
      assert Finishes(ids) == Finishes(front) + [Finishes(ids)[n]];
    }
  }

  // ---------------------------------------------------------------- invariant

  /** The envelope is an activation the service has yet to answer. */
  predicate Pending(p: R.Phase) {
    p.Queued? || p.Starting? || p.Running? || p.Waiting? || p.Resuming? || p.Parked?
  }

  /** The envelope has been answered, or its admission was refused by the loop's end. */
  predicate Settled(p: R.Phase) {
    p.Rejected? || p.Dropped? || p.Finishing? || p.Finished?
  }

  /** An envelope's standing with the tracker follows its phase. */
  predicate Stands(p: R.Phase, mine: bool, t: Standing) {
    && (!p.New? ==> mine)
    && (p.Admitting? || Pending(p) ==> t.tracked)
    && (Pending(p) ==> t.handed && t.live)
    && (mine && (p.New? || p.Admitting?) ==> !t.handed && !t.live)
    && (Settled(p) ==> !t.tracked && !t.live)
  }

  ghost predicate LinkedAt(s: Sys, id: Id) {
    Stands(R.Ph(s.rt, id), id in s.mine, StandingOf(s.d, id))
  }

  ghost predicate Inv(o: R.Opts, s: Sys) {
    && D.Inv(s.d) && R.FullInv(o, s.rt) && s.mine <= s.d.issued
    && forall id :: LinkedAt(s, id)
  }

  lemma StopDrops(o: R.Opts, s: Sys, id: Id)
    requires Inv(o, s) && R.Enabled(o, s.rt, R.Stop)
    ensures var a := OnService(R.Stop, true);
      AllEnabled(s.d, Effects(s, a)) && Apply(o, s, a).d.issued == s.d.issued && LinkedAt(Apply(o, s, a), id)
  {
    var l := s.rt.loop;
    var dropped := R.Unstarted(l.ready, l.started);
    R.UnstartedElems(l.ready, l.started);
    forall x | x in dropped ensures x in s.d.d.handed && R.Ph(s.rt, x).Queued? {
      assert R.PlacedAt(s.rt, x) && LinkedAt(s, x);
    }
    FinishesEffect(s.d, dropped, id);
    assert LinkedAt(s, id);
  }

  /** A step of the service that is nothing to the tracker. */
  lemma SilentStep(o: R.Opts, s: Sys, a: Action, id: Id)
    requires Enabled(o, s, a) && a.OnService? && !a.r.Stop? && !a.r.Pass? && !a.r.Enqueue?
    requires !a.r.SeeDoneWhileAdmitting? && !a.r.HandlerReturns? && LinkedAt(s, id) && LinkedAt(s, a.r.id)
    ensures Effects(s, a) == [] && LinkedAt(Apply(o, s, a), id)
  {
  }

  /** A step of the service that finishes one envelope. */
  lemma FinishingStep(o: R.Opts, s: Sys, a: Action, id: Id)
    requires Enabled(o, s, a) && a.OnService? && (a.r.SeeDoneWhileAdmitting? || a.r.HandlerReturns?)
    requires D.Inv(s.d) && s.mine <= s.d.issued && LinkedAt(s, id) && LinkedAt(s, a.r.id)
    ensures AllEnabled(s.d, Effects(s, a)) && Apply(o, s, a).d.issued == s.d.issued && LinkedAt(Apply(o, s, a), id)
  {
    var e := Effects(s, a)[0];
    One(s.d, e);
    if id != a.r.id {
      StandingKept(s.d, e, id);
    }
  }

  lemma ServiceStep(o: R.Opts, s: Sys, a: Action, id: Id)
    requires Inv(o, s) && Enabled(o, s, a) && a.OnService? && !a.r.Stop? && !a.r.Pass? && !a.r.Enqueue?
    ensures AllEnabled(s.d, Effects(s, a)) && Apply(o, s, a).d.issued == s.d.issued && LinkedAt(Apply(o, s, a), id)
  {
    assert LinkedAt(s, id) && LinkedAt(s, a.r.id);
    if a.r.SeeDoneWhileAdmitting? || a.r.HandlerReturns? {
      FinishingStep(o, s, a, id);
    } else {
      SilentStep(o, s, a, id);
    }
  }

  lemma EnqueueStep(o: R.Opts, s: Sys, x: Id, failed: bool, id: Id)
    requires Inv(o, s) && R.Enabled(o, s.rt, R.Enqueue(x))
    ensures var a := OnService(R.Enqueue(x), failed);
      AllEnabled(s.d, Effects(s, a)) && Apply(o, s, a).d.issued == s.d.issued && LinkedAt(Apply(o, s, a), id)
  {
    assert LinkedAt(s, id) && LinkedAt(s, x);
    One(s.d, D.HandOver(x));
    Two(s.d, D.HandOver(x), D.Finish(x, true));
  }

  lemma PassStep(o: R.Opts, s: Sys, failed: bool, id: Id)
    requires Inv(o, s) && R.Enabled(o, s.rt, R.Pass)
    ensures var a := OnService(R.Pass, failed);
      AllEnabled(s.d, Effects(s, a)) && Apply(o, s, a).d.issued == s.d.issued && LinkedAt(Apply(o, s, a), id)
  {
    assert LinkedAt(s, id);
    if s.rt.loop.ready != [] {
      assert R.PlacedAt(s.rt, s.rt.loop.ready[0]);
    }
    assert !PassDrops(s.rt.loop);
  }

  /** A step that is not the service's own. */
  lemma TrackerStep(o: R.Opts, s: Sys, a: Action, id: Id)
    requires Inv(o, s) && Enabled(o, s, a) && !a.OnService?
    ensures AllEnabled(s.d, Effects(s, a)) && Apply(o, s, a).mine <= Apply(o, s, a).d.issued
    ensures LinkedAt(Apply(o, s, a), id)
  {
    var e := Effects(s, a)[0];
    assert LinkedAt(s, id);
    if !a.Elsewhere? {
      assert LinkedAt(s, a.id);
    }
    One(s.d, e);
    if Subject(e) != Some(id) {
      StandingKept(s.d, e, id);
    }
  }

  lemma AnyStep(o: R.Opts, s: Sys, a: Action, id: Id)
    requires Inv(o, s) && Enabled(o, s, a)
    ensures AllEnabled(s.d, Effects(s, a)) && LinkedAt(Apply(o, s, a), id)
    ensures Apply(o, s, a).mine <= Apply(o, s, a).d.issued
  {
    if !a.OnService? {
      TrackerStep(o, s, a, id);
    } else if a.r.Stop? {
      StopDrops(o, s, id);
    } else if a.r.Pass? {
      PassStep(o, s, a.failed, id);
    } else if a.r.Enqueue? {
      EnqueueStep(o, s, a.r.id, a.failed, id);
    } else {
      ServiceStep(o, s, a, id);
    }
  }

  lemma InvStep(o: R.Opts, s: Sys, a: Action)
    requires Inv(o, s) && Enabled(o, s, a)
    ensures Inv(o, Apply(o, s, a)) && AllEnabled(s.d, Effects(s, a))
  {
    forall id ensures LinkedAt(Apply(o, s, a), id) {
      AnyStep(o, s, a, id);
    }
    AnyStep(o, s, a, 0);
    TrackerInv(s.d, Effects(s, a));
    if a.OnService? {
      R.FullInvStep(o, s.rt, a.r);
    }
  }

  lemma {:induction false} InvRun(o: R.Opts, ss: seq<Sys>, acts: seq<Action>, i: nat)
    requires IsRun(o, ss, acts) && i < |ss|
    ensures Inv(o, ss[i])
  {
    if i == 0 {
      R.FullInvRun(o, [R.INIT], [], 0);
      assert forall id :: LinkedAt(INIT, id);
    } else {
      InvRun(o, ss, acts, i - 1);
      assert Step(o, ss[i - 1], acts[i - 1], ss[i]);
      InvStep(o, ss[i - 1], acts[i - 1]);
    }
  }

  // -------------------------------------------------------------- main results

  /** The tracker counts exactly what the service owes: in every state of every
      run an envelope past its admission is tracked if and only if it has not
      been answered, and its activation is alive for just as long. */
  lemma TrackedExactly(o: R.Opts, ss: seq<Sys>, acts: seq<Action>, i: nat, id: Id)
    requires IsRun(o, ss, acts) && i < |ss|
    ensures var p, d := R.Ph(ss[i].rt, id), ss[i].d.d;
      && (!p.New? ==> (id in d.tracked <==> p.Admitting? || Pending(p)))
      && (!p.New? ==> (id in d.live <==> Pending(p)))
  {
    InvRun(o, ss, acts, i);
    assert LinkedAt(ss[i], id);
  }

  /** No step of the run from `i` up to `j` reopens admission or ends the Drain call `k`. */
  ghost predicate QuietRun(acts: seq<Action>, i: nat, j: nat, k: Id) {
    forall m :: i <= m < j && m < |acts| ==>
      acts[m].Elsewhere? ==>
        !D.Reopens(acts[m].a) && acts[m].a != D.DrainReturns(k) && acts[m].a != D.DrainGivesUp(k)
  }

  lemma EffectsQuiet(s: Sys, a: Action, k: Id)
    requires a.Elsewhere? ==> !D.Reopens(a.a) && a.a != D.DrainReturns(k) && a.a != D.DrainGivesUp(k)
    ensures Quiet(Effects(s, a), k)
  {
  }

  lemma CapturedNext(o: R.Opts, ss: seq<Sys>, acts: seq<Action>, i: nat, k: Id)
    requires IsRun(o, ss, acts) && i < |acts| && Captured(ss[i].d, k) && QuietRun(acts, i, i + 1, k)
    ensures Captured(ss[i + 1].d, k)
  {
    InvRun(o, ss, acts, i);
    assert Step(o, ss[i], acts[i], ss[i + 1]);
    InvStep(o, ss[i], acts[i]);
    EffectsQuiet(ss[i], acts[i], k);
    CapturedStays(ss[i].d, Effects(ss[i], acts[i]), k);
  }

  lemma {:induction false} CapturedRun(o: R.Opts, ss: seq<Sys>, acts: seq<Action>, i: nat, j: nat, k: Id)
    requires IsRun(o, ss, acts) && i < j < |ss| && acts[i] == Elsewhere(D.DrainBegins(k)) && QuietRun(acts, i + 1, j, k)
    ensures Captured(ss[j].d, k)
  {
    if i + 1 == j {
      assert Step(o, ss[i], acts[i], ss[j]);
      One(ss[i].d, D.DrainBegins(k));
    } else {
      CapturedRun(o, ss, acts, i, j - 1, k);
      CapturedNext(o, ss, acts, j - 1, k);
    }
  }

  lemma DrainedNext(o: R.Opts, ss: seq<Sys>, acts: seq<Action>, i: nat)
    requires IsRun(o, ss, acts) && i < |acts| && Drained(ss[i].d)
    requires acts[i].Elsewhere? ==> !D.Reopens(acts[i].a)
    ensures Drained(ss[i + 1].d)
  {
    InvRun(o, ss, acts, i);
    assert Step(o, ss[i], acts[i], ss[i + 1]);
    InvStep(o, ss[i], acts[i]);
    DrainedStays(ss[i].d, Effects(ss[i], acts[i]));
  }

  lemma {:induction false} DrainedRun(o: R.Opts, ss: seq<Sys>, acts: seq<Action>, i: nat, j: nat)
    requires IsRun(o, ss, acts) && i <= j < |ss| && Drained(ss[i].d)
    requires forall m :: i <= m < j ==> acts[m].Elsewhere? ==> !D.Reopens(acts[m].a)
    ensures Drained(ss[j].d)
  {
    if i == j {
    } else {
      DrainedRun(o, ss, acts, i, j - 1);
      DrainedNext(o, ss, acts, j - 1);
    }
  }

  lemma DrainedIsIdle(o: R.Opts, s: Sys, id: Id)
    requires Inv(o, s) && Drained(s.d)
    ensures R.Ph(s.rt, id).New? || Settled(R.Ph(s.rt, id))
  {
    assert |s.d.d.tracked| == 0;
    assert LinkedAt(s, id);
  }

  /** When a Drain call returns and nothing reopened admission since it began, no
      envelope of the service is being admitted, queued, running, waiting,
      resuming or parked; and none is again, until admission is reopened. */
  lemma IdleAfterDrain(o: R.Opts, ss: seq<Sys>, acts: seq<Action>, i: nat, j: nat, k: Id, m: nat, id: Id)
    requires IsRun(o, ss, acts) && i < j < |acts| && j <= m < |ss|
    requires acts[i] == Elsewhere(D.DrainBegins(k)) && acts[j] == Elsewhere(D.DrainReturns(k))
    requires QuietRun(acts, i + 1, j, k)
    requires forall n :: j <= n < m ==> acts[n].Elsewhere? ==> !D.Reopens(acts[n].a)
    ensures R.Ph(ss[m].rt, id).New? || Settled(R.Ph(ss[m].rt, id))
  {
    CapturedRun(o, ss, acts, i, j, k);
    InvRun(o, ss, acts, j);
    assert Step(o, ss[j], acts[j], ss[j + 1]);
    assert Drained(ss[j].d);
    DrainedRun(o, ss, acts, j, m);
    InvRun(o, ss, acts, m);
    DrainedIsIdle(o, ss[m], id);
  }

  // --------------------------------------------------------- failures told exactly

  lemma {:induction false} FinishesCount(d: D.Sys, ids: seq<Id>)
    requires Distinct(ids) && forall x :: x in ids ==> x in d.d.handed && x in d.d.tracked
    ensures ApplyAll(d, Finishes(ids)).d.failures == d.d.failures + |ids|
  {
    if ids == [] {
    } else {
      var n := |ids| - 1;
      var front := ids[..n];
      assert ids == front + [ids[n]];
      assert Finishes(ids)[..n] == Finishes(front);
      FinishesCount(d, front);
      FinishesEffect(d, front, ids[n]);
    }
  }

  /** Tracked work that failed in this step other than by being dropped: a handler
      that returned with an error, or an envelope elsewhere. */
  function StepFailures(s: Sys, a: Action): nat {
    if a.OnService? && a.r.HandlerReturns? && a.failed then 1
    else if a.Elsewhere? && a.a.Finish? && a.a.failed && a.a.env in s.d.d.tracked then 1
    else 0
  }

  lemma DroppedAreTracked(o: R.Opts, s: Sys)
    requires Inv(o, s)
    ensures forall x :: x in R.Unstarted(s.rt.loop.ready, s.rt.loop.started) ==> x in s.d.d.handed && x in s.d.d.tracked
  {
    var dropped := R.Unstarted(s.rt.loop.ready, s.rt.loop.started);
    R.UnstartedElems(s.rt.loop.ready, s.rt.loop.started);
    forall x | x in dropped ensures x in s.d.d.handed && x in s.d.d.tracked {
      assert R.PlacedAt(s.rt, x) && LinkedAt(s, x);
    }
  }

  lemma StopFailures(o: R.Opts, s: Sys)
    requires R.Placed(s.rt) && R.Enabled(o, s.rt, R.Stop)
    requires forall x :: x in R.Unstarted(s.rt.loop.ready, s.rt.loop.started) ==>
      x in s.d.d.handed && x in s.d.d.tracked
    ensures var s' := Apply(o, s, OnService(R.Stop, true));
      s'.d.d.failures - s.d.d.failures == |s'.rt.loop.failed| - |s.rt.loop.failed|
  {
    R.StopEffect(s.rt);
    FinishesCount(s.d, R.Unstarted(s.rt.loop.ready, s.rt.loop.started));
  }

  lemma QuietService(o: R.Opts, s: R.Sys, a: R.Action)
    requires R.Enabled(o, s, a) && R.Placed(s) && R.StopClean(s) && !a.Stop? && !a.Enqueue?
    ensures R.Apply(o, s, a).loop.failed == s.loop.failed
  {
    if a.Pass? && s.loop.ready != [] {
      assert R.PlacedAt(s, s.loop.ready[0]);
    }
  }

  lemma EnqueueFailures(o: R.Opts, s: Sys, x: Id, failed: bool)
    requires Inv(o, s) && R.Enabled(o, s.rt, R.Enqueue(x))
    ensures var s' := Apply(o, s, OnService(R.Enqueue(x), failed));
      s'.d.d.failures - s.d.d.failures == |s'.rt.loop.failed| - |s.rt.loop.failed|
  {
    assert LinkedAt(s, x);
    One(s.d, D.HandOver(x));
    Two(s.d, D.HandOver(x), D.Finish(x, true));
  }

  lemma FailuresStep(o: R.Opts, s: Sys, a: Action)
    requires Inv(o, s) && Enabled(o, s, a)
    ensures var s' := Apply(o, s, a);
      s'.d.d.failures - s.d.d.failures == |s'.rt.loop.failed| - |s.rt.loop.failed| + StepFailures(s, a)
  {
    if !a.OnService? {
      One(s.d, Effects(s, a)[0]);
    } else if a.r.Stop? {
      DroppedAreTracked(o, s);
      StopFailures(o, s);
    } else if a.r.Enqueue? {
      EnqueueFailures(o, s, a.r.id, a.failed);
    } else {
      QuietService(o, s.rt, a.r);
      OtherFailures(o, s, a);
    }
  }

  lemma OtherFailures(o: R.Opts, s: Sys, a: Action)
    requires Inv(o, s) && Enabled(o, s, a) && a.OnService? && !a.r.Stop? && !a.r.Enqueue?
    ensures Apply(o, s, a).d.d.failures == s.d.d.failures + StepFailures(s, a)
  {
    if a.r.Pass? {
      if s.rt.loop.ready != [] {
        assert R.PlacedAt(s.rt, s.rt.loop.ready[0]);
      }
      assert !PassDrops(s.rt.loop);
    } else if a.r.SeeDoneWhileAdmitting? || a.r.HandlerReturns? {
      assert LinkedAt(s, a.r.id);
      One(s.d, Effects(s, a)[0]);
    }
  }

  ghost function FailureCount(ss: seq<Sys>, acts: seq<Action>, i: nat): nat
    requires i <= |acts| <= |ss|
  {
    if i == 0 then 0 else FailureCount(ss, acts, i - 1) + StepFailures(ss[i - 1], acts[i - 1])
  }

  /** The failures the tracker has counted are exactly the envelopes the loop
      dropped, each once, and the tracked work that ended with an error. */
  lemma {:induction false} FailuresExact(o: R.Opts, ss: seq<Sys>, acts: seq<Action>, i: nat)
    requires IsRun(o, ss, acts) && i < |ss|
    ensures ss[i].d.d.failures == |ss[i].rt.loop.failed| + FailureCount(ss, acts, i)
  {
    if i == 0 {
    } else {
      FailuresExact(o, ss, acts, i - 1);
      FailuresNext(o, ss, acts, i - 1);
    }
  }

  lemma FailuresNext(o: R.Opts, ss: seq<Sys>, acts: seq<Action>, i: nat)
    requires IsRun(o, ss, acts) && i < |acts|
    ensures ss[i + 1].d.d.failures - ss[i].d.d.failures
         == |ss[i + 1].rt.loop.failed| - |ss[i].rt.loop.failed| + StepFailures(ss[i], acts[i])
  {
    InvRun(o, ss, acts, i);
    assert Step(o, ss[i], acts[i], ss[i + 1]);
    FailuresStep(o, ss[i], acts[i]);
  }

  // ----------------------------------------------------------- the parts are runs

  /** The envelopes that may ask the service for a slot are those whose tracking the
      run began, and no others. */
  lemma {:induction false} MineIff(o: R.Opts, ss: seq<Sys>, acts: seq<Action>, i: nat, id: Id)
    requires IsRun(o, ss, acts) && i < |ss|
    ensures id in ss[i].mine <==> exists k :: 0 <= k < i && acts[k].Track? && acts[k].id == id
  {
    if i == 0 {
    } else {
      MineIff(o, ss, acts, i - 1, id);
      assert Step(o, ss[i - 1], acts[i - 1], ss[i]);
    }
  }

  /** The service's own actions of a run. */
  function ServiceActions(acts: seq<Action>): seq<R.Action> {
    if acts == [] then []
    else
      var a := acts[|acts| - 1];
      ServiceActions(acts[..|acts| - 1]) + if a.OnService? then [a.r] else []
  }

  lemma ServicePart(o: R.Opts, ss: seq<Sys>, acts: seq<Action>, i: nat)
    requires IsRun(o, ss, acts) && i < |acts|
    ensures if acts[i].OnService? then R.Step(o, ss[i].rt, acts[i].r, ss[i + 1].rt) else ss[i + 1].rt == ss[i].rt
  {
    assert Step(o, ss[i], acts[i], ss[i + 1]);
  }

  /** The service's part of a run is a run of the service, so all that is proved of
      its runs holds beside the tracker. */
  lemma {:induction false} ServiceRuns(o: R.Opts, ss: seq<Sys>, acts: seq<Action>, i: nat) returns (rs: seq<R.Sys>)
    requires IsRun(o, ss, acts) && i < |ss|
    ensures R.IsRun(o, rs, ServiceActions(acts[..i])) && rs[|rs| - 1] == ss[i].rt
  {
    if i == 0 {
      rs := [R.INIT];
    } else {
      rs := ServiceRuns(o, ss, acts, i - 1);
      assert acts[..i][..i - 1] == acts[..i - 1];
      ServicePart(o, ss, acts, i - 1);
      if acts[i - 1].OnService? {
        R.RunMore(o, rs, ServiceActions(acts[..i - 1]), acts[i - 1].r, ss[i].rt);
        rs := rs + [ss[i].rt];
      }
    }
  }

  /** The tracker's locked sections of a run, in order. */
  ghost function TrackerActions(ss: seq<Sys>, acts: seq<Action>, i: nat): seq<D.Action>
    requires i <= |acts| <= |ss|
  {
    if i == 0 then [] else TrackerActions(ss, acts, i - 1) + Effects(ss[i - 1], acts[i - 1])
  }

  lemma {:induction false} TrackerRunAll(ds: seq<D.Sys>, acts: seq<D.Action>, effects: seq<D.Action>)
    returns (ds': seq<D.Sys>)
    requires D.IsRun(ds, acts) && AllEnabled(ds[|acts|], effects)
    ensures D.IsRun(ds', acts + effects) && ds'[|ds'| - 1] == ApplyAll(ds[|acts|], effects)
    decreases |effects|
  {
    if effects == [] {
      ds' := ds;
      assert acts + effects == acts;
    } else {
      var n := |effects| - 1;
      AllEnabledFront(ds[|acts|], effects);
      ds' := TrackerRunAll(ds, acts, effects[..n]);
      D.RunMore(ds', acts + effects[..n], effects[n], D.Apply(ds'[|ds'| - 1], effects[n]));
      ds' := ds' + [D.Apply(ds'[|ds'| - 1], effects[n])];
      assert acts + effects[..n] + [effects[n]] == acts + effects;
    }
  }

  lemma TrackerPart(o: R.Opts, ss: seq<Sys>, acts: seq<Action>, i: nat)
    requires IsRun(o, ss, acts) && i < |acts|
    ensures AllEnabled(ss[i].d, Effects(ss[i], acts[i])) && ss[i + 1].d == ApplyAll(ss[i].d, Effects(ss[i], acts[i]))
  {
    InvRun(o, ss, acts, i);
    assert Step(o, ss[i], acts[i], ss[i + 1]);
    InvStep(o, ss[i], acts[i]);
  }

  /** `ds` is a run of the tracker that ends in `d`. */
  ghost predicate RunsTo(ds: seq<D.Sys>, acts: seq<D.Action>, d: D.Sys) {
    D.IsRun(ds, acts) && ds[|acts|] == d
  }

  lemma TrackerNext(o: R.Opts, ss: seq<Sys>, acts: seq<Action>, i: nat, ds: seq<D.Sys>) returns (ds': seq<D.Sys>)
    requires IsRun(o, ss, acts) && i < |acts| && RunsTo(ds, TrackerActions(ss, acts, i), ss[i].d)
    ensures RunsTo(ds', TrackerActions(ss, acts, i + 1), ss[i + 1].d)
  {
    TrackerPart(o, ss, acts, i);
    ds' := TrackerRunAll(ds, TrackerActions(ss, acts, i), Effects(ss[i], acts[i]));
  }

  /** The tracker's part of a run is a run of the tracker: the service never does to
      it what it does not allow, and all that is proved of its runs holds here. */
  lemma {:induction false} TrackerRuns(o: R.Opts, ss: seq<Sys>, acts: seq<Action>, i: nat) returns (ds: seq<D.Sys>)
    requires IsRun(o, ss, acts) && i < |ss|
    ensures RunsTo(ds, TrackerActions(ss, acts, i), ss[i].d)
  {
    if i == 0 {
      ds := [D.INIT];
    } else {
      ds := TrackerRuns(o, ss, acts, i - 1);
      ds := TrackerNext(o, ss, acts, i - 1, ds);
    }
  }
}
