/**
 Maintenance accounting of an actor system: a counter of outstanding work, a
 "zero" channel that is re-created whenever work appears and closed whenever it
 runs out, and permits that let trusted work in after admission has closed.
 Every function below is one critical section of the tracker's mutex.
 */
module Drain {
  import opened Basics

  type Id = int

  /** `tracked` are the envelopes with their tracking flag set, `live` the
      activations not yet marked finished (an activation carries the id of its
      envelope), `handed` the envelopes handed to a mailbox, `permits` the active
      permits.  Channels are numbered in the order they are made; `shut` are the
      closed ones. */
  datatype Tracker = Tracker(
    closed: bool,
    pending: int,
    failures: nat,
    durableFailures: nat,
    baseline: nat,
    zero: nat,
    made: nat,
    shut: set<nat>,
    tracked: set<Id>,
    handed: set<Id>,
    live: set<Id>,
    permits: set<Id>)

  const NEW_TRACKER := Tracker(false, 0, 0, 0, 0, 0, 1, {0}, {}, {}, {}, {})

  function Enter(d: Tracker): Tracker {
    if d.pending == 0 then d.(zero := d.made, made := d.made + 1, pending := 1) else d.(pending := d.pending + 1)
  }

  function Leave(d: Tracker): Tracker {
    d.(pending := d.pending - 1, shut := if d.pending == 1 then d.shut + {d.zero} else d.shut)
  }

  /** The context a request arrives with: the activation and the permit it carries. */
  datatype Ctx = Ctx(activation: Option<Id>, permit: Option<Id>)

  predicate Admits(d: Tracker, c: Ctx) {
    || !d.closed
    || (c.activation.Some? && c.activation.value in d.live)
    || (c.permit.Some? && c.permit.value in d.permits)
  }

  function TrackAdmission(d: Tracker, c: Ctx, env: Id): Tracker {
    if Admits(d, c) then Enter(d).(tracked := d.tracked + {env}) else d
  }

  /** `act` says whether the activation of `env` is passed along. */
  function FinishTracked(d: Tracker, env: Id, act: bool, failed: bool): Tracker {
    var d1 := if act then d.(live := d.live - {env}) else d;
    if env !in d.tracked then d1
    else Leave(d1.(tracked := d.tracked - {env},
                   failures := if failed then d.failures + 1 else d.failures))
  }

  predicate Reserves(d: Tracker) {
    !(d.closed && d.pending == 0)
  }

  function ReserveWork(d: Tracker, permit: Id): Tracker {
    if Reserves(d) then Enter(d).(permits := d.permits + {permit}) else d
  }

  function FinishWork(d: Tracker, permit: Id, failed: bool): Tracker {
    if permit !in d.permits then d
    else Leave(d.(permits := d.permits - {permit},
                  durableFailures := if failed then d.durableFailures + 1 else d.durableFailures))
  }

  function BeginMaintenance(d: Tracker, permit: Id): Tracker {
    Enter(d).(permits := d.permits + {permit})
  }

  function EndMaintenance(d: Tracker, permit: Id): Tracker {
    if permit !in d.permits then d else Leave(d.(permits := d.permits - {permit}))
  }

  function ResumeAdmission(d: Tracker): Tracker {
    d.(closed := false, baseline := d.failures)
  }

  function CloseAdmission(d: Tracker): Tracker {
    if d.closed then d else d.(closed := true, baseline := d.failures)
  }

  datatype DrainState = DrainState(admissionClosed: bool, inFlight: int, failures: int)

  function StateOf(d: Tracker): DrainState {
    DrainState(d.closed, d.pending, d.failures - d.baseline + d.durableFailures)
  }

  // ---------------------------------------------------------------- processes

  /** `waiting` are the Drain calls under way with the channel each captured;
      `issued` are the ids of envelopes and permits ever used. */
  datatype Sys = Sys(d: Tracker, waiting: map<Id, nat>, issued: set<Id>)

  const INIT := Sys(NEW_TRACKER, map[], {})

  datatype Action =
    | Admit(c: Ctx, env: Id)
    | HandOver(env: Id)
    | AdmitFails(env: Id)
    | Finish(env: Id, failed: bool)
    | Reserve(permit: Id)
    | FinishReservation(permit: Id, failed: bool)
    | MaintenanceBegins(permit: Id)
    | MaintenanceEnds(permit: Id)
    | Resume
    | DrainBegins(call: Id)
    | DrainReturns(call: Id)
    | DrainGivesUp(call: Id)

  predicate Enabled(s: Sys, a: Action) {
    match a
    case Admit(_, env) => env !in s.issued
    case HandOver(env) => env in s.d.tracked && env !in s.d.handed
    case AdmitFails(env) => env in s.issued && env !in s.d.handed
    case Finish(env, _) => env in s.d.handed
    case Reserve(p) => p !in s.issued
    case FinishReservation(p, _) => p in s.issued
    case MaintenanceBegins(p) => p !in s.issued
    case MaintenanceEnds(p) => p in s.issued
    case Resume => true
    case DrainBegins(k) => k !in s.waiting
    case DrainReturns(k) => k in s.waiting && s.waiting[k] in s.d.shut
    case DrainGivesUp(k) => k in s.waiting
  }

  function Apply(s: Sys, a: Action): Sys {
    match a
    case Admit(c, env) => s.(d := TrackAdmission(s.d, c, env), issued := s.issued + {env})
    case HandOver(env) => s.(d := s.d.(handed := s.d.handed + {env}, live := s.d.live + {env}))
    case AdmitFails(env) => s.(d := FinishTracked(s.d, env, false, false))
    case Finish(env, failed) => s.(d := FinishTracked(s.d, env, true, failed))
    case Reserve(p) => s.(d := ReserveWork(s.d, p), issued := s.issued + {p})
    case FinishReservation(p, failed) => s.(d := FinishWork(s.d, p, failed))
    case MaintenanceBegins(p) => s.(d := BeginMaintenance(s.d, p), issued := s.issued + {p})
    case MaintenanceEnds(p) => s.(d := EndMaintenance(s.d, p))
    case Resume => s.(d := ResumeAdmission(s.d))
    case DrainBegins(k) => s.(d := CloseAdmission(s.d), waiting := s.waiting[k := s.d.zero])
    case DrainReturns(k) => s.(waiting := s.waiting - {k})
    case DrainGivesUp(k) => s.(waiting := s.waiting - {k})
  }

  ghost predicate Step(s: Sys, a: Action, s': Sys) {
    Enabled(s, a) && s' == Apply(s, a)
  }

  ghost predicate IsRun(ss: seq<Sys>, acts: seq<Action>) {
    && |ss| == |acts| + 1 && ss[0] == INIT
    && forall i :: 0 <= i < |acts| ==> Step(ss[i], acts[i], ss[i + 1])
  }

  /** A run goes on with any step its last state allows. */
  lemma RunMore(ss: seq<Sys>, acts: seq<Action>, a: Action, s': Sys)
    requires IsRun(ss, acts) && Step(ss[|acts|], a, s')
    ensures IsRun(ss + [s'], acts + [a])
  {
    var ss', acts' := ss + [s'], acts + [a];
    forall i | 0 <= i < |acts'| ensures Step(ss'[i], acts'[i], ss'[i + 1]) {
      assert i < |acts| ==> Step(ss[i], acts[i], ss[i + 1]);
    }
  }

  // --------------------------------------------------------------- invariants

  ghost predicate Accounted(d: Tracker) {
    && d.pending == |d.tracked| + |d.permits|
    && (d.zero in d.shut <==> d.pending == 0)
    && d.zero < d.made && (forall c :: c in d.shut ==> c < d.made)
    && d.live <= d.tracked && d.live <= d.handed
    && d.baseline <= d.failures
  }

  ghost predicate Inv(s: Sys) {
    Accounted(s.d) && s.d.tracked + s.d.permits + s.d.handed <= s.issued
  }

  lemma AccountedFinish(d: Tracker, env: Id, act: bool, failed: bool)
    requires Accounted(d) && (act || env !in d.live)
    ensures Accounted(FinishTracked(d, env, act, failed))
  {
    if env in d.tracked {
      assert |d.tracked| == |d.tracked - {env}| + 1;
    }
  }

  lemma AccountedRelease(d: Tracker, p: Id, failed: bool)
    requires Accounted(d)
    ensures Accounted(FinishWork(d, p, failed)) && Accounted(EndMaintenance(d, p))
  {
    if p in d.permits {
      assert |d.permits| == |d.permits - {p}| + 1;
    }
  }

  lemma InvStep(s: Sys, a: Action)
    requires Inv(s) && Enabled(s, a)
    ensures Inv(Apply(s, a))
  {
    match a
    case Finish(env, failed) => AccountedFinish(s.d, env, true, failed);
    case AdmitFails(env) => AccountedFinish(s.d, env, false, false);
    case FinishReservation(p, failed) => AccountedRelease(s.d, p, failed);
    case MaintenanceEnds(p) => AccountedRelease(s.d, p, false);
    case _ =>
  }

  lemma {:induction false} InvRun(ss: seq<Sys>, acts: seq<Action>, i: nat)
    requires IsRun(ss, acts) && i < |ss|
    ensures Inv(ss[i])
  {
    if i == 0 {
    } else {
      InvRun(ss, acts, i - 1);
      assert Step(ss[i - 1], acts[i - 1], ss[i]);
      InvStep(ss[i - 1], acts[i - 1]);
    }
  }

  // ------------------------------------------------------------- main results

  /** In every state of every run the counter is the tracked envelopes plus the
      active permits, the current zero channel is closed exactly when the counter
      is zero, and an unfinished activation's envelope is still counted. */
  lemma AccountingExact(ss: seq<Sys>, acts: seq<Action>, i: nat)
    requires IsRun(ss, acts) && i < |ss|
    ensures ss[i].d.pending == |ss[i].d.tracked| + |ss[i].d.permits|
    ensures ss[i].d.zero in ss[i].d.shut <==> ss[i].d.pending == 0
    ensures ss[i].d.live <= ss[i].d.tracked
    ensures StateOf(ss[i].d).failures >= 0
  {
    InvRun(ss, acts, i);
  }

  lemma {:induction false} ClosesOpenChannel(s: Sys, a: Action, s': Sys)
    requires Inv(s) && Step(s, a, s')
    ensures s'.d.pending >= 0
    ensures s'.d.pending < s.d.pending && s'.d.pending == 0 ==>
              s.d.zero !in s.d.shut && s'.d.shut == s.d.shut + {s.d.zero}
  {
    InvStep(s, a);
    LeavesOnce(s, a);
  }

  /** The counter falls only where a channel is about to be closed at the last one. */
  lemma LeavesOnce(s: Sys, a: Action)
    requires Enabled(s, a)
    ensures var s' := Apply(s, a);
      s'.d.pending < s.d.pending ==>
        s'.d.pending == s.d.pending - 1 && s'.d.shut == if s.d.pending == 1 then s.d.shut + {s.d.zero} else s.d.shut
  {
  }

  /** No step closes a channel twice or takes the counter below zero. */
  lemma NeverClosedTwice(ss: seq<Sys>, acts: seq<Action>, i: nat)
    requires IsRun(ss, acts) && i < |acts|
    ensures ss[i + 1].d.pending >= 0
    ensures ss[i + 1].d.pending < ss[i].d.pending && ss[i + 1].d.pending == 0 ==>
              ss[i].d.zero !in ss[i].d.shut && ss[i + 1].d.shut == ss[i].d.shut + {ss[i].d.zero}
  {
    InvRun(ss, acts, i);
    ClosesOpenChannel(ss[i], acts[i], ss[i + 1]);
  }

  predicate Reopens(a: Action) {
    a.Resume? || a.MaintenanceBegins?
  }

  /** Closed with nothing outstanding: no admission and no reservation succeeds,
      whatever context it comes with, and the state stays so. */
  lemma DrainedRejects(s: Sys, a: Action, s': Sys)
    requires Inv(s) && Step(s, a, s') && s.d.closed && s.d.pending == 0 && !Reopens(a)
    ensures a.Admit? ==> !Admits(s.d, a.c)
    ensures a.Reserve? ==> !Reserves(s.d)
    ensures s'.d.closed && s'.d.pending == 0 && s'.d.zero == s.d.zero
  {
    assert s.d.tracked == {} && s.d.permits == {};
  }

  lemma {:induction false} DrainedStays(ss: seq<Sys>, acts: seq<Action>, i: nat, j: nat)
    requires IsRun(ss, acts) && i <= j < |ss| && ss[i].d.closed && ss[i].d.pending == 0
    requires forall m :: i <= m < j ==> !Reopens(acts[m])
    ensures ss[j].d.closed && ss[j].d.pending == 0
  {
    if i == j {
    } else {
      DrainedStays(ss, acts, i, j - 1);
      InvRun(ss, acts, j - 1);
      DrainedRejects(ss[j - 1], acts[j - 1], ss[j]);
    }
  }

  /** From a drained state on, until admission is reopened, nothing gets in. */
  lemma DrainStable(ss: seq<Sys>, acts: seq<Action>, i: nat, j: nat)
    requires IsRun(ss, acts) && i <= j < |ss| && ss[i].d.closed && ss[i].d.pending == 0
    requires forall m :: i <= m < j ==> !Reopens(acts[m])
    ensures ss[j].d.closed && ss[j].d.pending == 0 && ss[j].d.tracked == {} && ss[j].d.permits == {}
    ensures forall m :: i <= m < j && acts[m].Admit? ==> !Admits(ss[m].d, acts[m].c)
    ensures forall m :: i <= m < j && acts[m].Reserve? ==> !Reserves(ss[m].d)
  {
    DrainedStays(ss, acts, i, j);
    InvRun(ss, acts, j);
    assert |ss[j].d.tracked| == 0 && |ss[j].d.permits| == 0;
    forall m | i <= m < j
      ensures acts[m].Admit? ==> !Admits(ss[m].d, acts[m].c)
      ensures acts[m].Reserve? ==> !Reserves(ss[m].d)
    {
      DrainedStays(ss, acts, i, m);
      InvRun(ss, acts, m);
      DrainedRejects(ss[m], acts[m], ss[m + 1]);
    }
  }

  lemma CapturedStep(s: Sys, a: Action, s': Sys, k: Id)
    requires Inv(s) && Step(s, a, s') && !Reopens(a) && a != DrainReturns(k) && a != DrainGivesUp(k)
    requires s.d.closed && k in s.waiting && s.waiting[k] == s.d.zero
    ensures s'.d.closed && k in s'.waiting && s'.waiting[k] == s'.d.zero
  {
    if s.d.pending == 0 {
      DrainedRejects(s, a, s');
    }
  }

  /** Between a Drain call and its return the channel it captured stays the
      tracker's own, as long as nothing reopens admission. */
  lemma {:induction false} CapturedChannelStays(ss: seq<Sys>, acts: seq<Action>, i: nat, j: nat, k: Id)
    requires IsRun(ss, acts) && i < j < |ss| && acts[i] == DrainBegins(k)
    requires forall m :: i < m < j ==> !Reopens(acts[m])
    requires forall m :: i < m < j ==> acts[m] != DrainReturns(k) && acts[m] != DrainGivesUp(k)
    ensures ss[j].d.closed && k in ss[j].waiting && ss[j].waiting[k] == ss[j].d.zero
  {
    assert Step(ss[j - 1], acts[j - 1], ss[j]);
    if i + 1 == j {
    } else {
      CapturedChannelStays(ss, acts, i, j - 1, k);
      InvRun(ss, acts, j - 1);
      CapturedStep(ss[j - 1], acts[j - 1], ss[j], k);
    }
  }

  // ------------------------------------------------------ what the books record

  /** The history closed admission: a Drain call came after the last ResumeAdmission. */
  predicate ClosedBy(acts: seq<Action>, i: nat)
    requires i <= |acts|
  {
    i > 0 && (acts[i - 1].DrainBegins? || (!acts[i - 1].Resume? && ClosedBy(acts, i - 1)))
  }

  lemma {:induction false} ClosedIff(ss: seq<Sys>, acts: seq<Action>, i: nat)
    requires IsRun(ss, acts) && i < |ss|
    ensures ss[i].d.closed <==> ClosedBy(acts, i)
  {
    if i == 0 {
    } else {
      ClosedIff(ss, acts, i - 1);
      assert Step(ss[i - 1], acts[i - 1], ss[i]);
    }
  }

  /** The Drain call `k` has begun and neither returned nor given up. */
  predicate UnderWay(acts: seq<Action>, i: nat, k: Id)
    requires i <= |acts|
  {
    && i > 0
    && (acts[i - 1] == DrainBegins(k) ||
        (acts[i - 1] != DrainReturns(k) && acts[i - 1] != DrainGivesUp(k) && UnderWay(acts, i - 1, k)))
  }

  lemma {:induction false} UnderWayIff(ss: seq<Sys>, acts: seq<Action>, i: nat, k: Id)
    requires IsRun(ss, acts) && i < |ss|
    ensures k in ss[i].waiting <==> UnderWay(acts, i, k)
  {
    if i == 0 {
    } else {
      UnderWayIff(ss, acts, i - 1, k);
      assert Step(ss[i - 1], acts[i - 1], ss[i]);
    }
  }

  lemma {:induction false} HandedIff(ss: seq<Sys>, acts: seq<Action>, i: nat, env: Id)
    requires IsRun(ss, acts) && i < |ss|
    ensures env in ss[i].d.handed <==> HandOver(env) in acts[..i]
  {
    if i == 0 {
    } else {
      HandedIff(ss, acts, i - 1, env);
      assert Step(ss[i - 1], acts[i - 1], ss[i]);
      assert acts[..i] == acts[..i - 1] + [acts[i - 1]];
    }
  }

  /** A tracked envelope can be handed to its mailbox exactly once; admission can be
      reopened at any time, and a Drain call begun whenever it is not under way. */
  lemma CallsAllowed(ss: seq<Sys>, acts: seq<Action>, i: nat, id: Id)
    requires IsRun(ss, acts) && i < |ss|
    ensures Enabled(ss[i], HandOver(id)) <==> id in ss[i].d.tracked && HandOver(id) !in acts[..i]
    ensures Enabled(ss[i], DrainBegins(id)) <==> !UnderWay(acts, i, id)
    ensures Enabled(ss[i], Resume)
  {
    HandedIff(ss, acts, i, id);
    UnderWayIff(ss, acts, i, id);
  }

  /** While nothing reopens admission, a Drain call can return if and only if every
      tracked envelope is finished and every permit given back: it neither returns
      early nor waits for anything else. */
  lemma DrainReturnsIff(ss: seq<Sys>, acts: seq<Action>, i: nat, j: nat, k: Id)
    requires IsRun(ss, acts) && i < j < |ss| && acts[i] == DrainBegins(k)
    requires forall m :: i < m < j ==> !Reopens(acts[m]) && acts[m] != DrainReturns(k) && acts[m] != DrainGivesUp(k)
    ensures Enabled(ss[j], DrainReturns(k)) <==> ss[j].d.tracked == {} && ss[j].d.permits == {}
  {
    CapturedChannelStays(ss, acts, i, j, k);
    InvRun(ss, acts, j);
    NothingOutstanding(ss[j].d);
  }

  /** Step `k` handed `x` to a mailbox, and no step up to `i` has finished it since. */
  ghost predicate AliveSince(acts: seq<Action>, k: nat, i: nat, x: Id)
    requires k < i <= |acts|
  {
    acts[k] == HandOver(x) && forall m :: k < m < i ==> !(acts[m].Finish? && acts[m].env == x)
  }

  ghost predicate Alive(acts: seq<Action>, i: nat, x: Id)
    requires i <= |acts|
  {
    exists k :: 0 <= k < i && AliveSince(acts, k, i, x)
  }

  lemma AliveNext(acts: seq<Action>, i: nat, x: Id)
    requires i < |acts|
    ensures Alive(acts, i + 1, x) <==>
      acts[i] == HandOver(x) || (Alive(acts, i, x) && !(acts[i].Finish? && acts[i].env == x))
  {
    if acts[i] == HandOver(x) {
      assert AliveSince(acts, i, i + 1, x);
    }
    if Alive(acts, i, x) && !(acts[i].Finish? && acts[i].env == x) {
      var k :| 0 <= k < i && AliveSince(acts, k, i, x);
      assert AliveSince(acts, k, i + 1, x);
    }
    if Alive(acts, i + 1, x) {
      var k :| 0 <= k < i + 1 && AliveSince(acts, k, i + 1, x);
      assert k < i ==> AliveSince(acts, k, i, x);
    }
  }

  lemma {:induction false} AliveIff(ss: seq<Sys>, acts: seq<Action>, i: nat, x: Id)
    requires IsRun(ss, acts) && i < |ss|
    ensures x in ss[i].d.live <==> Alive(acts, i, x)
  {
    if i == 0 {
    } else {
      AliveIff(ss, acts, i - 1, x);
      AliveNext(acts, i - 1, x);
      InvRun(ss, acts, i - 1);
      assert Step(ss[i - 1], acts[i - 1], ss[i]);
    }
  }

  /** Step `k` granted permit `p`: maintenance always, a reservation unless
      admission was closed with nothing outstanding. */
  ghost predicate Grants(ss: seq<Sys>, acts: seq<Action>, k: nat, p: Id)
    requires k < |acts| == |ss| - 1
  {
    || acts[k] == MaintenanceBegins(p)
    || (acts[k] == Reserve(p) && !(ClosedBy(acts, k) && ss[k].d.tracked == {} && ss[k].d.permits == {}))
  }

  predicate EndsPermit(a: Action, p: Id) {
    (a.FinishReservation? || a.MaintenanceEnds?) && a.permit == p
  }

  ghost predicate ActiveSince(ss: seq<Sys>, acts: seq<Action>, k: nat, i: nat, p: Id)
    requires k < i <= |acts| == |ss| - 1
  {
    Grants(ss, acts, k, p) && forall m :: k < m < i ==> !EndsPermit(acts[m], p)
  }

  ghost predicate PermitActive(ss: seq<Sys>, acts: seq<Action>, i: nat, p: Id)
    requires i <= |acts| == |ss| - 1
  {
    exists k :: 0 <= k < i && ActiveSince(ss, acts, k, i, p)
  }

  lemma PermitNext(ss: seq<Sys>, acts: seq<Action>, i: nat, p: Id)
    requires i < |acts| == |ss| - 1
    ensures PermitActive(ss, acts, i + 1, p) <==>
      Grants(ss, acts, i, p) || (PermitActive(ss, acts, i, p) && !EndsPermit(acts[i], p))
  {
    if Grants(ss, acts, i, p) {
      assert ActiveSince(ss, acts, i, i + 1, p);
    }
    if PermitActive(ss, acts, i, p) && !EndsPermit(acts[i], p) {
      var k :| 0 <= k < i && ActiveSince(ss, acts, k, i, p);
      assert ActiveSince(ss, acts, k, i + 1, p);
    }
    if PermitActive(ss, acts, i + 1, p) {
      var k :| 0 <= k < i + 1 && ActiveSince(ss, acts, k, i + 1, p);
      assert k < i ==> ActiveSince(ss, acts, k, i, p);
    }
  }

  lemma NothingOutstanding(d: Tracker)
    requires Accounted(d)
    ensures d.pending == 0 <==> d.tracked == {} && d.permits == {}
  {
    assert |d.tracked| == 0 <==> d.tracked == {};
    assert |d.permits| == 0 <==> d.permits == {};
  }

  lemma PermitStep(s: Sys, a: Action, s': Sys, p: Id)
    requires Inv(s) && Step(s, a, s')
    ensures p in s'.d.permits <==>
      || a == MaintenanceBegins(p)
      || (a == Reserve(p) && !(s.d.closed && s.d.tracked == {} && s.d.permits == {}))
      || (p in s.d.permits && !EndsPermit(a, p))
  {
    NothingOutstanding(s.d);
  }

  lemma PermitMoves(ss: seq<Sys>, acts: seq<Action>, i: nat, p: Id)
    requires IsRun(ss, acts) && i < |acts|
    ensures p in ss[i + 1].d.permits <==>
      Grants(ss, acts, i, p) || (p in ss[i].d.permits && !EndsPermit(acts[i], p))
  {
    InvRun(ss, acts, i);
    ClosedIff(ss, acts, i);
    assert Step(ss[i], acts[i], ss[i + 1]);
    PermitStep(ss[i], acts[i], ss[i + 1], p);
  }

  lemma {:induction false} PermitIff(ss: seq<Sys>, acts: seq<Action>, i: nat, p: Id)
    requires IsRun(ss, acts) && i < |ss|
    ensures p in ss[i].d.permits <==> PermitActive(ss, acts, i, p)
  {
    if i == 0 {
    } else {
      PermitIff(ss, acts, i - 1, p);
      PermitNext(ss, acts, i - 1, p);
      PermitMoves(ss, acts, i - 1, p);
    }
  }

  /** Step `k` let the envelope in: admission was open, or the request came from an
      activation still alive, or under a permit still active. */
  ghost predicate LetsIn(ss: seq<Sys>, acts: seq<Action>, k: nat, env: Id)
    requires k < |acts| == |ss| - 1
  {
    acts[k].Admit? && acts[k].env == env &&
    (|| !ClosedBy(acts, k)
     || (acts[k].c.activation.Some? && Alive(acts, k, acts[k].c.activation.value))
     || (acts[k].c.permit.Some? && PermitActive(ss, acts, k, acts[k].c.permit.value)))
  }

  predicate EndsEnvelope(a: Action, env: Id) {
    (a.Finish? || a.AdmitFails?) && a.env == env
  }

  /** The books as a function of the history, over every run: whether admission is
      closed, who is alive, which permits are active; an envelope is let in exactly
      as the history says, and is tracked from then until its first finish. */
  lemma BooksExact(ss: seq<Sys>, acts: seq<Action>, i: nat, id: Id)
    requires IsRun(ss, acts) && i < |acts|
    ensures ss[i].d.closed <==> ClosedBy(acts, i)
    ensures id in ss[i].d.live <==> Alive(acts, i, id)
    ensures id in ss[i].d.permits <==> PermitActive(ss, acts, i, id)
    ensures id in ss[i + 1].d.tracked <==>
      LetsIn(ss, acts, i, id) || (id in ss[i].d.tracked && !EndsEnvelope(acts[i], id))
  {
    ClosedIff(ss, acts, i);
    AliveIff(ss, acts, i, id);
    PermitIff(ss, acts, i, id);
    InvRun(ss, acts, i);
    assert Step(ss[i], acts[i], ss[i + 1]);
    if acts[i].Admit? {
      var c := acts[i].c;
      if c.activation.Some? {
        AliveIff(ss, acts, i, c.activation.value);
      }
      if c.permit.Some? {
        PermitIff(ss, acts, i, c.permit.value);
      }
    }
  }

  // ------------------------------------------------------- what Drain reports

  /** Step `m` finished an envelope, still tracked, as failed. */
  predicate FailsWork(ss: seq<Sys>, acts: seq<Action>, m: nat)
    requires m < |acts| == |ss| - 1
  {
    acts[m].Finish? && acts[m].failed && acts[m].env in ss[m].d.tracked
  }

  /** Step `m` finished a reservation, still active, as failed. */
  predicate FailsReservation(ss: seq<Sys>, acts: seq<Action>, m: nat)
    requires m < |acts| == |ss| - 1
  {
    acts[m].FinishReservation? && acts[m].failed && acts[m].permit in ss[m].d.permits
  }

  function WorkFailures(ss: seq<Sys>, acts: seq<Action>, from: nat, until: nat): nat
    requires until <= |acts| == |ss| - 1
    decreases until
  {
    if until <= from then 0
    else WorkFailures(ss, acts, from, until - 1) + if FailsWork(ss, acts, until - 1) then 1 else 0
  }

  function ReservationFailures(ss: seq<Sys>, acts: seq<Action>, until: nat): nat
    requires until <= |acts| == |ss| - 1
  {
    if until == 0 then 0
    else ReservationFailures(ss, acts, until - 1) + if FailsReservation(ss, acts, until - 1) then 1 else 0
  }

  /** Where the counting of failures starts: after the last step that closed an
      open admission or reopened it. */
  function CountsFrom(acts: seq<Action>, i: nat): (b: nat)
    requires i <= |acts|
    ensures b <= i
  {
    if i == 0 then 0
    else if acts[i - 1].Resume? || (acts[i - 1].DrainBegins? && !ClosedBy(acts, i - 1)) then i
    else CountsFrom(acts, i - 1)
  }

  /** While admission is closed, counting starts at the Drain call that closed it. */
  lemma {:induction false} CountsFromClosing(acts: seq<Action>, i: nat)
    requires i <= |acts| && ClosedBy(acts, i)
    ensures var b := CountsFrom(acts, i);
      && 0 < b <= i && acts[b - 1].DrainBegins? && !ClosedBy(acts, b - 1)
      && forall m :: b <= m < i ==> !acts[m].Resume?
  {
    if acts[i - 1].DrainBegins? && !ClosedBy(acts, i - 1) {
    } else {
      CountsFromClosing(acts, i - 1);
    }
  }

  lemma ReportStep(s: Sys, a: Action, s': Sys)
    requires Step(s, a, s')
    ensures s'.d.failures - s'.d.baseline
         == if a.Resume? || (a.DrainBegins? && !s.d.closed) then 0
            else s.d.failures - s.d.baseline + if a.Finish? && a.failed && a.env in s.d.tracked then 1 else 0
    ensures s'.d.durableFailures
         == s.d.durableFailures + if a.FinishReservation? && a.failed && a.permit in s.d.permits then 1 else 0
  {
  }

  /** The failures reported in any state of any run are the tracked envelopes that
      failed since admission was last closed or reopened, and all reservations
      that ever failed. */
  lemma {:induction false} ReportExact(ss: seq<Sys>, acts: seq<Action>, i: nat)
    requires IsRun(ss, acts) && i < |ss|
    ensures ss[i].d.failures - ss[i].d.baseline == WorkFailures(ss, acts, CountsFrom(acts, i), i)
    ensures ss[i].d.durableFailures == ReservationFailures(ss, acts, i)
    ensures StateOf(ss[i].d).failures
         == WorkFailures(ss, acts, CountsFrom(acts, i), i) + ReservationFailures(ss, acts, i)
  {
    if i == 0 {
    } else {
      ReportExact(ss, acts, i - 1);
      ClosedIff(ss, acts, i - 1);
      ReportStep(ss[i - 1], acts[i - 1], ss[i]);
    }
  }

  lemma {:induction false} NoFailures(ss: seq<Sys>, acts: seq<Action>, from: nat, until: nat)
    requires until <= |acts| == |ss| - 1
    ensures WorkFailures(ss, acts, from, until) == 0 <==> forall m :: from <= m < until ==> !FailsWork(ss, acts, m)
    ensures ReservationFailures(ss, acts, until) == 0 <==> forall m :: 0 <= m < until ==> !FailsReservation(ss, acts, m)
    decreases until
  {
    if until == 0 {
    } else {
      NoFailures(ss, acts, from, until - 1);
    }
  }

  /** When Drain returns and nothing reopened admission meanwhile, nothing is in
      flight; and it reports no failure if and only if no tracked work has failed
      since the Drain call that closed admission and no reservation ever failed. */
  lemma DrainReturnMeansDrained(ss: seq<Sys>, acts: seq<Action>, i: nat, j: nat, k: Id)
    requires IsRun(ss, acts) && i < j < |acts| && acts[i] == DrainBegins(k) && acts[j] == DrainReturns(k)
    requires forall m :: i < m < j ==> !Reopens(acts[m]) && acts[m] != DrainReturns(k) && acts[m] != DrainGivesUp(k)
    ensures var st, b := StateOf(ss[j].d), CountsFrom(acts, j);
      && st.admissionClosed && st.inFlight == 0
      && ss[j].d.tracked == {} && ss[j].d.live == {} && ss[j].d.permits == {}
      && 0 < b <= j && acts[b - 1].DrainBegins? && !ClosedBy(acts, b - 1)
      && (forall m :: b <= m < j ==> !acts[m].Resume?)
      && (st.failures == 0 <==>
          && (forall m :: b <= m < j ==> !FailsWork(ss, acts, m))
          && (forall m :: 0 <= m < j ==> !FailsReservation(ss, acts, m)))
  {
    CapturedChannelStays(ss, acts, i, j, k);
    InvRun(ss, acts, j);
    assert Step(ss[j], acts[j], ss[j + 1]);
    NothingOutstanding(ss[j].d);
    ClosedIff(ss, acts, j);
    CountsFromClosing(acts, j);
    ReportExact(ss, acts, j);
    NoFailures(ss, acts, CountsFrom(acts, j), j);
  }

  // -------------------------------------------------------------- the tracker

  /** The tracker as the code keeps it; each method is one locked section. */
  class DrainTracker {
    var closed: bool
    var pending: int
    var failures: nat
    var durableFailures: nat
    var baseline: nat
    var zero: nat
    var made: nat
    var shut: set<nat>
    var tracked: set<Id>
    var handed: set<Id>
    var live: set<Id>
    var permits: set<Id>

    ghost function View(): Tracker
      reads this
    {
      Tracker(closed, pending, failures, durableFailures, baseline, zero, made, shut,
              tracked, handed, live, permits)
    }

    ghost predicate Valid()
      reads this
    {
      Accounted(View())
    }

    constructor ()
      ensures Valid() && View() == NEW_TRACKER
    {
      closed, pending, failures, durableFailures, baseline := false, 0, 0, 0, 0;
      zero, made, shut := 0, 1, {0};
      tracked, handed, live, permits := {}, {}, {}, {};
    }

    method Track(c: Ctx, env: Id) returns (ok: bool)
      requires Valid() && env !in tracked
      modifies this
      ensures Valid() && View() == TrackAdmission(old(View()), c, env) && ok == Admits(old(View()), c)
    {
      if closed {
        var internal := c.activation.Some? && c.activation.value in live;
        var permitted := c.permit.Some? && c.permit.value in permits;
        if !internal && !permitted {
          return false;
        }
      }
      if pending == 0 {
        zero, made := made, made + 1;
      }
      pending := pending + 1;
      tracked := tracked + {env};
      return true;
    }

    /** Closing the channel is safe: it is open whenever work is outstanding. */
    method FinishEnvelope(env: Id, act: bool, failed: bool)
      requires Valid() && (act || env !in live)
      modifies this
      ensures Valid() && View() == FinishTracked(old(View()), env, act, failed)
    {
      AccountedFinish(View(), env, act, failed);
      if act {
        live := live - {env};
      }
      if env !in tracked {
        return;
      }
      assert |tracked| > 0 && zero !in shut;
      tracked := tracked - {env};
      if failed {
        failures := failures + 1;
      }
      pending := pending - 1;
      if pending == 0 {
        shut := shut + {zero};
      }
    }

    method ReservePermit(permit: Id) returns (ok: bool)
      requires Valid() && permit !in permits
      modifies this
      ensures Valid() && View() == ReserveWork(old(View()), permit) && ok == Reserves(old(View()))
    {
      if closed && pending == 0 {
        return false;
      }
      if pending == 0 {
        zero, made := made, made + 1;
      }
      pending := pending + 1;
      permits := permits + {permit};
      return true;
    }

    method FinishPermit(permit: Id, failed: bool)
      requires Valid()
      modifies this
      ensures Valid() && View() == FinishWork(old(View()), permit, failed)
    {
      AccountedRelease(View(), permit, failed);
      if permit !in permits {
        return;
      }
      assert |permits| > 0 && zero !in shut;
      permits := permits - {permit};
      if failed {
        durableFailures := durableFailures + 1;
      }
      pending := pending - 1;
      if pending == 0 {
        shut := shut + {zero};
      }
    }

    /** MaintenanceWork up to the call of its function; it never refuses. */
    method EnterMaintenance(permit: Id)
      requires Valid() && permit !in permits
      modifies this
      ensures Valid() && View() == BeginMaintenance(old(View()), permit)
    {
      if pending == 0 {
        zero, made := made, made + 1;
      }
      pending := pending + 1;
      permits := permits + {permit};
    }

    method Reopen()
      requires Valid()
      modifies this
      ensures Valid() && View() == ResumeAdmission(old(View()))
    {
      closed := false;
      baseline := failures;
    }

    /** The first locked section of Drain: close, and capture the channel to wait on. */
    method Close() returns (captured: nat)
      requires Valid()
      modifies this
      ensures Valid() && View() == CloseAdmission(old(View())) && captured == zero
      ensures captured in shut <==> tracked == {} && permits == {}
    {
      if !closed {
        closed := true;
        baseline := failures;
      }
      captured := zero;
      assert |tracked| + |permits| == 0 <==> tracked == {} && permits == {};
    }
  }
}
