/**
 Call sessions over a running service: the race between the runtime answering
 a call and its caller giving up.  The state couples the service of
 `ServiceRuntime` with the session table and one caller process per call.
 */
module CallSessions {
  import opened Basics
  import opened ServiceRuntime

  /** Where the process that made the call stands.
      - Admission: session registered, admission under way
      - AwaitReply: admitted, selecting on its response, timeout, cancel and stop
      - MustReceive: cancelled too late, blocked on its response
      - GotReply, GaveUp, AdmitError: returned */
  datatype Caller = NotACall | Admission | AwaitReply | MustReceive | GotReply | GaveUp | AdmitError

  /** `sent` counts the values put on each response channel; `answered`,
      `byCompletion` and `byCancel` record which calls the runtime answered and
      how each session left the table. */
  datatype Sess = Sess(
    pending: set<Id>,
    sending: set<Id>,
    sent: multiset<Id>,
    caller: map<Id, Caller>,
    unknown: nat,
    answered: set<Id>,
    byCompletion: set<Id>,
    byCancel: set<Id>)

  datatype World = World(rt: Sys, sx: Sess)

  const INIT_WORLD := World(INIT, Sess({}, {}, multiset{}, map[], 0, {}, {}, {}))

  function CallerOf(x: Sess, id: Id): Caller {
    if id in x.caller then x.caller[id] else NotACall
  }

  /** completeSession, once for each of `ids`: take the session out of the table
      and owe its caller a value, or count an unknown response. */
  function Complete(x: Sess, ids: set<Id>): Sess {
    var hit := ids * x.pending;
    x.(pending := x.pending - hit, sending := x.sending + hit, byCompletion := x.byCompletion + hit,
       unknown := x.unknown + |ids - x.pending|, answered := x.answered + ids)
  }

  function Cancel(x: Sess, id: Id): Sess {
    if id in x.pending then x.(pending := x.pending - {id}, byCancel := x.byCancel + {id}) else x
  }

  function SetCaller(x: Sess, id: Id, c: Caller): Sess {
    x.(caller := x.caller[id := c])
  }

  function Registered(x: Sess, id: Id): Sess {
    SetCaller(x, id, Admission).(pending := x.pending + {id})
  }

  /** The value owed to a completed session's caller is on its channel. */
  function Delivered(x: Sess, id: Id): Sess {
    x.(sending := x.sending - {id}, sent := x.sent + multiset{id})
  }

  /** The envelopes a runtime action answers. */
  function Answers(s: Sys, a: Action): set<Id> {
    match a
    case Enqueue(id) => if s.loop.stopping then {id} else {}
    case Stop => set id | id in Unstarted(s.loop.ready, s.loop.started)
    case Pass =>
      if && !MayReturn(s.loop) && s.loop.current.None? && s.loop.ready != []
         && s.loop.stopping && s.loop.ready[0] !in s.loop.started
      then {s.loop.ready[0]} else {}
    case HandlerReturns(id) => {id}
    case _ => {}
  }

  datatype Move =
    | Runtime(a: Action)
    | Register(id: Id)
    | AdmissionFails(id: Id)
    | Deliver(id: Id)
    | Receive(id: Id)
    | GiveUp(id: Id)

  predicate CanMove(o: Opts, w: World, m: Move) {
    match m
    case Runtime(a) =>
      Enabled(o, w.rt, a) && (a.TakeSlot? ==> CallerOf(w.sx, a.id) in {NotACall, Admission})
    case Register(id) => CallerOf(w.sx, id) == NotACall && Ph(w.rt, id) == New
    case AdmissionFails(id) => CallerOf(w.sx, id) == Admission && Ph(w.rt, id) == New
    case Deliver(id) => id in w.sx.sending
    case Receive(id) => CallerOf(w.sx, id) in {AwaitReply, MustReceive} && id in w.sx.sent
    case GiveUp(id) => CallerOf(w.sx, id) == AwaitReply
  }

  /** The answered envelopes that are calls. */
  function CallsAmong(x: Sess, answers: set<Id>): set<Id> {
    set id | id in answers && CallerOf(x, id) != NotACall
  }

  /** What a runtime action that answers `answers` does to the sessions. */
  function Effect(x: Sess, a: Action, answers: set<Id>): Sess {
    AdmissionEnds(Complete(x, CallsAmong(x, answers)), a)
  }

  /** A caller whose admission the action decides goes on to await its reply, or cancels. */
  function AdmissionEnds(x: Sess, a: Action): Sess {
    if a.Enqueue? && CallerOf(x, a.id) == Admission then SetCaller(x, a.id, AwaitReply)
    else if a.SeeDoneWhileAdmitting? && CallerOf(x, a.id) == Admission
    then SetCaller(Cancel(x, a.id), a.id, AdmitError)
    else x
  }

  function Do(o: Opts, w: World, m: Move): World {
    match m
    case Runtime(a) => World(Apply(o, w.rt, a), Effect(w.sx, a, Answers(w.rt, a)))
    case Register(id) => w.(sx := Registered(w.sx, id))
    case AdmissionFails(id) => w.(sx := SetCaller(Cancel(w.sx, id), id, AdmitError))
    case Deliver(id) => w.(sx := Delivered(w.sx, id))
    case Receive(id) => w.(sx := SetCaller(w.sx, id, GotReply))
    case GiveUp(id) =>
      w.(sx := SetCaller(Cancel(w.sx, id), id, if id in w.sx.pending then GaveUp else MustReceive))
  }

  ghost predicate Moves(o: Opts, w: World, m: Move, w': World) {
    CanMove(o, w, m) && w' == Do(o, w, m)
  }

  ghost predicate IsHistory(o: Opts, ws: seq<World>, ms: seq<Move>) {
    && |ws| == |ms| + 1 && ws[0] == INIT_WORLD
    && forall i :: 0 <= i < |ms| ==> Moves(o, ws[i], ms[i], ws[i + 1])
  }

  predicate Over(p: Phase) {
    p.Finishing? || p.Finished? || p.Dropped?
  }

  /** What holds of each call, whatever its caller and the runtime have done. */
  ghost predicate SettledAt(w: World, id: Id) {
    SettledAs(w.sx, id, Ph(w.rt, id))
  }

  ghost predicate SettledAs(x: Sess, id: Id, p: Phase) {
    Booked(x, id, Over(p)) && Staged(CallerOf(x, id), id in x.pending, p)
  }

  /** The books agree about `id`, whose envelope is over or not. */
  ghost predicate Booked(x: Sess, id: Id, over: bool) {
    var c := CallerOf(x, id);
    && (c.NotACall? <==> id !in x.pending && id !in x.byCompletion && id !in x.byCancel)
    && !(id in x.pending && id in x.byCompletion)
    && !(id in x.pending && id in x.byCancel)
    && !(id in x.byCompletion && id in x.byCancel)
    && (id in x.answered <==> !c.NotACall? && over)
    && (id in x.byCompletion ==> id in x.answered)
    && (id in x.pending ==> id !in x.answered)
    && (id in x.sending ==> id in x.byCompletion)
    && x.sent[id] == (if id in x.byCompletion && id !in x.sending then 1 else 0)
    && (c.Admission? || c.AwaitReply? ==> id !in x.byCancel)
    && (c.MustReceive? || c.GotReply? ==> id in x.byCompletion)
    && (c.GaveUp? || c.AdmitError? ==> id in x.byCancel)
  }

  /** The caller stands where the admission of its envelope has got to. */
  predicate Staged(c: Caller, pending: bool, p: Phase) {
    && (c.Admission? ==> pending && (p.New? || p.Admitting?))
    && (c.AdmitError? ==> p.New? || p.Rejected?)
    && (c.AwaitReply? || c.GaveUp? || c.MustReceive? || c.GotReply? ==> !p.New? && !p.Admitting? && !p.Rejected?)
  }

  ghost predicate Settled(w: World) {
    && (forall id :: SettledAt(w, id))
    && CountExact(w.sx)
  }

  /** A runtime action answers an envelope exactly when it makes it over. */
  lemma AnswersExactly(o: Opts, s: Sys, a: Action, id: Id)
    requires Placed(s) && Enabled(o, s, a)
    ensures id in Answers(s, a) <==> !Over(Ph(s, id)) && Over(Ph(Apply(o, s, a), id))
    ensures Over(Ph(s, id)) ==> Over(Ph(Apply(o, s, a), id))
  {
    assert PlacedAt(s, id);
    UnstartedElems(s.loop.ready, s.loop.started);
    if a.Pass? && s.loop.ready != [] {
      assert PlacedAt(s, s.loop.ready[0]);
    }
  }

  /** Besides a handler's own answer, an action answers exactly the envelopes the
      loop's record of failed ones gains. */
  lemma AnswersAreFailed(o: Opts, s: Sys, a: Action, id: Id)
    requires Placed(s) && StopClean(s) && Answered(s) && Enabled(o, s, a)
    ensures var failed, failed' := s.loop.failed, Apply(o, s, a).loop.failed;
      if a.HandlerReturns? then failed' == failed
      else id in Answers(s, a) <==> id in failed' && id !in failed
  {
    if !a.HandlerReturns? {
      AnsweredStep(o, s, a);
      AnswersExactly(o, s, a, id);
      assert FailedAt(s, id) && FailedAt(Apply(o, s, a), id);
      FinishingIsReturning(o, s, a, id);
    }
  }

  lemma FinishingIsReturning(o: Opts, s: Sys, a: Action, id: Id)
    requires Placed(s) && StopClean(s) && Enabled(o, s, a) && a != HandlerReturns(id)
    ensures Over(Ph(Apply(o, s, a), id)) && !Over(Ph(s, id)) ==> Ph(Apply(o, s, a), id).Dropped?
    ensures Ph(Apply(o, s, a), id).Dropped? && !Ph(s, id).Dropped? ==> !Over(Ph(s, id))
  {
    assert PlacedAt(s, id);
    UnstartedElems(s.loop.ready, s.loop.started);
  }

  /** How an envelope may move through admission in one action. */
  predicate AdmissionMove(a: Action, id: Id, p: Phase, p': Phase) {
    && (p.New? && !(a.TakeSlot? && a.id == id) ==> p'.New?)
    && (p.New? ==> p'.New? || p'.Admitting?)
    && (p.Admitting? ==> if a.Enqueue? && a.id == id then !p'.New? && !p'.Admitting? && !p'.Rejected?
                         else if a.SeeDoneWhileAdmitting? && a.id == id then p'.Rejected? else p'.Admitting?)
    && (p.Rejected? ==> p'.Rejected?)
    && (!p.New? && !p.Admitting? && !p.Rejected? ==> !p'.New? && !p'.Admitting? && !p'.Rejected?)
    && ((a.Enqueue? || a.SeeDoneWhileAdmitting?) && a.id == id ==> p.Admitting?)
  }

  lemma AdmissionMoves(o: Opts, s: Sys, a: Action, id: Id)
    requires Placed(s) && Enabled(o, s, a)
    ensures AdmissionMove(a, id, Ph(s, id), Ph(Apply(o, s, a), id))
  {
    assert PlacedAt(s, id);
    UnstartedElems(s.loop.ready, s.loop.started);
    if a.Pass? && s.loop.ready != [] {
      assert PlacedAt(s, s.loop.ready[0]);
    }
  }

  lemma BookedComplete(x: Sess, calls: set<Id>, id: Id, over: bool, over': bool)
    requires Booked(x, id, over) && (over ==> over')
    requires id in calls <==> CallerOf(x, id) != NotACall && !over && over'
    ensures Booked(Complete(x, calls), id, over')
  {
  }

  lemma BookedAdmission(x: Sess, a: Action, id: Id, p: Phase, p': Phase)
    requires Booked(x, id, Over(p')) && AdmissionMove(a, id, p, p') && Staged(CallerOf(x, id), true, p)
    requires CallerOf(x, id).Admission? && !Over(p') ==> id in x.pending
    requires a.TakeSlot? && a.id == id ==> CallerOf(x, id).NotACall? || CallerOf(x, id).Admission?
    ensures SettledAs(AdmissionEnds(x, a), id, p')
  {
  }

  lemma SettledAsEffect(x: Sess, a: Action, answers: set<Id>, id: Id, p: Phase, p': Phase)
    requires SettledAs(x, id, p) && AdmissionMove(a, id, p, p')
    requires id in answers <==> !Over(p) && Over(p')
    requires Over(p) ==> Over(p')
    requires a.TakeSlot? && a.id == id ==> CallerOf(x, id).NotACall? || CallerOf(x, id).Admission?
    ensures SettledAs(Effect(x, a, answers), id, p')
  {
    BookedComplete(x, CallsAmong(x, answers), id, Over(p), Over(p'));
    BookedAdmission(Complete(x, CallsAmong(x, answers)), a, id, p, p');
  }

  lemma SettledAtRuntime(o: Opts, w: World, a: Action, id: Id)
    requires Placed(w.rt) && CanMove(o, w, Runtime(a)) && SettledAt(w, id)
    ensures SettledAt(Do(o, w, Runtime(a)), id)
  {
    AnswersExactly(o, w.rt, a, id);
    AdmissionMoves(o, w.rt, a, id);
    SettledAsEffect(w.sx, a, Answers(w.rt, a), id, Ph(w.rt, id), Ph(Apply(o, w.rt, a), id));
  }

  lemma SettledAtCaller(o: Opts, w: World, m: Move, id: Id)
    requires !m.Runtime? && CanMove(o, w, m) && SettledAt(w, id)
    ensures SettledAt(Do(o, w, m), id)
  {
  }

  /** The count of completions that found no session is exact. */
  ghost predicate CountExact(x: Sess) {
    x.unknown == |x.answered * x.byCancel|
  }

  /** Answering calls none of which was answered before keeps the count exact. */
  lemma UnknownComplete(x: Sess, calls: set<Id>)
    requires CountExact(x)
    requires forall id :: id in calls ==> id !in x.answered && (id in x.pending <==> id !in x.byCancel)
    ensures CountExact(Complete(x, calls))
  {
    var late := x.answered * x.byCancel;
    var missed := calls - x.pending;
    forall id | id in missed ensures id in x.byCancel && id !in x.answered {
      assert id in calls;
    }
    forall id | id in calls && id in x.byCancel ensures id in missed {
    }
    assert (x.answered + calls) * x.byCancel == late + missed;
    assert late !! missed;
  }

  lemma UnknownCancel(x: Sess, id: Id, c: Caller)
    requires CountExact(x)
    ensures CountExact(SetCaller(x, id, c))
    ensures id !in x.answered ==> CountExact(SetCaller(Cancel(x, id), id, c))
  {
    assert id !in x.answered ==> x.answered * (x.byCancel + {id}) == x.answered * x.byCancel;
  }

  lemma UnknownEffect(x: Sess, a: Action, answers: set<Id>)
    requires CountExact(x)
    requires forall id :: id in answers && CallerOf(x, id) != NotACall ==>
               id !in x.answered && (id in x.pending <==> id !in x.byCancel)
    requires a.SeeDoneWhileAdmitting? ==> a.id !in answers && a.id !in x.answered
    ensures CountExact(Effect(x, a, answers))
  {
    var calls := CallsAmong(x, answers);
    UnknownComplete(x, calls);
    if a.Enqueue? {
      UnknownCancel(Complete(x, calls), a.id, AwaitReply);
    } else if a.SeeDoneWhileAdmitting? {
      UnknownCancel(Complete(x, calls), a.id, AdmitError);
    }
  }

  lemma UnknownRuntime(o: Opts, w: World, a: Action)
    requires Placed(w.rt) && CanMove(o, w, Runtime(a)) && Settled(w)
    ensures CountExact(Do(o, w, Runtime(a)).sx)
  {
    var answers := Answers(w.rt, a);
    forall id | id in answers && CallerOf(w.sx, id) != NotACall
      ensures id !in w.sx.answered && (id in w.sx.pending <==> id !in w.sx.byCancel)
    {
      assert SettledAt(w, id);
      AnswersExactly(o, w.rt, a, id);
    }
    if a.SeeDoneWhileAdmitting? {
      assert SettledAt(w, a.id);
      AnswersExactly(o, w.rt, a, a.id);
      AdmissionMoves(o, w.rt, a, a.id);
    }
    UnknownEffect(w.sx, a, answers);
  }

  lemma UnknownCaller(o: Opts, w: World, m: Move)
    requires !m.Runtime? && CanMove(o, w, m) && Settled(w)
    ensures CountExact(Do(o, w, m).sx)
  {
    assert SettledAt(w, m.id);
    assert Do(o, w, m).sx.answered * Do(o, w, m).sx.byCancel == w.sx.answered * w.sx.byCancel;
  }

  ghost predicate WorldInv(o: Opts, w: World) {
    Inv(o, w.rt) && Settled(w)
  }

  lemma WorldInvStep(o: Opts, w: World, m: Move)
    requires WorldInv(o, w) && CanMove(o, w, m)
    ensures WorldInv(o, Do(o, w, m))
  {
    match m
    case Runtime(a) =>
      InvStep(o, w.rt, a);
      UnknownRuntime(o, w, a);
      forall id ensures SettledAt(Do(o, w, m), id) {
        assert SettledAt(w, id);
        SettledAtRuntime(o, w, a, id);
      }
    case _ =>
      UnknownCaller(o, w, m);
      forall id ensures SettledAt(Do(o, w, m), id) {
        assert SettledAt(w, id);
        SettledAtCaller(o, w, m, id);
      }
  }

  lemma {:induction false} WorldInvHistory(o: Opts, ws: seq<World>, ms: seq<Move>, i: nat)
    requires IsHistory(o, ws, ms) && i < |ws|
    ensures WorldInv(o, ws[i])
  {
    if i == 0 {
      assert forall id :: PlacedAt(INIT, id) && SettledAt(INIT_WORLD, id);
    } else {
      WorldInvHistory(o, ws, ms, i - 1);
      assert Moves(o, ws[i - 1], ms[i - 1], ws[i]);
      WorldInvStep(o, ws[i - 1], ms[i - 1]);
    }
  }

  // ------------------------------------------------------------- main results

  function One(b: bool): nat {
    if b then 1 else 0
  }

  /** In every state of every history each registered call is either still in
      the table or was settled by exactly one of completion and cancellation; its
      channel receives at most one value and is empty when one is about to be
      sent; a caller whose cancel failed has a value on its way; a caller that
      gave up is never sent one. */
  lemma ExactlyOnceSettlement(o: Opts, ws: seq<World>, ms: seq<Move>, i: nat, id: Id)
    requires IsHistory(o, ws, ms) && i < |ws| && CallerOf(ws[i].sx, id) != NotACall
    ensures var x := ws[i].sx;
      && One(id in x.pending) + One(id in x.byCompletion) + One(id in x.byCancel) == 1
      && x.sent[id] <= 1
      && (id in x.sending ==> x.sent[id] == 0)
      && (CallerOf(x, id).MustReceive? ==> id in x.sending || x.sent[id] == 1)
      && (CallerOf(x, id) in {GaveUp, AdmitError} ==> id !in x.sending && x.sent[id] == 0)
  {
    WorldInvHistory(o, ws, ms, i);
    assert SettledAt(ws[i], id);
  }

  ghost predicate SettledMore(x: Sess, x': Sess) {
    x.byCompletion <= x'.byCompletion && x.byCancel <= x'.byCancel
  }

  lemma CompleteSettlesMore(x: Sess, ids: set<Id>)
    ensures SettledMore(x, Complete(x, ids))
  {
  }

  lemma AdmissionSettlesMore(x: Sess, a: Action)
    ensures SettledMore(x, AdmissionEnds(x, a))
  {
  }

  lemma SettledMoreTrans(x: Sess, y: Sess, z: Sess)
    requires SettledMore(x, y) && SettledMore(y, z)
    ensures SettledMore(x, z)
  {
  }

  lemma SettlementStep(o: Opts, w: World, m: Move)
    requires CanMove(o, w, m)
    ensures SettledMore(w.sx, Do(o, w, m).sx)
  {
    if m.Runtime? {
      var calls := CallsAmong(w.sx, Answers(w.rt, m.a));
      CompleteSettlesMore(w.sx, calls);
      AdmissionSettlesMore(Complete(w.sx, calls), m.a);
      SettledMoreTrans(w.sx, Complete(w.sx, calls), Do(o, w, m).sx);
    }
  }

  /** How a session was settled never changes afterwards. */
  lemma {:induction false} SettlementIsFinal(o: Opts, ws: seq<World>, ms: seq<Move>, i: nat, j: nat)
    requires IsHistory(o, ws, ms) && i <= j < |ws|
    ensures ws[i].sx.byCompletion <= ws[j].sx.byCompletion && ws[i].sx.byCancel <= ws[j].sx.byCancel
  {
    if i == j {
    } else {
      SettlementIsFinal(o, ws, ms, i, j - 1);
      assert Moves(o, ws[j - 1], ms[j - 1], ws[j]);
      SettlementStep(o, ws[j - 1], ms[j - 1]);
    }
  }

  /** Once every admitted call is over, the unknown-response counter is the
      number of admitted calls whose caller gave up first. */
  lemma UnknownCountsAbandonedCalls(o: Opts, ws: seq<World>, ms: seq<Move>, i: nat, abandoned: set<Id>)
    requires IsHistory(o, ws, ms) && i < |ws|
    requires forall id :: Live(Ph(ws[i].rt, id)) ==> Over(Ph(ws[i].rt, id))
    requires forall id :: id in abandoned <==> CallerOf(ws[i].sx, id).GaveUp?
    ensures ws[i].sx.unknown == |abandoned|
  {
    var w := ws[i];
    WorldInvHistory(o, ws, ms, i);
    forall id ensures id in abandoned <==> id in w.sx.answered * w.sx.byCancel {
      assert SettledAt(w, id);
      assert PlacedAt(w.rt, id);
    }
    assert abandoned == w.sx.answered * w.sx.byCancel;
  }

  // -------------------------------------------------------- the session table

  /** The table as the code keeps it: the sessions still pending, the response
      buffers (capacity one) and the unknown-response counter.  `sess` is the
      session state of the world above that it stands for. */
  class SessionTable<Result> {
    var pending: set<Id>
    var buffer: map<Id, seq<Result>>
    var unknown: nat
    ghost var sess: Sess

    ghost predicate Valid()
      reads this
    {
      && pending == sess.pending && unknown == sess.unknown && sess.sending == {}
      && pending <= buffer.Keys && buffer.Keys == sess.caller.Keys
      && (forall id :: sess.sent[id] == (if id in buffer then |buffer[id]| else 0) <= 1)
      && (forall id :: id in pending ==> buffer[id] == [])
    }

    constructor ()
      ensures Valid() && pending == {} && buffer == map[] && sess == INIT_WORLD.sx
    {
      pending, buffer, unknown, sess := {}, map[], 0, INIT_WORLD.sx;
    }

    method RegisterSession(id: Id)
      requires Valid() && id !in buffer
      modifies this
      ensures Valid() && sess == Registered(old(sess), id)
      ensures buffer == old(buffer)[id := []]
    {
      pending := pending + {id};
      buffer := buffer[id := []];
      sess := Registered(sess, id);
    }

    method CancelSession(id: Id) returns (loaded: bool)
      requires Valid()
      modifies this
      ensures Valid() && sess == Cancel(old(sess), id)
      ensures buffer == old(buffer) && (loaded <==> id in old(pending))
    {
      loaded := id in pending;
      pending := pending - {id};
      sess := Cancel(sess, id);
    }

    /** Completing takes the session out of the table and delivers its value at
        once; the send never blocks, because a pending session's buffer is empty. */
    method CompleteSession(id: Id, result: Result) returns (loaded: bool)
      requires Valid()
      modifies this
      ensures Valid() && (loaded <==> id in old(pending))
      ensures sess == if loaded then Delivered(Complete(old(sess), {id}), id) else Complete(old(sess), {id})
      ensures buffer == if loaded then old(buffer)[id := [result]] else old(buffer)
    {
      loaded := id in pending;
      ghost var x := Complete(sess, {id});
      assert {id} * pending == if loaded then {id} else {};
      assert {id} - pending == if loaded then {} else {id};
      if !loaded {
        unknown := unknown + 1;
        sess := x;
      } else {
        pending := pending - {id};
        assert |buffer[id]| < 1;
        assert buffer[id] + [result] == [result];
        buffer := buffer[id := buffer[id] + [result]];
        sess := Delivered(x, id);
        assert x.sending - {id} == {};
      }
    }
  }
}
