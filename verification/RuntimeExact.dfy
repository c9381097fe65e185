/**
 What a run's history says about the event loop and its handlers: where the loop
 is, which events it can receive, and the phase of every activation.
 */
module RuntimeExact {
  import opened Basics
  import opened ServiceRuntime

  /** The steps in which the loop receives something at its select. */
  predicate IsEvent(a: Action) {
    a.Enqueue? || a.Stop? || a.Yield? || a.Resume? || a.Done?
  }

  // ------------------------------------------------------------- where the loop is

  /** At the top of the loop, Stop has come and nothing is live: the loop returns. */
  ghost predicate Returns(ss: seq<Sys>, acts: seq<Action>, k: nat)
    requires k < |acts| <= |ss|
  {
    acts[k].Pass? && Stopped(acts, k) && forall id :: !Live(Ph(ss[k], id))
  }

  ghost predicate Gone(ss: seq<Sys>, acts: seq<Action>, i: nat)
    requires i <= |acts| <= |ss|
  {
    i > 0 && (Returns(ss, acts, i - 1) || Gone(ss, acts, i - 1))
  }

  /** The loop has passed its top, without returning, since the last event. */
  ghost predicate AtSelect(ss: seq<Sys>, acts: seq<Action>, i: nat)
    requires i <= |acts| <= |ss|
  {
    && i > 0 && !IsEvent(acts[i - 1])
    && if acts[i - 1].Pass? then !Returns(ss, acts, i - 1) else AtSelect(ss, acts, i - 1)
  }

  lemma PcStep(o: Opts, ss: seq<Sys>, acts: seq<Action>, i: nat)
    requires IsRun(o, ss, acts) && i < |acts|
    ensures ss[i + 1].pc == (
      if acts[i].Pass? then if Returns(ss, acts, i) then Exited else Select
      else if IsEvent(acts[i]) then Top else ss[i].pc)
    ensures IsEvent(acts[i]) || acts[i].Pass? ==> !ss[i].pc.Exited?
  {
    assert Step(o, ss[i], acts[i], ss[i + 1]);
    if acts[i].Pass? {
      ReturnsIff(o, ss, acts, i);
    }
  }

  /** The loop is at its select, or has returned, exactly when the history says so. */
  lemma {:induction false} PcIff(o: Opts, ss: seq<Sys>, acts: seq<Action>, i: nat)
    requires IsRun(o, ss, acts) && i < |ss|
    ensures ss[i].pc.Select? <==> AtSelect(ss, acts, i)
    ensures ss[i].pc.Exited? <==> Gone(ss, acts, i)
  {
    if i == 0 {
    } else {
      PcIff(o, ss, acts, i - 1);
      PcStep(o, ss, acts, i - 1);
    }
  }

  /** Which events the loop can receive, and when: each once between two passes of
      its top, Stop only once, and nothing after it has returned.  Then, and only
      then, those still being admitted see it gone. */
  lemma EventsExact(o: Opts, ss: seq<Sys>, acts: seq<Action>, i: nat, id: Id)
    requires IsRun(o, ss, acts) && i < |ss|
    ensures var s, at := ss[i], AtSelect(ss, acts, i);
      && (Enabled(o, s, Stop) <==> at && !Stopped(acts, i))
      && (Enabled(o, s, Enqueue(id)) <==> at && Ph(s, id).Admitting?)
      && (Enabled(o, s, Yield(id)) <==> at && Ph(s, id).Running? && !o.noInterleave)
      && (Enabled(o, s, Resume(id)) <==> at && Ph(s, id).Resuming?)
      && (Enabled(o, s, Done(id)) <==> at && Ph(s, id).Finishing?)
      && (Enabled(o, s, Pass) <==> !at && !Gone(ss, acts, i))
      && (Enabled(o, s, SeeDoneWhileAdmitting(id)) <==> Gone(ss, acts, i) && Ph(s, id).Admitting?)
  {
    PcIff(o, ss, acts, i);
    StoppingIff(o, ss, acts, i);
  }

  // ------------------------------------------------- the phase of an activation

  predicate About(a: Action, id: Id) {
    !a.Stop? && !a.Pass? && a.id == id
  }

  /** The last of the first `i` actions that is about `id`. */
  function LastAbout(acts: seq<Action>, i: nat, id: Id): Option<Action>
    requires i <= |acts|
  {
    if i == 0 then None else if About(acts[i - 1], id) then Some(acts[i - 1]) else LastAbout(acts, i - 1, id)
  }

  /** Where an activation stands after the last action about it.  What becomes of
      it between the loop's receiving it and its first grant is the loop's doing,
      and so is whether a yield was accepted. */
  predicate Fits(last: Option<Action>, p: Phase) {
    match last
    case None => p.New?
    case Some(TakeSlot(_)) => p.Admitting?
    case Some(SeeDoneWhileAdmitting(_)) => p.Rejected?
    case Some(Enqueue(_)) => p.Queued? || p.Starting? || p.Dropped?
    case Some(TakeGrant(_)) => p.Running?
    case Some(Yield(_)) => p.Waiting? || p.Running?
    case Some(WaitReturns(_)) => p.Resuming?
    case Some(Resume(_)) => p.Parked?
    case Some(SeeDoneWhileResuming(_)) => p.Running?
    case Some(HandlerReturns(_)) => p.Finishing?
    case Some(Done(_)) => p.Finished?
    case _ => false
  }

  lemma PhaseStep(o: Opts, ss: seq<Sys>, acts: seq<Action>, i: nat, id: Id)
    requires IsRun(o, ss, acts) && i < |acts|
    ensures About(acts[i], id) ==> Fits(Some(acts[i]), Ph(ss[i + 1], id))
    ensures !About(acts[i], id) ==>
      Ph(ss[i + 1], id) == Ph(ss[i], id) || (Ph(ss[i], id).Queued? && Ph(ss[i + 1], id) in {Starting, Dropped})
  {
    assert Step(o, ss[i], acts[i], ss[i + 1]);
    FullInvRun(o, ss, acts, i);
    assert PlacedAt(ss[i], id);
    if acts[i].Stop? {
      StopDropsExactly(o, ss, acts, i, id);
    }
  }

  /** In every state of every run, the phase of an activation is what the last action
      about it left it in. */
  lemma {:induction false} PhaseToldByHistory(o: Opts, ss: seq<Sys>, acts: seq<Action>, i: nat, id: Id)
    requires IsRun(o, ss, acts) && i < |ss|
    ensures Fits(LastAbout(acts, i, id), Ph(ss[i], id))
  {
    if i == 0 {
    } else {
      PhaseToldByHistory(o, ss, acts, i - 1, id);
      PhaseStep(o, ss, acts, i - 1, id);
    }
  }
}
