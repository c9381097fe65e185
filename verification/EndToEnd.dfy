/**
 A remote request from its sender's queue to the start of its handler: the
 network of `Delivery` and the service of `ServiceRuntime` side by side, for one
 target service.  The worker that admits a frame for that target hands it to the
 service's event loop, so the two steps are one; everything else interleaves.
 */
module EndToEnd {
  import opened Basics
  import N = Delivery
  import R = ServiceRuntime
  import S = CallSessions

  type Id = R.Id

  /** `handed` are the envelopes of the target's remote requests in the order the workers handed them over. */
  datatype Sys = Sys(net: N.Net, rt: R.Sys, handed: seq<Id>)

  /** `target` is the address of the service; `opts` are its options.  The requests
      followed are those of one sender; others' are envelopes like any local one. */
  datatype Config = Config(net: N.Config, opts: R.Opts, target: nat)

  datatype Action =
    | OnNet(n: N.Action)
    | OnService(r: R.Action)
    | Handover(shard: nat, id: Id)

  /** The job a network step puts into a mailbox. */
  function Admits(s: N.Net, a: N.Action): Option<N.Job> {
    if a.Decide? && a.admitted && a.shard < |s.shards| && s.shards[a.shard].worker.Working?
    then Some(s.shards[a.shard].worker.job) else None
  }

  predicate ForTarget(c: Config, job: N.Job) {
    job.frame.target == Some(c.target) && job.lane < c.net.lanes
  }

  predicate Enabled(c: Config, s: Sys, a: Action) {
    match a
    case OnNet(n) => N.Enabled(c.net, s.net, n) && (Admits(s.net, n).Some? ==> !ForTarget(c, Admits(s.net, n).value))
    case OnService(r) => R.Enabled(c.opts, s.rt, r)
    case Handover(k, id) =>
      && N.Enabled(c.net, s.net, N.Decide(k, true)) && R.Enabled(c.opts, s.rt, R.Enqueue(id))
      && ForTarget(c, s.net.shards[k].worker.job)
  }

  function Apply(c: Config, s: Sys, a: Action): Sys
    requires Enabled(c, s, a)
  {
    match a
    case OnNet(n) => s.(net := N.Apply(c.net, s.net, n))
    case OnService(r) => s.(rt := R.Apply(c.opts, s.rt, r))
    case Handover(k, id) =>
      Sys(N.Apply(c.net, s.net, N.Decide(k, true)), R.Apply(c.opts, s.rt, R.Enqueue(id)), s.handed + [id])
  }

  ghost predicate Step(c: Config, s: Sys, a: Action, s': Sys) {
    Enabled(c, s, a) && s' == Apply(c, s, a)
  }

  ghost predicate IsRun(c: Config, ss: seq<Sys>, acts: seq<Action>) {
    && c.net.lanes > 0 && |ss| == |acts| + 1 && ss[0] == Sys(N.Init(c.net), R.INIT, [])
    && forall i :: 0 <= i < |acts| ==> Step(c, ss[i], acts[i], ss[i + 1])
  }

  // ---------------------------------------------------------------- invariant

  /** The admissions for the target, in mailbox order. */
  function Requests(c: Config, mailbox: seq<N.Job>): seq<N.Job> {
    if mailbox == [] then []
    else
      var before, job := Requests(c, mailbox[..|mailbox| - 1]), mailbox[|mailbox| - 1];
      if ForTarget(c, job) then before + [job] else before
  }

  lemma RequestsAppend(c: Config, mailbox: seq<N.Job>, job: N.Job)
    ensures Requests(c, mailbox + [job])
         == if ForTarget(c, job) then Requests(c, mailbox) + [job] else Requests(c, mailbox)
  {
    assert (mailbox + [job])[..|mailbox|] == mailbox;
  }

  predicate Handed(p: R.Phase) {
    !p.New? && !p.Admitting? && !p.Rejected?
  }

  /** Handed-over envelopes are past admission, distinct, one per request, and the
      mailbox took those it accepted in the order they were handed over. */
  ghost predicate Linked(rt: R.Sys, handed: seq<Id>) {
    && (forall k :: 0 <= k < |handed| ==> Handed(R.Ph(rt, handed[k])))
    && (forall p :: 0 <= p < |rt.loop.enqueued| ==> Handed(R.Ph(rt, rt.loop.enqueued[p])))
    && Distinct(handed)
    && InOrder(rt.loop.enqueued, handed)
  }

  ghost predicate InOrder(enqueued: seq<Id>, handed: seq<Id>) {
    forall p, q, k, m :: 0 <= p < q < |enqueued| && 0 <= k < |handed| && 0 <= m < |handed| ==>
      enqueued[p] == handed[k] && enqueued[q] == handed[m] ==> k < m
  }

  ghost predicate Inv(c: Config, s: Sys) {
    && N.Inv(c.net, s.net) && R.FullInv(c.opts, s.rt) && Linked(s.rt, s.handed)
    && |s.handed| == |Requests(c, s.net.mailbox)|
  }

  lemma MailboxStep(c: Config, s: N.Net, a: N.Action)
    requires N.Enabled(c.net, s, a)
    ensures N.Apply(c.net, s, a).mailbox == if Admits(s, a).Some? then s.mailbox + [Admits(s, a).value] else s.mailbox
  {
  }

  lemma EnqueuedPass(s: R.Sys)
    ensures R.PassOf(s).loop.enqueued == s.loop.enqueued
  {
  }

  lemma EnqueuedStep(o: R.Opts, s: R.Sys, a: R.Action)
    requires R.Placed(s) && R.Enabled(o, s, a)
    ensures R.Apply(o, s, a).loop.enqueued
         == if a.Enqueue? && !s.loop.stopping then s.loop.enqueued + [a.id] else s.loop.enqueued
  {
    if a.Stop? {
      R.StopEffect(s);
    } else if a.Pass? {
      EnqueuedPass(s);
    }
  }

  lemma HandedStays(o: R.Opts, s: R.Sys, a: R.Action, id: Id)
    requires R.Placed(s) && R.Enabled(o, s, a)
    ensures Handed(R.Ph(s, id)) ==> Handed(R.Ph(R.Apply(o, s, a), id))
    ensures a == R.Enqueue(id) ==> !Handed(R.Ph(s, id)) && Handed(R.Ph(R.Apply(o, s, a), id))
  {
    S.AdmissionMoves(o, s, a, id);
  }

  lemma LinkedService(o: R.Opts, s: R.Sys, a: R.Action, handed: seq<Id>)
    requires R.FullInv(o, s) && R.Enabled(o, s, a) && Linked(s, handed)
    ensures Linked(R.Apply(o, s, a), handed)
  {
    var s' := R.Apply(o, s, a);
    EnqueuedStep(o, s, a);
    forall id | Handed(R.Ph(s, id)) ensures Handed(R.Ph(s', id)) {
      HandedStays(o, s, a, id);
    }
    if a.Enqueue? {
      HandedStays(o, s, a, a.id);
    }
  }

  lemma LinkedHandover(o: R.Opts, s: R.Sys, id: Id, handed: seq<Id>)
    requires R.FullInv(o, s) && R.Enabled(o, s, R.Enqueue(id)) && Linked(s, handed)
    ensures Linked(R.Apply(o, s, R.Enqueue(id)), handed + [id])
  {
    LinkedService(o, s, R.Enqueue(id), handed);
    HandedStays(o, s, R.Enqueue(id), id);
    var s' := R.Apply(o, s, R.Enqueue(id));
    EnqueuedStep(o, s, R.Enqueue(id));
    assert id !in handed && id !in s.loop.enqueued;
    InOrderAppend(s.loop.enqueued, s'.loop.enqueued, handed, id);
  }

  lemma InOrderAppend(enqueued: seq<Id>, enqueued': seq<Id>, handed: seq<Id>, id: Id)
    requires InOrder(enqueued, handed) && id !in enqueued && id !in handed
    requires enqueued' == enqueued || enqueued' == enqueued + [id]
    ensures InOrder(enqueued', handed + [id])
  {
    var handed' := handed + [id];
    forall p, q, k, m | 0 <= p < q < |enqueued'| && 0 <= k < |handed'| && 0 <= m < |handed'|
      && enqueued'[p] == handed'[k] && enqueued'[q] == handed'[m]
      ensures k < m
    {
      assert enqueued'[p] == enqueued[p] && k < |handed|;
    }
  }

  /** The network's part of a step: one request more exactly when it admits one for the target. */
  lemma NetPart(c: Config, s: N.Net, a: N.Action)
    requires N.Inv(c.net, s) && N.Enabled(c.net, s, a) && c.net.lanes > 0
    ensures var s' := N.Apply(c.net, s, a);
      && N.Inv(c.net, s')
      && |Requests(c, s'.mailbox)| == |Requests(c, s.mailbox)|
           + if Admits(s, a).Some? && ForTarget(c, Admits(s, a).value) then 1 else 0
  {
    N.InvStep(c.net, s, a);
    MailboxStep(c, s, a);
    if Admits(s, a).Some? {
      RequestsAppend(c, s.mailbox, Admits(s, a).value);
    }
  }

  lemma InvStep(c: Config, s: Sys, a: Action)
    requires Inv(c, s) && Enabled(c, s, a) && c.net.lanes > 0
    ensures Inv(c, Apply(c, s, a))
  {
    match a
    case OnNet(n) =>
      NetPart(c, s.net, n);
    case OnService(r) =>
      R.FullInvStep(c.opts, s.rt, r);
      LinkedService(c.opts, s.rt, r, s.handed);
    case Handover(k, id) =>
      NetPart(c, s.net, N.Decide(k, true));
      R.FullInvStep(c.opts, s.rt, R.Enqueue(id));
      LinkedHandover(c.opts, s.rt, id, s.handed);
  }

  lemma {:induction false} InvRun(c: Config, ss: seq<Sys>, acts: seq<Action>, i: nat)
    requires IsRun(c, ss, acts) && i < |ss|
    ensures Inv(c, ss[i])
  {
    if i == 0 {
      N.InvInit(c.net);
      R.FullInvRun(c.opts, [R.INIT], [], 0);
    } else {
      InvRun(c, ss, acts, i - 1);
      assert Step(c, ss[i - 1], acts[i - 1], ss[i]);
      InvStep(c, ss[i - 1], acts[i - 1]);
    }
  }

  // -------------------------------------------------------------- main result

  /** Where in the mailbox the k-th and a later request for the target are. */
  lemma {:induction false} RequestPositions(c: Config, mailbox: seq<N.Job>, k: nat, m: nat) returns (e: nat, e': nat)
    requires k < m < |Requests(c, mailbox)|
    ensures e < e' < |mailbox| && mailbox[e] == Requests(c, mailbox)[k] && mailbox[e'] == Requests(c, mailbox)[m]
    ensures ForTarget(c, mailbox[e]) && ForTarget(c, mailbox[e'])
  {
    var front := mailbox[..|mailbox| - 1];
    if m < |Requests(c, front)| {
      e, e' := RequestPositions(c, front, k, m);
    } else {
      e' := |mailbox| - 1;
      e := RequestPosition(c, front, k);
    }
  }

  lemma {:induction false} RequestPosition(c: Config, mailbox: seq<N.Job>, k: nat) returns (e: nat)
    requires k < |Requests(c, mailbox)|
    ensures e < |mailbox| && mailbox[e] == Requests(c, mailbox)[k] && ForTarget(c, mailbox[e])
  {
    var front := mailbox[..|mailbox| - 1];
    if k < |Requests(c, front)| {
      e := RequestPosition(c, front, k);
    } else {
      e := |mailbox| - 1;
    }
  }

  /** End-to-end order: in every run, of any two remote requests whose handlers
      have started, the handler of the one its sender enqueued first started
      first.  `k` and `m` are the places of the two among the requests handed
      over; both are frames of one lane's enqueue order. */
  lemma StartsInSenderOrder(c: Config, ss: seq<Sys>, acts: seq<Action>, i: nat, p: nat, q: nat, k: nat, m: nat)
    requires IsRun(c, ss, acts) && i < |ss| && p < q < |ss[i].rt.loop.starts|
    requires k < |ss[i].handed| && m < |ss[i].handed|
    requires ss[i].rt.loop.starts[p] == ss[i].handed[k] && ss[i].rt.loop.starts[q] == ss[i].handed[m]
    ensures |Requests(c, ss[i].net.mailbox)| == |ss[i].handed|
    ensures var a, b := Requests(c, ss[i].net.mailbox)[k], Requests(c, ss[i].net.mailbox)[m];
      && a.frame.target == b.frame.target == Some(c.target)
      && a.lane == b.lane < |ss[i].net.lanes|
      && a.frame.n < b.frame.n < |ss[i].net.lanes[a.lane].enq|
      && ss[i].net.lanes[a.lane].enq[a.frame.n] == a.frame
      && ss[i].net.lanes[a.lane].enq[b.frame.n] == b.frame
  {
    var s := ss[i];
    InvRun(c, ss, acts, i);
    assert s.rt.loop.starts[p] == s.rt.loop.enqueued[p] && s.rt.loop.starts[q] == s.rt.loop.enqueued[q];
    assert k < m;
    var e, e' := RequestPositions(c, s.net.mailbox, k, m);
    N.MailboxOrderAt(c.net, s.net, e, e');
  }

  // ----------------------------------------------------------- the parts are runs

  /** What an action is to the network and to the service, if anything. */
  function NetAction(a: Action): Option<N.Action> {
    if a.OnNet? then Some(a.n) else if a.Handover? then Some(N.Decide(a.shard, true)) else None
  }

  function ServiceAction(a: Action): Option<R.Action> {
    if a.OnService? then Some(a.r) else if a.Handover? then Some(R.Enqueue(a.id)) else None
  }

  function NetActions(acts: seq<Action>): seq<N.Action> {
    if acts == [] then []
    else
      var n := NetAction(acts[|acts| - 1]);
      NetActions(acts[..|acts| - 1]) + if n.Some? then [n.value] else []
  }

  function ServiceActions(acts: seq<Action>): seq<R.Action> {
    if acts == [] then []
    else
      var r := ServiceAction(acts[|acts| - 1]);
      ServiceActions(acts[..|acts| - 1]) + if r.Some? then [r.value] else []
  }

  lemma Parts(c: Config, ss: seq<Sys>, acts: seq<Action>, i: nat)
    requires IsRun(c, ss, acts) && i < |acts|
    ensures var n := NetAction(acts[i]);
      if n.Some? then N.Step(c.net, ss[i].net, n.value, ss[i + 1].net) else ss[i + 1].net == ss[i].net
    ensures var r := ServiceAction(acts[i]);
      if r.Some? then R.Step(c.opts, ss[i].rt, r.value, ss[i + 1].rt) else ss[i + 1].rt == ss[i].rt
    ensures ss[i + 1].handed == ss[i].handed + if acts[i].Handover? then [acts[i].id] else []
  {
    assert Step(c, ss[i], acts[i], ss[i + 1]);
  }

  /** The network's part of a run is a run of the network, so all that is proved of
      its runs holds beside the service. */
  lemma {:induction false} NetRuns(c: Config, ss: seq<Sys>, acts: seq<Action>, i: nat) returns (ns: seq<N.Net>)
    requires IsRun(c, ss, acts) && i < |ss|
    ensures N.IsRun(c.net, ns, NetActions(acts[..i])) && ns[|ns| - 1] == ss[i].net
  {
    if i == 0 {
      ns := [N.Init(c.net)];
    } else {
      ns := NetRuns(c, ss, acts, i - 1);
      assert acts[..i][..i - 1] == acts[..i - 1];
      Parts(c, ss, acts, i - 1);
      var n := NetAction(acts[i - 1]);
      if n.Some? {
        N.RunMore(c.net, ns, NetActions(acts[..i - 1]), n.value, ss[i].net);
        ns := ns + [ss[i].net];
      }
    }
  }

  /** The service's part of a run is a run of the service. */
  lemma {:induction false} ServiceRuns(c: Config, ss: seq<Sys>, acts: seq<Action>, i: nat) returns (rs: seq<R.Sys>)
    requires IsRun(c, ss, acts) && i < |ss|
    ensures R.IsRun(c.opts, rs, ServiceActions(acts[..i])) && rs[|rs| - 1] == ss[i].rt
  {
    if i == 0 {
      rs := [R.INIT];
    } else {
      rs := ServiceRuns(c, ss, acts, i - 1);
      assert acts[..i][..i - 1] == acts[..i - 1];
      Parts(c, ss, acts, i - 1);
      var r := ServiceAction(acts[i - 1]);
      if r.Some? {
        R.RunMore(c.opts, rs, ServiceActions(acts[..i - 1]), r.value, ss[i].rt);
        rs := rs + [ss[i].rt];
      }
    }
  }
}
