/**
 One outgoing peer connection: any number of enqueuers, the write loop and a
 close that may race with both, and the table of requests awaiting a response.
 Each action is one atomic step of one goroutine.
 */
module PeerClose {
  import opened Basics

  type Id = int

  /** The send queue's capacity, and which items are notifications. */
  datatype Config = Config(cap: nat, notify: iset<Id>)

  /** Where an item is.
      - Offered: its enqueuer is inside enqueue, past beginEnqueue
      - Queued: enqueue returned nil, the item is in the send queue
      - InHand: taken by the write loop
      - Written: the write returned without error
      - Failed: handed to reportSendFailure
      - Refused: enqueue returned an error */
  datatype Place = New | Offered | Queued | InHand | Written | Failed | Refused

  datatype Closing = Open | Marked | Draining | Closed

  /** `written` and `reported` count how often each item was written and how
      often its failure was reported; `waitGroup` is the enqueue wait group. */
  datatype Peer = Peer(
    send: seq<Id>,
    holding: Option<Id>,
    closing: Closing,
    waitGroup: int,
    place: map<Id, Place>,
    offered: set<Id>,
    written: multiset<Id>,
    reported: multiset<Id>)

  const INIT := Peer([], None, Open, 0, map[], {}, multiset{}, multiset{})

  function PlaceOf(s: Peer, id: Id): Place {
    if id in s.place then s.place[id] else New
  }

  datatype Action =
    | BeginEnqueue(id: Id)
    | Refuse(id: Id)
    | Accept(id: Id)
    | WriterTakes
    | WriteSucceeds
    | WriteFails
    | CloseBegins
    | WaitEnds
    | DrainOne
    | DrainEnds

  predicate Enabled(c: Config, s: Peer, a: Action) {
    match a
    case BeginEnqueue(id) => PlaceOf(s, id).New?
    case Refuse(id) => id in s.offered
    case Accept(id) => id in s.offered && |s.send| < c.cap
    case WriterTakes => s.holding.None? && s.send != []
    case WriteSucceeds => s.holding.Some?
    case WriteFails => s.holding.Some?
    case CloseBegins => s.closing.Open?
    case WaitEnds => s.closing.Marked? && s.waitGroup == 0
    case DrainOne => s.closing.Draining? && s.send != []
    case DrainEnds => s.closing.Draining? && s.send == []
  }

  function Move(s: Peer, id: Id, p: Place): Peer {
    s.(place := s.place[id := p])
  }

  ghost function Report(c: Config, s: Peer, id: Id): Peer {
    Move(s, id, Failed).(reported := if id in c.notify then s.reported + multiset{id} else s.reported)
  }

  ghost function Apply(c: Config, s: Peer, a: Action): Peer
    requires Enabled(c, s, a)
  {
    match a
    case BeginEnqueue(id) =>
      if !s.closing.Open? then Move(s, id, Refused)
      else Move(s, id, Offered).(waitGroup := s.waitGroup + 1, offered := s.offered + {id})
    case Refuse(id) => Move(s, id, Refused).(waitGroup := s.waitGroup - 1, offered := s.offered - {id})
    case Accept(id) =>
      Move(s, id, Queued).(waitGroup := s.waitGroup - 1, offered := s.offered - {id}, send := s.send + [id])
    case WriterTakes => Move(s, s.send[0], InHand).(send := s.send[1..], holding := Some(s.send[0]))
    case WriteSucceeds =>
      Move(s, s.holding.value, Written).(holding := None, written := s.written + multiset{s.holding.value})
    case WriteFails => Report(c, s, s.holding.value).(holding := None)
    case CloseBegins => s.(closing := Marked)
    case WaitEnds => s.(closing := Draining)
    case DrainOne => Report(c, s, s.send[0]).(send := s.send[1..])
    case DrainEnds => s.(closing := Closed)
  }

  ghost predicate Step(c: Config, s: Peer, a: Action, s': Peer) {
    Enabled(c, s, a) && s' == Apply(c, s, a)
  }

  ghost predicate IsRun(c: Config, ss: seq<Peer>, acts: seq<Action>) {
    && |ss| == |acts| + 1 && ss[0] == INIT
    && forall i :: 0 <= i < |acts| ==> Step(c, ss[i], acts[i], ss[i + 1])
  }

  ghost predicate PlacedAt(c: Config, s: Peer, id: Id) {
    var p := PlaceOf(s, id);
    && (p.Offered? <==> id in s.offered)
    && (p.Queued? <==> id in s.send)
    && (p.InHand? <==> s.holding == Some(id))
    && s.written[id] == (if p.Written? then 1 else 0)
    && s.reported[id] == (if p.Failed? && id in c.notify then 1 else 0)
  }

  ghost predicate Inv(c: Config, s: Peer) {
    && (forall id :: PlacedAt(c, s, id))
    && Distinct(s.send)
    && s.waitGroup == |s.offered|
    && (s.closing.Draining? || s.closing.Closed? ==> s.offered == {})
    && (s.closing.Closed? ==> s.send == [])
  }

  lemma {:induction false} PlacedAtStep(c: Config, s: Peer, a: Action, id: Id)
    requires Inv(c, s) && Enabled(c, s, a)
    ensures PlacedAt(c, Apply(c, s, a), id)
  {
    assert PlacedAt(c, s, id);
    if s.send != [] {
      assert s.send == [s.send[0]] + s.send[1..];
      assert PlacedAt(c, s, s.send[0]);
    }
    if s.holding.Some? {
      assert PlacedAt(c, s, s.holding.value);
    }
  }

  lemma InvStep(c: Config, s: Peer, a: Action)
    requires Inv(c, s) && Enabled(c, s, a)
    ensures Inv(c, Apply(c, s, a))
  {
    forall id ensures PlacedAt(c, Apply(c, s, a), id) {
      PlacedAtStep(c, s, a, id);
    }
    if a.Accept? || a.BeginEnqueue? {
      assert PlacedAt(c, s, a.id);
    }
  }

  lemma {:induction false} InvRun(c: Config, ss: seq<Peer>, acts: seq<Action>, i: nat)
    requires IsRun(c, ss, acts) && i < |ss|
    ensures Inv(c, ss[i])
  {
    if i == 0 {
      assert forall id :: PlacedAt(c, INIT, id);
    } else {
      InvRun(c, ss, acts, i - 1);
      assert Step(c, ss[i - 1], acts[i - 1], ss[i]);
      InvStep(c, ss[i - 1], acts[i - 1]);
    }
  }

  // ------------------------------------------------------------- main results

  predicate Accepted(p: Place) {
    p.Queued? || p.InHand? || p.Written? || p.Failed?
  }

  /** However enqueuers, writer and close interleave: no item is both written and
      reported or either twice, a refused item is neither, and once close has
      returned and the writer has let go, every accepted notification has been
      written or reported exactly once. */
  lemma NotificationFate(c: Config, ss: seq<Peer>, acts: seq<Action>, i: nat, id: Id)
    requires IsRun(c, ss, acts) && i < |ss|
    ensures ss[i].written[id] + ss[i].reported[id] <= 1
    ensures PlaceOf(ss[i], id).Refused? ==> ss[i].written[id] == ss[i].reported[id] == 0
    ensures ss[i].closing.Closed? && ss[i].holding.None? && Accepted(PlaceOf(ss[i], id)) && id in c.notify ==>
              ss[i].written[id] + ss[i].reported[id] == 1
    ensures id !in c.notify ==> ss[i].reported[id] == 0
  {
    InvRun(c, ss, acts, i);
    assert PlacedAt(c, ss[i], id);
  }

  // ------------------------------------------------------- told from the history

  predicate Writes(s: Peer, a: Action, id: Id) {
    a.WriteSucceeds? && s.holding == Some(id)
  }

  /** The item leaves the queue or the writer's hands unwritten. */
  predicate Loses(s: Peer, a: Action, id: Id) {
    (a.WriteFails? && s.holding == Some(id)) || (a.DrainOne? && s.send != [] && s.send[0] == id)
  }

  ghost function WriteCount(ss: seq<Peer>, acts: seq<Action>, i: nat, id: Id): nat
    requires i <= |acts| <= |ss|
  {
    if i == 0 then 0
    else WriteCount(ss, acts, i - 1, id) + if Writes(ss[i - 1], acts[i - 1], id) then 1 else 0
  }

  ghost function LossCount(ss: seq<Peer>, acts: seq<Action>, i: nat, id: Id): nat
    requires i <= |acts| <= |ss|
  {
    if i == 0 then 0
    else LossCount(ss, acts, i - 1, id) + if Loses(ss[i - 1], acts[i - 1], id) then 1 else 0
  }

  lemma CountsStep(c: Config, s: Peer, a: Action, s': Peer, id: Id)
    requires Step(c, s, a, s')
    ensures s'.written[id] == s.written[id] + if Writes(s, a, id) then 1 else 0
    ensures s'.reported[id] == s.reported[id] + if Loses(s, a, id) && id in c.notify then 1 else 0
  {
  }

  /** An item counts as written once for every write of it that succeeded, and a
      notification as reported once for every write of it that failed and every
      time close's drain took it; nothing else is ever reported. */
  lemma {:induction false} CountsExact(c: Config, ss: seq<Peer>, acts: seq<Action>, i: nat, id: Id)
    requires IsRun(c, ss, acts) && i < |ss|
    ensures ss[i].written[id] == WriteCount(ss, acts, i, id)
    ensures ss[i].reported[id] == if id in c.notify then LossCount(ss, acts, i, id) else 0
  {
    if i == 0 {
    } else {
      CountsExact(c, ss, acts, i - 1, id);
      CountsStep(c, ss[i - 1], acts[i - 1], ss[i], id);
    }
  }

  ghost predicate CloseBegan(acts: seq<Action>, i: nat)
    requires i <= |acts|
  {
    exists k :: 0 <= k < i && acts[k].CloseBegins?
  }

  lemma {:induction false} OpenIff(c: Config, ss: seq<Peer>, acts: seq<Action>, i: nat)
    requires IsRun(c, ss, acts) && i < |ss|
    ensures ss[i].closing.Open? <==> !CloseBegan(acts, i)
  {
    if i == 0 {
    } else {
      OpenIff(c, ss, acts, i - 1);
      assert Step(c, ss[i - 1], acts[i - 1], ss[i]);
      if CloseBegan(acts, i - 1) {
        var k :| 0 <= k < i - 1 && acts[k].CloseBegins?;
        assert 0 <= k < i && acts[k].CloseBegins?;
      }
    }
  }

  /** An enqueuer is turned away at the door if and only if close has begun; otherwise
      it is let in. */
  lemma DoorExact(c: Config, ss: seq<Peer>, acts: seq<Action>, i: nat, id: Id)
    requires IsRun(c, ss, acts) && i < |acts|
    ensures acts[i] == BeginEnqueue(id) ==>
      PlaceOf(ss[i + 1], id) == if CloseBegan(acts, i) then Refused else Offered
    ensures acts[i] == Accept(id) ==> PlaceOf(ss[i + 1], id).Queued?
    ensures acts[i] == Refuse(id) ==> PlaceOf(ss[i + 1], id).Refused?
  {
    assert Step(c, ss[i], acts[i], ss[i + 1]);
    OpenIff(c, ss, acts, i);
  }

  /** Close's wait can end if and only if close has begun it and no enqueuer is inside. */
  lemma WaitEndsIff(c: Config, ss: seq<Peer>, acts: seq<Action>, i: nat)
    requires IsRun(c, ss, acts) && i < |ss|
    ensures Enabled(c, ss[i], WaitEnds) <==> ss[i].closing.Marked? && forall id :: !PlaceOf(ss[i], id).Offered?
  {
    InvRun(c, ss, acts, i);
    NoneOffered(c, ss[i]);
  }

  lemma NoneOffered(c: Config, s: Peer)
    requires Inv(c, s)
    ensures s.waitGroup == 0 <==> forall id :: !PlaceOf(s, id).Offered?
  {
    assert (forall id :: id !in s.offered) ==> s.offered == {};
    if id :| id in s.offered {
      assert PlacedAt(c, s, id);
    } else {
      forall id ensures !PlaceOf(s, id).Offered? {
        assert PlacedAt(c, s, id);
      }
    }
  }

  /** The items enqueue accepted, in order. */
  function AcceptedItems(acts: seq<Action>): seq<Id> {
    if acts == [] then []
    else
      var a := acts[|acts| - 1];
      AcceptedItems(acts[..|acts| - 1]) + if a.Accept? then [a.id] else []
  }

  /** The items the writer or close's drain took, in order: what the former holds
      afterwards and what the latter lost. */
  ghost function TakenItems(ss: seq<Peer>, acts: seq<Action>, i: nat): seq<Id>
    requires i <= |acts| < |ss|
  {
    if i == 0 then []
    else
      TakenItems(ss, acts, i - 1) +
      if acts[i - 1].WriterTakes? && ss[i].holding.Some? then [ss[i].holding.value]
      else if acts[i - 1].DrainOne? && ss[i - 1].send != [] then [ss[i - 1].send[0]]
      else []
  }

  lemma QueueStep(c: Config, s: Peer, a: Action, s': Peer)
    requires Step(c, s, a, s')
    ensures s'.send == (if a.Accept? then s.send + [a.id]
                        else if a.WriterTakes? || a.DrainOne? then s.send[1..] else s.send)
    ensures a.WriterTakes? || a.DrainOne? ==> s.send != []
    ensures a.WriterTakes? ==> s'.holding == Some(s.send[0])
  {
  }

  /** The send queue is first in first out and loses nothing: what was accepted is
      what was taken followed by what is still queued. */
  lemma {:induction false} QueueInOrder(c: Config, ss: seq<Peer>, acts: seq<Action>, i: nat)
    requires IsRun(c, ss, acts) && i < |ss|
    ensures AcceptedItems(acts[..i]) == TakenItems(ss, acts, i) + ss[i].send
  {
    if i == 0 {
    } else {
      QueueInOrder(c, ss, acts, i - 1);
      assert acts[..i][..i - 1] == acts[..i - 1];
      QueueNext(c, ss, acts, i - 1);
    }
  }

  lemma QueueNext(c: Config, ss: seq<Peer>, acts: seq<Action>, i: nat)
    requires IsRun(c, ss, acts) && i < |acts|
    ensures TakenItems(ss, acts, i + 1) + ss[i + 1].send ==
            TakenItems(ss, acts, i) + ss[i].send + if acts[i].Accept? then [acts[i].id] else []
  {
    QueueStep(c, ss[i], acts[i], ss[i + 1]);
    var q := ss[i].send;
    assert q != [] ==> q == [q[0]] + q[1..];
  }

  predicate Final(p: Place) {
    p.Written? || p.Failed? || p.Refused?
  }

  lemma FinalStep(c: Config, s: Peer, a: Action, s': Peer, id: Id)
    requires Inv(c, s) && Step(c, s, a, s') && Final(PlaceOf(s, id))
    ensures PlaceOf(s', id) == PlaceOf(s, id)
  {
    assert PlacedAt(c, s, id);
    assert s.send != [] ==> s.send[0] in s.send;
  }

  /** The fate of an item never changes, and an accepted item is never refused. */
  lemma {:induction false} FateIsFinal(c: Config, ss: seq<Peer>, acts: seq<Action>, i: nat, j: nat, id: Id)
    requires IsRun(c, ss, acts) && i <= j < |ss|
    ensures Final(PlaceOf(ss[i], id)) ==> PlaceOf(ss[j], id) == PlaceOf(ss[i], id)
    ensures Accepted(PlaceOf(ss[i], id)) ==> Accepted(PlaceOf(ss[j], id))
  {
    if i == j {
    } else {
      FateIsFinal(c, ss, acts, i, j - 1, id);
      InvRun(c, ss, acts, j - 1);
      if Final(PlaceOf(ss[j - 1], id)) {
        FinalStep(c, ss[j - 1], acts[j - 1], ss[j], id);
      } else {
        AcceptedStep(c, ss[j - 1], acts[j - 1], ss[j], id);
      }
    }
  }

  lemma AcceptedStep(c: Config, s: Peer, a: Action, s': Peer, id: Id)
    requires Inv(c, s) && Step(c, s, a, s')
    ensures Accepted(PlaceOf(s, id)) ==> Accepted(PlaceOf(s', id))
  {
    assert PlacedAt(c, s, id);
  }

  /** Close's own loop over the send queue: it empties the queue and reports the
      notifications in it, each once and in order. */
  class SendQueue {
    var send: seq<(Id, bool)>
    var reported: seq<Id>

    method ReportAll()
      modifies this
      ensures send == [] && reported == old(reported) + Notifications(old(send))
    {
      ghost var all := send;
      while send != []
        invariant reported + Notifications(send) == old(reported) + Notifications(all)
        decreases |send|
      {
        var item := send[0];
        send := send[1..];
        if item.1 {
          reported := reported + [item.0];
        }
      }
    }
  }

  function Notifications(items: seq<(Id, bool)>): seq<Id> {
    if items == [] then [] else (if items[0].1 then [items[0].0] else []) + Notifications(items[1..])
  }

  /** The notifications of a queue, taken together in order: those of any front
      followed by those of the rest, a single item being one exactly if it says so. */
  lemma {:induction false} NotificationsInOrder(front: seq<(Id, bool)>, rest: seq<(Id, bool)>, id: Id)
    ensures Notifications(front + rest) == Notifications(front) + Notifications(rest)
    ensures Notifications([(id, true)]) == [id] && Notifications([(id, false)]) == []
  {
    assert [(id, true)][1..] == [] && [(id, false)][1..] == [];
    if front == [] {
      assert front + rest == rest;
    } else {
      assert (front + rest)[1..] == front[1..] + rest;
      NotificationsInOrder(front[1..], rest, id);
    }
  }

  // -------------------------------------------------------- pending requests

  /** The request table: `table` are the registered requests, `hand` those a
      response or the close has taken out and not yet answered, `results` counts
      the results put on each request's channel. */
  datatype Requests = Requests(table: set<Id>, hand: set<Id>, results: multiset<Id>, known: set<Id>, late: nat)

  datatype RequestAction =
    | Add(id: Id)
    | Remove(id: Id)
    | Respond(id: Id)
    | SwapOut
    | SendResult(id: Id)

  predicate CanRequest(r: Requests, a: RequestAction) {
    match a
    case Add(id) => id !in r.known
    case SendResult(id) => id in r.hand
    case _ => true
  }

  function ApplyRequest(r: Requests, a: RequestAction): Requests {
    match a
    case Add(id) => r.(table := r.table + {id}, known := r.known + {id})
    case Remove(id) => r.(table := r.table - {id})
    case Respond(id) =>
      if id in r.table then r.(table := r.table - {id}, hand := r.hand + {id}) else r.(late := r.late + 1)
    case SwapOut => r.(table := {}, hand := r.hand + r.table)
    case SendResult(id) => r.(hand := r.hand - {id}, results := r.results + multiset{id})
  }

  function ApplyRequests(r: Requests, acts: seq<RequestAction>): Requests {
    if acts == [] then r else ApplyRequest(ApplyRequests(r, acts[..|acts| - 1]), acts[|acts| - 1])
  }

  ghost predicate RequestsAllowed(r: Requests, acts: seq<RequestAction>) {
    forall i :: 0 <= i < |acts| ==> CanRequest(ApplyRequests(r, acts[..i]), acts[i])
  }

  const NO_REQUESTS := Requests({}, {}, multiset{}, {}, 0)

  ghost predicate ResultsOk(r: Requests) {
    && r.table !! r.hand && r.table + r.hand <= r.known
    && (forall id :: r.results[id] <= if id in r.known && id !in r.table && id !in r.hand then 1 else 0)
  }

  lemma ResultsStep(r: Requests, a: RequestAction)
    requires ResultsOk(r) && CanRequest(r, a)
    ensures ResultsOk(ApplyRequest(r, a))
  {
  }

  lemma {:induction false} ResultsRun(acts: seq<RequestAction>)
    requires RequestsAllowed(NO_REQUESTS, acts)
    ensures ResultsOk(ApplyRequests(NO_REQUESTS, acts))
  {
    if acts == [] {
    } else {
      var front := acts[..|acts| - 1];
      assert forall i :: 0 <= i < |front| ==> front[..i] == acts[..i];
      ResultsRun(front);
      ResultsStep(ApplyRequests(NO_REQUESTS, front), acts[|acts| - 1]);
    }
  }

  /** Whatever responses, removals and closes do to the table, in any order, each
      request's channel receives at most one result, and is empty when it does. */
  lemma AtMostOneResult(acts: seq<RequestAction>, id: Id)
    requires RequestsAllowed(NO_REQUESTS, acts)
    ensures ApplyRequests(NO_REQUESTS, acts).results[id] <= 1
    ensures id in ApplyRequests(NO_REQUESTS, acts).hand ==> ApplyRequests(NO_REQUESTS, acts).results[id] == 0
  {
    ResultsRun(acts);
  }

  predicate TakesOut(a: RequestAction, id: Id) {
    a == Remove(id) || Answers(a, id)
  }

  /** A response to the request, or the close. */
  predicate Answers(a: RequestAction, id: Id) {
    a == Respond(id) || a.SwapOut?
  }

  /** The request was added, and neither removed, answered nor swept up since. */
  ghost predicate Registered(acts: seq<RequestAction>, id: Id) {
    exists k :: 0 <= k < |acts| && acts[k] == Add(id) && forall m :: k < m < |acts| ==> !TakesOut(acts[m], id)
  }

  lemma RegisteredNext(front: seq<RequestAction>, a: RequestAction, id: Id)
    ensures Registered(front + [a], id) <==> a == Add(id) || (Registered(front, id) && !TakesOut(a, id))
  {
    var acts := front + [a];
    if Registered(front, id) && !TakesOut(a, id) {
      var k :| 0 <= k < |front| && front[k] == Add(id) && forall m :: k < m < |front| ==> !TakesOut(front[m], id);
      assert acts[k] == Add(id);
    }
    if Registered(acts, id) && a != Add(id) {
      var k :| 0 <= k < |acts| && acts[k] == Add(id) && forall m :: k < m < |acts| ==> !TakesOut(acts[m], id);
      assert !TakesOut(acts[|front|], id);
      assert front[k] == Add(id) && forall m :: k < m < |front| ==> acts[m] == front[m];
    }
    if a == Add(id) {
      assert acts[|front|] == Add(id);
    }
  }

  /** The request was answered while it was registered, and its result is not sent yet. */
  ghost predicate Taken(acts: seq<RequestAction>, id: Id) {
    acts != [] &&
    var front, a := acts[..|acts| - 1], acts[|acts| - 1];
    || (Registered(front, id) && Answers(a, id))
    || (Taken(front, id) && a != SendResult(id))
  }

  ghost predicate Withdrawn(acts: seq<RequestAction>, id: Id) {
    exists k :: 0 <= k < |acts| && acts[k] == Remove(id) && Registered(acts[..k], id)
  }

  lemma WithdrawnNext(front: seq<RequestAction>, a: RequestAction, id: Id)
    ensures Withdrawn(front + [a], id) <==> Withdrawn(front, id) || (a == Remove(id) && Registered(front, id))
  {
    var acts := front + [a];
    assert acts[..|front|] == front;
    if k :| 0 <= k < |front| && front[k] == Remove(id) && Registered(front[..k], id) {
      assert acts[..k] == front[..k] && acts[k] == Remove(id);
    }
    if k :| 0 <= k < |acts| && acts[k] == Remove(id) && Registered(acts[..k], id) {
      assert k < |front| ==> front[..k] == acts[..k] && front[k] == acts[k];
    }
    if a == Remove(id) && Registered(front, id) {
      assert acts[|front|] == Remove(id);
    }
  }

  function ResultsSent(acts: seq<RequestAction>, id: Id): nat {
    if acts == [] then 0
    else ResultsSent(acts[..|acts| - 1], id) + if acts[|acts| - 1] == SendResult(id) then 1 else 0
  }

  /** Responses to a request that was not in the table. */
  ghost function LateResponses(acts: seq<RequestAction>): nat {
    if acts == [] then 0
    else
      var front, a := acts[..|acts| - 1], acts[|acts| - 1];
      LateResponses(front) + if a.Respond? && !Registered(front, a.id) then 1 else 0
  }

  lemma RequestStep(r: Requests, a: RequestAction, id: Id)
    requires CanRequest(r, a)
    ensures var r' := ApplyRequest(r, a);
      && (id in r'.table <==> a == Add(id) || (id in r.table && !TakesOut(a, id)))
      && (id in r'.hand <==> (id in r.table && Answers(a, id)) || (id in r.hand && a != SendResult(id)))
      && r'.results[id] == r.results[id] + (if a == SendResult(id) then 1 else 0)
      && r'.known == (if a.Add? then r.known + {a.id} else r.known)
      && r'.late == r.late + if a.Respond? && a.id !in r.table then 1 else 0
  {
  }

  ghost predicate Told(acts: seq<RequestAction>, id: Id) {
    var r := ApplyRequests(NO_REQUESTS, acts);
    && (id in r.table <==> Registered(acts, id)) && (id in r.hand <==> Taken(acts, id))
    && r.results[id] == ResultsSent(acts, id) && (id in r.known <==> Add(id) in acts)
    && r.late == LateResponses(acts)
  }

  lemma ToldNext(front: seq<RequestAction>, a: RequestAction, id: Id)
    requires Told(front, id) && (a.Respond? ==> Told(front, a.id))
    requires CanRequest(ApplyRequests(NO_REQUESTS, front), a)
    ensures Told(front + [a], id)
  {
    var acts := front + [a];
    assert acts[..|acts| - 1] == front && acts[|acts| - 1] == a;
    RegisteredNext(front, a, id);
    RequestStep(ApplyRequests(NO_REQUESTS, front), a, id);
  }

  /** The table told from the calls made on it: which requests are in it, which are
      about to get their result, how many results each got and how many responses
      came late. */
  lemma {:induction false} RequestsExact(acts: seq<RequestAction>, id: Id)
    requires RequestsAllowed(NO_REQUESTS, acts)
    ensures Told(acts, id)
  {
    if acts == [] {
    } else {
      var front, a := acts[..|acts| - 1], acts[|acts| - 1];
      assert acts == front + [a];
      FrontAllowed(acts);
      RequestsExact(front, id);
      if a.Respond? {
        RequestsExact(front, a.id);
      }
      ToldNext(front, a, id);
    }
  }

  lemma FrontAllowed(acts: seq<RequestAction>)
    requires RequestsAllowed(NO_REQUESTS, acts) && acts != []
    ensures RequestsAllowed(NO_REQUESTS, acts[..|acts| - 1])
    ensures CanRequest(ApplyRequests(NO_REQUESTS, acts[..|acts| - 1]), acts[|acts| - 1])
  {
    var front := acts[..|acts| - 1];
    assert forall i :: 0 <= i < |front| ==> front[..i] == acts[..i];
  }

  ghost function Settlement(acts: seq<RequestAction>, id: Id): nat {
    ResultsSent(acts, id) + (if Registered(acts, id) then 1 else 0) +
    (if Taken(acts, id) then 1 else 0) + if Withdrawn(acts, id) then 1 else 0
  }

  lemma SettlementNext(front: seq<RequestAction>, a: RequestAction, id: Id)
    requires Told(front, id) && CanRequest(ApplyRequests(NO_REQUESTS, front), a)
    requires Settlement(front, id) == if Add(id) in front then 1 else 0
    ensures Settlement(front + [a], id) == if Add(id) in front || a == Add(id) then 1 else 0
  {
    var acts := front + [a];
    assert acts[..|acts| - 1] == front && acts[|acts| - 1] == a;
    RegisteredNext(front, a, id);
    WithdrawnNext(front, a, id);
  }

  /** Every request that was added is in exactly one place: still registered, taken
      for an answer, answered by exactly one result, or removed unanswered. So a
      response or close that finds a request does get it its result. */
  lemma {:induction false} EveryRequestSettled(acts: seq<RequestAction>, id: Id)
    requires RequestsAllowed(NO_REQUESTS, acts)
    ensures Settlement(acts, id) == if Add(id) in acts then 1 else 0
  {
    if acts == [] {
    } else {
      var front, a := acts[..|acts| - 1], acts[|acts| - 1];
      assert acts == front + [a];
      FrontAllowed(acts);
      EveryRequestSettled(front, id);
      RequestsExact(front, id);
      SettlementNext(front, a, id);
    }
  }

  /** The pending table as its methods change it: a request's channel has room for one result. */
  class PendingTable {
    var pending: set<Id>
    var results: multiset<Id>
    var late: nat
    ghost var known: set<Id>

    ghost function View(): Requests
      reads this
    {
      Requests(pending, {}, results, known, late)
    }

    ghost predicate Valid()
      reads this
    {
      ResultsOk(View())
    }

    constructor ()
      ensures Valid() && View() == NO_REQUESTS
    {
      pending, results, late, known := {}, multiset{}, 0, {};
    }

    method AddPending(id: Id)
      requires Valid() && id !in known
      modifies this
      ensures Valid() && View() == ApplyRequest(old(View()), Add(id))
    {
      pending, known := pending + {id}, known + {id};
    }

    method RemovePending(id: Id)
      requires Valid()
      modifies this
      ensures Valid() && View() == ApplyRequest(old(View()), Remove(id))
    {
      pending := pending - {id};
    }

    /** A response reaches the channel of a pending request, or counts as late. */
    method Complete(id: Id)
      requires Valid()
      modifies this
      ensures Valid()
      ensures View() == if id in old(pending) then ApplyRequest(ApplyRequest(old(View()), Respond(id)), SendResult(id))
                        else ApplyRequest(old(View()), Respond(id))
    {
      var found := id in pending;
      pending := pending - {id};
      if found {
        assert results[id] == 0;
        results := results + multiset{id};
      } else {
        late := late + 1;
      }
    }

    /** Close swaps the table out and sends the error to every request that was in it. */
    method FailAll()
      requires Valid()
      modifies this
      ensures Valid() && pending == {} && results == old(results) + multiset(old(pending))
      ensures known == old(known) && late == old(late)
    {
      var todo := pending;
      pending := {};
      while todo != {}
        invariant todo <= old(pending) && pending == {} && known == old(known) && late == old(late)
        invariant results == old(results) + multiset(old(pending) - todo)
        decreases |todo|
      {
        assert (forall id :: id !in todo) ==> todo == {};
        var id :| id in todo;
        assert old(pending) - (todo - {id}) == (old(pending) - todo) + {id};
        results := results + multiset{id};
        todo := todo - {id};
      }
      assert old(pending) - {} == old(pending);
    }
  }
}
