/**
 Synchronous call chains across services and nodes: every handler's context
 carries the path of handlers it was reached through, and a call into a
 NoInterleave service already on that path is refused before admission.
 A caller may stop waiting at any time; the handler it called runs on.
 */
module CallChain {
  import opened Basics

  type Id = int

  /** One handler on a path; `node` is empty without a cluster. */
  datatype CallFrame = CallFrame(node: string, service: string, protocol: string)

  datatype Wire = Wire(node: string, service: string, protocol: string)

  // ------------------------------------------------------------------ the path

  predicate SameService(a: CallFrame, b: CallFrame) {
    a.node == b.node && a.service == b.service
  }

  predicate Contains(path: seq<CallFrame>, target: CallFrame) {
    exists i :: 0 <= i < |path| && SameService(path[i], target)
  }

  method CallPathContains(path: seq<CallFrame>, target: CallFrame) returns (found: bool)
    ensures found <==> Contains(path, target)
    ensures found <==> exists i :: 0 <= i < |path| && path[i].node == target.node && path[i].service == target.service
  {
    for i := 0 to |path|
      invariant forall j :: 0 <= j < i ==> !SameService(path[j], target)
    {
      if path[i].node == target.node && path[i].service == target.service {
        assert SameService(path[i], target);
        return true;
      }
    }
    return false;
  }

  function OnWire(f: CallFrame): Wire {
    Wire(f.node, f.service, f.protocol)
  }

  function OffWire(w: Wire): CallFrame {
    CallFrame(w.node, w.service, w.protocol)
  }

  function ToWire(path: seq<CallFrame>): seq<Wire> {
    seq(|path|, i requires 0 <= i < |path| => OnWire(path[i]))
  }

  function FromWire(wire: seq<Wire>): seq<CallFrame> {
    seq(|wire|, i requires 0 <= i < |wire| => OffWire(wire[i]))
  }

  /** A path survives the wire unchanged. */
  lemma WireRoundTrip(path: seq<CallFrame>)
    ensures FromWire(ToWire(path)) == path
  {
    forall i | 0 <= i < |path| ensures FromWire(ToWire(path))[i] == path[i] {
      assert ToWire(path)[i] == OnWire(path[i]);
    }
  }

  method ToWirePath(path: seq<CallFrame>) returns (wire: seq<Wire>)
    ensures wire == ToWire(path)
  {
    wire := [];
    for k := 0 to |path|
      invariant |wire| == k && forall i :: 0 <= i < k ==> wire[i] == OnWire(path[i])
    {
      wire := wire + [Wire(path[k].node, path[k].service, path[k].protocol)];
    }
  }

  method FromWirePath(wire: seq<Wire>) returns (path: seq<CallFrame>)
    ensures path == FromWire(wire)
  {
    path := [];
    for k := 0 to |wire|
      invariant |path| == k && forall i :: 0 <= i < k ==> path[i] == OffWire(wire[i])
    {
      path := path + [CallFrame(wire[k].node, wire[k].service, wire[k].protocol)];
    }
  }

  // --------------------------------------------------------------- the verdicts

  /** The services (by node and name) configured NoInterleave. */
  type NoInterleave = iset<(string, string)>

  ghost predicate Exclusive(c: NoInterleave, f: CallFrame) {
    (f.node, f.service) in c
  }

  /** The call-cycle check: the target is a NoInterleave service that is on the path. */
  ghost predicate Cycle(c: NoInterleave, path: seq<CallFrame>, target: CallFrame) {
    Exclusive(c, target) && Contains(path, target)
  }

  datatype Verdict = Passed | CallCycle | YieldForbidden

  /** A call to a service of the same system, from a handler `noYield` critical sections deep. */
  ghost function LocalVerdict(c: NoInterleave, path: seq<CallFrame>, noYield: nat, target: CallFrame): Verdict {
    if noYield == 0 && Cycle(c, path, target) then CallCycle
    else if noYield > 0 then YieldForbidden
    else Passed
  }

  /** A call through the transport checks only this before it is sent; the cycle check is the receiver's. */
  function RemoteVerdict(noYield: nat): Verdict {
    if noYield > 0 then YieldForbidden else Passed
  }

  // -------------------------------------------------------------- activations

  datatype Via = Root | ByCall | BySend

  /** A handler runs, waits for the request `id` it called with, or has returned. */
  datatype Doing = Running | Waiting(id: Id) | Returned

  /** A handler: its own frame, how and by whom it was reached, the path its
      context carries, the depth of its NoYield sections, and what it does. */
  datatype Activation = Activation(
    frame: CallFrame, how: Via, parent: Option<Id>, path: seq<CallFrame>, noYield: nat, doing: Doing)

  type Handlers = map<Id, Activation>

  /** A request on its way to another node, with the path as it was encoded. */
  datatype Flight = Flight(from: Id, target: CallFrame, wire: seq<Wire>, call: bool)

  /** `used` are the ids ever given to a request. */
  datatype Sys = Sys(handlers: Handlers, flights: map<Id, Flight>, used: set<Id>)

  const INIT := Sys(map[], map[], {})

  /** `Start` is a request from outside any handler, with an empty path.  `admitted`
      is false when a request that passed the checks is refused for another
      reason: the suspend limit, a full or stopping mailbox, or the transport.
      `GiveUp` is a caller's timeout, cancellation or stop. */
  datatype Action =
    | Start(id: Id, target: CallFrame)
    | Call(from: Id, id: Id, target: CallFrame, remote: bool, admitted: bool)
    | Send(from: Id, id: Id, target: CallFrame, remote: bool)
    | Arrive(id: Id, admitted: bool)
    | Lost(id: Id)
    | Reply(from: Id)
    | GiveUp(from: Id)
    | Return(from: Id)
    | EnterNoYield(from: Id)
    | LeaveNoYield(from: Id)

  predicate Runs(s: Sys, id: Id) {
    id in s.handlers && s.handlers[id].doing.Running?
  }

  predicate Waits(s: Sys, id: Id) {
    id in s.handlers && s.handlers[id].doing.Waiting?
  }

  /** The request is over: its handler has returned, or it never got one. */
  predicate Answered(s: Sys, id: Id) {
    id !in s.flights && (id in s.handlers ==> s.handlers[id].doing.Returned?)
  }

  predicate Enabled(s: Sys, a: Action) {
    match a
    case Start(id, _) => id !in s.used
    case Call(from, id, _, _, _) => Runs(s, from) && id !in s.used
    case Send(from, id, _, _) => Runs(s, from) && id !in s.used
    case Arrive(id, _) => id in s.flights && s.flights[id].from in s.handlers
    case Lost(id) => id in s.flights
    case Reply(from) => Waits(s, from) && Answered(s, s.handlers[from].doing.id)
    case GiveUp(from) => Waits(s, from)
    case Return(from) => Runs(s, from) && s.handlers[from].noYield == 0
    case EnterNoYield(from) => Runs(s, from)
    case LeaveNoYield(from) => Runs(s, from) && s.handlers[from].noYield > 0
  }

  function Set(s: Sys, id: Id, a: Activation): Sys {
    s.(handlers := s.handlers[id := a])
  }

  function SetDoing(s: Sys, id: Id, doing: Doing): Sys
    requires id in s.handlers
  {
    Set(s, id, s.handlers[id].(doing := doing))
  }

  /** The handler of an admitted request inherits the path of whoever made it. */
  function Child(from: Id, path: seq<CallFrame>, target: CallFrame, how: Via): Activation {
    Activation(target, how, Some(from), path + [target], 0, Running)
  }

  function Fly(s: Sys, from: Id, id: Id, target: CallFrame, call: bool): Sys
    requires from in s.handlers
  {
    s.(flights := s.flights[id := Flight(from, target, ToWire(s.handlers[from].path), call)], used := s.used + {id})
  }

  function Admit(s: Sys, from: Id, id: Id, path: seq<CallFrame>, target: CallFrame, how: Via): Sys {
    Set(s, id, Child(from, path, target, how)).(used := s.used + {id})
  }

  ghost function AfterCall(c: NoInterleave, s: Sys, a: Action): Sys
    requires a.Call? && a.from in s.handlers
  {
    var h := s.handlers[a.from];
    if !a.admitted then s
    else if a.remote then
      if RemoteVerdict(h.noYield).Passed?
      then SetDoing(Fly(s, a.from, a.id, a.target, true), a.from, Waiting(a.id)) else s
    else
      if LocalVerdict(c, h.path, h.noYield, a.target).Passed?
      then Admit(SetDoing(s, a.from, Waiting(a.id)), a.from, a.id, h.path, a.target, ByCall) else s
  }

  /** The receiver decodes the path, checks a call for a cycle, and admits. */
  ghost function AfterArrive(c: NoInterleave, s: Sys, id: Id, admitted: bool): Sys
    requires id in s.flights
  {
    var f := s.flights[id];
    var s1 := s.(flights := s.flights - {id});
    if !admitted || (f.call && Cycle(c, FromWire(f.wire), f.target)) then s1
    else Admit(s1, f.from, id, FromWire(f.wire), f.target, if f.call then ByCall else BySend)
  }

  ghost function Apply(c: NoInterleave, s: Sys, a: Action): Sys
    requires Enabled(s, a)
  {
    match a
    case Start(id, target) => Set(s, id, Activation(target, Root, None, [target], 0, Running)).(used := s.used + {id})
    case Call(_, _, _, _, _) => AfterCall(c, s, a)
    case Send(from, id, target, remote) =>
      if remote then Fly(s, from, id, target, false) else Admit(s, from, id, s.handlers[from].path, target, BySend)
    case Arrive(id, admitted) => AfterArrive(c, s, id, admitted)
    case Lost(id) => s.(flights := s.flights - {id})
    case Reply(from) => SetDoing(s, from, Running)
    case GiveUp(from) => SetDoing(s, from, Running)
    case Return(from) => SetDoing(s, from, Returned)
    case EnterNoYield(from) => Set(s, from, s.handlers[from].(noYield := s.handlers[from].noYield + 1))
    case LeaveNoYield(from) => Set(s, from, s.handlers[from].(noYield := s.handlers[from].noYield - 1))
  }

  ghost predicate Step(c: NoInterleave, s: Sys, a: Action, s': Sys) {
    Enabled(s, a) && s' == Apply(c, s, a)
  }

  ghost predicate IsRun(c: NoInterleave, ss: seq<Sys>, acts: seq<Action>) {
    && |ss| == |acts| + 1 && ss[0] == INIT
    && forall i :: 0 <= i < |acts| ==> Step(c, ss[i], acts[i], ss[i + 1])
  }

  // ---------------------------------------------------------------- invariant

  /** The path is the parent's and one's own frame after it; a handler reached by
      a call is not in a NoInterleave service that the parent's path has. */
  ghost predicate Descends(c: NoInterleave, hs: Handlers, id: Id)
    requires id in hs
  {
    var a := hs[id];
    match a.parent
    case None => a.how.Root? && a.path == [a.frame]
    case Some(p) =>
      && p in hs && !a.how.Root? && a.path == hs[p].path + [a.frame]
      && (a.how.ByCall? ==> !Cycle(c, hs[p].path, a.frame))
  }

  ghost predicate AllDescend(c: NoInterleave, hs: Handlers) {
    forall id :: id in hs ==> Descends(c, hs, id)
  }

  /** A request under way carries its sender's path. */
  ghost predicate FlightOk(s: Sys, id: Id)
    requires id in s.flights
  {
    && id in s.used && id !in s.handlers && s.flights[id].from in s.handlers
    && s.flights[id].wire == ToWire(s.handlers[s.flights[id].from].path)
  }

  ghost predicate Inv(c: NoInterleave, s: Sys) {
    && AllDescend(c, s.handlers) && s.handlers.Keys <= s.used
    && forall id :: id in s.flights ==> FlightOk(s, id)
  }

  /** Changing what a handler does, or its NoYield depth, concerns no path. */
  lemma TouchKeeps(c: NoInterleave, s: Sys, id: Id, a: Activation)
    requires Inv(c, s) && id in s.handlers
    requires a == s.handlers[id].(noYield := a.noYield, doing := a.doing)
    ensures Inv(c, Set(s, id, a))
  {
    var s' := Set(s, id, a);
    forall x | x in s'.handlers ensures Descends(c, s'.handlers, x) {
      assert Descends(c, s.handlers, x);
    }
    forall x | x in s'.flights ensures FlightOk(s', x) {
      assert FlightOk(s, x);
    }
  }

  lemma AdmitKeeps(c: NoInterleave, s: Sys, from: Id, id: Id, target: CallFrame, how: Via)
    requires Inv(c, s) && from in s.handlers && id !in s.handlers && id !in s.flights && !how.Root?
    requires how.ByCall? ==> !Cycle(c, s.handlers[from].path, target)
    ensures Inv(c, Admit(s, from, id, s.handlers[from].path, target, how))
  {
    var s' := Admit(s, from, id, s.handlers[from].path, target, how);
    forall x | x in s'.handlers ensures Descends(c, s'.handlers, x) {
      assert x != id ==> Descends(c, s.handlers, x);
    }
    forall x | x in s'.flights ensures FlightOk(s', x) {
      assert FlightOk(s, x);
    }
  }

  lemma FlyKeeps(c: NoInterleave, s: Sys, from: Id, id: Id, target: CallFrame, call: bool)
    requires Inv(c, s) && from in s.handlers && id !in s.used
    ensures Inv(c, Fly(s, from, id, target, call))
  {
    var s' := Fly(s, from, id, target, call);
    forall x | x in s'.flights ensures FlightOk(s', x) {
      assert x != id ==> FlightOk(s, x);
    }
  }

  lemma CallKeeps(c: NoInterleave, s: Sys, a: Action)
    requires Inv(c, s) && Enabled(s, a) && a.Call?
    ensures Inv(c, AfterCall(c, s, a))
  {
    var h := s.handlers[a.from];
    assert a.id !in s.flights by {
      assert a.id in s.flights ==> FlightOk(s, a.id);
    }
    FlyKeeps(c, s, a.from, a.id, a.target, true);
    TouchKeeps(c, Fly(s, a.from, a.id, a.target, true), a.from, h.(doing := Waiting(a.id)));
    TouchKeeps(c, s, a.from, h.(doing := Waiting(a.id)));
    if !a.remote && LocalVerdict(c, h.path, h.noYield, a.target).Passed? {
      AdmitKeeps(c, SetDoing(s, a.from, Waiting(a.id)), a.from, a.id, a.target, ByCall);
    }
  }

  lemma LandKeeps(c: NoInterleave, s: Sys, id: Id)
    requires Inv(c, s)
    ensures Inv(c, s.(flights := s.flights - {id}))
  {
    var s' := s.(flights := s.flights - {id});
    forall x | x in s'.flights ensures FlightOk(s', x) {
      assert FlightOk(s, x);
    }
  }

  lemma ArriveKeeps(c: NoInterleave, s: Sys, id: Id, admitted: bool)
    requires Inv(c, s) && id in s.flights
    ensures Inv(c, AfterArrive(c, s, id, admitted))
  {
    var f := s.flights[id];
    assert FlightOk(s, id);
    WireRoundTrip(s.handlers[f.from].path);
    LandKeeps(c, s, id);
    if !(f.call && Cycle(c, FromWire(f.wire), f.target)) {
      AdmitKeeps(c, s.(flights := s.flights - {id}), f.from, id, f.target, if f.call then ByCall else BySend);
    }
  }

  lemma StartKeeps(c: NoInterleave, s: Sys, id: Id, target: CallFrame)
    requires Inv(c, s) && id !in s.used
    ensures Inv(c, Apply(c, s, Start(id, target)))
  {
    var s' := Apply(c, s, Start(id, target));
    forall x | x in s'.handlers ensures Descends(c, s'.handlers, x) {
      assert x != id ==> Descends(c, s.handlers, x);
    }
    forall x | x in s'.flights ensures FlightOk(s', x) {
      assert FlightOk(s, x);
    }
  }

  lemma InvStep(c: NoInterleave, s: Sys, a: Action)
    requires Inv(c, s) && Enabled(s, a)
    ensures Inv(c, Apply(c, s, a))
  {
    match a
    case Start(id, target) => StartKeeps(c, s, id, target);
    case Call(_, _, _, _, _) => CallKeeps(c, s, a);
    case Send(from, id, target, remote) =>
      FlyKeeps(c, s, from, id, target, false);
      assert id in s.flights ==> FlightOk(s, id);
      AdmitKeeps(c, s, from, id, target, BySend);
    case Arrive(id, admitted) => ArriveKeeps(c, s, id, admitted);
    case Lost(id) => LandKeeps(c, s, id);
    case Reply(from) => TouchKeeps(c, s, from, s.handlers[from].(doing := Running));
    case GiveUp(from) => TouchKeeps(c, s, from, s.handlers[from].(doing := Running));
    case Return(from) => TouchKeeps(c, s, from, s.handlers[from].(doing := Returned));
    case EnterNoYield(from) =>
      TouchKeeps(c, s, from, s.handlers[from].(noYield := s.handlers[from].noYield + 1));
    case LeaveNoYield(from) =>
      TouchKeeps(c, s, from, s.handlers[from].(noYield := s.handlers[from].noYield - 1));
  }

  lemma {:induction false} InvRun(c: NoInterleave, ss: seq<Sys>, acts: seq<Action>, i: nat)
    requires IsRun(c, ss, acts) && i < |ss|
    ensures Inv(c, ss[i])
  {
    if i == 0 {
    } else {
      InvRun(c, ss, acts, i - 1);
      assert Step(c, ss[i - 1], acts[i - 1], ss[i]);
      InvStep(c, ss[i - 1], acts[i - 1]);
    }
  }

  // ----------------------------------------------------------------- ancestry

  /** Each of `ids` is the handler that made the request the next one runs. */
  ghost predicate Linked(hs: Handlers, ids: seq<Id>) {
    && |ids| > 0 && (forall k :: 0 <= k < |ids| ==> ids[k] in hs)
    && forall k :: 0 < k < |ids| ==> hs[ids[k]].parent == Some(ids[k - 1])
  }

  ghost function Frames(hs: Handlers, ids: seq<Id>): (f: seq<CallFrame>)
    requires forall k :: 0 <= k < |ids| ==> ids[k] in hs
    ensures |f| == |ids|
  {
    seq(|ids|, k requires 0 <= k < |ids| => hs[ids[k]].frame)
  }

  lemma FramesMore(hs: Handlers, ids: seq<Id>)
    requires |ids| > 0 && forall k :: 0 <= k < |ids| ==> ids[k] in hs
    ensures Frames(hs, ids) == Frames(hs, ids[..|ids| - 1]) + [hs[ids[|ids| - 1]].frame]
  {
  }

  lemma EndMore(path: seq<CallFrame>, f: CallFrame, n: nat)
    requires n <= |path|
    ensures (path + [f])[|path| - n..] == path[|path| - n..] + [f]
  {
  }

  lemma {:induction false} AncestryEndsPath(c: NoInterleave, hs: Handlers, ids: seq<Id>)
    requires AllDescend(c, hs) && Linked(hs, ids)
    ensures var a := hs[ids[|ids| - 1]];
      && |ids| <= |a.path| && a.path[|a.path| - |ids|..] == Frames(hs, ids)
      && (hs[ids[0]].how.Root? ==> |ids| == |a.path|)
  {
    var n := |ids| - 1;
    assert Descends(c, hs, ids[n]);
    if n == 0 {
      assert Frames(hs, ids) == [hs[ids[0]].frame];
    } else {
      AncestryEndsPath(c, hs, ids[..n]);
      FramesMore(hs, ids);
      EndMore(hs[ids[n - 1]].path, hs[ids[n]].frame, n);
    }
  }

  /** The caller of `id` still waits for it. */
  predicate Awaited(hs: Handlers, id: Id)
    requires id in hs
  {
    var p := hs[id].parent;
    p.Some? && p.value in hs && hs[p.value].doing == Waiting(id)
  }

  /** The handlers that wait, each for the next, for handler `id`, which comes last. */
  ghost function Chain(c: NoInterleave, hs: Handlers, id: Id): (ids: seq<Id>)
    requires AllDescend(c, hs) && id in hs
    ensures Linked(hs, ids) && ids[|ids| - 1] == id && !Awaited(hs, ids[0])
    ensures forall k :: 0 <= k < |ids| - 1 ==> hs[ids[k]].doing == Waiting(ids[k + 1])
    decreases |hs[id].path|
  {
    assert Descends(c, hs, id);
    if Awaited(hs, id) then Chain(c, hs, hs[id].parent.value) + [id] else [id]
  }

  // -------------------------------------------------------------- main results

  /** In every reachable state, the path a handler's context carries is exactly
      its ancestry from the request that came from outside. */
  lemma PathIsAncestry(c: NoInterleave, ss: seq<Sys>, acts: seq<Action>, i: nat, ids: seq<Id>)
    requires IsRun(c, ss, acts) && i < |ss| && Linked(ss[i].handlers, ids) && ss[i].handlers[ids[0]].how.Root?
    ensures ss[i].handlers[ids[|ids| - 1]].path == Frames(ss[i].handlers, ids)
  {
    InvRun(c, ss, acts, i);
    AncestryEndsPath(c, ss[i].handlers, ids);
  }

  /** Along any chain of nested requests of any reachable state, a handler that
      was called, not sent to, never runs in a NoInterleave service of an earlier
      handler of the chain: nobody waits, through others, for itself. */
  lemma NoSelfBlockingChain(c: NoInterleave, ss: seq<Sys>, acts: seq<Action>, i: nat, ids: seq<Id>, j: nat, k: nat)
    requires IsRun(c, ss, acts) && i < |ss| && Linked(ss[i].handlers, ids) && j < k < |ids|
    requires ss[i].handlers[ids[k]].how.ByCall? && Exclusive(c, ss[i].handlers[ids[k]].frame)
    ensures var a, b := ss[i].handlers[ids[j]].frame, ss[i].handlers[ids[k]].frame;
      a.node != b.node || a.service != b.service
  {
    InvRun(c, ss, acts, i);
    var hs := ss[i].handlers;
    AncestryEndsPath(c, hs, ids[..k]);
    assert Descends(c, hs, ids[k]);
    var path := hs[ids[k - 1]].path;
    assert path[|path| - k..][j] == hs[ids[j]].frame;
    assert path[|path| - k + j] == hs[ids[j]].frame;
  }

  /** How many NoYield sections handler `id` has entered and not left in the course of `acts`. */
  function OpenSections(acts: seq<Action>, id: Id): int {
    if acts == [] then 0
    else
      var before, a := OpenSections(acts[..|acts| - 1], id), acts[|acts| - 1];
      if a == EnterNoYield(id) then before + 1 else if a == LeaveNoYield(id) then before - 1 else before
  }

  function Depth(s: Sys, id: Id): nat {
    if id in s.handlers then s.handlers[id].noYield else 0
  }

  /** A step changes a handler's NoYield depth only by entering or leaving a section. */
  lemma DepthStep(c: NoInterleave, s: Sys, a: Action, id: Id)
    requires Inv(c, s) && Enabled(s, a)
    ensures var s' := Apply(c, s, a);
      Depth(s', id) == Depth(s, id) + (if a == EnterNoYield(id) then 1 else if a == LeaveNoYield(id) then -1 else 0)
  {
    assert id in s.flights ==> FlightOk(s, id);
  }

  /** The counter a handler is checked by is the number of sections its history has open. */
  lemma {:induction false} CounterIsOpenSections(c: NoInterleave, ss: seq<Sys>, acts: seq<Action>, i: nat, id: Id)
    requires IsRun(c, ss, acts) && i < |ss|
    ensures OpenSections(acts[..i], id) == Depth(ss[i], id)
  {
    if i == 0 {
    } else {
      CounterIsOpenSections(c, ss, acts, i - 1, id);
      InvRun(c, ss, acts, i - 1);
      assert Step(c, ss[i - 1], acts[i - 1], ss[i]);
      DepthStep(c, ss[i - 1], acts[i - 1], id);
      assert acts[..i][..i - 1] == acts[..i - 1];
    }
  }

  /** While any NoYield section of a handler is open, however deeply nested, no
      call it makes, local or remote, is dispatched or sent. */
  lemma NoYieldNeverDispatches(c: NoInterleave, ss: seq<Sys>, acts: seq<Action>, i: nat)
    requires IsRun(c, ss, acts) && i < |acts| && acts[i].Call? && OpenSections(acts[..i], acts[i].from) > 0
    ensures ss[i + 1] == ss[i]
  {
    CounterIsOpenSections(c, ss, acts, i, acts[i].from);
    assert Step(c, ss[i], acts[i], ss[i + 1]);
  }

  /** Said of the history alone, for every call: it is dispatched to a local
      service, or sent to another node, if and only if the handler has no NoYield
      section open, a local target is not a NoInterleave service that the handler
      or one of its ancestors runs in, and nothing else refused it. */
  lemma CallDispatchedIff(c: NoInterleave, ss: seq<Sys>, acts: seq<Action>, i: nat, ids: seq<Id>)
    requires IsRun(c, ss, acts) && i < |acts| && acts[i].Call?
    requires Linked(ss[i].handlers, ids) && ss[i].handlers[ids[0]].how.Root? && ids[|ids| - 1] == acts[i].from
    ensures ss[i + 1] != ss[i] <==>
      && acts[i].admitted
      && OpenSections(acts[..i], acts[i].from) == 0
      && (acts[i].remote || !HoldsTarget(c, ss[i].handlers, ids, acts[i].target))
  {
    CycleIff(c, ss[i].handlers, ids, acts[i].target);
    PathIsAncestry(c, ss, acts, i, ids);
    CounterIsOpenSections(c, ss, acts, i, acts[i].from);
    assert Step(c, ss[i], acts[i], ss[i + 1]);
    assert acts[i].id !in ss[i].used && (ss[i + 1] != ss[i] ==> acts[i].id in ss[i + 1].used);
  }

  /** And a request that arrives from another node gets its handler if and only
      if nothing else refused it and, for a call, its target is not a NoInterleave
      service that its sender or one of the sender's ancestors runs in. */
  lemma ArrivalAdmittedIff(c: NoInterleave, ss: seq<Sys>, acts: seq<Action>, i: nat, ids: seq<Id>)
    requires IsRun(c, ss, acts) && i < |acts| && acts[i].Arrive? && acts[i].id in ss[i].flights
    requires Linked(ss[i].handlers, ids) && ss[i].handlers[ids[0]].how.Root?
    requires ids[|ids| - 1] == ss[i].flights[acts[i].id].from
    ensures var f := ss[i].flights[acts[i].id];
      acts[i].id in ss[i + 1].handlers <==>
        acts[i].admitted && !(f.call && HoldsTarget(c, ss[i].handlers, ids, f.target))
  {
    CycleIff(c, ss[i].handlers, ids, ss[i].flights[acts[i].id].target);
    PathIsAncestry(c, ss, acts, i, ids);
    InvRun(c, ss, acts, i);
    assert FlightOk(ss[i], acts[i].id);
    WireRoundTrip(ss[i].handlers[ids[|ids| - 1]].path);
    assert Step(c, ss[i], acts[i], ss[i + 1]);
  }

  /** One of the handlers `ids` runs in the target's NoInterleave service. */
  ghost predicate HoldsTarget(c: NoInterleave, hs: Handlers, ids: seq<Id>, target: CallFrame)
    requires forall k :: 0 <= k < |ids| ==> ids[k] in hs
  {
    && (target.node, target.service) in c
    && exists k :: 0 <= k < |ids| && hs[ids[k]].frame.node == target.node && hs[ids[k]].frame.service == target.service
  }

  lemma CycleIff(c: NoInterleave, hs: Handlers, ids: seq<Id>, target: CallFrame)
    requires forall k :: 0 <= k < |ids| ==> ids[k] in hs
    ensures Cycle(c, Frames(hs, ids), target) <==> HoldsTarget(c, hs, ids, target)
  {
    var frames := Frames(hs, ids);
    if i :| 0 <= i < |frames| && SameService(frames[i], target) {
      assert hs[ids[i]].frame == frames[i];
    }
    if k :| 0 <= k < |ids| && hs[ids[k]].frame.node == target.node && hs[ids[k]].frame.service == target.service {
      assert SameService(frames[k], target);
    }
  }

  // ------------------------------------------------------- told from the history

  /** The action asks for a handler of `target` under this id, in this way. */
  predicate Makes(a: Action, id: Id, target: CallFrame, how: Via, parent: Option<Id>) {
    match a
    case Start(x, t) => x == id && t == target && how.Root? && parent.None?
    case Call(from, x, t, _, admitted) => x == id && t == target && how.ByCall? && parent == Some(from) && admitted
    case Send(from, x, t, _) => x == id && t == target && how.BySend? && parent == Some(from)
    case _ => false
  }

  /** The k-th action sends the request to another node. */
  predicate Departs(acts: seq<Action>, k: nat, id: Id)
    requires k < |acts|
  {
    var a := acts[k];
    || (a.Send? && a.id == id && a.remote)
    || (a.Call? && a.id == id && a.remote && a.admitted && OpenSections(acts[..k], a.from) == 0)
  }

  predicate Lands(a: Action, id: Id) {
    (a.Arrive? && a.id == id) || a == Lost(id)
  }

  /** The request has left for another node and neither arrived nor got lost since. */
  predicate UnderWay(acts: seq<Action>, i: nat, id: Id)
    requires i <= |acts|
  {
    i > 0 && (Departs(acts, i - 1, id) || (UnderWay(acts, i - 1, id) && !Lands(acts[i - 1], id)))
  }

  lemma FlightStep(c: NoInterleave, ss: seq<Sys>, acts: seq<Action>, i: nat, id: Id)
    requires IsRun(c, ss, acts) && i < |acts|
    ensures id in ss[i + 1].flights <==> Departs(acts, i, id) || (id in ss[i].flights && !Lands(acts[i], id))
    ensures id in ss[i].flights && id in ss[i + 1].flights ==> ss[i + 1].flights[id] == ss[i].flights[id]
    ensures Departs(acts, i, id) ==> var f := ss[i + 1].flights[id];
      Makes(acts[i], id, f.target, if f.call then ByCall else BySend, Some(f.from))
  {
    assert Step(c, ss[i], acts[i], ss[i + 1]);
    InvRun(c, ss, acts, i);
    assert id in ss[i].flights ==> FlightOk(ss[i], id);
    if acts[i].Call? {
      CounterIsOpenSections(c, ss, acts, i, acts[i].from);
    }
  }

  /** The requests under way are exactly those the history sent to another node and
      has seen neither arrive nor get lost, each as it was made. */
  lemma {:induction false} FlightsExact(c: NoInterleave, ss: seq<Sys>, acts: seq<Action>, i: nat, id: Id)
    returns (k: nat)
    requires IsRun(c, ss, acts) && i < |ss|
    ensures id in ss[i].flights <==> UnderWay(acts, i, id)
    ensures id in ss[i].flights ==> var f := ss[i].flights[id];
      k < i && Makes(acts[k], id, f.target, if f.call then ByCall else BySend, Some(f.from))
  {
    k := 0;
    if i == 0 {
    } else {
      k := FlightsExact(c, ss, acts, i - 1, id);
      FlightStep(c, ss, acts, i - 1, id);
      if Departs(acts, i - 1, id) {
        k := i - 1;
      }
    }
  }

  /** What a handler is stays as it was when it began; it begins when the request is
      made or, from another node, when it arrives. */
  lemma HandlerStep(c: NoInterleave, s: Sys, a: Action, s': Sys, id: Id)
    requires Inv(c, s) && Step(c, s, a, s') && id in s'.handlers
    ensures var h := s'.handlers[id];
      if id in s.handlers then
        h.frame == s.handlers[id].frame && h.how == s.handlers[id].how && h.parent == s.handlers[id].parent
      else
        || Makes(a, id, h.frame, h.how, h.parent)
        || (a.Arrive? && a.id == id && id in s.flights &&
            var f := s.flights[id];
            h.frame == f.target && h.parent == Some(f.from) && h.how == if f.call then ByCall else BySend)
  {
    assert id in s.flights ==> FlightOk(s, id);
  }

  /** Every handler runs the target of the request that was made for it, knows who
      made it, and knows whether that was a call or a send. */
  lemma {:induction false} HandlersExact(c: NoInterleave, ss: seq<Sys>, acts: seq<Action>, i: nat, id: Id)
    returns (k: nat)
    requires IsRun(c, ss, acts) && i < |ss| && id in ss[i].handlers
    ensures var h := ss[i].handlers[id]; k < i && Makes(acts[k], id, h.frame, h.how, h.parent)
  {
    assert i > 0;
    InvRun(c, ss, acts, i - 1);
    HandlerStep(c, ss[i - 1], acts[i - 1], ss[i], id);
    var h := ss[i].handlers[id];
    if id in ss[i - 1].handlers {
      k := HandlersExact(c, ss, acts, i - 1, id);
    } else if Makes(acts[i - 1], id, h.frame, h.how, h.parent) {
      k := i - 1;
    } else {
      k := FlightsExact(c, ss, acts, i - 1, id);
    }
  }

  predicate IsDoing(s: Sys, id: Id, doing: Doing) {
    id in s.handlers && s.handlers[id].doing == doing
  }

  /** The k-th action is a call of `id` for request `x` that is dispatched or sent. */
  predicate CallsFor(ss: seq<Sys>, acts: seq<Action>, k: nat, id: Id, x: Id)
    requires k < |acts| < |ss|
  {
    acts[k].Call? && acts[k].from == id && acts[k].id == x && x in ss[k + 1].used
  }

  /** `id` called for `x`, and has neither been answered nor given up since. */
  predicate WaitsFor(ss: seq<Sys>, acts: seq<Action>, i: nat, id: Id, x: Id)
    requires i <= |acts| < |ss|
  {
    && i > 0
    && (CallsFor(ss, acts, i - 1, id, x) ||
        (WaitsFor(ss, acts, i - 1, id, x) && acts[i - 1] != Reply(id) && acts[i - 1] != GiveUp(id)))
  }

  lemma DoingStep(c: NoInterleave, ss: seq<Sys>, acts: seq<Action>, i: nat, id: Id, x: Id)
    requires IsRun(c, ss, acts) && i < |acts|
    ensures IsDoing(ss[i + 1], id, Waiting(x)) <==>
      CallsFor(ss, acts, i, id, x) ||
      (IsDoing(ss[i], id, Waiting(x)) && acts[i] != Reply(id) && acts[i] != GiveUp(id))
    ensures IsDoing(ss[i + 1], id, Returned) <==> acts[i] == Return(id) || IsDoing(ss[i], id, Returned)
  {
    assert Step(c, ss[i], acts[i], ss[i + 1]);
    InvRun(c, ss, acts, i);
    assert id in ss[i].flights ==> FlightOk(ss[i], id);
  }

  /** What every handler does is what its history says: it waits for a request from
      its call until the answer or until it gives up, and has returned if and only
      if it returned. */
  lemma {:induction false} DoingExact(c: NoInterleave, ss: seq<Sys>, acts: seq<Action>, i: nat, id: Id, x: Id)
    requires IsRun(c, ss, acts) && i < |ss|
    ensures IsDoing(ss[i], id, Waiting(x)) <==> WaitsFor(ss, acts, i, id, x)
    ensures IsDoing(ss[i], id, Returned) <==> Return(id) in acts[..i]
  {
    if i == 0 {
    } else {
      DoingExact(c, ss, acts, i - 1, id, x);
      DoingStep(c, ss, acts, i - 1, id, x);
      assert acts[..i] == acts[..i - 1] + [acts[i - 1]];
    }
  }

  /** An answer comes only when the request is no longer under way and the handler
      it reached, if any, has returned. */
  lemma AnswersAreDue(c: NoInterleave, ss: seq<Sys>, acts: seq<Action>, i: nat, id: Id, x: Id)
    requires IsRun(c, ss, acts) && i < |acts| && acts[i] == Reply(id) && WaitsFor(ss, acts, i, id, x)
    ensures !UnderWay(acts, i, x)
    ensures x in ss[i].handlers ==> Return(x) in acts[..i]
  {
    assert Step(c, ss[i], acts[i], ss[i + 1]);
    DoingExact(c, ss, acts, i, id, x);
    DoingExact(c, ss, acts, i, x, x);
    var _ := FlightsExact(c, ss, acts, i, x);
  }

  /** No handler returns from inside a NoYield section. */
  lemma ReturnsOutsideSections(c: NoInterleave, ss: seq<Sys>, acts: seq<Action>, i: nat, id: Id)
    requires IsRun(c, ss, acts) && i < |acts| && acts[i] == Return(id)
    ensures OpenSections(acts[..i], id) == 0
  {
    assert Step(c, ss[i], acts[i], ss[i + 1]);
    CounterIsOpenSections(c, ss, acts, i, id);
  }

  // ------------------------------------------------- which refusals were needed

  /** What a cycle check is given: the path and target, the handler that made the
      request, and whether that handler waits for it (or is about to). */
  datatype Check = Check(path: seq<CallFrame>, target: CallFrame, from: Id, awaited: bool)

  /** The cycle check a step makes: a local call's before it is dispatched, a remote one's where it arrives. */
  function CheckOf(s: Sys, a: Action): Option<Check>
    requires Enabled(s, a)
  {
    match a
    case Call(from, _, target, remote, _) =>
      if remote then None else Some(Check(s.handlers[from].path, target, from, true))
    case Arrive(id, _) =>
      var f := s.flights[id];
      if f.call then Some(Check(FromWire(f.wire), f.target, f.from, s.handlers[f.from].doing == Waiting(id))) else None
    case _ => None
  }

  /** The handlers that wait, call by call, for the answer to the checked request. */
  ghost function Waiters(c: NoInterleave, hs: Handlers, k: Check): seq<Id>
    requires AllDescend(c, hs) && k.from in hs
  {
    if k.awaited then Chain(c, hs, k.from) else []
  }

  /** The request would wait for a handler that waits for it: one of its waiters
      holds the NoInterleave service it asks for. */
  ghost predicate WouldBlock(c: NoInterleave, hs: Handlers, k: Check)
    requires AllDescend(c, hs) && k.from in hs
  {
    Exclusive(c, k.target) && Serves(hs, Waiters(c, hs, k), k.target)
  }

  /** One of the handlers `ids` runs in the target's service. */
  predicate Serves(hs: Handlers, ids: seq<Id>, target: CallFrame) {
    exists i :: 0 <= i < |ids| && ids[i] in hs && SameService(hs[ids[i]].frame, target)
  }

  /** The target's service is on the path, but only before its last `n` frames. */
  predicate OnlyBeforeLast(path: seq<CallFrame>, n: nat, target: CallFrame) {
    n <= |path| && Contains(path[..|path| - n], target) && !Contains(path[|path| - n..], target)
  }

  lemma {:induction false} ContainsSplit(path: seq<CallFrame>, n: nat, target: CallFrame)
    requires n <= |path|
    ensures Contains(path, target) <==> Contains(path[..n], target) || Contains(path[n..], target)
  {
    if i :| 0 <= i < |path| && SameService(path[i], target) {
      assert if i < n then SameService(path[..n][i], target) else SameService(path[n..][i - n], target);
    }
    if i :| 0 <= i < |path[n..]| && SameService(path[n..][i], target) {
      assert SameService(path[n + i], target);
    }
    if i :| 0 <= i < n && SameService(path[..n][i], target) {
      assert SameService(path[i], target);
    }
  }

  lemma {:induction false} OnlyBeforeIff(path: seq<CallFrame>, n: nat, target: CallFrame)
    requires n <= |path|
    ensures Contains(path[|path| - n..], target) ==> Contains(path, target)
    ensures OnlyBeforeLast(path, n, target) <==> Contains(path, target) && !Contains(path[|path| - n..], target)
  {
    ContainsSplit(path, |path| - n, target);
  }

  lemma FramesServe(hs: Handlers, ids: seq<Id>, target: CallFrame)
    requires forall k :: 0 <= k < |ids| ==> ids[k] in hs
    ensures Contains(Frames(hs, ids), target) <==> Serves(hs, ids, target)
  {
    var frames := Frames(hs, ids);
    if Contains(frames, target) {
      var i :| 0 <= i < |frames| && SameService(frames[i], target);
      assert SameService(hs[ids[i]].frame, target);
    }
    if Serves(hs, ids, target) {
      var i :| 0 <= i < |ids| && ids[i] in hs && SameService(hs[ids[i]].frame, target);
      assert SameService(frames[i], target);
    }
  }

  /** The waiters are the last of the path. */
  lemma WaitersEndPath(c: NoInterleave, hs: Handlers, k: Check)
    requires AllDescend(c, hs) && k.from in hs && k.path == hs[k.from].path
    ensures var n := |Waiters(c, hs, k)|;
      n <= |k.path| && (WouldBlock(c, hs, k) <==> Exclusive(c, k.target) && Contains(k.path[|k.path| - n..], k.target))
  {
    if k.awaited {
      AncestryEndsPath(c, hs, Chain(c, hs, k.from));
      FramesServe(hs, Chain(c, hs, k.from), k.target);
    } else {
      assert k.path[|k.path|..] == [];
    }
  }

  lemma CheckedPath(c: NoInterleave, s: Sys, a: Action)
    requires Inv(c, s) && Enabled(s, a) && CheckOf(s, a).Some?
    ensures var k := CheckOf(s, a).value; k.from in s.handlers && k.path == s.handlers[k.from].path
  {
    if a.Arrive? {
      assert FlightOk(s, a.id);
      WireRoundTrip(s.handlers[s.flights[a.id].from].path);
    }
  }

  lemma RefusedAdmitsNothing(c: NoInterleave, s: Sys, a: Action)
    requires Enabled(s, a) && CheckOf(s, a).Some?
    ensures Cycle(c, CheckOf(s, a).value.path, CheckOf(s, a).value.target) ==>
      Apply(c, s, a).handlers == s.handlers
  {
  }

  lemma RefusalAt(c: NoInterleave, hs: Handlers, k: Check)
    requires AllDescend(c, hs) && k.from in hs && k.path == hs[k.from].path
    ensures WouldBlock(c, hs, k) ==> Cycle(c, k.path, k.target)
    ensures Cycle(c, k.path, k.target) && !WouldBlock(c, hs, k) <==>
      Exclusive(c, k.target) && OnlyBeforeLast(k.path, |Waiters(c, hs, k)|, k.target)
  {
    var n := |Waiters(c, hs, k)|;
    WaitersEndPath(c, hs, k);
    OnlyBeforeIff(k.path, n, k.target);
  }

  /** In every run, for every cycle check, local or at the receiver: it refuses
      every request that would wait for itself.  It refuses one without need
      exactly when the NoInterleave target is on the path, but only before the
      handlers that at that moment still wait, call by call, for the answer:
      before the last Send, or before the last caller that gave up. */
  lemma RefusalExact(c: NoInterleave, ss: seq<Sys>, acts: seq<Action>, i: nat)
    requires IsRun(c, ss, acts) && i < |acts| && Enabled(ss[i], acts[i]) && CheckOf(ss[i], acts[i]).Some?
    ensures Inv(c, ss[i]) && CheckOf(ss[i], acts[i]).value.from in ss[i].handlers
    ensures
      var k := CheckOf(ss[i], acts[i]).value;
      var refused := Cycle(c, k.path, k.target);
      && (refused ==> ss[i + 1].handlers == ss[i].handlers)
      && (WouldBlock(c, ss[i].handlers, k) ==> refused)
      && (refused && !WouldBlock(c, ss[i].handlers, k) <==>
          Exclusive(c, k.target) && OnlyBeforeLast(k.path, |Waiters(c, ss[i].handlers, k)|, k.target))
  {
    InvRun(c, ss, acts, i);
    assert Step(c, ss[i], acts[i], ss[i + 1]);
    CheckedPath(c, ss[i], acts[i]);
    RefusedAdmitsNothing(c, ss[i], acts[i]);
    RefusalAt(c, ss[i].handlers, CheckOf(ss[i], acts[i]).value);
  }

  /** A NoInterleave handler sends to another service, whose handler then calls
      back: refused, although nobody waits for that handler. */
  lemma RefusedAfterSend(x: CallFrame, b: CallFrame)
    requires !SameService(x, b)
    ensures var c: NoInterleave := iset{(x.node, x.service)};
      var s := Apply(c, Apply(c, INIT, Start(0, x)), Send(0, 1, b, false));
      var k := Check(s.handlers[1].path, x, 1, true);
      && Enabled(s, Call(1, 2, x, false, true)) && CheckOf(s, Call(1, 2, x, false, true)) == Some(k)
      && Inv(c, s) && Cycle(c, k.path, x) && !WouldBlock(c, s.handlers, k)
  {
    var c: NoInterleave := iset{(x.node, x.service)};
    var s0 := Apply(c, INIT, Start(0, x));
    var s := Apply(c, s0, Send(0, 1, b, false));
    InvStep(c, INIT, Start(0, x));
    InvStep(c, s0, Send(0, 1, b, false));
    assert s.handlers[1].path[0] == x;
    assert Chain(c, s.handlers, 1) == [1];
  }

  /** A NoInterleave handler calls another service and gives up waiting; the
      called handler, still running, calls back: refused, although nobody waits
      for it and nothing was ever sent. */
  lemma RefusedAfterTimeout(x: CallFrame, b: CallFrame)
    requires !SameService(x, b)
    ensures var c: NoInterleave := iset{(x.node, x.service)};
      var s1 := Apply(c, INIT, Start(0, x));
      var s2 := Apply(c, s1, Call(0, 1, b, false, true));
      && Enabled(s2, GiveUp(0))
      && var s := Apply(c, s2, GiveUp(0));
         && 1 in s.handlers && s.handlers[1].how.ByCall?
         && var k := Check(s.handlers[1].path, x, 1, true);
            && Enabled(s, Call(1, 2, x, false, true)) && CheckOf(s, Call(1, 2, x, false, true)) == Some(k)
            && Inv(c, s) && Cycle(c, k.path, x) && !WouldBlock(c, s.handlers, k)
  {
    var c: NoInterleave := iset{(x.node, x.service)};
    var s1 := Apply(c, INIT, Start(0, x));
    InvStep(c, INIT, Start(0, x));
    assert !Exclusive(c, b);
    var s2 := Apply(c, s1, Call(0, 1, b, false, true));
    InvStep(c, s1, Call(0, 1, b, false, true));
    var s := Apply(c, s2, GiveUp(0));
    InvStep(c, s2, GiveUp(0));
    assert s.handlers[1].path[0] == x;
    assert Chain(c, s.handlers, 1) == [1];
  }
}
