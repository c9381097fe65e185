/**
 The multi-level dispatch retrier: one bounded queue and one goroutine per
 level.  A task that fails its last try on a level moves to the next; the
 goroutines of different levels interleave freely.
 */
module Retrier {
  import opened Basics

  type Id = int

  datatype Level = Level(maxTries: int, cap: nat)

  datatype Fate = Succeeded | DroppedFull | Exhausted

  /** Where a task is: in the queue of a level, taken out by its goroutine, or over. */
  datatype Place = New | Queued(level: nat) | Held(level: nat) | Over(fate: Fate)

  /** `tries` travels with each task; `attempts` counts how often it was run. */
  datatype Tasks = Tasks(queues: seq<seq<Id>>, tries: map<Id, int>, place: map<Id, Place>, attempts: multiset<Id>)

  function PlaceOf(t: Tasks, id: Id): Place {
    if id in t.place then t.place[id] else New
  }

  function TriesOf(t: Tasks, id: Id): int {
    if id in t.tries then t.tries[id] else 0
  }

  /** Offers `id` to the queue of `level`, which drops it when full. */
  function Offer(ls: seq<Level>, t: Tasks, level: nat, id: Id, tries: int): Tasks
    requires level < |ls| == |t.queues|
  {
    if |t.queues[level]| < ls[level].cap
    then t.(queues := t.queues[level := t.queues[level] + [id]], tries := t.tries[id := tries],
            place := t.place[id := Queued(level)])
    else t.(place := t.place[id := Over(DroppedFull)])
  }

  function TakeHead(t: Tasks, level: nat): Tasks
    requires level < |t.queues| && t.queues[level] != []
  {
    var id := t.queues[level][0];
    t.(queues := t.queues[level := t.queues[level][1..]], place := t.place[id := Held(level)])
  }

  /** What becomes of the task held on `level` once its function has returned. */
  function Settle(ls: seq<Level>, t: Tasks, level: nat, id: Id, ok: bool): Tasks
    requires level < |ls| == |t.queues|
  {
    var t1 := t.(attempts := t.attempts + multiset{id});
    if ok then t1.(place := t.place[id := Over(Succeeded)])
    else if TriesOf(t, id) - 1 > 0 then Offer(ls, t1, level, id, TriesOf(t, id) - 1)
    else if level + 1 >= |ls| then t1.(place := t.place[id := Over(Exhausted)])
    else Offer(ls, t1, level + 1, id, ls[level + 1].maxTries)
  }

  // ------------------------------------------------------------------- processes

  /** A level's goroutine: between ticks, or with `left` more tasks of its
      snapshot to take, holding one or not; `seen` are the tasks this batch took. */
  datatype Worker = Idle | Batch(left: nat, seen: set<Id>) | Running(left: nat, seen: set<Id>, id: Id)

  datatype Sys = Sys(t: Tasks, workers: seq<Worker>)

  function Init(ls: seq<Level>): Sys {
    Sys(Tasks(seq(|ls|, _ => []), map[], map[], multiset{}), seq(|ls|, _ => Idle))
  }

  datatype Action =
    | Enqueue(id: Id)
    | Tick(level: nat)
    | Take(level: nat)
    | Return(level: nat, ok: bool)
    | BatchEnds(level: nat)

  predicate Shaped(ls: seq<Level>, s: Sys) {
    |ls| > 0 && |s.workers| == |ls| == |s.t.queues|
  }

  predicate Enabled(ls: seq<Level>, s: Sys, a: Action)
    requires Shaped(ls, s)
  {
    match a
    case Enqueue(id) => PlaceOf(s.t, id).New?
    case Tick(l) => l < |ls| && s.workers[l].Idle?
    case Take(l) => l < |ls| && s.workers[l].Batch? && s.workers[l].left > 0
    case Return(l, _) => l < |ls| && s.workers[l].Running?
    case BatchEnds(l) => l < |ls| && s.workers[l].Batch? && s.workers[l].left == 0
  }

  function Apply(ls: seq<Level>, s: Sys, a: Action): Sys
    requires Shaped(ls, s) && Enabled(ls, s, a)
  {
    match a
    case Enqueue(id) => s.(t := Offer(ls, s.t, 0, id, ls[0].maxTries))
    case Tick(l) => s.(workers := s.workers[l := Batch(|s.t.queues[l]|, {})])
    case Take(l) =>
      if s.t.queues[l] == [] then s.(workers := s.workers[l := Idle])
      else
        var w, id := s.workers[l], s.t.queues[l][0];
        Sys(TakeHead(s.t, l), s.workers[l := Running(w.left - 1, w.seen + {id}, id)])
    case Return(l, ok) =>
      var w := s.workers[l];
      Sys(Settle(ls, s.t, l, w.id, ok), s.workers[l := Batch(w.left, w.seen)])
    case BatchEnds(l) => s.(workers := s.workers[l := Idle])
  }

  ghost predicate Step(ls: seq<Level>, s: Sys, a: Action, s': Sys) {
    Shaped(ls, s) && Enabled(ls, s, a) && s' == Apply(ls, s, a)
  }

  ghost predicate IsRun(ls: seq<Level>, ss: seq<Sys>, acts: seq<Action>) {
    && |ls| > 0 && |ss| == |acts| + 1 && ss[0] == Init(ls)
    && forall i :: 0 <= i < |acts| ==> Step(ls, ss[i], acts[i], ss[i + 1])
  }

  // ------------------------------------------------------------------- invariants

  function Worth(l: Level): nat {
    if l.maxTries > 1 then l.maxTries else 1
  }

  /** The attempts the levels from `from` on allow. */
  function Allowance(ls: seq<Level>, from: nat): nat
    decreases |ls| - from
  {
    if from >= |ls| then 0 else Worth(ls[from]) + Allowance(ls, from + 1)
  }

  /** What a task with `tries` tries on `level` may still use. */
  function Left(ls: seq<Level>, level: nat, tries: int): nat {
    (if tries > 1 then tries else 1) + Allowance(ls, level + 1)
  }

  ghost predicate QueuedAt(t: Tasks, id: Id) {
    forall l :: 0 <= l < |t.queues| ==> (id in t.queues[l] <==> PlaceOf(t, id) == Queued(l))
  }

  /** Attempts made and attempts still allowed add up, wherever the task is. */
  ghost predicate BudgetAt(ls: seq<Level>, t: Tasks, id: Id) {
    var p := PlaceOf(t, id);
    && (p.Queued? || p.Held? ==>
          p.level < |ls| && t.attempts[id] + Left(ls, p.level, TriesOf(t, id)) == Allowance(ls, 0))
    && (p.New? ==> t.attempts[id] == 0)
    && t.attempts[id] <= Allowance(ls, 0)
    && (p.Over? && p.fate.Exhausted? ==> t.attempts[id] == Allowance(ls, 0))
  }

  ghost predicate HeldAt(s: Sys, id: Id) {
    forall l :: 0 <= l < |s.workers| ==>
      (s.workers[l].Running? && s.workers[l].id == id <==> PlaceOf(s.t, id) == Held(l))
  }

  ghost predicate PlacedAt(ls: seq<Level>, s: Sys, id: Id) {
    QueuedAt(s.t, id) && BudgetAt(ls, s.t, id) && HeldAt(s, id)
  }

  /** The rest of a batch's snapshot is still at the head of the queue, untouched. */
  ghost predicate BatchOk(s: Sys, l: nat)
    requires l < |s.workers| == |s.t.queues|
  {
    var q, w := s.t.queues[l], s.workers[l];
    && Distinct(q)
    && (!w.Idle? ==> w.left <= |q| && forall k :: 0 <= k < w.left ==> q[k] !in w.seen)
  }

  ghost predicate Inv(ls: seq<Level>, s: Sys) {
    && Shaped(ls, s)
    && (forall id :: PlacedAt(ls, s, id))
    && (forall l :: 0 <= l < |ls| ==> BatchOk(s, l) && |s.t.queues[l]| <= ls[l].cap)
  }

  lemma OfferQueues(ls: seq<Level>, t: Tasks, level: nat, x: Id, tries: int, id: Id)
    requires level < |ls| == |t.queues| && QueuedAt(t, id) && QueuedAt(t, x) && !PlaceOf(t, x).Queued?
    ensures QueuedAt(Offer(ls, t, level, x, tries), id)
  {
    var t' := Offer(ls, t, level, x, tries);
    forall l | 0 <= l < |t.queues| ensures id in t'.queues[l] <==> PlaceOf(t', id) == Queued(l) {
    }
  }

  lemma SettleQueues(ls: seq<Level>, t: Tasks, level: nat, x: Id, ok: bool, id: Id)
    requires level < |ls| == |t.queues| && QueuedAt(t, id) && QueuedAt(t, x) && PlaceOf(t, x).Held?
    ensures QueuedAt(Settle(ls, t, level, x, ok), id)
  {
    var t1 := t.(attempts := t.attempts + multiset{x});
    assert QueuedAt(t1, id) && QueuedAt(t1, x);
    if !ok && TriesOf(t, x) - 1 > 0 {
      OfferQueues(ls, t1, level, x, TriesOf(t, x) - 1, id);
    } else if !ok && level + 1 < |ls| {
      OfferQueues(ls, t1, level + 1, x, ls[level + 1].maxTries, id);
    }
  }

  lemma SettleBudget(ls: seq<Level>, t: Tasks, level: nat, x: Id, ok: bool, id: Id)
    requires level < |ls| == |t.queues| && BudgetAt(ls, t, id) && (x == id ==> PlaceOf(t, x) == Held(level))
    ensures BudgetAt(ls, Settle(ls, t, level, x, ok), id)
  {
  }

  /** Settling moves the task out of hand, on this level or the next. */
  lemma SettlePlace(ls: seq<Level>, t: Tasks, level: nat, x: Id, ok: bool)
    requires level < |ls| == |t.queues|
    ensures var t' := Settle(ls, t, level, x, ok); var p := PlaceOf(t', x);
      && (p.Over? || p == Queued(level) || p == Queued(level + 1))
      && |t'.queues| == |t.queues|
      && (forall id :: id != x ==> PlaceOf(t', id) == PlaceOf(t, id))
      && (forall l :: 0 <= l < |ls| ==> t.queues[l] <= t'.queues[l] && |t'.queues[l]| <= |t.queues[l]| + 1)
      && (forall l :: 0 <= l < |ls| && t'.queues[l] != t.queues[l] ==>
            t'.queues[l] == t.queues[l] + [x] && |t.queues[l]| < ls[l].cap)
  {
  }

  lemma PlacedReturn(ls: seq<Level>, s: Sys, l: nat, ok: bool, id: Id)
    requires Inv(ls, s) && Enabled(ls, s, Return(l, ok))
    ensures PlacedAt(ls, Apply(ls, s, Return(l, ok)), id)
  {
    var x, s' := s.workers[l].id, Apply(ls, s, Return(l, ok));
    assert PlacedAt(ls, s, id) && PlacedAt(ls, s, x);
    SettleQueues(ls, s.t, l, x, ok, id);
    SettleBudget(ls, s.t, l, x, ok, id);
    SettlePlace(ls, s.t, l, x, ok);
    forall k | 0 <= k < |s'.workers|
      ensures s'.workers[k].Running? && s'.workers[k].id == id <==> PlaceOf(s'.t, id) == Held(k)
    {
    }
  }

  lemma PlacedTake(ls: seq<Level>, s: Sys, l: nat, id: Id)
    requires Inv(ls, s) && Enabled(ls, s, Take(l)) && s.t.queues[l] != []
    ensures PlacedAt(ls, Apply(ls, s, Take(l)), id)
  {
    var q, s' := s.t.queues[l], Apply(ls, s, Take(l));
    assert q == [q[0]] + q[1..];
    assert BatchOk(s, l) && PlacedAt(ls, s, q[0]) && PlacedAt(ls, s, id);
    forall k | 0 <= k < |s'.t.queues| ensures id in s'.t.queues[k] <==> PlaceOf(s'.t, id) == Queued(k) {
    }
    forall k | 0 <= k < |s'.workers|
      ensures s'.workers[k].Running? && s'.workers[k].id == id <==> PlaceOf(s'.t, id) == Held(k)
    {
    }
  }

  lemma PlacedEnqueue(ls: seq<Level>, s: Sys, x: Id, id: Id)
    requires Inv(ls, s) && Enabled(ls, s, Enqueue(x))
    ensures PlacedAt(ls, Apply(ls, s, Enqueue(x)), id)
  {
    assert PlacedAt(ls, s, id) && PlacedAt(ls, s, x);
    OfferQueues(ls, s.t, 0, x, ls[0].maxTries, id);
    var s' := Apply(ls, s, Enqueue(x));
    forall k | 0 <= k < |s'.workers|
      ensures s'.workers[k].Running? && s'.workers[k].id == id <==> PlaceOf(s'.t, id) == Held(k)
    {
    }
  }

  lemma PlacedAtStep(ls: seq<Level>, s: Sys, a: Action, id: Id)
    requires Inv(ls, s) && Enabled(ls, s, a)
    ensures PlacedAt(ls, Apply(ls, s, a), id)
  {
    match a
    case Enqueue(x) => PlacedEnqueue(ls, s, x, id);
    case Take(l) => assert BatchOk(s, l); PlacedTake(ls, s, l, id);
    case Return(l, ok) => PlacedReturn(ls, s, l, ok, id);
    case _ => assert PlacedAt(ls, s, id);
  }

  /** A queue that only gained a task its batch does not hold in its snapshot. */
  lemma BatchAppend(s: Sys, s': Sys, l: nat, x: Id)
    requires l < |s.workers| == |s.t.queues| && l < |s'.workers| == |s'.t.queues| && BatchOk(s, l)
    requires s'.t.queues[l] == s.t.queues[l] || (s'.t.queues[l] == s.t.queues[l] + [x] && x !in s.t.queues[l])
    requires s'.workers[l] == s.workers[l]
             || (s.workers[l].Running? && s'.workers[l] == Batch(s.workers[l].left, s.workers[l].seen))
    ensures BatchOk(s', l)
  {
  }

  lemma BatchStep(ls: seq<Level>, s: Sys, a: Action, l: nat)
    requires Inv(ls, s) && Enabled(ls, s, a) && l < |ls|
    ensures Shaped(ls, Apply(ls, s, a)) && BatchOk(Apply(ls, s, a), l) && |Apply(ls, s, a).t.queues[l]| <= ls[l].cap
  {
    var s' := Apply(ls, s, a);
    assert BatchOk(s, l) && |s.t.queues[l]| <= ls[l].cap;
    match a
    case Enqueue(x) =>
      assert PlacedAt(ls, s, x);
      BatchAppend(s, s', l, x);
    case Return(k, ok) =>
      var x := s.workers[k].id;
      assert PlacedAt(ls, s, x);
      SettlePlace(ls, s.t, k, x, ok);
      BatchAppend(s, s', l, x);
    case Take(k) =>
      assert BatchOk(s, k);
      if k == l {
        var q, w := s.t.queues[l], s.workers[l];
        assert forall i :: 0 <= i < |q| - 1 ==> q[1..][i] == q[i + 1];
      }
    case _ =>
  }

  lemma {:induction false} InvRun(ls: seq<Level>, ss: seq<Sys>, acts: seq<Action>, i: nat)
    requires IsRun(ls, ss, acts) && i < |ss|
    ensures Inv(ls, ss[i])
  {
    if i == 0 {
      assert forall id :: PlacedAt(ls, Init(ls), id);
    } else {
      InvRun(ls, ss, acts, i - 1);
      assert Step(ls, ss[i - 1], acts[i - 1], ss[i]);
      forall id ensures PlacedAt(ls, ss[i], id) {
        PlacedAtStep(ls, ss[i - 1], acts[i - 1], id);
      }
      forall l | 0 <= l < |ls| ensures BatchOk(ss[i], l) && |ss[i].t.queues[l]| <= ls[l].cap {
        BatchStep(ls, ss[i - 1], acts[i - 1], l);
      }
      BatchStep(ls, ss[i - 1], acts[i - 1], 0);
    }
  }

  // ----------------------------------------------------------------- main results

  /** A task is run at most as often as the levels allow together, and is given
      up as exhausted only after exactly that many attempts. */
  lemma AttemptsBounded(ls: seq<Level>, ss: seq<Sys>, acts: seq<Action>, i: nat, id: Id)
    requires IsRun(ls, ss, acts) && i < |ss|
    ensures ss[i].t.attempts[id] <= Allowance(ls, 0)
    ensures PlaceOf(ss[i].t, id) == Over(Exhausted) ==> ss[i].t.attempts[id] == Allowance(ls, 0)
  {
    InvRun(ls, ss, acts, i);
    assert PlacedAt(ls, ss[i], id);
  }

  /** A task is in at most one queue, at one position, or in one hand, and in
      none once it is over: nothing is duplicated and nothing is lost. */
  lemma TasksConserved(ls: seq<Level>, ss: seq<Sys>, acts: seq<Action>, i: nat, id: Id)
    requires IsRun(ls, ss, acts) && i < |ss|
    ensures var s, p := ss[i], PlaceOf(ss[i].t, id);
      && Shaped(ls, s)
      && (forall l :: 0 <= l < |ls| ==> Distinct(s.t.queues[l]))
      && (forall l :: 0 <= l < |ls| ==> (id in s.t.queues[l] <==> p == Queued(l)))
      && (forall l :: 0 <= l < |ls| ==> (s.workers[l].Running? && s.workers[l].id == id <==> p == Held(l)))
      && (p.Queued? || p.Held? ==> p.level < |ls|)
  {
    InvRun(ls, ss, acts, i);
    assert PlacedAt(ls, ss[i], id);
    forall l | 0 <= l < |ls| ensures Distinct(ss[i].t.queues[l]) {
      assert BatchOk(ss[i], l);
    }
  }

  /** How far a task has come: its level, beyond all levels when it is over. */
  function Progress(ls: seq<Level>, p: Place): int {
    match p
    case New => -1
    case Queued(l) => l
    case Held(l) => l
    case Over(_) => |ls|
  }

  lemma ProgressStep(ls: seq<Level>, s: Sys, a: Action, s': Sys, id: Id)
    requires Inv(ls, s) && Step(ls, s, a, s')
    ensures Progress(ls, PlaceOf(s.t, id)) <= Progress(ls, PlaceOf(s'.t, id))
    ensures PlaceOf(s.t, id).Over? ==> PlaceOf(s'.t, id) == PlaceOf(s.t, id)
  {
    assert PlacedAt(ls, s, id);
    match a
    case Return(l, ok) => SettlePlace(ls, s.t, l, s.workers[l].id, ok); assert PlacedAt(ls, s, s.workers[l].id);
    case Take(l) => assert BatchOk(s, l); assert PlacedAt(ls, s, s.t.queues[l][0]);
    case _ =>
  }

  /** Between two places of a task: the level has not fallen, and a fate has not changed. */
  ghost predicate Onward(ls: seq<Level>, p: Place, p': Place) {
    Progress(ls, p) <= Progress(ls, p') && (p.Over? ==> p' == p)
  }

  lemma OnwardTrans(ls: seq<Level>, p: Place, q: Place, r: Place)
    requires Onward(ls, p, q) && Onward(ls, q, r)
    ensures Onward(ls, p, r)
  {
  }

  lemma StepOnward(ls: seq<Level>, ss: seq<Sys>, acts: seq<Action>, i: nat, id: Id)
    requires IsRun(ls, ss, acts) && i < |acts|
    ensures Onward(ls, PlaceOf(ss[i].t, id), PlaceOf(ss[i + 1].t, id))
  {
    InvRun(ls, ss, acts, i);
    assert Step(ls, ss[i], acts[i], ss[i + 1]);
    ProgressStep(ls, ss[i], acts[i], ss[i + 1], id);
  }

  lemma {:induction false} RunOnward(ls: seq<Level>, ss: seq<Sys>, acts: seq<Action>, i: nat, j: nat, id: Id)
    requires IsRun(ls, ss, acts) && i <= j < |ss|
    ensures Onward(ls, PlaceOf(ss[i].t, id), PlaceOf(ss[j].t, id))
  {
    if i == j {
    } else {
      RunOnward(ls, ss, acts, i, j - 1, id);
      StepOnward(ls, ss, acts, j - 1, id);
      OnwardTrans(ls, PlaceOf(ss[i].t, id), PlaceOf(ss[j - 1].t, id), PlaceOf(ss[j].t, id));
    }
  }

  /** The level of a task never falls, and a fate once reached is final. */
  lemma LevelNeverFalls(ls: seq<Level>, ss: seq<Sys>, acts: seq<Action>, i: nat, j: nat, id: Id)
    requires IsRun(ls, ss, acts) && i <= j < |ss|
    ensures Progress(ls, PlaceOf(ss[i].t, id)) <= Progress(ls, PlaceOf(ss[j].t, id))
    ensures PlaceOf(ss[i].t, id).Over? ==> PlaceOf(ss[j].t, id) == PlaceOf(ss[i].t, id)
  {
    RunOnward(ls, ss, acts, i, j, id);
  }

  /** A batch never takes a task it has already taken, and never finds its
      snapshot short, however the other levels interleave with it. */
  lemma BatchTakesEachOnce(ls: seq<Level>, ss: seq<Sys>, acts: seq<Action>, i: nat, l: nat)
    requires IsRun(ls, ss, acts) && i < |acts| && acts[i] == Take(l)
    ensures l < |ss[i].workers| && l < |ss[i].t.queues| && ss[i].workers[l].Batch?
    ensures ss[i].t.queues[l] != [] && ss[i].t.queues[l][0] !in ss[i].workers[l].seen
    ensures l < |ss[i + 1].workers| && ss[i + 1].workers[l].Running? && ss[i + 1].workers[l].id == ss[i].t.queues[l][0]
  {
    InvRun(ls, ss, acts, i);
    assert Step(ls, ss[i], acts[i], ss[i + 1]);
    assert BatchOk(ss[i], l);
  }

  // ------------------------------------------------------- told from the history

  predicate Runs(s: Sys, a: Action, id: Id) {
    a.Return? && a.level < |s.workers| && s.workers[a.level].Running? && s.workers[a.level].id == id
  }

  ghost function RunCount(ss: seq<Sys>, acts: seq<Action>, i: nat, id: Id): nat
    requires i <= |acts| <= |ss|
  {
    if i == 0 then 0 else RunCount(ss, acts, i - 1, id) + if Runs(ss[i - 1], acts[i - 1], id) then 1 else 0
  }

  lemma AttemptStep(ls: seq<Level>, ss: seq<Sys>, acts: seq<Action>, i: nat, id: Id)
    requires IsRun(ls, ss, acts) && i < |acts|
    ensures ss[i + 1].t.attempts[id] == ss[i].t.attempts[id] + if Runs(ss[i], acts[i], id) then 1 else 0
  {
    assert Step(ls, ss[i], acts[i], ss[i + 1]);
  }

  /** The attempts of a task are the times its function has returned. */
  lemma {:induction false} AttemptsExact(ls: seq<Level>, ss: seq<Sys>, acts: seq<Action>, i: nat, id: Id)
    requires IsRun(ls, ss, acts) && i < |ss|
    ensures ss[i].t.attempts[id] == RunCount(ss, acts, i, id)
  {
    if i == 0 {
    } else {
      AttemptsExact(ls, ss, acts, i - 1, id);
      AttemptStep(ls, ss, acts, i - 1, id);
    }
  }

  /** The attempts the levels up to and including `level` allow together. */
  function UpTo(ls: seq<Level>, level: nat): int {
    Allowance(ls, 0) - Allowance(ls, level + 1)
  }

  /** The level a task goes to after its n-th attempt failed on `level`. */
  function NextLevel(ls: seq<Level>, level: nat, n: nat): nat {
    if n < UpTo(ls, level) then level else level + 1
  }

  /** The tasks of `t'` are those of `t`, with `id` offered to the end of a queue:
      it is there if the queue had room, and dropped if not or if there is no such
      level. */
  ghost predicate WentTo(ls: seq<Level>, t: Tasks, t': Tasks, level: nat, id: Id)
    requires |t.queues| == |ls|
  {
    if level >= |ls| then t'.queues == t.queues && PlaceOf(t', id) == Over(Exhausted)
    else if |t.queues[level]| < ls[level].cap then
      t'.queues == t.queues[level := t.queues[level] + [id]] && PlaceOf(t', id) == Queued(level)
    else t'.queues == t.queues && PlaceOf(t', id) == Over(DroppedFull)
  }

  lemma SettleExact(ls: seq<Level>, t: Tasks, level: nat, id: Id, ok: bool)
    requires level < |ls| == |t.queues| && BudgetAt(ls, t, id) && PlaceOf(t, id) == Held(level)
    ensures var t' := Settle(ls, t, level, id, ok);
      if ok then t'.queues == t.queues && PlaceOf(t', id) == Over(Succeeded)
      else WentTo(ls, t, t', NextLevel(ls, level, t.attempts[id] + 1), id)
  {
  }

  /** What a returning task function leads to, by how often the task has been run:
      success ends the task; a failed attempt sends it to the end of the same
      queue while the levels so far allow more attempts, to the next level's when
      they are used up, and gives it up after the last level's; a full queue drops
      it. */
  lemma ReturnExact(ls: seq<Level>, ss: seq<Sys>, acts: seq<Action>, i: nat, id: Id)
    requires IsRun(ls, ss, acts) && i < |acts| && Runs(ss[i], acts[i], id)
    ensures |ss[i].t.queues| == |ls|
    ensures var t, t', level := ss[i].t, ss[i + 1].t, acts[i].level;
      if acts[i].ok then t'.queues == t.queues && PlaceOf(t', id) == Over(Succeeded)
      else WentTo(ls, t, t', NextLevel(ls, level, RunCount(ss, acts, i, id) + 1), id)
  {
    InvRun(ls, ss, acts, i);
    assert Step(ls, ss[i], acts[i], ss[i + 1]);
    assert PlacedAt(ls, ss[i], id);
    AttemptsExact(ls, ss, acts, i, id);
    SettleExact(ls, ss[i].t, acts[i].level, id, acts[i].ok);
  }

  /** A new task goes to the end of the first queue, or is dropped when that is full. */
  lemma EnqueueExact(ls: seq<Level>, ss: seq<Sys>, acts: seq<Action>, i: nat)
    requires IsRun(ls, ss, acts) && i < |acts| && acts[i].Enqueue?
    ensures |ss[i].t.queues| == |ls| && WentTo(ls, ss[i].t, ss[i + 1].t, 0, acts[i].id)
  {
    assert Step(ls, ss[i], acts[i], ss[i + 1]);
  }

  /** The last tick of the level before state `i`, whose batch is still going on. */
  ghost predicate LastTick(acts: seq<Action>, k: nat, i: nat, l: nat)
    requires k < i <= |acts|
  {
    acts[k] == Tick(l) && forall m :: k < m < i ==> acts[m] != Tick(l) && acts[m] != BatchEnds(l)
  }

  /** A batch of the tasks `snapshot`: those taken so far are its front, and the
      rest is at the head of the queue. */
  ghost predicate WorksOff(s: Sys, l: nat, snapshot: seq<Id>) {
    && l < |s.workers| == |s.t.queues| && !s.workers[l].Idle?
    && s.workers[l].left <= |snapshot| && snapshot[|snapshot| - s.workers[l].left..] <= s.t.queues[l]
    && forall id :: id in s.workers[l].seen <==> id in snapshot[..|snapshot| - s.workers[l].left]
  }

  lemma TakeWorksOff(ls: seq<Level>, s: Sys, l: nat, snapshot: seq<Id>)
    requires Shaped(ls, s) && Enabled(ls, s, Take(l)) && WorksOff(s, l, snapshot)
    ensures WorksOff(Apply(ls, s, Take(l)), l, snapshot)
  {
    var s', done := Apply(ls, s, Take(l)), |snapshot| - s.workers[l].left;
    TailAhead(snapshot, done, s.t.queues[l]);
    FrontMore(snapshot, done);
  }

  lemma WorksOffStep(ls: seq<Level>, s: Sys, a: Action, s': Sys, l: nat, snapshot: seq<Id>)
    requires Step(ls, s, a, s') && a != Tick(l) && a != BatchEnds(l) && WorksOff(s, l, snapshot)
    ensures WorksOff(s', l, snapshot)
  {
    if a == Take(l) {
      TakeWorksOff(ls, s, l, snapshot);
    } else if a.Return? {
      SettlePlace(ls, s.t, a.level, s.workers[a.level].id, a.ok);
      assert s.t.queues[l] <= s'.t.queues[l];
    } else {
      assert s.t.queues[l] <= s'.t.queues[l];
    }
  }

  lemma {:induction false} BatchIsSnapshot(
    ls: seq<Level>, ss: seq<Sys>, acts: seq<Action>, k: nat, i: nat, l: nat)
    requires IsRun(ls, ss, acts) && k < i <= |acts| && LastTick(acts, k, i, l)
    ensures l < |ss[k].t.queues| && WorksOff(ss[i], l, ss[k].t.queues[l])
  {
    assert Step(ls, ss[i - 1], acts[i - 1], ss[i]);
    if k + 1 == i {
    } else {
      BatchIsSnapshot(ls, ss, acts, k, i - 1, l);
      WorksOffStep(ls, ss[i - 1], acts[i - 1], ss[i], l, ss[k].t.queues[l]);
    }
  }

  /** When a batch ends, the tasks it took are exactly those that were queued when
      its tick came, and the level is ready for its next tick. */
  lemma BatchTakesTheSnapshot(ls: seq<Level>, ss: seq<Sys>, acts: seq<Action>, k: nat, i: nat, l: nat, id: Id)
    requires IsRun(ls, ss, acts) && k < i < |acts| && LastTick(acts, k, i, l) && acts[i] == BatchEnds(l)
    ensures l < |ss[k].t.queues| && l < |ss[i].workers| && ss[i].workers[l].Batch?
    ensures id in ss[i].workers[l].seen <==> id in ss[k].t.queues[l]
    ensures Shaped(ls, ss[i + 1]) && Enabled(ls, ss[i + 1], Tick(l)) && ss[i + 1].t == ss[i].t
  {
    BatchIsSnapshot(ls, ss, acts, k, i, l);
    assert Step(ls, ss[i], acts[i], ss[i + 1]);
    assert ss[k].t.queues[l][..|ss[k].t.queues[l]|] == ss[k].t.queues[l];
  }

  // ------------------------------------------------------------------ the retrier

  /** What other goroutines may do between the rounds of a batch: offer tasks to
      any level, and take tasks from levels other than the batch's own. */
  datatype Other = Offers(level: nat, id: Id, tries: int) | Takes(level: nat)

  function ByOther(ls: seq<Level>, t: Tasks, level: nat, x: Other): (t': Tasks)
    requires level < |ls| == |t.queues|
    ensures |t'.queues| == |ls|
  {
    if x.level >= |ls| then t
    else if x.Offers? then Offer(ls, t, x.level, x.id, x.tries)
    else if x.level == level || t.queues[x.level] == [] then t
    else TakeHead(t, x.level)
  }

  function ByOthers(ls: seq<Level>, t: Tasks, level: nat, xs: seq<Other>): (t': Tasks)
    requires level < |ls| == |t.queues|
    ensures |t'.queues| == |ls|
  {
    if xs == [] then t else ByOther(ls, ByOthers(ls, t, level, xs[..|xs| - 1]), level, xs[|xs| - 1])
  }

  /** A round of a batch: what others do before it, and how its task's function ends. */
  datatype Turn = Turn(others: seq<Other>, ok: bool)

  /** One round: take the head, run it, and settle it by the outcome. */
  function Round(ls: seq<Level>, t: Tasks, level: nat, turn: Turn): (t': Tasks)
    requires level < |ls| == |t.queues|
    ensures |t'.queues| == |ls|
  {
    var t1 := ByOthers(ls, t, level, turn.others);
    if t1.queues[level] == [] then t1 else Settle(ls, TakeHead(t1, level), level, t1.queues[level][0], turn.ok)
  }

  function Rounds(ls: seq<Level>, t: Tasks, level: nat, turns: seq<Turn>): (t': Tasks)
    requires level < |ls| == |t.queues|
    ensures |t'.queues| == |ls|
  {
    if turns == [] then t else Round(ls, Rounds(ls, t, level, turns[..|turns| - 1]), level, turns[|turns| - 1])
  }

  /** A round on its own is the machine's: the level's goroutine takes the head of
      its queue, and the task's function returns. */
  lemma RoundIsTakeAndReturn(ls: seq<Level>, s: Sys, level: nat, ok: bool)
    requires Shaped(ls, s) && Enabled(ls, s, Take(level)) && s.t.queues[level] != []
    ensures var s1 := Apply(ls, s, Take(level));
      Enabled(ls, s1, Return(level, ok)) && Apply(ls, s1, Return(level, ok)).t == Round(ls, s.t, level, Turn([], ok))
  {
    assert ByOthers(ls, s.t, level, []) == s.t;
  }

  /** Others only ever append to the queue a batch is working on. */
  lemma {:induction false} OthersAppend(ls: seq<Level>, t: Tasks, level: nat, xs: seq<Other>)
    requires level < |ls| == |t.queues|
    ensures t.queues[level] <= ByOthers(ls, t, level, xs).queues[level]
  {
    if xs == [] {
    } else {
      OthersAppend(ls, t, level, xs[..|xs| - 1]);
    }
  }

  /** A round takes the head of what was left and appends to the rest at most. */
  lemma RoundTakesHead(ls: seq<Level>, t: Tasks, level: nat, turn: Turn)
    requires level < |ls| == |t.queues| && t.queues[level] != []
    ensures var t1 := ByOthers(ls, t, level, turn.others);
      && t1.queues[level] != [] && t1.queues[level][0] == t.queues[level][0]
      && t.queues[level][1..] <= Round(ls, t, level, turn).queues[level]
  {
    OthersAppend(ls, t, level, turn.others);
    var t1 := ByOthers(ls, t, level, turn.others);
    var t2 := TakeHead(t1, level);
    assert t.queues[level][1..] <= t2.queues[level];
    SettlePlace(ls, t2, level, t1.queues[level][0], turn.ok);
    assert t2.queues[level] <= Settle(ls, t2, level, t1.queues[level][0], turn.ok).queues[level];
  }

  lemma RoundsMore(ls: seq<Level>, t: Tasks, level: nat, turns: seq<Turn>, i: nat)
    requires level < |ls| == |t.queues| && i < |turns|
    ensures Rounds(ls, t, level, turns[..i + 1]) == Round(ls, Rounds(ls, t, level, turns[..i]), level, turns[i])
  {
    assert turns[..i + 1][..i] == turns[..i];
  }

  /** While the rest of a snapshot is at the head of the queue, its next task is the head. */
  lemma TailAhead(snapshot: seq<Id>, i: nat, q: seq<Id>)
    requires i < |snapshot| && snapshot[i..] <= q
    ensures q != [] && q[0] == snapshot[i] && snapshot[i + 1..] <= q[1..]
  {
    assert q[0] == snapshot[i..][0];
    assert snapshot[i + 1..] == snapshot[i..][1..];
  }

  /** After any number of rounds, what is left of the tasks queued at first is still at the head. */
  lemma {:induction false} RoundsAhead(ls: seq<Level>, t: Tasks, level: nat, turns: seq<Turn>, i: nat)
    requires level < |ls| == |t.queues| && i <= |turns| <= |t.queues[level]|
    ensures t.queues[level][i..] <= Rounds(ls, t, level, turns[..i]).queues[level]
  {
    if i == 0 {
    } else {
      RoundsAhead(ls, t, level, turns, i - 1);
      RoundsMore(ls, t, level, turns, i - 1);
      RoundAhead(ls, t.queues[level], i - 1, Rounds(ls, t, level, turns[..i - 1]), level, turns[i - 1]);
    }
  }

  lemma RoundAhead(ls: seq<Level>, snapshot: seq<Id>, i: nat, t: Tasks, level: nat, turn: Turn)
    requires level < |ls| == |t.queues| && i < |snapshot| && snapshot[i..] <= t.queues[level]
    ensures snapshot[i + 1..] <= Round(ls, t, level, turn).queues[level]
  {
    TailAhead(snapshot, i, t.queues[level]);
    RoundTakesHead(ls, t, level, turn);
  }

  lemma FrontMore(q: seq<Id>, i: nat)
    requires i < |q|
    ensures q[..i + 1] == q[..i] + [q[i]]
  {
  }

  lemma HeadAfter(ls: seq<Level>, t: Tasks, level: nat, turns: seq<Turn>, i: nat)
    requires level < |ls| == |t.queues| && i < |turns| <= |t.queues[level]|
    ensures var q := Rounds(ls, t, level, turns[..i]).queues[level]; q != [] && q[0] == t.queues[level][i]
  {
    RoundsAhead(ls, t, level, turns, i);
    TailAhead(t.queues[level], i, Rounds(ls, t, level, turns[..i]).queues[level]);
  }

  /** The retrier as the code keeps it, with one level's batch as its loop. */
  class DispatchRetrier {
    const levels: seq<Level>
    var queues: seq<seq<Id>>
    var tries: map<Id, int>
    ghost var place: map<Id, Place>
    ghost var attempts: multiset<Id>

    ghost predicate Valid()
      reads this
    {
      |levels| > 0 && |queues| == |levels|
    }

    ghost function View(): Tasks
      reads this
    {
      Tasks(queues, tries, place, attempts)
    }

    constructor (ls: seq<Level>)
      requires |ls| > 0
      ensures Valid() && levels == ls && View() == Init(ls).t
    {
      levels := ls;
      queues := seq(|ls|, _ => []);
      tries, place, attempts := map[], map[], multiset{};
    }

    method OfferTo(level: nat, id: Id, n: int)
      requires Valid() && level < |levels|
      modifies this
      ensures Valid() && View() == Offer(levels, old(View()), level, id, n)
    {
      if |queues[level]| < levels[level].cap {
        queues := queues[level := queues[level] + [id]];
        tries := tries[id := n];
        place := place[id := Queued(level)];
      } else {
        place := place[id := Over(DroppedFull)];
      }
    }

    method EnqueueTask(id: Id)
      requires Valid()
      modifies this
      ensures Valid() && View() == Offer(levels, old(View()), 0, id, levels[0].maxTries)
    {
      OfferTo(0, id, levels[0].maxTries);
    }

    method SettleTask(level: nat, id: Id, ok: bool)
      requires Valid() && level < |levels|
      modifies this
      ensures Valid() && View() == Settle(levels, old(View()), level, id, ok)
    {
      attempts := attempts + multiset{id};
      if ok {
        place := place[id := Over(Succeeded)];
        return;
      }
      var left := (if id in tries then tries[id] else 0) - 1;
      if left > 0 {
        OfferTo(level, id, left);
        return;
      }
      var nextLevel := level + 1;
      if nextLevel >= |levels| {
        place := place[id := Over(Exhausted)];
        return;
      }
      OfferTo(nextLevel, id, levels[nextLevel].maxTries);
    }

    method OtherStep(level: nat, x: Other)
      requires Valid() && level < |levels|
      modifies this
      ensures Valid() && View() == ByOther(levels, old(View()), level, x)
    {
      if x.level < |levels| {
        if x.Offers? {
          OfferTo(x.level, x.id, x.tries);
        } else if x.level != level && queues[x.level] != [] {
          var _ := Take(x.level);
        }
      }
    }

    method Interfere(level: nat, xs: seq<Other>)
      requires Valid() && level < |levels|
      modifies this
      ensures Valid() && View() == ByOthers(levels, old(View()), level, xs)
    {
      for i := 0 to |xs|
        invariant Valid() && View() == ByOthers(levels, old(View()), level, xs[..i])
      {
        assert xs[..i + 1][..i] == xs[..i];
        OtherStep(level, xs[i]);
      }
      assert xs[..|xs|] == xs;
    }

    method Take(level: nat) returns (id: Id)
      requires Valid() && level < |levels| && queues[level] != []
      modifies this
      ensures Valid() && View() == TakeHead(old(View()), level) && id == old(queues)[level][0]
    {
      id := queues[level][0];
      queues := queues[level := queues[level][1..]];
      place := place[id := Held(level)];
    }

    /** One round of a batch: others act, then the head is taken, run and settled. */
    method RunRound(level: nat, turn: Turn) returns (id: Id)
      requires Valid() && level < |levels| && queues[level] != []
      modifies this
      ensures Valid() && View() == Round(levels, old(View()), level, turn) && id == old(queues)[level][0]
    {
      RoundTakesHead(levels, View(), level, turn);
      Interfere(level, turn.others);
      id := Take(level);
      SettleTask(level, id, turn.ok);
    }

    /** `turns` are what the other goroutines do around the batch's rounds and how
        the task functions it runs end.  However they do, the batch runs exactly the
        tasks that were queued when it began, each once and in order, and never
        finds the queue empty before its time. */
    method ProcessBatch(level: nat, turns: seq<Turn>) returns (ran: seq<Id>)
      requires Valid() && level < |levels| && |turns| == |queues[level]|
      modifies this
      ensures Valid() && View() == Rounds(levels, old(View()), level, turns)
      ensures ran == old(queues)[level]
    {
      ghost var t, snapshot := View(), queues[level];
      var n := |queues[level]|;
      var i := 0;
      ran := [];
      while i < n
        invariant 0 <= i <= n == |turns| == |snapshot| && Valid() && level < |levels| == |t.queues|
        invariant View() == Rounds(levels, t, level, turns[..i])
        invariant ran == snapshot[..i]
      {
        RoundsMore(levels, t, level, turns, i);
        HeadAfter(levels, t, level, turns, i);
        FrontMore(snapshot, i);
        var id := RunRound(level, turns[i]);
        ran := ran + [id];
        i := i + 1;
      }
      assert turns[..n] == turns;
    }
  }
}
