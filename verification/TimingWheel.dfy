/**
 The one-hour timing wheel: 3600 one-second slots and a hand, proved to release
 each id on the absolute tick it is due.
 */
module TimingWheel {
  import opened Basics

  type Id = int

  const SLOTS: nat := 3600
  const SECOND: int := 1_000_000_000
  const HOUR: int := 3600 * SECOND

  /** How many ticks ahead a delay, in nanoseconds, is scheduled. */
  function SlotsAhead(delay: int): nat {
    if delay <= 0 then 0 else if delay / SECOND == 0 then 1 else delay / SECOND
  }

  /** A delay within the span lands one to SLOTS ticks ahead, and less than a
      second from where it asks to: rounded down from one second on, up below it. */
  lemma SlotsAheadRange(delay: int)
    requires 0 < delay <= HOUR
    ensures 1 <= SlotsAhead(delay) <= SLOTS
    ensures delay - SECOND < SlotsAhead(delay) * SECOND < delay + SECOND
    ensures SlotsAhead(delay) * SECOND <= delay <==> delay >= SECOND
  {
    assert delay / SECOND <= HOUR / SECOND == SLOTS;
  }

  /** What the wheel stands for: the ticks so far and the tick each id is due on. */
  datatype Wheel = Wheel(now: nat, due: map<Id, nat>)

  datatype AddResult = FiredNow | OutOfRange | Scheduled

  function AddOutcome(delay: int): AddResult {
    if delay <= 0 then FiredNow else if delay > HOUR then OutOfRange else Scheduled
  }

  function AfterAdd(w: Wheel, id: Id, delay: int): Wheel {
    if AddOutcome(delay).Scheduled? then w.(due := w.due[id := w.now + SlotsAhead(delay)]) else w
  }

  function AfterRemove(w: Wheel, id: Id): Wheel {
    w.(due := w.due - {id})
  }

  /** The ids the next tick releases. */
  function Released(w: Wheel): set<Id> {
    set id | id in w.due && w.due[id] == w.now + 1
  }

  function AfterTick(w: Wheel): Wheel {
    Wheel(w.now + 1, w.due - Released(w))
  }

  // ------------------------------------------------------------------ the slots

  /** Slot `k` holds exactly the ids due on a tick congruent to `k`, each once. */
  ghost predicate SlotHolds(slot: seq<Id>, k: nat, due: map<Id, nat>) {
    && Distinct(slot)
    && forall id :: id in slot <==> id in due && due[id] % SLOTS == k
  }

  ghost predicate InSpan(w: Wheel) {
    forall id :: id in w.due ==> w.now < w.due[id] <= w.now + SLOTS
  }

  /** Two ticks within one turn of the wheel share a slot only if they are equal. */
  lemma OneTurn(a: nat, b: nat, now: nat)
    requires now < a <= now + SLOTS && now < b <= now + SLOTS && a % SLOTS == b % SLOTS
    ensures a == b
  {
    assert a == SLOTS * (a / SLOTS) + a % SLOTS && b == SLOTS * (b / SLOTS) + b % SLOTS;
  }

  lemma SlotWithout(slot: seq<Id>, k: nat, due: map<Id, nat>, j: nat)
    requires SlotHolds(slot, k, due) && j < |slot|
    ensures SlotHolds(slot[..j] + slot[j + 1..], k, due - {slot[j]})
  {
    var rest := slot[..j] + slot[j + 1..];
    forall id ensures id in rest <==> id in slot && id != slot[j] {
      if m :| 0 <= m < |slot| && slot[m] == id && m != j {
        assert rest[if m < j then m else m - 1] == id;
      }
    }
  }

  lemma DueIsInASlot(slots: seq<seq<Id>>, due: map<Id, nat>, id: Id)
    requires |slots| == SLOTS && forall k :: 0 <= k < SLOTS ==> SlotHolds(slots[k], k, due)
    ensures id in due ==> exists k :: 0 <= k < SLOTS && id in slots[k]
  {
    if id in due {
      var k := due[id] % SLOTS;
      assert SlotHolds(slots[k], k, due);
      assert id in slots[k];
    }
  }

  /** The slot one tick ahead holds exactly the ids due then. */
  lemma SlotIsReleased(slot: seq<Id>, w: Wheel)
    requires InSpan(w) && SlotHolds(slot, (w.now + 1) % SLOTS, w.due)
    ensures Elems(slot) == Released(w)
  {
    forall id ensures id in slot <==> id in Released(w) {
      if id in slot {
        OneTurn(w.due[id], w.now + 1, w.now);
      }
    }
  }

  class TimingWheel {
    const slots: array<seq<Id>>
    var current: nat
    ghost var wheel: Wheel

    ghost predicate Valid()
      reads this, slots
    {
      && slots.Length == SLOTS && current == wheel.now % SLOTS && InSpan(wheel)
      && forall k :: 0 <= k < SLOTS ==> SlotHolds(slots[k], k, wheel.due)
    }

    constructor ()
      ensures Valid() && wheel == Wheel(0, map[]) && fresh(slots)
    {
      slots := new seq<Id>[SLOTS](_ => []);
      current := 0;
      wheel := Wheel(0, map[]);
    }

    /** Deletes the first occurrence of `id` in any slot, as the code scans for it. */
    method RemoveFromSlots(id: Id)
      requires Valid()
      modifies this`wheel, slots
      ensures Valid() && wheel == AfterRemove(old(wheel), id)
    {
      var i := 0;
      while i < SLOTS
        invariant 0 <= i <= SLOTS && Valid() && wheel == old(wheel) && slots[..] == old(slots[..])
        invariant forall k :: 0 <= k < i ==> id !in slots[k]
      {
        var j := 0;
        while j < |slots[i]|
          invariant 0 <= j <= |slots[i]| && Valid() && wheel == old(wheel) && slots[..] == old(slots[..])
          invariant id !in slots[i][..j]
        {
          if slots[i][j] == id {
            SlotWithout(slots[i], i, wheel.due, j);
            assert SlotHolds(slots[i], i, wheel.due) && id in slots[i];
            slots[i] := slots[i][..j] + slots[i][j + 1..];
            wheel := AfterRemove(wheel, id);
            return;
          }
          j := j + 1;
        }
        i := i + 1;
      }
      DueIsInASlot(slots[..], wheel.due, id);
    }

    method Add(id: Id, delay: int) returns (r: AddResult)
      requires Valid()
      modifies this`wheel, slots
      ensures Valid() && wheel == AfterAdd(old(wheel), id, delay) && r == AddOutcome(delay)
      ensures (r.FiredNow? <==> delay <= 0) && (r.OutOfRange? <==> delay > HOUR)
      ensures !r.Scheduled? ==> wheel == old(wheel)
    {
      if delay <= 0 {
        return FiredNow;
      }
      if delay > HOUR {
        return OutOfRange;
      }
      RemoveFromSlots(id);
      SlotsAheadRange(delay);
      var slot := (current + SlotsAhead(delay)) % SLOTS;
      assert slot == (wheel.now + SlotsAhead(delay)) % SLOTS;
      slots[slot] := slots[slot] + [id];
      wheel := wheel.(due := wheel.due[id := wheel.now + SlotsAhead(delay)]);
      return Scheduled;
    }

    /** Turns the wheel by one slot and empties it: exactly the ids due now. */
    method Tick() returns (tasks: seq<Id>)
      requires Valid()
      modifies this, slots
      ensures Valid() && wheel == AfterTick(old(wheel))
      ensures Distinct(tasks) && Elems(tasks) == Released(old(wheel))
    {
      current := (current + 1) % SLOTS;
      tasks := slots[current];
      SlotIsReleased(tasks, wheel);
      slots[current] := [];
      wheel := AfterTick(wheel);
    }
  }

  // ------------------------------------------------------------------- over runs

  datatype Op = Add(id: Id, delay: int) | Remove(id: Id) | Tick

  function Apply(w: Wheel, op: Op): Wheel {
    match op
    case Add(id, delay) => AfterAdd(w, id, delay)
    case Remove(id) => AfterRemove(w, id)
    case Tick => AfterTick(w)
  }

  ghost predicate IsRun(ws: seq<Wheel>, ops: seq<Op>) {
    && |ws| == |ops| + 1
    && forall i :: 0 <= i < |ops| ==> ws[i + 1] == Apply(ws[i], ops[i])
  }

  function Ticks(ops: seq<Op>): nat {
    if ops == [] then 0 else Ticks(ops[..|ops| - 1]) + if ops[|ops| - 1].Tick? then 1 else 0
  }

  /** The operations that change the schedule of `id`. */
  predicate Touches(op: Op, id: Id) {
    Schedules(op, id) || op == Remove(id)
  }

  predicate Schedules(op: Op, id: Id) {
    op.Add? && op.id == id && 0 < op.delay <= HOUR
  }

  lemma {:induction false} ScheduleHolds(ws: seq<Wheel>, ops: seq<Op>, i: nat, j: nat, id: Id, delay: int)
    requires IsRun(ws, ops) && i < j <= |ops| && ops[i] == Add(id, delay) && 0 < delay <= HOUR
    requires forall k :: i < k < j ==> !Touches(ops[k], id)
    ensures ws[j].now == ws[i].now + Ticks(ops[i + 1..j])
    ensures if Ticks(ops[i + 1..j]) < SlotsAhead(delay)
            then id in ws[j].due && ws[j].due[id] == ws[i].now + SlotsAhead(delay) else id !in ws[j].due
  {
    SlotsAheadRange(delay);
    assert ws[j] == Apply(ws[j - 1], ops[j - 1]);
    if i + 1 == j {
      assert ops[i + 1..j] == [];
    } else {
      ScheduleHolds(ws, ops, i, j - 1, id, delay);
      assert ops[i + 1..j][..j - i - 2] == ops[i + 1..j - 1];
    }
  }

  /** An id added with a delay within the hour, and not removed or scheduled
      again, is released on exactly the SlotsAhead(delay)-th following tick, the
      3600th included, and on no other. */
  lemma ReleasedOnTheTick(ws: seq<Wheel>, ops: seq<Op>, i: nat, j: nat, id: Id, delay: int)
    requires IsRun(ws, ops) && i < j < |ops| && ops[i] == Add(id, delay) && 0 < delay <= HOUR && ops[j].Tick?
    requires forall k :: i < k < j ==> !Touches(ops[k], id)
    ensures id in Released(ws[j]) <==> Ticks(ops[i + 1..j]) + 1 == SlotsAhead(delay)
  {
    ScheduleHolds(ws, ops, i, j, id, delay);
  }

  /** The i-th operation scheduled `id`, and nothing touched the schedule before the j-th. */
  ghost predicate LastScheduled(ops: seq<Op>, i: nat, j: nat, id: Id)
    requires j <= |ops|
  {
    i < j && Schedules(ops[i], id) && forall k :: i < k < j ==> !Touches(ops[k], id)
  }

  lemma {:induction false} DueWasScheduled(ws: seq<Wheel>, ops: seq<Op>, j: nat, id: Id)
    requires IsRun(ws, ops) && ws[0].due == map[] && j <= |ops| && id in ws[j].due
    ensures exists i: nat :: LastScheduled(ops, i, j, id)
  {
    assert j > 0;
    assert ws[j] == Apply(ws[j - 1], ops[j - 1]);
    if Schedules(ops[j - 1], id) {
      assert LastScheduled(ops, j - 1, j, id);
    } else {
      DueWasScheduled(ws, ops, j - 1, id);
      var i: nat :| LastScheduled(ops, i, j - 1, id);
      assert LastScheduled(ops, i, j, id);
    }
  }

  ghost predicate DueOnTick(ops: seq<Op>, i: nat, j: nat, id: Id)
    requires j <= |ops|
  {
    LastScheduled(ops, i, j, id) && Ticks(ops[i + 1..j]) + 1 == SlotsAhead(ops[i].delay)
  }

  /** From an empty wheel, a tick releases an id if and only if its last schedule,
      not removed since, was for that tick.  A delay above the hour or already past
      never makes the wheel release anything. */
  lemma ReleasedIff(ws: seq<Wheel>, ops: seq<Op>, j: nat, id: Id)
    requires IsRun(ws, ops) && ws[0].due == map[] && j < |ops| && ops[j].Tick?
    ensures id in Released(ws[j]) <==> exists i: nat :: DueOnTick(ops, i, j, id)
  {
    if id in Released(ws[j]) {
      DueWasScheduled(ws, ops, j, id);
      var i: nat :| LastScheduled(ops, i, j, id);
      ReleasedOnTheTick(ws, ops, i, j, id, ops[i].delay);
      assert DueOnTick(ops, i, j, id);
    }
    if i: nat :| DueOnTick(ops, i, j, id) {
      ReleasedOnTheTick(ws, ops, i, j, id, ops[i].delay);
    }
  }

  /** The schedule of `id` is now the one Add was called for, and no other. */
  predicate Replaced(w: Wheel, id: Id, delay: int) {
    if delay <= 0 then id !in w.due else id in w.due && w.due[id] == w.now + SlotsAhead(delay)
  }

  /** Add promises to replace an existing schedule of the id.  It does so exactly
      when the new deadline is in the future or there was nothing to replace: a
      deadline already past fires at once and leaves the old schedule in place. */
  lemma AddReplacesIff(w: Wheel, id: Id, delay: int)
    requires delay <= HOUR
    ensures Replaced(AfterAdd(w, id, delay), id, delay) <==> delay > 0 || id !in w.due
  {
  }

  /** Scheduled in two seconds, then set to a past deadline: it fires at once and
      again on the second tick. */
  lemma PastDeadlineFiresTwice(id: Id)
    ensures var w := AfterAdd(AfterAdd(Wheel(0, map[]), id, 2 * SECOND), id, -SECOND);
      AddOutcome(-SECOND).FiredNow? && id in Released(AfterTick(w))
  {
    assert 2 * SECOND / SECOND == 2;
  }
}
