/**
 The admission watermark of one inbound connection: sequence numbers are handed
 out in reading order, finished in any order, and `done` trails the longest
 finished prefix.
 */
module Admission {

  /** The largest `k >= done` such that everything from `done + 1` to `k` is decided. */
  function Advance(done: nat, decided: set<nat>): (k: nat)
    ensures k >= done && k + 1 !in decided
    ensures forall i :: done < i <= k ==> i in decided
    decreases |set i | i in decided && i > done|
  {
    if done + 1 in decided then
      assert (set i | i in decided && i > done + 1) == (set i | i in decided && i > done) - {done + 1};
      Advance(done + 1, decided)
    else done
  }

  /** `done` is the watermark of `decided`: 1..done are decided and done + 1 is not. */
  ghost predicate IsWatermark(done: nat, decided: set<nat>) {
    (forall i :: 1 <= i <= done ==> i in decided) && done + 1 !in decided
  }

  /** Advancing stops at the first gap, and nowhere else. */
  lemma AdvanceUnique(start: nat, done: nat, decided: set<nat>)
    requires start <= done && done + 1 !in decided && forall i :: start < i <= done ==> i in decided
    ensures Advance(start, decided) == done
  {
    var k := Advance(start, decided);
    assert k < done ==> k + 1 in decided;
  }

  /** There is only one watermark, and it is the largest fully decided prefix. */
  lemma WatermarkIsLargest(done: nat, decided: set<nat>, k: nat)
    requires IsWatermark(done, decided) && forall i :: 1 <= i <= k ==> i in decided
    ensures k <= done
  {
    assert done + 1 <= k ==> done + 1 in decided;
  }

  /** The counters of a connection; `finished` holds at least what is finished
      ahead of the watermark, `decided` everything ever finished. */
  class AdmissionCounters {
    var next: nat
    var done: nat
    var finished: set<nat>
    ghost var decided: set<nat>

    ghost predicate Valid()
      reads this
    {
      && IsWatermark(done, decided)
      && (forall k :: k in finished ==> k in decided)
      && (forall k :: k in decided && k > done ==> k in finished)
      && 0 !in decided
      && (forall k :: k in decided ==> k <= next)
    }

    constructor ()
      ensures Valid() && next == 0 && decided == {}
    {
      next, done, finished, decided := 0, 0, {}, {};
    }

    method BeginAdmission() returns (sequence: nat)
      requires Valid()
      modifies this
      ensures Valid() && next == old(next) + 1 && sequence == next
      ensures decided == old(decided) && sequence !in decided && done == old(done)
    {
      next := next + 1;
      sequence := next;
    }

    /** Finishing a sequence, for the first time or again, records it and moves the
        watermark as far as it goes. */
    method FinishAdmission(sequence: nat)
      requires Valid() && sequence <= next
      modifies this
      ensures Valid() && next == old(next)
      ensures sequence == 0 ==> decided == old(decided) && done == old(done)
      ensures sequence > 0 ==> decided == old(decided) + {sequence} && done == Advance(old(done), decided)
    {
      if sequence == 0 {
        return;
      }
      finished := finished + {sequence};
      decided := decided + {sequence};
      ghost var start := done;
      while done + 1 in finished
        invariant next == old(next) && decided == old(decided) + {sequence}
        invariant start <= done && (forall i :: 1 <= i <= done ==> i in decided)
        invariant forall k :: k in finished ==> k in decided
        invariant forall k :: k in decided && k > done ==> k in finished
        decreases |finished|
      {
        finished := finished - {done + 1};
        done := done + 1;
      }
      AdvanceUnique(start, done, decided);
    }
  }
}
