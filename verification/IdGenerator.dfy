/**
 The Snowflake-like timer id generator: 10 bits of node, 12 bits of sequence
 and the milliseconds since an epoch above them.  The clock is the environment's:
 each call is given the readings the clock returns to it, in order.
 */
module IdGenerator {
  import opened Basics

  const EPOCH_MS: int := 1704067200000
  const MAX_NODE: nat := 1023
  const SEQUENCES: nat := 4096
  const TIME_UNIT: nat := 0x40_0000
  const WORD: nat := 0x1_0000_0000_0000_0000
  /** Elapsed times from here on no longer fit above the node and sequence bits. */
  const ELAPSED_SPAN: nat := 0x400_0000_0000
  const MAX_BACKOFF_NS: int := 5_000_000

  /** Two's complement wrap-around to a signed 64-bit word. */
  function Wrap64(x: int): (r: int)
    ensures -(WORD as int) / 2 <= r < WORD / 2 && (x - r) % WORD == 0
  {
    var m := x % WORD;
    if m < WORD / 2 then m else m - WORD
  }

  datatype Gen = Gen(node: nat, lastMs: int, sequence: nat)

  datatype Outcome =
    | Id(id: nat)
    | ClockMovedBack
    | BeforeEpoch
    | Spinning          // the readings given ran out before the call returned

  function NewGen(nodeID: nat): Gen {
    Gen(nodeID % (MAX_NODE + 1), 0, 0)
  }

  /** The id word: the shifted elapsed time is cut to 64 bits, the fields below do not overlap it. */
  function Pack(elapsed: nat, node: nat, sequence: nat): nat {
    (elapsed * TIME_UNIT) % WORD + node * SEQUENCES + sequence
  }

  // ---------------------------------------------------------------- the word

  /** Bitwise or of two words. */
  function Or(a: nat, b: nat): nat
    decreases a + b
  {
    if a == 0 then b else if b == 0 then a
    else 2 * Or(a / 2, b / 2) + if a % 2 == 1 || b % 2 == 1 then 1 else 0
  }

  function Pow2(n: nat): nat {
    if n == 0 then 1 else 2 * Pow2(n - 1)
  }

  /** A left shift of a 64-bit word: what passes bit 63 is lost. */
  function ShiftLeft(x: nat, n: nat): nat {
    (x * Pow2(n)) % WORD
  }

  /** Words that share no bit: a multiple of 2^n or-ed with a word below 2^n is their sum. */
  lemma {:induction false} OrIsSum(q: nat, low: nat, n: nat)
    requires low < Pow2(n)
    ensures Or(Pow2(n) * q, low) == Pow2(n) * q + low
    decreases n
  {
    if n == 0 || q == 0 || low == 0 {
      assert n == 0 ==> low == 0;
    } else {
      var half := Pow2(n - 1) * q;
      assert Pow2(n) * q == 2 * half;
      OrIsSum(q, low / 2, n - 1);
      assert (2 * half) / 2 == half && (2 * half) % 2 == 0;
    }
  }

  /** The id as the code builds it: three shifted fields or-ed into one word. */
  function Word(elapsed: nat, node: nat, sequence: nat): nat {
    Or(Or(ShiftLeft(elapsed, 22), ShiftLeft(node, 12)), sequence)
  }

  lemma Shifts()
    ensures Pow2(12) == SEQUENCES && Pow2(22) == TIME_UNIT
  {
    assert Pow2(4) == 16;
    assert Pow2(8) == 256;
    assert Pow2(12) == SEQUENCES;
    assert Pow2(16) == 0x1_0000;
    assert Pow2(20) == 0x10_0000;
  }

  /** Shifting keeps the elapsed time's low 42 bits. */
  lemma ShiftedTime(elapsed: nat)
    ensures (elapsed * TIME_UNIT) % WORD == TIME_UNIT * (elapsed % ELAPSED_SPAN)
  {
    var e := elapsed % ELAPSED_SPAN;
    assert elapsed == ELAPSED_SPAN * (elapsed / ELAPSED_SPAN) + e;
    assert elapsed * TIME_UNIT == WORD * (elapsed / ELAPSED_SPAN) + e * TIME_UNIT;
    WrapsTo(elapsed / ELAPSED_SPAN, e * TIME_UNIT);
  }

  lemma OrFields(e: nat, node: nat, sequence: nat)
    requires node <= MAX_NODE && sequence < SEQUENCES
    ensures Or(Or(TIME_UNIT * e, SEQUENCES * node), sequence) == TIME_UNIT * e + SEQUENCES * node + sequence
  {
    Shifts();
    OrIsSum(e, SEQUENCES * node, 22);
    OrIsSum(1024 * e + node, sequence, 12);
  }

  /** The fields share no bit, so or-ing them adds them up. */
  lemma WordIsPack(elapsed: nat, node: nat, sequence: nat)
    requires node <= MAX_NODE && sequence < SEQUENCES
    ensures Word(elapsed, node, sequence) == Pack(elapsed, node, sequence)
  {
    var e := elapsed % ELAPSED_SPAN;
    ShiftedTime(elapsed);
    Shifts();
    assert ShiftLeft(elapsed, 22) == TIME_UNIT * e && ShiftLeft(node, 12) == SEQUENCES * node;
    OrFields(e, node, sequence);
  }

  /** The first reading after `last`. */
  function FirstAfter(last: int, readings: seq<int>): Option<int> {
    if readings == [] then None
    else if readings[0] > last then Some(readings[0])
    else FirstAfter(last, readings[1..])
  }

  function Emit(g: Gen, now: int, sequence: nat): (Outcome, Gen) {
    (if now < EPOCH_MS then BeforeEpoch else Id(Pack(now - EPOCH_MS, g.node, sequence)), Gen(g.node, now, sequence))
  }

  /** The rest of a call whose time is `now`, not before the last one used. */
  function Stamp(g: Gen, now: int, rest: seq<int>): (Outcome, Gen) {
    if now != g.lastMs then Emit(g, now, 0)
    else
      var sequence := (g.sequence + 1) % SEQUENCES;
      if sequence != 0 then Emit(g, now, sequence)
      else
        match FirstAfter(g.lastMs, rest)
        case None => (Spinning, g.(sequence := 0))
        case Some(t) => Emit(g, t, 0)
  }

  function Next(g: Gen, readings: seq<int>): (Outcome, Gen) {
    if readings == [] then (Spinning, g)
    else if readings[0] >= g.lastMs then Stamp(g, readings[0], readings[1..])
    else if Wrap64(Wrap64(g.lastMs - readings[0]) * 1_000_000) > MAX_BACKOFF_NS then (ClockMovedBack, g)
    else if |readings| == 1 then (Spinning, g)
    else Stamp(g, if readings[1] < g.lastMs then g.lastMs else readings[1], readings[2..])
  }

  /** Reads the clock until it is past `last`. */
  method AwaitLater(last: int, readings: seq<int>) returns (later: Option<int>)
    ensures later == FirstAfter(last, readings) && (later.Some? ==> later.value > last)
  {
    var now, rest := last, readings;
    while now <= last
      invariant now <= last ==> FirstAfter(last, rest) == FirstAfter(last, readings)
      invariant now > last ==> FirstAfter(last, readings) == Some(now)
      decreases now <= last, |rest|
    {
      if rest == [] {
        return None;
      }
      now, rest := rest[0], rest[1..];
    }
    return Some(now);
  }

  /** The generator as the code keeps it. */
  class IDGenerator {
    var node: nat
    var lastMs: int
    var sequence: nat

    ghost function View(): Gen
      reads this
    {
      Gen(node, lastMs, sequence)
    }

    constructor (nodeID: nat)
      ensures Valid() && View() == NewGen(nodeID)
    {
      node := if nodeID > MAX_NODE then nodeID % (MAX_NODE + 1) else nodeID;
      lastMs, sequence := 0, 0;
    }

    ghost predicate Valid()
      reads this
    {
      GenOk(View())
    }

    method NextID(readings: seq<int>) returns (r: Outcome)
      requires Valid()
      modifies this
      ensures Valid() && (r, View()) == Next(old(View()), readings)
    {
      if readings == [] {
        return Spinning;
      }
      var now, rest := readings[0], readings[1..];
      if now < lastMs {
        var backoff := Wrap64(Wrap64(lastMs - now) * 1_000_000);
        if backoff > MAX_BACKOFF_NS {
          return ClockMovedBack;
        }
        if rest == [] {
          return Spinning;
        }
        now, rest := rest[0], rest[1..];
        assert rest == readings[2..];
        if now < lastMs {
          now := lastMs;
        }
      }
      if now == lastMs {
        sequence := (sequence + 1) % SEQUENCES;
        if sequence == 0 {
          var later := AwaitLater(lastMs, rest);
          if later.None? {
            return Spinning;
          }
          now := later.value;
        }
      } else {
        sequence := 0;
      }
      lastMs := now;
      var elapsed := now - EPOCH_MS;
      if elapsed < 0 {
        return BeforeEpoch;
      }
      WordIsPack(elapsed, node, sequence);
      return Id(Word(elapsed, node, sequence));
    }
  }

  // ------------------------------------------------------------------ properties

  ghost predicate GenOk(g: Gen) {
    g.node <= MAX_NODE && g.sequence < SEQUENCES && g.lastMs >= 0
  }

  /** The later of two (time, sequence) stamps. */
  predicate After(g: Gen, h: Gen) {
    g.lastMs > h.lastMs || (g.lastMs == h.lastMs && g.sequence > h.sequence)
  }

  lemma {:induction false} FirstAfterIsLater(last: int, readings: seq<int>)
    ensures FirstAfter(last, readings).Some? ==> FirstAfter(last, readings).value > last
  {
    if readings != [] && readings[0] <= last {
      FirstAfterIsLater(last, readings[1..]);
    }
  }

  /** A call that returns an id, or finds itself before the epoch, moves the
      generator's stamp strictly forward, whatever the clock did. */
  lemma StampMovesForward(g: Gen, readings: seq<int>)
    requires GenOk(g)
    ensures var (r, g') := Next(g, readings);
      && GenOk(g') && g'.node == g.node
      && (r.Id? || r.BeforeEpoch? ==> After(g', g))
      && (r.ClockMovedBack? ==> g' == g)
      && (r.Id? ==> g'.lastMs >= EPOCH_MS && r.id == Pack(g'.lastMs - EPOCH_MS, g.node, g'.sequence))
  {
    if readings != [] {
      FirstAfterIsLater(g.lastMs, readings[1..]);
      if |readings| > 1 {
        FirstAfterIsLater(g.lastMs, readings[2..]);
      }
    }
  }

  /** Every id decodes back to its fields while the elapsed time fits. */
  lemma PackDecodes(elapsed: nat, node: nat, sequence: nat)
    requires elapsed < ELAPSED_SPAN && node <= MAX_NODE && sequence < SEQUENCES
    ensures var id := Pack(elapsed, node, sequence);
      id / TIME_UNIT == elapsed && (id / SEQUENCES) % (MAX_NODE + 1) == node && id % SEQUENCES == sequence && id < WORD
  {
    assert elapsed * TIME_UNIT < WORD;
    var id, upper := Pack(elapsed, node, sequence), elapsed * 1024 + node;
    assert id == elapsed * TIME_UNIT + (node * SEQUENCES + sequence) == upper * SEQUENCES + sequence;
    assert id / TIME_UNIT == elapsed;
    assert id / SEQUENCES == upper && id % SEQUENCES == sequence;
    assert upper % 1024 == node;
  }

  /** The node bits survive even an elapsed time that has wrapped. */
  lemma PackKeepsNode(elapsed: nat, node: nat, sequence: nat)
    requires node <= MAX_NODE && sequence < SEQUENCES
    ensures (Pack(elapsed, node, sequence) / SEQUENCES) % (MAX_NODE + 1) == node
  {
    var e := elapsed % ELAPSED_SPAN;
    ShiftedTime(elapsed);
    ShiftedTime(e);
    PackDecodes(e, node, sequence);
  }

  lemma WrapsTo(q: nat, r: nat)
    requires r < WORD
    ensures (WORD * q + r) % WORD == r
  {
  }

  /** Consecutive calls of one generator, each with its own clock readings. */
  ghost predicate IsRun(gs: seq<Gen>, clock: seq<seq<int>>, outs: seq<Outcome>) {
    && |gs| == |clock| + 1 && |outs| == |clock|
    && forall i :: 0 <= i < |clock| ==> (outs[i], gs[i + 1]) == Next(gs[i], clock[i]) && !outs[i].Spinning?
  }

  lemma {:induction false} RunMovesForward(gs: seq<Gen>, clock: seq<seq<int>>, outs: seq<Outcome>, i: nat, j: nat)
    requires IsRun(gs, clock, outs) && i <= j < |gs| && GenOk(gs[0])
    ensures GenOk(gs[j]) && gs[j].node == gs[i].node && (gs[j] == gs[i] || After(gs[j], gs[i]))
  {
    if j == 0 {
    } else {
      RunMovesForward(gs, clock, outs, if i < j then i else 0, j - 1);
      StampMovesForward(gs[j - 1], clock[j - 1]);
    }
  }

  /** For any clock, the ids one generator returns strictly increase, as long as
      the elapsed time of the later one fits its bits. */
  lemma IdsStrictlyIncrease(nodeID: nat, gs: seq<Gen>, clock: seq<seq<int>>, outs: seq<Outcome>, i: nat, j: nat)
    requires IsRun(gs, clock, outs) && gs[0] == NewGen(nodeID) && i < j < |outs| && outs[i].Id? && outs[j].Id?
    requires gs[j + 1].lastMs - EPOCH_MS < ELAPSED_SPAN
    ensures outs[i].id < outs[j].id
  {
    RunMovesForward(gs, clock, outs, 0, i);
    StampMovesForward(gs[i], clock[i]);
    RunMovesForward(gs, clock, outs, i + 1, j);
    StampMovesForward(gs[j], clock[j]);
    var a, b := gs[i + 1], gs[j + 1];
    assert After(b, a);
    PackOrder(a.lastMs - EPOCH_MS, b.lastMs - EPOCH_MS, a.node, a.sequence, b.sequence);
  }

  /** Every id a run returns decodes to the millisecond and sequence of its call
      and to the stored node id, while the elapsed time fits. */
  lemma IdsDecode(nodeID: nat, gs: seq<Gen>, clock: seq<seq<int>>, outs: seq<Outcome>, i: nat)
    requires IsRun(gs, clock, outs) && gs[0] == NewGen(nodeID) && i < |outs| && outs[i].Id?
    requires gs[i + 1].lastMs - EPOCH_MS < ELAPSED_SPAN
    ensures var id := outs[i].id;
      && id / TIME_UNIT == gs[i + 1].lastMs - EPOCH_MS
      && (id / SEQUENCES) % (MAX_NODE + 1) == nodeID % (MAX_NODE + 1)
      && id % SEQUENCES == gs[i + 1].sequence
      && id < WORD
  {
    RunMovesForward(gs, clock, outs, 0, i);
    StampMovesForward(gs[i], clock[i]);
    PackDecodes(gs[i + 1].lastMs - EPOCH_MS, gs[i].node, gs[i + 1].sequence);
  }

  lemma PackOrder(e: nat, e': nat, node: nat, n: nat, n': nat)
    requires e' < ELAPSED_SPAN && node <= MAX_NODE && n < SEQUENCES && n' < SEQUENCES
    requires e < e' || (e == e' && n < n')
    ensures Pack(e, node, n) < Pack(e', node, n')
  {
    assert e * TIME_UNIT < WORD && e' * TIME_UNIT < WORD;
    assert e < e' ==> e * TIME_UNIT + TIME_UNIT <= e' * TIME_UNIT;
  }

  /** Generators whose stored node ids differ never return the same id, at any
      point of their runs and whatever their clocks do. */
  lemma NodesNeverCollide(n1: nat, gs1: seq<Gen>, c1: seq<seq<int>>, o1: seq<Outcome>, i: nat,
                          n2: nat, gs2: seq<Gen>, c2: seq<seq<int>>, o2: seq<Outcome>, j: nat)
    requires IsRun(gs1, c1, o1) && gs1[0] == NewGen(n1) && i < |o1| && o1[i].Id?
    requires IsRun(gs2, c2, o2) && gs2[0] == NewGen(n2) && j < |o2| && o2[j].Id?
    requires n1 % (MAX_NODE + 1) != n2 % (MAX_NODE + 1)
    ensures o1[i].id != o2[j].id
  {
    RunMovesForward(gs1, c1, o1, 0, i);
    StampMovesForward(gs1[i], c1[i]);
    PackKeepsNode(gs1[i + 1].lastMs - EPOCH_MS, gs1[i].node, gs1[i + 1].sequence);
    RunMovesForward(gs2, c2, o2, 0, j);
    StampMovesForward(gs2[j], c2[j]);
    PackKeepsNode(gs2[j + 1].lastMs - EPOCH_MS, gs2[j].node, gs2[j + 1].sequence);
  }

  // --------------------------------------------------------------- exact stamps

  /** The longest step back whose nanoseconds fit a signed word: 292 years. */
  const FITS_MS: int := 9_223_372_036_854

  /** A call reports that the clock moved back if and only if its first reading is
      more than five milliseconds behind the last time used. */
  lemma ClockMovedBackIff(g: Gen, readings: seq<int>)
    requires readings != [] && g.lastMs - readings[0] <= FITS_MS
    ensures Next(g, readings).0.ClockMovedBack? <==> g.lastMs - readings[0] > 5
  {
    var back := g.lastMs - readings[0];
    if back > 0 {
      assert Wrap64(back) == back;
      assert back * 1_000_000 < WORD / 2;
      assert Wrap64(back * 1_000_000) == back * 1_000_000;
    }
    if readings[0] >= g.lastMs {
      StampIsNoError(g, readings[0], readings[1..]);
    } else if |readings| > 1 {
      StampIsNoError(g, if readings[1] < g.lastMs then g.lastMs else readings[1], readings[2..]);
    }
  }

  lemma StampIsNoError(g: Gen, now: int, rest: seq<int>)
    ensures !Stamp(g, now, rest).0.ClockMovedBack?
  {
  }

  /** Beyond that the nanoseconds wrap around: a clock 584 years behind goes unnoticed. */
  lemma HugeStepBackGoesUnnoticed(node: nat)
    ensures var g := Gen(node, 18_446_744_073_710, 0); !Next(g, [0, 0]).0.ClockMovedBack?
  {
    assert 18_446_744_073_710 * 1_000_000 == WORD + 448_384;
    StampIsNoError(Gen(node, 18_446_744_073_710, 0), 18_446_744_073_710, []);
  }

  /** The time a call takes for now: its first reading, or after a short step back
      its second, held at the last time used. */
  function TimeTaken(g: Gen, readings: seq<int>): int
    requires readings != []
  {
    if readings[0] >= g.lastMs || |readings| == 1 then readings[0]
    else if readings[1] > g.lastMs then readings[1] else g.lastMs
  }

  /** The stamps of a call that did not fail: a new millisecond starts at sequence
      0; within the last one the sequence goes up by one; and when it is used up the
      call waits for the first later reading. */
  lemma StampExact(g: Gen, readings: seq<int>)
    requires GenOk(g) && readings != []
    requires Next(g, readings).0.Id? || Next(g, readings).0.BeforeEpoch?
    ensures var g', t := Next(g, readings).1, TimeTaken(g, readings);
      if t > g.lastMs then g'.lastMs == t && g'.sequence == 0
      else if g.sequence + 1 < SEQUENCES then g'.lastMs == g.lastMs && g'.sequence == g.sequence + 1
      else FirstLater(readings, g.lastMs, g'.lastMs) && g'.sequence == 0
    ensures Next(g, readings).0.Id? <==> Next(g, readings).1.lastMs >= EPOCH_MS
  {
    var n := if readings[0] >= g.lastMs then 1 else 2;
    var found := FirstAfter(g.lastMs, readings[n..]);
    FirstAfterIsFirst(g.lastMs, readings[n..]);
    if found.Some? && TimeTaken(g, readings) <= g.lastMs {
      FirstLaterWithin(readings, n, g.lastMs, found.value);
    }
  }

  /** `t` is the first of the readings that is later than `last`. */
  ghost predicate FirstLater(readings: seq<int>, last: int, t: int) {
    exists k :: 0 <= k < |readings| && readings[k] == t > last && forall m :: 0 <= m < k ==> readings[m] <= last
  }

  lemma FirstLaterWithin(readings: seq<int>, n: nat, last: int, t: int)
    requires n <= |readings| && FirstLater(readings[n..], last, t)
    requires forall m :: 0 <= m < n ==> readings[m] <= last
    ensures FirstLater(readings, last, t)
  {
    var rest := readings[n..];
    var k: nat :| k < |rest| && rest[k] == t > last && forall m :: 0 <= m < k ==> rest[m] <= last;
    assert readings[n + k] == t;
    assert forall m :: n <= m < n + k ==> readings[m] == rest[m - n];
  }

  lemma {:induction false} FirstAfterIsFirst(last: int, readings: seq<int>)
    ensures FirstAfter(last, readings).Some? ==> FirstLater(readings, last, FirstAfter(last, readings).value)
  {
    if readings == [] {
    } else if readings[0] > last {
      assert readings[0] == readings[0];
    } else {
      FirstAfterIsFirst(last, readings[1..]);
      if FirstAfter(last, readings[1..]).Some? {
        FirstLaterWithin(readings, 1, last, FirstAfter(last, readings[1..]).value);
      }
    }
  }

  /** How many of the first `i` calls returned an id of the millisecond. */
  function IdsOf(gs: seq<Gen>, outs: seq<Outcome>, i: nat, ms: int): nat
    requires i <= |outs| < |gs|
  {
    if i == 0 then 0
    else IdsOf(gs, outs, i - 1, ms) + if outs[i - 1].Id? && gs[i].lastMs == ms then 1 else 0
  }

  lemma {:induction false} IdsOfRun(
    nodeID: nat, gs: seq<Gen>, clock: seq<seq<int>>, outs: seq<Outcome>, i: nat, ms: int)
    requires IsRun(gs, clock, outs) && gs[0] == NewGen(nodeID) && i <= |outs| && ms >= EPOCH_MS
    ensures ms == gs[i].lastMs ==> IdsOf(gs, outs, i, ms) == gs[i].sequence + 1
    ensures ms > gs[i].lastMs ==> IdsOf(gs, outs, i, ms) == 0
  {
    if i == 0 {
    } else {
      IdsOfRun(nodeID, gs, clock, outs, i - 1, ms);
      RunMovesForward(gs, clock, outs, 0, i - 1);
      StampMovesForward(gs[i - 1], clock[i - 1]);
      assert (outs[i - 1], gs[i]) == Next(gs[i - 1], clock[i - 1]) && !outs[i - 1].Spinning?;
      if !outs[i - 1].ClockMovedBack? {
        StampExact(gs[i - 1], clock[i - 1]);
      }
    }
  }

  /** In every run, the sequence of an id is the number of ids returned before it
      for the same millisecond: none is skipped and the first is 0. */
  lemma SequenceCounts(nodeID: nat, gs: seq<Gen>, clock: seq<seq<int>>, outs: seq<Outcome>, i: nat)
    requires IsRun(gs, clock, outs) && gs[0] == NewGen(nodeID) && i < |outs| && outs[i].Id?
    ensures gs[i + 1].sequence == IdsOf(gs, outs, i, gs[i + 1].lastMs)
  {
    RunMovesForward(gs, clock, outs, 0, i);
    StampMovesForward(gs[i], clock[i]);
    IdsOfRun(nodeID, gs, clock, outs, i + 1, gs[i + 1].lastMs);
  }
}
