/**
 The Redis-backed timer ledger of one user: two sorted sets (pending by due
 time, processing by claim deadline), the data hash with its processing
 metadata, and the index from business id to timer.  Each operation is one step.
 */
module Ledger {
  import opened Basics

  type Id = int

  datatype Status = IsPending | IsProcessing(owner: string, deadline: int)

  datatype Record = Record(business: string, due: int, status: Status)

  datatype Claim = Claim(owner: string, deadline: int)

  datatype Store = Store(
    pending: map<Id, int>,
    processing: map<Id, int>,
    data: map<Id, Record>,
    meta: map<Id, Claim>,
    index: map<string, Id>)

  const EMPTY_STORE := Store(map[], map[], map[], map[], map[])

  /** Takes a timer out of every store except the index. */
  function Drop(s: Store, id: Id): Store {
    s.(pending := s.pending - {id}, processing := s.processing - {id}, data := s.data - {id}, meta := s.meta - {id})
  }

  function AfterAdd(s: Store, id: Id, rec: Record): Store {
    var b := rec.business;
    var s1 := if b != "" && b in s.index && s.index[b] != id then Drop(s, s.index[b]) else s;
    s1.(pending := s1.pending[id := rec.due],
        processing := s1.processing - {id},
        data := s1.data[id := rec.(status := IsPending)],
        index := if b != "" then s1.index[b := id] else s1.index)
  }

  function AfterRemove(s: Store, id: Id): Store {
    s.(pending := s.pending - {id}, processing := s.processing - {id}, data := s.data - {id},
       index := if id in s.data && s.data[id].business != "" then s.index - {s.data[id].business} else s.index)
  }

  predicate Claims(s: Store, id: Id) {
    id in s.data && id in s.pending
  }

  function AfterClaim(s: Store, id: Id, owner: string, deadline: int): Store {
    if !Claims(s, id) then s
    else s.(pending := s.pending - {id}, meta := s.meta[id := Claim(owner, deadline)],
            processing := s.processing[id := deadline])
  }

  predicate Completes(s: Store, id: Id, owner: string) {
    && id in s.data
    && if id in s.meta then s.meta[id].owner == owner
       else s.data[id].status.IsProcessing? ==> s.data[id].status.owner == owner
  }

  function AfterComplete(s: Store, id: Id, owner: string): Store {
    if !Completes(s, id, owner) then s
    else
      var b := s.data[id].business;
      Drop(s, id).(index := if b != "" && b in s.index && s.index[b] == id then s.index - {b} else s.index)
  }

  predicate Requeues(s: Store, id: Id, now: int) {
    && id in s.data
    && if id in s.meta then s.meta[id].deadline <= now
       else s.data[id].status.IsProcessing? && s.data[id].status.deadline <= now
  }

  function AfterRequeue(s: Store, id: Id, now: int): Store {
    if id !in s.data then s.(processing := s.processing - {id}, meta := s.meta - {id})
    else if !Requeues(s, id, now) then s
    else s.(meta := s.meta - {id}, processing := s.processing - {id}, pending := s.pending[id := s.data[id].due])
  }

  datatype Op =
    | Add(id: Id, rec: Record)
    | Remove(id: Id)
    | ClaimTimer(id: Id, owner: string, deadline: int)
    | Complete(id: Id, owner: string)
    | Requeue(id: Id, now: int)

  function Apply(s: Store, op: Op): Store {
    match op
    case Add(id, rec) => AfterAdd(s, id, rec)
    case Remove(id) => AfterRemove(s, id)
    case ClaimTimer(id, owner, deadline) => AfterClaim(s, id, owner, deadline)
    case Complete(id, owner) => AfterComplete(s, id, owner)
    case Requeue(id, now) => AfterRequeue(s, id, now)
  }

  ghost predicate IsRun(ss: seq<Store>, ops: seq<Op>) {
    && |ss| == |ops| + 1 && ss[0] == EMPTY_STORE
    && forall i :: 0 <= i < |ops| ==> ss[i + 1] == Apply(ss[i], ops[i])
  }

  // ---------------------------------------------------------------- invariants

  /** Every record is pending or processing and not both, and a claim's metadata
      carries the deadline it is filed under. */
  ghost predicate Partitioned(s: Store) {
    && s.data.Keys == s.pending.Keys + s.processing.Keys
    && s.pending.Keys !! s.processing.Keys
    && (forall id :: id in s.processing ==> id in s.meta && s.meta[id].deadline == s.processing[id])
  }

  /** Stored records are marked pending, and a business id leads to its record. */
  ghost predicate Filed(s: Store) {
    forall id :: id in s.data ==>
      s.data[id].status.IsPending?
      && (s.data[id].business != "" ==> s.data[id].business in s.index && s.index[s.data[id].business] == id)
  }

  ghost predicate Inv(s: Store) {
    Partitioned(s) && Filed(s)
  }

  lemma {:induction false} InvStep(s: Store, op: Op)
    requires Inv(s)
    ensures Inv(Apply(s, op))
  {
    if op.Add? {
      InvAdd(s, op.id, op.rec);
    }
  }

  lemma InvAdd(s: Store, id: Id, rec: Record)
    requires Inv(s)
    ensures Inv(AfterAdd(s, id, rec))
  {
  }

  lemma {:induction false} InvRun(ss: seq<Store>, ops: seq<Op>, i: nat)
    requires IsRun(ss, ops) && i < |ss|
    ensures Inv(ss[i])
  {
    if i == 0 {
    } else {
      InvRun(ss, ops, i - 1);
      InvStep(ss[i - 1], ops[i - 1]);
    }
  }

  // -------------------------------------------------------------- main results

  /** In every reachable store each record is in exactly one of the two sets, and
      no business id has two active timers. */
  lemma LedgerPartition(ss: seq<Store>, ops: seq<Op>, i: nat, id: Id, other: Id)
    requires IsRun(ss, ops) && i < |ss|
    ensures id in ss[i].data <==> (id in ss[i].pending) != (id in ss[i].processing)
    ensures !(id in ss[i].pending && id in ss[i].processing)
    ensures id in ss[i].processing ==> id in ss[i].meta && ss[i].meta[id].deadline == ss[i].processing[id]
    ensures id in ss[i].data && other in ss[i].data && ss[i].data[id].business == ss[i].data[other].business != ""
            ==> id == other
  {
    InvRun(ss, ops, i);
  }

  /** The operation puts `id` back into play: a fresh Add, or a requeue no earlier than `deadline`. */
  predicate Reenters(s: Store, op: Op, id: Id, deadline: int) {
    (op.Add? && op.id == id) || (op.Requeue? && op.id == id && Requeues(s, id, op.now) && op.now >= deadline)
  }

  /** After `owner` claimed `id` until `deadline`: not pending, and if still
      processing then under that very claim. */
  ghost predicate HeldBy(s: Store, id: Id, owner: string, deadline: int) {
    id !in s.pending && (id in s.processing ==> id in s.meta && s.meta[id] == Claim(owner, deadline))
  }

  lemma HeldStep(s: Store, op: Op, id: Id, owner: string, deadline: int)
    requires Inv(s) && HeldBy(s, id, owner, deadline) && !Reenters(s, op, id, deadline)
    ensures HeldBy(Apply(s, op), id, owner, deadline)
  {
    InvStep(s, op);
  }

  lemma {:induction false} HeldRun(ss: seq<Store>, ops: seq<Op>, i: nat, j: nat)
    requires IsRun(ss, ops) && i < j < |ss| && ops[i].ClaimTimer? && Claims(ss[i], ops[i].id)
    requires forall k :: i < k < j ==> !Reenters(ss[k], ops[k], ops[i].id, ops[i].deadline)
    ensures HeldBy(ss[j], ops[i].id, ops[i].owner, ops[i].deadline)
  {
    if i + 1 == j {
    } else {
      HeldRun(ss, ops, i, j - 1);
      InvRun(ss, ops, j - 1);
      HeldStep(ss[j - 1], ops[j - 1], ops[i].id, ops[i].owner, ops[i].deadline);
    }
  }

  /** Between two successful claims of one timer there is a fresh Add of it or a
      requeue at a time no earlier than the first claim's deadline. */
  lemma ClaimsAreExclusive(ss: seq<Store>, ops: seq<Op>, i: nat, j: nat)
    requires IsRun(ss, ops) && i < j < |ops|
    requires ops[i].ClaimTimer? && ops[j].ClaimTimer? && ops[i].id == ops[j].id
    requires Claims(ss[i], ops[i].id) && Claims(ss[j], ops[j].id)
    ensures exists k :: i < k < j && Reenters(ss[k], ops[k], ops[i].id, ops[i].deadline)
  {
    if forall k :: i < k < j ==> !Reenters(ss[k], ops[k], ops[i].id, ops[i].deadline) {
      HeldRun(ss, ops, i, j);
    }
  }

  /** While a claim is in force only its owner can complete the timer. */
  lemma OnlyTheOwnerCompletes(ss: seq<Store>, ops: seq<Op>, i: nat, j: nat, owner: string)
    requires IsRun(ss, ops) && i < j < |ss| && ops[i].ClaimTimer? && Claims(ss[i], ops[i].id)
    requires forall k :: i < k < j ==> !Reenters(ss[k], ops[k], ops[i].id, ops[i].deadline)
    ensures Completes(ss[j], ops[i].id, owner) <==> ops[i].id in ss[j].data && owner == ops[i].owner
  {
    HeldRun(ss, ops, i, j);
    InvRun(ss, ops, j);
  }

  /** The ledger promises that a timer still pending can be completed by anyone.
      In every reachable store that holds exactly when no claim metadata of
      another owner was left behind. */
  lemma PendingCompletesIff(ss: seq<Store>, ops: seq<Op>, i: nat, id: Id, owner: string)
    requires IsRun(ss, ops) && i < |ss| && id in ss[i].pending
    ensures Completes(ss[i], id, owner) <==> id !in ss[i].meta || ss[i].meta[id].owner == owner
  {
    InvRun(ss, ops, i);
  }

  /** Claimed by one owner and added again, a timer is pending and yet no other
      owner can complete it: Add leaves the metadata of the claim. */
  lemma StaleClaimBlocksCompletion(id: Id, rec: Record, a: string, b: string, deadline: int)
    requires rec.business == "" && a != b
    ensures var s := Apply(Apply(Apply(EMPTY_STORE, Add(id, rec)), ClaimTimer(id, a, deadline)), Add(id, rec));
      id in s.pending && !Completes(s, id, b)
  {
  }

  /** Pruning ids without a record, as loading does, never removes anything. */
  function Pruned(s: Store, ids: set<Id>): Store {
    var gone := set id | id in ids && id !in s.data;
    s.(pending := s.pending - gone, processing := s.processing - gone)
  }

  lemma PruningIsIdle(ss: seq<Store>, ops: seq<Op>, i: nat)
    requires IsRun(ss, ops) && i < |ss|
    ensures Pruned(ss[i], ss[i].pending.Keys + ss[i].processing.Keys) == ss[i]
  {
    InvRun(ss, ops, i);
    var s := ss[i];
    assert (set id | id in s.pending.Keys + s.processing.Keys && id !in s.data) == {};
  }

  // -------------------------------------------------- what each operation does

  /** Step `k` added `id`, and no step up to `i` has added it again. */
  ghost predicate AddedLast(ops: seq<Op>, k: nat, i: nat, id: Id)
    requires k < i <= |ops|
  {
    ops[k].Add? && ops[k].id == id && forall m :: k < m < i ==> !(ops[m].Add? && ops[m].id == id)
  }

  /** A step that does not add `id` leaves its record, and its due time while pending. */
  lemma FiledStep(s: Store, op: Op, id: Id)
    requires Inv(s) && id in Apply(s, op).data && !(op.Add? && op.id == id)
    ensures id in s.data && Apply(s, op).data[id] == s.data[id]
    ensures id in Apply(s, op).pending ==>
      Apply(s, op).pending[id] == s.data[id].due || (id in s.pending && Apply(s, op).pending[id] == s.pending[id])
  {
  }

  /** Whatever happened to it since, a timer in the ledger has the due time and the
      business id it was last added with, and while pending it is filed under that
      due time. */
  lemma {:induction false} FiledAsAdded(ss: seq<Store>, ops: seq<Op>, i: nat, id: Id) returns (k: nat)
    requires IsRun(ss, ops) && i < |ss| && id in ss[i].data
    ensures k < i && AddedLast(ops, k, i, id)
    ensures ss[i].data[id].due == ops[k].rec.due && ss[i].data[id].business == ops[k].rec.business
    ensures id in ss[i].pending ==> ss[i].pending[id] == ops[k].rec.due
  {
    assert i > 0 && ss[i] == Apply(ss[i - 1], ops[i - 1]);
    InvRun(ss, ops, i - 1);
    if ops[i - 1].Add? && ops[i - 1].id == id {
      k := i - 1;
    } else {
      FiledStep(ss[i - 1], ops[i - 1], id);
      k := FiledAsAdded(ss, ops, i - 1, id);
    }
  }

  /** The operation takes the record of `id` out of the ledger. */
  predicate TakesOut(s: Store, op: Op, id: Id) {
    || op == Remove(id)
    || (op.Complete? && op.id == id && Completes(s, id, op.owner))
    || (op.Add? && Replaces(s, op.id, op.rec, id))
  }

  /** In every run, exactly which timers each step leaves in the ledger, pending and
      processing: an Add makes its timer pending; a claim moves a pending one,
      and always succeeds on one; a requeue moves one back whose claim has
      expired; and nothing else changes place. */
  lemma PlacesExact(ss: seq<Store>, ops: seq<Op>, i: nat, id: Id)
    requires IsRun(ss, ops) && i < |ops|
    ensures id in ss[i + 1].data <==>
      (ops[i].Add? && ops[i].id == id) || (id in ss[i].data && !TakesOut(ss[i], ops[i], id))
    ensures id in ss[i + 1].pending <==>
      || (ops[i].Add? && ops[i].id == id)
      || (id in ss[i].pending && !TakesOut(ss[i], ops[i], id) && !(ops[i].ClaimTimer? && ops[i].id == id))
      || (ops[i].Requeue? && ops[i].id == id && id in ss[i].processing && ss[i].processing[id] <= ops[i].now)
    ensures ops[i].ClaimTimer? && ops[i].id == id && id in ss[i].pending ==>
      id in ss[i + 1].processing && ss[i + 1].processing[id] == ops[i].deadline
    ensures Claims(ss[i], id) <==> id in ss[i].pending
  {
    InvRun(ss, ops, i);
    PlacesStep(ss[i], ops[i], id);
  }

  lemma PlacesStep(s: Store, op: Op, id: Id)
    requires Inv(s)
    ensures var s' := Apply(s, op);
      && (id in s'.data <==> (op.Add? && op.id == id) || (id in s.data && !TakesOut(s, op, id)))
      && (id in s'.pending <==>
          || (op.Add? && op.id == id)
          || (id in s.pending && !TakesOut(s, op, id) && !(op.ClaimTimer? && op.id == id))
          || (op.Requeue? && op.id == id && id in s.processing && s.processing[id] <= op.now))
  {
  }

  /** An operation leaves every other timer it does not take out exactly as it was. */
  lemma OthersUntouched(s: Store, op: Op, id: Id)
    requires Inv(s) && id != op.id && id in s.data && !TakesOut(s, op, id)
    ensures var s' := Apply(s, op);
      && id in s'.data && s'.data[id] == s.data[id]
      && (id in s'.pending <==> id in s.pending) && (id in s.pending ==> s'.pending[id] == s.pending[id])
      && (id in s'.processing <==> id in s.processing)
      && (id in s.processing ==> s'.processing[id] == s.processing[id] && id in s'.meta && s'.meta[id] == s.meta[id])
  {
  }

  /** A completed or removed timer is nowhere. */
  lemma TakenOutIsGone(s: Store, op: Op, id: Id)
    requires Inv(s) && TakesOut(s, op, id)
    ensures var s' := Apply(s, op); id !in s'.data && id !in s'.pending && id !in s'.processing
  {
    InvStep(s, op);
  }

  predicate MakesClaim(s: Store, op: Op, id: Id, c: Claim) {
    op == ClaimTimer(id, c.owner, c.deadline) && id in s.pending
  }

  /** The operation clears the metadata of the claim: its owner completes the timer,
      an Add replaces it, it is requeued after the deadline or without a record, or
      it is claimed anew. */
  predicate EndsClaim(s: Store, op: Op, id: Id, c: Claim) {
    || (op == Complete(id, c.owner) && id in s.data)
    || (op.Add? && op.id != id && op.rec.business != "" && op.rec.business in s.index && s.index[op.rec.business] == id)
    || (op.Requeue? && op.id == id && (id !in s.data || c.deadline <= op.now))
    || (op.ClaimTimer? && op.id == id && id in s.pending)
  }

  ghost predicate ClaimStands(ss: seq<Store>, ops: seq<Op>, k: nat, i: nat, id: Id, c: Claim)
    requires i <= |ops| <= |ss|
  {
    k < i && MakesClaim(ss[k], ops[k], id, c) && forall m :: k < m < i ==> !EndsClaim(ss[m], ops[m], id, c)
  }

  predicate HasClaim(s: Store, id: Id, c: Claim) {
    id in s.meta && s.meta[id] == c
  }

  lemma {:induction false} ClaimStep(s: Store, op: Op, id: Id, c: Claim)
    requires Inv(s)
    ensures HasClaim(Apply(s, op), id, c) <==>
      MakesClaim(s, op, id, c) || (HasClaim(s, id, c) && !EndsClaim(s, op, id, c))
  {
  }

  /** The ledger keeps the metadata of a claim if and only if the claim was made and
      nothing has cleared it since; Remove does not, nor an Add of the timer itself. */
  lemma {:induction false} ClaimsExact(ss: seq<Store>, ops: seq<Op>, i: nat, id: Id, c: Claim)
    requires IsRun(ss, ops) && i < |ss|
    ensures HasClaim(ss[i], id, c) <==> exists k: nat :: ClaimStands(ss, ops, k, i, id, c)
  {
    if i == 0 {
    } else {
      ClaimsExact(ss, ops, i - 1, id, c);
      InvRun(ss, ops, i - 1);
      ClaimStep(ss[i - 1], ops[i - 1], id, c);
      if MakesClaim(ss[i - 1], ops[i - 1], id, c) {
        assert ClaimStands(ss, ops, i - 1, i, id, c);
      }
      if HasClaim(ss[i - 1], id, c) && !EndsClaim(ss[i - 1], ops[i - 1], id, c) {
        var k: nat :| ClaimStands(ss, ops, k, i - 1, id, c);
        assert ClaimStands(ss, ops, k, i, id, c);
      }
      if k: nat :| ClaimStands(ss, ops, k, i, id, c) && k < i - 1 {
        assert ClaimStands(ss, ops, k, i - 1, id, c);
      }
    }
  }

  // --------------------------------------------------------- replacing on Add

  /** The index names a timer that was since filed under another business id. */
  predicate StaleEntry(s: Store, business: string) {
    business in s.index && s.index[business] in s.data && s.data[s.index[business]].business != business
  }

  /** Adding `id` with `rec` takes the record of `other` out of the ledger. */
  predicate Replaces(s: Store, id: Id, rec: Record, other: Id) {
    other in s.data && other !in AfterAdd(s, id, rec).data
  }

  /** An Add means to replace the active timer of its own business id and no
      other.  In every reachable store it does so exactly when the index entry of
      that business id is not stale, or names the very timer being added. */
  lemma AddReplacesOwnBusinessIff(ss: seq<Store>, ops: seq<Op>, i: nat, id: Id, rec: Record)
    requires IsRun(ss, ops) && i < |ss|
    ensures (forall other :: Replaces(ss[i], id, rec, other) <==>
               && other in ss[i].data && other != id
               && rec.business != "" && ss[i].data[other].business == rec.business)
       <==> rec.business == "" || !StaleEntry(ss[i], rec.business) || ss[i].index[rec.business] == id
  {
    InvRun(ss, ops, i);
    var s, b := ss[i], rec.business;
    if b != "" && StaleEntry(s, b) && s.index[b] != id {
      assert Replaces(s, id, rec, s.index[b]);
    }
  }

  /** Whatever the index says: the one record an Add takes out is the one its
      business id leads to. */
  lemma AddReplacesExactly(ss: seq<Store>, ops: seq<Op>, i: nat, id: Id, rec: Record, other: Id)
    requires IsRun(ss, ops) && i < |ss| && other in ss[i].data
    ensures Replaces(ss[i], id, rec, other) <==>
      rec.business != "" && rec.business in ss[i].index && ss[i].index[rec.business] == other && other != id
    ensures other != id && !Replaces(ss[i], id, rec, other) ==>
      AfterAdd(ss[i], id, rec).data[other] == ss[i].data[other]
  {
    InvRun(ss, ops, i);
  }

  /** A timer added under "a", then under "b", is thrown out by a new timer of
      "a", and "b" is left without its active timer. */
  lemma AddDropsOtherBusiness(r: Record)
    ensures var s := Apply(Apply(EMPTY_STORE, Add(1, r.(business := "a"))), Add(1, r.(business := "b")));
      var s' := Apply(s, Add(2, r.(business := "a")));
      && 1 in s.pending && s.data[1].business == "b" && Replaces(s, 2, r.(business := "a"), 1)
      && 1 !in s'.data && 1 !in s'.pending && s'.index["b"] == 1
  {
    assert "a" != "b" && "a" != "" && "b" != "";
  }

  /** The Add files a timer that is in the ledger under another business id. */
  predicate Renames(s: Store, op: Op) {
    op.Add? && op.id in s.data && s.data[op.id].business != "" && s.data[op.id].business != op.rec.business
  }

  /** Every index entry leads to the record of its business id. */
  ghost predicate IndexExact(s: Store) {
    forall b :: b in s.index ==> b != "" && s.index[b] in s.data && s.data[s.index[b]].business == b
  }

  lemma IndexStep(s: Store, op: Op)
    requires Inv(s)
    ensures IndexExact(s) && !Renames(s, op) ==> IndexExact(Apply(s, op))
    ensures Renames(s, op) ==> StaleEntry(Apply(s, op), s.data[op.id].business)
  {
  }

  lemma {:induction false} IndexRun(ss: seq<Store>, ops: seq<Op>, i: nat)
    requires IsRun(ss, ops) && i < |ss| && forall k :: 0 <= k < i ==> !Renames(ss[k], ops[k])
    ensures IndexExact(ss[i])
  {
    if i == 0 {
    } else {
      IndexRun(ss, ops, i - 1);
      InvRun(ss, ops, i - 1);
      IndexStep(ss[i - 1], ops[i - 1]);
    }
  }

  /** Over a whole run: the index stays exact, so that every Add replaces what it
      should, if and only if no Add ever files a timer still in the ledger under
      another business id. */
  lemma IndexExactIff(ss: seq<Store>, ops: seq<Op>, i: nat)
    requires IsRun(ss, ops) && i < |ss|
    ensures (forall k :: 0 <= k <= i ==> IndexExact(ss[k])) <==> (forall k :: 0 <= k < i ==> !Renames(ss[k], ops[k]))
  {
    if forall k :: 0 <= k < i ==> !Renames(ss[k], ops[k]) {
      forall k | 0 <= k <= i ensures IndexExact(ss[k]) {
        IndexRun(ss, ops, k);
      }
    } else {
      var k :| 0 <= k < i && Renames(ss[k], ops[k]);
      InvRun(ss, ops, k);
      IndexStep(ss[k], ops[k]);
      assert !IndexExact(ss[k + 1]);
    }
  }

  // -------------------------------------------------------- requeuing a listing

  /** One requeue after another, and how many of them moved their timer. */
  function RequeueAll(s: Store, listed: seq<Id>, now: int): (Store, nat) {
    if listed == [] then (s, 0)
    else
      var (before, n) := RequeueAll(s, listed[..|listed| - 1], now);
      var id := listed[|listed| - 1];
      (AfterRequeue(before, id, now), if Requeues(before, id, now) then n + 1 else n)
  }

  /** After the listed timers were requeued one by one: who is where, and since when. */
  ghost predicate Requeued(s: Store, s': Store, listed: seq<Id>) {
    && Inv(s') && s'.data == s.data && s'.index == s.index
    && (forall id :: id in s'.processing <==> id in s.processing && id !in listed)
    && (forall id :: id in s'.pending <==> id in s.pending || id in listed)
    && (forall id :: id in s'.processing ==> s'.processing[id] == s.processing[id])
    && (forall id :: id in listed ==> s'.pending[id] == s'.data[id].due)
    && (forall id :: id in s.pending ==> s'.pending[id] == s.pending[id])
  }

  lemma RequeuedMore(s: Store, s': Store, listed: seq<Id>, id: Id, now: int)
    requires Inv(s) && Requeued(s, s', listed) && id in s.processing && id !in listed && s.processing[id] <= now
    requires forall x :: x in listed ==> x in s.processing
    ensures Requeues(s', id, now) && Requeued(s, AfterRequeue(s', id, now), listed + [id])
  {
    InvStep(s', Requeue(id, now));
  }

  /** From a listing of claims that have expired by `now`, every listed timer and
      no other goes back to pending, at its own due time, and all are counted. */
  lemma {:induction false} RequeueAllExact(s: Store, listed: seq<Id>, now: int)
    requires Inv(s) && Distinct(listed)
    requires forall id :: id in listed ==> id in s.processing && s.processing[id] <= now
    ensures var (s', total) := RequeueAll(s, listed, now); Requeued(s, s', listed) && total == |listed|
  {
    if listed == [] {
    } else {
      var front, id := listed[..|listed| - 1], listed[|listed| - 1];
      assert listed == front + [id];
      RequeueAllExact(s, front, now);
      RequeuedMore(s, RequeueAll(s, front, now).0, front, id, now);
    }
  }

  // ------------------------------------------------------------------ the queue

  /** The ledger as the scripts and pipelines update it, key by key. */
  class RedisLedger {
    var pending: map<Id, int>
    var processing: map<Id, int>
    var data: map<Id, Record>
    var meta: map<Id, Claim>
    var index: map<string, Id>

    ghost function View(): Store
      reads this
    {
      Store(pending, processing, data, meta, index)
    }

    constructor ()
      ensures View() == EMPTY_STORE
    {
      pending, processing, data, meta, index := map[], map[], map[], map[], map[];
    }

    method AddTimer(id: Id, rec: Record)
      modifies this
      ensures View() == AfterAdd(old(View()), id, rec)
    {
      var b := rec.business;
      if b != "" && b in index && index[b] != id {
        var previous := index[b];
        pending := pending - {previous};
        processing := processing - {previous};
        data := data - {previous};
        meta := meta - {previous};
      }
      pending := pending[id := rec.due];
      processing := processing - {id};
      data := data[id := rec.(status := IsPending)];
      if b != "" {
        index := index[b := id];
      }
    }

    method RemoveByTimerID(id: Id) returns (found: bool)
      modifies this
      ensures View() == AfterRemove(old(View()), id) && found == (id in old(data))
    {
      found := id in data;
      var b := if found then data[id].business else "";
      data := data - {id};
      pending := pending - {id};
      processing := processing - {id};
      if found && b != "" {
        index := index - {b};
      }
    }

    method ClaimForProcessing(id: Id, owner: string, deadline: int) returns (ok: bool)
      modifies this
      ensures View() == AfterClaim(old(View()), id, owner, deadline) && ok == Claims(old(View()), id)
    {
      if id !in data || id !in pending {
        return false;
      }
      pending := pending - {id};
      meta := meta[id := Claim(owner, deadline)];
      processing := processing[id := deadline];
      return true;
    }

    method CompleteProcessing(id: Id, owner: string) returns (ok: bool)
      modifies this
      ensures View() == AfterComplete(old(View()), id, owner) && ok == Completes(old(View()), id, owner)
    {
      if id !in data {
        return false;
      }
      if id in meta {
        if meta[id].owner != owner {
          return false;
        }
      } else if data[id].status.IsProcessing? && data[id].status.owner != owner {
        return false;
      }
      var b := data[id].business;
      data := data - {id};
      meta := meta - {id};
      pending := pending - {id};
      processing := processing - {id};
      if b != "" && b in index && index[b] == id {
        index := index - {b};
      }
      return true;
    }

    method RequeueTimer(id: Id, now: int) returns (ok: bool)
      modifies this
      ensures View() == AfterRequeue(old(View()), id, now) && ok == Requeues(old(View()), id, now)
    {
      if id !in data {
        processing := processing - {id};
        meta := meta - {id};
        return false;
      }
      var deadline;
      if id in meta {
        deadline := meta[id].deadline;
      } else if data[id].status.IsPending? {
        return false;
      } else {
        deadline := data[id].status.deadline;
      }
      if deadline > now {
        return false;
      }
      meta := meta - {id};
      processing := processing - {id};
      pending := pending[id := data[id].due];
      return true;
    }

    /** The requeue loop over the ids some earlier listing of the processing set returned. */
    method RequeueExpired(now: int, listed: seq<Id>) returns (total: nat)
      modifies this
      ensures (View(), total) == RequeueAll(old(View()), listed, now)
    {
      total := 0;
      for k := 0 to |listed|
        invariant (View(), total) == RequeueAll(old(View()), listed[..k], now)
      {
        assert listed[..k + 1][..k] == listed[..k];
        var ok := RequeueTimer(listed[k], now);
        if ok {
          total := total + 1;
        }
      }
      assert listed[..|listed|] == listed;
    }
  }
}
