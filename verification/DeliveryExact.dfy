/**
 What every step of `Delivery` decides, said of the run's history: when a
 frame's admission has been decided, what becomes of every marker and every
 request that was read, and that a barrier is never stuck.
 */
module DeliveryExact {
  import opened Basics
  import opened Admission
  import opened Delivery

  // ------------------------------------------------- one step, seen from a lane

  function BarrierAfter(l: Lane, i: nat, a: Action): Option<(nat, nat)> {
    if a == Read(i) && l.wire != [] && l.wire[0].kind.Barrier? && l.barrier.None?
    then Some((l.next, l.wire[0].kind.request))
    else if a == BarrierReplies(i) || a == BarrierExpires(i) then None
    else l.barrier
  }

  function BackAfter(l: Lane, i: nat, a: Action): seq<Reply> {
    if a == Read(i) && l.wire != [] && l.wire[0].kind.Barrier? && l.barrier.Some?
    then l.back + [Busy(l.wire[0].kind.request)]
    else if a == BarrierReplies(i) && l.barrier.Some? then l.back + [Pong(l.barrier.value.1)]
    else if a == ReplyArrives(i) && l.back != [] then l.back[1..]
    else l.back
  }

  /** Reading and answering, as every step does it to lane `i`. */
  lemma LaneStep(c: Config, s: Net, a: Action, i: nat)
    requires Enabled(c, s, a) && i < |s.lanes|
    ensures |Apply(c, s, a).lanes| == |s.lanes|
    ensures var l, l' := s.lanes[i], Apply(c, s, a).lanes[i];
      && l'.seen == (if a == Read(i) then l.seen + [l.wire[0]] else l.seen)
      && l'.barrier == BarrierAfter(l, i, a)
      && l'.back == BackAfter(l, i, a)
      && l'.pongs == if a == ReplyArrives(i) && l.back[0].Pong? then l.pongs + {l.back[0].request} else l.pongs
  {
    if a.Read? {
      ReadStep(c, s, a.lane, i);
    }
  }

  lemma ReadStep(c: Config, s: Net, lane: nat, i: nat)
    requires Enabled(c, s, Read(lane)) && i < |s.lanes|
    ensures |ReadFrame(c, s, lane).lanes| == |s.lanes|
    ensures var l, l' := s.lanes[i], ReadFrame(c, s, lane).lanes[i];
      && l'.seen == (if i == lane then l.seen + [l.wire[0]] else l.seen)
      && l'.barrier == BarrierAfter(l, i, Read(lane))
      && l'.back == BackAfter(l, i, Read(lane))
      && l'.pongs == l.pongs
  {
  }

  // --------------------------------------------------- whose admission is decided

  /** The step decides the admission of frame `n` of the lane: a worker admits or
      refuses it, or the read loop finds no room for it. */
  predicate DecidesAt(c: Config, s: Net, a: Action, lane: nat, n: nat) {
    || (a.Decide? && a.shard < |s.shards| && s.shards[a.shard].worker.Working?
        && s.shards[a.shard].worker.job.lane == lane && s.shards[a.shard].worker.job.frame.n == n)
    || (a == Read(lane) && lane < |s.lanes| && s.lanes[lane].wire != []
        && Admissible(s.lanes[lane].wire[0]) && !Accepts(c, s, s.lanes[lane].wire[0]) && s.lanes[lane].wire[0].n == n)
  }

  ghost predicate DecidedBefore(c: Config, ss: seq<Net>, acts: seq<Action>, i: nat, lane: nat, n: nat)
    requires i <= |acts| <= |ss|
  {
    exists k :: 0 <= k < i && DecidesAt(c, ss[k], acts[k], lane, n)
  }

  lemma FateStep(c: Config, s: Net, a: Action, lane: nat, n: nat)
    requires Enabled(c, s, a) && lane < |s.lanes|
    ensures lane < |Apply(c, s, a).lanes|
    ensures n in Apply(c, s, a).lanes[lane].fate <==> n in s.lanes[lane].fate || DecidesAt(c, s, a, lane, n)
  {
  }

  /** The record of decided admissions is the history's: exactly the frames some
      step has decided. */
  lemma {:induction false} DecidedIff(c: Config, ss: seq<Net>, acts: seq<Action>, i: nat, lane: nat, n: nat)
    requires IsRun(c, ss, acts) && i < |ss| && lane < c.lanes + c.foreign
    ensures lane < |ss[i].lanes|
    ensures n in ss[i].lanes[lane].fate <==> DecidedBefore(c, ss, acts, i, lane, n)
  {
    if i == 0 {
    } else {
      DecidedIff(c, ss, acts, i - 1, lane, n);
      assert Step(c, ss[i - 1], acts[i - 1], ss[i]);
      FateStep(c, ss[i - 1], acts[i - 1], lane, n);
      if DecidedBefore(c, ss, acts, i - 1, lane, n) {
        var k :| 0 <= k < i - 1 && DecidesAt(c, ss[k], acts[k], lane, n);
        assert 0 <= k < i && DecidesAt(c, ss[k], acts[k], lane, n);
      }
    }
  }

  /** Once the sender holds the barrier reply for a marker, an earlier step of the
      run has decided the admission of every call and send enqueued before it. */
  lemma ReplyMeansDecided(
    c: Config, ss: seq<Net>, acts: seq<Action>, i: nat, lane: nat, request: nat, m: nat, e: nat)
    requires IsRun(c, ss, acts) && i < |ss| && c.lanes > 0
    requires lane < |ss[i].lanes| && request in ss[i].lanes[lane].pongs
    requires e < m < |ss[i].lanes[lane].enq| && ss[i].lanes[lane].enq[m].kind == Barrier(request)
    requires ss[i].lanes[lane].enq[e].kind in {Call, Send}
    ensures DecidedBefore(c, ss, acts, i, lane, e)
  {
    BarrierSoundness(c, ss, acts, i, lane, request, m);
    InvRun(c, ss, acts, i);
    DecidedIff(c, ss, acts, i, lane, e);
  }

  // ---------------------------------------------------------- since a flush began

  /** Step `b` began the flush that state `i` is in. */
  ghost predicate BeganAt(ss: seq<Net>, acts: seq<Action>, b: nat, i: nat)
    requires b < i <= |acts| <= |ss|
  {
    acts[b].FlushBegins? && forall m :: b < m < i ==> !acts[m].FlushBegins?
  }

  lemma {:induction false} BeforeIsTheBeginning(c: Config, ss: seq<Net>, acts: seq<Action>, b: nat, i: nat, lane: nat)
    requires IsRun(c, ss, acts) && b < i <= |acts| && BeganAt(ss, acts, b, i) && lane < |ss[b].lanes|
    ensures lane < |ss[i].before| && ss[i].before[lane] == |ss[b].lanes[lane].enq|
    ensures lane < |ss[i].lanes| && ss[b].lanes[lane].enq <= ss[i].lanes[lane].enq
  {
    if b + 1 == i {
      BeforeNext(c, ss, acts, b, lane);
    } else {
      BeforeIsTheBeginning(c, ss, acts, b, i - 1, lane);
      BeforeNext(c, ss, acts, i - 1, lane);
    }
  }

  lemma BeforeNext(c: Config, ss: seq<Net>, acts: seq<Action>, i: nat, lane: nat)
    requires IsRun(c, ss, acts) && i < |acts| && lane < |ss[i].lanes|
    ensures lane < |ss[i + 1].lanes| && ss[i].lanes[lane].enq <= ss[i + 1].lanes[lane].enq
    ensures if acts[i].FlushBegins? then lane < |ss[i + 1].before| && ss[i + 1].before[lane] == |ss[i].lanes[lane].enq|
            else ss[i + 1].before == ss[i].before
  {
    assert Step(c, ss[i], acts[i], ss[i + 1]);
    LanesGrowStep(c, ss[i], acts[i]);
  }

  /** When a flush has succeeded, every call and send that any of the sender's
      lanes held when it began has been decided by some step of the run. */
  lemma FlushMeansDecided(c: Config, ss: seq<Net>, acts: seq<Action>, b: nat, i: nat, lane: nat, e: nat)
    requires IsRun(c, ss, acts) && c.lanes > 0 && b < i <= |acts| && BeganAt(ss, acts, b, i) && ss[i].flush.Flushed?
    requires lane < c.lanes && lane < |ss[b].lanes| && e < |ss[b].lanes[lane].enq|
    requires ss[b].lanes[lane].enq[e].kind in {Call, Send}
    ensures DecidedBefore(c, ss, acts, i, lane, e)
  {
    BeforeIsTheBeginning(c, ss, acts, b, i, lane);
    InvRun(c, ss, acts, i);
    FlushSoundness(c, ss, acts, i, lane, e);
    DecidedIff(c, ss, acts, i, lane, e);
  }

  /** The lanes the flush has marked, and those it has had answers for, since step `b` began it. */
  function MarksSince(acts: seq<Action>, b: nat, i: nat): nat
    requires b < i <= |acts|
    decreases i
  {
    if i == b + 1 then 0 else MarksSince(acts, b, i - 1) + if acts[i - 1].FlushMarks? then 1 else 0
  }

  function AnswersSince(acts: seq<Action>, b: nat, i: nat): nat
    requires b < i <= |acts|
    decreases i
  {
    if i == b + 1 then 0 else AnswersSince(acts, b, i - 1) + if acts[i - 1].FlushAnswered? then 1 else 0
  }

  /** Step `b` began a flush, and no step up to `i` has begun another or failed it. */
  predicate Unbroken(acts: seq<Action>, b: nat, i: nat)
    requires b < i <= |acts|
    decreases i
  {
    if i == b + 1 then acts[b].FlushBegins?
    else !acts[i - 1].FlushBegins? && !acts[i - 1].FlushFails? && Unbroken(acts, b, i - 1)
  }

  /** The flush after marking `marks` of `own` lanes and `answers` replies. */
  predicate FlushAt(f: Flush, own: nat, marks: nat, answers: nat) {
    match f
    case NotFlushing => false
    case Flushing(lane) => lane == answers == marks < own
    case Awaiting(lane, _) => lane == answers < own && marks == answers + 1
    case Flushed => marks == answers == own
  }

  lemma FlushStep(c: Config, ss: seq<Net>, acts: seq<Action>, i: nat, marks: nat, answers: nat)
    requires IsRun(c, ss, acts) && i < |acts| && c.lanes > 0 && !acts[i].FlushFails?
    ensures ss[i].own == c.lanes ==> ss[i + 1].own == c.lanes
    ensures acts[i].FlushBegins? ==> ss[i + 1].flush == Flushing(0)
    ensures !acts[i].FlushBegins? && ss[i].own == c.lanes && FlushAt(ss[i].flush, c.lanes, marks, answers) ==>
      FlushAt(ss[i + 1].flush, c.lanes, marks + (if acts[i].FlushMarks? then 1 else 0),
              answers + if acts[i].FlushAnswered? then 1 else 0)
  {
    assert Step(c, ss[i], acts[i], ss[i + 1]);
  }

  lemma OwnLanes(c: Config, ss: seq<Net>, acts: seq<Action>, i: nat)
    requires IsRun(c, ss, acts) && i < |ss| && c.lanes > 0
    ensures ss[i].own == c.lanes
  {
    InvRun(c, ss, acts, i);
  }

  /** A flush marks the sender's lanes one after the other, each when the one before
      is answered, and has succeeded exactly when all of them are. */
  lemma {:induction false} FlushToldByHistory(c: Config, ss: seq<Net>, acts: seq<Action>, b: nat, i: nat)
    requires IsRun(c, ss, acts) && c.lanes > 0 && b < i <= |acts| && Unbroken(acts, b, i)
    ensures FlushAt(ss[i].flush, c.lanes, MarksSince(acts, b, i), AnswersSince(acts, b, i))
    decreases i
  {
    if i == b + 1 {
      FlushStep(c, ss, acts, b, 0, 0);
    } else {
      FlushToldByHistory(c, ss, acts, b, i - 1);
      OwnLanes(c, ss, acts, i - 1);
      FlushStep(c, ss, acts, i - 1, MarksSince(acts, b, i - 1), AnswersSince(acts, b, i - 1));
    }
  }

  // ----------------------------------------------------- send queues and mailboxes

  lemma SendStep(c: Config, ss: seq<Net>, acts: seq<Action>, i: nat, lane: nat)
    requires IsRun(c, ss, acts) && i < |acts| && lane < |ss[i].lanes|
    ensures lane < |ss[i + 1].lanes| == |ss[i].lanes|
    ensures |ss[i].lanes[lane].send| <= c.sendQueue ==> |ss[i + 1].lanes[lane].send| <= c.sendQueue
  {
    assert Step(c, ss[i], acts[i], ss[i + 1]);
  }

  /** No send queue ever holds more than its capacity. */
  lemma {:induction false} SendQueueBounded(c: Config, ss: seq<Net>, acts: seq<Action>, i: nat, lane: nat)
    requires IsRun(c, ss, acts) && i < |ss| && lane < c.lanes + c.foreign
    ensures lane < |ss[i].lanes| && |ss[i].lanes[lane].send| <= c.sendQueue
  {
    if i == 0 {
    } else {
      SendQueueBounded(c, ss, acts, i - 1, lane);
      SendStep(c, ss, acts, i - 1, lane);
    }
  }

  /** The job a step has admitted, as its worker decides. */
  function AdmittedBy(s: Net, a: Action): seq<Job> {
    if a.Decide? && a.admitted && a.shard < |s.shards| && s.shards[a.shard].worker.Working?
    then [s.shards[a.shard].worker.job] else []
  }

  ghost function Admissions(ss: seq<Net>, acts: seq<Action>, i: nat): seq<Job>
    requires i <= |acts| <= |ss|
  {
    if i == 0 then [] else Admissions(ss, acts, i - 1) + AdmittedBy(ss[i - 1], acts[i - 1])
  }

  lemma MailboxStep(c: Config, ss: seq<Net>, acts: seq<Action>, i: nat)
    requires IsRun(c, ss, acts) && i < |acts|
    ensures ss[i + 1].mailbox == ss[i].mailbox + AdmittedBy(ss[i], acts[i])
  {
    assert Step(c, ss[i], acts[i], ss[i + 1]);
  }

  /** The mailboxes have received exactly the jobs the workers admitted, in that order. */
  lemma {:induction false} MailboxExact(c: Config, ss: seq<Net>, acts: seq<Action>, i: nat)
    requires IsRun(c, ss, acts) && i < |ss|
    ensures ss[i].mailbox == Admissions(ss, acts, i)
  {
    if i == 0 {
    } else {
      MailboxExact(c, ss, acts, i - 1);
      MailboxStep(c, ss, acts, i - 1);
    }
  }

  // -------------------------------------------------------- what becomes of a marker

  /** The step reads the marker while another barrier is pending, and answers busy. */
  predicate RefusesMarker(s: Net, a: Action, lane: nat, request: nat) {
    && a == Read(lane) && lane < |s.lanes| && s.lanes[lane].wire != []
    && s.lanes[lane].wire[0].kind == Barrier(request) && s.lanes[lane].barrier.Some?
  }

  predicate ExpiresBarrier(s: Net, a: Action, lane: nat, request: nat) {
    && a == BarrierExpires(lane) && lane < |s.lanes|
    && s.lanes[lane].barrier.Some? && s.lanes[lane].barrier.value.1 == request
  }

  ghost predicate MarkerLost(ss: seq<Net>, acts: seq<Action>, i: nat, lane: nat, request: nat)
    requires i <= |acts| <= |ss|
  {
    exists k :: 0 <= k < i &&
      (RefusesMarker(ss[k], acts[k], lane, request) || ExpiresBarrier(ss[k], acts[k], lane, request))
  }

  /** The barrier for the marker is pending, or its reply is on its way or there. */
  predicate MarkerAlive(l: Lane, request: nat) {
    || (l.barrier.Some? && l.barrier.value.1 == request)
    || Pong(request) in l.back
    || request in l.pongs
  }

  lemma MarkerStep(c: Config, s: Net, a: Action, lane: nat, request: nat)
    requires Enabled(c, s, a) && lane < |s.lanes| && MarkerAlive(s.lanes[lane], request)
    ensures lane < |Apply(c, s, a).lanes|
    ensures MarkerAlive(Apply(c, s, a).lanes[lane], request) || ExpiresBarrier(s, a, lane, request)
  {
    LaneStep(c, s, a, lane);
    var l := s.lanes[lane];
    if l.back != [] {
      assert l.back == [l.back[0]] + l.back[1..];
    }
  }

  lemma LostStays(ss: seq<Net>, acts: seq<Action>, i: nat, lane: nat, request: nat)
    requires i < |acts| <= |ss|
    ensures MarkerLost(ss, acts, i, lane, request) ==> MarkerLost(ss, acts, i + 1, lane, request)
    ensures RefusesMarker(ss[i], acts[i], lane, request) || ExpiresBarrier(ss[i], acts[i], lane, request)
            ==> MarkerLost(ss, acts, i + 1, lane, request)
  {
  }

  /** Every marker that was read has its barrier pending, its reply on the way or
      its reply received, unless it was read while another barrier was pending or
      its barrier expired. */
  lemma {:induction false} MarkerFate(c: Config, ss: seq<Net>, acts: seq<Action>, i: nat, lane: nat, m: nat)
    requires IsRun(c, ss, acts) && i < |ss| && lane < |ss[i].lanes| == c.lanes + c.foreign
    requires m < |ss[i].lanes[lane].seen| && ss[i].lanes[lane].seen[m].kind.Barrier?
    ensures var r := ss[i].lanes[lane].seen[m].kind.request;
      MarkerAlive(ss[i].lanes[lane], r) || MarkerLost(ss, acts, i, lane, r)
  {
    if i == 0 {
    } else {
      var s, a := ss[i - 1], acts[i - 1];
      var r := ss[i].lanes[lane].seen[m].kind.request;
      assert Step(c, s, a, ss[i]);
      assert |s.lanes| == |ss[i].lanes| by {
        LanesGrowStep(c, s, a);
      }
      LaneStep(c, s, a, lane);
      LostStays(ss, acts, i - 1, lane, r);
      if m < |s.lanes[lane].seen| {
        MarkerFate(c, ss, acts, i - 1, lane, m);
        if MarkerAlive(s.lanes[lane], r) {
          MarkerStep(c, s, a, lane, r);
        }
      }
    }
  }

  // ------------------------------------------------------- what a barrier waits for

  /** The pending barrier waits for exactly the requests read before its marker. */
  ghost predicate BarrierPinned(l: Lane) {
    l.barrier.Some? ==> exists m: nat :: MarkerAt(l, m) && l.barrier.value.0 == Count(l.seen[..m])
  }

  /** The marker of the pending barrier is at position `m`. */
  predicate MarkerAt(l: Lane, m: nat) {
    l.barrier.Some? && m < |l.seen| && l.seen[m].kind == Barrier(l.barrier.value.1)
  }

  lemma PinnedStep(c: Config, s: Net, a: Action, lane: nat)
    requires Enabled(c, s, a) && lane < |s.lanes| && LaneOk(s.lanes[lane]) && BarrierPinned(s.lanes[lane])
    ensures lane < |Apply(c, s, a).lanes| && BarrierPinned(Apply(c, s, a).lanes[lane])
  {
    LaneStep(c, s, a, lane);
    var l, l' := s.lanes[lane], Apply(c, s, a).lanes[lane];
    if l'.barrier.Some? {
      if l.barrier.None? {
        assert l'.seen[..|l.seen|] == l.seen;
        assert MarkerAt(l', |l.seen|);
      } else {
        var m: nat :| MarkerAt(l, m) && l.barrier.value.0 == Count(l.seen[..m]);
        assert l'.seen[..m] == l.seen[..m];
        assert MarkerAt(l', m);
      }
    }
  }

  lemma {:induction false} PinnedRun(c: Config, ss: seq<Net>, acts: seq<Action>, i: nat, lane: nat)
    requires IsRun(c, ss, acts) && i < |ss| && c.lanes > 0 && lane < c.lanes + c.foreign
    ensures lane < |ss[i].lanes| && BarrierPinned(ss[i].lanes[lane])
  {
    if i == 0 {
    } else {
      PinnedRun(c, ss, acts, i - 1, lane);
      LaneFine(c, ss, acts, i - 1, lane);
      assert Step(c, ss[i - 1], acts[i - 1], ss[i]);
      PinnedStep(c, ss[i - 1], acts[i - 1], lane);
    }
  }

  lemma LaneFine(c: Config, ss: seq<Net>, acts: seq<Action>, i: nat, lane: nat)
    requires IsRun(c, ss, acts) && i < |ss| && c.lanes > 0 && lane < |ss[i].lanes|
    ensures LaneOk(ss[i].lanes[lane])
  {
    InvRun(c, ss, acts, i);
  }

  /** A marker is enqueued only once, so the pending barrier has one position. */
  lemma OneMarker(s: Net, lane: nat, m: nat, m': nat)
    requires EnqOk(s) && lane < |s.lanes| && LaneOk(s.lanes[lane])
    requires MarkerAt(s.lanes[lane], m) && MarkerAt(s.lanes[lane], m')
    ensures m == m'
  {
    var l := s.lanes[lane];
    assert l.enq[m] == l.seen[m] && l.enq[m'] == l.seen[m'];
  }

  /** In every run, a pending barrier can be answered if and only if every request
      read before its marker has been finished; on a quiet lane, at once. */
  lemma BarrierAnswerableIff(c: Config, ss: seq<Net>, acts: seq<Action>, i: nat, lane: nat, m: nat)
    requires IsRun(c, ss, acts) && i < |ss| && c.lanes > 0
    requires lane < |ss[i].lanes| && MarkerAt(ss[i].lanes[lane], m)
    ensures Enabled(c, ss[i], BarrierReplies(lane)) <==>
      forall q :: 1 <= q <= Count(ss[i].lanes[lane].seen[..m]) ==> q in ss[i].lanes[lane].decided
    ensures Enabled(c, ss[i], BarrierExpires(lane))
  {
    InvRun(c, ss, acts, i);
    PinnedRun(c, ss, acts, i, lane);
    var l := ss[i].lanes[lane];
    var m': nat :| MarkerAt(l, m') && l.barrier.value.0 == Count(l.seen[..m']);
    assert LaneOk(l);
    OneMarker(ss[i], lane, m, m');
    WatermarkExact(c, ss, acts, i, lane, Count(l.seen[..m]));
  }

  // --------------------------------------------------- what becomes of a request

  /** The shard has the job, queued or in its worker's hands. */
  predicate HasJob(sh: Shard, job: Job) {
    job in sh.queue || (!sh.worker.Idle? && sh.worker.job == job)
  }

  /** The job the request at position `m` of the lane was made into. */
  function JobOf(l: Lane, lane: nat, m: nat): Job
    requires m < |l.seen|
  {
    Job(lane, Count(l.seen[..m]) + 1, l.seen[m])
  }

  /** The request read at position `m` is finished, or some shard has its job. */
  ghost predicate RequestKept(s: Net, lane: nat, m: nat)
    requires lane < |s.lanes| && m < |s.lanes[lane].seen|
  {
    var l := s.lanes[lane];
    Count(l.seen[..m]) + 1 in l.decided || InShards(s.shards, JobOf(l, lane, m))
  }

  ghost predicate InShards(shards: seq<Shard>, job: Job) {
    exists k :: 0 <= k < |shards| && HasJob(shards[k], job)
  }

  /** A step keeps a job in its shard, or finishes it. */
  lemma JobStep(c: Config, s: Net, a: Action, k: nat, job: Job)
    requires Enabled(c, s, a) && k < |s.shards| && HasJob(s.shards[k], job) && job.lane < |s.lanes|
    ensures var s' := Apply(c, s, a);
      && |s'.shards| == |s.shards| && job.lane < |s'.lanes|
      && (HasJob(s'.shards[k], job) || job.sequence in s'.lanes[job.lane].decided)
  {
    var q := s.shards[k].queue;
    if q != [] {
      assert q == [q[0]] + q[1..];
    }
  }

  /** Reading a request queues its job or finishes its sequence. */
  lemma ReadKeeps(c: Config, s: Net, lane: nat)
    requires Enabled(c, s, Read(lane)) && Admissible(s.lanes[lane].wire[0]) && LaneOk(s.lanes[lane])
    ensures var s' := Apply(c, s, Read(lane));
      lane < |s'.lanes| && |s.lanes[lane].seen| < |s'.lanes[lane].seen| && RequestKept(s', lane, |s.lanes[lane].seen|)
  {
    var l, s' := s.lanes[lane], Apply(c, s, Read(lane));
    var n, f := |l.seen|, l.wire[0];
    assert s'.lanes[lane].seen[..n] == l.seen;
    if Accepts(c, s, f) {
      var k := f.target.value % |s.shards|;
      assert HasJob(s'.shards[k], JobOf(s'.lanes[lane], lane, n));
    }
  }

  /** A step keeps a request that was read. */
  lemma RequestStep(c: Config, s: Net, a: Action, lane: nat, m: nat)
    requires Enabled(c, s, a) && lane < |s.lanes| && m < |s.lanes[lane].seen| && RequestKept(s, lane, m)
    ensures var s' := Apply(c, s, a);
      lane < |s'.lanes| && m < |s'.lanes[lane].seen| && RequestKept(s', lane, m)
  {
    var s', job := Apply(c, s, a), JobOf(s.lanes[lane], lane, m);
    LaneStep(c, s, a, lane);
    DecidedGrows(c, s, a, lane);
    assert s'.lanes[lane].seen[..m] == s.lanes[lane].seen[..m];
    assert JobOf(s'.lanes[lane], lane, m) == job;
    if InShards(s.shards, job) {
      var k :| 0 <= k < |s.shards| && HasJob(s.shards[k], job);
      JobStep(c, s, a, k, job);
    }
  }

  lemma DecidedGrows(c: Config, s: Net, a: Action, lane: nat)
    requires Enabled(c, s, a) && lane < |s.lanes|
    ensures lane < |Apply(c, s, a).lanes| && s.lanes[lane].decided <= Apply(c, s, a).lanes[lane].decided
  {
  }

  /** A request that has been read was read before this step, or is read by it. */
  lemma RequestBefore(c: Config, s: Net, a: Action, lane: nat, m: nat)
    requires NetOk(c, s) && Enabled(c, s, a) && lane < |s.lanes|
    requires lane < |Apply(c, s, a).lanes| && m < |Apply(c, s, a).lanes[lane].seen|
    requires Admissible(Apply(c, s, a).lanes[lane].seen[m])
    ensures LaneOk(s.lanes[lane])
    ensures if m < |s.lanes[lane].seen| then Admissible(s.lanes[lane].seen[m])
            else a == Read(lane) && m == |s.lanes[lane].seen| && Admissible(s.lanes[lane].wire[0])
  {
    LaneStep(c, s, a, lane);
  }

  /** In every run, no request that was read is lost: its sequence is finished, or
      its job is in a shard. */
  lemma {:induction false} RequestsKept(c: Config, ss: seq<Net>, acts: seq<Action>, i: nat, lane: nat, m: nat)
    requires IsRun(c, ss, acts) && i < |ss| && c.lanes > 0 && lane < |ss[i].lanes| == c.lanes + c.foreign
    requires m < |ss[i].lanes[lane].seen| && ss[i].lanes[lane].seen[m].kind in {Call, Send}
    ensures RequestKept(ss[i], lane, m)
  {
    if i == 0 {
    } else {
      InvRun(c, ss, acts, i - 1);
      assert Step(c, ss[i - 1], acts[i - 1], ss[i]);
      RequestBefore(c, ss[i - 1], acts[i - 1], lane, m);
      if m < |ss[i - 1].lanes[lane].seen| {
        RequestsKept(c, ss, acts, i - 1, lane, m);
        RequestStep(c, ss[i - 1], acts[i - 1], lane, m);
      } else {
        ReadKeeps(c, ss[i - 1], lane);
      }
    }
  }

  // ------------------------------------------------------------- never stuck

  lemma {:induction false} RequestWithSequence(seen: seq<Frame>, q: nat) returns (m: nat)
    requires 1 <= q <= Count(seen)
    ensures m < |seen| && Admissible(seen[m]) && Count(seen[..m]) + 1 == q
  {
    var n := |seen| - 1;
    if q == Count(seen) && Admissible(seen[n]) {
      m := n;
    } else {
      m := RequestWithSequence(seen[..n], q);
      assert seen[..n][..m] == seen[..m];
    }
  }

  /** A shard with a job can always go on with one. */
  predicate ShardCanGo(c: Config, s: Net, k: nat) {
    Enabled(c, s, Take(k)) || Enabled(c, s, Free(k)) || Enabled(c, s, Decide(k, false)) || Enabled(c, s, Finish(k))
  }

  /** In every run, a pending barrier is never stuck: it can be answered, or some
      shard that holds a request it waits for can go on. */
  lemma BarrierNeverStuck(c: Config, ss: seq<Net>, acts: seq<Action>, i: nat, lane: nat, m: nat)
    requires IsRun(c, ss, acts) && i < |ss| && c.lanes > 0
    requires lane < |ss[i].lanes| && MarkerAt(ss[i].lanes[lane], m)
    ensures Enabled(c, ss[i], BarrierReplies(lane)) || exists k: nat :: ShardCanGo(c, ss[i], k)
  {
    var l := ss[i].lanes[lane];
    BarrierAnswerableIff(c, ss, acts, i, lane, m);
    InvRun(c, ss, acts, i);
    if !Enabled(c, ss[i], BarrierReplies(lane)) {
      var q :| 1 <= q <= Count(l.seen[..m]) && q !in l.decided;
      var n := RequestWithSequence(l.seen[..m], q);
      assert l.seen[..m][..n] == l.seen[..n];
      RequestsKept(c, ss, acts, i, lane, n);
      JobGoesOn(c, ss[i], JobOf(l, lane, n));
    }
  }

  lemma JobGoesOn(c: Config, s: Net, job: Job)
    requires NetOk(c, s) && InShards(s.shards, job)
    ensures exists k: nat :: ShardCanGo(c, s, k)
  {
    var k :| 0 <= k < |s.shards| && HasJob(s.shards[k], job);
    assert ShardOk(s, k);
    if !s.shards[k].worker.Idle? {
      assert JobAt(s, k, s.shards[k].worker.job);
    }
    assert ShardCanGo(c, s, k);
  }
}
