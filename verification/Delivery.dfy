/**
 Delivery from one sending node to one receiving node over its lanes
 (connections), up to mailbox admission: per lane a bounded send queue, a FIFO
 wire and a read loop; at the receiver shared shards, each with a queue and one
 worker; per lane an admission watermark and at most one pending barrier.
 Connections of other senders share the receiver's shards and slots; they are
 further lanes, on which anything may be enqueued.

 Frames the sender never gets onto the wire, or that are lost with a broken
 connection, are frames no later step moves.  Heartbeats, cancels and replies
 use the control queue and carry nothing to admit, so they are not on the wire
 of this model; the effect of a cancel is that a worker may refuse its frame.
 */
module Delivery {
  import opened Basics
  import opened Admission

  datatype Kind = Call | Send | Barrier(request: nat) | Resolve

  /** The `n`-th frame enqueued on its lane. */
  datatype Frame = Frame(n: nat, kind: Kind, target: Option<nat>)

  datatype Reply = Pong(request: nat) | Busy(request: nat)

  /** `enq` are the frames enqueued and `seen` those read, both in order;
      `decided` the admission sequences finished, `fate` the positions of the
      frames whose admission has been decided; `pongs` the barrier replies
      the sender has received. */
  datatype Lane = Lane(
    enq: seq<Frame>, send: seq<Frame>, wire: seq<Frame>, seen: seq<Frame>,
    next: nat, done: nat, decided: set<nat>, fate: set<nat>,
    barrier: Option<(nat, nat)>, back: seq<Reply>, pongs: set<nat>)

  datatype Job = Job(lane: nat, sequence: nat, frame: Frame)

  /** A shard's worker: it takes a job, frees the job's slot, decides its admission, and finishes its sequence. */
  datatype Worker = Idle | Taken(job: Job) | Working(job: Job) | Decided(job: Job)

  datatype Shard = Shard(queue: seq<Job>, worker: Worker)

  /** FlushOutgoing: the lane it has reached and the request it waits for. */
  datatype Flush = NotFlushing | Flushing(lane: nat) | Awaiting(lane: nat, request: nat) | Flushed

  /** The first `own` lanes are the sender's, the others other senders' connections.
      `mailbox` lists the admissions in the order the mailboxes accepted them;
      `before` the length of each lane's `enq` when the flush began. */
  datatype Net = Net(
    own: nat, lanes: seq<Lane>, shards: seq<Shard>, slots: nat, mailbox: seq<Job>,
    requests: nat, flush: Flush, before: seq<nat>)

  /** `lanes` are the sender's own, `foreign` the other connections of the receiver. */
  datatype Config = Config(lanes: nat, foreign: nat, shards: nat, sendQueue: nat, inboundQueue: nat)

  const EMPTY_LANE := Lane([], [], [], [], 0, 0, {}, {}, None, [], {})

  function Init(c: Config): Net {
    Net(c.lanes, seq(c.lanes + c.foreign, _ => EMPTY_LANE), seq(c.shards, _ => Shard([], Idle)),
        0, [], 0, NotFlushing, [])
  }

  predicate Admissible(f: Frame) {
    f.kind.Call? || f.kind.Send?
  }

  function Count(fs: seq<Frame>): nat {
    if fs == [] then 0 else Count(fs[..|fs| - 1]) + (if Admissible(fs[|fs| - 1]) then 1 else 0)
  }

  function FinishAdmission(l: Lane, sequence: nat): Lane {
    var decided := l.decided + {sequence};
    l.(decided := decided, done := Advance(l.done, decided))
  }

  datatype Action =
    | Enqueue(lane: nat, kind: Kind, target: Option<nat>)
    | Write(lane: nat)
    | Read(lane: nat)
    | Take(shard: nat)
    | Free(shard: nat)
    | Decide(shard: nat, admitted: bool)
    | Finish(shard: nat)
    | BarrierReplies(lane: nat)
    | BarrierExpires(lane: nat)
    | ReplyArrives(lane: nat)
    | FlushBegins
    | FlushMarks
    | FlushAnswered
    | FlushFails

  predicate Enabled(c: Config, s: Net, a: Action) {
    match a
    case Enqueue(i, kind, target) =>
      && i < |s.lanes| && |s.lanes[i].send| < c.sendQueue
      && (kind.Barrier? ==> kind.request == s.requests)
      && (target.Some? && i < s.own ==> i == target.value % s.own)
    case Write(i) => i < |s.lanes| && s.lanes[i].send != []
    case Read(i) => i < |s.lanes| && s.lanes[i].wire != []
    case Take(k) => k < |s.shards| && s.shards[k].queue != [] && s.shards[k].worker.Idle?
    case Free(k) => k < |s.shards| && s.shards[k].worker.Taken?
    case Decide(k, _) => k < |s.shards| && s.shards[k].worker.Working?
    case Finish(k) => k < |s.shards| && s.shards[k].worker.Decided? && s.shards[k].worker.job.lane < |s.lanes|
    case BarrierReplies(i) => i < |s.lanes| && s.lanes[i].barrier.Some? && s.lanes[i].done >= s.lanes[i].barrier.value.0
    case BarrierExpires(i) => i < |s.lanes| && s.lanes[i].barrier.Some?
    case ReplyArrives(i) => i < |s.lanes| && s.lanes[i].back != []
    case FlushBegins => s.flush.NotFlushing? || s.flush.Flushed?
    case FlushMarks =>
      && s.flush.Flushing? && s.flush.lane < |s.lanes| && s.flush.lane < s.own
      && |s.lanes[s.flush.lane].send| < c.sendQueue
    case FlushAnswered =>
      s.flush.Awaiting? && s.flush.lane < |s.lanes| && s.flush.request in s.lanes[s.flush.lane].pongs
    case FlushFails => s.flush.Flushing? || s.flush.Awaiting?
  }

  function Push(l: Lane, kind: Kind, target: Option<nat>): Lane {
    var f := Frame(|l.enq|, kind, target);
    l.(enq := l.enq + [f], send := l.send + [f])
  }

  /** submit: the shard that takes the frame, if a slot and its queue have room. */
  predicate Accepts(c: Config, s: Net, f: Frame) {
    && f.target.Some? && |s.shards| > 0 && s.slots < c.inboundQueue
    && |s.shards[f.target.value % |s.shards|].queue| < c.inboundQueue
  }

  /** A frame with nothing to admit is read: a marker starts a barrier at the
      current sequence, or is refused while another is pending. */
  function SeeMarker(l: Lane): Lane
    requires l.wire != []
  {
    var f := l.wire[0];
    var l1 := l.(wire := l.wire[1..], seen := l.seen + [f]);
    if !f.kind.Barrier? then l1
    else if l.barrier.Some? then l1.(back := l.back + [Busy(f.kind.request)])
    else l1.(barrier := Some((l.next, f.kind.request)))
  }

  /** A frame to admit is read and given the next sequence. */
  function SeeRequest(l: Lane): Lane
    requires l.wire != []
  {
    l.(wire := l.wire[1..], seen := l.seen + [l.wire[0]], next := l.next + 1)
  }

  function ReadFrame(c: Config, s: Net, i: nat): Net
    requires i < |s.lanes| && s.lanes[i].wire != []
  {
    var f := s.lanes[i].wire[0];
    if !Admissible(f) then s.(lanes := s.lanes[i := SeeMarker(s.lanes[i])])
    else
      var l := SeeRequest(s.lanes[i]);
      if Accepts(c, s, f) then
        var k := f.target.value % |s.shards|;
        s.(lanes := s.lanes[i := l], slots := s.slots + 1,
           shards := s.shards[k := s.shards[k].(queue := s.shards[k].queue + [Job(i, l.next, f)])])
      else
        s.(lanes := s.lanes[i := FinishAdmission(l.(fate := l.fate + {f.n}), l.next)])
  }

  function DecideJob(s: Net, k: nat, admitted: bool): Net
    requires k < |s.shards| && s.shards[k].worker.Working?
  {
    var job := s.shards[k].worker.job;
    s.(shards := s.shards[k := s.shards[k].(worker := Decided(job))],
       mailbox := if admitted then s.mailbox + [job] else s.mailbox,
       lanes := if job.lane >= |s.lanes| then s.lanes
                else s.lanes[job.lane := s.lanes[job.lane].(fate := s.lanes[job.lane].fate + {job.frame.n})])
  }

  function Apply(c: Config, s: Net, a: Action): Net
    requires Enabled(c, s, a)
  {
    match a
    case Enqueue(i, kind, target) =>
      s.(lanes := s.lanes[i := Push(s.lanes[i], kind, target)],
         requests := if kind.Barrier? then s.requests + 1 else s.requests)
    case Write(i) =>
      var l := s.lanes[i];
      s.(lanes := s.lanes[i := l.(send := l.send[1..], wire := l.wire + [l.send[0]])])
    case Read(i) => ReadFrame(c, s, i)
    case Take(k) =>
      var sh := s.shards[k];
      s.(shards := s.shards[k := Shard(sh.queue[1..], Taken(sh.queue[0]))])
    case Free(k) =>
      s.(shards := s.shards[k := s.shards[k].(worker := Working(s.shards[k].worker.job))],
         slots := if s.slots > 0 then s.slots - 1 else 0)
    case Decide(k, admitted) => DecideJob(s, k, admitted)
    case Finish(k) =>
      var job := s.shards[k].worker.job;
      s.(shards := s.shards[k := s.shards[k].(worker := Idle)],
         lanes := s.lanes[job.lane := FinishAdmission(s.lanes[job.lane], job.sequence)])
    case BarrierReplies(i) =>
      var l := s.lanes[i];
      s.(lanes := s.lanes[i := l.(barrier := None, back := l.back + [Pong(l.barrier.value.1)])])
    case BarrierExpires(i) => s.(lanes := s.lanes[i := s.lanes[i].(barrier := None)])
    case ReplyArrives(i) =>
      var l := s.lanes[i];
      s.(lanes := s.lanes[i := l.(back := l.back[1..],
                                  pongs := if l.back[0].Pong? then l.pongs + {l.back[0].request} else l.pongs)])
    case FlushBegins =>
      s.(flush := Flushing(0), before := seq(|s.lanes|, i requires 0 <= i < |s.lanes| => |s.lanes[i].enq|))
    case FlushMarks =>
      var i := s.flush.lane;
      s.(lanes := s.lanes[i := Push(s.lanes[i], Barrier(s.requests), None)],
         requests := s.requests + 1, flush := Awaiting(i, s.requests))
    case FlushAnswered =>
      s.(flush := if s.flush.lane + 1 == s.own then Flushed else Flushing(s.flush.lane + 1))
    case FlushFails => s.(flush := NotFlushing)
  }

  ghost predicate Step(c: Config, s: Net, a: Action, s': Net) {
    Enabled(c, s, a) && s' == Apply(c, s, a)
  }

  ghost predicate IsRun(c: Config, ss: seq<Net>, acts: seq<Action>) {
    && |ss| == |acts| + 1 && ss[0] == Init(c)
    && forall i :: 0 <= i < |acts| ==> Step(c, ss[i], acts[i], ss[i + 1])
  }

  /** A run goes on with any step its last state allows. */
  lemma RunMore(c: Config, ss: seq<Net>, acts: seq<Action>, a: Action, s': Net)
    requires IsRun(c, ss, acts) && Step(c, ss[|acts|], a, s')
    ensures IsRun(c, ss + [s'], acts + [a])
  {
    var ss', acts' := ss + [s'], acts + [a];
    forall i | 0 <= i < |acts'| ensures Step(c, ss'[i], acts'[i], ss'[i + 1]) {
      assert i < |acts| ==> Step(c, ss[i], acts[i], ss[i + 1]);
    }
  }

  // ------------------------------------------------------------ lane invariant

  /** The marker for `request` has been read, with at most `q` admissions before it. */
  ghost predicate Marked(seen: seq<Frame>, request: nat, q: nat) {
    exists m :: 0 <= m < |seen| && seen[m].kind == Barrier(request) && Count(seen[..m]) <= q
  }

  /** Nothing is lost or reordered between the sender's queue and the read loop. */
  ghost predicate FifoOk(enq: seq<Frame>, seen: seq<Frame>, wire: seq<Frame>, send: seq<Frame>) {
    && enq == seen + wire + send
    && forall m :: 0 <= m < |enq| ==> enq[m].n == m
  }

  /** Sequences number the requests read, and a finished one has a known fate. */
  ghost predicate CountersOk(seen: seq<Frame>, next: nat, done: nat, decided: set<nat>, fate: set<nat>) {
    && next == Count(seen)
    && IsWatermark(done, decided)
    && (forall k :: k in decided ==> 1 <= k <= next)
    && (forall m :: 0 <= m < |seen| && Admissible(seen[m]) && Count(seen[..m]) + 1 in decided ==> m in fate)
  }

  /** Every barrier, and every reply sent for one, stands at or below the watermark it needs. */
  ghost predicate RepliesOk(
    seen: seq<Frame>, done: nat, barrier: Option<(nat, nat)>, back: seq<Reply>, pongs: set<nat>)
  {
    && (barrier.Some? ==> Marked(seen, barrier.value.1, barrier.value.0))
    && (forall j :: 0 <= j < |back| && back[j].Pong? ==> Marked(seen, back[j].request, done))
    && (forall r :: r in pongs ==> Marked(seen, r, done))
  }

  ghost predicate LaneOk(l: Lane) {
    && FifoOk(l.enq, l.seen, l.wire, l.send)
    && CountersOk(l.seen, l.next, l.done, l.decided, l.fate)
    && RepliesOk(l.seen, l.done, l.barrier, l.back, l.pongs)
  }

  lemma {:induction false} CountMonotone(fs: seq<Frame>, m: nat, m': nat)
    requires m < m' <= |fs|
    ensures Count(fs[..m]) + (if Admissible(fs[m]) then 1 else 0) <= Count(fs[..m'])
  {
    assert fs[..m'][..m' - 1] == fs[..m' - 1];
    if m + 1 == m' {
    } else {
      CountMonotone(fs, m, m' - 1);
    }
  }

  lemma CountAppend(fs: seq<Frame>, f: Frame)
    ensures Count(fs + [f]) == Count(fs) + (if Admissible(f) then 1 else 0)
    ensures forall m :: 0 <= m <= |fs| ==> (fs + [f])[..m] == fs[..m]
  {
    assert (fs + [f])[..|fs|] == fs;
  }

  lemma MarkedKept(seen: seq<Frame>, f: Frame, request: nat, q: nat, q': nat)
    requires Marked(seen, request, q) && q <= q'
    ensures Marked(seen, request, q') && Marked(seen + [f], request, q')
  {
    var m :| 0 <= m < |seen| && seen[m].kind == Barrier(request) && Count(seen[..m]) <= q;
    assert (seen + [f])[..m] == seen[..m];
  }

  lemma RepliesKept(l: Lane, seen': seq<Frame>, done': nat)
    requires RepliesOk(l.seen, l.done, l.barrier, l.back, l.pongs) && l.done <= done'
    requires seen' == l.seen || exists f :: seen' == l.seen + [f]
    ensures RepliesOk(seen', done', l.barrier, l.back, l.pongs)
  {
    forall r: nat, q: nat, q': nat | Marked(l.seen, r, q) && q <= q' ensures Marked(seen', r, q') {
      var f :| seen' == l.seen || seen' == l.seen + [f];
      MarkedKept(l.seen, f, r, q, q');
    }
  }

  /** Finishing the sequence of a frame whose fate is known keeps the lane in order. */
  lemma LaneFinish(l: Lane, sequence: nat, n: nat)
    requires LaneOk(l) && n < |l.seen| && Admissible(l.seen[n]) && n in l.fate
    requires sequence == Count(l.seen[..n]) + 1 <= l.next
    ensures LaneOk(FinishAdmission(l, sequence))
  {
    var l' := FinishAdmission(l, sequence);
    forall m | 0 <= m < |l.seen| && Admissible(l.seen[m]) && Count(l.seen[..m]) + 1 in l'.decided
      ensures m in l.fate
    {
      if m < n {
        CountMonotone(l.seen, m, n);
      } else if n < m {
        CountMonotone(l.seen, n, m);
      }
    }
    forall i | 1 <= i <= l'.done ensures i in l'.decided {
      assert i <= l.done ==> i in l.decided;
    }
    RepliesKept(l, l.seen, l'.done);
  }

  /** The counters after the read loop has taken one more frame. */
  lemma {:induction false} CountersSee(l: Lane, f: Frame)
    requires CountersOk(l.seen, l.next, l.done, l.decided, l.fate)
    ensures CountersOk(l.seen + [f], l.next + if Admissible(f) then 1 else 0, l.done, l.decided, l.fate)
  {
    var seen' := l.seen + [f];
    CountAppend(l.seen, f);
    assert seen'[..|l.seen|] == l.seen;
    forall m | 0 <= m < |seen'| && Admissible(seen'[m]) && Count(seen'[..m]) + 1 in l.decided ensures m in l.fate {
      assert m < |l.seen| && seen'[..m] == l.seen[..m] && seen'[m] == l.seen[m];
    }
  }

  /** The lane after its read loop has taken one frame off the wire. */
  lemma LaneSees(l: Lane)
    requires LaneOk(l) && l.wire != []
    ensures var f, n := l.wire[0], |l.seen|;
      var l' := l.(wire := l.wire[1..], seen := l.seen + [f], next := l.next + if Admissible(f) then 1 else 0);
      LaneOk(l') && f.n == n && l'.seen[n] == f && Count(l'.seen[..n]) == l.next
  {
    var f, n := l.wire[0], |l.seen|;
    var seen' := l.seen + [f];
    CountersSee(l, f);
    RepliesKept(l, seen', l.done);
    assert l.enq[n] == f;
    assert l.wire == [f] + l.wire[1..];
    assert l.enq == seen' + l.wire[1..] + l.send;
    assert seen'[..n] == l.seen;
  }

  // ----------------------------------------------------------- shard invariant

  /** The job stands for a frame its lane has read and not yet finished. */
  ghost predicate JobIn(l: Lane, job: Job) {
    && job.frame.n < |l.seen| && l.seen[job.frame.n] == job.frame && Admissible(job.frame)
    && job.sequence == Count(l.seen[..job.frame.n]) + 1 && job.sequence !in l.decided
  }

  /** The job is where its target sends it. */
  ghost predicate JobAt(s: Net, k: nat, job: Job) {
    && job.lane < |s.lanes| && |s.shards| > 0
    && job.frame.target.Some? && job.frame.target.value % |s.shards| == k
    && JobIn(s.lanes[job.lane], job)
  }

  ghost predicate Before(a: Job, b: Job) {
    a.lane == b.lane ==> a.frame.n < b.frame.n
  }

  ghost predicate ShardOk(s: Net, k: nat)
    requires k < |s.shards|
  {
    var q, w := s.shards[k].queue, s.shards[k].worker;
    && (forall j :: 0 <= j < |q| ==> JobAt(s, k, q[j]))
    && (forall i, j :: 0 <= i < j < |q| ==> Before(q[i], q[j]))
    && (!w.Idle? ==> JobAt(s, k, w.job) && forall j :: 0 <= j < |q| ==> Before(w.job, q[j]))
    && (w.Decided? ==> w.job.frame.n in s.lanes[w.job.lane].fate)
  }

  /** What shard `k` has put into mailboxes comes before what it still holds. */
  ghost predicate MailAhead(s: Net, k: nat)
    requires k < |s.shards|
  {
    var q, w := s.shards[k].queue, s.shards[k].worker;
    forall e :: 0 <= e < |s.mailbox| && ToShard(s, s.mailbox[e], k) ==>
      && (forall j :: 0 <= j < |q| ==> Before(s.mailbox[e], q[j]))
      && (w.Taken? || w.Working? ==> Before(s.mailbox[e], w.job))
  }

  ghost predicate ToShard(s: Net, job: Job, k: nat) {
    |s.shards| > 0 && job.frame.target.Some? && job.frame.target.value % |s.shards| == k
  }

  ghost predicate MailOrdered(s: Net) {
    && (forall e, e', k :: 0 <= e < e' < |s.mailbox| && ToShard(s, s.mailbox[e], k) && ToShard(s, s.mailbox[e'], k) ==>
          Before(s.mailbox[e], s.mailbox[e']))
    && (forall e :: 0 <= e < |s.mailbox| ==> MailIn(s, s.mailbox[e]))
  }

  ghost predicate MailIn(s: Net, job: Job) {
    && job.lane < |s.lanes| && |s.shards| > 0 && job.frame.target.Some?
    && job.frame.n < |s.lanes[job.lane].seen| && s.lanes[job.lane].seen[job.frame.n] == job.frame
  }

  ghost predicate NetOk(c: Config, s: Net) {
    && s.own == c.lanes && |s.lanes| == c.lanes + c.foreign && |s.shards| == c.shards
    && (forall i :: 0 <= i < |s.lanes| ==> LaneOk(s.lanes[i]))
    && (forall k :: 0 <= k < |s.shards| ==> ShardOk(s, k) && MailAhead(s, k))
    && MailOrdered(s)
  }

  /** A job survives whatever its lane does except finishing its own sequence. */
  lemma JobKept(l: Lane, l': Lane, job: Job, x: nat)
    requires JobIn(l, job) && l.seen <= l'.seen && l'.decided <= l.decided + {x} && x != job.sequence
    ensures JobIn(l', job)
  {
    assert l'.seen[..job.frame.n] == l.seen[..job.frame.n];
  }

  /** Two different frames of one lane have different sequences. */
  lemma SequencesDiffer(l: Lane, a: Job, b: Job)
    requires JobIn(l, a) && JobIn(l, b) && a.frame.n != b.frame.n
    ensures a.sequence != b.sequence
  {
    if a.frame.n < b.frame.n {
      CountMonotone(l.seen, a.frame.n, b.frame.n);
    } else {
      CountMonotone(l.seen, b.frame.n, a.frame.n);
    }
  }

  /** Only lane `i` moved on, finishing at most sequence `x`, and no job has it. */
  ghost predicate LaneMoved(s: Net, s': Net, i: nat, x: nat) {
    && i < |s.lanes| == |s'.lanes| && |s.shards| == |s'.shards| && s.own == s'.own
    && (forall j :: 0 <= j < |s.lanes| && j != i ==> s'.lanes[j] == s.lanes[j])
    && s.lanes[i].seen <= s'.lanes[i].seen && s'.lanes[i].decided <= s.lanes[i].decided + {x}
    && s.lanes[i].fate <= s'.lanes[i].fate
  }

  lemma JobAtKept(s: Net, s': Net, i: nat, x: nat, k: nat, job: Job)
    requires LaneMoved(s, s', i, x) && JobAt(s, k, job) && (job.lane == i ==> job.sequence != x)
    ensures JobAt(s', k, job)
  {
    if job.lane == i {
      JobKept(s.lanes[i], s'.lanes[i], job, x);
    }
  }

  /** Nothing but a lane moved: shards and mailboxes stay in order. */
  lemma LaneOnly(c: Config, s: Net, s': Net, i: nat, x: nat)
    requires NetOk(c, s) && LaneMoved(s, s', i, x) && LaneOk(s'.lanes[i])
    requires s'.shards == s.shards && s'.mailbox == s.mailbox
    requires forall job :: JobIn(s.lanes[i], job) ==> job.sequence != x
    ensures NetOk(c, s')
  {
    forall k | 0 <= k < |s.shards| ensures ShardOk(s', k) && MailAhead(s', k) {
      assert ShardOk(s, k) && MailAhead(s, k);
      var q, w := s.shards[k].queue, s.shards[k].worker;
      forall j | 0 <= j < |q| ensures JobAt(s', k, q[j]) {
        JobAtKept(s, s', i, x, k, q[j]);
      }
      if !w.Idle? {
        JobAtKept(s, s', i, x, k, w.job);
      }
      forall e | 0 <= e < |s'.mailbox| && ToShard(s', s'.mailbox[e], k) ensures ToShard(s, s.mailbox[e], k) {
      }
    }
    forall e | 0 <= e < |s'.mailbox| ensures MailIn(s', s'.mailbox[e]) {
      assert MailIn(s, s.mailbox[e]);
    }
    forall e, e', k | 0 <= e < e' < |s'.mailbox| && ToShard(s', s'.mailbox[e], k) && ToShard(s', s'.mailbox[e'], k)
      ensures Before(s'.mailbox[e], s'.mailbox[e'])
    {
      assert ToShard(s, s.mailbox[e], k) && ToShard(s, s.mailbox[e'], k);
    }
  }

  /** Only shard `k` changed, and mailboxes did not. */
  lemma ShardOnly(c: Config, s: Net, s': Net, k: nat)
    requires NetOk(c, s) && k < |s.shards| == |s'.shards| && s'.own == s.own
    requires s'.lanes == s.lanes && s'.mailbox == s.mailbox
    requires forall j :: 0 <= j < |s.shards| && j != k ==> s'.shards[j] == s.shards[j]
    requires ShardOk(s', k) && MailAhead(s', k)
    ensures NetOk(c, s')
  {
    forall j | 0 <= j < |s.shards| && j != k ensures ShardOk(s', j) && MailAhead(s', j) {
      assert ShardOk(s, j) && MailAhead(s, j);
      var q, w := s.shards[j].queue, s.shards[j].worker;
      forall i | 0 <= i < |q| ensures JobAt(s', j, q[i]) {
        assert JobAt(s, j, q[i]);
      }
      assert !w.Idle? ==> JobAt(s, j, w.job);
      forall e | 0 <= e < |s'.mailbox| && ToShard(s', s'.mailbox[e], j) ensures ToShard(s, s.mailbox[e], j) {
      }
    }
    forall e | 0 <= e < |s'.mailbox| ensures MailIn(s', s'.mailbox[e]) {
      assert MailIn(s, s.mailbox[e]);
    }
    forall e, e', j | 0 <= e < e' < |s'.mailbox| && ToShard(s', s'.mailbox[e], j) && ToShard(s', s'.mailbox[e'], j)
      ensures Before(s'.mailbox[e], s'.mailbox[e'])
    {
      assert ToShard(s, s.mailbox[e], j) && ToShard(s, s.mailbox[e'], j);
    }
  }

  /** A freshly read frame joins the end of its shard's queue. */
  lemma QueueGrows(c: Config, s: Net, s': Net, k: nat, job: Job)
    requires NetOk(c, s) && k < |s.shards| && JobAt(s, k, job)
    requires s' == s.(shards := s.shards[k := s.shards[k].(queue := s.shards[k].queue + [job])], slots := s'.slots)
    requires forall j :: 0 <= j < |s.shards[k].queue| ==> Before(s.shards[k].queue[j], job)
    requires !s.shards[k].worker.Idle? ==> Before(s.shards[k].worker.job, job)
    requires forall e :: 0 <= e < |s.mailbox| ==> Before(s.mailbox[e], job)
    ensures NetOk(c, s')
  {
    assert ShardOk(s, k) && MailAhead(s, k);
    var q, q', w := s.shards[k].queue, s'.shards[k].queue, s.shards[k].worker;
    forall j | 0 <= j < |q'| ensures JobAt(s', k, q'[j]) {
      assert j < |q| ==> JobAt(s, k, q[j]);
    }
    forall e | 0 <= e < |s'.mailbox| && ToShard(s', s'.mailbox[e], k) ensures ToShard(s, s.mailbox[e], k) {
    }
    assert !w.Idle? ==> JobAt(s', k, w.job);
    ShardOnly(c, s, s', k);
  }

  lemma SequencesInRange(l: Lane, job: Job)
    requires LaneOk(l) && JobIn(l, job)
    ensures 0 < job.sequence <= l.next
  {
    CountMonotone(l.seen, job.frame.n, |l.seen|);
    assert l.seen[..|l.seen|] == l.seen;
  }

  lemma LaneMarker(l: Lane)
    requires LaneOk(l) && l.wire != [] && !Admissible(l.wire[0])
    ensures LaneOk(SeeMarker(l))
  {
    var f, n := l.wire[0], |l.seen|;
    LaneSees(l);
    var l1 := l.(wire := l.wire[1..], seen := l.seen + [f]);
    assert f.kind.Barrier? ==> Marked(l1.seen, f.kind.request, l1.next) by {
      assert l1.seen[n] == f;
    }
  }

  lemma NetReadMarker(c: Config, s: Net, i: nat)
    requires NetOk(c, s) && Enabled(c, s, Read(i)) && !Admissible(s.lanes[i].wire[0])
    ensures NetOk(c, ReadFrame(c, s, i))
  {
    LaneMarker(s.lanes[i]);
    LaneOnly(c, s, ReadFrame(c, s, i), i, 0);
  }

  lemma NetReadRejected(c: Config, s: Net, i: nat)
    requires NetOk(c, s) && Enabled(c, s, Read(i))
    requires Admissible(s.lanes[i].wire[0]) && !Accepts(c, s, s.lanes[i].wire[0])
    ensures NetOk(c, ReadFrame(c, s, i))
  {
    var l := s.lanes[i];
    var f, n := l.wire[0], |l.seen|;
    LaneSees(l);
    var l1 := SeeRequest(l);
    var l2 := l1.(fate := l1.fate + {f.n});
    assert LaneOk(l2);
    LaneFinish(l2, l1.next, n);
    forall job | JobIn(l, job) ensures job.sequence != l1.next {
      SequencesInRange(l, job);
    }
    LaneOnly(c, s, ReadFrame(c, s, i), i, l1.next);
  }

  lemma NetReadAccepted(c: Config, s: Net, i: nat)
    requires NetOk(c, s) && Enabled(c, s, Read(i))
    requires Admissible(s.lanes[i].wire[0]) && Accepts(c, s, s.lanes[i].wire[0])
    ensures NetOk(c, ReadFrame(c, s, i))
  {
    var l := s.lanes[i];
    var f := l.wire[0];
    LaneSees(l);
    var l1 := SeeRequest(l);
    var s1 := s.(lanes := s.lanes[i := l1]);
    LaneOnly(c, s, s1, i, 0);
    var k, job := f.target.value % |s.shards|, Job(i, l1.next, f);
    assert ShardOk(s, k);
    forall j | 0 <= j < |s.shards[k].queue| ensures Before(s.shards[k].queue[j], job) {
      assert JobAt(s, k, s.shards[k].queue[j]);
    }
    if !s.shards[k].worker.Idle? {
      assert JobAt(s, k, s.shards[k].worker.job);
    }
    forall e | 0 <= e < |s.mailbox| ensures Before(s.mailbox[e], job) {
      assert MailIn(s, s.mailbox[e]);
    }
    QueueGrows(c, s1, ReadFrame(c, s, i), k, job);
  }

  lemma NetTake(c: Config, s: Net, k: nat)
    requires NetOk(c, s) && Enabled(c, s, Take(k))
    ensures NetOk(c, Apply(c, s, Take(k)))
  {
    var s' := Apply(c, s, Take(k));
    assert ShardOk(s, k) && MailAhead(s, k);
    var q, q' := s.shards[k].queue, s'.shards[k].queue;
    assert forall j :: 0 <= j < |q'| ==> q'[j] == q[j + 1];
    forall j | 0 <= j < |q'| ensures JobAt(s', k, q'[j]) {
      assert JobAt(s, k, q[j + 1]);
    }
    assert JobAt(s, k, q[0]);
    forall e | 0 <= e < |s'.mailbox| && ToShard(s', s'.mailbox[e], k) ensures ToShard(s, s.mailbox[e], k) {
    }
    ShardOnly(c, s, s', k);
  }

  lemma NetFree(c: Config, s: Net, k: nat)
    requires NetOk(c, s) && Enabled(c, s, Free(k))
    ensures NetOk(c, Apply(c, s, Free(k)))
  {
    var s' := Apply(c, s, Free(k));
    assert ShardOk(s, k) && MailAhead(s, k);
    forall j | 0 <= j < |s'.shards[k].queue| ensures JobAt(s', k, s'.shards[k].queue[j]) {
      assert JobAt(s, k, s.shards[k].queue[j]);
    }
    assert JobAt(s, k, s.shards[k].worker.job);
    forall e | 0 <= e < |s'.mailbox| && ToShard(s', s'.mailbox[e], k) ensures ToShard(s, s.mailbox[e], k) {
    }
    ShardOnly(c, s, s', k);
  }

  lemma {:induction false} NetDecide(c: Config, s: Net, k: nat, admitted: bool)
    requires NetOk(c, s) && Enabled(c, s, Decide(k, admitted))
    ensures NetOk(c, DecideJob(s, k, admitted))
  {
    assert ShardOk(s, k) && MailAhead(s, k);
    var job := s.shards[k].worker.job;
    assert JobAt(s, k, job);
    var l := s.lanes[job.lane];
    var s1 := s.(lanes := s.lanes[job.lane := l.(fate := l.fate + {job.frame.n})]);
    LaneOnly(c, s, s1, job.lane, 0);
    WorkerDecides(c, s1, k);
    if admitted {
      MailGrows(c, s1, s1.(shards := s.shards[k := s.shards[k].(worker := Decided(job))]), k);
    }
  }

  lemma WorkerDecides(c: Config, s: Net, k: nat)
    requires NetOk(c, s) && k < |s.shards| && s.shards[k].worker.Working?
    requires var job := s.shards[k].worker.job; job.lane < |s.lanes| && job.frame.n in s.lanes[job.lane].fate
    ensures NetOk(c, s.(shards := s.shards[k := s.shards[k].(worker := Decided(s.shards[k].worker.job))]))
  {
    assert ShardOk(s, k) && MailAhead(s, k);
    var s2 := s.(shards := s.shards[k := s.shards[k].(worker := Decided(s.shards[k].worker.job))]);
    forall e | 0 <= e < |s2.mailbox| && ToShard(s2, s2.mailbox[e], k) ensures ToShard(s, s.mailbox[e], k) {
    }
    forall j | 0 <= j < |s2.shards[k].queue| ensures JobAt(s2, k, s2.shards[k].queue[j]) {
      assert JobAt(s, k, s.shards[k].queue[j]);
    }
    assert JobAt(s, k, s.shards[k].worker.job);
    ShardOnly(c, s, s2, k);
  }

  /** The worker's frame enters its mailbox after everything its shard put there. */
  lemma MailGrows(c: Config, s: Net, s2: Net, k: nat)
    requires NetOk(c, s) && NetOk(c, s2) && k < |s.shards| && s.shards[k].worker.Working?
    requires s2 == s.(shards := s.shards[k := s.shards[k].(worker := Decided(s.shards[k].worker.job))])
    ensures NetOk(c, s2.(mailbox := s.mailbox + [s.shards[k].worker.job]))
  {
    var job := s.shards[k].worker.job;
    var s' := s2.(mailbox := s.mailbox + [job]);
    assert ShardOk(s, k) && MailAhead(s, k) && JobAt(s, k, job);
    forall j | 0 <= j < |s'.shards| ensures ShardOk(s', j) && MailAhead(s', j) {
      assert ShardOk(s2, j) && MailAhead(s2, j);
      var q, w := s2.shards[j].queue, s2.shards[j].worker;
      forall i | 0 <= i < |q| ensures JobAt(s', j, q[i]) {
        assert JobAt(s2, j, q[i]);
      }
      assert !w.Idle? ==> JobAt(s2, j, w.job);
      forall e | 0 <= e < |s'.mailbox| && ToShard(s', s'.mailbox[e], j)
        ensures forall i :: 0 <= i < |q| ==> Before(s'.mailbox[e], q[i])
        ensures w.Taken? || w.Working? ==> Before(s'.mailbox[e], w.job)
      {
        if e < |s.mailbox| {
          assert ToShard(s2, s2.mailbox[e], j);
        }
      }
    }
    forall e | 0 <= e < |s'.mailbox| ensures MailIn(s', s'.mailbox[e]) {
      assert e < |s.mailbox| ==> MailIn(s, s.mailbox[e]);
    }
    forall e, e', j | 0 <= e < e' < |s'.mailbox| && ToShard(s', s'.mailbox[e], j) && ToShard(s', s'.mailbox[e'], j)
      ensures Before(s'.mailbox[e], s'.mailbox[e'])
    {
      assert ToShard(s, s.mailbox[e], j);
      if e' < |s.mailbox| {
        assert ToShard(s, s.mailbox[e'], j);
      }
    }
  }

  lemma NetFinish(c: Config, s: Net, k: nat)
    requires NetOk(c, s) && Enabled(c, s, Finish(k))
    ensures NetOk(c, Apply(c, s, Finish(k)))
  {
    assert ShardOk(s, k) && MailAhead(s, k);
    var job := s.shards[k].worker.job;
    assert JobAt(s, k, job);
    var i, l := job.lane, s.lanes[job.lane];
    var s1 := s.(shards := s.shards[k := s.shards[k].(worker := Idle)]);
    forall e | 0 <= e < |s1.mailbox| && ToShard(s1, s1.mailbox[e], k) ensures ToShard(s, s.mailbox[e], k) {
    }
    forall j | 0 <= j < |s1.shards[k].queue| ensures JobAt(s1, k, s1.shards[k].queue[j]) {
      assert JobAt(s, k, s.shards[k].queue[j]);
    }
    ShardOnly(c, s, s1, k);
    CountMonotone(l.seen, job.frame.n, |l.seen|);
    assert l.seen[..|l.seen|] == l.seen;
    LaneFinish(l, job.sequence, job.frame.n);
    FinishRest(c, s, s1, k);
  }

  /** Shard `j` is undisturbed when a job of shard `k` that no shard holds is finished. */
  lemma FinishShard(s1: Net, s': Net, job: Job, k: nat, j: nat)
    requires k < |s1.shards| && j < |s1.shards| && ShardOk(s1, j) && MailAhead(s1, j)
    requires JobAt(s1, k, job) && LaneMoved(s1, s', job.lane, job.sequence)
    requires s'.shards == s1.shards && s'.mailbox == s1.mailbox
    requires j == k ==> s1.shards[k].worker.Idle?
    requires j == k ==> forall m :: 0 <= m < |s1.shards[k].queue| ==> Before(job, s1.shards[k].queue[m])
    ensures ShardOk(s', j) && MailAhead(s', j)
  {
    var i, q, w := job.lane, s1.shards[j].queue, s1.shards[j].worker;
    forall m | 0 <= m < |q| ensures JobAt(s', j, q[m]) {
      assert JobAt(s1, j, q[m]);
      if q[m].lane == i {
        SequencesDiffer(s1.lanes[i], q[m], job);
      }
      JobAtKept(s1, s', i, job.sequence, j, q[m]);
    }
    if !w.Idle? {
      assert JobAt(s1, j, w.job);
      if w.job.lane == i {
        SequencesDiffer(s1.lanes[i], w.job, job);
      }
      JobAtKept(s1, s', i, job.sequence, j, w.job);
    }
    forall e | 0 <= e < |s'.mailbox| && ToShard(s', s'.mailbox[e], j) ensures ToShard(s1, s1.mailbox[e], j) {
    }
  }

  /** No other job has the sequence that shard `k` finishes. */
  lemma {:induction false} FinishRest(c: Config, s: Net, s1: Net, k: nat)
    requires NetOk(c, s) && NetOk(c, s1) && k < |s.shards| && s.shards[k].worker.Decided?
    requires s1 == s.(shards := s.shards[k := s.shards[k].(worker := Idle)])
    requires JobAt(s, k, s.shards[k].worker.job)
    requires var job := s.shards[k].worker.job; LaneOk(FinishAdmission(s.lanes[job.lane], job.sequence))
    ensures var job := s.shards[k].worker.job;
      NetOk(c, s1.(lanes := s.lanes[job.lane := FinishAdmission(s.lanes[job.lane], job.sequence)]))
  {
    var job := s.shards[k].worker.job;
    var i := job.lane;
    var s' := s1.(lanes := s.lanes[i := FinishAdmission(s.lanes[i], job.sequence)]);
    assert ShardOk(s, k);
    assert LaneMoved(s1, s', i, job.sequence);
    forall j | 0 <= j < |s'.shards| ensures ShardOk(s', j) && MailAhead(s', j) {
      assert ShardOk(s1, j) && MailAhead(s1, j) && ShardOk(s, j);
      FinishShard(s1, s', job, k, j);
    }
    forall e | 0 <= e < |s'.mailbox| ensures MailIn(s', s'.mailbox[e]) {
      assert MailIn(s1, s1.mailbox[e]);
    }
    forall e, e', j | 0 <= e < e' < |s'.mailbox| && ToShard(s', s'.mailbox[e], j) && ToShard(s', s'.mailbox[e'], j)
      ensures Before(s'.mailbox[e], s'.mailbox[e'])
    {
      assert ToShard(s1, s1.mailbox[e], j) && ToShard(s1, s1.mailbox[e'], j);
    }
  }

  lemma NetLocal(c: Config, s: Net, a: Action)
    requires NetOk(c, s) && Enabled(c, s, a)
    requires a.Enqueue? || a.Write? || a.BarrierReplies? || a.BarrierExpires? || a.ReplyArrives?
    ensures NetOk(c, Apply(c, s, a))
  {
    var i, s' := a.lane, Apply(c, s, a);
    var l, l' := s.lanes[i], s'.lanes[i];
    LaneLocal(c, s, a);
    LaneOnly(c, s, s', i, 0);
  }

  lemma LanePush(l: Lane, kind: Kind, target: Option<nat>)
    requires LaneOk(l)
    ensures LaneOk(Push(l, kind, target))
  {
    var f := Frame(|l.enq|, kind, target);
    assert l.seen + l.wire + (l.send + [f]) == l.enq + [f];
  }

  lemma LaneLocal(c: Config, s: Net, a: Action)
    requires Enabled(c, s, a) && (a.Enqueue? || a.Write? || a.BarrierReplies? || a.BarrierExpires? || a.ReplyArrives?)
    requires LaneOk(s.lanes[a.lane])
    ensures LaneOk(Apply(c, s, a).lanes[a.lane])
  {
    var l, l' := s.lanes[a.lane], Apply(c, s, a).lanes[a.lane];
    match a
    case Enqueue(_, kind, target) => LanePush(l, kind, target);
    case Write(_) =>
      assert l.send == [l.send[0]] + l.send[1..];
      assert l'.seen + l'.wire + l'.send == l.seen + l.wire + l.send;
    case BarrierReplies(_) =>
      MarkedKept(l.seen, Frame(0, Resolve, None), l.barrier.value.1, l.barrier.value.0, l.done);
    case BarrierExpires(_) =>
    case ReplyArrives(_) =>
      assert l.back == [l.back[0]] + l.back[1..];
  }

  lemma NetMark(c: Config, s: Net)
    requires NetOk(c, s) && Enabled(c, s, FlushMarks)
    ensures NetOk(c, Apply(c, s, FlushMarks))
  {
    LanePush(s.lanes[s.flush.lane], Barrier(s.requests), None);
    LaneOnly(c, s, Apply(c, s, FlushMarks), s.flush.lane, 0);
  }

  lemma NetRest(c: Config, s: Net, a: Action)
    requires NetOk(c, s) && Enabled(c, s, a) && c.lanes > 0 && (a.FlushBegins? || a.FlushAnswered? || a.FlushFails?)
    ensures NetOk(c, Apply(c, s, a))
  {
    LaneOnly(c, s, Apply(c, s, a), 0, 0);
  }

  lemma NetStep(c: Config, s: Net, a: Action)
    requires NetOk(c, s) && Enabled(c, s, a) && c.lanes > 0
    ensures NetOk(c, Apply(c, s, a))
  {
    match a
    case Read(i) =>
      if !Admissible(s.lanes[i].wire[0]) {
        NetReadMarker(c, s, i);
      } else if Accepts(c, s, s.lanes[i].wire[0]) {
        NetReadAccepted(c, s, i);
      } else {
        NetReadRejected(c, s, i);
      }
    case Take(k) => NetTake(c, s, k);
    case Free(k) => NetFree(c, s, k);
    case Decide(k, admitted) => NetDecide(c, s, k, admitted);
    case Finish(k) => NetFinish(c, s, k);
    case FlushBegins => NetRest(c, s, a);
    case FlushMarks => NetMark(c, s);
    case FlushAnswered => NetRest(c, s, a);
    case FlushFails => NetRest(c, s, a);
    case _ => NetLocal(c, s, a);
  }

  // ------------------------------------------------- what is enqueued and where

  /** Markers are numbered apart, and a frame for a target uses that target's lane. */
  ghost predicate EnqOk(s: Net) {
    && (forall i, m :: 0 <= i < |s.lanes| && 0 <= m < |s.lanes[i].enq| ==> FrameOk(s, i, s.lanes[i].enq[m]))
    && (forall i, m, i', m' |
          0 <= i < |s.lanes| && 0 <= m < |s.lanes[i].enq| && 0 <= i' < |s.lanes| && 0 <= m' < |s.lanes[i'].enq| ::
          s.lanes[i].enq[m].kind.Barrier? && s.lanes[i].enq[m].kind == s.lanes[i'].enq[m'].kind
          ==> i == i' && m == m')
  }

  ghost predicate FrameOk(s: Net, i: nat, f: Frame) {
    && (f.kind.Barrier? ==> f.kind.request < s.requests)
    && (f.target.Some? && i < s.own ==> i == f.target.value % s.own)
  }

  /** Lane `i` has one more frame and no other lane's frames changed. */
  lemma EnqGrows(s: Net, s': Net, i: nat, f: Frame)
    requires EnqOk(s) && i < |s.lanes| == |s'.lanes| && s.own == s'.own && s.requests <= s'.requests
    requires s'.lanes[i].enq == s.lanes[i].enq + [f]
    requires forall j :: 0 <= j < |s.lanes| && j != i ==> s'.lanes[j].enq == s.lanes[j].enq
    requires FrameOk(s', i, f) && (f.kind.Barrier? ==> f.kind.request >= s.requests)
    ensures EnqOk(s')
  {
    forall j, m | 0 <= j < |s'.lanes| && 0 <= m < |s'.lanes[j].enq|
      ensures (j == i && m == |s.lanes[i].enq|) || FrameOk(s, j, s'.lanes[j].enq[m])
    {
      if !(j == i && m == |s.lanes[i].enq|) {
        assert s'.lanes[j].enq[m] == s.lanes[j].enq[m];
      }
    }
    forall j, m, j', m' |
      0 <= j < |s'.lanes| && 0 <= m < |s'.lanes[j].enq| && 0 <= j' < |s'.lanes| && 0 <= m' < |s'.lanes[j'].enq|
      && s'.lanes[j].enq[m].kind.Barrier? && s'.lanes[j].enq[m].kind == s'.lanes[j'].enq[m'].kind
      ensures j == j' && m == m'
    {
      var last := |s.lanes[i].enq|;
      if !(j == i && m == last) && !(j' == i && m' == last) {
        assert s'.lanes[j].enq[m] == s.lanes[j].enq[m] && s'.lanes[j'].enq[m'] == s.lanes[j'].enq[m'];
      }
    }
  }

  lemma EnqSame(s: Net, s': Net)
    requires EnqOk(s) && |s.lanes| == |s'.lanes| && s.own == s'.own && s.requests == s'.requests
    requires forall j :: 0 <= j < |s.lanes| ==> s'.lanes[j].enq == s.lanes[j].enq
    ensures EnqOk(s')
  {
    forall j, m | 0 <= j < |s'.lanes| && 0 <= m < |s'.lanes[j].enq| ensures FrameOk(s', j, s'.lanes[j].enq[m]) {
      assert FrameOk(s, j, s.lanes[j].enq[m]);
    }
  }

  lemma EnqStep(c: Config, s: Net, a: Action)
    requires EnqOk(s) && Enabled(c, s, a)
    ensures EnqOk(Apply(c, s, a))
  {
    var s' := Apply(c, s, a);
    if a.Enqueue? {
      EnqGrows(s, s', a.lane, Frame(|s.lanes[a.lane].enq|, a.kind, a.target));
    } else if a.FlushMarks? {
      var i := s.flush.lane;
      EnqGrows(s, s', i, Frame(|s.lanes[i].enq|, Barrier(s.requests), None));
    } else {
      EnqSame(s, s');
    }
  }

  /** A barrier reply means that every request enqueued on the lane before the
      marker has had its admission decided. */
  lemma PongMeans(s: Net, i: nat, request: nat, m: nat)
    requires EnqOk(s) && i < |s.lanes| && LaneOk(s.lanes[i]) && request in s.lanes[i].pongs
    requires m < |s.lanes[i].enq| && s.lanes[i].enq[m].kind == Barrier(request)
    ensures forall e :: 0 <= e < m && Admissible(s.lanes[i].enq[e]) ==> e in s.lanes[i].fate
  {
    var l := s.lanes[i];
    assert Marked(l.seen, request, l.done);
    var m0 :| 0 <= m0 < |l.seen| && l.seen[m0].kind == Barrier(request) && Count(l.seen[..m0]) <= l.done;
    assert l.enq[m0] == l.seen[m0];
    assert m0 == m;
    forall e | 0 <= e < m && Admissible(l.enq[e]) ensures e in l.fate {
      assert l.seen[e] == l.enq[e];
      CountMonotone(l.seen, e, m);
      assert Count(l.seen[..e]) + 1 in l.decided;
    }
  }

  // ------------------------------------------------------------------- flushing

  /** Everything enqueued on lane `j` before the flush began has been decided. */
  ghost predicate LaneFlushed(s: Net, j: nat)
    requires j < |s.lanes| == |s.before|
  {
    forall e :: 0 <= e < s.before[j] && e < |s.lanes[j].enq| && Admissible(s.lanes[j].enq[e]) ==> e in s.lanes[j].fate
  }

  ghost predicate FlushOk(s: Net) {
    s.flush.NotFlushing? ||
    (&& |s.before| == |s.lanes|
     && (forall j :: 0 <= j < |s.lanes| ==> s.before[j] <= |s.lanes[j].enq|)
     && (forall j :: 0 <= j < |s.lanes| && j < s.own && (s.flush.Flushed? || j < s.flush.lane) ==> LaneFlushed(s, j))
     && (s.flush.Awaiting? ==> s.flush.lane < |s.lanes| && MarkerSent(s)))
  }

  ghost predicate MarkerSent(s: Net)
    requires s.flush.Awaiting? && s.flush.lane < |s.lanes| == |s.before|
  {
    var enq := s.lanes[s.flush.lane].enq;
    exists m :: s.before[s.flush.lane] <= m < |enq| && enq[m].kind == Barrier(s.flush.request)
  }

  /** Lanes only ever gain frames and fates. */
  ghost predicate LanesGrow(s: Net, s': Net) {
    && |s.lanes| == |s'.lanes| && s.own == s'.own
    && forall j :: 0 <= j < |s.lanes| ==> s.lanes[j].enq <= s'.lanes[j].enq && s.lanes[j].fate <= s'.lanes[j].fate
  }

  lemma LanesGrowStep(c: Config, s: Net, a: Action)
    requires Enabled(c, s, a)
    ensures LanesGrow(s, Apply(c, s, a))
  {
  }

  lemma FlushKept(s: Net, s': Net)
    requires FlushOk(s) && LanesGrow(s, s') && s'.before == s.before && s'.flush == s.flush
    ensures FlushOk(s')
  {
    if !s.flush.NotFlushing? {
      forall j | 0 <= j < |s'.lanes| && j < s.own && (s.flush.Flushed? || j < s.flush.lane)
        ensures LaneFlushed(s', j)
      {
        assert LaneFlushed(s, j);
        forall e | 0 <= e < s'.before[j] && Admissible(s'.lanes[j].enq[e]) ensures e in s'.lanes[j].fate {
          assert s.lanes[j].enq[e] == s'.lanes[j].enq[e];
        }
      }
      if s.flush.Awaiting? {
        var i := s.flush.lane;
        var m :| s.before[i] <= m < |s.lanes[i].enq| && s.lanes[i].enq[m].kind == Barrier(s.flush.request);
        assert s'.lanes[i].enq[m] == s.lanes[i].enq[m];
      }
    }
  }

  lemma FlushMarksOk(c: Config, s: Net)
    requires FlushOk(s) && Enabled(c, s, FlushMarks)
    ensures FlushOk(Apply(c, s, FlushMarks))
  {
    var s' := Apply(c, s, FlushMarks);
    LanesGrowStep(c, s, FlushMarks);
    FlushKept(s, s'.(flush := s.flush));
    forall j | 0 <= j < |s'.lanes| && j < s.own && j < s'.flush.lane ensures LaneFlushed(s', j) {
      assert LaneFlushed(s'.(flush := s.flush), j);
    }
    var i := s.flush.lane;
    assert s'.lanes[i].enq[|s.lanes[i].enq|].kind == Barrier(s.requests);
  }

  lemma FlushAnsweredOk(c: Config, s: Net)
    requires NetOk(c, s) && EnqOk(s) && FlushOk(s) && Enabled(c, s, FlushAnswered)
    ensures FlushOk(Apply(c, s, FlushAnswered))
  {
    var s' := Apply(c, s, FlushAnswered);
    var i := s.flush.lane;
    var m :| s.before[i] <= m < |s.lanes[i].enq| && s.lanes[i].enq[m].kind == Barrier(s.flush.request);
    PongMeans(s, i, s.flush.request, m);
    forall j | 0 <= j < |s'.lanes| && j < s.own && (s'.flush.Flushed? || j < s'.flush.lane)
      ensures LaneFlushed(s', j)
    {
      if j < i {
        assert LaneFlushed(s, j);
      }
    }
  }

  lemma FlushStep(c: Config, s: Net, a: Action)
    requires NetOk(c, s) && EnqOk(s) && FlushOk(s) && Enabled(c, s, a)
    ensures FlushOk(Apply(c, s, a))
  {
    if a.FlushMarks? {
      FlushMarksOk(c, s);
    } else if a.FlushAnswered? {
      FlushAnsweredOk(c, s);
    } else if !a.FlushBegins? && !a.FlushFails? {
      LanesGrowStep(c, s, a);
      FlushKept(s, Apply(c, s, a));
    }
  }

  // ---------------------------------------------------------------------- slots

  /** The jobs of a shard that hold a slot: those queued, and one taken and not yet freed. */
  function Holding(sh: Shard): nat {
    |sh.queue| + if sh.worker.Taken? then 1 else 0
  }

  function Held(shards: seq<Shard>): nat {
    if shards == [] then 0 else Held(shards[..|shards| - 1]) + Holding(shards[|shards| - 1])
  }

  lemma {:induction false} HeldUpdate(shards: seq<Shard>, k: nat, sh: Shard)
    requires k < |shards|
    ensures Held(shards[k := sh]) == Held(shards) - Holding(shards[k]) + Holding(sh)
    ensures Holding(shards[k]) <= Held(shards)
  {
    var front := shards[..|shards| - 1];
    if k == |shards| - 1 {
      assert shards[k := sh][..k] == front;
    } else {
      assert shards[k := sh][..|shards| - 1] == front[k := sh];
      HeldUpdate(front, k, sh);
    }
  }

  /** A slot is held exactly for each job queued or taken and not yet freed, within the configured bound. */
  ghost predicate SlotsOk(c: Config, s: Net) {
    s.slots == Held(s.shards) <= c.inboundQueue
  }

  lemma SlotsStep(c: Config, s: Net, a: Action)
    requires SlotsOk(c, s) && Enabled(c, s, a)
    ensures SlotsOk(c, Apply(c, s, a))
  {
    var s' := Apply(c, s, a);
    if a.Take? || a.Free? || a.Decide? || a.Finish? {
      HeldUpdate(s.shards, a.shard, s'.shards[a.shard]);
    } else if a.Read? && Admissible(s.lanes[a.lane].wire[0]) && Accepts(c, s, s.lanes[a.lane].wire[0]) {
      var k := s.lanes[a.lane].wire[0].target.value % |s.shards|;
      HeldUpdate(s.shards, k, s'.shards[k]);
    }
  }

  // --------------------------------------------------------------- main results

  ghost predicate Inv(c: Config, s: Net) {
    NetOk(c, s) && EnqOk(s) && FlushOk(s) && SlotsOk(c, s)
  }

  lemma InitHeld(n: nat)
    ensures Held(seq(n, _ => Shard([], Idle))) == 0
  {
    if n == 0 {
    } else {
      assert seq(n, _ => Shard([], Idle))[..n - 1] == seq(n - 1, _ => Shard([], Idle));
      InitHeld(n - 1);
    }
  }

  lemma InvStep(c: Config, s: Net, a: Action)
    requires Inv(c, s) && Enabled(c, s, a) && c.lanes > 0
    ensures Inv(c, Apply(c, s, a))
  {
    NetStep(c, s, a);
    EnqStep(c, s, a);
    FlushStep(c, s, a);
    SlotsStep(c, s, a);
  }

  lemma InvInit(c: Config)
    ensures Inv(c, Init(c))
  {
    InitHeld(c.shards);
  }

  lemma {:induction false} InvRun(c: Config, ss: seq<Net>, acts: seq<Action>, i: nat)
    requires IsRun(c, ss, acts) && i < |ss| && c.lanes > 0
    ensures Inv(c, ss[i])
  {
    if i == 0 {
      InvInit(c);
    } else {
      InvRun(c, ss, acts, i - 1);
      assert Step(c, ss[i - 1], acts[i - 1], ss[i]);
      InvStep(c, ss[i - 1], acts[i - 1]);
    }
  }

  /** Barrier soundness: once the sender holds the barrier reply for a marker,
      every CALL and SEND enqueued on that lane before the marker has had its
      admission decided, in whatever order the shards finished. */
  lemma BarrierSoundness(c: Config, ss: seq<Net>, acts: seq<Action>, i: nat, lane: nat, request: nat, m: nat)
    requires IsRun(c, ss, acts) && i < |ss| && c.lanes > 0
    requires lane < |ss[i].lanes| && request in ss[i].lanes[lane].pongs
    requires m < |ss[i].lanes[lane].enq| && ss[i].lanes[lane].enq[m].kind == Barrier(request)
    ensures forall e :: 0 <= e < m && ss[i].lanes[lane].enq[e].kind in {Call, Send} ==> e in ss[i].lanes[lane].fate
  {
    InvRun(c, ss, acts, i);
    PongMeans(ss[i], lane, request, m);
  }

  /** `done` is always the largest k such that sequences 1..k are all finished. */
  lemma WatermarkExact(c: Config, ss: seq<Net>, acts: seq<Action>, i: nat, lane: nat, k: nat)
    requires IsRun(c, ss, acts) && i < |ss| && c.lanes > 0 && lane < |ss[i].lanes|
    ensures (forall j :: 1 <= j <= k ==> j in ss[i].lanes[lane].decided) <==> k <= ss[i].lanes[lane].done
  {
    InvRun(c, ss, acts, i);
    var l := ss[i].lanes[lane];
    assert LaneOk(l);
    if forall j :: 1 <= j <= k ==> j in l.decided {
      WatermarkIsLargest(l.done, l.decided, k);
    }
  }

  /** When FlushOutgoing succeeds, everything enqueued on any lane before it
      began has had its admission decided by the peer. */
  lemma FlushSoundness(c: Config, ss: seq<Net>, acts: seq<Action>, i: nat, lane: nat, e: nat)
    requires IsRun(c, ss, acts) && i < |ss| && c.lanes > 0 && ss[i].flush.Flushed?
    requires lane < c.lanes <= |ss[i].lanes| == |ss[i].before| && e < ss[i].before[lane] && e < |ss[i].lanes[lane].enq|
    requires ss[i].lanes[lane].enq[e].kind in {Call, Send}
    ensures e in ss[i].lanes[lane].fate
  {
    InvRun(c, ss, acts, i);
    assert LaneFlushed(ss[i], lane);
  }

  /** The sender's frames for one target reach its mailbox in the order they were
      enqueued, whatever other senders' frames come between: each admission is of
      the frame at its own place in its lane's enqueue order, and of any two the
      earlier enqueued is admitted first. */
  lemma MailboxKeepsEnqueueOrder(c: Config, ss: seq<Net>, acts: seq<Action>, i: nat, e: nat, e': nat)
    requires IsRun(c, ss, acts) && i < |ss| && c.lanes > 0 && e < e' < |ss[i].mailbox|
    requires ss[i].mailbox[e].frame.target == ss[i].mailbox[e'].frame.target
    requires ss[i].mailbox[e].lane < c.lanes && ss[i].mailbox[e'].lane < c.lanes
    ensures var a, b := ss[i].mailbox[e], ss[i].mailbox[e'];
      && a.lane == b.lane < |ss[i].lanes|
      && a.frame.n < b.frame.n < |ss[i].lanes[a.lane].enq|
      && ss[i].lanes[a.lane].enq[a.frame.n] == a.frame && ss[i].lanes[b.lane].enq[b.frame.n] == b.frame
  {
    InvRun(c, ss, acts, i);
    MailboxOrderAt(c, ss[i], e, e');
  }

  lemma MailboxOrderAt(c: Config, s: Net, e: nat, e': nat)
    requires Inv(c, s) && e < e' < |s.mailbox| && s.mailbox[e].frame.target == s.mailbox[e'].frame.target
    requires s.mailbox[e].lane < c.lanes && s.mailbox[e'].lane < c.lanes
    ensures var a, b := s.mailbox[e], s.mailbox[e'];
      && a.lane == b.lane < |s.lanes|
      && a.frame.n < b.frame.n < |s.lanes[a.lane].enq|
      && s.lanes[a.lane].enq[a.frame.n] == a.frame && s.lanes[b.lane].enq[b.frame.n] == b.frame
  {
    var a, b := s.mailbox[e], s.mailbox[e'];
    assert MailIn(s, a) && MailIn(s, b);
    assert LaneOk(s.lanes[a.lane]) && LaneOk(s.lanes[b.lane]);
    assert s.lanes[a.lane].enq[a.frame.n] == a.frame && s.lanes[b.lane].enq[b.frame.n] == b.frame;
    assert FrameOk(s, a.lane, a.frame) && FrameOk(s, b.lane, b.frame);
    var k := a.frame.target.value % |s.shards|;
    assert ToShard(s, a, k) && ToShard(s, b, k);
  }

  /** A shard's queue never refuses a job that obtained a slot. */
  lemma SlotMeansRoom(c: Config, ss: seq<Net>, acts: seq<Action>, i: nat, f: Frame)
    requires IsRun(c, ss, acts) && i < |ss| && c.lanes > 0
    ensures Accepts(c, ss[i], f) <==> f.target.Some? && |ss[i].shards| > 0 && ss[i].slots < c.inboundQueue
  {
    InvRun(c, ss, acts, i);
    if f.target.Some? && |ss[i].shards| > 0 {
      var k := f.target.value % |ss[i].shards|;
      HeldUpdate(ss[i].shards, k, ss[i].shards[k]);
    }
  }

  // ------------------------------------------------------------ the dispatcher

  /** The shard queues and the slot semaphore as submit and run change them. */
  class InboundDispatcher {
    const c: Config
    var shards: seq<Shard>
    var slots: nat

    ghost predicate Valid()
      reads this
    {
      |shards| == c.shards && slots == Held(shards) <= c.inboundQueue
    }

    constructor (config: Config)
      ensures Valid() && c == config && shards == Init(c).shards
    {
      c, slots := config, 0;
      shards := seq(config.shards, _ => Shard([], Idle));
      InitHeld(config.shards);
    }

    /** A job is refused only without a target, a shard or a free slot: the
        branch that gives a slot back because the queue is full is dead. */
    method Submit(job: Job) returns (ok: bool)
      requires Valid()
      modifies this
      ensures Valid()
      ensures ok <==> job.frame.target.Some? && |shards| > 0 && old(slots) < c.inboundQueue
      ensures !ok ==> shards == old(shards) && slots == old(slots)
      ensures ok ==> var k := job.frame.target.value % |shards|;
        shards == old(shards)[k := old(shards)[k].(queue := old(shards)[k].queue + [job])] && slots == old(slots) + 1
    {
      if job.frame.target.None? || |shards| == 0 {
        return false;
      }
      var k := job.frame.target.value % |shards|;
      if slots >= c.inboundQueue {
        return false;
      }
      var grown := shards[k].(queue := shards[k].queue + [job]);
      HeldUpdate(shards, k, grown);
      if |shards[k].queue| >= c.inboundQueue {
        assert false;
      }
      slots := slots + 1;
      shards := shards[k := grown];
      return true;
    }

    /** The worker of shard `k` takes the head of its queue; the job keeps its slot until it is freed. */
    method TakeJob(k: nat) returns (job: Job)
      requires Valid() && k < |shards| && shards[k].queue != [] && shards[k].worker.Idle?
      modifies this
      ensures Valid() && job == old(shards)[k].queue[0] && slots == old(slots)
      ensures shards == old(shards)[k := Shard(old(shards)[k].queue[1..], Taken(job))]
    {
      job := shards[k].queue[0];
      var taken := Shard(shards[k].queue[1..], Taken(job));
      HeldUpdate(shards, k, taken);
      shards := shards[k := taken];
    }

    /** Freeing never blocks: a job that was taken holds one of the slots. */
    method FreeSlot(k: nat)
      requires Valid() && k < |shards| && shards[k].worker.Taken?
      modifies this
      ensures Valid() && slots == old(slots) - 1
      ensures shards == old(shards)[k := old(shards)[k].(worker := Working(old(shards)[k].worker.job))]
    {
      var freed := shards[k].(worker := Working(shards[k].worker.job));
      HeldUpdate(shards, k, freed);
      assert slots > 0;
      slots := slots - 1;
      shards := shards[k := freed];
    }
  }
}
