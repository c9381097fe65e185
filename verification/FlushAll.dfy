/**
 FlushOutgoing over every connected node: one network of `Delivery` per
 receiving node, flushed one after the other while all of them go on running.
 */
module FlushAll {
  import opened Delivery

  /** Not flushing, at a node (its markers under way or not), or through all of them. */
  datatype Stage = Resting | At(node: nat, begun: bool) | Done

  /** `start` holds how many frames each lane of each node had when the flush began. */
  datatype World = World(nets: seq<Net>, stage: Stage, start: seq<seq<nat>>)

  datatype Move =
    | OnNet(node: nat, a: Action)
    | BeginAll
    | BeginNode
    | EndNode
    | FailAll

  /** The network steps that only the flush itself takes. */
  predicate Flushes(a: Action) {
    a.FlushBegins? || a.FlushMarks? || a.FlushAnswered? || a.FlushFails?
  }

  predicate CanMove(cs: seq<Config>, w: World, m: Move)
    requires |w.nets| == |cs|
  {
    match m
    case OnNet(k, a) =>
      && k < |cs| && Enabled(cs[k], w.nets[k], a)
      && (Flushes(a) ==> (a.FlushMarks? || a.FlushAnswered?) && w.stage == At(k, true))
    case BeginAll => w.stage.Resting? || w.stage.Done?
    case BeginNode => w.stage.At? && !w.stage.begun && w.stage.node < |cs| && !Busy(w.nets[w.stage.node])
    case EndNode =>
      && w.stage.At?
      && if w.stage.node < |cs| then w.stage.begun && w.nets[w.stage.node].flush.Flushed? else !w.stage.begun
    case FailAll => w.stage.At?
  }

  predicate Busy(s: Net) {
    s.flush.Flushing? || s.flush.Awaiting?
  }

  function Lengths(s: Net): seq<nat> {
    seq(|s.lanes|, i requires 0 <= i < |s.lanes| => |s.lanes[i].enq|)
  }

  function Do(cs: seq<Config>, w: World, m: Move): World
    requires |w.nets| == |cs| && CanMove(cs, w, m)
  {
    match m
    case OnNet(k, a) => w.(nets := w.nets[k := Apply(cs[k], w.nets[k], a)])
    case BeginAll =>
      w.(stage := At(0, false), start := seq(|w.nets|, k requires 0 <= k < |w.nets| => Lengths(w.nets[k])))
    case BeginNode =>
      var k := w.stage.node;
      w.(nets := w.nets[k := Apply(cs[k], w.nets[k], FlushBegins)], stage := At(k, true))
    case EndNode => w.(stage := if w.stage.node < |cs| then At(w.stage.node + 1, false) else Done)
    case FailAll =>
      var k := w.stage.node;
      w.(stage := Resting,
         nets := if k < |cs| && Busy(w.nets[k]) then w.nets[k := Apply(cs[k], w.nets[k], FlushFails)] else w.nets)
  }

  ghost predicate Moves(cs: seq<Config>, w: World, m: Move, w': World) {
    |w.nets| == |cs| && CanMove(cs, w, m) && w' == Do(cs, w, m)
  }

  ghost predicate IsHistory(cs: seq<Config>, ws: seq<World>, ms: seq<Move>) {
    && (forall k :: 0 <= k < |cs| ==> cs[k].lanes > 0)
    && |ws| == |ms| + 1
    && ws[0] == World(seq(|cs|, k requires 0 <= k < |cs| => Init(cs[k])), Resting, [])
    && forall i :: 0 <= i < |ms| ==> Moves(cs, ws[i], ms[i], ws[i + 1])
  }

  // ---------------------------------------------------------------- invariant

  /** What the lanes of a node held at the start of the flush has been decided. */
  ghost predicate Through(s: Net, start: seq<nat>) {
    && |start| == |s.lanes|
    && forall i, e :: 0 <= i < |s.lanes| && i < s.own && 0 <= e < start[i] && e < |s.lanes[i].enq| ==>
         Admissible(s.lanes[i].enq[e]) ==> e in s.lanes[i].fate
  }

  /** The lanes still have all they held at the start. */
  ghost predicate Grown(s: Net, start: seq<nat>) {
    |start| == |s.lanes| && forall i :: 0 <= i < |s.lanes| ==> start[i] <= |s.lanes[i].enq|
  }

  /** The node's own flush began after the whole one did. */
  ghost predicate Covers(s: Net, start: seq<nat>) {
    |s.before| == |start| && !s.flush.NotFlushing? && forall i :: 0 <= i < |start| ==> start[i] <= s.before[i]
  }

  ghost predicate NodeOk(stage: Stage, start: seq<seq<nat>>, k: nat, s: Net) {
    !stage.Resting? ==>
      && k < |start| && Grown(s, start[k])
      && (stage.Done? || k < stage.node ==> Through(s, start[k]))
      && (stage == At(k, true) ==> Covers(s, start[k]))
  }

  ghost predicate WorldOk(cs: seq<Config>, w: World) {
    && |w.nets| == |cs|
    && (w.stage.At? ==> w.stage.node <= |cs| && (w.stage.begun ==> w.stage.node < |cs|))
    && (forall k :: 0 <= k < |cs| ==> Inv(cs[k], w.nets[k]))
    && (forall k :: 0 <= k < |cs| ==> NodeOk(w.stage, w.start, k, w.nets[k]))
  }

  lemma GrownKept(s: Net, s': Net, start: seq<nat>)
    requires LanesGrow(s, s') && Grown(s, start)
    ensures Grown(s', start) && (Through(s, start) ==> Through(s', start))
  {
    if Through(s, start) {
      forall i, e | 0 <= i < |s'.lanes| && i < s'.own && 0 <= e < start[i] && e < |s'.lanes[i].enq|
        ensures Admissible(s'.lanes[i].enq[e]) ==> e in s'.lanes[i].fate
      {
        assert s'.lanes[i].enq[e] == s.lanes[i].enq[e];
      }
    }
  }

  /** A node whose flush has succeeded is through with all it held at the start. */
  lemma FlushedThrough(s: Net, start: seq<nat>)
    requires FlushOk(s) && s.flush.Flushed? && Grown(s, start) && Covers(s, start)
    ensures Through(s, start)
  {
    forall i, e | 0 <= i < |s.lanes| && i < s.own && 0 <= e < start[i] && e < |s.lanes[i].enq|
      ensures Admissible(s.lanes[i].enq[e]) ==> e in s.lanes[i].fate
    {
      assert LaneFlushed(s, i);
    }
  }

  lemma NodeStep(c: Config, stage: Stage, stage': Stage, start: seq<seq<nat>>, k: nat, s: Net, a: Action)
    requires Enabled(c, s, a) && NodeOk(stage, start, k, s)
    requires stage' == stage || (stage == At(k, false) && stage' == At(k, true) && a.FlushBegins?)
    requires stage == At(k, true) ==> !a.FlushBegins? && !a.FlushFails?
    ensures NodeOk(stage', start, k, Apply(c, s, a))
  {
    LanesGrowStep(c, s, a);
    if !stage.Resting? {
      GrownKept(s, Apply(c, s, a), start[k]);
    }
  }

  /** One network moves and the stage may advance with it; the others stand still. */
  lemma NetMoves(cs: seq<Config>, w: World, w': World, k: nat, a: Action)
    requires WorldOk(cs, w) && k < |cs| && cs[k].lanes > 0 && Enabled(cs[k], w.nets[k], a)
    requires w'.nets == w.nets[k := Apply(cs[k], w.nets[k], a)] && w'.start == w.start
    requires w'.stage == w.stage || (w.stage == At(k, false) && w'.stage == At(k, true) && a.FlushBegins?)
    requires w.stage == At(k, true) ==> !a.FlushBegins? && !a.FlushFails?
    ensures WorldOk(cs, w')
  {
    assert NodeOk(w.stage, w.start, k, w.nets[k]);
    InvStep(cs[k], w.nets[k], a);
    NodeStep(cs[k], w.stage, w'.stage, w.start, k, w.nets[k], a);
    forall j | 0 <= j < |cs| && j != k
      ensures Inv(cs[j], w'.nets[j]) && NodeOk(w'.stage, w'.start, j, w'.nets[j])
    {
      assert Inv(cs[j], w.nets[j]) && NodeOk(w.stage, w.start, j, w.nets[j]);
    }
  }

  lemma WorldStep(cs: seq<Config>, w: World, m: Move)
    requires WorldOk(cs, w) && CanMove(cs, w, m) && forall k :: 0 <= k < |cs| ==> cs[k].lanes > 0
    ensures WorldOk(cs, Do(cs, w, m))
  {
    var w' := Do(cs, w, m);
    match m
    case OnNet(k, a) => NetMoves(cs, w, w', k, a);
    case BeginNode => NetMoves(cs, w, w', w.stage.node, FlushBegins);
    case BeginAll =>
      forall k | 0 <= k < |cs| ensures NodeOk(w'.stage, w'.start, k, w'.nets[k]) {
        assert w'.start[k] == Lengths(w.nets[k]);
      }
    case EndNode =>
      forall k | 0 <= k < |cs| ensures NodeOk(w'.stage, w'.start, k, w'.nets[k]) {
        assert NodeOk(w.stage, w.start, k, w.nets[k]) && Inv(cs[k], w.nets[k]);
        if k == w.stage.node {
          FlushedThrough(w.nets[k], w.start[k]);
        }
      }
    case FailAll =>
      if w.stage.node < |cs| && Busy(w.nets[w.stage.node]) {
        InvStep(cs[w.stage.node], w.nets[w.stage.node], FlushFails);
      }
  }

  lemma {:induction false} WorldRun(cs: seq<Config>, ws: seq<World>, ms: seq<Move>, i: nat)
    requires IsHistory(cs, ws, ms) && i < |ws|
    ensures WorldOk(cs, ws[i])
  {
    if i == 0 {
      forall k | 0 <= k < |cs| ensures Inv(cs[k], ws[0].nets[k]) {
        InvInit(cs[k]);
      }
    } else {
      WorldRun(cs, ws, ms, i - 1);
      assert Moves(cs, ws[i - 1], ms[i - 1], ws[i]);
      WorldStep(cs, ws[i - 1], ms[i - 1]);
    }
  }

  // -------------------------------------------------------------- main result

  /** Move `b` is the last beginning of a whole flush before state `i`. */
  ghost predicate LastBegin(ms: seq<Move>, b: nat, i: nat)
    requires b < i <= |ms|
  {
    ms[b].BeginAll? && forall m :: b < m < i ==> !ms[m].BeginAll?
  }

  lemma StartNext(cs: seq<Config>, ws: seq<World>, ms: seq<Move>, i: nat)
    requires IsHistory(cs, ws, ms) && i < |ms|
    ensures |ws[i].nets| == |cs|
    ensures if ms[i].BeginAll? then
              |ws[i + 1].start| == |cs| && forall k :: 0 <= k < |cs| ==> ws[i + 1].start[k] == Lengths(ws[i].nets[k])
            else ws[i + 1].start == ws[i].start
  {
    assert Moves(cs, ws[i], ms[i], ws[i + 1]);
  }

  /** What the lane of a node held is still there, in place. */
  ghost predicate Keeps(w: World, w': World, node: nat, lane: nat) {
    && node < |w.nets| == |w'.nets| && |w.nets[node].lanes| == |w'.nets[node].lanes|
    && (lane < |w.nets[node].lanes| ==> w.nets[node].lanes[lane].enq <= w'.nets[node].lanes[lane].enq)
  }

  lemma KeepsTrans(w: World, w': World, w'': World, node: nat, lane: nat)
    requires Keeps(w, w', node, lane) && Keeps(w', w'', node, lane)
    ensures Keeps(w, w'', node, lane)
  {
  }

  lemma NetKeeps(w: World, w': World, c: Config, k: nat, a: Action, node: nat, lane: nat)
    requires node < |w.nets| && k < |w.nets| && Enabled(c, w.nets[k], a)
    requires w'.nets == w.nets[k := Apply(c, w.nets[k], a)]
    ensures Keeps(w, w', node, lane)
  {
    LanesGrowStep(c, w.nets[k], a);
  }

  lemma KeepsNext(cs: seq<Config>, w: World, m: Move, w': World, node: nat, lane: nat)
    requires Moves(cs, w, m, w') && node < |cs|
    ensures Keeps(w, w', node, lane)
  {
    if m.OnNet? {
      NetKeeps(w, w', cs[m.node], m.node, m.a, node, lane);
    } else if m.BeginNode? {
      NetKeeps(w, w', cs[w.stage.node], w.stage.node, FlushBegins, node, lane);
    } else if m.FailAll? && w.stage.node < |cs| && Busy(w.nets[w.stage.node]) {
      NetKeeps(w, w', cs[w.stage.node], w.stage.node, FlushFails, node, lane);
    }
  }

  lemma {:induction false} StartIsTheBeginning(
    cs: seq<Config>, ws: seq<World>, ms: seq<Move>, b: nat, i: nat, node: nat)
    requires IsHistory(cs, ws, ms) && b < i <= |ms| && LastBegin(ms, b, i) && node < |cs|
    ensures |ws[b].nets| == |ws[i].start| == |cs| && ws[i].start[node] == Lengths(ws[b].nets[node])
  {
    StartNext(cs, ws, ms, i - 1);
    if b + 1 == i {
    } else {
      StartIsTheBeginning(cs, ws, ms, b, i - 1, node);
    }
  }

  lemma {:induction false} EnqKept(cs: seq<Config>, ws: seq<World>, ms: seq<Move>, b: nat, i: nat, node: nat, lane: nat)
    requires IsHistory(cs, ws, ms) && b < i <= |ms| && node < |cs|
    ensures Keeps(ws[b], ws[i], node, lane)
  {
    assert Moves(cs, ws[i - 1], ms[i - 1], ws[i]);
    KeepsNext(cs, ws[i - 1], ms[i - 1], ws[i], node, lane);
    if b + 1 == i {
    } else {
      EnqKept(cs, ws, ms, b, i - 1, node, lane);
      KeepsTrans(ws[b], ws[i - 1], ws[i], node, lane);
    }
  }

  lemma {:induction false} DoneWasBegun(cs: seq<Config>, ws: seq<World>, ms: seq<Move>, i: nat) returns (b: nat)
    requires IsHistory(cs, ws, ms) && i < |ws| && !ws[i].stage.Resting?
    ensures b < i && LastBegin(ms, b, i)
  {
    assert i > 0;
    assert Moves(cs, ws[i - 1], ms[i - 1], ws[i]);
    if ms[i - 1].BeginAll? {
      b := i - 1;
    } else {
      b := DoneWasBegun(cs, ws, ms, i - 1);
    }
  }

  /** When FlushOutgoing has gone through every node, it had begun at some move `b`
      (`DoneWasBegun`), and each call and send that any lane of any node held at that
      moment has had its admission decided, however often earlier flushes succeeded
      or failed. */
  lemma EveryNodeFlushed(
    cs: seq<Config>, ws: seq<World>, ms: seq<Move>, b: nat, i: nat, node: nat, lane: nat, e: nat)
    requires IsHistory(cs, ws, ms) && b < i <= |ms| && LastBegin(ms, b, i) && ws[i].stage.Done? && node < |cs|
    ensures |ws[b].nets| == |ws[i].nets| == |cs|
    ensures cs[node].lanes <= |ws[b].nets[node].lanes| == |ws[i].nets[node].lanes|
    ensures lane < cs[node].lanes && e < |ws[b].nets[node].lanes[lane].enq| ==>
      var was, now := ws[b].nets[node].lanes[lane], ws[i].nets[node].lanes[lane];
      e < |now.enq| && now.enq[e] == was.enq[e] && (was.enq[e].kind in {Call, Send} ==> e in now.fate)
  {
    StartIsTheBeginning(cs, ws, ms, b, i, node);
    EnqKept(cs, ws, ms, b, i, node, lane);
    WorldRun(cs, ws, ms, i);
    assert NodeOk(ws[i].stage, ws[i].start, node, ws[i].nets[node]);
  }

  // ------------------------------------------------------------ the walk goes on

  /** Only the node the walk is at has markers under way, on one of the sender's lanes. */
  ghost predicate OnlyHere(c: Config, stage: Stage, k: nat, s: Net) {
    s.own == c.lanes <= |s.lanes| && (Busy(s) ==> stage == At(k, true) && s.flush.lane < s.own)
  }

  lemma HereStep(c: Config, stage: Stage, k: nat, s: Net, a: Action)
    requires Enabled(c, s, a) && OnlyHere(c, stage, k, s) && c.lanes > 0
    ensures !Flushes(a) || stage == At(k, true) || a.FlushFails? ==> OnlyHere(c, stage, k, Apply(c, s, a))
    ensures a.FlushBegins? ==> OnlyHere(c, At(k, true), k, Apply(c, s, a))
    ensures a.FlushFails? ==> !Busy(Apply(c, s, a))
  {
  }

  lemma OnlyHereStep(cs: seq<Config>, w: World, m: Move, w': World, k: nat)
    requires Moves(cs, w, m, w') && k < |cs| && cs[k].lanes > 0 && OnlyHere(cs[k], w.stage, k, w.nets[k])
    ensures OnlyHere(cs[k], w'.stage, k, w'.nets[k])
  {
    if m.OnNet? && m.node == k {
      HereStep(cs[k], w.stage, k, w.nets[k], m.a);
    } else if m.BeginNode? && w.stage.node == k {
      HereStep(cs[k], w.stage, k, w.nets[k], FlushBegins);
    } else if m.FailAll? && w.stage.node == k && Busy(w.nets[k]) {
      HereStep(cs[k], w.stage, k, w.nets[k], FlushFails);
    }
  }

  lemma OnlyHereNext(cs: seq<Config>, ws: seq<World>, ms: seq<Move>, i: nat, k: nat)
    requires IsHistory(cs, ws, ms) && i < |ms| && k < |cs| == |ws[i].nets|
    requires OnlyHere(cs[k], ws[i].stage, k, ws[i].nets[k])
    ensures |ws[i + 1].nets| == |cs| && OnlyHere(cs[k], ws[i + 1].stage, k, ws[i + 1].nets[k])
  {
    assert Moves(cs, ws[i], ms[i], ws[i + 1]);
    OnlyHereStep(cs, ws[i], ms[i], ws[i + 1], k);
  }

  lemma {:induction false} OnlyHereRun(cs: seq<Config>, ws: seq<World>, ms: seq<Move>, i: nat, k: nat)
    requires IsHistory(cs, ws, ms) && i < |ws| && k < |cs|
    ensures |ws[i].nets| == |cs| && OnlyHere(cs[k], ws[i].stage, k, ws[i].nets[k])
  {
    if i == 0 {
    } else {
      OnlyHereRun(cs, ws, ms, i - 1, k);
      OnlyHereNext(cs, ws, ms, i - 1, k);
    }
  }

  /** At a node: what the flush can do next, and what alone it may have to wait for. */
  ghost predicate NodeGoesOn(cs: seq<Config>, w: World, k: nat)
    requires |w.nets| == |cs| && k < |cs| && w.stage.At?
  {
    if !w.stage.begun then
      && CanMove(cs, w, BeginNode) && Do(cs, w, BeginNode).stage == At(k, true)
      && Do(cs, w, BeginNode).nets[k].flush == Flushing(0)
    else
      match w.nets[k].flush
      case NotFlushing => false
      case Flushing(lane) =>
        && lane < |w.nets[k].lanes|
        && (CanMove(cs, w, OnNet(k, FlushMarks)) <==> |w.nets[k].lanes[lane].send| < cs[k].sendQueue)
      case Awaiting(lane, request) =>
        && lane < |w.nets[k].lanes|
        && (CanMove(cs, w, OnNet(k, FlushAnswered)) <==> request in w.nets[k].lanes[lane].pongs)
      case Flushed => CanMove(cs, w, EndNode) && Do(cs, w, EndNode).stage == At(k + 1, false)
  }

  lemma HereGoesOn(cs: seq<Config>, w: World, k: nat)
    requires |w.nets| == |cs| && k < |cs| && w.stage.At? && w.stage.node == k
    requires OnlyHere(cs[k], w.stage, k, w.nets[k]) && (w.stage.begun ==> !w.nets[k].flush.NotFlushing?)
    ensures NodeGoesOn(cs, w, k)
  {
  }

  /** FlushOutgoing is never stuck, in any state of any history: it can begin when it
      is not under way; at a node it begins, then marks lane by lane, held up only by
      a full send queue or by a reply that is not there, and passes on to the next
      node as soon as this one is flushed; after the last it is through. */
  lemma WalkGoesOn(cs: seq<Config>, ws: seq<World>, ms: seq<Move>, i: nat)
    requires IsHistory(cs, ws, ms) && i < |ws|
    ensures |ws[i].nets| == |cs|
    ensures !ws[i].stage.At? ==> CanMove(cs, ws[i], BeginAll) && Do(cs, ws[i], BeginAll).stage == At(0, false)
    ensures ws[i].stage == At(|cs|, false) ==> CanMove(cs, ws[i], EndNode) && Do(cs, ws[i], EndNode).stage.Done?
    ensures ws[i].stage.At? && ws[i].stage.node < |cs| ==> NodeGoesOn(cs, ws[i], ws[i].stage.node)
  {
    WorldRun(cs, ws, ms, i);
    if ws[i].stage.At? && ws[i].stage.node < |cs| {
      var k := ws[i].stage.node;
      assert NodeOk(ws[i].stage, ws[i].start, k, ws[i].nets[k]);
      OnlyHereRun(cs, ws, ms, i, k);
      HereGoesOn(cs, ws[i], k);
    }
  }
}
