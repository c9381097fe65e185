/**
 The delay queue: a binary min-heap of tasks with an index from task id to heap
 position, proved to behave as a map from id to deadline, and the
 duplicate-suppression window on what it fires.
 */
module DelayQueue {
  import opened Basics

  type Id = int

  datatype Task = Task(id: Id, expire: int)

  function Parent(k: nat): nat
    requires k > 0
  {
    (k - 1) / 2
  }

  /** No task expires before its parent among the first `n`. */
  ghost predicate HeapOrdered(ts: seq<Task>, n: nat)
    requires n <= |ts|
  {
    forall k :: 1 <= k < n ==> ts[Parent(k)].expire <= ts[k].expire
  }

  /** The order may fail only between `i` and its parent or children, and the
      parent of `i` does not come after the children of `i`. */
  ghost predicate OrderedAround(ts: seq<Task>, n: nat, i: nat)
    requires n <= |ts| && i < |ts|
  {
    && (forall k :: 1 <= k < n && k != i && Parent(k) != i ==> ts[Parent(k)].expire <= ts[k].expire)
    && (i > 0 ==> forall k :: 1 <= k < n && Parent(k) == i ==> ts[Parent(i)].expire <= ts[k].expire)
  }

  function Swapped(ts: seq<Task>, i: nat, j: nat): seq<Task>
    requires i < |ts| && j < |ts|
  {
    ts[i := ts[j]][j := ts[i]]
  }

  lemma ChangedAround(ts: seq<Task>, i: nat, x: Task)
    requires i < |ts| && HeapOrdered(ts, |ts|)
    ensures OrderedAround(ts[i := x], |ts|, i)
  {
    forall k | 1 <= k < |ts| && Parent(k) == i && i > 0 ensures ts[Parent(i)].expire <= ts[k].expire {
      assert ts[Parent(i)].expire <= ts[i].expire;
    }
  }

  lemma DownStep(ts: seq<Task>, n: nat, i: nat, j: nat)
    requires n <= |ts| && i < j < n && Parent(j) == i && OrderedAround(ts, n, i) && ts[j].expire < ts[i].expire
    requires forall k :: 1 <= k < n && Parent(k) == i ==> ts[j].expire <= ts[k].expire
    ensures OrderedAround(Swapped(ts, i, j), n, j)
    ensures Swapped(ts, i, j)[i].expire <= Swapped(ts, i, j)[j].expire
    ensures i > 0 && i < n ==> Swapped(ts, i, j)[Parent(i)].expire <= Swapped(ts, i, j)[i].expire
  {
    var us := Swapped(ts, i, j);
    forall k | 1 <= k < n && k != j && Parent(k) != j ensures us[Parent(k)].expire <= us[k].expire {
      if k == i {
        assert Parent(j) == i;
      }
    }
    forall k | 1 <= k < n && Parent(k) == j ensures us[i].expire <= us[k].expire {
      assert k != i;
    }
  }

  lemma UpStep(ts: seq<Task>, n: nat, j: nat)
    requires n <= |ts| && 0 < j < n && OrderedAround(ts, n, j) && ts[j].expire < ts[Parent(j)].expire
    requires forall k :: 1 <= k < n && Parent(k) == j ==> ts[j].expire <= ts[k].expire
    ensures var i, us := Parent(j), Swapped(ts, Parent(j), j);
      OrderedAround(us, n, i) && forall k :: 1 <= k < n && Parent(k) == i ==> us[i].expire <= us[k].expire
  {
    var i, us := Parent(j), Swapped(ts, Parent(j), j);
    forall k | 1 <= k < n && k != i && Parent(k) != i ensures us[Parent(k)].expire <= us[k].expire {
      if Parent(k) == j {
        assert ts[Parent(j)].expire <= ts[k].expire;
      }
    }
    forall k | 1 <= k < n && Parent(k) == i ensures us[i].expire <= us[k].expire {
    }
    if i > 0 {
      forall k | 1 <= k < n && Parent(k) == i ensures us[Parent(i)].expire <= us[k].expire {
        assert ts[Parent(i)].expire <= ts[i].expire;
      }
    }
  }

  /** The root of a heap is due first. */
  lemma {:induction false} RootIsEarliest(ts: seq<Task>, k: nat)
    requires k < |ts| && HeapOrdered(ts, |ts|)
    ensures ts[0].expire <= ts[k].expire
  {
    if k == 0 {
    } else {
      RootIsEarliest(ts, Parent(k));
    }
  }

  // ------------------------------------------------------------ the indexed heap

  /** `index` is the exact inverse of `tasks` as an array of ids. */
  ghost predicate Indexed(ts: seq<Task>, index: map<Id, nat>) {
    && (forall k :: 0 <= k < |ts| ==> ts[k].id in index && index[ts[k].id] == k)
    && (forall id :: id in index ==> index[id] < |ts| && ts[index[id]].id == id)
  }

  /** The map from id to deadline that the heap stands for. */
  ghost function Deadlines(ts: seq<Task>, index: map<Id, nat>): map<Id, int>
    requires Indexed(ts, index)
  {
    map id | id in index :: ts[index[id]].expire
  }

  lemma SwapKeepsDeadlines(ts: seq<Task>, index: map<Id, nat>, i: nat, j: nat)
    requires Indexed(ts, index) && i < |ts| && j < |ts|
    ensures var us := Swapped(ts, i, j);
      var index' := index[us[i].id := i][us[j].id := j];
      Indexed(us, index') && Deadlines(us, index') == Deadlines(ts, index)
  {
    var us := Swapped(ts, i, j);
    var index' := index[us[i].id := i][us[j].id := j];
    assert index'.Keys == index.Keys;
    forall id | id in index ensures index'[id] < |us| && us[index'[id]] == ts[index[id]] {
    }
  }

  /** The heap's fields still hold what they held: same size, same deadlines. */
  ghost predicate SameTasks(ts: seq<Task>, index: map<Id, nat>, ts': seq<Task>, index': map<Id, nat>) {
    Indexed(ts, index) && Indexed(ts', index') && |ts'| == |ts| && Deadlines(ts', index') == Deadlines(ts, index)
  }

  /** A task not after the one or two children of `i` is not after anything whose parent is `i`. */
  lemma NotAfterChildren(ts: seq<Task>, n: nat, i: nat, t: int)
    requires n <= |ts| && 2 * i + 1 < n
    requires t <= ts[2 * i + 1].expire && (2 * i + 2 < n ==> t <= ts[2 * i + 2].expire)
    ensures forall k :: 1 <= k < n && Parent(k) == i ==> t <= ts[k].expire
  {
    forall k | 1 <= k < n && Parent(k) == i ensures k == 2 * i + 1 || k == 2 * i + 2 {
    }
  }

  lemma AroundSettled(ts: seq<Task>, n: nat, i: nat)
    requires n <= |ts| && i < |ts| && OrderedAround(ts, n, i)
    requires forall k :: 1 <= k < n && Parent(k) == i ==> ts[i].expire <= ts[k].expire
    requires 0 < i < n ==> ts[Parent(i)].expire <= ts[i].expire
    ensures HeapOrdered(ts, n)
  {
  }

  lemma AppendDeadline(ts: seq<Task>, index: map<Id, nat>, x: Task)
    requires Indexed(ts, index) && x.id !in index
    ensures Indexed(ts + [x], index[x.id := |ts|])
    ensures Deadlines(ts + [x], index[x.id := |ts|]) == Deadlines(ts, index)[x.id := x.expire]
  {
    var d, d' := Deadlines(ts, index)[x.id := x.expire], Deadlines(ts + [x], index[x.id := |ts|]);
    assert d'.Keys == d.Keys;
    assert forall id :: id in d' ==> d'[id] == d[id];
  }

  lemma DropLastDeadline(ts: seq<Task>, index: map<Id, nat>)
    requires Indexed(ts, index) && ts != []
    ensures var id := ts[|ts| - 1].id;
      Indexed(ts[..|ts| - 1], index - {id}) && Deadlines(ts[..|ts| - 1], index - {id}) == Deadlines(ts, index) - {id}
  {
    var id := ts[|ts| - 1].id;
    var d, d' := Deadlines(ts, index) - {id}, Deadlines(ts[..|ts| - 1], index - {id});
    assert d'.Keys == d.Keys;
    assert forall j :: j in d' ==> d'[j] == d[j];
  }

  lemma SetDeadline(ts: seq<Task>, index: map<Id, nat>, i: nat, t: int)
    requires Indexed(ts, index) && i < |ts|
    ensures var us := ts[i := Task(ts[i].id, t)];
      Indexed(us, index) && Deadlines(us, index) == Deadlines(ts, index)[ts[i].id := t]
  {
    var d, d' := Deadlines(ts, index)[ts[i].id := t], Deadlines(ts[i := Task(ts[i].id, t)], index);
    assert d'.Keys == d.Keys;
    assert forall j :: j in d' ==> d'[j] == d[j];
  }

  class IndexedTaskHeap {
    var tasks: seq<Task>
    var index: map<Id, nat>

    constructor ()
      ensures tasks == [] && index == map[]
    {
      tasks, index := [], map[];
    }

    method Swap(i: nat, j: nat)
      requires Indexed(tasks, index) && i < |tasks| && j < |tasks|
      modifies this
      ensures tasks == Swapped(old(tasks), i, j) && SameTasks(old(tasks), old(index), tasks, index)
    {
      SwapKeepsDeadlines(tasks, index, i, j);
      tasks := Swapped(tasks, i, j);
      index := index[tasks[i].id := i];
      index := index[tasks[j].id := j];
    }

    /** container/heap's up, among the first `n` tasks. */
    method Up(start: nat, n: nat)
      requires Indexed(tasks, index) && start < n <= |tasks| && OrderedAround(tasks, n, start)
      requires forall k :: 1 <= k < n && Parent(k) == start ==> tasks[start].expire <= tasks[k].expire
      modifies this
      ensures SameTasks(old(tasks), old(index), tasks, index) && HeapOrdered(tasks, n) && tasks[n..] == old(tasks)[n..]
    {
      var j: nat := start;
      while j > 0 && tasks[j].expire < tasks[Parent(j)].expire
        invariant SameTasks(old(tasks), old(index), tasks, index) && j < n && tasks[n..] == old(tasks)[n..]
        invariant OrderedAround(tasks, n, j)
        invariant forall k :: 1 <= k < n && Parent(k) == j ==> tasks[j].expire <= tasks[k].expire
        decreases j
      {
        UpStep(tasks, n, j);
        Swap(Parent(j), j);
        j := Parent(j);
      }
      AroundSettled(tasks, n, j);
    }

    method EarlierChild(i: nat, n: nat) returns (j: nat)
      requires n <= |tasks| && 2 * i + 1 < n
      ensures i < j < n && Parent(j) == i
      ensures forall k :: 1 <= k < n && Parent(k) == i ==> tasks[j].expire <= tasks[k].expire
    {
      j := 2 * i + 1;
      if j + 1 < n && tasks[j + 1].expire < tasks[j].expire {
        j := j + 1;
      }
      NotAfterChildren(tasks, n, i, tasks[j].expire);
    }

    /** One round of container/heap's down: swap `i` with its earlier child, if that is earlier. */
    method SinkOnce(i: nat, n: nat) returns (j: nat)
      requires Indexed(tasks, index) && i < n <= |tasks| && OrderedAround(tasks, n, i)
      modifies this
      ensures SameTasks(old(tasks), old(index), tasks, index) && tasks[n..] == old(tasks)[n..]
      ensures j == i ==> tasks == old(tasks) && index == old(index)
      ensures j == i ==> forall k :: 1 <= k < n && Parent(k) == i ==> tasks[i].expire <= tasks[k].expire
      ensures j != i ==> i < j < n && OrderedAround(tasks, n, j) && Parent(j) == i && tasks[i].expire <= tasks[j].expire
    {
      if 2 * i + 1 >= n {
        return i;
      }
      j := EarlierChild(i, n);
      if !(tasks[j].expire < tasks[i].expire) {
        return i;
      }
      DownStep(tasks, n, i, j);
      Swap(i, j);
    }

    /** container/heap's down, among the first `n` tasks. */
    method Down(start: nat, n: nat) returns (moved: bool)
      requires Indexed(tasks, index) && start < n <= |tasks| && OrderedAround(tasks, n, start)
      modifies this
      ensures SameTasks(old(tasks), old(index), tasks, index) && tasks[n..] == old(tasks)[n..]
      ensures moved ==> HeapOrdered(tasks, n)
      ensures !moved ==> tasks == old(tasks) && index == old(index)
      ensures !moved ==> forall k :: 1 <= k < n && Parent(k) == start ==> tasks[start].expire <= tasks[k].expire
    {
      var i: nat := start;
      while true
        invariant SameTasks(old(tasks), old(index), tasks, index) && start <= i < n && tasks[n..] == old(tasks)[n..]
        invariant OrderedAround(tasks, n, i)
        invariant i == start ==> tasks == old(tasks) && index == old(index)
        invariant i > start ==> tasks[Parent(i)].expire <= tasks[i].expire
        decreases n - i
      {
        var j := SinkOnce(i, n);
        if j == i {
          break;
        }
        i := j;
      }
      moved := i > start;
      if moved {
        AroundSettled(tasks, n, i);
      }
    }

    ghost predicate Valid()
      reads this
    {
      Indexed(tasks, index) && HeapOrdered(tasks, |tasks|)
    }

    ghost function View(): map<Id, int>
      reads this
      requires Valid()
    {
      Deadlines(tasks, index)
    }

    /** Restores the order after the task at `i` changed: heap.Fix. */
    method Settle(i: nat, n: nat)
      requires Indexed(tasks, index) && i < n <= |tasks| && OrderedAround(tasks, n, i)
      modifies this
      ensures SameTasks(old(tasks), old(index), tasks, index) && HeapOrdered(tasks, n) && tasks[n..] == old(tasks)[n..]
    {
      var moved := Down(i, n);
      if !moved {
        Up(i, n);
      }
    }

    /** heap.Push of a task whose id is new. */
    method Push(x: Task)
      requires Valid() && x.id !in index
      modifies this
      ensures Valid() && View() == old(View())[x.id := x.expire]
    {
      AppendDeadline(tasks, index, x);
      index := index[x.id := |tasks|];
      tasks := tasks + [x];
      Up(|tasks| - 1, |tasks|);
    }

    /** Sets the deadline of the task at `i` and restores the order. */
    method SetExpire(i: nat, t: int)
      requires Valid() && i < |tasks|
      modifies this
      ensures Valid() && View() == old(View())[old(tasks)[i].id := t]
    {
      SetDeadline(tasks, index, i, t);
      ChangedAround(tasks, i, Task(tasks[i].id, t));
      tasks := tasks[i := Task(tasks[i].id, t)];
      Settle(i, |tasks|);
    }

    method DropLast() returns (x: Task)
      requires Indexed(tasks, index) && tasks != []
      modifies this
      ensures Indexed(tasks, index) && tasks == old(tasks)[..old(|tasks|) - 1] && x == old(tasks)[old(|tasks|) - 1]
      ensures Deadlines(tasks, index) == Deadlines(old(tasks), old(index)) - {x.id}
    {
      DropLastDeadline(tasks, index);
      x := tasks[|tasks| - 1];
      tasks := tasks[..|tasks| - 1];
      index := index - {x.id};
    }

    /** heap.Remove; with `i` zero it is heap.Pop. */
    method RemoveAt(i: nat) returns (x: Task)
      requires Valid() && i < |tasks|
      modifies this
      ensures Valid() && x == old(tasks)[i] && View() == old(View()) - {x.id} && |tasks| == old(|tasks|) - 1
    {
      var n := |tasks| - 1;
      if n != i {
        ghost var before := tasks;
        Swap(i, n);
        AroundSwap(before, i, n);
        Settle(i, n);
        assert tasks[n..] == Swapped(before, i, n)[n..];
        assert tasks[n] == tasks[n..][0] == Swapped(before, i, n)[n];
      }
      x := DropLast();
      assert HeapOrdered(tasks, |tasks|);
    }
  }

  lemma AroundSwap(ts: seq<Task>, i: nat, n: nat)
    requires n == |ts| - 1 && i < n && HeapOrdered(ts, |ts|)
    ensures OrderedAround(Swapped(ts, i, n), n, i)
  {
    ChangedAround(ts, i, ts[n]);
    var us := ts[i := ts[n]];
    forall k | 1 <= k < n ensures Swapped(ts, i, n)[k] == us[k] && Swapped(ts, i, n)[Parent(k)] == us[Parent(k)] {
    }
  }

  // ------------------------------------------------------------- the delay queue

  /** What the queue stands for: the deadlines it holds and when each id last fired. */
  datatype Queue = Queue(deadlines: map<Id, int>, lastFired: map<Id, int>)

  predicate Deduped(window: int, last: map<Id, int>, id: Id, now: int) {
    window > 0 && id in last && now - last[id] < window
  }

  function Due(q: Queue, now: int): set<Id> {
    set id | id in q.deadlines && q.deadlines[id] <= now
  }

  /** The ids that fire: due, and not within the window of their last fire. */
  function Fires(window: int, q: Queue, now: int): set<Id> {
    set id | id in Due(q, now) && !Deduped(window, q.lastFired, id, now)
  }

  function Recorded(window: int, last: map<Id, int>, ids: set<Id>, now: int): map<Id, int> {
    if window <= 0 then last else last + map id | id in ids :: now
  }

  function Cleaned(window: int, last: map<Id, int>, now: int): map<Id, int> {
    if window <= 0 then last else map id | id in last && now - last[id] < window :: last[id]
  }

  function AfterCheck(window: int, q: Queue, now: int): Queue {
    Queue(q.deadlines - Due(q, now), Cleaned(window, Recorded(window, q.lastFired, Fires(window, q, now), now), now))
  }

  /** The ids of `ts` that are not suppressed, in order. */
  function NotDeduped(window: int, last: map<Id, int>, ts: seq<Task>, now: int): seq<Id> {
    if ts == [] then []
    else
      var x := ts[|ts| - 1];
      NotDeduped(window, last, ts[..|ts| - 1], now) + if Deduped(window, last, x.id, now) then [] else [x.id]
  }

  ghost function Ids(ts: seq<Task>): set<Id> {
    if ts == [] then {} else Ids(ts[..|ts| - 1]) + {ts[|ts| - 1].id}
  }

  lemma IdsElems(ts: seq<Task>, k: nat)
    requires k < |ts|
    ensures ts[k].id in Ids(ts)
  {
    if k < |ts| - 1 {
      IdsElems(ts[..|ts| - 1], k);
    }
  }

  lemma NotDedupedElems(window: int, last: map<Id, int>, ts: seq<Task>, now: int)
    ensures forall id :: id in NotDeduped(window, last, ts, now) <==> id in Ids(ts) && !Deduped(window, last, id, now)
  {
  }

  /** `popped` are distinct tasks of `d`, due at `now`, in order of deadline. */
  ghost predicate PoppedFrom(d: map<Id, int>, popped: seq<Task>, now: int) {
    && (forall k :: 0 <= k < |popped| ==> popped[k].id in d && d[popped[k].id] == popped[k].expire <= now)
    && (forall j, k :: 0 <= j < k < |popped| ==> popped[j].id != popped[k].id && popped[j].expire <= popped[k].expire)
  }

  lemma {:induction false} PopMore(d: map<Id, int>, popped: seq<Task>, now: int, x: Task)
    requires PoppedFrom(d, popped, now) && x.id in d && d[x.id] == x.expire <= now && x.id !in Ids(popped)
    requires forall k :: 0 <= k < |popped| ==> popped[k].expire <= x.expire
    ensures PoppedFrom(d, popped + [x], now) && Ids(popped + [x]) == Ids(popped) + {x.id}
  {
    assert (popped + [x])[..|popped|] == popped;
    forall k | 0 <= k < |popped| ensures popped[k].id != x.id {
      IdsElems(popped, k);
    }
  }

  class DelayQueue {
    const heap: IndexedTaskHeap
    var lastFired: map<Id, int>
    var window: int

    ghost predicate Valid()
      reads this, heap
    {
      heap.Valid()
    }

    ghost function View(): Queue
      reads this, heap
      requires Valid()
    {
      Queue(heap.View(), lastFired)
    }

    constructor (dedupWindow: int)
      ensures Valid() && View() == Queue(map[], map[]) && window == dedupWindow && fresh(heap)
    {
      heap := new IndexedTaskHeap();
      lastFired := map[];
      window := dedupWindow;
    }

    /** Inserts the task, or moves an existing one to its new deadline. */
    method Put(id: Id, t: int)
      requires Valid()
      modifies heap
      ensures Valid() && heap.View() == old(heap.View())[id := t]
    {
      if id in heap.index {
        heap.SetExpire(heap.index[id], t);
      } else {
        heap.Push(Task(id, t));
      }
    }

    method Add(id: Id, t: int)
      requires Valid()
      modifies heap
      ensures Valid() && View() == ApplyOp(window, old(View()), Op.Add(id, t))
    {
      Put(id, t);
    }

    method Remove(id: Id)
      requires Valid()
      modifies this, heap
      ensures Valid() && window == old(window)
      ensures View() == ApplyOp(window, old(View()), Op.Remove(id))
    {
      lastFired := lastFired - {id};
      if id in heap.index {
        var _ := heap.RemoveAt(heap.index[id]);
      }
    }

    method Reschedule(id: Id, t: int)
      requires Valid()
      modifies this, heap
      ensures Valid() && window == old(window)
      ensures View() == ApplyOp(window, old(View()), Op.Reschedule(id, t))
    {
      lastFired := lastFired - {id};
      Put(id, t);
    }

    method IsDeduped(id: Id, now: int) returns (yes: bool)
      modifies this`lastFired
      ensures yes == Deduped(window, old(lastFired), id, now)
      ensures lastFired == if window <= 0 || yes then old(lastFired) else old(lastFired)[id := now]
    {
      if window <= 0 {
        return false;
      }
      if id in lastFired && now - lastFired[id] < window {
        return true;
      }
      lastFired := lastFired[id := now];
      return false;
    }

    method CleanLastFired(now: int)
      modifies this`lastFired
      ensures lastFired == Cleaned(window, old(lastFired), now)
    {
      if window <= 0 {
        return;
      }
      var todo: set<Id> := lastFired.Keys;
      while todo != {}
        invariant todo <= lastFired.Keys && lastFired.Keys <= old(lastFired.Keys)
        invariant forall id :: id in lastFired ==> lastFired[id] == old(lastFired)[id]
        invariant forall id :: id in old(lastFired) && id !in todo ==>
                    (id in lastFired <==> now - old(lastFired)[id] < window)
        decreases todo
      {
        assert (forall id :: id !in todo) ==> todo == {};
        var id :| id in todo;
        todo := todo - {id};
        if now - lastFired[id] >= window {
          lastFired := lastFired - {id};
        }
      }
      ghost var last, cleaned := old(lastFired), Cleaned(window, old(lastFired), now);
      forall id ensures id in lastFired <==> id in cleaned {
        assert id in last ==> (id in lastFired <==> now - last[id] < window);
      }
      assert lastFired.Keys == cleaned.Keys;
      assert forall id :: id in cleaned ==> lastFired[id] == cleaned[id];
    }

    /** What holds between two rounds of the expiry loop started in `q0`. */
    ghost predicate Midway(q0: Queue, popped: seq<Task>, fired: seq<Id>, now: int)
      reads this, heap
    {
      && Valid() && PoppedFrom(q0.deadlines, popped, now) && heap.View() == q0.deadlines - Ids(popped)
      && fired == NotDeduped(window, q0.lastFired, popped, now)
      && lastFired == Recorded(window, q0.lastFired, Elems(fired), now)
      && NoneBefore(heap.View(), popped)
    }

    /** One round of the expiry loop: pop the root, and fire it unless suppressed. */
    method FireRoot(ghost q0: Queue, now: int, popped: seq<Task>, fired: seq<Id>)
      returns (popped': seq<Task>, fired': seq<Id>)
      requires Midway(q0, popped, fired, now) && |heap.tasks| > 0 && heap.tasks[0].expire <= now
      modifies this, heap
      ensures window == old(window) && |heap.tasks| == old(|heap.tasks|) - 1
      ensures Midway(q0, popped', fired', now)
    {
      ghost var d := heap.View();
      RootInView(heap.tasks, heap.index);
      var task := heap.RemoveAt(0);
      PopMore(q0.deadlines, popped, now, task);
      NoneBeforePop(d, popped, task);
      FireMore(window, q0.lastFired, popped, now, task);
      var suppressed := IsDeduped(task.id, now);
      popped' := popped + [task];
      fired' := if suppressed then fired else fired + [task.id];
      assert heap.View() == q0.deadlines - Ids(popped');
    }

    /** Pops every task due at `now`, earliest first, and fires those not suppressed. */
    method CheckExpired(now: int) returns (popped: seq<Task>, fired: seq<Id>)
      requires Valid()
      modifies this, heap
      ensures Valid() && window == old(window) && View() == ApplyOp(window, old(View()), Check(now))
      ensures PoppedFrom(old(View()).deadlines, popped, now) && Ids(popped) == Due(old(View()), now)
      ensures fired == NotDeduped(window, old(lastFired), popped, now)
      ensures Elems(fired) == Fires(window, old(View()), now)
    {
      ghost var q0 := View();
      popped, fired := [], [];
      while |heap.tasks| > 0 && heap.tasks[0].expire <= now
        invariant window == old(window) && Midway(q0, popped, fired, now)
        decreases |heap.tasks|
      {
        popped, fired := FireRoot(q0, now, popped, fired);
      }
      if |heap.tasks| > 0 {
        RootInView(heap.tasks, heap.index);
      }
      AllDuePopped(q0, heap.View(), popped, now);
      FiredExactly(window, q0, popped, now);
      CleanLastFired(now);
    }
  }

  /** Nothing in `d` is due before anything in `popped`. */
  ghost predicate NoneBefore(d: map<Id, int>, popped: seq<Task>) {
    forall k, id :: 0 <= k < |popped| && id in d ==> popped[k].expire <= d[id]
  }

  lemma RootInView(ts: seq<Task>, index: map<Id, nat>)
    requires Indexed(ts, index) && HeapOrdered(ts, |ts|) && ts != []
    ensures var d := Deadlines(ts, index);
      ts[0].id in d && d[ts[0].id] == ts[0].expire && forall id :: id in d ==> ts[0].expire <= d[id]
  {
    forall id | id in index ensures ts[0].expire <= ts[index[id]].expire {
      RootIsEarliest(ts, index[id]);
    }
  }

  lemma NoneBeforePop(d: map<Id, int>, popped: seq<Task>, x: Task)
    requires NoneBefore(d, popped) && x.id in d && d[x.id] == x.expire && forall id :: id in d ==> x.expire <= d[id]
    ensures NoneBefore(d - {x.id}, popped + [x])
  {
  }

  lemma FiredExactly(window: int, q: Queue, popped: seq<Task>, now: int)
    requires Ids(popped) == Due(q, now)
    ensures Elems(NotDeduped(window, q.lastFired, popped, now)) == Fires(window, q, now)
  {
    NotDedupedElems(window, q.lastFired, popped, now);
    forall id ensures id in Elems(NotDeduped(window, q.lastFired, popped, now)) <==> id in Fires(window, q, now) {
    }
  }

  lemma RecordMore(window: int, last: map<Id, int>, ids: set<Id>, now: int, id: Id)
    ensures Recorded(window, last, ids + {id}, now)
            == if window <= 0 then last else Recorded(window, last, ids, now)[id := now]
  {
  }

  /** Firing one more id, not popped before, against the records made so far. */
  lemma FireMore(window: int, last: map<Id, int>, popped: seq<Task>, now: int, x: Task)
    requires x.id !in Ids(popped)
    ensures var fired, fired' := NotDeduped(window, last, popped, now), NotDeduped(window, last, popped + [x], now);
      var recorded := Recorded(window, last, Elems(fired), now);
      var suppressed := Deduped(window, recorded, x.id, now);
      && fired' == (if suppressed then fired else fired + [x.id])
      && Recorded(window, last, Elems(fired'), now)
         == if window <= 0 || suppressed then recorded else recorded[x.id := now]
  {
    assert (popped + [x])[..|popped|] == popped;
    var fired := NotDeduped(window, last, popped, now);
    NotDedupedElems(window, last, popped, now);
    assert x.id !in Elems(fired);
    assert Deduped(window, Recorded(window, last, Elems(fired), now), x.id, now) == Deduped(window, last, x.id, now);
    assert Elems(fired + [x.id]) == Elems(fired) + {x.id};
    RecordMore(window, last, Elems(fired), now, x.id);
  }

  lemma PoppedAreDue(q: Queue, popped: seq<Task>, now: int, id: Id)
    requires PoppedFrom(q.deadlines, popped, now) && id in Ids(popped)
    ensures id in Due(q, now)
  {
    if id != popped[|popped| - 1].id {
      PoppedAreDue(q, popped[..|popped| - 1], now, id);
    }
  }

  lemma AllDuePopped(q: Queue, rest: map<Id, int>, popped: seq<Task>, now: int)
    requires PoppedFrom(q.deadlines, popped, now) && rest == q.deadlines - Ids(popped)
    requires forall id :: id in rest ==> rest[id] > now
    ensures Ids(popped) == Due(q, now)
  {
    forall id | id in Ids(popped) ensures id in Due(q, now) {
      PoppedAreDue(q, popped, now, id);
    }
    forall id | id in Due(q, now) ensures id in Ids(popped) {
      assert id in Ids(popped) || id in rest;
    }
  }

  // ------------------------------------------------------------------ over runs

  datatype Op =
    | Add(id: Id, t: int)
    | Remove(id: Id)
    | Reschedule(id: Id, t: int)
    | Check(now: int)

  function ApplyOp(window: int, q: Queue, op: Op): Queue {
    match op
    case Add(id, t) => q.(deadlines := q.deadlines[id := t])
    case Remove(id) => Queue(q.deadlines - {id}, q.lastFired - {id})
    case Reschedule(id, t) => Queue(q.deadlines[id := t], q.lastFired - {id})
    case Check(now) => AfterCheck(window, q, now)
  }

  /** The states a queue passes through under `ops`, and a clock that never goes back. */
  ghost predicate IsRun(window: int, qs: seq<Queue>, ops: seq<Op>) {
    && |qs| == |ops| + 1
    && (forall i :: 0 <= i < |ops| ==> qs[i + 1] == ApplyOp(window, qs[i], ops[i]))
    && (forall i, j :: 0 <= i < j < |ops| && ops[i].Check? && ops[j].Check? ==> ops[i].now <= ops[j].now)
  }

  ghost predicate Forgets(op: Op, id: Id) {
    (op.Remove? || op.Reschedule?) && op.id == id
  }

  ghost predicate FiresAt(window: int, qs: seq<Queue>, ops: seq<Op>, i: nat, id: Id)
    requires i < |ops| && |qs| == |ops| + 1
  {
    ops[i].Check? && id in Fires(window, qs[i], ops[i].now)
  }

  /** After a fire at `t`: the record still says so or later, or it is out of date. */
  ghost predicate Remembered(window: int, q: Queue, id: Id, t: int, clock: int) {
    (id in q.lastFired && q.lastFired[id] >= t) || clock - t >= window
  }

  lemma {:induction false} RememberedUntil(
    window: int, qs: seq<Queue>, ops: seq<Op>, i: nat, j: nat, id: Id, clock: int)
    requires window > 0 && IsRun(window, qs, ops) && i < j <= |ops| && FiresAt(window, qs, ops, i, id)
    requires forall k :: i < k < j ==> !Forgets(ops[k], id)
    requires forall k :: 0 <= k < j && ops[k].Check? ==> ops[k].now <= clock
    ensures Remembered(window, qs[j], id, ops[i].now, clock)
  {
    var q, op := qs[j - 1], ops[j - 1];
    assert qs[j] == ApplyOp(window, q, op);
    if j > i + 1 {
      RememberedUntil(window, qs, ops, i, j - 1, id, clock);
    }
  }

  /** With a fixed window and a clock that never goes back, two fires of one id
      with no Remove or Reschedule of it in between are at least a window apart. */
  lemma FiresAWindowApart(window: int, qs: seq<Queue>, ops: seq<Op>, i: nat, j: nat, id: Id)
    requires window > 0 && IsRun(window, qs, ops) && i < j < |ops|
    requires FiresAt(window, qs, ops, i, id) && FiresAt(window, qs, ops, j, id)
    requires forall k :: i < k < j ==> !Forgets(ops[k], id)
    ensures ops[j].now - ops[i].now >= window
  {
    RememberedUntil(window, qs, ops, i, j, id, ops[j].now);
  }

  /** A record of a fire is the record of a fire at that time, not forgotten since. */
  lemma {:induction false} RecordIsAFire(window: int, qs: seq<Queue>, ops: seq<Op>, j: nat, id: Id) returns (i: nat)
    requires IsRun(window, qs, ops) && qs[0].lastFired == map[] && j <= |ops| && id in qs[j].lastFired
    ensures window > 0 && i < j && FiresAt(window, qs, ops, i, id) && ops[i].now == qs[j].lastFired[id]
    ensures forall k :: i < k < j ==> !Forgets(ops[k], id)
  {
    assert j > 0 && qs[j] == ApplyOp(window, qs[j - 1], ops[j - 1]);
    if window > 0 && ops[j - 1].Check? && id in Fires(window, qs[j - 1], ops[j - 1].now) {
      i := j - 1;
    } else {
      i := RecordIsAFire(window, qs, ops, j - 1, id);
    }
  }

  /** Some check before `j`, less than a window before it, fired `id`, and nothing forgot that since. */
  ghost predicate FiredWithin(window: int, qs: seq<Queue>, ops: seq<Op>, i: nat, j: nat, id: Id)
    requires i < j < |ops| && |qs| == |ops| + 1 && ops[j].Check?
  {
    && FiresAt(window, qs, ops, i, id) && ops[j].now - ops[i].now < window
    && forall k :: i < k < j ==> !Forgets(ops[k], id)
  }

  /** From a queue that starts without records: an id due at a check fires there if
      and only if no earlier check fired it less than a window before, with no
      Remove or Reschedule of it in between. */
  lemma FiresIff(window: int, qs: seq<Queue>, ops: seq<Op>, j: nat, id: Id)
    requires IsRun(window, qs, ops) && qs[0].lastFired == map[] && j < |ops| && ops[j].Check?
    requires id in qs[j].deadlines && qs[j].deadlines[id] <= ops[j].now
    ensures FiresAt(window, qs, ops, j, id) <==>
      !exists i :: 0 <= i < j && FiredWithin(window, qs, ops, i, j, id)
  {
    if FiresAt(window, qs, ops, j, id) {
      forall i | 0 <= i < j ensures !FiredWithin(window, qs, ops, i, j, id) {
        if FiredWithin(window, qs, ops, i, j, id) {
          assert ops[i].now <= ops[j].now;
          FiresAWindowApart(window, qs, ops, i, j, id);
        }
      }
    } else {
      var i := RecordIsAFire(window, qs, ops, j, id);
      assert FiredWithin(window, qs, ops, i, j, id);
    }
  }

  /** After a check the queue remembers exactly the fires a later check still needs:
      those less than a window old and not forgotten, and none without a window. */
  lemma RecordsExact(window: int, qs: seq<Queue>, ops: seq<Op>, j: nat, id: Id)
    requires IsRun(window, qs, ops) && qs[0].lastFired == map[] && j < |ops| && ops[j].Check?
    ensures id in qs[j + 1].lastFired <==>
      && window > 0
      && (FiresAt(window, qs, ops, j, id) || exists i :: 0 <= i < j && FiredWithin(window, qs, ops, i, j, id))
  {
    assert qs[j + 1] == ApplyOp(window, qs[j], ops[j]);
    if id in qs[j + 1].lastFired {
      var i := RecordIsAFire(window, qs, ops, j + 1, id);
      if i < j {
        assert FiredWithin(window, qs, ops, i, j, id);
      }
    } else if window > 0 {
      forall i | 0 <= i < j ensures !FiredWithin(window, qs, ops, i, j, id) {
        if FiredWithin(window, qs, ops, i, j, id) {
          assert forall k :: 0 <= k < j && ops[k].Check? ==> ops[k].now <= ops[j].now;
          RememberedUntil(window, qs, ops, i, j + 1, id, ops[j].now);
        }
      }
    }
  }

  predicate Sets(op: Op, id: Id, t: int) {
    op == Add(id, t) || op == Reschedule(id, t)
  }

  /** The operation gives `id`, due at `t`, another deadline or none. */
  predicate Unsets(op: Op, id: Id, t: int) {
    if op.Check? then op.now >= t else op.id == id
  }

  ghost predicate SetSince(ops: seq<Op>, k: nat, i: nat, id: Id, t: int)
    requires k < i <= |ops|
  {
    Sets(ops[k], id, t) && forall m :: k < m < i ==> !Unsets(ops[m], id, t)
  }

  ghost predicate StillSet(ops: seq<Op>, i: nat, id: Id, t: int)
    requires i <= |ops|
  {
    exists k :: 0 <= k < i && SetSince(ops, k, i, id, t)
  }

  /** The deadlines a queue holds are what its history set last: `id` is due at `t`
      if and only if some Add or Reschedule said so and no operation on `id`, and
      no check at `t` or later, came after it. */
  lemma {:induction false} DeadlineIff(window: int, qs: seq<Queue>, ops: seq<Op>, i: nat, id: Id, t: int)
    requires IsRun(window, qs, ops) && qs[0].deadlines == map[] && i <= |ops|
    ensures id in qs[i].deadlines && qs[i].deadlines[id] == t <==> StillSet(ops, i, id, t)
  {
    if i == 0 {
    } else {
      DeadlineIff(window, qs, ops, i - 1, id, t);
      DeadlineStep(window, qs[i - 1], ops[i - 1], id, t);
      SetSinceNext(ops, i - 1, id, t);
    }
  }

  lemma DeadlineStep(window: int, q: Queue, op: Op, id: Id, t: int)
    ensures var q' := ApplyOp(window, q, op);
      (id in q'.deadlines && q'.deadlines[id] == t) <==>
        Sets(op, id, t) || (id in q.deadlines && q.deadlines[id] == t && !Unsets(op, id, t))
  {
  }

  lemma SetSinceNext(ops: seq<Op>, i: nat, id: Id, t: int)
    requires i < |ops|
    ensures StillSet(ops, i + 1, id, t) <==> Sets(ops[i], id, t) || (StillSet(ops, i, id, t) && !Unsets(ops[i], id, t))
  {
    if Sets(ops[i], id, t) {
      assert SetSince(ops, i, i + 1, id, t);
    }
    if StillSet(ops, i, id, t) && !Unsets(ops[i], id, t) {
      var k :| 0 <= k < i && SetSince(ops, k, i, id, t);
      assert SetSince(ops, k, i + 1, id, t);
    }
    if StillSet(ops, i + 1, id, t) {
      var n := i + 1;
      var k :| 0 <= k < n && SetSince(ops, k, n, id, t);
      assert k < i ==> SetSince(ops, k, i, id, t);
    }
  }
}
