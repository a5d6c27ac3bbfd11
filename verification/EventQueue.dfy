/** The application's bounded event queues: the newest events win, the oldest are dropped. */
module EventQueue {

  const CAPACITY: nat := 200

  /** The life of a queue: everything pushed, how much of it is still queued, and which positions of `pushed`
      went to pollers and which were dropped. */
  datatype Window<T> = Window(pushed: seq<T>, queued: nat, polled: seq<nat>, dropped: seq<nat>)

  function Gone<T>(w: Window<T>): int {
    |w.pushed| - w.queued
  }

  function Queue<T>(w: Window<T>): seq<T>
    requires w.queued <= |w.pushed|
  {
    w.pushed[Gone(w)..]
  }

  predicate Increasing(s: seq<nat>) {
    forall i, j :: 0 <= i < j < |s| ==> s[i] < s[j]
  }

  /** The queue is the newest part of what was pushed; every older event was polled or dropped, never both,
      each at most once and in order. */
  ghost predicate Accounted<T>(w: Window<T>) {
    && w.queued <= |w.pushed| && w.queued <= CAPACITY
    && Increasing(w.polled) && Increasing(w.dropped)
    && (forall k :: k in w.polled || k in w.dropped <==> 0 <= k < Gone(w))
    && (forall k :: k in w.polled ==> k !in w.dropped)
    && |w.pushed| == |w.polled| + |w.dropped| + w.queued
  }

  function EmptyWindow<T>(): Window<T> {
    Window([], 0, [], [])
  }

  function Send<T>(w: Window<T>, e: T): Window<T> {
    w.(pushed := w.pushed + [e], queued := w.queued + 1)
  }

  function DropOldest<T>(w: Window<T>): Window<T>
    requires 0 < w.queued <= |w.pushed|
  {
    w.(queued := w.queued - 1, dropped := w.dropped + [Gone(w)])
  }

  function PollOldest<T>(w: Window<T>): Window<T>
    requires 0 < w.queued <= |w.pushed|
  {
    w.(queued := w.queued - 1, polled := w.polled + [Gone(w)])
  }

  lemma SendIsAccounted<T>(w: Window<T>, e: T)
    requires Accounted(w) && w.queued < CAPACITY
    ensures Accounted(Send(w, e)) && Queue(Send(w, e)) == Queue(w) + [e]
  {
  }

  lemma TakeIsAccounted<T>(w: Window<T>)
    requires Accounted(w) && w.queued > 0
    ensures Accounted(DropOldest(w)) && Accounted(PollOldest(w))
    ensures Queue(w) == [Queue(w)[0]] + Queue(DropOldest(w))
    ensures Queue(w) == [Queue(w)[0]] + Queue(PollOldest(w))
    ensures Queue(w)[0] == w.pushed[Gone(w)]
  {
    NextIndex(w, w.polled);
    NextIndex(w, w.dropped);
  }

  lemma NextIndex<T>(w: Window<T>, s: seq<nat>)
    requires Accounted(w) && w.queued > 0 && (s == w.polled || s == w.dropped)
    ensures Increasing(s + [Gone(w)])
    ensures forall k :: k in s + [Gone(w)] <==> k in s || k == Gone(w)
    ensures Gone(w) !in w.polled && Gone(w) !in w.dropped
  {
    forall i | 0 <= i < |s| ensures s[i] < Gone(w) {
      assert s[i] in s;
    }
  }

  /** A heap block holding one event. */
  class Block<T> {
    var value: T

    constructor (v: T)
      ensures value == v
    {
      value := v;
    }
  }

  /** onReport / app_get_report (and their response twins) under their mutex. */
  class AppQueue<T> {
    var queue: seq<Block<T>>
    ghost var life: Window<T>
    /** Blocks allocated and not yet freed. */
    ghost var live: set<Block<T>>

    /** The queue's blocks, and besides them only `extra`, are allocated. */
    ghost predicate ValidWith(extra: set<Block<T>>)
      reads this, live
    {
      && Accounted(life) && |queue| == life.queued
      && live == (set b | b in queue) + extra
      && (forall b :: b in extra ==> b !in queue)
      && (forall i, j :: 0 <= i < j < |queue| ==> queue[i] != queue[j])
      && (forall i :: 0 <= i < |queue| ==> queue[i].value == Queue(life)[i])
    }

    ghost predicate Valid()
      reads this, live
    {
      ValidWith({})
    }

    constructor ()
      ensures Valid() && fresh(live) && life == EmptyWindow<T>()
    {
      queue := [];
      life := EmptyWindow();
      live := {};
    }

    /** platform_queue_send without waiting. */
    method TrySend(b: Block<T>) returns (ok: bool)
      modifies this`queue
      ensures ok <==> old(|queue|) < CAPACITY
      ensures queue == if ok then old(queue) + [b] else old(queue)
    {
      ok := |queue| < CAPACITY;
      if ok {
        queue := queue + [b];
      }
    }

    /** platform_queue_get without waiting. */
    method TryGet() returns (b: Block?<T>)
      modifies this`queue
      ensures b == null <==> old(queue) == []
      ensures b != null ==> b == old(queue)[0] && queue == old(queue)[1..]
      ensures b == null ==> queue == old(queue)
    {
      if queue == [] {
        return null;
      }
      b := queue[0];
      queue := queue[1..];
    }

    /** platform_free. A second free of the same block would violate its precondition. */
    ghost method Free(b: Block<T>)
      requires b in live
      modifies this`live
      ensures live == old(live) - {b}
    {
      live := live - {b};
    }

    method Enqueue(buff: Block<T>, e: T) returns (ok: bool)
      requires ValidWith({buff}) && buff.value == e
      modifies this
      ensures ok <==> old(|queue|) < CAPACITY
      ensures if ok then Valid() && life == Send(old(life), e) && live == old(live)
              else ValidWith({buff}) && life == old(life) && live == old(live) && queue == old(queue)
    {
      ok := TrySend(buff);
      if ok {
        SendIsAccounted(life, e);
        life := Send(life, e);
      }
    }

    /** Take the oldest pointer out and free its block. */
    method DiscardOldest(ghost extra: set<Block<T>>)
      requires ValidWith(extra) && |queue| == CAPACITY
      modifies this
      ensures ValidWith(extra) && life == DropOldest(old(life)) && live <= old(live)
      ensures |queue| == CAPACITY - 1
    {
      TakeIsAccounted(life);
      var garbage := TryGet();
      Free(garbage);
      life := DropOldest(life);
    }

    /** A new event goes in; a full queue first loses its oldest. The branch behind a failing second send
        is proved unreachable. */
    method OnEvent(e: T, granted: bool)
      requires Valid()
      modifies this
      ensures Valid() && fresh(live - old(live))
      ensures life == if !granted then old(life)
                      else if old(life).queued < CAPACITY then Send(old(life), e)
                      else Send(DropOldest(old(life)), e)
    {
      if !granted {
        return;
      }
      var buff := new Block(e);
      live := live + {buff};
      var sent := Enqueue(buff, e);
      if !sent {
        DiscardOldest({buff});
        sent := Enqueue(buff, e);
        if !sent {
          assert false;
        }
      }
    }

    /** The oldest queued event, if any. */
    method GetEvent() returns (found: bool, out: seq<T>)
      requires Valid()
      modifies this
      ensures Valid() && live <= old(live)
      ensures found <==> old(life).queued > 0
      ensures found ==> out == [old(life).pushed[Gone(old(life))]] && life == PollOldest(old(life))
      ensures !found ==> out == [] && life == old(life)
    {
      var buff := TryGet();
      found, out := buff != null, [];
      if buff != null {
        TakeIsAccounted(life);
        out := [buff.value];
        Free(buff);
        life := PollOldest(life);
      }
    }
  }
}
