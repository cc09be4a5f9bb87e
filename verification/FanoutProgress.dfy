/**
 That fan-out moves on: no queue grows past its capacity, only a client with a full queue is
 evicted, the publisher always finishes, and a client that goes on reading catches up.
 */
module FanoutProgress {
  import opened ClientFanout
  import opened FanoutSafety

  // ----- how long queues get --------------------------------------------------------------------

  ghost predicate Bounded(w: World) {
    w.capacity > 0 ==> forall c :: 0 <= c < |w.clients| ==> |w.clients[c].queue| <= w.capacity
  }

  lemma BoundedStep(w: World, e: Event)
    requires Inv(w) && Bounded(w)
    ensures Bounded(Step(w, e)) && Step(w, e).capacity == w.capacity
  {
    if w.task.Ending? { EndMarkFits(w); }
    hide Inv;
  }

  /** Over every interleaving, no queue is ever longer than the capacity. */
  lemma {:induction false} QueuesAreBounded(w: World, es: seq<Event>)
    requires Inv(w) && Bounded(w)
    ensures Bounded(Run(w, es)) && Inv(Run(w, es)) && Run(w, es).capacity == w.capacity
    decreases |es|
  {
    hide Inv, Step, Bounded;
    if es != [] {
      StepInv(w, es[0]);
      BoundedStep(w, es[0]);
      QueuesAreBounded(Step(w, es[0]), es[1..]);
    }
  }

  // ----- who is evicted ----------------------------------------------------------------------------

  // The publisher has a chunk for the client, whose queue holds as many unread as fit.
  ghost predicate FoundFull(w: World, c: nat) {
    && c < |w.clients| && w.task.Offering? && w.task.pending != [] && w.task.pending[0] == c
    && w.capacity > 0 && |w.clients[c].queue| == w.capacity
    && forall i :: 0 <= i < |w.clients[c].queue| ==> w.clients[c].queue[i].Chunk?
  }

  // The publisher is about to evict the client, or has.
  ghost predicate Condemned(w: World, c: nat) {
    c < |w.clients| && ((w.task.Evicting? && w.task.client == c) || w.clients[c].evictions > 0)
  }

  lemma CondemnedStep(w: World, e: Event, c: nat)
    requires Inv(w) && Bounded(w) && Condemned(Step(w, e), c)
    ensures Condemned(w, c) || FoundFull(w, c)
  {
    if e.Advance? {
      CondemnedAdvance(w, c);
    } else {
      OthersCondemnNone(w, e, c);
    }
    hide *;
  }

  lemma OthersCondemnNone(w: World, e: Event, c: nat)
    requires Inv(w) && !e.Advance? && Condemned(Step(w, e), c)
    ensures Condemned(w, c)
  {
    if w.task.Evicting? { assert Pending(w.task)[0] == w.task.client; }
    hide Sound, Proceed, Listeners;
  }

  lemma OfferedIsFull(w: World)
    requires Inv(w) && Bounded(w) && w.task.Offering? && w.task.pending != []
    requires w.task.pending[0] < |w.clients| && Full(w, w.task.pending[0])
    ensures FoundFull(w, w.task.pending[0])
  {
    var c := w.task.pending[0];
    assert c in Pending(w.task);
    assert Sound(w.clients[c], RoleOf(w, c));
    hide Straight, Batched;
  }

  lemma CondemnedAdvance(w: World, c: nat)
    requires Inv(w) && Bounded(w) && Condemned(Proceed(w), c)
    ensures Condemned(w, c) || FoundFull(w, c)
  {
    if w.task.Offering? && w.task.pending != [] && w.task.pending[0] < |w.clients| && Full(w, w.task.pending[0]) {
      OfferedIsFull(w);
    }
    hide Inv, FoundFull, Bounded;
  }

  // At some point of the run the client's queue was found full.
  ghost predicate WasFull(w: World, es: seq<Event>, c: nat)
    decreases |es|
  {
    es != [] && (FoundFull(w, c) || WasFull(Step(w, es[0]), es[1..], c))
  }

  /**
   Over every interleaving, a client is evicted only if the publisher came with a chunk when
   as many as the capacity were waiting unread.
   */
  lemma {:induction false} EvictedWasFull(w: World, es: seq<Event>, c: nat)
    requires Inv(w) && Bounded(w) && Condemned(Run(w, es), c)
    ensures Condemned(w, c) || WasFull(w, es, c)
    decreases |es|
  {
    hide Inv, Step, Bounded, Condemned, FoundFull;
    if es != [] {
      StepInv(w, es[0]);
      BoundedStep(w, es[0]);
      EvictedWasFull(Step(w, es[0]), es[1..], c);
      if Condemned(Step(w, es[0]), c) { CondemnedStep(w, es[0], c); }
    }
  }

  // ----- who has left --------------------------------------------------------------------------------

  // The client has left, and the publisher's thread is not busy with it.
  ghost predicate Gone(w: World, c: nat) {
    && c < |w.clients| && !w.clients[c].registered
    && var r := RoleOf(w, c); !r.pending && !r.cutting && !r.retires
  }

  ghost predicate EndOf(all: seq<Item>, end: seq<Item>) {
    |end| <= |all| && forall i :: 0 <= i < |end| ==> end[i] == all[|all| - |end| + i]
  }

  // What is queued is the end of what was, and the client has not been evicted since.
  ghost predicate OnlyRead(k: Client, n: Client) {
    EndOf(k.queue, n.queue) && n.evictions == k.evictions
  }

  lemma GoneStep(w: World, e: Event, c: nat)
    requires Inv(w) && Gone(w, c)
    ensures Gone(Step(w, e), c) && OnlyRead(w.clients[c], Step(w, e).clients[c])
  {
    if e.Advance? {
      GoneAdvance(w, c);
    } else {
      GoneOther(w, e, c);
    }
    hide *;
  }

  lemma GoneAdvance(w: World, c: nat)
    requires Inv(w) && Gone(w, c)
    ensures Gone(Step(w, Advance), c) && OnlyRead(w.clients[c], Step(w, Advance).clients[c])
  {
    if w.task.Offering? && w.task.pending != [] { TailDistinct(w.task.pending, |w.clients|); }
    if w.task.Retiring? && w.task.pending != [] { TailDistinct(w.task.pending, |w.clients|); }
    if w.task.Evicting? {
      assert Pending(w.task)[0] == w.task.client;
      assert Pending(w.task)[1..] == w.task.pending;
    }
    hide Inv, Sound, Receive, Listeners;
  }

  lemma GoneOther(w: World, e: Event, c: nat)
    requires Gone(w, c) && !e.Advance?
    ensures Gone(Step(w, e), c) && OnlyRead(w.clients[c], Step(w, e).clients[c])
  {
    if e == Read(c) {
      ReceiveOnlyReads(w.clients[c]);
      hide Receive, OnlyRead, Proceed, Listeners;
    } else {
      NotListening(w, c);
      SameIsRead(w, e, c);
      GoneRole(w, e, c);
      hide *;
    }
  }

  lemma GoneRole(w: World, e: Event, c: nat)
    requires Gone(w, c) && !e.Advance? && e != Read(c)
    ensures Gone(Step(w, e), c)
  {
    NotListening(w, c);
    hide Proceed, Receive, Listeners;
  }

  lemma NotListening(w: World, c: nat)
    requires c < |w.clients| && !w.clients[c].registered
    ensures c !in Listeners(w.clients)
  {}

  lemma ReceiveOnlyReads(k: Client)
    ensures OnlyRead(k, Receive(k)) && Receive(k).registered == k.registered
  {
    assert EndOf(k.queue, k.queue) && (k.queue != [] ==> EndOf(k.queue, k.queue[1..]));
    hide EndOf;
  }

  // Only its own reads touch the queue of a client.
  lemma SameIsRead(w: World, e: Event, c: nat)
    requires c < |w.clients| && !e.Advance? && e != Read(c)
    ensures c < |Step(w, e).clients| && OnlyRead(w.clients[c], Step(w, e).clients[c])
  {
    hide Proceed, Receive, Listeners;
  }

  lemma OnlyReadTwice(a: Client, b: Client, c: Client)
    requires OnlyRead(a, b) && OnlyRead(b, c)
    ensures OnlyRead(a, c)
  {}

  lemma {:induction false} GoneForGood(w: World, es: seq<Event>, c: nat)
    requires Inv(w) && Gone(w, c)
    ensures Gone(Run(w, es), c) && OnlyRead(w.clients[c], Run(w, es).clients[c])
    decreases |es|
  {
    hide Inv, Step;
    if es != [] {
      StepInv(w, es[0]);
      GoneStep(w, es[0], c);
      GoneForGood(Step(w, es[0]), es[1..], c);
      OnlyReadTwice(w.clients[c], Step(w, es[0]).clients[c], Run(w, es).clients[c]);
      hide OnlyRead, Gone;
    }
  }

  /**
   A client that leaves while nothing is being published is given nothing more, neither a
   chunk nor an end mark, and is not evicted, whatever comes; it can only read what it has.
   */
  lemma LeavingIsFinal(w: World, c: nat, es: seq<Event>)
    requires Inv(w) && w.task.Idle? && c < |w.clients|
    ensures var t := Run(Step(w, Unregister(c)), es);
      c < |t.clients| && !t.clients[c].registered && OnlyRead(w.clients[c], t.clients[c])
  {
    StepInv(w, Unregister(c));
    GoneForGood(Step(w, Unregister(c)), es, c);
  }

  // ----- the publisher finishes ----------------------------------------------------------------------

  function Times(e: Event, n: nat): seq<Event> { seq(n, _ => e) }

  lemma FirstOfTimes(w: World, e: Event, n: nat)
    ensures Run(w, Times(e, n + 1)) == Run(Step(w, e), Times(e, n))
  {
    assert Times(e, n + 1)[1..] == Times(e, n);
  }

  // The clients still to come, and what is left to do for the one at hand.
  function Ahead(t: Task): nat { if t.Idle? then 0 else |t.pending| }

  function Stage(t: Task): nat {
    match t
    case Idle => 0
    case Offering(_) => 1
    case Retiring(_) => 1
    case Ending(_, _, _) => 2
    case Draining(_, _, _) => 3
    case Evicting(_, _) => 4
  }

  function Unread(w: World): nat {
    if w.task.Draining? && w.task.client < |w.clients| then |w.clients[w.task.client].queue| else 0
  }

  lemma AdvanceMoves(w: World)
    requires Inv(w) && !w.task.Idle?
    ensures var v := Step(w, Advance);
      || Ahead(v.task) < Ahead(w.task)
      || (Ahead(v.task) == Ahead(w.task) && Stage(v.task) < Stage(w.task))
      || (Ahead(v.task) == Ahead(w.task) && Stage(v.task) == Stage(w.task) && Unread(v) < Unread(w))
  {
    if w.task.Evicting? { assert Pending(w.task)[0] == w.task.client; }
    if w.task.Offering? && w.task.pending != [] { assert Pending(w.task)[0] == w.task.pending[0]; }
    hide Sound;
  }

  /** From any state, so many steps of the publisher's thread finish what it is doing. */
  lemma {:induction false} PublisherFinishes(w: World) returns (n: nat)
    requires Inv(w)
    ensures Run(w, Times(Advance, n)).task.Idle? && Inv(Run(w, Times(Advance, n)))
    decreases Ahead(w.task), Stage(w.task), Unread(w)
  {
    if w.task.Idle? {
      n := 0;
    } else {
      AdvanceMoves(w);
      StepInv(w, Advance);
      hide Step, Inv;
      var m := PublisherFinishes(Step(w, Advance));
      n := m + 1;
      FirstOfTimes(w, Advance, m);
    }
  }

  // ----- the reader catches up -------------------------------------------------------------------------

  function Positions(queue: seq<Item>): (r: seq<nat>)
    requires OnlyChunks(queue)
    ensures |r| == |queue|
  {
    seq(|queue|, i requires 0 <= i < |queue| => queue[i].index)
  }

  function Steps(k: Client): nat { 2 * |k.queue| + if k.reader.Collecting? then 1 else 0 }

  lemma ReceiveMoves(k: Client)
    requires OnlyChunks(k.queue) && !k.reader.Done? && !(k.queue == [] && k.reader.Waiting?)
    ensures var n := Receive(k);
      && OnlyChunks(n.queue) && !n.reader.Done? && Steps(n) < Steps(k)
      && n.taken + Positions(n.queue) == k.taken + Positions(k.queue)
  {
    var n := Receive(k);
    if n.queue != k.queue {
      assert Positions(k.queue) == [k.queue[0].index] + Positions(k.queue[1..]);
      assert k.taken + [k.queue[0].index] + Positions(k.queue[1..]) == k.taken + Positions(k.queue);
    }
  }

  /**
   A client with only chunks in its queue hands on all of them, in order and with what it
   had already read, if it goes on reading.
   */
  lemma {:induction false} ReaderCatchesUp(w: World, c: nat) returns (n: nat)
    requires Inv(w) && c < |w.clients| && OnlyChunks(w.clients[c].queue) && !w.clients[c].reader.Done?
    ensures c < |Run(w, Times(Read(c), n)).clients|
    ensures var k, r := w.clients[c], Run(w, Times(Read(c), n)).clients[c];
      r.queue == [] && r.reader.Waiting? && r.yielded == r.taken == k.taken + Positions(k.queue)
    decreases Steps(w.clients[c])
  {
    var k := w.clients[c];
    if k.queue == [] && k.reader.Waiting? {
      n := 0;
      assert Sound(k, RoleOf(w, c));
      assert k.taken + Positions([]) == k.taken;
    } else {
      ReceiveMoves(k);
      StepInv(w, Read(c));
      var v := ReadOnly(w, c);
      hide *;
      var m := ReaderCatchesUp(v, c);
      n := m + 1;
      FirstOfTimes(w, Read(c), m);
    }
  }

  // A read is the client's own business.
  lemma ReadOnly(w: World, c: nat) returns (v: World)
    requires c < |w.clients|
    ensures v == Step(w, Read(c)) && |v.clients| == |w.clients| && v.clients[c] == Receive(w.clients[c])
  {
    v := Step(w, Read(c));
  }
}
