/**
 Fan-out of published chunks to bounded client queues, as the steps that can
 interleave: one publisher (or the close that follows it), and clients that
 register, read in batches and leave. Chunks are named by their position in the
 published stream.
 */
module ClientFanout {
  const MAX_BATCH_CHUNKS: nat := 64

  datatype Item = Chunk(index: nat) | EndMark

  // `waiting` for a first chunk, `collecting` a batch, or done.
  datatype Reader = Waiting | Collecting(batch: seq<nat>) | Done

  datatype Client = Client(
    queue: seq<Item>,
    registered: bool,
    reader: Reader,
    first: nat,          // the first chunk published after it registered
    taken: seq<nat>,     // every chunk read from the queue
    yielded: seq<nat>,   // every chunk handed on in a complete batch
    lost: nat,           // chunks its drain has discarded
    evictions: nat,
    marks: nat)          // end marks put so far

  // What the publisher's thread is in the middle of.
  datatype Task =
    | Idle
    | Offering(pending: seq<nat>)
    | Evicting(client: nat, pending: seq<nat>)              // its queue was full
    | Draining(client: nat, pending: seq<nat>, closing: bool)
    | Ending(client: nat, pending: seq<nat>, closing: bool)   // its queue was seen empty
    | Retiring(pending: seq<nat>)                            // closing the others

  // A queue of capacity zero or less is unbounded.
  datatype World = World(capacity: int, clients: seq<Client>, published: nat, task: Task, closed: bool)

  predicate Full(w: World, c: nat)
    requires c < |w.clients|
  {
    w.capacity > 0 && |w.clients[c].queue| >= w.capacity
  }

  function Range(from: nat, count: nat): (r: seq<nat>)
    ensures |r| == count && forall i :: 0 <= i < count ==> r[i] == from + i
  {
    seq(count, i => from + i)
  }

  // The registered clients, in order of registration.
  function Listeners(clients: seq<Client>): (r: seq<nat>)
    ensures forall c :: c in r ==> c < |clients| && clients[c].registered
    ensures forall c :: 0 <= c < |clients| && clients[c].registered ==> c in r
    ensures forall i, j :: 0 <= i < j < |r| ==> r[i] < r[j]
  {
    if clients == [] then []
    else
      var n := |clients| - 1;
      var earlier := Listeners(clients[..n]);
      assert forall c :: 0 <= c < n && clients[c].registered ==> clients[..n][c].registered && c in earlier;
      assert forall i :: 0 <= i < |earlier| ==> earlier[i] in earlier;
      if clients[n].registered then earlier + [n] else earlier
  }

  datatype Event =
    | Register
    | Unregister(client: nat)
    | Publish          // snapshot the clients for the next chunk
    | Close            // take all clients; the publisher has stopped for good
    | Advance          // the publisher's thread does its next thing
    | Read(client: nat)   // a client does its next queue operation

  function Set(w: World, c: nat, client: Client): World
    requires c < |w.clients|
  {
    w.(clients := w.clients[c := client])
  }

  function Newcomer(w: World): Client { Client([], true, Waiting, w.published, [], [], 0, 0, 0) }

  // One operation of the publisher's thread.
  function Proceed(w: World): World {
    match w.task
    case Idle => w
    case Offering(pending) =>
      if pending == [] then w.(task := Idle)
      else if pending[0] >= |w.clients| || w.published == 0 then w
      else if Full(w, pending[0]) then w.(task := Evicting(pending[0], pending[1..]))
      else
        var client := w.clients[pending[0]];
        Set(w.(task := Offering(pending[1..])), pending[0], client.(queue := client.queue + [Chunk(w.published - 1)]))
    case Evicting(c, pending) =>
      if c >= |w.clients| then w
      else if !w.clients[c].registered then w.(task := Offering(pending))
      else
        Set(w.(task := Draining(c, pending, false)), c,
            w.clients[c].(registered := false, evictions := w.clients[c].evictions + 1))
    case Draining(c, pending, closing) =>
      if c >= |w.clients| then w
      else if w.clients[c].queue == [] then w.(task := Ending(c, pending, closing))
      else
        var client := w.clients[c];
        Set(w, c, client.(queue := client.queue[1..], lost := client.lost + if client.queue[0].Chunk? then 1 else 0))
    case Ending(c, pending, closing) =>
      if c >= |w.clients| then w
      else
        var client := w.clients[c];
        Set(w.(task := if closing then Retiring(pending) else Offering(pending)), c,
            client.(queue := client.queue + [EndMark], marks := client.marks + 1))
    case Retiring(pending) =>
      if pending == [] then w.(task := Idle) else w.(task := Draining(pending[0], pending[1..], true))
  }

  // One queue operation of a client collecting batches.
  function Receive(c: Client): Client {
    match c.reader
    case Done => c
    case Waiting =>
      if c.queue == [] then c   // blocked
      else if c.queue[0].EndMark? then c.(queue := c.queue[1..], reader := Done)
      else
        c.(queue := c.queue[1..], taken := c.taken + [c.queue[0].index], reader := Collecting([c.queue[0].index]))
    case Collecting(batch) =>
      if |batch| >= MAX_BATCH_CHUNKS || c.queue == [] then c.(reader := Waiting, yielded := c.yielded + batch)
      else if c.queue[0].EndMark? then c.(queue := c.queue[1..], reader := Done)   // the batch is dropped
      else
        c.(queue := c.queue[1..], taken := c.taken + [c.queue[0].index],
           reader := Collecting(batch + [c.queue[0].index]))
  }

  function Step(w: World, e: Event): World {
    match e
    case Register => w.(clients := w.clients + [Newcomer(w)])
    case Unregister(c) => if c >= |w.clients| then w else Set(w, c, w.clients[c].(registered := false))
    case Publish =>
      if !w.task.Idle? || w.closed then w
      else w.(published := w.published + 1, task := Offering(Listeners(w.clients)))
    case Close =>
      if !w.task.Idle? then w
      else
        w.(closed := true, task := Retiring(Listeners(w.clients)),
           clients := seq(|w.clients|, i requires 0 <= i < |w.clients| => w.clients[i].(registered := false)))
    case Advance => Proceed(w)
    case Read(c) => if c >= |w.clients| then w else Set(w, c, Receive(w.clients[c]))
  }

  // A read takes a chunk exactly when one is there for the batch.
  ghost predicate Takes(k: Client) {
    && k.queue != [] && k.queue[0].Chunk?
    && (k.reader.Waiting? || (k.reader.Collecting? && |k.reader.batch| < MAX_BATCH_CHUNKS))
  }

  // The read of a chunk that a running drain has already cut away from those before it.
  ghost predicate Overtakes(w: World, e: Event, c: nat) {
    e == Read(c) && c < |w.clients| && w.clients[c].lost > 0 && Takes(w.clients[c])
  }

  // The queue operation that ends a batch and hands it on.
  ghost predicate Completes(w: World, e: Event, c: nat) {
    && e == Read(c) && c < |w.clients|
    && var client := w.clients[c];
    && client.reader.Collecting? && (|client.reader.batch| >= MAX_BATCH_CHUNKS || client.queue == [])
  }
}
