/** What every interleaving keeps, and exactly when a client's stream has a gap. */
module FanoutSafety {
  import opened ClientFanout

  // Clients that are still to be offered the chunk being published.
  function Pending(t: Task): seq<nat> {
    match t
    case Offering(pending) => pending
    case Evicting(c, pending) => [c] + pending
    case Draining(_, pending, closing) => if closing then [] else pending
    case Ending(_, pending, closing) => if closing then [] else pending
    case _ => []
  }

  // Clients whose queues a close is still to drain.
  function Retired(t: Task): seq<nat> {
    match t
    case Retiring(pending) => pending
    case Draining(_, pending, closing) => if closing then pending else []
    case Ending(_, pending, closing) => if closing then pending else []
    case _ => []
  }

  // What the publisher's thread means for one client.
  datatype Role = Role(pending: bool, cutting: bool, ending: bool, retires: bool, due: nat)

  function RoleOf(w: World, c: nat): Role {
    var pending := c in Pending(w.task);
    Role(pending, (w.task.Draining? || w.task.Ending?) && w.task.client == c, w.task.Ending? && w.task.client == c,
         c in Retired(w.task),
         // the chunk its queue gets next
         if pending && w.published > 0 then w.published - 1 else w.published)
  }

  ghost predicate Chunks(queue: seq<Item>, from: nat) {
    forall i :: 0 <= i < |queue| ==> queue[i] == Chunk(from + i)
  }

  ghost predicate OnlyChunks(queue: seq<Item>) {
    forall i :: 0 <= i < |queue| ==> queue[i].Chunk?
  }

  // What was taken is the published stream from the client's first chunk on, without a gap.
  ghost predicate Straight(k: Client) { k.taken == Range(k.first, |k.taken|) }

  // Only complete batches are handed on.
  ghost predicate Batched(k: Client) {
    match k.reader
    case Waiting => k.taken == k.yielded
    case Collecting(batch) => k.taken == k.yielded + batch
    case Done => k.yielded <= k.taken
  }

  ghost predicate Live(k: Client, r: Role) { k.registered || r.pending }

  ghost predicate Sound(k: Client, r: Role) {
    && Batched(k)
    && k.evictions <= 1 && k.marks <= 1
    && (k.registered ==> k.evictions == 0)
    && (k.evictions == 1 ==> k.marks == 1 || r.cutting)
    && (Live(k, r) ==> k.lost == 0 && k.marks == 0 && !r.cutting && !r.retires)
    && (r.retires ==> k.lost == 0 && k.marks == 0 && !r.cutting)
    && (r.cutting ==> k.marks == 0)
    && (r.ending ==> r.cutting && k.queue == [])
    && (k.lost > 0 ==> r.cutting || k.marks == 1)
    && (k.marks == 0 ==> OnlyChunks(k.queue) && !k.reader.Done?)
    && (k.marks == 1 ==> k.queue == [EndMark] || (k.queue == [] && k.reader.Done?))
    && (k.marks == 0 && Straight(k) ==> Chunks(k.queue, k.first + |k.taken| + k.lost))
    && (Live(k, r) && Straight(k) ==> k.first + |k.taken| + |k.queue| == r.due)
  }

  ghost predicate Distinct(s: seq<nat>, size: nat) {
    && (forall i :: 0 <= i < |s| ==> s[i] < size)
    && (forall i, j :: 0 <= i < j < |s| ==> s[i] != s[j])
  }

  ghost predicate Orderly(w: World) {
    && Distinct(Pending(w.task), |w.clients|) && Distinct(Retired(w.task), |w.clients|)
    && (Pending(w.task) != [] ==> w.published > 0)
    && ((w.task.Draining? || w.task.Ending?) ==> w.task.client < |w.clients|)
    && (w.closed ==> Pending(w.task) == [] && !w.task.Offering?)
    && (w.closed ==> w.task.Draining? || w.task.Ending? ==> w.task.closing)
    && (!w.closed ==> !w.task.Retiring? && (w.task.Draining? || w.task.Ending? ==> !w.task.closing))
  }

  ghost predicate Inv(w: World) {
    Orderly(w) && forall c {:trigger RoleOf(w, c)} :: 0 <= c < |w.clients| ==> Sound(w.clients[c], RoleOf(w, c))
  }

  lemma TailDistinct(s: seq<nat>, size: nat)
    requires Distinct(s, size) && s != []
    ensures Distinct(s[1..], size) && s[0] < size && s[0] !in s[1..]
    ensures forall x :: x in s <==> x == s[0] || x in s[1..]
  {
    assert s == [s[0]] + s[1..];
  }

  lemma ListenersDistinct(clients: seq<Client>)
    ensures Distinct(Listeners(clients), |clients|)
  {
    var r := Listeners(clients);
    forall i | 0 <= i < |r| ensures r[i] < |clients| { assert r[i] in r; }
  }

  // ----- one client, one operation ---------------------------------------------------------

  lemma RangeGrows(from: nat, count: nat)
    ensures Range(from, count) + [from + count] == Range(from, count + 1)
  {}

  lemma TakeStraight(k: Client, index: nat)
    ensures Straight(k.(taken := k.taken + [index])) <==> Straight(k) && index == k.first + |k.taken|
  {
    RangeGrows(k.first, |k.taken|);
    var n := k.(taken := k.taken + [index]);
    if Straight(n) {
      assert k.taken == n.taken[..|k.taken|] == Range(n.first, |n.taken|)[..|k.taken|];
      assert n.taken[|k.taken|] == k.first + |k.taken|;
    }
  }

  // Reading a chunk moves it from the queue's head to what was taken.
  lemma TakeSound(k: Client, r: Role, reader: Reader)
    requires Sound(k, r) && k.marks == 0 && k.queue != []
    requires Batched(k.(reader := reader, taken := k.taken + [k.queue[0].index])) && !reader.Done?
    ensures Sound(k.(queue := k.queue[1..], taken := k.taken + [k.queue[0].index], reader := reader), r)
  {
    hide Straight;
    TakeStraight(k, k.queue[0].index);
    var n := k.(queue := k.queue[1..], taken := k.taken + [k.queue[0].index], reader := reader);
    assert Straight(n) == Straight(k.(taken := k.taken + [k.queue[0].index])) by {
      StraightOf(n, k.(taken := n.taken));
    }
  }

  lemma StraightOf(a: Client, b: Client)
    requires a.taken == b.taken && a.first == b.first
    ensures Straight(a) == Straight(b)
  {}

  lemma ReceiveSound(k: Client, r: Role)
    requires Sound(k, r)
    ensures Sound(Receive(k), r)
  {
    var n := Receive(k);
    if n.taken != k.taken {
      TakeSound(k, r, n.reader);
    } else {
      StraightOf(n, k);
    }
  }

  // A put, an eviction, a discarded item, an end mark.
  lemma PutSound(k: Client, r: Role)
    requires Sound(k, r) && r.pending
    ensures Sound(k.(queue := k.queue + [Chunk(r.due)]), r.(pending := false, due := r.due + 1))
  {}

  lemma PopSound(k: Client, r: Role)
    requires Sound(k, r) && r.pending && k.registered
    ensures Sound(k.(registered := false, evictions := k.evictions + 1),
                  r.(pending := false, cutting := true, due := r.due + 1))
  {}

  lemma DiscardSound(k: Client, r: Role)
    requires Sound(k, r) && r.cutting && k.queue != []
    ensures Sound(k.(queue := k.queue[1..], lost := k.lost + if k.queue[0].Chunk? then 1 else 0), r)
  {}

  lemma MarkSound(k: Client, r: Role)
    requires Sound(k, r) && r.ending
    ensures Sound(k.(queue := k.queue + [EndMark], marks := k.marks + 1), r.(cutting := false, ending := false))
  {}

  lemma LeaveSound(k: Client, r: Role)
    requires Sound(k, r)
    ensures Sound(k.(registered := false), r)
  {}

  // ----- every event -----------------------------------------------------------------------

  // A client that the event does not touch, in a role that matters no more or less.
  lemma UntouchedSound(k: Client, r: Role, n: Role)
    requires Sound(k, r)
    requires n.cutting == r.cutting && n.ending == r.ending && n.retires == r.retires
    requires n.pending ==> r.pending || k.registered
    requires k.registered || n.pending ==> n.due == r.due
    ensures Sound(k, n)
  {}

  lemma RegisterInv(w: World)
    requires Inv(w)
    ensures Inv(Step(w, Register))
  {
    var v := Step(w, Register);
    forall c | 0 <= c < |v.clients| ensures Sound(v.clients[c], RoleOf(v, c)) {
      if c < |w.clients| { UntouchedSound(w.clients[c], RoleOf(w, c), RoleOf(v, c)); }
    }
  }

  lemma PublishInv(w: World)
    requires Inv(w)
    ensures Inv(Step(w, Publish))
  {
    var v := Step(w, Publish);
    ListenersDistinct(w.clients);
    forall c | 0 <= c < |v.clients| ensures Sound(v.clients[c], RoleOf(v, c)) {
      assert Sound(w.clients[c], RoleOf(w, c));
    }
  }

  lemma CloseInv(w: World)
    requires Inv(w)
    ensures Inv(Step(w, Close))
  {
    var v := Step(w, Close);
    ListenersDistinct(w.clients);
    forall c | 0 <= c < |v.clients| ensures Sound(v.clients[c], RoleOf(v, c)) {
      assert Sound(w.clients[c], RoleOf(w, c));
    }
  }

  lemma UnregisterInv(w: World, c: nat)
    requires Inv(w)
    ensures Inv(Step(w, Unregister(c)))
  {
    var v := Step(w, Unregister(c));
    forall d | 0 <= d < |v.clients| ensures Sound(v.clients[d], RoleOf(v, d)) {
      assert RoleOf(v, d) == RoleOf(w, d);
      LeaveSound(w.clients[d], RoleOf(w, d));
    }
  }

  lemma ReadInv(w: World, c: nat)
    requires Inv(w)
    ensures Inv(Step(w, Read(c)))
  {
    var v := Step(w, Read(c));
    forall d | 0 <= d < |v.clients| ensures Sound(v.clients[d], RoleOf(v, d)) {
      assert RoleOf(v, d) == RoleOf(w, d);
      ReceiveSound(w.clients[d], RoleOf(w, d));
    }
  }

  lemma OfferInv(w: World)
    requires Inv(w) && w.task.Offering?
    ensures Inv(Proceed(w))
  {
    var v, pending := Proceed(w), w.task.pending;
    if pending != [] { TailDistinct(pending, |w.clients|); }
    forall d | 0 <= d < |v.clients| ensures Sound(v.clients[d], RoleOf(v, d)) {
      assert Sound(w.clients[d], RoleOf(w, d));
      if pending == [] {
      } else if Full(w, pending[0]) {
        assert Pending(v.task) == [pending[0]] + pending[1..] == pending;
      } else if d == pending[0] {
        PutSound(w.clients[d], RoleOf(w, d));
      }
    }
  }

  lemma EvictInv(w: World)
    requires Inv(w) && w.task.Evicting?
    ensures Inv(Proceed(w))
  {
    var v, c, pending := Proceed(w), w.task.client, w.task.pending;
    assert ([c] + pending)[1..] == pending;
    TailDistinct([c] + pending, |w.clients|);
    forall d | 0 <= d < |v.clients| ensures Sound(v.clients[d], RoleOf(v, d)) {
      assert Sound(w.clients[d], RoleOf(w, d));
      if d == c && w.clients[c].registered {
        PopSound(w.clients[d], RoleOf(w, d));
      } else if d != c {
        UntouchedSound(w.clients[d], RoleOf(w, d), RoleOf(v, d));
      }
    }
  }

  lemma DrainInv(w: World)
    requires Inv(w) && w.task.Draining?
    ensures Inv(Proceed(w))
  {
    var v, c := Proceed(w), w.task.client;
    forall d | 0 <= d < |v.clients| ensures Sound(v.clients[d], RoleOf(v, d)) {
      assert Sound(w.clients[d], RoleOf(w, d));
      if d == c && w.clients[c].queue != [] { DiscardSound(w.clients[d], RoleOf(w, d)); }
    }
  }

  lemma EndInv(w: World)
    requires Inv(w) && w.task.Ending?
    ensures Inv(Proceed(w))
  {
    var v, c := Proceed(w), w.task.client;
    forall d | 0 <= d < |v.clients| ensures Sound(v.clients[d], RoleOf(v, d)) {
      assert Sound(w.clients[d], RoleOf(w, d));
      if d == c {
        MarkSound(w.clients[d], RoleOf(w, d));
      } else {
        assert RoleOf(v, d) == RoleOf(w, d);
      }
    }
  }

  lemma RetireInv(w: World)
    requires Inv(w) && w.task.Retiring?
    ensures Inv(Proceed(w))
  {
    var v, pending := Proceed(w), w.task.pending;
    if pending != [] { TailDistinct(pending, |w.clients|); }
    forall d | 0 <= d < |v.clients| ensures Sound(v.clients[d], RoleOf(v, d)) {
      assert Sound(w.clients[d], RoleOf(w, d));
    }
  }

  /** Every event of every interleaving keeps the invariant. */
  lemma StepInv(w: World, e: Event)
    requires Inv(w)
    ensures Inv(Step(w, e))
  {
    hide Inv;
    match e
    case Register => RegisterInv(w);
    case Unregister(c) => UnregisterInv(w, c);
    case Publish => PublishInv(w);
    case Close => CloseInv(w);
    case Read(c) => ReadInv(w, c);
    case Advance =>
      match w.task
      case Idle =>
      case Offering(_) => OfferInv(w);
      case Evicting(_, _) => EvictInv(w);
      case Draining(_, _, _) => DrainInv(w);
      case Ending(_, _, _) => EndInv(w);
      case Retiring(_) => RetireInv(w);
  }

  lemma StartInv(capacity: int)
    ensures Inv(World(capacity, [], 0, Idle, false))
  {}

  // ----- when a stream has a gap ---------------------------------------------------------------

  lemma OthersDoNotRead(w: World, e: Event, c: nat)
    requires Inv(w) && c < |w.clients| && e != Read(c)
    ensures c < |Step(w, e).clients|
    ensures var k, n := w.clients[c], Step(w, e).clients[c];
      n.taken == k.taken && n.first == k.first && n.yielded == k.yielded
  {
    hide Sound;
  }

  lemma ReceiveStraight(k: Client, r: Role)
    requires Sound(k, r)
    ensures var n := Receive(k);
      && n.first == k.first && k.yielded <= n.yielded
      && (Straight(n) <==> Straight(k) && !(Takes(k) && k.lost > 0))
  {
    var n := Receive(k);
    if n.taken != k.taken {
      TakeStraight(k, k.queue[0].index);
      StraightOf(n, k.(taken := n.taken));
    } else {
      StraightOf(n, k);
    }
    hide Straight, Range;
  }

  /** One event leaves a client's stream without a gap exactly unless it overtakes the client's drain. */
  lemma OneStepStraight(w: World, e: Event, c: nat)
    requires Inv(w) && c < |w.clients|
    ensures c < |Step(w, e).clients|
    ensures Straight(Step(w, e).clients[c]) <==> Straight(w.clients[c]) && !Overtakes(w, e, c)
    ensures Step(w, e).clients[c].first == w.clients[c].first
    ensures w.clients[c].yielded <= Step(w, e).clients[c].yielded
  {
    assert Sound(w.clients[c], RoleOf(w, c));
    hide Inv, Sound, Straight, RoleOf;
    if e == Read(c) {
      ReceiveStraight(w.clients[c], RoleOf(w, c));
      hide Receive, Proceed;
    } else {
      OthersDoNotRead(w, e, c);
      hide Step;
      StraightOf(Step(w, e).clients[c], w.clients[c]);
    }
  }

  function Run(w: World, es: seq<Event>): World
    decreases |es|
  {
    if es == [] then w else Run(Step(w, es[0]), es[1..])
  }

  ghost predicate NeverOvertaken(w: World, es: seq<Event>, c: nat)
    decreases |es|
  {
    es == [] || (!Overtakes(w, es[0], c) && NeverOvertaken(Step(w, es[0]), es[1..], c))
  }

  /**
   For every interleaving of one publisher with registering, reading and leaving
   clients: the chunks a client has read are the published stream from the first
   chunk after it registered, without a gap, if and only if it never read a chunk
   while its drain had already discarded one.
   */
  lemma {:induction false} StreamIsStraightExactly(w: World, es: seq<Event>, c: nat)
    requires Inv(w) && c < |w.clients|
    ensures Inv(Run(w, es)) && c < |Run(w, es).clients|
    ensures Straight(Run(w, es).clients[c]) <==> Straight(w.clients[c]) && NeverOvertaken(w, es, c)
    ensures Run(w, es).clients[c].first == w.clients[c].first
    decreases |es|
  {
    hide Inv, Step, Overtakes, Straight;
    if es != [] {
      StepInv(w, es[0]);
      OneStepStraight(w, es[0], c);
      StreamIsStraightExactly(Step(w, es[0]), es[1..], c);
    }
  }

  // What a client has handed on is the published stream from its first chunk on, without a gap.
  ghost predicate HandsOnStraight(k: Client) { k.yielded == Range(k.first, |k.yielded|) }

  // After an overtaking read (`tainted`: there has been one), no batch is completed.
  ghost predicate NothingTaintedHandedOn(w: World, es: seq<Event>, c: nat, tainted: bool)
    decreases |es|
  {
    es == [] || (
      && !(tainted && Completes(w, es[0], c))
      && NothingTaintedHandedOn(Step(w, es[0]), es[1..], c, tainted || Overtakes(w, es[0], c)))
  }

  lemma PrefixOfRange(s: seq<nat>, from: nat, count: nat)
    requires s <= Range(from, count)
    ensures s == Range(from, |s|)
  {}

  // A completed batch hands on everything read so far.
  lemma ReceiveHandsOn(k: Client, r: Role)
    requires Sound(k, r)
    ensures var n := Receive(k);
      if k.reader.Collecting? && (|k.reader.batch| >= MAX_BATCH_CHUNKS || k.queue == []) then n.yielded == k.taken
      else n.yielded == k.yielded
    ensures k.yielded <= k.taken && Receive(k).first == k.first
  {}

  lemma OneStepHandsOn(w: World, e: Event, c: nat)
    requires Inv(w) && c < |w.clients|
    ensures c < |Step(w, e).clients|
    ensures HandsOnStraight(Step(w, e).clients[c]) <==>
      HandsOnStraight(w.clients[c]) && !(Completes(w, e, c) && !Straight(w.clients[c]))
  {
    var k := w.clients[c];
    assert Sound(k, RoleOf(w, c));
    ReceiveHandsOn(k, RoleOf(w, c));
    if Straight(k) { PrefixOfRange(k.yielded, k.first, |k.taken|); }
    if e != Read(c) { OthersDoNotRead(w, e, c); }
    hide Sound, Receive, Inv, Range;
  }

  /**
   For every interleaving, what a client hands on is the published stream without a gap if
   and only if it completes no batch after a read that overtook its drain: a batch that
   the end mark cuts short is dropped, and then the gap is never seen.
   */
  lemma {:induction false} HandsOnStraightExactly(w: World, es: seq<Event>, c: nat)
    requires Inv(w) && c < |w.clients|
    ensures Inv(Run(w, es)) && c < |Run(w, es).clients|
    ensures HandsOnStraight(Run(w, es).clients[c]) <==>
      HandsOnStraight(w.clients[c]) && NothingTaintedHandedOn(w, es, c, !Straight(w.clients[c]))
    decreases |es|
  {
    hide Inv, Step, Overtakes, Completes, Straight, HandsOnStraight;
    if es != [] {
      StepInv(w, es[0]);
      OneStepStraight(w, es[0], c);
      OneStepHandsOn(w, es[0], c);
      HandsOnStraightExactly(Step(w, es[0]), es[1..], c);
    }
  }

  // A client registered after the close, as long as there is no other.
  ghost predicate Latecomer(w: World, c: nat) {
    && w.closed && c < |w.clients| && w.clients[c].queue == [] && w.clients[c].marks == 0
    && w.clients[c].reader.Waiting? && w.clients[c].taken == []
    && !RoleOf(w, c).retires && !RoleOf(w, c).cutting
  }

  lemma LatecomerStays(w: World, e: Event, c: nat)
    requires Inv(w) && Latecomer(w, c) && !e.Close?
    ensures Latecomer(Step(w, e), c)
  {
    if e.Advance? && w.task.Retiring? && w.task.pending != [] { TailDistinct(w.task.pending, |w.clients|); }
    hide Sound;
  }

  /** A client that registers after the close is given nothing, not even an end mark, until there is another close. */
  lemma {:induction false} LatecomersWait(w: World, es: seq<Event>, c: nat)
    requires Inv(w) && (forall e :: e in es ==> !e.Close?)
    requires Latecomer(w, c) || (w.closed && es != [] && es[0].Register? && c == |w.clients|)
    ensures Latecomer(Run(w, es), c)
    decreases |es|
  {
    hide Step, Latecomer;
    if es != [] {
      assert es[0] in es;
      StepInv(w, es[0]);
      if Latecomer(w, c) {
        LatecomerStays(w, es[0], c);
      } else {
        LatecomerStarts(w);
      }
      hide Inv;
      LatecomersWait(Step(w, es[0]), es[1..], c);
    }
  }

  lemma LatecomerStarts(w: World)
    requires Inv(w) && w.closed
    ensures Latecomer(Step(w, Register), |w.clients|)
  {
    hide Sound;
  }

  /** A newcomer's first chunk is the first one published after it registered, and its stream starts straight. */
  lemma NewcomerStarts(w: World)
    requires Inv(w)
    ensures var v := Step(w, Register);
      && |v.clients| == |w.clients| + 1 && v.clients[|w.clients|].first == w.published
      && Straight(v.clients[|w.clients|]) && HandsOnStraight(v.clients[|w.clients|])
  {}

  /** What a client hands on begins what it has read: an unfinished batch is dropped, never reordered or repeated. */
  lemma YieldsWhatItRead(w: World, c: nat)
    requires Inv(w) && c < |w.clients|
    ensures w.clients[c].yielded <= w.clients[c].taken
  {
    assert Sound(w.clients[c], RoleOf(w, c));
  }

  /**
   An eviction happens at most once and always ends the stream: once its drain is
   over, the queue holds the end mark alone or the client has read it.
   */
  lemma EvictionEndsTheStream(w: World, c: nat)
    requires Inv(w) && c < |w.clients|
    ensures var k := w.clients[c];
      && k.evictions <= 1 && k.marks <= 1 && (k.registered ==> k.evictions == 0)
      && (k.evictions == 1 && !RoleOf(w, c).cutting ==> k.queue == [EndMark] || (k.queue == [] && k.reader.Done?))
  {
    assert Sound(w.clients[c], RoleOf(w, c));
  }

  /** The end mark always fits: the queue is still empty when it is put. */
  lemma EndMarkFits(w: World)
    requires Inv(w) && w.task.Ending?
    ensures w.task.client < |w.clients| && w.clients[w.task.client].queue == [] && !Full(w, w.task.client)
  {
    assert Sound(w.clients[w.task.client], RoleOf(w, w.task.client));
  }

  /** A registered client misses nothing: its queue and what it read reach up to the chunk it is next due. */
  lemma ListenerIsUpToDate(w: World, c: nat)
    requires Inv(w) && c < |w.clients| && w.clients[c].registered && Straight(w.clients[c])
    ensures var k := w.clients[c]; k.first + |k.taken| + |k.queue| == RoleOf(w, c).due
  {
    assert Sound(w.clients[c], RoleOf(w, c));
  }

  // ----- a gap ------------------------------------------------------------------------------------

  function Solo(queue: seq<Item>, registered: bool, reader: Reader, taken: seq<nat>, yielded: seq<nat>,
                lost: nat, evictions: nat): Client {
    Client(queue, registered, reader, 0, taken, yielded, lost, evictions, 0)
  }

  // One client that has handed on chunk 0 and has a full queue of two.
  const BEHIND := One(Solo([Chunk(1), Chunk(2)], true, Waiting, [0], [0], 0, 0), 3, Idle)

  function One(k: Client, published: nat, task: Task): World { World(2, [k], published, task, false) }

  lemma ReadOne(k: Client, published: nat, task: Task)
    ensures Step(One(k, published, task), Read(0)) == One(Receive(k), published, task)
  {}

  lemma ListenOne(k: Client)
    requires k.registered
    ensures Listeners([k]) == [0]
  {
    assert [k][..0] == [];
  }

  // A chunk published to one client with room for it.
  lemma PublishToOne(k: Client, n: nat)
    requires k.registered && |k.queue| < 2
    ensures Step(Step(Step(One(k, n, Idle), Publish), Advance), Advance)
         == One(k.(queue := k.queue + [Chunk(n)]), n + 1, Idle)
  {
    ListenOne(k);
    hide Listeners;
    var b := Step(One(k, n, Idle), Publish);
    assert b == One(k, n + 1, Offering([0]));
    var none: seq<nat> := [];
    assert [0][1..] == none;
    var next := k.(queue := k.queue + [Chunk(n)]);
    assert [k][0 := next] == [next];
    assert Step(b, Advance) == One(next, n + 1, Offering([]));
  }

  // A client that has read and handed on the first chunk.
  const CAUGHT_UP := Solo([], true, Waiting, [0], [0], 0, 0)

  lemma CaughtUpIsReached()
    ensures Run(World(2, [], 0, Idle, false), [Register, Publish, Advance, Advance, Read(0), Read(0)])
         == One(CAUGHT_UP, 1, Idle)
  {
    var start := World(2, [], 0, Idle, false);
    var a := Solo([], true, Waiting, [], [], 0, 0);
    assert Step(start, Register) == One(a, 0, Idle);
    PublishToOne(a, 0);
    hide Step, Listeners;
    RunSix(start, Register, Publish, Advance, Advance, Read(0), Read(0));
    var b := Solo([Chunk(0)], true, Waiting, [], [], 0, 0);
    assert a.queue + [Chunk(0)] == [Chunk(0)];
    ReadOne(b, 1, Idle);
    var c := Solo([], true, Collecting([0]), [0], [], 0, 0);
    assert Receive(b) == c;
    ReadOne(c, 1, Idle);
    assert Receive(c) == CAUGHT_UP;
  }

  lemma BehindIsReached()
    ensures Run(One(CAUGHT_UP, 1, Idle), [Publish, Advance, Advance, Publish, Advance, Advance]) == BEHIND
  {
    hide Step, Listeners;
    RunSix(One(CAUGHT_UP, 1, Idle), Publish, Advance, Advance, Publish, Advance, Advance);
    PublishToOne(CAUGHT_UP, 1);
    assert CAUGHT_UP.queue + [Chunk(1)] == [Chunk(1)] && [Chunk(1)] + [Chunk(2)] == [Chunk(1), Chunk(2)];
    PublishToOne(CAUGHT_UP.(queue := [Chunk(1)]), 2);
  }

  lemma RunSix(w: World, a: Event, b: Event, c: Event, d: Event, e: Event, f: Event)
    ensures Run(w, [a, b, c, d, e, f]) == Step(Step(Step(Step(Step(Step(w, a), b), c), d), e), f)
  {
    var none: seq<Event> := [];
    assert [f][1..] == none && [e, f][1..] == [f] && [d, e, f][1..] == [e, f] && [c, d, e, f][1..] == [d, e, f];
    assert [b, c, d, e, f][1..] == [c, d, e, f] && [a, b, c, d, e, f][1..] == [b, c, d, e, f];
    var v := Step(Step(Step(w, a), b), c);
    assert Run(v, [d, e, f]) == Step(Step(Step(v, d), e), f) by {
      assert Run(Step(Step(v, d), e), [f]) == Step(Step(Step(v, d), e), f);
    }
    assert Run(Step(w, a), [b, c, d, e, f]) == Run(v, [d, e, f]) by {
      assert Run(Step(Step(w, a), b), [c, d, e, f]) == Run(v, [d, e, f]);
    }
  }

  lemma GapOpens()
    ensures Run(BEHIND, [Publish, Advance, Advance, Advance, Read(0), Read(0)])
         == One(Solo([], false, Waiting, [0, 2], [0, 2], 1, 1), 4, Draining(0, [], false))
  {
    var k := BEHIND.clients[0];
    ListenOne(k);
    RunSix(BEHIND, Publish, Advance, Advance, Advance, Read(0), Read(0));
    hide Listeners, Run;
    assert Step(BEHIND, Publish) == One(k, 4, Offering([0]));
    assert Step(One(k, 4, Offering([0])), Advance) == One(k, 4, Evicting(0, []));
    var out := k.(registered := false, evictions := 1);
    assert Step(One(k, 4, Evicting(0, [])), Advance) == One(out, 4, Draining(0, [], false));
    var cut := out.(queue := [Chunk(2)], lost := 1);
    assert Step(One(out, 4, Draining(0, [], false)), Advance) == One(cut, 4, Draining(0, [], false));
    ReadOne(cut, 4, Draining(0, [], false));
    var read := cut.(queue := [], taken := [0, 2], reader := Collecting([2]));
    assert Receive(cut) == read;
    ReadOne(read, 4, Draining(0, [], false));
    assert Receive(read).yielded == [0, 2];
  }

  lemma {:induction false} RunSplit(w: World, a: seq<Event>, b: seq<Event>)
    ensures Run(w, a + b) == Run(Run(w, a), b)
    decreases |a|
  {
    hide Step;
    if a == [] {
      assert a + b == b;
    } else {
      RunSplit(Step(w, a[0]), a[1..], b);
      assert (a + b)[1..] == a[1..] + b;
    }
  }

  // Register and hand on chunk 0; fall two chunks behind; be evicted and read on.
  const OVERTAKING: seq<Event> :=
    [Register, Publish, Advance, Advance, Read(0), Read(0)]
    + [Publish, Advance, Advance, Publish, Advance, Advance]
    + [Publish, Advance, Advance, Advance, Read(0), Read(0)]

  /**
   A stream with a gap, from the start: the publisher finds the queue full, evicts the
   client and has discarded chunk 1 when the client reads chunk 2 and hands it on.
   */
  lemma ADrainCanBeOvertaken()
    ensures Run(World(2, [], 0, Idle, false), OVERTAKING)
         == One(Solo([], false, Waiting, [0, 2], [0, 2], 1, 1), 4, Draining(0, [], false))
  {
    var start := World(2, [], 0, Idle, false);
    var a := [Register, Publish, Advance, Advance, Read(0), Read(0)];
    var b := [Publish, Advance, Advance, Publish, Advance, Advance];
    var c := [Publish, Advance, Advance, Advance, Read(0), Read(0)];
    hide Step, Run;
    CaughtUpIsReached();
    BehindIsReached();
    GapOpens();
    RunSplit(start, a + b, c);
    RunSplit(start, a, b);
  }
}
