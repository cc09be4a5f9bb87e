/**
 Configuration snapshots in two slots behind one commit marker: what a save writes,
 in which order, and what a load makes of whatever survived.
 */
module ConfigState {
  import opened Wrappers

  const MAX_STATE_BYTES: nat := 3840
  const MAX_MARKER_BYTES: nat := 256
  const DIGEST_CHARS: nat := 64

  // The parts of a configuration are opaque texts here.
  datatype PersistentState = PersistentState(
    config: Option<string>, boardId: Option<string>, boardDescriptor: Option<string>, profiles: Option<string>)

  datatype Slot = A | B {
    function Other(): Slot { if A? then B else A }
  }

  datatype Snapshot = Snapshot(slot: Slot, sha256: string)

  datatype Commit = Commit(active: Snapshot, previous: Option<Snapshot>)

  function PrintSnapshot(s: Snapshot): string {
    "{\"slot\":\"" + (if s.slot.A? then "A" else "B") + "\",\"sha256\":\"" + s.sha256 + "\"}"
  }

  function PrintPrevious(s: Option<Snapshot>): string {
    if s.None? then "null" else PrintSnapshot(s.value)
  }

  function PrintMarker(c: Commit): string {
    "{\"active\":" + (PrintSnapshot(c.active) + (",\"previous\":" + (PrintPrevious(c.previous) + "}")))
  }

  // Digests have a fixed length, so a marker's parts cannot be confused.
  ghost predicate Digested(c: Commit) {
    |c.active.sha256| == DIGEST_CHARS && (c.previous.Some? ==> |c.previous.value.sha256| == DIGEST_CHARS)
  }

  // The serialiser, the digest and the marker reader are parameters.
  datatype Codec = Codec(
    encode: PersistentState -> string,
    decode: string -> Option<PersistentState>,
    sha256: string -> string,
    readMarker: string -> Option<Commit>)
  {
    ghost predicate Lawful() {
      && (forall s :: decode(encode(s)) == Some(s))
      && (forall c :: Digested(c) ==> readMarker(PrintMarker(c)) == Some(c))
      && (forall x :: |sha256(x)| == DIGEST_CHARS)
    }

    // No two of these texts share a digest.
    ghost predicate CollisionFree(texts: set<string>) {
      forall x, y :: x in texts && y in texts && sha256(x) == sha256(y) ==> x == y
    }
  }

  datatype Store = Store(a: Option<string>, b: Option<string>, marker: Option<string>) {
    function Get(slot: Slot): Option<string> { if slot.A? then a else b }

    function Put(slot: Slot, text: Option<string>): Store {
      if slot.A? then this.(a := text) else this.(b := text)
    }
  }

  // The state a snapshot stands for, if its slot still holds it.
  function Held(codec: Codec, store: Store, s: Snapshot): Option<PersistentState> {
    var value := store.Get(s.slot);
    if value.None? || |value.value| > MAX_STATE_BYTES || codec.sha256(value.value) != s.sha256 then None
    else codec.decode(value.value)
  }

  function Marker(codec: Codec, store: Store): Option<Commit> {
    if store.marker.None? || |store.marker.value| > MAX_MARKER_BYTES then None
    else codec.readMarker(store.marker.value)
  }

  datatype Current = Current(snapshot: Snapshot, state: PersistentState)

  // The first of these snapshots that still holds.
  function FirstHeld(codec: Codec, store: Store, snapshots: seq<Snapshot>): Option<Current> {
    if snapshots == [] then None
    else
      var state := Held(codec, store, snapshots[0]);
      if state.Some? then Some(Current(snapshots[0], state.value)) else FirstHeld(codec, store, snapshots[1..])
  }

  function Order(c: Commit): seq<Snapshot> {
    [c.active] + if c.previous.Some? then [c.previous.value] else []
  }

  function Committed(codec: Codec, store: Store): Option<Current> {
    var marker := Marker(codec, store);
    if marker.None? then None else FirstHeld(codec, store, Order(marker.value))
  }

  function Load(codec: Codec, store: Store): Option<PersistentState> {
    var c := Committed(codec, store);
    if c.Some? then Some(c.value.state) else None
  }

  // ----- saving ----------------------------------------------------------------------

  predicate Oversized(codec: Codec, state: PersistentState) { |codec.encode(state)| > MAX_STATE_BYTES }

  function TargetSlot(codec: Codec, store: Store): Slot {
    var c := Committed(codec, store);
    if c.None? then A else c.value.snapshot.slot.Other()
  }

  // A reset never keeps a fallback, and an unconfigured state is never one.
  function NextCommit(codec: Codec, store: Store, state: PersistentState): Commit {
    var c := Committed(codec, store);
    Commit(Snapshot(TargetSlot(codec, store), codec.sha256(codec.encode(state))),
           if c.Some? && state.config.Some? && c.value.state.config.Some? then Some(c.value.snapshot) else None)
  }

  // The store after the first `applied` of a save's two writes.
  function SaveCut(codec: Codec, store: Store, state: PersistentState, applied: nat): Store {
    var slot := TargetSlot(codec, store);
    if Oversized(codec, state) || applied == 0 then store
    else
      var written := store.Put(slot, Some(codec.encode(state)));
      if applied == 1 then written
      else written.(marker := Some(PrintMarker(NextCommit(codec, store, state))))
  }

  // ----- one save ----------------------------------------------------------------------

  lemma SnapshotLength(s: Snapshot)
    ensures |PrintSnapshot(s)| == |s.sha256| + 24
  {}

  /** A marker of two snapshots always fits its record. */
  lemma MarkerFits(c: Commit)
    requires Digested(c)
    ensures |PrintMarker(c)| <= MAX_MARKER_BYTES
  {
    SnapshotLength(c.active);
    if c.previous.Some? { SnapshotLength(c.previous.value); }
  }

  lemma SnapshotInjective(x: Snapshot, y: Snapshot, a: string, b: string)
    requires |x.sha256| == |y.sha256| && PrintSnapshot(x) + a == PrintSnapshot(y) + b
    ensures x == y && a == b
  {
    var p, q, n := PrintSnapshot(x), PrintSnapshot(y), |x.sha256|;
    SnapshotLength(x);
    SnapshotLength(y);
    assert p == (p + a)[..|p|] && q == (q + b)[..|q|];
    assert a == (p + a)[|p|..] && b == (q + b)[|q|..];
    assert p[9] == (if x.slot.A? then 'A' else 'B') && q[9] == (if y.slot.A? then 'A' else 'B');
    assert p[22..22 + n] == x.sha256 && q[22..22 + n] == y.sha256;
  }

  lemma SamePrefix(h: string, p: string, q: string)
    requires h + p == h + q
    ensures p == q
  {
    assert p == (h + p)[|h|..] && q == (h + q)[|h|..];
  }

  lemma PreviousInjective(x: Option<Snapshot>, y: Option<Snapshot>)
    requires (x.Some? ==> |x.value.sha256| == DIGEST_CHARS) && (y.Some? ==> |y.value.sha256| == DIGEST_CHARS)
    requires PrintPrevious(x) + "}" == PrintPrevious(y) + "}"
    ensures x == y
  {
    assert (PrintPrevious(x) + "}")[0] == (if x.None? then 'n' else '{');
    assert (PrintPrevious(y) + "}")[0] == (if y.None? then 'n' else '{');
    if x.Some? && y.Some? { SnapshotInjective(x.value, y.value, "}", "}"); }
  }

  /** Different commits have different markers, so a reader of markers can tell them apart. */
  lemma MarkersDiffer(c: Commit, d: Commit)
    requires Digested(c) && Digested(d) && PrintMarker(c) == PrintMarker(d)
    ensures c == d
  {
    hide PrintSnapshot, PrintPrevious;
    var x, y := PrintPrevious(c.previous) + "}", PrintPrevious(d.previous) + "}";
    SamePrefix("{\"active\":", PrintSnapshot(c.active) + (",\"previous\":" + x),
               PrintSnapshot(d.active) + (",\"previous\":" + y));
    SnapshotInjective(c.active, d.active, ",\"previous\":" + x, ",\"previous\":" + y);
    SamePrefix(",\"previous\":", x, y);
    PreviousInjective(c.previous, d.previous);
  }

  lemma {:induction false} FirstHeldIsListed(codec: Codec, store: Store, snapshots: seq<Snapshot>)
    ensures var r := FirstHeld(codec, store, snapshots);
      r.Some? ==> r.value.snapshot in snapshots && Held(codec, store, r.value.snapshot) == Some(r.value.state)
    decreases |snapshots|
  {
    if snapshots != [] { FirstHeldIsListed(codec, store, snapshots[1..]); }
  }

  // The digest a current snapshot carries is that of the text in its slot.
  lemma CurrentDigest(codec: Codec, store: Store)
    requires codec.Lawful() && Committed(codec, store).Some?
    ensures |Committed(codec, store).value.snapshot.sha256| == DIGEST_CHARS
    ensures Held(codec, store, Committed(codec, store).value.snapshot) == Some(Committed(codec, store).value.state)
  {
    FirstHeldIsListed(codec, store, Order(Marker(codec, store).value));
  }

  lemma NewMarkerReads(codec: Codec, store: Store, state: PersistentState)
    requires codec.Lawful()
    ensures |PrintMarker(NextCommit(codec, store, state))| <= MAX_MARKER_BYTES
    ensures codec.readMarker(PrintMarker(NextCommit(codec, store, state))) == Some(NextCommit(codec, store, state))
  {
    if Committed(codec, store).Some? { CurrentDigest(codec, store); }
    MarkerFits(NextCommit(codec, store, state));
  }

  /** A completed save of a state that fits its slot loads back what was saved. */
  lemma SaveLoadsBack(codec: Codec, store: Store, state: PersistentState)
    requires codec.Lawful() && |codec.encode(state)| <= 3840
    ensures Load(codec, SaveCut(codec, store, state, 2)) == Some(state)
  {
    NewMarkerReads(codec, store, state);
    var after := SaveCut(codec, store, state, 2);
    assert Marker(codec, after) == Some(NextCommit(codec, store, state));
    assert Held(codec, after, NextCommit(codec, store, state).active) == Some(state);
  }

  // Writing one slot leaves every snapshot as it was, lost, or standing for the written state.
  lemma PutHeld(codec: Codec, store: Store, slot: Slot, state: PersistentState, s: Snapshot)
    requires codec.Lawful()
    ensures var after := store.Put(slot, Some(codec.encode(state)));
      if s.slot == slot then Held(codec, after, s) == None || Held(codec, after, s) == Some(state)
      else Held(codec, after, s) == Held(codec, store, s)
  {}

  lemma {:induction false} FirstHeldAfterPut(codec: Codec, store: Store, slot: Slot, state: PersistentState,
                                             snapshots: seq<Snapshot>)
    requires codec.Lawful()
    requires var c := FirstHeld(codec, store, snapshots); c.Some? ==> c.value.snapshot.slot != slot
    ensures var after := FirstHeld(codec, store.Put(slot, Some(codec.encode(state))), snapshots);
      after == FirstHeld(codec, store, snapshots) || (after.Some? && after.value.state == state)
    decreases |snapshots|
  {
    if snapshots != [] {
      PutHeld(codec, store, slot, state, snapshots[0]);
      if Held(codec, store, snapshots[0]).None? { FirstHeldAfterPut(codec, store, slot, state, snapshots[1..]); }
    }
  }

  /**
   A save cut at any write leaves the state before it or the state it was saving,
   whatever the store held: this includes saving while running on the fallback.
   */
  lemma SaveIsAtomic(codec: Codec, store: Store, state: PersistentState, applied: nat)
    requires codec.Lawful() && applied <= 2
    ensures var after := Load(codec, SaveCut(codec, store, state, applied));
      after == Load(codec, store) || after == Some(state)
  {
    if !Oversized(codec, state) {
      if applied == 1 {
        var slot, marker := TargetSlot(codec, store), Marker(codec, store);
        if marker.Some? { FirstHeldAfterPut(codec, store, slot, state, Order(marker.value)); }
      } else if applied == 2 {
        SaveLoadsBack(codec, store, state);
      }
    }
  }

  /** After two completed configured saves, damage to the active slot yields the earlier of the two. */
  lemma DamageFallsBack(codec: Codec, store: Store, first: PersistentState, second: PersistentState,
                        damage: Option<string>)
    requires codec.Lawful() && |codec.encode(first)| <= 3840 && |codec.encode(second)| <= 3840
    requires first.config.Some? && second.config.Some?
    requires damage.Some? ==> damage.value != codec.encode(second)
    requires damage.Some? ==> codec.CollisionFree({damage.value, codec.encode(second)})
    ensures var once := SaveCut(codec, store, first, 2);
      var twice := SaveCut(codec, once, second, 2);
      Load(codec, twice.Put(TargetSlot(codec, once), damage)) == Some(first)
  {
    var once := SaveCut(codec, store, first, 2);
    SaveLoadsBack(codec, store, first);
    NewMarkerReads(codec, store, first);
    var kept := NextCommit(codec, store, first).active;
    assert Committed(codec, once) == Some(Current(kept, first));
    NewMarkerReads(codec, once, second);
    var twice := SaveCut(codec, once, second, 2);
    var c := NextCommit(codec, once, second);
    var hurt := twice.Put(TargetSlot(codec, once), damage);
    assert Marker(codec, hurt) == Some(c) && c.previous == Some(kept);
    assert Held(codec, hurt, c.active) == None;
    assert Held(codec, hurt, kept) == Some(first);
    assert Order(c) == [c.active, kept] && Order(c)[1..] == [kept];
    assert FirstHeld(codec, hurt, [kept]) == Some(Current(kept, first));
    assert FirstHeld(codec, hurt, Order(c)) == FirstHeld(codec, hurt, [kept]);
  }
}
