/**
 Runs of saves cut at any write with slots damaged at any time: what a load can
 ever return, and the store as an object.
 */
module ConfigRuns {
  import opened Wrappers
  import opened ConfigState

  datatype Event =
    | Save(state: PersistentState, applied: nat)      // cut after so many of its two writes
    | Damage(slot: Slot, text: Option<string>)        // a slot changed behind the store's back
    | LoseMarker(text: Option<string>)                // a marker that no longer reads as one

  ghost predicate Possible(codec: Codec, texts: set<string>, e: Event) {
    match e
    case Save(state, applied) => applied <= 2 && codec.encode(state) in texts
    case Damage(_, text) => text.Some? ==> text.value in texts
    case LoseMarker(text) => text.Some? ==> |text.value| > MAX_MARKER_BYTES || codec.readMarker(text.value).None?
  }

  function Step(codec: Codec, store: Store, e: Event): Store {
    match e
    case Save(state, applied) => SaveCut(codec, store, state, applied)
    case Damage(slot, text) => store.Put(slot, text)
    case LoseMarker(text) => store.(marker := text)
  }

  predicate Completed(codec: Codec, e: Event) { e.Save? && e.applied == 2 && !Oversized(codec, e.state) }

  // The states that may still be returned: the last one fully committed, and what was
  // loaded just before it, unless one of the two has no configuration.
  ghost function Live(codec: Codec, store: Store, live: set<PersistentState>, e: Event): set<PersistentState> {
    if !Completed(codec, e) then live
    else
      var before := Load(codec, store);
      {e.state} + (if e.state.config.Some? && before.Some? && before.value.config.Some? then {before.value} else {})
  }

  ghost predicate Names(codec: Codec, live: set<PersistentState>, s: Snapshot) {
    exists p :: p in live && s.sha256 == codec.sha256(codec.encode(p))
  }

  // The marker only names live states, in different slots; every text is one of the run's.
  ghost predicate Inv(codec: Codec, texts: set<string>, live: set<PersistentState>, store: Store) {
    && (forall p :: p in live ==> codec.encode(p) in texts)
    && (store.a.Some? ==> store.a.value in texts)
    && (store.b.Some? ==> store.b.value in texts)
    && (var m := Marker(codec, store);
        m.Some? ==>
          && Names(codec, live, m.value.active)
          && (m.value.previous.Some? ==>
                Names(codec, live, m.value.previous.value) && m.value.previous.value.slot != m.value.active.slot))
  }

  // A snapshot that holds is, byte for byte, a live state.
  lemma HeldIsLive(codec: Codec, texts: set<string>, live: set<PersistentState>, store: Store, s: Snapshot)
    requires codec.Lawful() && codec.CollisionFree(texts) && Inv(codec, texts, live, store)
    requires Names(codec, live, s) && Held(codec, store, s).Some?
    ensures Held(codec, store, s).value in live
    ensures store.Get(s.slot) == Some(codec.encode(Held(codec, store, s).value))
  {
    var p :| p in live && s.sha256 == codec.sha256(codec.encode(p));
    assert store.Get(s.slot).value == codec.encode(p);
    assert codec.decode(codec.encode(p)) == Some(p);
  }

  lemma CurrentIsLive(codec: Codec, texts: set<string>, live: set<PersistentState>, store: Store)
    requires codec.Lawful() && codec.CollisionFree(texts) && Inv(codec, texts, live, store)
    ensures var c := Committed(codec, store);
      c.Some? ==>
        && c.value.state in live && Names(codec, live, c.value.snapshot)
        && store.Get(c.value.snapshot.slot) == Some(codec.encode(c.value.state))
  {
    var c := Committed(codec, store);
    if c.Some? {
      FirstHeldIsListed(codec, store, Order(Marker(codec, store).value));
      HeldIsLive(codec, texts, live, store, c.value.snapshot);
    }
  }

  lemma SaveInv(codec: Codec, texts: set<string>, live: set<PersistentState>, store: Store, e: Event)
    requires codec.Lawful() && codec.CollisionFree(texts) && Inv(codec, texts, live, store)
    requires e.Save? && Possible(codec, texts, e)
    ensures Inv(codec, texts, Live(codec, store, live, e), Step(codec, store, e))
  {
    if Completed(codec, e) {
      CurrentIsLive(codec, texts, live, store);
      NewMarkerReads(codec, store, e.state);
      var after, live' := Step(codec, store, e), Live(codec, store, live, e);
      var c := NextCommit(codec, store, e.state);
      assert Marker(codec, after) == Some(c);
      assert e.state in live' && Names(codec, live', c.active);
      if c.previous.Some? {
        var current := Committed(codec, store).value;
        CurrentIsNamed(codec, store);
        assert current.state in live' && Names(codec, live', c.previous.value);
      }
    }
  }

  lemma CurrentIsNamed(codec: Codec, store: Store)
    requires Committed(codec, store).Some?
    requires var c := Committed(codec, store).value; store.Get(c.snapshot.slot) == Some(codec.encode(c.state))
    ensures var c := Committed(codec, store).value; c.snapshot.sha256 == codec.sha256(codec.encode(c.state))
  {
    FirstHeldIsListed(codec, store, Order(Marker(codec, store).value));
  }

  /** Every event keeps the invariant. */
  lemma StepInv(codec: Codec, texts: set<string>, live: set<PersistentState>, store: Store, e: Event)
    requires codec.Lawful() && codec.CollisionFree(texts) && Inv(codec, texts, live, store)
    requires Possible(codec, texts, e)
    ensures Inv(codec, texts, Live(codec, store, live, e), Step(codec, store, e))
  {
    match e
    case Save(_, _) => SaveInv(codec, texts, live, store, e);
    case Damage(_, _) => assert Marker(codec, Step(codec, store, e)) == Marker(codec, store);
    case LoseMarker(_) =>
  }

  function Run(codec: Codec, store: Store, es: seq<Event>): Store
    decreases |es|
  {
    if es == [] then store else Run(codec, Step(codec, store, es[0]), es[1..])
  }

  ghost function LiveAfter(codec: Codec, store: Store, live: set<PersistentState>, es: seq<Event>): set<PersistentState>
    decreases |es|
  {
    if es == [] then live
    else LiveAfter(codec, Step(codec, store, es[0]), Live(codec, store, live, es[0]), es[1..])
  }

  ghost predicate AllPossible(codec: Codec, texts: set<string>, es: seq<Event>) {
    forall e :: e in es ==> Possible(codec, texts, e)
  }

  lemma TailPossible(codec: Codec, texts: set<string>, es: seq<Event>)
    requires AllPossible(codec, texts, es) && es != []
    ensures Possible(codec, texts, es[0]) && AllPossible(codec, texts, es[1..])
  {
    assert es[0] in es;
  }

  lemma {:induction false} RunInv(codec: Codec, texts: set<string>, live: set<PersistentState>, store: Store,
                                  es: seq<Event>)
    requires codec.Lawful() && codec.CollisionFree(texts) && Inv(codec, texts, live, store)
    requires AllPossible(codec, texts, es)
    ensures Inv(codec, texts, LiveAfter(codec, store, live, es), Run(codec, store, es))
    decreases |es|
  {
    if es != [] {
      TailPossible(codec, texts, es);
      StepInv(codec, texts, live, store, es[0]);
      hide Inv, Live, Step;
      RunInv(codec, texts, Live(codec, store, live, es[0]), Step(codec, store, es[0]), es[1..]);
    }
  }

  /**
   Over every run, a load returns nothing, or the last state fully committed, or what was
   loaded just before that one; and it is byte for byte what its slot holds.
   */
  lemma LoadIsCommitted(codec: Codec, texts: set<string>, live: set<PersistentState>, store: Store, es: seq<Event>)
    requires codec.Lawful() && codec.CollisionFree(texts) && Inv(codec, texts, live, store)
    requires AllPossible(codec, texts, es)
    ensures var end := Run(codec, store, es);
      var c := Committed(codec, end);
      && (Load(codec, end).Some? ==> Load(codec, end).value in LiveAfter(codec, store, live, es))
      && (c.Some? ==> end.Get(c.value.snapshot.slot) == Some(codec.encode(c.value.state)))
  {
    RunInv(codec, texts, live, store, es);
    hide Run, LiveAfter, Inv;
    CurrentIsLive(codec, texts, LiveAfter(codec, store, live, es), Run(codec, store, es));
  }

  lemma {:induction false} RunSplit(codec: Codec, store: Store, live: set<PersistentState>,
                                    a: seq<Event>, b: seq<Event>)
    ensures Run(codec, store, a + b) == Run(codec, Run(codec, store, a), b)
    ensures LiveAfter(codec, store, live, a + b)
         == LiveAfter(codec, Run(codec, store, a), LiveAfter(codec, store, live, a), b)
    decreases |a|
  {
    hide Step, Live;
    if a == [] {
      assert a + b == b;
    } else {
      RunSplit(codec, Step(codec, store, a[0]), Live(codec, store, live, a[0]), a[1..], b);
      assert (a + b)[1..] == a[1..] + b;
    }
  }

  lemma {:induction false} NothingCompleted(codec: Codec, store: Store, live: set<PersistentState>, es: seq<Event>)
    requires forall e :: e in es ==> !Completed(codec, e)
    ensures LiveAfter(codec, store, live, es) == live
    decreases |es|
  {
    hide Step;
    if es != [] {
      assert es[0] in es;
      NothingCompleted(codec, Step(codec, store, es[0]), live, es[1..]);
    }
  }

  /**
   Whatever is cut or damaged, a load returns nothing, the last completed save, or what
   a load would have returned just before it.
   */
  lemma OnlyTheLastTwo(codec: Codec, texts: set<string>, live: set<PersistentState>, store: Store,
                       before: seq<Event>, save: Event, since: seq<Event>)
    requires codec.Lawful() && codec.CollisionFree(texts) && Inv(codec, texts, live, store)
    requires AllPossible(codec, texts, before + [save] + since)
    requires Completed(codec, save) && forall e :: e in since ==> !Completed(codec, e)
    ensures var s := Load(codec, Run(codec, store, before + [save] + since));
      var earlier := Load(codec, Run(codec, store, before));
      s.Some? ==> s.value == save.state || (s == earlier && s.value.config.Some? && save.state.config.Some?)
  {
    LoadIsCommitted(codec, texts, live, store, before + [save] + since);
    RunSplit(codec, store, live, before + [save], since);
    RunSplit(codec, store, live, before, [save]);
    var mid, at := Run(codec, store, before), LiveAfter(codec, store, live, before);
    var none: seq<Event> := [];
    assert [save][1..] == none;
    assert LiveAfter(codec, mid, at, [save]) == Live(codec, mid, at, save);
    NothingCompleted(codec, Run(codec, store, before + [save]), Live(codec, mid, at, save), since);
    hide Run, LiveAfter, Inv, AllPossible;
  }

  lemma EmptyStoreInv(codec: Codec, texts: set<string>)
    ensures Inv(codec, texts, {}, Store(None, None, None))
  {}

  lemma {:induction false} LiveWereSaved(codec: Codec, texts: set<string>, live: set<PersistentState>, store: Store,
                                         es: seq<Event>, s: PersistentState)
    requires codec.Lawful() && codec.CollisionFree(texts) && Inv(codec, texts, live, store)
    requires AllPossible(codec, texts, es)
    requires s in LiveAfter(codec, store, live, es)
    ensures s in live || exists i :: 0 <= i < |es| && es[i] == Save(s, 2)
    decreases |es|
  {
    if es != [] {
      TailPossible(codec, texts, es);
      StepInv(codec, texts, live, store, es[0]);
      CurrentIsLive(codec, texts, live, store);
      var next := Live(codec, store, live, es[0]);
      assert s in next ==> s in live || es[0] == Save(s, 2);
      hide Inv, Live, Step;
      LiveWereSaved(codec, texts, next, Step(codec, store, es[0]), es[1..], s);
      if s !in next {
        var i :| 0 <= i < |es[1..]| && es[1..][i] == Save(s, 2);
        assert es[i + 1] == Save(s, 2);
      }
    }
  }

  /**
   After a completed reset, a load only ever returns the reset itself or a state that
   has been fully saved again since, whatever is cut or damaged.
   */
  lemma ResetForgets(codec: Codec, texts: set<string>, live: set<PersistentState>, store: Store,
                     reset: PersistentState, es: seq<Event>)
    requires codec.Lawful() && codec.CollisionFree(texts) && Inv(codec, texts, live, store)
    requires Possible(codec, texts, Save(reset, 2)) && reset.config.None? && |codec.encode(reset)| <= 3840
    requires AllPossible(codec, texts, es)
    ensures var s := Load(codec, Run(codec, SaveCut(codec, store, reset, 2), es));
      s.Some? ==> s.value == reset || exists i :: 0 <= i < |es| && es[i] == Save(s.value, 2)
  {
    var e := Save(reset, 2);
    StepInv(codec, texts, live, store, e);
    assert Live(codec, store, live, e) == {reset};
    LoadIsCommitted(codec, texts, {reset}, Step(codec, store, e), es);
    var s := Load(codec, Run(codec, Step(codec, store, e), es));
    if s.Some? { LiveWereSaved(codec, texts, {reset}, Step(codec, store, e), es, s.value); }
  }

  // ----- the object -----------------------------------------------------------------------

  datatype Place = InSlot(slot: Slot) | AtMarker

  datatype StorageError = Interrupted | Unreadable

  datatype StateError = Storage(error: StorageError) | OversizedState

  // Durable storage that can be cut off after some writes, and whose reads can fail.
  class GenerationStorage {
    var a: Option<string>
    var b: Option<string>
    var marker: Option<string>
    var writesLeft: nat
    var unreadable: set<Place>

    ghost function View(): Store
      reads this
    {
      Store(a, b, marker)
    }

    constructor (writesLeft: nat)
      ensures View() == Store(None, None, None) && this.writesLeft == writesLeft && unreadable == {}
    {
      a, b, marker, this.writesLeft, unreadable := None, None, None, writesLeft, {};
    }

    method Get(place: Place) returns (r: Result<Option<string>, StorageError>)
      ensures r == if place in unreadable then Err(Unreadable)
                   else Ok(match place case InSlot(slot) => View().Get(slot) case AtMarker => marker)
    {
      if place in unreadable {
        return Err(Unreadable);
      }
      match place {
        case InSlot(slot) => return Ok(if slot.A? then a else b);
        case AtMarker => return Ok(marker);
      }
    }

    method Set(place: Place, text: string) returns (ok: bool)
      modifies this
      ensures ok == (old(writesLeft) > 0) && unreadable == old(unreadable)
      ensures writesLeft == old(writesLeft) - (if ok then 1 else 0)
      ensures View() == if !ok then old(View())
                        else match place
                             case InSlot(slot) => old(View()).Put(slot, Some(text))
                             case AtMarker => old(View()).(marker := Some(text))
    {
      if writesLeft == 0 {
        return false;
      }
      writesLeft := writesLeft - 1;
      match place {
        case InSlot(slot) =>
          if slot.A? {
            a := Some(text);
          } else {
            b := Some(text);
          }
        case AtMarker => marker := Some(text);
      }
      return true;
    }
  }

  class StateStore {
    const storage: GenerationStorage
    const codec: Codec

    constructor (storage: GenerationStorage, codec: Codec)
      ensures this.storage == storage && this.codec == codec
    {
      this.storage, this.codec := storage, codec;
    }

    // A failed read is an error; otherwise the current snapshot and its state, if any.
    method Committed() returns (r: Result<Option<Current>, StateError>)
      ensures r.Ok? ==> r.value == ConfigState.Committed(codec, storage.View())
      ensures storage.unreadable == {} ==> r.Ok?
    {
      var text := storage.Get(AtMarker);
      if text.Err? {
        return Err(Storage(text.error));
      }
      if text.value.None? || |text.value.value| > MAX_MARKER_BYTES {
        return Ok(None);
      }
      var commit := codec.readMarker(text.value.value);
      if commit.None? {
        return Ok(None);
      }
      var snapshots := Order(commit.value);
      var i := 0;
      while i < |snapshots|
        invariant i <= |snapshots|
        invariant FirstHeld(codec, storage.View(), snapshots) == FirstHeld(codec, storage.View(), snapshots[i..])
      {
        var s := snapshots[i];
        assert snapshots[i..][1..] == snapshots[i + 1..];
        i := i + 1;
        var value := storage.Get(InSlot(s.slot));
        if value.Err? {
          return Err(Storage(value.error));
        }
        if value.value.None? {
          continue;
        }
        var held := value.value.value;
        if |held| > MAX_STATE_BYTES || codec.sha256(held) != s.sha256 {
          continue;
        }
        var state := codec.decode(held);
        if state.Some? {
          return Ok(Some(Current(s, state.value)));
        }
      }
      return Ok(None);
    }

    method Load() returns (r: Result<Option<PersistentState>, StateError>)
      ensures r.Ok? ==> r.value == ConfigState.Load(codec, storage.View())
      ensures storage.unreadable == {} ==> r.Ok?
    {
      var current := Committed();
      match current {
        case Err(e) => return Err(e);
        case Ok(c) => return Ok(if c.Some? then Some(c.value.state) else None);
      }
    }

    /** The slot, then the marker; each write may be the one that is cut off. */
    method Save(state: PersistentState) returns (r: Result<(), StateError>)
      modifies storage
      ensures |codec.encode(state)| > 3840 ==> r == Err(OversizedState) && storage.View() == old(storage.View())
      ensures r == Err(Storage(Unreadable)) ==> storage.View() == old(storage.View())
      ensures r != Err(Storage(Unreadable)) ==>
                storage.View() == SaveCut(codec, old(storage.View()), state, Min(old(storage.writesLeft), 2))
      ensures r.Ok? <==>
                |codec.encode(state)| <= 3840 && r != Err(Storage(Unreadable)) && old(storage.writesLeft) >= 2
      ensures old(storage.unreadable) == {} ==> r != Err(Storage(Unreadable))
    {
      var encoded := codec.encode(state);
      if |encoded| > MAX_STATE_BYTES {
        return Err(OversizedState);
      }
      var read := Committed();
      if read.Err? {
        return Err(Storage(Unreadable));
      }
      var current := read.value;
      var slot := if current.None? then A else current.value.snapshot.slot.Other();
      var commit := Commit(
        Snapshot(slot, codec.sha256(encoded)),
        if current.Some? && state.config.Some? && current.value.state.config.Some?
        then Some(current.value.snapshot) else None);
      var marker := PrintMarker(commit);
      var ok := storage.Set(InSlot(slot), encoded);
      if !ok {
        return Err(Storage(Interrupted));
      }
      ok := storage.Set(AtMarker, marker);
      if !ok {
        return Err(Storage(Interrupted));
      }
      return Ok(());
    }
  }
}
