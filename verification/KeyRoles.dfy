/**
 The transport keys without their slots: a key in use, one waiting for proof, one to fall
 back on. The two slots with their markers do what these three roles say.
 */
module KeyRoles {
  import opened Wrappers
  import opened Octets
  import Hex
  import opened TransportKeys

  datatype Ring = Ring(active: Option<Key>, staged: Option<Key>, proven: bool, fallback: Option<Key>)

  function RingOf(k: Keys): Ring { Ring(k.Active(), k.Pending(), k.pendingVerified, k.Rollback()) }

  // A key waits for proof or one is kept to fall back on, not both; and neither of them twice.
  ghost predicate WellKept(r: Ring) {
    && (r.staged.Some? ==> r.fallback.None?) && (r.fallback.Some? ==> r.active.Some?) && (r.proven ==> r.staged.Some?)
    && (r.active.Some? && r.staged.Some? ==> r.active.value.id != r.staged.value.id)
    && (r.active.Some? && r.fallback.Some? ==> r.active.value.id != r.fallback.value.id)
  }

  lemma SoundIsWellKept(k: Keys)
    requires Sound(k)
    ensures WellKept(RingOf(k))
  {
    hide ValidKeyId;
  }

  // No key but the active one takes up room.
  ghost predicate Bare(r: Ring) { r.staged.None? && r.fallback.None? }

  ghost predicate Clashes(r: Ring, key: Key) { r.active.Some? && r.active.value.id == key.id }

  lemma SlotsOf(k: Keys)
    requires Sound(k)
    ensures k.pending.Some? <==> k.Pending().Some?
    ensures k.active.Some? <==> k.Active().Some?
    ensures k.active.None? && k.pending.None? ==> k.slotA.None? && k.slotB.None?
    ensures k.active.None? && k.pending.Some? ==> k.Get(k.pending.value.Other()).None?
    ensures k.active.Some? && k.pending.Some? ==> k.pending.value == k.active.value.Other()
    ensures k.active.Some? && k.pending.None? ==> k.Get(k.active.value.Other()) == k.Rollback()
  {
    hide ValidKeyId;
    assert k.Get(A).Some? ==> Roles(k, A) == 1;
    assert k.Get(B).Some? ==> Roles(k, B) == 1;
  }

  /** Staging needs a bare ring without the new id in it; then the minted key waits for proof. */
  lemma StageRoles(k: Keys, seed: Seed)
    requires Sound(k)
    ensures var r, o := RingOf(k), Stage(k, seed);
      && o.error == (if r.staged.Some? then Some(PendingKeyExists) else if r.fallback.Some? then Some(RollbackKeyExists)
                     else if Clashes(r, Minted(seed)) then Some(DuplicateKeyId) else None)
      && (if o.error.Some? then o.keys == k else RingOf(o.keys) == Ring(r.active, Some(Minted(seed)), false, None))
  {
    SlotsOf(k);
    hide Minted, Sound;
  }

  /** Recovery drops every key but the active one, then stages. */
  lemma RecoverRoles(k: Keys, seed: Seed)
    requires Sound(k)
    ensures var r, o := RingOf(k), Recover(k, seed);
      && o.error == (if Clashes(r, Minted(seed)) then Some(DuplicateKeyId) else None)
      && RingOf(o.keys) == Ring(r.active, if o.error.None? then Some(Minted(seed)) else None, false, None)
  {
    ClearedSound(k);
    StageRoles(Cleared(k), seed);
    hide Minted, Sound, Stage;
  }

  /** Proof can be noted exactly for a key that waits for it, and be taken back at any time. */
  lemma ProofRoles(k: Keys)
    requires Sound(k)
    ensures var r, o := RingOf(k), MarkPendingVerified(k);
      && o.error == (if r.staged.None? then Some(NoPendingKey) else None)
      && RingOf(o.keys) == r.(proven := r.staged.Some?)
      && RingOf(ResetPendingVerification(k)) == r.(proven := false)
  {
    SlotsOf(k);
    hide Sound;
    assert k.pendingVerified ==> k.pending.Some? by { SoundIsWellKept(k); }
  }

  /** A key that waits for proof can be given up: the ring is bare again. */
  lemma DiscardRoles(k: Keys)
    requires Sound(k)
    ensures var r, o := RingOf(k), DiscardPending(k);
      && o.error == (if r.staged.None? then Some(NoPendingKey) else None)
      && RingOf(o.keys) == if o.error.Some? then r else Ring(r.active, None, false, None)
  {
    SlotsOf(k);
    hide Sound;
  }

  /** A proven key becomes the active one, and the one it replaces the one to fall back on. */
  lemma ActivateRoles(k: Keys)
    requires Sound(k)
    ensures var r, o := RingOf(k), Activate(k);
      && o.error == (if r.staged.None? then Some(NoPendingKey)
                     else if !r.proven then Some(PendingKeyUnverified) else None)
      && RingOf(o.keys) == if o.error.Some? then r else Ring(r.staged, None, false, r.active)
  {
    SlotsOf(k);
    hide Sound;
  }

  // Why there is no falling back.
  function NoReturn(r: Ring): Option<KeyError> {
    if r.staged.Some? then Some(PendingKeyExists) else if r.active.None? then Some(NoActiveKey)
    else if r.fallback.None? then Some(NoRollbackKey) else None
  }

  /** Falling back swaps the two keys; giving up the one to fall back on leaves the ring bare. */
  lemma FallbackRoles(k: Keys)
    requires Sound(k)
    ensures var r, back, retired := RingOf(k), RollbackKey(k), RetireRollback(k);
      && back.error == NoReturn(r) && retired.error == NoReturn(r)
      && RingOf(back.keys) == (if back.error.Some? then r else Ring(r.fallback, None, false, r.active))
      && RingOf(retired.keys) == (if retired.error.Some? then r else Ring(r.active, None, false, None))
  {
    SlotsOf(k);
    SoundIsWellKept(k);
    hide Sound;
  }

  // Two keys with one id.
  ghost predicate Twins(k: Keys) { k.slotA.Some? && k.slotB.Some? && k.slotA.value.id == k.slotB.value.id }

  // A stored key with an id the device cannot have minted.
  ghost predicate Foreign(k: Keys, slot: Slot) {
    k.Get(slot).Some? && forall seed: Bytes :: |seed| == 16 ==> k.Get(slot).value.id != "eli1-" + Hex.Encoded(seed)
  }

  /**
   A stored record loads exactly when its markers name keys it holds, not one for two roles,
   a proof is about a staged key, and its ids are of the device's own making and not the same.
   */
  lemma LoadsExactly(k: Keys)
    ensures Validate(k).None? <==>
      && (k.active.Some? ==> k.Active().Some?) && (k.pending.Some? ==> k.Pending().Some? && k.pending != k.active)
      && (k.pendingVerified ==> k.pending.Some?) && !Foreign(k, A) && !Foreign(k, B) && !Twins(k)
  {
    if k.slotA.Some? { ValidIdsAreMinted(k.slotA.value.id); }
    if k.slotB.Some? { ValidIdsAreMinted(k.slotB.value.id); }
    hide ValidKeyId;
  }
}
