/**
 The device's transport keys: two slots, of which one may be active, one staged and
 waiting for proof, and one kept to fall back on.
 */
module TransportKeys {
  import opened Wrappers
  import opened Octets
  import Hex

  const KEY_ID_RANDOM_BYTES: nat := 16
  const KEY_ID_PREFIX: string := "eli1-"

  datatype Key = Key(id: string, psk: Bytes)

  datatype Slot = A | B {
    function Other(): Slot { if A? then B else A }
  }

  datatype KeyError =
    | InvalidKeyState | InvalidKeyId | DuplicateKeyId
    | PendingKeyExists | RollbackKeyExists | NoPendingKey
    | PendingKeyUnverified | NoActiveKey | NoRollbackKey

  // What the hardware generator hands out for one key.
  datatype Seed = Seed(id: Bytes, psk: Bytes)

  predicate Proper(seed: Seed) { |seed.id| == KEY_ID_RANDOM_BYTES && |seed.psk| == Hex.PSK_BYTES }

  function Minted(seed: Seed): Key { Key(KEY_ID_PREFIX + Hex.Encoded(seed.id), seed.psk) }

  predicate ValidKeyId(id: string) {
    && |id| == |KEY_ID_PREFIX| + KEY_ID_RANDOM_BYTES * 2
    && KEY_ID_PREFIX <= id
    && forall i :: |KEY_ID_PREFIX| <= i < |id| ==> HexDigit(id[i]) && !('A' <= id[i] <= 'Z')
  }

  predicate HexDigit(c: char) { '0' <= c <= '9' || 'a' <= c <= 'f' || 'A' <= c <= 'F' }

  /** The ids that pass validation are exactly the ids the device can mint. */
  lemma ValidIdsAreMinted(id: string)
    ensures ValidKeyId(id) <==>
      exists seed: Bytes :: |seed| == KEY_ID_RANDOM_BYTES && id == KEY_ID_PREFIX + Hex.Encoded(seed)
  {
    if ValidKeyId(id) {
      var tail := id[|KEY_ID_PREFIX|..];
      assert forall i :: 0 <= i < |tail| ==> tail[i] == id[|KEY_ID_PREFIX| + i];
      assert Hex.Lowercase(tail);
      var seed := Hex.LowercaseIsEncoded(tail);
      assert id == KEY_ID_PREFIX + Hex.Encoded(seed);
    }
    forall seed: Bytes | |seed| == KEY_ID_RANDOM_BYTES && id == KEY_ID_PREFIX + Hex.Encoded(seed)
      ensures ValidKeyId(id)
    {
      Hex.EncodedInjective(seed, seed);
      forall i | |KEY_ID_PREFIX| <= i < |id| ensures HexDigit(id[i]) && !('A' <= id[i] <= 'Z') {
        assert id[i] == Hex.Encoded(seed)[i - |KEY_ID_PREFIX|];
      }
    }
  }

  datatype Keys = Keys(
    slotA: Option<Key>,
    slotB: Option<Key>,
    active: Option<Slot>,
    pending: Option<Slot>,
    pendingVerified: bool)
  {
    function Get(slot: Slot): Option<Key> { if slot.A? then slotA else slotB }

    function Set(slot: Slot, value: Option<Key>): Keys {
      if slot.A? then this.(slotA := value) else this.(slotB := value)
    }

    function Active(): Option<Key> { if active.Some? then Get(active.value) else None }

    function Pending(): Option<Key> { if pending.Some? then Get(pending.value) else None }

    function Rollback(): Option<Key> {
      if active.None? || pending.Some? then None else Get(active.value.Other())
    }
  }

  const NO_KEYS := Keys(None, None, None, None, false)

  // ----- one operation at a time; a failed one may still have changed something ------------

  datatype Outcome = Outcome(keys: Keys, error: Option<KeyError>)

  function Done(keys: Keys): Outcome { Outcome(keys, None) }

  function Failed(keys: Keys, error: KeyError): Outcome { Outcome(keys, Some(error)) }

  function Stage(k: Keys, seed: Seed): Outcome {
    if k.pending.Some? then Failed(k, PendingKeyExists)
    else if k.Rollback().Some? then Failed(k, RollbackKeyExists)
    else
      var slot := if k.active.Some? then k.active.value.Other() else A;
      var key := Minted(seed);
      if k.Active().Some? && k.Active().value.id == key.id then Failed(k, DuplicateKeyId)
      else Done(k.Set(slot, Some(key)).(pending := Some(slot), pendingVerified := false))
  }

  function Cleared(k: Keys): Keys {
    var bare := if k.active.Some? then k.Set(k.active.value.Other(), None) else k.(slotA := None, slotB := None);
    bare.(pending := None, pendingVerified := false)
  }

  function Recover(k: Keys, seed: Seed): Outcome { Stage(Cleared(k), seed) }

  function MarkPendingVerified(k: Keys): Outcome {
    if k.Pending().None? then Failed(k, NoPendingKey) else Done(k.(pendingVerified := true))
  }

  function ResetPendingVerification(k: Keys): Keys { k.(pendingVerified := false) }

  function DiscardPending(k: Keys): Outcome {
    if k.pending.None? then Failed(k, NoPendingKey)
    else Done(k.Set(k.pending.value, None).(pending := None, pendingVerified := false))
  }

  function Activate(k: Keys): Outcome {
    if k.pending.None? then Failed(k, NoPendingKey)
    else if !k.pendingVerified then Failed(k, PendingKeyUnverified)
    else Done(k.(active := k.pending, pending := None, pendingVerified := false))
  }

  function RollbackKey(k: Keys): Outcome {
    if k.pending.Some? then Failed(k, PendingKeyExists)
    else if k.active.None? then Failed(k, NoActiveKey)
    else if k.Get(k.active.value.Other()).None? then Failed(k, NoRollbackKey)
    else Done(k.(active := Some(k.active.value.Other())))
  }

  function RetireRollback(k: Keys): Outcome {
    if k.pending.Some? then Failed(k, PendingKeyExists)
    else if k.active.None? then Failed(k, NoActiveKey)
    else if k.Get(k.active.value.Other()).None? then Failed(k, NoRollbackKey)
    else Done(k.Set(k.active.value.Other(), None))
  }

  // What a stored record is checked against when it is loaded; none is good.
  function Validate(k: Keys): Option<KeyError> {
    if k.active.Some? && k.Get(k.active.value).None? then Some(InvalidKeyState)
    else if k.pending.Some? && (k.Get(k.pending.value).None? || k.active == k.pending) then Some(InvalidKeyState)
    else if k.pendingVerified && k.pending.None? then Some(InvalidKeyState)
    else if k.slotA.Some? && !ValidKeyId(k.slotA.value.id) then Some(InvalidKeyId)
    else if k.slotB.Some? && !ValidKeyId(k.slotB.value.id) then Some(InvalidKeyId)
    else if k.slotA.Some? && k.slotB.Some? && k.slotA.value.id == k.slotB.value.id then Some(DuplicateKeyId)
    else None
  }

  // ----- what every operation keeps ----------------------------------------------------------

  // How many of the three roles the key in a slot plays.
  function Roles(k: Keys, slot: Slot): nat {
    (if k.active == Some(slot) then 1 else 0)
    + (if k.pending == Some(slot) then 1 else 0)
    + (if k.active == Some(slot.Other()) && k.pending.None? then 1 else 0)
  }

  /** Validation alone is not kept by the operations; with every stored key in one role it is. */
  ghost predicate Sound(k: Keys) {
    && Validate(k).None?
    && forall slot: Slot :: k.Get(slot).Some? ==> Roles(k, slot) == 1
  }

  // A valid record with an orphan key: staging over it gives two keys the same id.
  lemma ValidIsNotKept(seed: Seed)
    requires Proper(seed)
    ensures var orphan := Keys(None, Some(Minted(seed)), None, None, false);
      && Validate(orphan).None? && !Sound(orphan)
      && Stage(orphan, seed).error.None?
      && Validate(Stage(orphan, seed).keys) == Some(DuplicateKeyId)
  {
    ValidIdsAreMinted(Minted(seed).id);
    var orphan := Keys(None, Some(Minted(seed)), None, None, false);
    assert orphan.Get(B).Some? && Roles(orphan, B) == 0;
    hide ValidKeyId;
  }

  lemma MintedIsValid(seed: Seed)
    requires Proper(seed)
    ensures ValidKeyId(Minted(seed).id)
  {
    ValidIdsAreMinted(Minted(seed).id);
  }

  /** Staging keeps a record valid exactly unless it mints the id of an orphan in the second slot. */
  lemma StageKeepsValidExactly(k: Keys, seed: Seed)
    requires Validate(k).None? && Proper(seed)
    ensures Validate(Stage(k, seed).keys).None? <==>
      !(k.active.None? && k.pending.None? && k.slotB.Some? && k.slotB.value.id == Minted(seed).id)
  {
    MintedIsValid(seed);
    hide ValidKeyId, Minted;
  }

  lemma RecoverKeepsValid(k: Keys, seed: Seed)
    requires Validate(k).None? && Proper(seed)
    ensures Validate(Recover(k, seed).keys).None?
  {
    StageKeepsValidExactly(Cleared(k), seed);
    hide ValidKeyId, Minted, Stage;
    assert Validate(Cleared(k)).None?;
  }

  /** Every other operation keeps a record valid, whatever else it holds. */
  lemma OthersKeepValid(k: Keys, seed: Seed)
    requires Validate(k).None? && Proper(seed)
    ensures Validate(Recover(k, seed).keys).None?
    ensures Validate(MarkPendingVerified(k).keys).None? && Validate(ResetPendingVerification(k)).None?
    ensures Validate(DiscardPending(k).keys).None? && Validate(Activate(k).keys).None?
    ensures Validate(RollbackKey(k).keys).None? && Validate(RetireRollback(k).keys).None?
  {
    RecoverKeepsValid(k, seed);
    hide ValidKeyId, Recover;
  }

  lemma StageSound(k: Keys, seed: Seed)
    requires Sound(k) && Proper(seed)
    ensures Sound(Stage(k, seed).keys)
  {
    MintedIsValid(seed);
    hide ValidKeyId, Minted;
    assert k.Get(A).Some? ==> Roles(k, A) == 1;
    assert k.Get(B).Some? ==> Roles(k, B) == 1;
  }

  lemma ClearedSound(k: Keys)
    requires Sound(k)
    ensures Sound(Cleared(k))
    ensures Cleared(k).Active() == k.Active() && Cleared(k).Pending().None? && Cleared(k).Rollback().None?
  {
    hide ValidKeyId;
    assert k.Get(A).Some? ==> Roles(k, A) == 1;
    assert k.Get(B).Some? ==> Roles(k, B) == 1;
  }

  lemma RestSound(k: Keys)
    requires Sound(k)
    ensures Sound(MarkPendingVerified(k).keys) && Sound(ResetPendingVerification(k))
    ensures Sound(DiscardPending(k).keys) && Sound(Activate(k).keys)
    ensures Sound(RollbackKey(k).keys) && Sound(RetireRollback(k).keys)
  {
    hide ValidKeyId;
    assert k.Get(A).Some? ==> Roles(k, A) == 1;
    assert k.Get(B).Some? ==> Roles(k, B) == 1;
  }

  /** Staging succeeds exactly when nothing but an active key with another id is stored. */
  lemma StageSucceedsExactly(k: Keys, seed: Seed)
    requires Sound(k)
    ensures Stage(k, seed).error.None? <==>
      forall slot: Slot :: k.Get(slot).Some? ==> k.active == Some(slot) && k.Get(slot).value.id != Minted(seed).id
  {
    hide ValidKeyId, Minted;
    assert k.Get(A).Some? ==> Roles(k, A) == 1;
    assert k.Get(B).Some? ==> Roles(k, B) == 1;
  }

  /** Backing out of a staged key leaves no trace. */
  lemma DiscardUndoesStage(k: Keys, seed: Seed)
    requires Sound(k) && Stage(k, seed).error.None?
    ensures Stage(k, seed).keys.Pending() == Some(Minted(seed)) && Stage(k, seed).keys.Active() == k.Active()
    ensures DiscardPending(Stage(k, seed).keys) == Done(k)
  {
    hide ValidKeyId, Minted;
    assert k.Get(A).Some? ==> Roles(k, A) == 1;
    assert k.Get(B).Some? ==> Roles(k, B) == 1;
  }

  /** Rolling back swaps the two keys, so doing it twice changes nothing. */
  lemma RollbackTwice(k: Keys)
    requires Sound(k) && RollbackKey(k).error.None?
    ensures var back := RollbackKey(k).keys;
      back.Active() == k.Rollback() && back.Rollback() == k.Active() && RollbackKey(back) == Done(k)
  {}

  /** The key an activation replaces is the one kept to fall back on. */
  lemma ActivationCanBeUndone(k: Keys)
    requires Sound(k) && Activate(k).error.None?
    ensures var next := Activate(k).keys;
      && next.Active() == k.Pending() && next.Rollback() == k.Active()
      && (k.Active().Some? ==> RollbackKey(next).error.None? && RollbackKey(next).keys.Active() == k.Active())
  {
    hide ValidKeyId;
    assert k.Get(A).Some? ==> Roles(k, A) == 1;
    assert k.Get(B).Some? ==> Roles(k, B) == 1;
  }
}
