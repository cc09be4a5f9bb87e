/** The key record as the object the firmware updates. */
module KeyStores {
  import opened Wrappers
  import Hex
  import K = TransportKeys

  class KeyStore {
    var slotA: Option<K.Key>
    var slotB: Option<K.Key>
    var active: Option<K.Slot>
    var pending: Option<K.Slot>
    var pendingVerified: bool

    ghost function View(): K.Keys
      reads this
    {
      K.Keys(slotA, slotB, active, pending, pendingVerified)
    }

    // The record validates, and every stored key plays exactly one role.
    ghost predicate Valid()
      reads this
    {
      K.Sound(View())
    }

    constructor ()
      ensures View() == K.NO_KEYS && Valid()
    {
      slotA, slotB, active, pending, pendingVerified := None, None, None, None, false;
    }

    function Get(slot: K.Slot): (r: Option<K.Key>)
      reads this
      ensures r == View().Get(slot)
    {
      if slot.A? then slotA else slotB
    }

    method Set(slot: K.Slot, value: Option<K.Key>)
      modifies this
      ensures View() == old(View()).Set(slot, value)
    {
      if slot.A? {
        slotA := value;
      } else {
        slotB := value;
      }
    }

    method Stage(seed: K.Seed) returns (r: Result<K.Key, K.KeyError>)
      modifies this
      ensures K.Outcome(View(), if r.Ok? then None else Some(r.error)) == K.Stage(old(View()), seed)
      ensures r.Ok? ==> View().Pending() == Some(r.value) && r.value == K.Minted(seed)
      ensures old(Valid()) && K.Proper(seed) ==> Valid()
    {
      if Valid() && K.Proper(seed) { K.StageSound(View(), seed); }
      hide K.Minted;
      if pending.Some? {
        return Err(K.PendingKeyExists);
      }
      if active.Some? && Get(active.value.Other()).Some? {
        return Err(K.RollbackKeyExists);
      }
      var slot := if active.Some? then active.value.Other() else K.A;
      var key := MintKey(seed);
      if active.Some? && Get(active.value).Some? && Get(active.value).value.id == key.id {
        return Err(K.DuplicateKeyId);
      }
      Set(slot, Some(key));
      pending := Some(slot);
      pendingVerified := false;
      return Ok(key);
    }

    static method MintKey(seed: K.Seed) returns (key: K.Key)
      ensures key == K.Minted(seed)
    {
      var digits := Hex.Encode(seed.id);
      key := K.Key(K.KEY_ID_PREFIX + digits, seed.psk);
    }

    method Recover(seed: K.Seed) returns (r: Result<K.Key, K.KeyError>)
      modifies this
      ensures K.Outcome(View(), if r.Ok? then None else Some(r.error)) == K.Recover(old(View()), seed)
      ensures r.Ok? ==> View().Pending() == Some(r.value) && r.value == K.Minted(seed)
      ensures old(Valid()) && K.Proper(seed) ==> Valid()
    {
      if Valid() { K.ClearedSound(View()); }
      if active.Some? {
        Set(active.value.Other(), None);
      } else {
        slotA, slotB := None, None;
      }
      pending := None;
      pendingVerified := false;
      r := Stage(seed);
    }

    method MarkPendingVerified() returns (error: Option<K.KeyError>)
      modifies this
      ensures K.Outcome(View(), error) == K.MarkPendingVerified(old(View()))
      ensures old(Valid()) ==> Valid()
    {
      if Valid() { K.RestSound(View()); }
      if pending.None? || Get(pending.value).None? {
        return Some(K.NoPendingKey);
      }
      pendingVerified := true;
      return None;
    }

    method ResetPendingVerification()
      modifies this
      ensures View() == K.ResetPendingVerification(old(View()))
      ensures old(Valid()) ==> Valid()
    {
      if Valid() { K.RestSound(View()); }
      pendingVerified := false;
    }

    method DiscardPending() returns (error: Option<K.KeyError>)
      modifies this
      ensures K.Outcome(View(), error) == K.DiscardPending(old(View()))
      ensures old(Valid()) ==> Valid()
    {
      if Valid() { K.RestSound(View()); }
      if pending.None? {
        return Some(K.NoPendingKey);
      }
      Set(pending.value, None);
      pending := None;
      pendingVerified := false;
      return None;
    }

    method Activate() returns (error: Option<K.KeyError>)
      modifies this
      ensures K.Outcome(View(), error) == K.Activate(old(View()))
      ensures old(Valid()) ==> Valid()
    {
      if Valid() { K.RestSound(View()); }
      if pending.None? {
        return Some(K.NoPendingKey);
      }
      if !pendingVerified {
        return Some(K.PendingKeyUnverified);
      }
      active := pending;
      pending := None;
      pendingVerified := false;
      return None;
    }

    method RollbackKey() returns (error: Option<K.KeyError>)
      modifies this
      ensures K.Outcome(View(), error) == K.RollbackKey(old(View()))
      ensures old(Valid()) ==> Valid()
    {
      if Valid() { K.RestSound(View()); }
      if pending.Some? {
        return Some(K.PendingKeyExists);
      }
      if active.None? {
        return Some(K.NoActiveKey);
      }
      var rollback := active.value.Other();
      if Get(rollback).None? {
        return Some(K.NoRollbackKey);
      }
      active := Some(rollback);
      return None;
    }

    method RetireRollback() returns (error: Option<K.KeyError>)
      modifies this
      ensures K.Outcome(View(), error) == K.RetireRollback(old(View()))
      ensures old(Valid()) ==> Valid()
    {
      if Valid() { K.RestSound(View()); }
      if pending.Some? {
        return Some(K.PendingKeyExists);
      }
      if active.None? {
        return Some(K.NoActiveKey);
      }
      var rollback := active.value.Other();
      if Get(rollback).None? {
        return Some(K.NoRollbackKey);
      }
      Set(rollback, None);
      return None;
    }
  }
}
