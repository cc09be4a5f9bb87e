/** The configuration as the object the request handlers change. */
module DeviceSettings {
  import opened Wrappers
  import opened Text
  import R = KeyRuns
  import opened KeyStores

  class Settings {
    var host: string
    var port: nat
    var mode: R.Mode
    const keys: KeyStore

    ghost function View(): R.Config
      reads this, keys
    {
      R.Config(host, port, mode, keys.View())
    }

    // What is stored loads again.
    ghost predicate Valid()
      reads this, keys
    {
      R.SoundConfig(View())
    }

    constructor ()
      ensures fresh(keys) && View() == R.FRESH && Valid()
    {
      host, port, mode := "", R.DEFAULT_PORT, R.Cleartext;
      keys := new KeyStore();
    }

    /** Apply a bridge endpoint edit and drop a verification tied to another endpoint. */
    method UpdateTarget(newHost: Option<string>, newPort: Option<nat>)
      modifies this, keys
      ensures View() == R.UpdateTarget(old(View()), newHost, newPort)
      ensures old(Valid()) ==> Valid()
    {
      if Valid() { R.TargetSound(View(), newHost, newPort); }
      var trimmed := if newHost.Some? then Some(Trim(newHost.value)) else None;
      if (trimmed.Some? && trimmed.value != host) || (newPort.Some? && newPort.value != port) {
        keys.ResetPendingVerification();
      }
      if trimmed.Some? {
        host := trimmed.value;
      }
      if newPort.Some? {
        port := newPort.value;
      }
    }

    /** Prove the staged key against the configured target. */
    method VerifyPending(verifier: R.Verifier) returns (error: Option<R.VerifyError>)
      modifies this, keys
      ensures match R.VerifyPending(old(View()), verifier)
        case Ok(next) => error == None && View() == next
        case Err(e) => error == Some(e) && View() == old(View())
      ensures error.None? ==> host != "" && View().keys.Pending().Some?
                              && verifier(host, port, View().keys.Pending().value).Ok? && keys.pendingVerified
      ensures old(Valid()) ==> Valid()
    {
      if Valid() { R.VerificationSound(View(), verifier); }
      if host == "" {
        return Some(R.MissingTarget);
      }
      if keys.pending.None? || keys.Get(keys.pending.value).None? {
        return Some(R.NoPending);
      }
      var reply := verifier(host, port, keys.Get(keys.pending.value).value);
      if reply.Err? {
        return Some(R.Rejected(reply.error));
      }
      var refused := keys.MarkPendingVerified();
      return if refused.Some? then Some(R.NoPending) else None;
    }
  }
}
