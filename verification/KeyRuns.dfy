/**
 Runs of key operations, target edits and mode changes on the device's configuration.
 A staged key counts as verified only for the bridge it was proved against.
 */
module KeyRuns {
  import opened Wrappers
  import opened Text
  import opened TransportKeys

  const DEFAULT_PORT: nat := 39000

  datatype Mode = Cleartext | TlsPsk

  // The part of the configuration the keys depend on.
  datatype Config = Config(host: string, port: nat, mode: Mode, keys: Keys)

  const FRESH := Config("", DEFAULT_PORT, Cleartext, NO_KEYS)

  // Asks the bridge at a host and port whether it accepts a key.
  type Verifier = (string, nat, Key) -> Result<(), string>

  function UpdateTarget(c: Config, host: Option<string>, port: Option<nat>): Config {
    var trimmed := if host.Some? then Some(Trim(host.value)) else None;
    var moved := (trimmed.Some? && trimmed.value != c.host) || (port.Some? && port.value != c.port);
    c.(keys := if moved then ResetPendingVerification(c.keys) else c.keys,
       host := if trimmed.Some? then trimmed.value else c.host,
       port := if port.Some? then port.value else c.port)
  }

  datatype VerifyError = MissingTarget | NoPending | Rejected(reason: string)

  function VerifyPending(c: Config, verifier: Verifier): Result<Config, VerifyError> {
    if c.host == "" then Err(MissingTarget)
    else if c.keys.Pending().None? then Err(NoPending)
    else
      var reply := verifier(c.host, c.port, c.keys.Pending().value);
      if reply.Err? then Err(Rejected(reply.error))
      else if MarkPendingVerified(c.keys).error.Some? then Err(NoPending)
      else Ok(c.(keys := MarkPendingVerified(c.keys).keys))
  }

  datatype Act =
    | Stage(seed: Seed) | Recover(seed: Seed) | Verify(verifier: Verifier)
    | Discard | Activate | RollBack | Retire
    | SetTarget(host: Option<string>, port: Option<nat>)   // the target form, or a Wi-Fi form with a target in it
    | SetMode(mode: Mode)

  // Each change is made on a copy, and the copy is kept only if it went through.
  function Apply(c: Config, a: Act): Option<Config> {
    match a
    case Stage(seed) => Kept(c, TransportKeys.Stage(c.keys, seed))
    case Recover(seed) => Kept(c.(mode := Cleartext), TransportKeys.Recover(c.keys, seed))
    case Verify(verifier) => (match VerifyPending(c, verifier) case Ok(next) => Some(next) case Err(_) => None)
    case Discard => Kept(c, DiscardPending(c.keys))
    case Activate => Kept(c.(mode := TlsPsk), TransportKeys.Activate(c.keys))
    case RollBack => Kept(c, RollbackKey(c.keys))
    case Retire => Kept(c, RetireRollback(c.keys))
    case SetTarget(host, port) => Some(UpdateTarget(c, host, port))
    case SetMode(mode) => if Loads(c.(mode := mode)) then Some(c.(mode := mode)) else None
  }

  function Kept(c: Config, o: Outcome): Option<Config> {
    if o.error.Some? then None else Some(c.(keys := o.keys))
  }

  // The stored transport record passes the checks made when it is loaded.
  predicate Loads(c: Config) {
    Validate(c.keys).None? && (c.mode == TlsPsk ==> c.keys.Active().Some?)
  }

  // `persists`: whether the durable write of the changed copy succeeds.
  datatype Step = Step(act: Act, persists: bool)

  predicate ProperStep(s: Step) {
    match s.act
    case Stage(seed) => Proper(seed)
    case Recover(seed) => Proper(seed)
    case _ => true
  }

  function Perform(c: Config, s: Step): Config {
    var next := Apply(c, s.act);
    if next.Some? && s.persists then next.value else c
  }

  function Run(steps: seq<Step>): Config {
    if steps == [] then FRESH else Perform(Run(steps[..|steps| - 1]), steps[|steps| - 1])
  }

  ghost predicate ProperRun(steps: seq<Step>) { forall i :: 0 <= i < |steps| ==> ProperStep(steps[i]) }

  // ----- the record is always sound ------------------------------------------------------------

  ghost predicate SoundConfig(c: Config) { Sound(c.keys) && Loads(c) }

  lemma StepSound(c: Config, s: Step)
    requires SoundConfig(c) && ProperStep(s)
    ensures SoundConfig(Perform(c, s))
    ensures c.keys.Active().Some? ==> Perform(c, s).keys.Active().Some?
  {
    RestSound(c.keys);
    match s.act {
      case Stage(seed) =>
        StageSound(c.keys, seed);
        StageKeepsActive(c.keys, seed);
      case Recover(seed) =>
        ClearedSound(c.keys);
        StageSound(Cleared(c.keys), seed);
        StageKeepsActive(Cleared(c.keys), seed);
      case _ =>
    }
    hide Validate, Minted, ValidKeyId, Cleared, TransportKeys.Stage;
    RestKeepsActive(c.keys);
  }

  lemma TargetSound(c: Config, host: Option<string>, port: Option<nat>)
    requires SoundConfig(c)
    ensures SoundConfig(UpdateTarget(c, host, port))
  {
    StepSound(c, Step(SetTarget(host, port), true));
    hide SoundConfig, UpdateTarget;
  }

  lemma VerificationSound(c: Config, verifier: Verifier)
    requires SoundConfig(c)
    ensures VerifyPending(c, verifier).Ok? ==> SoundConfig(VerifyPending(c, verifier).value)
  {
    StepSound(c, Step(Verify(verifier), true));
    hide SoundConfig, VerifyPending;
  }

  lemma StageKeepsActive(k: Keys, seed: Seed)
    ensures TransportKeys.Stage(k, seed).keys.Active() == k.Active()
  {}

  lemma RestKeepsActive(k: Keys)
    requires Sound(k)
    ensures MarkPendingVerified(k).keys.Active() == k.Active()
    ensures ResetPendingVerification(k).Active() == k.Active()
    ensures DiscardPending(k).keys.Active() == k.Active()
    ensures RetireRollback(k).keys.Active() == k.Active()
    ensures k.Active().Some? ==> RollbackKey(k).keys.Active().Some?
    ensures TransportKeys.Activate(k).error.None? ==> TransportKeys.Activate(k).keys.Active().Some?
  {
    hide ValidKeyId;
  }

  /**
   Whatever is done to a fresh device, the stored record loads again: it validates,
   secure mode has its active key, and every stored key plays exactly one role.
   */
  lemma {:induction false} EveryRunIsSound(steps: seq<Step>)
    requires ProperRun(steps)
    ensures SoundConfig(Run(steps))
  {
    if steps != [] {
      EveryRunIsSound(steps[..|steps| - 1]);
      StepSound(Run(steps[..|steps| - 1]), steps[|steps| - 1]);
    }
  }

  /** A target edit costs the staged key its proof exactly when it moves the target. */
  lemma EditKeepsProofExactly(c: Config, host: Option<string>, port: Option<nat>)
    ensures var d := UpdateTarget(c, host, port);
      && d.keys.(pendingVerified := c.keys.pendingVerified) == c.keys
      && (d.keys.pendingVerified <==> c.keys.pendingVerified && d.host == c.host && d.port == c.port)
  {}

  // ----- where verification comes from ----------------------------------------------------------

  // At this step the bridge at the configured target accepted the staged key, and that was kept.
  ghost predicate AcceptedAt(steps: seq<Step>, i: nat, key: Key, host: string, port: nat) {
    && i < |steps| && steps[i].persists && steps[i].act.Verify? && host != ""
    && steps[i].act.verifier(host, port, key).Ok?
    && var before := Run(steps[..i]); before.host == host && before.port == port && before.keys.Pending() == Some(key)
  }

  // From then on the target and the staged key have stayed as they were.
  ghost predicate UntouchedSince(steps: seq<Step>, i: nat) {
    forall j {:trigger Run(steps[..j])} :: i < j <= |steps| ==> SameProof(Run(steps[..j]), Run(steps))
  }

  ghost predicate SameProof(c: Config, d: Config) {
    c.host == d.host && c.port == d.port && c.keys.Pending() == d.keys.Pending()
    && c.keys.pendingVerified && d.keys.pendingVerified
  }

  ghost predicate Proven(steps: seq<Step>, i: nat) {
    var c := Run(steps);
    && c.keys.Pending().Some?
    && AcceptedAt(steps, i, c.keys.Pending().value, c.host, c.port)
    && UntouchedSince(steps, i)
  }

  lemma VerifiedStep(c: Config, s: Step)
    requires SoundConfig(c) && ProperStep(s) && Perform(c, s).keys.pendingVerified
    ensures var d := Perform(c, s);
      || SameProof(c, d)
      || (&& s.persists && s.act.Verify? && c.host != "" && c.keys.Pending().Some?
          && s.act.verifier(c.host, c.port, c.keys.Pending().value).Ok?
          && d == c.(keys := c.keys.(pendingVerified := true)))
  {
    hide Validate, Minted, ValidKeyId, Sound, Trim;
  }

  lemma AcceptedLater(steps: seq<Step>, i: nat, key: Key, host: string, port: nat)
    requires steps != [] && AcceptedAt(steps[..|steps| - 1], i, key, host, port)
    ensures AcceptedAt(steps, i, key, host, port)
  {
    hide Run;
    assert steps[..i] == steps[..|steps| - 1][..i];
  }

  lemma UntouchedLater(steps: seq<Step>, i: nat)
    requires steps != [] && UntouchedSince(steps[..|steps| - 1], i)
    requires SameProof(Run(steps[..|steps| - 1]), Run(steps))
    ensures UntouchedSince(steps, i)
  {
    hide Run;
    var shorter := steps[..|steps| - 1];
    assert steps[..|steps|] == steps;
    forall j {:trigger Run(steps[..j])} | i < j <= |steps| ensures SameProof(Run(steps[..j]), Run(steps)) {
      if j < |steps| {
        assert steps[..j] == shorter[..j];
        assert SameProof(Run(shorter[..j]), Run(shorter));
      }
    }
  }

  lemma ProofCarries(steps: seq<Step>, i: nat)
    requires steps != [] && Proven(steps[..|steps| - 1], i)
    requires SameProof(Run(steps[..|steps| - 1]), Run(steps))
    ensures Proven(steps, i)
  {
    var c := Run(steps[..|steps| - 1]);
    AcceptedLater(steps, i, c.keys.Pending().value, c.host, c.port);
    UntouchedLater(steps, i);
    hide Run, AcceptedAt, UntouchedSince;
  }

  lemma ProofBegins(steps: seq<Step>, before: Config)
    requires steps != [] && before == Run(steps[..|steps| - 1])
    requires var s := steps[|steps| - 1];
      && s.persists && s.act.Verify? && before.host != "" && before.keys.Pending().Some?
      && s.act.verifier(before.host, before.port, before.keys.Pending().value).Ok?
      && Run(steps) == before.(keys := before.keys.(pendingVerified := true))
    ensures Proven(steps, |steps| - 1)
  {
    hide Perform, Run;
    assert steps[..|steps|] == steps;
    assert Run(steps).keys.Pending() == before.keys.Pending();
  }

  /**
   In every run a verified mark means that this very key was accepted by the bridge at
   the configured host and port, and that neither key nor target has changed since.
   */
  lemma {:induction false} VerifiedMeansAccepted(steps: seq<Step>) returns (i: nat)
    requires ProperRun(steps) && Run(steps).keys.pendingVerified
    ensures Proven(steps, i)
  {
    var shorter, last := steps[..|steps| - 1], steps[|steps| - 1];
    var c := Run(shorter);
    EveryRunIsSound(shorter);
    VerifiedStep(c, last);
    assert Run(steps) == Perform(c, last);
    hide Perform, Run, SoundConfig, Proven;
    if SameProof(c, Run(steps)) {
      i := VerifiedMeansAccepted(shorter);
      ProofCarries(steps, i);
    } else {
      i := |steps| - 1;
      ProofBegins(steps, c);
    }
  }

  // ----- and what may become active ---------------------------------------------------------------

  // At some step some bridge accepted this key.
  ghost predicate OnceAccepted(steps: seq<Step>, key: Key) {
    exists i: nat, host: string, port: nat :: AcceptedAt(steps, i, key, host, port)
  }

  lemma AcceptedStays(steps: seq<Step>, key: Key)
    requires steps != [] && OnceAccepted(steps[..|steps| - 1], key)
    ensures OnceAccepted(steps, key)
  {
    var i: nat, host: string, port: nat :| AcceptedAt(steps[..|steps| - 1], i, key, host, port);
    AcceptedLater(steps, i, key, host, port);
  }

  predicate Trusted(k: Keys, key: Key) { k.Active() == Some(key) || k.Rollback() == Some(key) }

  lemma StageTrusts(k: Keys, seed: Seed, key: Key)
    requires Sound(k) && Trusted(TransportKeys.Stage(k, seed).keys, key)
    ensures Trusted(k, key)
  {
    SoundRoles(k);
    hide Sound, Minted;
  }

  lemma RestTrusts(k: Keys, key: Key)
    requires Sound(k)
    ensures Trusted(DiscardPending(k).keys, key) ==> Trusted(k, key)
    ensures Trusted(RollbackKey(k).keys, key) ==> Trusted(k, key)
    ensures Trusted(RetireRollback(k).keys, key) ==> Trusted(k, key)
  {
    SoundRoles(k);
    hide Sound;
  }

  lemma ActivationTrusts(k: Keys, key: Key)
    requires Sound(k) && Trusted(TransportKeys.Activate(k).keys, key)
    ensures Trusted(k, key) || (k.pendingVerified && k.Pending() == Some(key))
  {
    SoundRoles(k);
    hide Sound;
    if k.pending.Some? {
      var next, rest := TransportKeys.Activate(k).keys, k.pending.value.Other();
      assert next.Get(rest) == k.Get(rest);
      assert k.active.Some? ==> k.active.value == rest;
    }
  }

  // A key is trusted only if it was before, or if it was just promoted.
  lemma TrustComesFrom(c: Config, s: Step, key: Key)
    requires SoundConfig(c) && ProperStep(s) && Trusted(Perform(c, s).keys, key)
    ensures Trusted(c.keys, key) || (c.keys.pendingVerified && c.keys.Pending() == Some(key))
  {
    var k := c.keys;
    var next := Apply(c, s.act);
    if next.Some? && s.persists {
      RestTrusts(k, key);
      match s.act {
        case Stage(seed) => StageTrusts(k, seed, key);
        case Recover(seed) =>
          ClearedSound(k);
          StageTrusts(Cleared(k), seed, key);
        case Activate => ActivationTrusts(k, key);
        case SetMode(_) => assert next.value.keys == k;
        case _ =>
      }
      hide Sound, Minted, Cleared, TransportKeys.Stage, Validate, Trim;
    }
  }

  lemma SoundRoles(k: Keys)
    requires Sound(k)
    ensures k.active.Some? ==> k.Active().Some?
    ensures k.pending.Some? ==> k.Pending().Some? && k.pending != k.active
    ensures k.active.None? ==> forall slot :: k.pending != Some(slot) ==> k.Get(slot).None?
  {
    hide ValidKeyId;
    assert k.Get(A).Some? ==> Roles(k, A) == 1;
    assert k.Get(B).Some? ==> Roles(k, B) == 1;
  }

  /**
   Over every run, activation never promotes an unproven key: the active key, and the key
   kept to fall back on, was accepted by the bridge configured at the time.
   */
  lemma {:induction false} ActiveKeysWereAccepted(steps: seq<Step>, key: Key)
    requires ProperRun(steps)
    requires Run(steps).keys.Active() == Some(key) || Run(steps).keys.Rollback() == Some(key)
    ensures OnceAccepted(steps, key)
  {
    if steps != [] {
      var shorter, last := steps[..|steps| - 1], steps[|steps| - 1];
      var c := Run(shorter);
      EveryRunIsSound(shorter);
      TrustComesFrom(c, last, key);
      assert Run(steps) == Perform(c, last);
      hide Perform, Run, SoundConfig;
      if Trusted(c.keys, key) {
        ActiveKeysWereAccepted(shorter, key);
      } else {
        var i := VerifiedMeansAccepted(shorter);
        assert AcceptedAt(shorter, i, key, c.host, c.port);
      }
      hide OnceAccepted;
      AcceptedStays(steps, key);
    }
  }
}
