/** What the owner can always do: set a target, prove a key against it, and put it in use. */
module KeyLifecycle {
  import opened Wrappers
  import opened Text
  import opened TransportKeys
  import opened KeyRoles
  import opened KeyRuns

  /** A target edit stores the host without its outer whitespace, and the port, and leaves the rest. */
  lemma TargetIsSet(c: Config, host: Option<string>, port: Option<nat>) returns (before: string, after: string)
    ensures var d := UpdateTarget(c, host, port);
      && (host.Some? ==> host.value == before + d.host + after && Blank(before) && Blank(after) && Solid(d.host))
      && (host.None? ==> d.host == c.host)
      && (if port.Some? then d.port == port.value else d.port == c.port)
      && d.mode == c.mode && RingOf(d.keys).(proven := c.keys.pendingVerified) == RingOf(c.keys)
  {
    before, after := "", "";
    if host.Some? {
      before, after := TrimParts(host.value);
      TrimIsSolid(host.value);
    }
    hide Trim;
  }

  // Why the staged key is not proven; nothing when it is.
  function Unproven(c: Config, verifier: Verifier): Option<VerifyError> {
    var staged := RingOf(c.keys).staged;
    if c.host == "" then Some(MissingTarget)
    else if staged.None? then Some(NoPending)
    else if verifier(c.host, c.port, staged.value).Err?
      then Some(Rejected(verifier(c.host, c.port, staged.value).error))
    else None
  }

  /** Verification succeeds exactly when there is a target, a staged key, and a bridge there that accepts it. */
  lemma VerifiesExactly(c: Config, verifier: Verifier)
    requires SoundConfig(c)
    ensures match VerifyPending(c, verifier)
      case Err(e) => Unproven(c, verifier) == Some(e)
      case Ok(d) => && Unproven(c, verifier).None?
                    && d.host == c.host && d.port == c.port && d.mode == c.mode
                    && RingOf(d.keys) == RingOf(c.keys).(proven := true)
  {
    ProofRoles(c.keys);
    hide Sound, Validate;
  }

  /** Secure mode can be chosen exactly when a key is in use, cleartext always. */
  lemma ModeExactly(c: Config, mode: Mode)
    requires SoundConfig(c)
    ensures Apply(c, SetMode(mode)) ==
      if mode.TlsPsk? && RingOf(c.keys).active.None? then None else Some(c.(mode := mode))
  {
    hide Validate;
  }

  // The key operations that neither verify nor change the mode.
  ghost predicate PlainAct(a: Act) { a.Stage? || a.Discard? || a.RollBack? || a.Retire? }

  /**
   Recovery also falls back to cleartext and activation turns secure mode on; the other key
   operations leave the mode alone, and none of them touches the target.
   */
  lemma ModeFollows(c: Config, a: Act)
    requires Apply(c, a).Some?
    ensures var d := Apply(c, a).value;
      && (a.Recover? ==> d.mode == Cleartext) && (a.Activate? ==> d.mode == TlsPsk)
      && (PlainAct(a) || a.Verify? ==> d.mode == c.mode)
      && (!a.SetTarget? ==> d.host == c.host && d.port == c.port)
  {}

  // The steps that put a new key in use, each of them stored.
  function Rotation(seed: Seed, verifier: Verifier): seq<Step> {
    [Step(Stage(seed), true), Step(Verify(verifier), true), Step(Activate, true)]
  }

  /**
   From any state a run leads to, with a target set and nothing but a key in use, staging,
   proving and activating a new key puts it in use in secure mode, and keeps the old one
   to fall back on.
   */
  lemma RotationCompletes(steps: seq<Step>, seed: Seed, verifier: Verifier)
    requires ProperRun(steps) && Proper(seed)
    requires var c := Run(steps);
      && c.host != "" && Bare(RingOf(c.keys)) && !Clashes(RingOf(c.keys), Minted(seed))
      && verifier(c.host, c.port, Minted(seed)).Ok?
    ensures var c, d := Run(steps), Run(steps + Rotation(seed, verifier));
      && d.mode == TlsPsk && d.host == c.host && d.port == c.port
      && RingOf(d.keys) == Ring(Some(Minted(seed)), None, false, RingOf(c.keys).active)
  {
    var c := Run(steps);
    EveryRunIsSound(steps);
    var s1 := steps + [Rotation(seed, verifier)[0]];
    StageRoles(c.keys, seed);
    RunMore(steps, Step(Stage(seed), true));
    StepSound(c, Step(Stage(seed), true));
    var c1 := Run(s1);
    VerifiesExactly(c1, verifier);
    RunMore(s1, Step(Verify(verifier), true));
    StepSound(c1, Step(Verify(verifier), true));
    var s2 := s1 + [Rotation(seed, verifier)[1]];
    ActivateRoles(Run(s2).keys);
    RunMore(s2, Step(Activate, true));
    assert steps + Rotation(seed, verifier) == s2 + [Step(Activate, true)];
    hide Run, SoundConfig, Minted, RingOf, VerifyPending, TransportKeys.Stage, TransportKeys.Activate;
  }

  lemma RunMore(steps: seq<Step>, s: Step)
    ensures Run(steps + [s]) == Perform(Run(steps), s)
  {
    assert (steps + [s])[..|steps|] == steps;
  }
}
