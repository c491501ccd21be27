/** The certificate and the online router together: what a draw of profiled
    problems says about the router that runs under its certificate. */
module EndToEnd {
  import opened Wrappers
  import opened Policy
  import opened Grid
  import opened Calibration
  import opened Search
  import opened Sampling
  import opened Guarantee
  import opened Router
  import opened RouterReplay

  /** A problem and its share of the population. */
  datatype Share = Share(problem: Problem, weight: real)

  function RecordFor(cfg: Config, p: Problem): Record {
    ProfileOf(p.world, cfg, p.known, p.id, p.audit)
  }

  /** The population of profiled records the calibration sample is drawn from. */
  function Profiles(cfg: Config, shares: seq<Share>): seq<Weighted> {
    if shares == [] then []
    else [Weighted(RecordFor(cfg, shares[0].problem), shares[0].weight)] + Profiles(cfg, shares[1..])
  }

  /** The cascade run under thresholds tau. */
  function Under(cfg: Config, tau: seq<real>): Config {
    cfg.(thresholds := Some(tau))
  }

  predicate Answered(cfg: Config, tau: seq<real>, p: Problem) {
    SequentialOf(p.world, Under(cfg, tau), p.known).accepted.Some?
  }

  predicate Admitted(p: Problem) {
    !p.audit.contaminated && !p.audit.unsound
  }

  function AdmittedShare(shares: seq<Share>): real {
    if shares == [] then 0.0
    else (if Admitted(shares[0].problem) then shares[0].weight else 0.0) + AdmittedShare(shares[1..])
  }

  /** The share of admitted problems the router leaves unsolved. */
  function UnsolvedShare(cfg: Config, tau: seq<real>, shares: seq<Share>): real {
    if shares == [] then 0.0
    else
      var p := shares[0].problem;
      (if Admitted(p) && !Answered(cfg, tau, p) then shares[0].weight else 0.0)
      + UnsolvedShare(cfg, tau, shares[1..])
  }

  ghost predicate Fixed(p: Problem) {
    Memoryless(p.world) && Prices(p.world)
  }

  // ------------------------------------------------------------ profiling ignores the thresholds

  lemma {:induction false} LogIgnoresThresholds(w: World, cfg: Config, known: seq<Failure>, tau: seq<real>, k: nat)
    requires k <= |cfg.tiers|
    ensures ProfileLog(w, Under(cfg, tau), known, k) == ProfileLog(w, cfg, known, k)
  {
    if k != 0 {
      LogIgnoresThresholds(w, cfg, known, tau, k - 1);
    }
  }

  lemma ObsIgnoresThresholds(w: World, cfg: Config, known: seq<Failure>, tau: seq<real>, k: nat)
    requires k < |cfg.tiers|
    ensures ObsOf(w, Under(cfg, tau), known, k) == ObsOf(w, cfg, known, k)
  {
    hide Samples, SampleUsd;
    LogIgnoresThresholds(w, cfg, known, tau, k);
  }

  lemma ProfileIgnoresThresholds(cfg: Config, tau: seq<real>, p: Problem)
    ensures RecordFor(Under(cfg, tau), p) == RecordFor(cfg, p)
  {
    hide ObsOf;
    var n := |cfg.tiers|;
    forall k | 0 <= k < n
      ensures ObsOf(p.world, Under(cfg, tau), p.known, k) == ObsOf(p.world, cfg, p.known, k)
    {
      ObsIgnoresThresholds(p.world, cfg, p.known, tau, k);
    }
    assert ObservedTiers(p.world, Under(cfg, tau), p.known, n) == ObservedTiers(p.world, cfg, p.known, n);
  }

  // ------------------------------------------------------------ shares

  /** A problem the thresholds get right is one the router answers. */
  lemma RightMeansAnswered(cfg: Config, tau: seq<real>, p: Problem)
    requires NoRepair(cfg) && Fixed(p) && cfg.tiers != [] && |cfg.tiers| - 1 <= |tau|
    ensures !WrongUnder(RecordFor(cfg, p), tau) ==> Answered(cfg, tau, p)
  {
    hide Memoryless, Prices, SequentialOf, ReplayOf, ProfileOf;
    ProfileIgnoresThresholds(cfg, tau, p);
    RouterDominatesReplay(p.world, Under(cfg, tau), p.known, tau, p.id, p.audit);
  }

  lemma ProfileIsShadow(cfg: Config, p: Problem)
    ensures RecordFor(cfg, p).shadow
    ensures Usable(RecordFor(cfg, p)) <==> Admitted(p)
  {
    hide ObservedTiers;
  }

  lemma {:induction false} ProfilesAreShadow(cfg: Config, shares: seq<Share>)
    ensures |Profiles(cfg, shares)| == |shares|
    ensures forall i :: 0 <= i < |shares| ==> Profiles(cfg, shares)[i].rec.shadow
  {
    hide RecordFor;
    if shares != [] {
      ProfilesAreShadow(cfg, shares[1..]);
      ProfileIsShadow(cfg, shares[0].problem);
    }
  }

  lemma HeadOfProfiles(cfg: Config, shares: seq<Share>, p: Record -> bool)
    requires shares != []
    ensures WeightOf(Profiles(cfg, shares), p)
         == (if p(RecordFor(cfg, shares[0].problem)) then shares[0].weight else 0.0)
            + WeightOf(Profiles(cfg, shares[1..]), p)
  {
    hide RecordFor;
    var rest := Profiles(cfg, shares[1..]);
    assert Profiles(cfg, shares)[1..] == rest;
  }

  lemma {:induction false} SharesAreWeights(cfg: Config, tau: seq<real>, shares: seq<Share>)
    requires NoRepair(cfg) && cfg.tiers != [] && |cfg.tiers| - 1 <= |tau|
    requires forall i :: 0 <= i < |shares| ==> Fixed(shares[i].problem) && 0.0 <= shares[i].weight
    ensures AdmittedShare(shares) == WeightOf(Profiles(cfg, shares), Usable)
    ensures UnsolvedShare(cfg, tau, shares) <= WeightOf(Profiles(cfg, shares), Both(Usable, Wrong(tau)))
  {
    hide RecordFor, WeightOf, Profiles, Answered, WrongUnder, Fixed, NoRepair;
    if shares == [] {
      NoShares(cfg, tau);
    } else {
      var p := shares[0].problem;
      SharesAreWeights(cfg, tau, shares[1..]);
      HeadOfProfiles(cfg, shares, Usable);
      HeadOfProfiles(cfg, shares, Both(Usable, Wrong(tau)));
      ProfileIsShadow(cfg, p);
      RightMeansAnswered(cfg, tau, p);
    }
  }

  lemma NoShares(cfg: Config, tau: seq<real>)
    ensures WeightOf(Profiles(cfg, []), Usable) == 0.0
    ensures WeightOf(Profiles(cfg, []), Both(Usable, Wrong(tau))) == 0.0
  {
  }

  // ------------------------------------------------------------ the theorem

  lemma CertifiedArity(s: seq<Record>, nTiers: nat, options: Options)
    requires 2 <= nTiers && Certifies(s, nTiers, options)
    ensures |CertificateOf(s, nTiers, options).value.thresholds| == nTiers - 1
  {
    hide CertificateOf, CalibrationStream, GridOf;
    ValidCertificatePassedItsTest(s, nTiers, options);
    GridArity(nTiers - 1, options.Effective().step);
  }

  lemma GridArity(arity: nat, step: real)
    requires 0 < arity && 0.0 < step
    ensures forall v :: v in GridOf(arity, step) ==> |v| == arity
  {
    RowsHaveArity(arity, Levels(step));
  }

  /** The certificate is valid, yet the router under its thresholds leaves more
      than alpha of the admitted problems unsolved. */
  ghost function CertifiedRouterFails(cfg: Config, shares: seq<Share>, options: Options): seq<Record> -> bool {
    (s: seq<Record>) =>
      && Certifies(s, |cfg.tiers|, options)
      && options.alpha * AdmittedShare(shares)
         < UnsolvedShare(cfg, CertificateOf(s, |cfg.tiers|, options).value.thresholds, shares)
  }

  lemma FailingRouterBreaksCertificate(cfg: Config, shares: seq<Share>, options: Options, s: seq<Record>)
    requires NoRepair(cfg) && 2 <= |cfg.tiers|
    requires forall i :: 0 <= i < |shares| ==> Fixed(shares[i].problem) && 0.0 <= shares[i].weight
    requires CertifiedRouterFails(cfg, shares, options)(s)
    ensures CertificateBroken(Profiles(cfg, shares), |cfg.tiers|, options)(s)
  {
    hide CertificateOf, WeightOf, Profiles, UnsolvedShare, AdmittedShare, NoRepair, PrefersShadow, Fixed;
    var pop, tau := Profiles(cfg, shares), CertificateOf(s, |cfg.tiers|, options).value.thresholds;
    CertifiedArity(s, |cfg.tiers|, options);
    SharesAreWeights(cfg, tau, shares);
    ProfilesAreShadow(cfg, shares);
    SameStreamRisk(pop, StreamMember(s), Usable, tau, options.alpha);
  }

  /** With fixed outcomes and repair off: over the draw of the profiled problems,
      the chance that the certificate is valid and the router that runs under it
      leaves more than alpha of the problems unsolved is at most delta. */
  lemma CertifiedRouterSolves(cfg: Config, shares: seq<Share>, n: nat, options: Options)
    requires NoRepair(cfg) && 2 <= |cfg.tiers| && AlphaClear(options.alpha)
    requires forall i :: 0 <= i < |shares| ==> Fixed(shares[i].problem)
    requires IsPopulation(Profiles(cfg, shares))
    requires forall j: nat :: j <= n ==> SizeClear(j, options.alpha, LevelOf(|cfg.tiers|, options))
    ensures Probability(Profiles(cfg, shares), n, CertifiedRouterFails(cfg, shares, options))
         <= options.Effective().delta
  {
    hide Probability, CertifiedRouterFails, CertificateBroken, Fixed, NoRepair, AlphaClear, SizeClear, TotalWeight,
         RecordFor;
    var pop, nTiers := Profiles(cfg, shares), |cfg.tiers|;
    ProfilesAreShadow(cfg, shares);
    WeightsAreShares(cfg, shares);
    forall s | Sampling.Drawn(pop, n, s) && CertifiedRouterFails(cfg, shares, options)(s)
      ensures CertificateBroken(pop, nTiers, options)(s)
    {
      FailingRouterBreaksCertificate(cfg, shares, options, s);
    }
    ProbabilityMonotone(pop, n, CertifiedRouterFails(cfg, shares, options), CertificateBroken(pop, nTiers, options));
    CertificateTheorem(pop, n, nTiers, options);
  }

  lemma {:induction false} WeightsAreShares(cfg: Config, shares: seq<Share>)
    ensures |Profiles(cfg, shares)| == |shares|
    ensures forall i :: 0 <= i < |shares| ==> Profiles(cfg, shares)[i].weight == shares[i].weight
  {
    hide RecordFor;
    if shares != [] {
      WeightsAreShares(cfg, shares[1..]);
    }
  }
}
