/**
 Which directional forecasts the research supports: the eligibility of one claim for one
 asset and horizon, and the two validators built on claims and their critiques.
 */
module DecisionEvidence {
  import opened Wrappers

  datatype Asset = Tqqq | Qqq | Soxx | Soxl

  const EXECUTABLE := [Tqqq, Qqq, Soxx, Soxl]

  // Weights and probabilities are in parts of a million.
  const SCALE := 1_000_000

  datatype Horizon = T1 | T3 | T5

  datatype Stance = Bullish | Bearish | Neutral

  datatype Shard = PriceMarketStructure | Macro | FundamentalsSemiconductor | NewsEvent

  datatype Role = Descriptive | Directional

  datatype Impact = Warning | BlocksDirectionalForecast

  datatype VerificationStatus = Supported | Contradicted | NotEnoughInformation

  type Ref = string

  datatype Ground = Ground(evidence: Ref, role: Role, domain: Option<Shard>, assets: set<Asset>)

  // Empty assets mean every asset; empty horizons mean the claim's own.
  datatype Gap = Gap(impact: Impact, assets: set<Asset>, horizons: set<Horizon>)

  datatype Authority = Primary | Official | EstablishedSecondary | Unrated

  datatype Temporal = ValidAtDecisionCutoff | Stale | UnknownTime

  datatype Verification = Verification(evidence: Ref, authority: Authority, temporal: Temporal)

  // `valid` is the record's own structural check.
  datatype Claim = Claim(horizon: Horizon, stance: Stance, grounds: seq<Ground>, gaps: seq<Gap>, valid: bool)

  datatype Critique = Critique(
    target: Ref, blocker: bool, grounds: seq<Ground>, gaps: seq<Gap>, status: VerificationStatus,
    supporting: seq<Verification>, valid: bool)

  datatype CitedClaim = CitedClaim(reference: Ref, claim: Claim)

  // `thesisFits`: the thesis, where there is one, is valid for the horizon.
  datatype Forecast = Forecast(asset: Asset, horizon: Horizon, probability: nat, expected: int, thesisFits: bool)

  datatype Draft = Draft(forecasts: seq<Forecast>, claims: seq<Ref>, incompleteEvidence: bool)

  // --- Scopes and directions ---

  predicate GapBlocks(gap: Gap, asset: Asset, horizon: Horizon, claimHorizon: Horizon) {
    && gap.impact.BlocksDirectionalForecast?
    && (gap.assets == {} || asset in gap.assets)
    && (if gap.horizons == {} then horizon == claimHorizon else horizon in gap.horizons)
  }

  predicate AnyGapBlocks(gaps: seq<Gap>, asset: Asset, horizon: Horizon, claimHorizon: Horizon) {
    exists g :: g in gaps && GapBlocks(g, asset, horizon, claimHorizon)
  }

  predicate CritiqueBlocks(critique: Critique, asset: Asset, horizon: Horizon, claimHorizon: Horizon) {
    critique.blocker
    && ((forall g :: g in critique.gaps ==> !g.impact.BlocksDirectionalForecast?)
        || AnyGapBlocks(critique.gaps, asset, horizon, claimHorizon))
  }

  predicate IsNeutral(f: Forecast) {
    f.expected == 0 && f.probability == 500_000
  }

  predicate SupportedByStance(f: Forecast, stance: Stance) {
    var up := f.expected > 0 || (f.expected == 0 && f.probability > 500_000);
    var down := f.expected < 0 || (f.expected == 0 && f.probability < 500_000);
    (up && stance.Bullish?) || (down && stance.Bearish?)
  }

  // A directional ground about the asset in the domain.
  predicate Covers(ground: Ground, domain: Shard, asset: Asset) {
    ground.role.Directional? && ground.domain == Some(domain) && asset in ground.assets
  }

  // --- The current validator ---

  predicate IsCurrentAuthoritative(v: Verification) {
    !v.authority.Unrated? && v.temporal.ValidAtDecisionCutoff?
  }

  // The critique reviewed the ground for the asset and verified it as current and rated.
  predicate Reviewed(critique: Critique, ground: Ground, asset: Asset) {
    && (exists r :: r in critique.grounds && r.evidence == ground.evidence && r.role == ground.role
                    && r.domain == ground.domain && asset in r.assets)
    && (exists v :: v in critique.supporting && v.evidence == ground.evidence && IsCurrentAuthoritative(v))
  }

  predicate DomainVerified(critique: Critique, claim: Claim, domain: Shard, asset: Asset) {
    exists ground :: ground in claim.grounds && Covers(ground, domain, asset) && Reviewed(critique, ground, asset)
  }

  predicate Verifies(critique: Critique, reference: Ref, claim: Claim, asset: Asset, horizon: Horizon) {
    && critique.target == reference && critique.valid && critique.status.Supported?
    && !CritiqueBlocks(critique, asset, horizon, claim.horizon)
    && DomainVerified(critique, claim, PriceMarketStructure, asset) && DomainVerified(critique, claim, Macro, asset)
  }

  predicate ClaimSlotEligible(reference: Ref, claim: Claim, critiques: seq<Critique>, asset: Asset, horizon: Horizon) {
    && claim.horizon == horizon && claim.valid && !claim.stance.Neutral?
    && !AnyGapBlocks(claim.gaps, asset, horizon, claim.horizon)
    && exists critique :: critique in critiques && Verifies(critique, reference, claim, asset, horizon)
  }

  predicate Carries(draft: Draft, c: CitedClaim, critiques: seq<Critique>, f: Forecast) {
    && c.reference in draft.claims && SupportedByStance(f, c.claim.stance)
    && ClaimSlotEligible(c.reference, c.claim, critiques, f.asset, f.horizon)
  }

  // Every directional forecast is carried by one complete claim and its own critique.
  predicate ValidateVerified(draft: Draft, claims: seq<CitedClaim>, critiques: seq<Critique>) {
    forall f :: f in draft.forecasts && !IsNeutral(f) ==>
                  exists c :: c in claims && Carries(draft, c, critiques, f)
  }

  // --- The legacy validator ---

  predicate GapsBlock(claims: seq<Claim>, f: Forecast) {
    exists c :: c in claims && AnyGapBlocks(c.gaps, f.asset, f.horizon, c.horizon)
  }

  predicate DomainCovered(claims: seq<Claim>, domain: Shard, asset: Asset, horizon: Horizon) {
    exists c :: c in claims && c.horizon == horizon && exists g :: g in c.grounds && Covers(g, domain, asset)
  }

  predicate Covered(claims: seq<Claim>, asset: Asset, horizon: Horizon) {
    DomainCovered(claims, PriceMarketStructure, asset, horizon) && DomainCovered(claims, Macro, asset, horizon)
  }

  predicate ValidateSufficiency(draft: Draft, claims: seq<Claim>) {
    var hasGaps := exists f :: f in draft.forecasts && !IsNeutral(f) && GapsBlock(claims, f);
    if hasGaps && !draft.incompleteEvidence then false
    else if forall f :: f in draft.forecasts ==> IsNeutral(f) then true
    else
      !exists f :: f in draft.forecasts && !IsNeutral(f)
                   && (!Covered(claims, f.asset, f.horizon) || GapsBlock(claims, f))
  }

  // The claim speaks to the forecast and some critique supports it there.
  predicate IsVerified(c: CitedClaim, critiques: seq<Critique>, f: Forecast) {
    && c.claim.horizon == f.horizon && SupportedByStance(f, c.claim.stance)
    && exists v :: v in critiques && v.target == c.reference
                   && !CritiqueBlocks(v, f.asset, f.horizon, c.claim.horizon) && v.status.Supported?
  }

  function VerifiedClaims(claims: seq<CitedClaim>, critiques: seq<Critique>, f: Forecast): (r: seq<Claim>)
    ensures forall claim :: claim in r <==>
                              exists c :: c in claims && c.claim == claim && IsVerified(c, critiques, f)
  {
    if claims == [] then []
    else
      assert claims == [claims[0]] + claims[1..];
      (if IsVerified(claims[0], critiques, f) then [claims[0].claim] else [])
      + VerifiedClaims(claims[1..], critiques, f)
  }

  function AtSlot(forecasts: seq<Forecast>, f: Forecast): (r: seq<Forecast>)
    ensures forall g :: g in r <==> g in forecasts && g.asset == f.asset && g.horizon == f.horizon
  {
    if forecasts == [] then []
    else
      assert forecasts == [forecasts[0]] + forecasts[1..];
      (if forecasts[0].asset == f.asset && forecasts[0].horizon == f.horizon then [forecasts[0]] else [])
      + AtSlot(forecasts[1..], f)
  }

  predicate ValidateLegacy(draft: Draft, claims: seq<CitedClaim>, critiques: seq<Critique>) {
    forall f :: f in draft.forecasts && !IsNeutral(f) ==>
                  ValidateSufficiency(draft.(forecasts := AtSlot(draft.forecasts, f)), VerifiedClaims(claims, critiques, f))
  }

  // --- What the validators accept ---

  /**
   The evidence check accepts exactly when every directional forecast is covered by price and
   macro grounds and no gap blocks it; the incomplete-evidence warning never changes the answer.
   */
  lemma SufficiencyExactly(draft: Draft, claims: seq<Claim>)
    ensures ValidateSufficiency(draft, claims) <==>
            forall f :: f in draft.forecasts && !IsNeutral(f) ==>
                          Covered(claims, f.asset, f.horizon) && !GapsBlock(claims, f)
  {
  }

  // A ground that says which way one of these assets goes.
  predicate Points(ground: Ground, domain: Shard, asset: Asset) {
    ground.role == Directional && ground.domain == Some(domain) && asset in ground.assets
  }

  // Directional price and macro grounds on its asset, from claims for its horizon, and no blocking
  // gap on its asset, or on none in particular, at its horizon; a gap that names no horizon is at
  // that of its own claim.
  ghost predicate Demands(claims: seq<Claim>, f: Forecast) {
    && (exists c, g :: c in claims && c.horizon == f.horizon && g in c.grounds && Points(g, PriceMarketStructure, f.asset))
    && (exists c, g :: c in claims && c.horizon == f.horizon && g in c.grounds && Points(g, Macro, f.asset))
    && !exists c, g :: c in claims && g in c.gaps && g.impact == BlocksDirectionalForecast
                       && (g.assets == {} || f.asset in g.assets)
                       && f.horizon in (if g.horizons == {} then {c.horizon} else g.horizons)
  }

  /** The evidence check is met exactly if each directional forecast gets that. */
  lemma SufficiencyDemands(draft: Draft, claims: seq<Claim>)
    ensures ValidateSufficiency(draft, claims) <==>
            forall f :: f in draft.forecasts && !(f.expected == 0 && f.probability == 500_000) ==> Demands(claims, f)
  {
    SufficiencyExactly(draft, claims);
    forall f | f in draft.forecasts
      ensures Demands(claims, f) <==> Covered(claims, f.asset, f.horizon) && !GapsBlock(claims, f) {
      CoverageDemands(claims, PriceMarketStructure, f);
      CoverageDemands(claims, Macro, f);
      GapsDemand(claims, f);
    }
  }

  lemma CoverageDemands(claims: seq<Claim>, domain: Shard, f: Forecast)
    ensures DomainCovered(claims, domain, f.asset, f.horizon) <==>
            exists c, g :: c in claims && c.horizon == f.horizon && g in c.grounds && Points(g, domain, f.asset)
  {
    if c, g :| c in claims && c.horizon == f.horizon && g in c.grounds && Points(g, domain, f.asset) {
      assert Covers(g, domain, f.asset);
    }
    if DomainCovered(claims, domain, f.asset, f.horizon) {
      var c :| c in claims && c.horizon == f.horizon && exists g :: g in c.grounds && Covers(g, domain, f.asset);
      var g :| g in c.grounds && Covers(g, domain, f.asset);
      assert Points(g, domain, f.asset);
    }
  }

  lemma GapsDemand(claims: seq<Claim>, f: Forecast)
    ensures GapsBlock(claims, f) <==>
            exists c, g :: c in claims && g in c.gaps && g.impact == BlocksDirectionalForecast
                           && (g.assets == {} || f.asset in g.assets)
                           && f.horizon in (if g.horizons == {} then {c.horizon} else g.horizons)
  {
    if c, g :| c in claims && g in c.gaps && g.impact == BlocksDirectionalForecast
               && (g.assets == {} || f.asset in g.assets)
               && f.horizon in (if g.horizons == {} then {c.horizon} else g.horizons) {
      assert GapBlocks(g, f.asset, f.horizon, c.horizon);
      assert AnyGapBlocks(c.gaps, f.asset, f.horizon, c.horizon);
    }
    if GapsBlock(claims, f) {
      var c :| c in claims && AnyGapBlocks(c.gaps, f.asset, f.horizon, c.horizon);
      var g :| g in c.gaps && GapBlocks(g, f.asset, f.horizon, c.horizon);
    }
  }

  // No verified claim carries a gap that blocks the forecast.
  predicate GapFree(claims: seq<CitedClaim>, critiques: seq<Critique>, f: Forecast) {
    forall c :: c in claims && IsVerified(c, critiques, f) ==>
                  !AnyGapBlocks(c.claim.gaps, f.asset, f.horizon, c.claim.horizon)
  }

  // Some verified claim has a ground in the domain; different domains may come from different claims.
  predicate Grounded(claims: seq<CitedClaim>, critiques: seq<Critique>, f: Forecast, domain: Shard) {
    exists c :: c in claims && IsVerified(c, critiques, f)
                && exists g :: g in c.claim.grounds && Covers(g, domain, f.asset)
  }

  lemma SlotSufficiency(draft: Draft, claims: seq<CitedClaim>, critiques: seq<Critique>, f: Forecast)
    requires f in draft.forecasts && !IsNeutral(f)
    ensures ValidateSufficiency(draft.(forecasts := AtSlot(draft.forecasts, f)), VerifiedClaims(claims, critiques, f)) <==>
            && Grounded(claims, critiques, f, PriceMarketStructure) && Grounded(claims, critiques, f, Macro)
            && GapFree(claims, critiques, f)
  {
    var verified, scoped := VerifiedClaims(claims, critiques, f), draft.(forecasts := AtSlot(draft.forecasts, f));
    SufficiencyExactly(scoped, verified);
    GroundedIsCovered(claims, critiques, f, PriceMarketStructure);
    GroundedIsCovered(claims, critiques, f, Macro);
    GapFreeIsUnblocked(claims, critiques, f);
    assert f in scoped.forecasts;
    forall g | g in scoped.forecasts ensures g.asset == f.asset && g.horizon == f.horizon
                                             && (GapsBlock(verified, g) <==> GapsBlock(verified, f)) {}
  }

  lemma GroundedIsCovered(claims: seq<CitedClaim>, critiques: seq<Critique>, f: Forecast, domain: Shard)
    ensures DomainCovered(VerifiedClaims(claims, critiques, f), domain, f.asset, f.horizon) <==>
            Grounded(claims, critiques, f, domain)
  {
    var verified := VerifiedClaims(claims, critiques, f);
    if DomainCovered(verified, domain, f.asset, f.horizon) {
      var claim :| claim in verified && claim.horizon == f.horizon
                   && exists g :: g in claim.grounds && Covers(g, domain, f.asset);
      var c :| c in claims && c.claim == claim && IsVerified(c, critiques, f);
    }
    if Grounded(claims, critiques, f, domain) {
      var c :| c in claims && IsVerified(c, critiques, f)
               && exists g :: g in c.claim.grounds && Covers(g, domain, f.asset);
      assert c.claim in verified;
    }
  }

  lemma GapFreeIsUnblocked(claims: seq<CitedClaim>, critiques: seq<Critique>, f: Forecast)
    ensures GapsBlock(VerifiedClaims(claims, critiques, f), f) <==> !GapFree(claims, critiques, f)
  {
    var verified := VerifiedClaims(claims, critiques, f);
    if GapsBlock(verified, f) {
      var claim :| claim in verified && AnyGapBlocks(claim.gaps, f.asset, f.horizon, claim.horizon);
      var c :| c in claims && c.claim == claim && IsVerified(c, critiques, f);
    }
    if !GapFree(claims, critiques, f) {
      var c :| c in claims && IsVerified(c, critiques, f)
               && AnyGapBlocks(c.claim.gaps, f.asset, f.horizon, c.claim.horizon);
      assert c.claim in verified;
    }
  }

  /**
   The legacy validator accepts exactly when each directional forecast has, among its verified
   claims, a price ground, a macro ground, and no blocking gap anywhere.
   */
  lemma LegacyExactly(draft: Draft, claims: seq<CitedClaim>, critiques: seq<Critique>)
    ensures ValidateLegacy(draft, claims, critiques) <==>
            forall f :: f in draft.forecasts && !IsNeutral(f) ==>
                          && Grounded(claims, critiques, f, PriceMarketStructure)
                          && Grounded(claims, critiques, f, Macro)
                          && GapFree(claims, critiques, f)
  {
    forall f | f in draft.forecasts && !IsNeutral(f)
      ensures ValidateSufficiency(draft.(forecasts := AtSlot(draft.forecasts, f)), VerifiedClaims(claims, critiques, f)) <==>
              && Grounded(claims, critiques, f, PriceMarketStructure) && Grounded(claims, critiques, f, Macro)
              && GapFree(claims, critiques, f)
    {
      SlotSufficiency(draft, claims, critiques, f);
    }
  }

  // A claim that carries a forecast is a verified claim, cited, without a blocking gap and with both grounds.
  lemma CarrierIsVerified(draft: Draft, c: CitedClaim, claims: seq<CitedClaim>, critiques: seq<Critique>, f: Forecast)
    requires c in claims && Carries(draft, c, critiques, f)
    ensures IsVerified(c, critiques, f) && c.reference in draft.claims && c.claim.valid
    ensures forall g :: g in c.claim.gaps && g.impact.BlocksDirectionalForecast? ==>
                          (g.assets != {} && f.asset !in g.assets) || (g.horizons != {} && f.horizon !in g.horizons)
    ensures Grounded(claims, critiques, f, PriceMarketStructure) && Grounded(claims, critiques, f, Macro)
  {
    forall g | g in c.claim.gaps && g.impact.BlocksDirectionalForecast?
      ensures (g.assets != {} && f.asset !in g.assets) || (g.horizons != {} && f.horizon !in g.horizons) {
      assert !GapBlocks(g, f.asset, f.horizon, c.claim.horizon);
    }
    var v :| v in critiques && Verifies(v, c.reference, c.claim, f.asset, f.horizon);
    var price :| price in c.claim.grounds && Covers(price, PriceMarketStructure, f.asset) && Reviewed(v, price, f.asset);
    var macro :| macro in c.claim.grounds && Covers(macro, Macro, f.asset) && Reviewed(v, macro, f.asset);
  }

  /**
   Where the current validator accepts, the legacy one accepts exactly when no verified claim
   has a gap blocking a directional forecast: that is its only extra demand.
   */
  lemma VerifiedRefinesLegacy(draft: Draft, claims: seq<CitedClaim>, critiques: seq<Critique>)
    requires ValidateVerified(draft, claims, critiques)
    ensures ValidateLegacy(draft, claims, critiques) <==>
            forall f :: f in draft.forecasts && !IsNeutral(f) ==> GapFree(claims, critiques, f)
  {
    LegacyExactly(draft, claims, critiques);
    forall f | f in draft.forecasts && !IsNeutral(f)
      ensures Grounded(claims, critiques, f, PriceMarketStructure) && Grounded(claims, critiques, f, Macro)
    {
      var c :| c in claims && Carries(draft, c, critiques, f);
      CarrierIsVerified(draft, c, claims, critiques, f);
    }
  }

  /** More claims, more critiques, more citations: acceptance never turns into rejection. */
  lemma VerifiedIsMonotone(draft: Draft, claims: seq<CitedClaim>, critiques: seq<Critique>,
      wider: Draft, moreClaims: seq<CitedClaim>, moreCritiques: seq<Critique>)
    requires ValidateVerified(draft, claims, critiques)
    requires wider.forecasts == draft.forecasts && forall r :: r in draft.claims ==> r in wider.claims
    requires forall c :: c in claims ==> c in moreClaims
    requires forall v :: v in critiques ==> v in moreCritiques
    ensures ValidateVerified(wider, moreClaims, moreCritiques)
  {
    forall f | f in wider.forecasts && !IsNeutral(f)
      ensures exists c :: c in moreClaims && Carries(wider, c, moreCritiques, f)
    {
      var c :| c in claims && Carries(draft, c, critiques, f);
      var v :| v in critiques && Verifies(v, c.reference, c.claim, f.asset, f.horizon);
      assert v in moreCritiques;
      assert Carries(wider, c, moreCritiques, f);
    }
  }

  // --- The two validators differ both ways ---

  const RISE := Forecast(Qqq, T1, 600_000, 10, true)

  const PRICE := Ground("p", Directional, Some(PriceMarketStructure), {Qqq})
  const MACRO := Ground("m", Directional, Some(Macro), {Qqq})
  const SCOPELESS := Gap(BlocksDirectionalForecast, {}, {})
  const DRAFT := Draft([RISE], ["a", "b"], false)

  function Bull(reference: Ref, grounds: seq<Ground>, gaps: seq<Gap>): CitedClaim {
    CitedClaim(reference, Claim(T1, Bullish, grounds, gaps, true))
  }

  // The critique that supports a claim on all its grounds.
  function Supporting(target: Ref, grounds: seq<Ground>): Critique {
    Critique(target, false, grounds, [], Supported,
      seq(|grounds|, i requires 0 <= i < |grounds| => Verification(grounds[i].evidence, Primary, ValidAtDecisionCutoff)),
      true)
  }

  const JOINED := [Bull("a", [PRICE], []), Bull("b", [MACRO], [])]
  const JOINED_REVIEWS := [Supporting("a", [PRICE]), Supporting("b", [MACRO])]
  const GAPPED := [Bull("a", [PRICE, MACRO], []), Bull("b", [PRICE, MACRO], [SCOPELESS])]
  const GAPPED_REVIEWS := [Supporting("a", [PRICE, MACRO]), Supporting("b", [PRICE, MACRO])]

  lemma SupportedIsVerified(c: CitedClaim, critiques: seq<Critique>, k: nat)
    requires c.claim.horizon.T1? && c.claim.stance.Bullish?
    requires k < |critiques| && critiques[k] == Supporting(c.reference, c.claim.grounds)
    ensures IsVerified(c, critiques, RISE)
  {
    assert critiques[k] in critiques;
  }

  lemma OneClaimGrounds(claims: seq<CitedClaim>, critiques: seq<Critique>, i: nat, k: nat, domain: Shard)
    requires i < |claims| && IsVerified(claims[i], critiques, RISE)
    requires k < |claims[i].claim.grounds| && Covers(claims[i].claim.grounds[k], domain, Qqq)
    ensures Grounded(claims, critiques, RISE, domain)
  {
    assert claims[i] in claims && claims[i].claim.grounds[k] in claims[i].claim.grounds;
  }

  lemma JoinedGrounds()
    ensures IsVerified(JOINED[0], JOINED_REVIEWS, RISE) && IsVerified(JOINED[1], JOINED_REVIEWS, RISE)
    ensures Grounded(JOINED, JOINED_REVIEWS, RISE, PriceMarketStructure) && Grounded(JOINED, JOINED_REVIEWS, RISE, Macro)
  {
    SupportedIsVerified(JOINED[0], JOINED_REVIEWS, 0);
    SupportedIsVerified(JOINED[1], JOINED_REVIEWS, 1);
    OneClaimGrounds(JOINED, JOINED_REVIEWS, 0, 0, PriceMarketStructure);
    OneClaimGrounds(JOINED, JOINED_REVIEWS, 1, 0, Macro);
  }

  lemma JoinedPairAccepted()
    ensures ValidateLegacy(DRAFT, JOINED, JOINED_REVIEWS)
  {
    JoinedGrounds();
    JoinedGapFree();
    LegacyExactly(DRAFT, JOINED, JOINED_REVIEWS);
  }

  lemma JoinedGapFree()
    ensures GapFree(JOINED, JOINED_REVIEWS, RISE)
  {
  }

  lemma JoinedPairRefused()
    ensures !ValidateVerified(DRAFT, JOINED, JOINED_REVIEWS)
  {
    var claims, critiques := JOINED, JOINED_REVIEWS;
    assert DRAFT.forecasts[0] == RISE;
    forall c | c in claims ensures !Carries(DRAFT, c, critiques, RISE) {
      forall v ensures !Verifies(v, c.reference, c.claim, Qqq, T1) {}
    }
    assert RISE in DRAFT.forecasts && !IsNeutral(RISE);
    assert !exists c :: c in claims && Carries(DRAFT, c, critiques, RISE);
  }

  /** The legacy validator joins a price claim and a macro claim; the current one refuses the pair. */
  lemma LegacyJoinsClaims()
    ensures exists draft, claims, critiques ::
              ValidateLegacy(draft, claims, critiques) && !ValidateVerified(draft, claims, critiques)
  {
    JoinedPairAccepted();
    JoinedPairRefused();
  }

  lemma GroundReviewed(critique: Critique, reference: Ref, grounds: seq<Ground>, k: nat)
    requires critique == Supporting(reference, grounds) && k < |grounds| && Qqq in grounds[k].assets
    ensures Reviewed(critique, grounds[k], Qqq)
  {
    assert grounds[k] in critique.grounds && critique.supporting[k] in critique.supporting;
  }

  lemma GappedVerifies()
    ensures Verifies(GAPPED_REVIEWS[0], "a", GAPPED[0].claim, Qqq, T1)
  {
    var grounds := [PRICE, MACRO];
    GroundReviewed(GAPPED_REVIEWS[0], "a", grounds, 0);
    GroundReviewed(GAPPED_REVIEWS[0], "a", grounds, 1);
  }

  lemma GappedCarries()
    ensures Carries(DRAFT, GAPPED[0], GAPPED_REVIEWS, RISE)
  {
    var grounds := [PRICE, MACRO];
    GappedVerifies();
    assert grounds[0] in grounds && grounds[1] in grounds;
    assert GAPPED_REVIEWS[0] in GAPPED_REVIEWS && DRAFT.claims[0] in DRAFT.claims;
  }

  lemma GappedPairAccepted()
    ensures ValidateVerified(DRAFT, GAPPED, GAPPED_REVIEWS)
  {
    GappedCarries();
    assert GAPPED[0] in GAPPED;
  }

  lemma GappedPairRefused()
    ensures !ValidateLegacy(DRAFT, GAPPED, GAPPED_REVIEWS)
  {
    var grounds, claims, critiques := [PRICE, MACRO], GAPPED, GAPPED_REVIEWS;
    LegacyExactly(DRAFT, claims, critiques);
    SupportedIsVerified(claims[1], critiques, 1);
    assert claims[1].claim.gaps[0] == SCOPELESS && GapBlocks(SCOPELESS, Qqq, T1, T1);
    assert claims[1] in claims && DRAFT.forecasts[0] == RISE;
    assert !GapFree(claims, critiques, RISE);
  }

  /** One verified claim with a blocking gap makes the legacy validator refuse what the current one accepts. */
  lemma LegacyStopsAtGaps()
    ensures exists draft, claims, critiques ::
              ValidateVerified(draft, claims, critiques) && !ValidateLegacy(draft, claims, critiques)
  {
    GappedPairAccepted();
    GappedPairRefused();
  }
}
