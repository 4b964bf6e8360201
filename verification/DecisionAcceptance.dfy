/**
 What acceptance by the current validator buys, forecast by forecast: which claims, critiques,
 verifications and reviewed grounds can never contribute, and what is enough.
 */
module DecisionAcceptance {
  import opened Wrappers
  import opened DecisionEvidence

  // --- One forecast at a time ---

  predicate InPlay(draft: Draft, f: Forecast) {
    f in draft.forecasts && !(f.expected == 0 && f.probability == 500_000)
  }

  function Only(draft: Draft, f: Forecast): Draft {
    draft.(forecasts := [f])
  }

  /** A draft is accepted exactly when each directional forecast alone is. */
  lemma AcceptedSlotwise(draft: Draft, claims: seq<CitedClaim>, critiques: seq<Critique>)
    ensures ValidateVerified(draft, claims, critiques) <==>
            forall f :: InPlay(draft, f) ==> ValidateVerified(Only(draft, f), claims, critiques)
  {
    forall f | InPlay(draft, f)
      ensures ValidateVerified(Only(draft, f), claims, critiques) <==> Carried(draft, claims, critiques, f)
    {
      OnlyCarried(draft, claims, critiques, f);
    }
    AcceptedIsCarried(draft, claims, critiques);
  }

  lemma AcceptedIsCarried(draft: Draft, claims: seq<CitedClaim>, critiques: seq<Critique>)
    ensures ValidateVerified(draft, claims, critiques) <==>
            forall f :: InPlay(draft, f) ==> Carried(draft, claims, critiques, f)
  {
    if forall f :: InPlay(draft, f) ==> Carried(draft, claims, critiques, f) {
      forall f | f in draft.forecasts && !IsNeutral(f) ensures exists c :: c in claims && Carries(draft, c, critiques, f) {
        assert InPlay(draft, f);
      }
    }
    if ValidateVerified(draft, claims, critiques) {
      forall f | InPlay(draft, f) ensures Carried(draft, claims, critiques, f) {
        assert f in draft.forecasts && !IsNeutral(f);
      }
    }
  }

  // Some claim carries the forecast.
  predicate Carried(draft: Draft, claims: seq<CitedClaim>, critiques: seq<Critique>, f: Forecast) {
    exists c :: c in claims && Carries(draft, c, critiques, f)
  }

  lemma OnlyCarried(draft: Draft, claims: seq<CitedClaim>, critiques: seq<Critique>, f: Forecast)
    requires InPlay(draft, f)
    ensures ValidateVerified(Only(draft, f), claims, critiques) <==> Carried(draft, claims, critiques, f)
  {
    assert Only(draft, f).forecasts[0] == f;
    assert f in Only(draft, f).forecasts && !IsNeutral(f);
    if ValidateVerified(Only(draft, f), claims, critiques) {
      var c :| c in claims && Carries(Only(draft, f), c, critiques, f);
      assert Carries(draft, c, critiques, f);
    }
    if Carried(draft, claims, critiques, f) {
      var c :| c in claims && Carries(draft, c, critiques, f);
      assert Carries(Only(draft, f), c, critiques, f);
    }
  }

  /** Acceptance means that for each directional forecast some single claim satisfies even the legacy validator. */
  lemma AcceptedByOneClaim(draft: Draft, claims: seq<CitedClaim>, critiques: seq<Critique>)
    requires ValidateVerified(draft, claims, critiques)
    ensures forall f :: InPlay(draft, f) ==>
                          exists c :: c in claims && ValidateLegacy(Only(draft, f), [c], critiques)
  {
    forall f | InPlay(draft, f) ensures exists c :: c in claims && ValidateLegacy(Only(draft, f), [c], critiques) {
      var c :| c in claims && Carries(draft, c, critiques, f);
      CarrierSatisfiesLegacy(draft, c, critiques, f);
    }
  }

  lemma CarrierSatisfiesLegacy(draft: Draft, c: CitedClaim, critiques: seq<Critique>, f: Forecast)
    requires Carries(draft, c, critiques, f)
    ensures ValidateLegacy(Only(draft, f), [c], critiques)
  {
    assert c in [c];
    CarrierIsVerified(draft, c, [c], critiques, f);
    assert GapFree([c], critiques, f);
    LegacyExactly(Only(draft, f), [c], critiques);
  }

  // --- What can never contribute ---

  lemma IdleClaim(draft: Draft, claims: seq<CitedClaim>, critiques: seq<Critique>, c: CitedClaim)
    requires forall f :: InPlay(draft, f) ==> !Carries(draft, c, critiques, f)
    ensures ValidateVerified(draft, claims + [c], critiques) <==> ValidateVerified(draft, claims, critiques)
  {
    forall f | InPlay(draft, f)
      ensures (exists d :: d in claims + [c] && Carries(draft, d, critiques, f)) <==>
              (exists d :: d in claims && Carries(draft, d, critiques, f)) {
      if d :| d in claims && Carries(draft, d, critiques, f) {
        assert d in claims + [c];
      }
    }
  }

  /** A claim the draft does not cite, an invalid one, or a neutral one never matters. */
  lemma UncitedInvalidOrNeutral(draft: Draft, claims: seq<CitedClaim>, critiques: seq<Critique>, c: CitedClaim)
    requires c.reference !in draft.claims || !c.claim.valid || c.claim.stance.Neutral?
    ensures ValidateVerified(draft, claims + [c], critiques) <==> ValidateVerified(draft, claims, critiques)
  {
    IdleClaim(draft, claims, critiques, c);
  }

  // The forecast says up.
  predicate Rises(f: Forecast) {
    f.expected > 0 || (f.expected == 0 && f.probability > 500_000)
  }

  /** Nor does one of another horizon, or of the opposite direction, than each directional forecast. */
  lemma MisdirectedClaim(draft: Draft, claims: seq<CitedClaim>, critiques: seq<Critique>, c: CitedClaim)
    requires forall f :: InPlay(draft, f) ==>
                           f.horizon != c.claim.horizon || (if Rises(f) then c.claim.stance.Bearish? else c.claim.stance.Bullish?)
    ensures ValidateVerified(draft, claims + [c], critiques) <==> ValidateVerified(draft, claims, critiques)
  {
    IdleClaim(draft, claims, critiques, c);
  }

  // The gap's scope takes in the forecast.
  predicate InScope(g: Gap, f: Forecast) {
    (g.assets == {} || f.asset in g.assets) && (g.horizons == {} || f.horizon in g.horizons)
  }

  /** Nor does one with a blocking gap of its own on each directional forecast of its horizon. */
  lemma GappedClaim(draft: Draft, claims: seq<CitedClaim>, critiques: seq<Critique>, c: CitedClaim)
    requires forall f :: InPlay(draft, f) && f.horizon == c.claim.horizon ==>
                           exists g :: g in c.claim.gaps && g.impact.BlocksDirectionalForecast? && InScope(g, f)
    ensures ValidateVerified(draft, claims + [c], critiques) <==> ValidateVerified(draft, claims, critiques)
  {
    forall f | InPlay(draft, f) ensures !Carries(draft, c, critiques, f) {
      if f.horizon == c.claim.horizon {
        var g :| g in c.claim.gaps && g.impact.BlocksDirectionalForecast? && InScope(g, f);
        assert GapBlocks(g, f.asset, f.horizon, c.claim.horizon);
      }
    }
    IdleClaim(draft, claims, critiques, c);
  }

  /** Nor does one without a directional price ground, or without a directional macro ground, on the asset. */
  lemma UngroundedClaim(draft: Draft, claims: seq<CitedClaim>, critiques: seq<Critique>, c: CitedClaim, domain: Shard)
    requires domain.PriceMarketStructure? || domain.Macro?
    requires forall f, g :: InPlay(draft, f) && g in c.claim.grounds ==>
                              g.role.Descriptive? || g.domain != Some(domain) || f.asset !in g.assets
    ensures ValidateVerified(draft, claims + [c], critiques) <==> ValidateVerified(draft, claims, critiques)
  {
    forall f | InPlay(draft, f) ensures !Carries(draft, c, critiques, f) {
      forall v ensures !DomainVerified(v, c.claim, domain, f.asset) {}
    }
    IdleClaim(draft, claims, critiques, c);
  }

  // Some critique verifies the claim for the forecast.
  predicate Backed(c: CitedClaim, critiques: seq<Critique>, f: Forecast) {
    exists v :: v in critiques && Verifies(v, c.reference, c.claim, f.asset, f.horizon)
  }

  lemma SameBacking(draft: Draft, claims: seq<CitedClaim>, critiques: seq<Critique>, others: seq<Critique>)
    requires forall c, f :: c in claims && InPlay(draft, f) ==> (Backed(c, critiques, f) <==> Backed(c, others, f))
    ensures ValidateVerified(draft, claims, critiques) <==> ValidateVerified(draft, claims, others)
  {
    forall c, f | c in claims && InPlay(draft, f)
      ensures Carries(draft, c, critiques, f) <==> Carries(draft, c, others, f) {
      assert Backed(c, critiques, f) <==> Backed(c, others, f);
    }
  }

  lemma IdleCritique(draft: Draft, claims: seq<CitedClaim>, critiques: seq<Critique>, v: Critique)
    requires forall c, f :: c in claims && InPlay(draft, f) ==> !Verifies(v, c.reference, c.claim, f.asset, f.horizon)
    ensures ValidateVerified(draft, claims, critiques + [v]) <==> ValidateVerified(draft, claims, critiques)
  {
    forall c, f | c in claims && InPlay(draft, f)
      ensures Backed(c, critiques + [v], f) <==> Backed(c, critiques, f) {
      if w :| w in critiques && Verifies(w, c.reference, c.claim, f.asset, f.horizon) {
        assert w in critiques + [v];
      }
    }
    SameBacking(draft, claims, critiques + [v], critiques);
  }

  /** A critique that is invalid, does not support its claim, or is of no claim at hand never matters. */
  lemma InvalidOrUnsupportive(draft: Draft, claims: seq<CitedClaim>, critiques: seq<Critique>, v: Critique)
    requires !v.valid || !v.status.Supported? || forall c :: c in claims ==> c.reference != v.target
    ensures ValidateVerified(draft, claims, critiques + [v]) <==> ValidateVerified(draft, claims, critiques)
  {
    IdleCritique(draft, claims, critiques, v);
  }

  /** Nor does a blocker without blocking gaps, or with one on each directional forecast. */
  lemma BlockingCritique(draft: Draft, claims: seq<CitedClaim>, critiques: seq<Critique>, v: Critique)
    requires v.blocker
    requires (forall g :: g in v.gaps ==> g.impact.Warning?)
             || (forall f :: InPlay(draft, f) ==>
                               exists g :: g in v.gaps && g.impact.BlocksDirectionalForecast?
                                           && (g.assets == {} || f.asset in g.assets) && f.horizon in g.horizons)
    ensures ValidateVerified(draft, claims, critiques + [v]) <==> ValidateVerified(draft, claims, critiques)
  {
    forall c, f | c in claims && InPlay(draft, f) ensures !Verifies(v, c.reference, c.claim, f.asset, f.horizon) {
      if !(forall g :: g in v.gaps ==> g.impact.Warning?) {
        var g :| g in v.gaps && g.impact.BlocksDirectionalForecast?
                 && (g.assets == {} || f.asset in g.assets) && f.horizon in g.horizons;
        assert GapBlocks(g, f.asset, f.horizon, c.claim.horizon);
        assert AnyGapBlocks(v.gaps, f.asset, f.horizon, c.claim.horizon);
      }
    }
    IdleCritique(draft, claims, critiques, v);
  }

  lemma SameReviews(v: Critique, w: Critique, c: CitedClaim, f: Forecast)
    requires w == v.(grounds := w.grounds, supporting := w.supporting)
    requires forall g :: g in c.claim.grounds && f.asset in g.assets && g.role.Directional?
                         && (g.domain == Some(PriceMarketStructure) || g.domain == Some(Macro)) ==>
                           (Reviewed(v, g, f.asset) <==> Reviewed(w, g, f.asset))
    ensures Verifies(v, c.reference, c.claim, f.asset, f.horizon) <==>
            Verifies(w, c.reference, c.claim, f.asset, f.horizon)
  {
    assert DomainVerified(v, c.claim, PriceMarketStructure, f.asset) <==> DomainVerified(w, c.claim, PriceMarketStructure, f.asset);
    assert DomainVerified(v, c.claim, Macro, f.asset) <==> DomainVerified(w, c.claim, Macro, f.asset);
  }

  lemma SameCritique(draft: Draft, claims: seq<CitedClaim>, critiques: seq<Critique>, v: Critique, w: Critique)
    requires forall c, f :: c in claims && InPlay(draft, f) ==>
                              (Verifies(v, c.reference, c.claim, f.asset, f.horizon) <==>
                               Verifies(w, c.reference, c.claim, f.asset, f.horizon))
    ensures ValidateVerified(draft, claims, critiques + [v]) <==> ValidateVerified(draft, claims, critiques + [w])
  {
    forall c, f | c in claims && InPlay(draft, f)
      ensures Backed(c, critiques + [v], f) <==> Backed(c, critiques + [w], f) {
      assert v in critiques + [v] && w in critiques + [w];
      assert forall x :: x in critiques ==> x in critiques + [v] && x in critiques + [w];
    }
    SameBacking(draft, claims, critiques + [v], critiques + [w]);
  }

  /** A verification that is unrated, stale or of unknown time adds nothing to its critique. */
  lemma WeakVerification(draft: Draft, claims: seq<CitedClaim>, critiques: seq<Critique>, v: Critique, x: Verification)
    requires x.authority.Unrated? || x.temporal.Stale? || x.temporal.UnknownTime?
    ensures ValidateVerified(draft, claims, critiques + [v.(supporting := v.supporting + [x])]) <==>
            ValidateVerified(draft, claims, critiques + [v])
  {
    var w := v.(supporting := v.supporting + [x]);
    forall c, f | c in claims && InPlay(draft, f)
      ensures Verifies(v, c.reference, c.claim, f.asset, f.horizon) <==>
              Verifies(w, c.reference, c.claim, f.asset, f.horizon) {
      forall g, asset ensures Reviewed(v, g, asset) <==> Reviewed(w, g, asset) {
        if Reviewed(v, g, asset) {
          var y :| y in v.supporting && y.evidence == g.evidence && IsCurrentAuthoritative(y);
          assert y in w.supporting;
        }
      }
      SameReviews(v, w, c, f);
    }
    SameCritique(draft, claims, critiques, w, v);
  }

  /** A reviewed ground adds nothing for an asset, a role or a domain it is not about. */
  lemma ForeignReview(draft: Draft, claims: seq<CitedClaim>, critiques: seq<Critique>, v: Critique, r: Ground)
    requires forall c, f, g :: c in claims && InPlay(draft, f) && g in c.claim.grounds && g.evidence == r.evidence ==>
                                 f.asset !in r.assets || g.role != r.role || g.domain != r.domain
    ensures ValidateVerified(draft, claims, critiques + [v.(grounds := v.grounds + [r])]) <==>
            ValidateVerified(draft, claims, critiques + [v])
  {
    var w := v.(grounds := v.grounds + [r]);
    forall c, f | c in claims && InPlay(draft, f)
      ensures Verifies(v, c.reference, c.claim, f.asset, f.horizon) <==>
              Verifies(w, c.reference, c.claim, f.asset, f.horizon) {
      forall g | g in c.claim.grounds ensures Reviewed(v, g, f.asset) <==> Reviewed(w, g, f.asset) {
        if Reviewed(v, g, f.asset) {
          var q :| q in v.grounds && q.evidence == g.evidence && q.role == g.role && q.domain == g.domain && f.asset in q.assets;
          assert q in w.grounds;
        }
      }
      SameReviews(v, w, c, f);
    }
    SameCritique(draft, claims, critiques, w, v);
  }

  // --- What is enough ---

  // A directional ground in the domain about the asset, with the critique's review and its verification.
  datatype Proof = Proof(ground: Ground, review: Ground, verification: Verification)

  predicate Proves(p: Proof, c: CitedClaim, v: Critique, domain: Shard, asset: Asset) {
    && p.ground in c.claim.grounds && p.ground.role == Directional && p.ground.domain == Some(domain)
    && asset in p.ground.assets
    && p.review in v.grounds && p.review.evidence == p.ground.evidence && p.review.role == p.ground.role
    && p.review.domain == p.ground.domain && asset in p.review.assets
    && p.verification in v.supporting && p.verification.evidence == p.ground.evidence
    && p.verification.authority != Unrated && p.verification.temporal == ValidAtDecisionCutoff
  }

  // None of the gaps blocks the forecast.
  predicate Spares(gaps: seq<Gap>, f: Forecast) {
    forall g :: g in gaps && g.impact.BlocksDirectionalForecast? ==> !InScope(g, f)
  }

  /**
   One cited valid claim of the forecast's horizon and direction, spared by its own gaps, with one
   valid supporting critique, is enough for the forecast if that critique proves a price ground and
   a macro ground of the claim and does not block it.
   */
  lemma OneClaimIsEnough(draft: Draft, claims: seq<CitedClaim>, critiques: seq<Critique>, f: Forecast,
      c: CitedClaim, v: Critique, price: Proof, macro: Proof)
    requires c in claims && c.reference in draft.claims && c.claim.valid && c.claim.horizon == f.horizon
    requires c.claim.stance == if Rises(f) then Bullish else Bearish
    requires Spares(c.claim.gaps, f)
    requires v in critiques && v.target == c.reference && v.valid && v.status == Supported
    requires v.blocker ==> Spares(v.gaps, f) && exists g :: g in v.gaps && g.impact.BlocksDirectionalForecast?
    requires Proves(price, c, v, PriceMarketStructure, f.asset) && Proves(macro, c, v, Macro, f.asset)
    ensures ValidateVerified(Only(draft, f), claims, critiques)
  {
    assert Reviewed(v, price.ground, f.asset) && Reviewed(v, macro.ground, f.asset);
    assert DomainVerified(v, c.claim, PriceMarketStructure, f.asset) && DomainVerified(v, c.claim, Macro, f.asset);
    assert !CritiqueBlocks(v, f.asset, f.horizon, c.claim.horizon);
    assert Verifies(v, c.reference, c.claim, f.asset, f.horizon);
    assert !IsNeutral(f) ==> Carries(Only(draft, f), c, critiques, f);
  }

  // --- The legacy validator, likewise ---

  lemma LegacyIdle(draft: Draft, claims: seq<CitedClaim>, critiques: seq<Critique>, c: CitedClaim)
    requires forall f :: InPlay(draft, f) ==> !IsVerified(c, critiques, f)
    ensures ValidateLegacy(draft, claims + [c], critiques) <==> ValidateLegacy(draft, claims, critiques)
  {
    LegacyExactly(draft, claims, critiques);
    LegacyExactly(draft, claims + [c], critiques);
    forall f | f in draft.forecasts && !IsNeutral(f)
      ensures GapFree(claims + [c], critiques, f) <==> GapFree(claims, critiques, f)
      ensures Grounded(claims + [c], critiques, f, PriceMarketStructure) <==> Grounded(claims, critiques, f, PriceMarketStructure)
      ensures Grounded(claims + [c], critiques, f, Macro) <==> Grounded(claims, critiques, f, Macro)
    {
      assert InPlay(draft, f);
      IdleAtSlot(claims, critiques, c, f, PriceMarketStructure);
      IdleAtSlot(claims, critiques, c, f, Macro);
    }
  }

  lemma IdleAtSlot(claims: seq<CitedClaim>, critiques: seq<Critique>, c: CitedClaim, f: Forecast, domain: Shard)
    requires !IsVerified(c, critiques, f)
    ensures GapFree(claims + [c], critiques, f) <==> GapFree(claims, critiques, f)
    ensures Grounded(claims + [c], critiques, f, domain) <==> Grounded(claims, critiques, f, domain)
  {
    forall d ensures d in claims + [c] && IsVerified(d, critiques, f) <==> d in claims && IsVerified(d, critiques, f) {}
  }

  /**
   To the legacy validator a claim of another horizon or direction than each directional forecast
   never matters, nor one without a critique of it that supports it and is no blocker.
   */
  lemma LegacyIgnores(draft: Draft, claims: seq<CitedClaim>, critiques: seq<Critique>, c: CitedClaim)
    requires || (forall f :: InPlay(draft, f) ==>
                               f.horizon != c.claim.horizon || c.claim.stance != if Rises(f) then Bullish else Bearish)
             || (forall v :: v in critiques && v.target == c.reference ==>
                               !v.status.Supported? || (v.blocker && forall g :: g in v.gaps ==> g.impact.Warning?))
    ensures ValidateLegacy(draft, claims + [c], critiques) <==> ValidateLegacy(draft, claims, critiques)
  {
    LegacyIdle(draft, claims, critiques, c);
  }

  /**
   One claim of the forecast's horizon and direction with a price and a macro ground, spared by its
   own gaps and supported by a critique that does not block, satisfies it: no citation, no validity
   and no verification is asked for.
   */
  lemma LegacySatisfied(draft: Draft, f: Forecast, c: CitedClaim, v: Critique, price: Ground, macro: Ground)
    requires c.claim.horizon == f.horizon && c.claim.stance == if Rises(f) then Bullish else Bearish
    requires Spares(c.claim.gaps, f) && v.target == c.reference && v.status == Supported
    requires v.blocker ==> Spares(v.gaps, f) && exists g :: g in v.gaps && g.impact.BlocksDirectionalForecast?
    requires price in c.claim.grounds && price.role == Role.Directional && price.domain == Some(PriceMarketStructure)
    requires macro in c.claim.grounds && macro.role == Role.Directional && macro.domain == Some(Macro)
    requires f.asset in price.assets && f.asset in macro.assets
    ensures ValidateLegacy(Only(draft, f), [c], [v])
  {
    if !IsNeutral(f) {
      assert v in [v] && c in [c];
      assert IsVerified(c, [v], f);
      assert Covers(price, PriceMarketStructure, f.asset) && Covers(macro, Macro, f.asset);
      assert GapFree([c], [v], f);
    }
    LegacyExactly(Only(draft, f), [c], [v]);
  }
}
