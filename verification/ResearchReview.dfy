/**
 Reviews of a research proposal: their structural check, and the fingerprint that decides
 whether a revision made no progress.
 */
module ResearchReview {
  import opened Ordering
  import opened Text

  datatype Kind =
    | DecisionProposal | ContextManifest | ClaimKind | CritiqueKind | NormalizedEvidence | SemanticDetail | OtherKind

  datatype Ref = Ref(id: string, kind: Kind)

  datatype Category =
    | SupportMissing | SourceQualification | ConflictingSupport | TemporalMismatch | UnitError
    | EstimateBasisMismatch | AllocationInconsistency

  datatype Issue = Issue(category: Category, path: string, criterion: string, refs: seq<Ref>)

  datatype Assessment = Assessment(scope: string, accepted: bool, rationale: string, refs: seq<Ref>, issues: seq<Issue>)

  datatype Review = Review(proposal: Ref, manifest: Ref, assessments: seq<Assessment>)

  // A proposal, seen through the typed value and numeric basis of each scope.
  type Draft = string -> string

  // What the content hash of an issue's identity stands for: hashes do not collide.
  datatype StableId = StableId(scope: string, category: Category, path: string)

  const STRUCTURED := 69

  const ASSETS := ["TQQQ", "QQQ", "SOXX", "SOXL"]
  const HORIZONS := ["t1", "t3", "t5"]

  function ProposalReviewKeys(): set<string> {
    {"allocation.cash"} + (set a | a in ASSETS :: "allocation." + a)
    + (set a, h | a in ASSETS && h in HORIZONS :: "forecast." + a + "." + h)
  }

  predicate Citable(r: Ref) {
    r.kind.ClaimKind? || r.kind.CritiqueKind? || r.kind.NormalizedEvidence? || r.kind.SemanticDetail?
  }

  function IdOf(i: Issue, scope: string): StableId {
    StableId(scope, i.category, i.path)
  }

  // --- The structural check ---

  predicate PathMatches(path: string, scope: string) {
    path == scope || scope + "." <= path || "numeric_basis." + scope + "." <= path
  }

  predicate IssueFits(i: Issue, scope: string) {
    PathMatches(i.path, scope) && !Blank(i.criterion) && forall r :: r in i.refs ==> Citable(r)
  }

  function Ids(issues: seq<Issue>, scope: string): (r: seq<StableId>)
    ensures |r| == |issues|
    ensures forall k :: 0 <= k < |r| ==> r[k] == IdOf(issues[k], scope)
  {
    if issues == [] then [] else [IdOf(issues[0], scope)] + Ids(issues[1..], scope)
  }

  predicate AllFit(issues: seq<Issue>, scope: string) {
    forall i :: i in issues ==> IssueFits(i, scope)
  }

  // At most three issues, some exactly when rejected, each fitting the scope, none twice.
  predicate Structured(a: Assessment) {
    && |a.issues| <= 3 && (a.accepted <==> a.issues == [])
    && AllFit(a.issues, a.scope)
    && NoRepeats(Ids(a.issues, a.scope))
  }

  function Scopes(assessments: seq<Assessment>): (r: seq<string>)
    ensures |r| == |assessments|
    ensures forall k :: 0 <= k < |r| ==> r[k] == assessments[k].scope
  {
    if assessments == [] then [] else [assessments[0].scope] + Scopes(assessments[1..])
  }

  predicate SameElements(scopes: seq<string>, keys: set<string>) {
    (forall s :: s in scopes ==> s in keys) && forall s :: s in keys ==> s in scopes
  }

  // Every scope exactly once, with a reason, bound to a proposal and a manifest.
  predicate Complete(review: Review) {
    && review.proposal.kind.DecisionProposal? && review.manifest.kind.ContextManifest?
    && SameElements(Scopes(review.assessments), ProposalReviewKeys())
    && NoRepeats(Scopes(review.assessments))
    && (forall a :: a in review.assessments ==> !Blank(a.rationale))
  }

  predicate AllStructured(assessments: seq<Assessment>) {
    forall a :: a in assessments ==> Structured(a)
  }

  predicate ContractValid(review: Review, version: nat) {
    Complete(review) && (version >= STRUCTURED ==> AllStructured(review.assessments))
  }

  predicate Accepted(review: Review) {
    Complete(review) && forall a :: a in review.assessments ==> a.accepted
  }

  // The path is the prefix itself, or leads below it.
  ghost predicate Below(path: string, prefix: string) {
    exists tail: string :: path == prefix + "." + tail
  }

  lemma BelowExactly(path: string, prefix: string)
    ensures prefix + "." <= path <==> Below(path, prefix)
  {
    if prefix + "." <= path {
      assert path == prefix + "." + path[|prefix| + 1..];
    }
  }

  /** An issue's path, criterion and evidence, spelled out. */
  lemma IssueSpelledOut(i: Issue, scope: string)
    ensures IssueFits(i, scope) <==>
            && (i.path == scope || Below(i.path, scope) || Below(i.path, "numeric_basis." + scope))
            && !Blank(i.criterion)
            && forall r :: r in i.refs ==> r.kind in {ClaimKind, CritiqueKind, NormalizedEvidence, SemanticDetail}
  {
    BelowExactly(i.path, scope);
    BelowExactly(i.path, "numeric_basis." + scope);
  }

  /**
   An assessment's issues are well formed exactly if there are at most three, some exactly when it
   rejects, all fit, and each has its own category or path.
   */
  lemma StructuredExactly(a: Assessment)
    ensures Structured(a) <==>
            && |a.issues| <= 3 && (a.accepted <==> |a.issues| == 0)
            && (forall i :: 0 <= i < |a.issues| ==> IssueFits(a.issues[i], a.scope))
            && forall i, j :: 0 <= i < j < |a.issues| ==>
                 a.issues[i].category != a.issues[j].category || a.issues[i].path != a.issues[j].path
  {
    NoRepeatsExactly(a);
    AllFitExactly(a.issues, a.scope);
  }

  lemma AllFitExactly(issues: seq<Issue>, scope: string)
    ensures AllFit(issues, scope) <==> forall i :: 0 <= i < |issues| ==> IssueFits(issues[i], scope)
  {
    if AllFit(issues, scope) {
      forall i | 0 <= i < |issues| ensures IssueFits(issues[i], scope) {
        assert issues[i] in issues;
      }
    }
  }

  lemma NoRepeatsExactly(a: Assessment)
    ensures NoRepeats(Ids(a.issues, a.scope)) <==>
            forall i, j :: 0 <= i < j < |a.issues| ==>
              a.issues[i].category != a.issues[j].category || a.issues[i].path != a.issues[j].path
  {
    var ids := Ids(a.issues, a.scope);
    if NoRepeats(ids) {
      forall i, j | 0 <= i < j < |a.issues|
        ensures a.issues[i].category != a.issues[j].category || a.issues[i].path != a.issues[j].path {
        assert ids[i] != ids[j];
      }
    }
  }

  lemma ElementsCount(s: seq<string>, elements: set<string>)
    requires forall x :: x in elements <==> x in s
    ensures |elements| <= |s|
    ensures |elements| == |s| <==> NoRepeats(s)
    decreases |s|
  {
    if s == [] {
      assert elements == {};
    } else {
      var init, last := s[..|s| - 1], s[|s| - 1];
      assert s == init + [last];
      if last in init {
        assert forall x :: x in elements <==> x in init;
        ElementsCount(init, elements);
        var i :| 0 <= i < |init| && init[i] == last;
        assert s[i] == s[|s| - 1];
      } else {
        assert forall x :: x in elements - {last} <==> x in init;
        ElementsCount(init, elements - {last});
        assert last in elements;
        assert NoRepeats(s) <==> NoRepeats(init);
      }
    }
  }

  lemma KeysExactly(scopes: seq<string>, keys: set<string>, expected: set<string>)
    requires forall x :: x in keys <==> x in scopes
    ensures keys == expected <==> SameElements(scopes, expected)
    ensures |keys| == |scopes| <==> NoRepeats(scopes)
  {
    ElementsCount(scopes, keys);
  }

  lemma KeyAdded(scopes: seq<string>, k: nat, keys: set<string>)
    requires k < |scopes| && forall s :: s in keys <==> s in scopes[..k]
    ensures forall s :: s in keys + {scopes[k]} <==> s in scopes[..k + 1]
  {
    assert scopes[..k + 1] == scopes[..k] + [scopes[k]];
  }

  // The scopes as a set: complete exactly when it is the key set and no scope came twice.
  method Validate(review: Review) returns (r: bool)
    ensures r == Complete(review)
  {
    var keys: set<string> := {};
    var scopes := Scopes(review.assessments);
    for k := 0 to |review.assessments|
      invariant forall s :: s in keys <==> s in scopes[..k]
    {
      KeyAdded(scopes, k, keys);
      keys := keys + {review.assessments[k].scope};
    }
    assert scopes[..|scopes|] == scopes;
    KeysExactly(scopes, keys, ProposalReviewKeys());
    r := review.proposal.kind.DecisionProposal? && review.manifest.kind.ContextManifest?
         && keys == ProposalReviewKeys() && |keys| == |review.assessments|
         && forall a :: a in review.assessments ==> !Blank(a.rationale);
  }

  lemma FitsNext(issues: seq<Issue>, scope: string, k: nat)
    requires k < |issues|
    ensures AllFit(issues[..k + 1], scope) <==> AllFit(issues[..k], scope) && IssueFits(issues[k], scope)
    ensures AllFit(issues, scope) ==> IssueFits(issues[k], scope)
  {
    assert issues[..k + 1] == issues[..k] + [issues[k]];
    assert issues[k] in issues;
  }

  // One assessment's issues, with the set of identities seen so far.
  method CheckIssues(a: Assessment) returns (r: bool)
    ensures r == Structured(a)
  {
    if |a.issues| > 3 || a.accepted != (a.issues == []) {
      return false;
    }
    var ids: set<StableId> := {};
    ghost var all := Ids(a.issues, a.scope);
    for k := 0 to |a.issues|
      invariant AllFit(a.issues[..k], a.scope)
      invariant Seen(all, k, ids)
    {
      var id := IdOf(a.issues[k], a.scope);
      FitsNext(a.issues, a.scope, k);
      if !IssueFits(a.issues[k], a.scope) {
        return false;
      }
      SeeOne(all, k, ids);
      if id in ids {
        return false;
      }
      ids := ids + {id};
    }
    assert all[..|a.issues|] == all && a.issues[..|a.issues|] == a.issues;
    return true;
  }

  method CheckAll(assessments: seq<Assessment>) returns (r: bool)
    ensures r == AllStructured(assessments)
  {
    for k := 0 to |assessments|
      invariant forall j :: 0 <= j < k ==> Structured(assessments[j])
    {
      var structured := CheckIssues(assessments[k]);
      if !structured {
        assert assessments[k] in assessments;
        return false;
      }
    }
    return true;
  }

  /** The contract check: completeness always, the structure of issues from its own version on. */
  method ValidateForContract(review: Review, version: nat) returns (r: bool)
    ensures r == ContractValid(review, version)
  {
    var complete := Validate(review);
    if !complete || version < STRUCTURED {
      return complete;
    }
    r := CheckAll(review.assessments);
  }

  // --- Fingerprints ---

  datatype IssuePrint = IssuePrint(id: StableId, refs: seq<Ref>)

  datatype Entry = Entry(scope: string, issues: seq<IssuePrint>, refs: seq<Ref>, content: string)

  // The sort orders of references, of issue prints and of serialized entries; which they are is immaterial.
  datatype Orders = Orders(refs: (Ref, Ref) -> bool, issues: (IssuePrint, IssuePrint) -> bool, entries: (Entry, Entry) -> bool)

  ghost predicate Total(o: Orders) {
    TotalOrder(o.refs) && TotalOrder(o.issues) && TotalOrder(o.entries)
  }

  function PrintOf(i: Issue, scope: string, o: Orders): IssuePrint {
    IssuePrint(IdOf(i, scope), Canonical(i.refs, o.refs))
  }

  function Prints(issues: seq<Issue>, scope: string, o: Orders): (r: seq<IssuePrint>)
    ensures |r| == |issues|
    ensures forall k :: 0 <= k < |r| ==> r[k] == PrintOf(issues[k], scope, o)
  {
    if issues == [] then [] else [PrintOf(issues[0], scope, o)] + Prints(issues[1..], scope, o)
  }

  function EntryOf(a: Assessment, draft: Draft, o: Orders): Entry {
    Entry(a.scope, Sort(Prints(a.issues, a.scope, o), o.issues), Canonical(a.refs, o.refs), draft(a.scope))
  }

  // The rejected assessments, in review order.
  function Entries(assessments: seq<Assessment>, draft: Draft, o: Orders): seq<Entry> {
    if assessments == [] then []
    else (if assessments[0].accepted then [] else [EntryOf(assessments[0], draft, o)]) + Entries(assessments[1..], draft, o)
  }

  function Fingerprint(review: Review, draft: Draft, o: Orders): seq<Entry> {
    Sort(Entries(review.assessments, draft, o), o.entries)
  }

  // Both reviews are contract-valid rejections with one fingerprint.
  predicate Stagnated(was: Draft, wasReview: Review, now: Draft, nowReview: Review, o: Orders) {
    && ContractValid(wasReview, STRUCTURED) && ContractValid(nowReview, STRUCTURED)
    && !Accepted(wasReview) && !Accepted(nowReview)
    && Fingerprint(wasReview, was, o) == Fingerprint(nowReview, now, o)
  }

  method ProposalRevisionStagnated(was: Draft, wasReview: Review, now: Draft, nowReview: Review, o: Orders) returns (r: bool)
    ensures r == Stagnated(was, wasReview, now, nowReview, o)
  {
    var valid := ValidateForContract(wasReview, STRUCTURED);
    if !valid {
      return false;
    }
    valid := ValidateForContract(nowReview, STRUCTURED);
    if !valid || Accepted(wasReview) || Accepted(nowReview) {
      return false;
    }
    return Fingerprint(wasReview, was, o) == Fingerprint(nowReview, now, o);
  }

  // --- What the fingerprint compares ---

  predicate SameRefs(a: seq<Ref>, b: seq<Ref>) {
    (forall r :: r in a ==> r in b) && forall r :: r in b ==> r in a
  }

  predicate SameIssue(i: Issue, j: Issue) {
    i.category == j.category && i.path == j.path && SameRefs(i.refs, j.refs)
  }

  predicate IssuesCovered(a: seq<Issue>, b: seq<Issue>) {
    forall i :: i in a ==> exists j :: j in b && SameIssue(i, j)
  }

  predicate SameIssues(a: seq<Issue>, b: seq<Issue>) {
    IssuesCovered(a, b) && IssuesCovered(b, a)
  }

  // The same scope, rejected for the same issues on the same evidence, with the same content.
  predicate SameRejection(a: Assessment, was: Draft, b: Assessment, now: Draft) {
    && !a.accepted && !b.accepted && a.scope == b.scope
    && SameRefs(a.refs, b.refs) && SameIssues(a.issues, b.issues) && was(a.scope) == now(b.scope)
  }

  predicate RejectionsCovered(was: Draft, wasReview: Review, now: Draft, nowReview: Review) {
    forall a :: a in wasReview.assessments && !a.accepted ==>
                  exists b :: b in nowReview.assessments && SameRejection(a, was, b, now)
  }

  predicate SameSubstance(was: Draft, wasReview: Review, now: Draft, nowReview: Review) {
    RejectionsCovered(was, wasReview, now, nowReview) && RejectionsCovered(now, nowReview, was, wasReview)
  }

  predicate Within<T(==)>(a: seq<T>, b: seq<T>) {
    forall x :: x in a ==> x in b
  }

  lemma PrintsDiffer(issues: seq<Issue>, scope: string, o: Orders)
    requires NoRepeats(Ids(issues, scope))
    ensures NoRepeats(Prints(issues, scope, o))
  {
    var prints, ids := Prints(issues, scope, o), Ids(issues, scope);
    forall i, j | 0 <= i < j < |prints| ensures prints[i] != prints[j] {
      assert ids[i] != ids[j];
    }
  }

  lemma PrintExactly(i: Issue, j: Issue, scope: string, o: Orders)
    requires Total(o)
    ensures PrintOf(i, scope, o) == PrintOf(j, scope, o) <==> SameIssue(i, j)
  {
    CanonicalExactly(i.refs, j.refs, o.refs);
  }

  lemma PrintListed(issues: seq<Issue>, scope: string, o: Orders, i: Issue)
    requires i in issues
    ensures PrintOf(i, scope, o) in Prints(issues, scope, o)
  {
    var k :| 0 <= k < |issues| && issues[k] == i;
    assert Prints(issues, scope, o)[k] == PrintOf(i, scope, o);
  }

  lemma PrintSource(issues: seq<Issue>, scope: string, o: Orders, x: IssuePrint) returns (i: Issue)
    requires x in Prints(issues, scope, o)
    ensures i in issues && PrintOf(i, scope, o) == x
  {
    var k :| 0 <= k < |issues| && Prints(issues, scope, o)[k] == x;
    i := issues[k];
  }

  // Each print of one list is a print of the other exactly when each issue has its like there.
  lemma PrintsCover(a: seq<Issue>, b: seq<Issue>, scope: string, o: Orders)
    requires Total(o)
    ensures Within(Prints(a, scope, o), Prints(b, scope, o)) <==> IssuesCovered(a, b)
  {
    if Within(Prints(a, scope, o), Prints(b, scope, o)) {
      forall i | i in a ensures exists j :: j in b && SameIssue(i, j) {
        PrintListed(a, scope, o, i);
        var j := PrintSource(b, scope, o, PrintOf(i, scope, o));
        PrintExactly(i, j, scope, o);
      }
      assert IssuesCovered(a, b);
    }
    if IssuesCovered(a, b) {
      forall x | x in Prints(a, scope, o) ensures x in Prints(b, scope, o) {
        var i := PrintSource(a, scope, o, x);
        var j :| j in b && SameIssue(i, j);
        PrintExactly(i, j, scope, o);
        PrintListed(b, scope, o, j);
      }
      assert Within(Prints(a, scope, o), Prints(b, scope, o));
    }
  }

  /** For issues without a repeated identity, the sorted prints compare the issues as sets. */
  lemma IssuesExactly(a: seq<Issue>, b: seq<Issue>, scope: string, o: Orders)
    requires Total(o) && NoRepeats(Ids(a, scope)) && NoRepeats(Ids(b, scope))
    ensures Sort(Prints(a, scope, o), o.issues) == Sort(Prints(b, scope, o), o.issues) <==> SameIssues(a, b)
  {
    PrintsDiffer(a, scope, o);
    PrintsDiffer(b, scope, o);
    SortExactly(Prints(a, scope, o), Prints(b, scope, o), o.issues);
    DistinctWithin(Prints(a, scope, o), Prints(b, scope, o));
    PrintsCover(a, b, scope, o);
    PrintsCover(b, a, scope, o);
  }

  lemma EntryExactly(a: Assessment, was: Draft, b: Assessment, now: Draft, o: Orders)
    requires Total(o) && !a.accepted && !b.accepted
    requires NoRepeats(Ids(a.issues, a.scope)) && NoRepeats(Ids(b.issues, b.scope))
    ensures EntryOf(a, was, o) == EntryOf(b, now, o) <==> SameRejection(a, was, b, now)
  {
    CanonicalExactly(a.refs, b.refs, o.refs);
    assert Canonical(a.refs, o.refs) == Canonical(b.refs, o.refs) <==> SameRefs(a.refs, b.refs);
    if a.scope == b.scope {
      IssuesExactly(a.issues, b.issues, a.scope, o);
    }
  }

  lemma {:induction false} EntryListed(assessments: seq<Assessment>, draft: Draft, o: Orders, a: Assessment)
    requires a in assessments && !a.accepted
    ensures EntryOf(a, draft, o) in Entries(assessments, draft, o)
  {
    if a != assessments[0] {
      assert assessments == [assessments[0]] + assessments[1..];
      EntryListed(assessments[1..], draft, o, a);
    }
  }

  lemma {:induction false} EntrySource(assessments: seq<Assessment>, draft: Draft, o: Orders, e: Entry)
    returns (a: Assessment)
    requires e in Entries(assessments, draft, o)
    ensures a in assessments && !a.accepted && EntryOf(a, draft, o) == e
  {
    a := assessments[0];
    if a.accepted || EntryOf(a, draft, o) != e {
      a := EntrySource(assessments[1..], draft, o, e);
    }
  }

  lemma EntriesElements(assessments: seq<Assessment>, draft: Draft, o: Orders)
    ensures forall e :: e in Entries(assessments, draft, o) <==>
                          exists a :: a in assessments && !a.accepted && EntryOf(a, draft, o) == e
  {
    forall e | e in Entries(assessments, draft, o)
      ensures exists a :: a in assessments && !a.accepted && EntryOf(a, draft, o) == e {
      var a := EntrySource(assessments, draft, o, e);
    }
    forall a | a in assessments && !a.accepted ensures EntryOf(a, draft, o) in Entries(assessments, draft, o) {
      EntryListed(assessments, draft, o, a);
    }
  }

  lemma {:induction false} EntriesDiffer(assessments: seq<Assessment>, draft: Draft, o: Orders)
    requires NoRepeats(Scopes(assessments))
    ensures NoRepeats(Entries(assessments, draft, o))
  {
    if assessments != [] {
      var rest := Entries(assessments[1..], draft, o);
      OtherScopes(assessments);
      EntriesDiffer(assessments[1..], draft, o);
      forall e | e in rest ensures e != EntryOf(assessments[0], draft, o) {
        var a := EntrySource(assessments[1..], draft, o, e);
        assert a.scope != assessments[0].scope;
      }
      OneMoreDiffers(EntryOf(assessments[0], draft, o), rest);
    }
  }

  lemma TailDiffers<T(!new)>(s: seq<T>)
    requires s != [] && NoRepeats(s)
    ensures NoRepeats(s[1..]) && forall k :: 0 <= k < |s[1..]| ==> s[1..][k] != s[0]
  {
  }

  lemma OtherScopes(assessments: seq<Assessment>)
    requires assessments != [] && NoRepeats(Scopes(assessments))
    ensures NoRepeats(Scopes(assessments[1..]))
    ensures forall a :: a in assessments[1..] ==> a.scope != assessments[0].scope
  {
    var scopes, rest := Scopes(assessments), assessments[1..];
    assert Scopes(rest) == scopes[1..];
    TailDiffers(scopes);
    forall a | a in rest ensures a.scope != assessments[0].scope {
      var k :| 0 <= k < |rest| && rest[k] == a;
      assert Scopes(rest)[k] == a.scope;
    }
  }

  lemma OneMoreDiffers<T(!new)>(x: T, rest: seq<T>)
    requires NoRepeats(rest) && x !in rest
    ensures NoRepeats([x] + rest)
  {
  }

  predicate IdsDiffer(assessments: seq<Assessment>) {
    forall a :: a in assessments ==> NoRepeats(Ids(a.issues, a.scope))
  }

  lemma EntryCovered(a: Assessment, was: Draft, others: seq<Assessment>, now: Draft, o: Orders)
    requires Total(o) && !a.accepted && NoRepeats(Ids(a.issues, a.scope)) && IdsDiffer(others)
    ensures EntryOf(a, was, o) in Entries(others, now, o) <==>
            exists b :: b in others && SameRejection(a, was, b, now)
  {
    EntriesElements(others, now, o);
    forall b | b in others && !b.accepted
      ensures EntryOf(a, was, o) == EntryOf(b, now, o) <==> SameRejection(a, was, b, now) {
      EntryExactly(a, was, b, now, o);
    }
  }

  // Each entry of one review is an entry of the other exactly when each rejection has its like there.
  lemma EntriesCover(was: Draft, wasReview: Review, now: Draft, nowReview: Review, o: Orders)
    requires Total(o) && IdsDiffer(wasReview.assessments) && IdsDiffer(nowReview.assessments)
    ensures Within(Entries(wasReview.assessments, was, o), Entries(nowReview.assessments, now, o)) <==>
            RejectionsCovered(was, wasReview, now, nowReview)
  {
    var entries, others := Entries(wasReview.assessments, was, o), Entries(nowReview.assessments, now, o);
    if Within(entries, others) {
      forall a | a in wasReview.assessments && !a.accepted
        ensures exists b :: b in nowReview.assessments && SameRejection(a, was, b, now) {
        EntryListed(wasReview.assessments, was, o, a);
        EntryCovered(a, was, nowReview.assessments, now, o);
      }
      assert RejectionsCovered(was, wasReview, now, nowReview);
    }
    if RejectionsCovered(was, wasReview, now, nowReview) {
      forall e | e in entries ensures e in others {
        var a := EntrySource(wasReview.assessments, was, o, e);
        EntryCovered(a, was, nowReview.assessments, now, o);
      }
      assert Within(entries, others);
    }
  }

  /**
   Stagnation, exactly: both reviews are contract-valid rejections, and they reject the same
   scopes for the same issues on the same evidence over the same content, all as sets.
   */
  lemma StagnatesExactly(was: Draft, wasReview: Review, now: Draft, nowReview: Review, o: Orders)
    requires Total(o)
    ensures Stagnated(was, wasReview, now, nowReview, o) <==>
            && ContractValid(wasReview, STRUCTURED) && ContractValid(nowReview, STRUCTURED)
            && !Accepted(wasReview) && !Accepted(nowReview)
            && SameSubstance(was, wasReview, now, nowReview)
  {
    if ContractValid(wasReview, STRUCTURED) && ContractValid(nowReview, STRUCTURED) {
      ValidDiffers(wasReview);
      ValidDiffers(nowReview);
      FingerprintsCompare(was, wasReview, now, nowReview, o);
    }
  }

  lemma ValidDiffers(review: Review)
    requires ContractValid(review, STRUCTURED)
    ensures NoRepeats(Scopes(review.assessments)) && IdsDiffer(review.assessments)
  {
  }

  // Without repeated scopes and identities, the fingerprints compare the rejections as sets.
  lemma FingerprintsCompare(was: Draft, wasReview: Review, now: Draft, nowReview: Review, o: Orders)
    requires Total(o)
    requires NoRepeats(Scopes(wasReview.assessments)) && IdsDiffer(wasReview.assessments)
    requires NoRepeats(Scopes(nowReview.assessments)) && IdsDiffer(nowReview.assessments)
    ensures Fingerprint(wasReview, was, o) == Fingerprint(nowReview, now, o) <==>
            SameSubstance(was, wasReview, now, nowReview)
  {
    var a, b := Entries(wasReview.assessments, was, o), Entries(nowReview.assessments, now, o);
    EntriesDiffer(wasReview.assessments, was, o);
    EntriesDiffer(nowReview.assessments, now, o);
    FingerprintsExactly(a, b, o);
    EntriesCover(was, wasReview, now, nowReview, o);
    EntriesCover(now, nowReview, was, wasReview, o);
  }

  lemma FingerprintsExactly(a: seq<Entry>, b: seq<Entry>, o: Orders)
    requires Total(o) && NoRepeats(a) && NoRepeats(b)
    ensures Sort(a, o.entries) == Sort(b, o.entries) <==> Within(a, b) && Within(b, a)
  {
    SortExactly(a, b, o.entries);
    DistinctWithin(a, b);
  }

  lemma DistinctWithin<T(!new)>(a: seq<T>, b: seq<T>)
    requires NoRepeats(a) && NoRepeats(b)
    ensures multiset(a) == multiset(b) <==> Within(a, b) && Within(b, a)
  {
    DistinctSame(a, b);
  }

  /** On contract-valid rejections stagnation is an equivalence relation. */
  lemma StagnationIsEquivalence(a: Draft, ra: Review, b: Draft, rb: Review, c: Draft, rc: Review, o: Orders)
    ensures ContractValid(ra, STRUCTURED) && !Accepted(ra) ==> Stagnated(a, ra, a, ra, o)
    ensures Stagnated(a, ra, b, rb, o) ==> Stagnated(b, rb, a, ra, o)
    ensures Stagnated(a, ra, b, rb, o) && Stagnated(b, rb, c, rc, o) ==> Stagnated(a, ra, c, rc, o)
  {
  }

  /** The answer does not depend on which total orders the sorting uses. */
  lemma OrdersAreImmaterial(was: Draft, wasReview: Review, now: Draft, nowReview: Review, o: Orders, p: Orders)
    requires Total(o) && Total(p)
    ensures Stagnated(was, wasReview, now, nowReview, o) <==> Stagnated(was, wasReview, now, nowReview, p)
  {
    StagnatesExactly(was, wasReview, now, nowReview, o);
    StagnatesExactly(was, wasReview, now, nowReview, p);
  }

  // --- Rewriting a review ---

  // An issue without its wording and the order of its evidence.
  datatype IssueShape = IssueShape(category: Category, path: string, blank: bool, refs: set<Ref>)

  // An assessment without its wording and the order of its issues and evidence.
  datatype Shape = Shape(scope: string, accepted: bool, blank: bool, refs: set<Ref>, issues: multiset<IssueShape>)

  function ElementsOf(refs: seq<Ref>): set<Ref> {
    set r | r in refs
  }

  function IssueShapeOf(i: Issue): IssueShape {
    IssueShape(i.category, i.path, Blank(i.criterion), ElementsOf(i.refs))
  }

  function IssueShapes(issues: seq<Issue>): (r: seq<IssueShape>)
    ensures |r| == |issues| && forall k :: 0 <= k < |r| ==> r[k] == IssueShapeOf(issues[k])
  {
    if issues == [] then [] else [IssueShapeOf(issues[0])] + IssueShapes(issues[1..])
  }

  function ShapeOf(a: Assessment): Shape {
    Shape(a.scope, a.accepted, Blank(a.rationale), ElementsOf(a.refs), multiset(IssueShapes(a.issues)))
  }

  function Shapes(assessments: seq<Assessment>): (r: seq<Shape>)
    ensures |r| == |assessments| && forall k :: 0 <= k < |r| ==> r[k] == ShapeOf(assessments[k])
  {
    if assessments == [] then [] else [ShapeOf(assessments[0])] + Shapes(assessments[1..])
  }

  // Assessments and issues in any order, evidence in any order and number, any wording that stays blank or not.
  predicate Rewritten(r: Review, other: Review) {
    && r.proposal.kind == other.proposal.kind && r.manifest.kind == other.manifest.kind
    && multiset(Shapes(r.assessments)) == multiset(Shapes(other.assessments))
  }

  // No two issues of one identity.
  predicate OneIssuePerId(issues: multiset<IssueShape>) {
    forall i, j :: i in issues && j in issues && i.category == j.category && i.path == j.path ==>
                     i == j && issues[i] == 1
  }

  predicate ShapeFits(i: IssueShape, scope: string) {
    PathMatches(i.path, scope) && !i.blank && forall r :: r in i.refs ==> Citable(r)
  }

  // An assessment's structural check, read off its shape.
  predicate ShapeStructured(s: Shape) {
    && |s.issues| <= 3 && (s.accepted <==> s.issues == multiset{})
    && (forall i :: i in s.issues ==> ShapeFits(i, s.scope))
    && OneIssuePerId(s.issues)
  }

  lemma OneIssueExactly(shapes: seq<IssueShape>)
    ensures OneIssuePerId(multiset(shapes)) <==>
            forall k, l :: 0 <= k < l < |shapes| ==>
                             shapes[k].category != shapes[l].category || shapes[k].path != shapes[l].path
  {
    if OneIssuePerId(multiset(shapes)) {
      forall k, l | 0 <= k < l < |shapes|
        ensures shapes[k].category != shapes[l].category || shapes[k].path != shapes[l].path {
        assert shapes[k] in multiset(shapes) && shapes[l] in multiset(shapes);
        if shapes[k] == shapes[l] {
          RepeatCounted(shapes, k, l);
        }
      }
    } else {
      var i, j :| i in multiset(shapes) && j in multiset(shapes) && i.category == j.category && i.path == j.path
                  && (i != j || multiset(shapes)[i] != 1);
      var k :| 0 <= k < |shapes| && shapes[k] == i;
      var l :| 0 <= l < |shapes| && shapes[l] == j;
      if k == l {
        if NoRepeats(shapes) {
          NoRepeatsMultiset(shapes, i);
        }
      }
    }
  }

  lemma IssueFitsExactly(i: Issue, scope: string)
    ensures IssueFits(i, scope) <==> ShapeFits(IssueShapeOf(i), scope)
  {
    forall r ensures r in i.refs <==> r in ElementsOf(i.refs) {}
  }

  // Identities repeat exactly when shapes of one identity do.
  lemma IdsExactly(scope: string, shapes: seq<IssueShape>, ids: seq<StableId>)
    requires |shapes| == |ids|
    requires forall k :: 0 <= k < |ids| ==> ids[k] == StableId(scope, shapes[k].category, shapes[k].path)
    ensures NoRepeats(ids) <==> OneIssuePerId(multiset(shapes))
  {
    OneIssueExactly(shapes);
  }

  lemma IssuesFitExactly(issues: seq<Issue>, scope: string, shapes: seq<IssueShape>)
    requires |shapes| == |issues| && forall k :: 0 <= k < |shapes| ==> shapes[k] == IssueShapeOf(issues[k])
    ensures AllFit(issues, scope) <==>
            forall i :: i in multiset(shapes) ==> ShapeFits(i, scope)
  {
    forall k | 0 <= k < |shapes| ensures ShapeFits(shapes[k], scope) <==> IssueFits(issues[k], scope) {
      IssueFitsExactly(issues[k], scope);
    }
    if forall i :: i in multiset(shapes) ==> ShapeFits(i, scope) {
      forall i | i in issues ensures IssueFits(i, scope) {
        var k :| 0 <= k < |issues| && issues[k] == i;
        assert shapes[k] in multiset(shapes);
      }
    }
  }

  lemma ShapeStructuredExactly(a: Assessment)
    ensures Structured(a) <==> ShapeStructured(ShapeOf(a))
  {
    var shapes := IssueShapes(a.issues);
    IdsExactly(a.scope, shapes, Ids(a.issues, a.scope));
    IssuesFitExactly(a.issues, a.scope, shapes);
    assert |multiset(shapes)| == |a.issues|;
  }

  lemma MembersAlike(r: Review, other: Review, a: Assessment)
    requires Rewritten(r, other) && a in r.assessments
    ensures exists b :: b in other.assessments && ShapeOf(b) == ShapeOf(a)
  {
    var k :| 0 <= k < |r.assessments| && r.assessments[k] == a;
    assert Shapes(r.assessments)[k] in multiset(Shapes(r.assessments));
    var l :| 0 <= l < |other.assessments| && Shapes(other.assessments)[l] == ShapeOf(a);
    assert other.assessments[l] in other.assessments;
  }

  // No two shapes of one scope.
  predicate OneShapePerScope(shapes: multiset<Shape>) {
    forall s, t :: s in shapes && t in shapes && s.scope == t.scope ==> s == t && shapes[s] == 1
  }

  lemma OneShapeExactly(shapes: seq<Shape>)
    ensures OneShapePerScope(multiset(shapes)) <==>
            forall k, l :: 0 <= k < l < |shapes| ==> shapes[k].scope != shapes[l].scope
  {
    if OneShapePerScope(multiset(shapes)) {
      forall k, l | 0 <= k < l < |shapes| ensures shapes[k].scope != shapes[l].scope {
        assert shapes[k] in multiset(shapes) && shapes[l] in multiset(shapes);
        if shapes[k] == shapes[l] {
          RepeatCounted(shapes, k, l);
        }
      }
    } else {
      var s, t :| s in multiset(shapes) && t in multiset(shapes) && s.scope == t.scope
                  && (s != t || multiset(shapes)[s] != 1);
      var k :| 0 <= k < |shapes| && shapes[k] == s;
      var l :| 0 <= l < |shapes| && shapes[l] == t;
      if k == l {
        if NoRepeats(shapes) {
          NoRepeatsMultiset(shapes, s);
        }
      }
    }
  }

  lemma ScopesOfShapes(shapes: seq<Shape>, scopes: seq<string>)
    requires |shapes| == |scopes| && forall k :: 0 <= k < |shapes| ==> shapes[k].scope == scopes[k]
    ensures NoRepeats(scopes) <==> OneShapePerScope(multiset(shapes))
  {
    OneShapeExactly(shapes);
  }

  lemma ScopesExactly(assessments: seq<Assessment>)
    ensures NoRepeats(Scopes(assessments)) <==> OneShapePerScope(multiset(Shapes(assessments)))
  {
    ScopesOfShapes(Shapes(assessments), Scopes(assessments));
  }

  lemma RewrittenTurns(r: Review, other: Review)
    requires Rewritten(r, other)
    ensures Rewritten(other, r)
  {
  }

  // Every member of a rewritten review has its like in the original.
  lemma RewrittenMember(r: Review, other: Review, b: Assessment)
    requires Rewritten(r, other) && ContractValid(r, STRUCTURED) && b in other.assessments
    ensures Structured(b) && !Blank(b.rationale) && b.scope in Scopes(r.assessments) && (Accepted(r) ==> b.accepted)
  {
    MembersAlike(other, r, b);
    var a :| a in r.assessments && ShapeOf(a) == ShapeOf(b);
    ShapeStructuredExactly(a);
    ShapeStructuredExactly(b);
    ScopeListed(r.assessments, a);
  }

  lemma ScopeListed(assessments: seq<Assessment>, a: Assessment)
    requires a in assessments
    ensures a.scope in Scopes(assessments)
  {
    var k :| 0 <= k < |assessments| && assessments[k] == a;
    assert Scopes(assessments)[k] == a.scope;
  }

  lemma RewrittenScope(r: Review, other: Review, scope: string)
    requires Rewritten(r, other) && scope in Scopes(r.assessments)
    ensures scope in Scopes(other.assessments)
  {
    var k :| 0 <= k < |r.assessments| && Scopes(r.assessments)[k] == scope;
    MembersAlike(r, other, r.assessments[k]);
    var b :| b in other.assessments && ShapeOf(b) == ShapeOf(r.assessments[k]);
    ScopeListed(other.assessments, b);
  }

  // What one review's check needs is visible in the other's shapes.
  lemma RewrittenValid(r: Review, other: Review)
    requires Rewritten(r, other) && ContractValid(r, STRUCTURED)
    ensures ContractValid(other, STRUCTURED)
    ensures Accepted(r) ==> Accepted(other)
  {
    RewrittenTurns(r, other);
    ScopesExactly(r.assessments);
    ScopesExactly(other.assessments);
    forall b | b in other.assessments ensures Structured(b) && !Blank(b.rationale) && (Accepted(r) ==> b.accepted) {
      RewrittenMember(r, other, b);
    }
    forall s | s in Scopes(other.assessments) ensures s in ProposalReviewKeys() {
      RewrittenScope(other, r, s);
    }
    forall s | s in ProposalReviewKeys() ensures s in Scopes(other.assessments) {
      RewrittenScope(r, other, s);
    }
  }

  lemma ShapeInBoth(a: seq<Issue>, b: seq<Issue>, i: Issue) returns (j: Issue)
    requires multiset(IssueShapes(a)) == multiset(IssueShapes(b)) && i in a
    ensures j in b && IssueShapeOf(j) == IssueShapeOf(i)
  {
    var k :| 0 <= k < |a| && a[k] == i;
    assert IssueShapes(a)[k] in multiset(IssueShapes(b));
    var l :| 0 <= l < |b| && IssueShapes(b)[l] == IssueShapeOf(i);
    j := b[l];
  }

  lemma ShapeSameIssues(a: Assessment, b: Assessment)
    requires ShapeOf(a) == ShapeOf(b)
    ensures IssuesCovered(a.issues, b.issues)
  {
    forall i | i in a.issues ensures exists j :: j in b.issues && SameIssue(i, j) {
      var j := ShapeInBoth(a.issues, b.issues, i);
      RefsOfSets(i.refs, j.refs);
      assert SameIssue(i, j);
    }
  }

  lemma RefsOfSets(a: seq<Ref>, b: seq<Ref>)
    requires ElementsOf(a) == ElementsOf(b)
    ensures SameRefs(a, b)
  {
    forall r ensures r in a <==> r in b {
      assert r in a <==> r in ElementsOf(a);
      assert r in b <==> r in ElementsOf(b);
    }
  }

  lemma ShapeSameRejection(a: Assessment, b: Assessment, draft: Draft)
    requires ShapeOf(a) == ShapeOf(b) && !a.accepted
    ensures SameRejection(a, draft, b, draft)
  {
    ShapeSameIssues(a, b);
    ShapeSameIssues(b, a);
    RefsOfSets(a.refs, b.refs);
  }

  lemma RewrittenCovered(r: Review, other: Review, draft: Draft)
    requires Rewritten(r, other)
    ensures RejectionsCovered(draft, r, draft, other)
  {
    forall a | a in r.assessments && !a.accepted
      ensures exists b :: b in other.assessments && SameRejection(a, draft, b, draft) {
      MembersAlike(r, other, a);
      var b :| b in other.assessments && ShapeOf(b) == ShapeOf(a);
      ShapeSameRejection(a, b, draft);
    }
  }

  lemma RewrittenStagnates(r: Review, other: Review, draft: Draft, o: Orders)
    requires Total(o) && Rewritten(r, other) && ContractValid(r, STRUCTURED) && !Accepted(r)
    ensures Stagnated(draft, r, draft, other, o)
  {
    RewrittenTurns(r, other);
    RewrittenValid(r, other);
    RewrittenValid(other, r);
    RewrittenCovered(r, other, draft);
    RewrittenCovered(other, r, draft);
    StagnatesExactly(draft, r, draft, other, o);
  }

  /**
   Rewriting either review, in the order of assessments, issues and evidence, the repetition of
   evidence, or any wording that is not made or left blank, never changes the answer.
   */
  lemma StagnationIsOrderBlind(was: Draft, wasReview: Review, now: Draft, nowReview: Review,
      wasOther: Review, nowOther: Review, o: Orders)
    requires Total(o) && Rewritten(wasReview, wasOther) && Rewritten(nowReview, nowOther)
    ensures Stagnated(was, wasReview, now, nowReview, o) <==> Stagnated(was, wasOther, now, nowOther, o)
  {
    RewrittenTurns(wasReview, wasOther);
    RewrittenTurns(nowReview, nowOther);
    if Stagnated(was, wasReview, now, nowReview, o) {
      RewrittenStagnates(wasReview, wasOther, was, o);
      RewrittenStagnates(nowReview, nowOther, now, o);
    }
    if Stagnated(was, wasOther, now, nowOther, o) {
      RewrittenStagnates(wasOther, wasReview, was, o);
      RewrittenStagnates(nowOther, nowReview, now, o);
    }
  }
}
