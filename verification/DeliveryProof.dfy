/**
 The read-only checker of a completed delivery: it collects errors while it walks the documents,
 and reports success only when none was recorded.
 */
module DeliveryProof {
  import opened Sequences

  // ----- the documents -----

  /** What a child's integration is identified by. */
  datatype Identity = Identity(key: string, attemptId: string, sha: string, tree: string)

  /** The fields that tie a child's receipt to one candidate. */
  datatype Binding = Binding(campaign: string, repository: string, baseSha: string, id: Identity)

  datatype Provenance = Provenance(producer: string, keyId: string, signature: string)

  // Each receipt names what is looked at here; `other` stands for its remaining fields.

  datatype Verification = Verification(
    binding: Binding, contract: string, exitCode: int, other: string, provenance: Option<Provenance>)
  {
    function AsSigned(): Signed { Signed(OfVerification(this.(provenance := None)), provenance) }
  }

  datatype Review = Review(
    binding: Binding, role: string, pass: bool, worker: string, reviewer: string, openBlocking: bool, other: string,
    provenance: Option<Provenance>)
  {
    function AsSigned(): Signed { Signed(OfReview(this.(provenance := None)), provenance) }
  }

  datatype Integration = Integration(
    receiptId: string, binding: Binding, allocation: string, other: string, provenance: Option<Provenance>)
  {
    function AsSigned(): Signed { Signed(OfIntegration(this.(provenance := None)), provenance) }
  }

  datatype Merge = Merge(
    campaign: string, repository: string, baseSha: string, reviewNumber: int, targetBranch: string, sourceSha: string,
    resultSha: string, canonicalSha: string, mergeMethod: string, operation: string, merged: bool, other: string,
    provenance: Option<Provenance>)
  {
    function AsSigned(): Signed { Signed(OfMerge(this.(provenance := None)), provenance) }
  }

  datatype CheckReceipt = CheckReceipt(
    repository: string, reviewNumber: int, sha: string, baseSha: string, other: string,
    provenance: Option<Provenance>)
  {
    function AsSigned(): Signed { Signed(OfChecks(this.(provenance := None)), provenance) }
  }

  /** What a signature is made over: a whole receipt, its provenance excluded. */
  datatype Content =
    | OfVerification(verification: Verification)
    | OfReview(review: Review)
    | OfIntegration(integration: Integration)
    | OfMerge(merge: Merge)
    | OfChecks(checks: CheckReceipt)

  datatype Signed = Signed(content: Content, provenance: Option<Provenance>)

  datatype Inspection = Inspection(
    campaign: string, repository: string, baseSha: string, allocation: string, receiptIds: set<string>,
    integrated: set<Identity>, sha: string, tree: string)

  datatype Allocation = Allocation(
    id: string, campaign: string, key: string, repository: string, baseSha: string, worker: string,
    contracts: set<string>)

  /** `digest` is `None` unless it is a canonical evidence digest. */
  datatype Validation = Validation(accepted: bool, blockers: bool, digest: Option<string>)

  datatype Requirement = Requirement(id: string, other: string)

  datatype CandidateDoc = CandidateDoc(
    attemptId: string, sha: string, tree: string, requirements: seq<Requirement>,
    verifications: seq<Option<Verification>>, reviews: seq<Option<Review>>)

  /** The typed evidence payload of one candidate. */
  datatype Manifest = Manifest(
    binding: Binding, worker: string, requirements: seq<Requirement>, verifications: seq<Verification>,
    reviews: seq<Review>)

  /** The digest of a payload; nothing when the payload is invalid. */
  type Hash = Manifest -> Option<string>

  /** A child entry; a typed field that does not parse is `None`. */
  datatype Child = Child(
    generation: int, key: string, attempt: Option<int>, childId: string, completed: bool,
    validation: Option<Validation>, allocation: Option<Allocation>, candidate: Option<CandidateDoc>,
    requirementIds: set<string>)

  datatype Join = Join(generation: Option<int>, isSealed: bool, ready: bool, unresolved: bool)

  /** The merge receipt as it stands in the document, and what it parses to. */
  datatype RawMerge = RawMerge(text: string, parsed: Option<Merge>, digestRecorded: bool)

  /** Missing strings are empty. */
  datatype Detail = Detail(
    executionId: string, completed: bool, hasTimestamp: bool, generation: Option<int>, repository: string,
    baseRef: string, baseSha: string, join: Option<Join>, children: seq<Child>,
    allocation: Option<Allocation>, receipts: seq<Option<Integration>>, inspection: Option<Inspection>,
    review: Option<Review>, merge: RawMerge)

  datatype Evidence = Evidence(
    schema: int, executionId: string, repository: string, baseRef: string, baseSha: string, completed: bool,
    accepted: bool, blockers: bool, mergeText: string, children: seq<Child>)

  datatype Field<+T> = Absent | Invalid | Present(value: T)

  datatype WaitRequest = WaitRequest(
    repository: string, reviewNumber: int, headSha: string, baseSha: string, targetBranch: string, mergeMethod: string,
    operation: string)

  datatype Observation = Observation(satisfied: bool, checks: Field<CheckReceipt>, merge: Field<Merge>)

  datatype Condition = ForgeChecks | ForgeMerge | OtherCondition

  datatype Wait = Wait(
    generation: Option<int>, executionId: string, notified: bool, lastError: bool, condition: Condition,
    request: WaitRequest, observation: Option<Observation>)

  /** A document of the wrong JSON shape is `None`. */
  datatype Documents = Documents(detail: Option<Detail>, evidence: Option<Evidence>, waits: Option<seq<Wait>>)

  /** Who may sign, and which producers each review role is pinned to (no roles: no pinning). */
  datatype Trust = Trust(verify: (Content, Provenance) -> bool, pins: map<string, set<string>>)

  const CHILD_REVIEW_ROLES := {"code", "security", "adversarial"}

  // ----- the error ledger -----

  datatype Check =
    | DocumentShape | ExecutionRecord | JoinRecord | EvidenceRecord | ChildList | ChildRecord(key: string)
    | VerificationReceipt(key: string) | ReviewReceipt(key: string) | Signature | IntegrationRecord
    | InspectionRecord | IntegrationReview | MergeRecord | WaitRecord

  class Checks {
    var errors: seq<Check>
    var cryptographicErrors: seq<Check>
    var passed: seq<Check>
    var cryptographicChecks: nat

    constructor ()
      ensures errors == [] && cryptographicErrors == [] && passed == [] && cryptographicChecks == 0
    {
      errors, cryptographicErrors, passed, cryptographicChecks := [], [], [], 0;
    }

    predicate Clean()
      reads this
    {
      errors == [] && cryptographicErrors == []
    }

    /** Errors are only ever appended. */
    method Require(condition: bool, what: Check)
      modifies this
      ensures errors == if condition then old(errors) else old(errors) + [what]
      ensures passed == if condition then old(passed) + [what] else old(passed)
      ensures cryptographicErrors == old(cryptographicErrors) && cryptographicChecks == old(cryptographicChecks)
      ensures Clean() <==> old(Clean()) && condition
    {
      if condition {
        passed := passed + [what];
      } else {
        errors := errors + [what];
      }
    }

    method RequireCryptographic(condition: bool, what: Check)
      modifies this
      ensures cryptographicErrors == if condition then old(cryptographicErrors) else old(cryptographicErrors) + [what]
      ensures passed == if condition then old(passed) + [what] else old(passed)
      ensures errors == old(errors) && cryptographicChecks == old(cryptographicChecks) + 1
      ensures Clean() <==> old(Clean()) && condition
    {
      cryptographicChecks := cryptographicChecks + 1;
      if condition {
        passed := passed + [what];
      } else {
        cryptographicErrors := cryptographicErrors + [what];
      }
    }

    /** A typed field that does not parse is an error; one that does leaves no trace. */
    method Model(parsed: bool, what: Check)
      modifies this
      ensures errors == if parsed then old(errors) else old(errors) + [what]
      ensures passed == old(passed) && cryptographicErrors == old(cryptographicErrors)
      ensures cryptographicChecks == old(cryptographicChecks)
      ensures Clean() <==> old(Clean()) && parsed
    {
      if !parsed {
        errors := errors + [what];
      }
    }
  }

  // ----- the latest attempt of each child -----

  predicate Eligible(child: Child, generation: int) {
    child.generation == generation && child.key != "" && child.attempt.Some?
  }

  function KeepLatest(current: map<string, Child>, child: Child, generation: int): map<string, Child>
    requires forall k :: k in current ==> current[k].attempt.Some?
  {
    if !Eligible(child, generation) then current
    else if child.key !in current || child.attempt.value > current[child.key].attempt.value then
      current[child.key := child]
    else current
  }

  /** The children seen last-to-first give way to a strictly later attempt only. */
  function Latest(children: seq<Child>, generation: int): (r: map<string, Child>)
    ensures forall k :: k in r ==> Eligible(r[k], generation) && r[k].key == k
  {
    if children == [] then map[]
    else KeepLatest(Latest(children[..|children| - 1], generation), children[|children| - 1], generation)
  }

  method CurrentChildren(children: seq<Child>, generation: int) returns (current: map<string, Child>)
    ensures current == Latest(children, generation)
  {
    current := map[];
    for i := 0 to |children|
      invariant current == Latest(children[..i], generation)
    {
      var child := children[i];
      assert children[..i + 1][..i] == children[..i];
      if !Eligible(child, generation) {
        continue;
      }
      if child.key !in current || child.attempt.value > current[child.key].attempt.value {
        current := current[child.key := child];
      }
    }
    assert children[..|children|] == children;
  }

  /** Entry `i` is the latest attempt of its child: none is later, and no earlier entry ties with it. */
  ghost predicate IsLatest(children: seq<Child>, generation: int, i: nat) {
    && i < |children|
    && children[i].generation == generation && children[i].key != "" && children[i].attempt.Some?
    && (forall j | 0 <= j < |children| && children[j].key == children[i].key ::
          DoesNotReplace(children, generation, i, j))
  }

  /** Entry `j` is of another generation or has no attempt number, or its attempt is earlier (or equal, and behind). */
  ghost predicate DoesNotReplace(children: seq<Child>, generation: int, i: nat, j: nat)
    requires i < |children| && j < |children| && children[i].attempt.Some?
  {
    children[j].generation == generation && children[j].attempt.Some? ==>
      && children[j].attempt.value <= children[i].attempt.value
      && (j < i ==> children[j].attempt.value < children[i].attempt.value)
  }

  lemma LatestKept(children: seq<Child>, generation: int, n: nat, i: nat)
    requires n + 1 == |children| && IsLatest(children[..n], generation, i)
    requires var last := children[n];
      Eligible(last, generation) && last.key == children[i].key ==>
        last.attempt.value <= children[i].attempt.value
    ensures IsLatest(children, generation, i)
  {
    assert forall j :: 0 <= j < n ==> children[..n][j] == children[j];
  }

  lemma LatestReplaced(children: seq<Child>, generation: int, n: nat, i: nat)
    requires n + 1 == |children| && IsLatest(children[..n], generation, i)
    requires Eligible(children[n], generation) && children[n].key == children[i].key
    requires children[n].attempt.value > children[i].attempt.value
    ensures IsLatest(children, generation, n)
  {
    forall j | 0 <= j < n && Eligible(children[j], generation) && children[j].key == children[n].key
      ensures children[j].attempt.value < children[n].attempt.value
    {
      assert children[..n][j] == children[j];
    }
  }

  /** Some entry of the generation carries this (non-empty) key and an attempt number. */
  ghost predicate Listed(children: seq<Child>, generation: int, key: string) {
    && key != ""
    && exists i :: 0 <= i < |children|
         && children[i].generation == generation && children[i].key == key && children[i].attempt.Some?
  }

  lemma {:induction false} ListedIff(children: seq<Child>, generation: int, key: string)
    ensures key in Latest(children, generation) <==> Listed(children, generation, key)
    decreases |children|
  {
    if children != [] {
      var n := |children| - 1;
      ListedIff(children[..n], generation, key);
      if Listed(children[..n], generation, key) {
        var i :| 0 <= i < n && Eligible(children[..n][i], generation) && children[..n][i].key == key;
        assert children[i].key == key;
      }
      if Listed(children, generation, key) {
        var i :| 0 <= i < |children| && Eligible(children[i], generation) && children[i].key == key;
        if i < n { assert children[..n][i] == children[i]; }
      }
    }
  }

  /** The entry kept for a child is its latest attempt. */
  lemma {:induction false} LatestIsLatest(children: seq<Child>, generation: int, key: string) returns (i: nat)
    requires key in Latest(children, generation)
    ensures IsLatest(children, generation, i)
    ensures children[i] == Latest(children, generation)[key] && children[i].key == key
    decreases |children|
  {
    var n := |children| - 1;
    var front, last := children[..n], children[n];
    if key in Latest(front, generation) {
      i := LatestIsLatest(front, generation, key);
      if Eligible(last, generation) && last.key == key && last.attempt.value > children[i].attempt.value {
        LatestReplaced(children, generation, n, i);
        i := n;
      } else {
        LatestKept(children, generation, n, i);
      }
    } else {
      ListedIff(front, generation, key);
      forall j | 0 <= j < n && Eligible(children[j], generation) ensures children[j].key != key {
        assert front[j] == children[j];
      }
      i := n;
    }
  }

  // ----- receipts -----

  /** What every receipt is checked against. */
  datatype Context = Context(
    executionId: string, generation: Option<int>, repository: string, baseRef: string, baseSha: string,
    trust: Option<Trust>, hash: Hash)

  predicate ProvenancePresent(signed: Signed) {
    && signed.provenance.Some?
    && signed.provenance.value.producer != ""
    && signed.provenance.value.keyId != ""
    && signed.provenance.value.signature != ""
  }

  predicate SignatureOk(trust: Option<Trust>, signed: Signed) {
    trust.Some? ==> signed.provenance.Some? && trust.value.verify(signed.content, signed.provenance.value)
  }

  predicate PinOk(trust: Option<Trust>, role: string, signed: Signed) {
    trust.Some? && trust.value.pins != map[] ==>
      && signed.provenance.Some?
      && role in trust.value.pins
      && signed.provenance.value.producer in trust.value.pins[role]
  }

  method VerifySignature(checks: Checks, trust: Option<Trust>, signed: Signed)
    modifies checks
    ensures checks.Clean() <==> old(checks.Clean()) && SignatureOk(trust, signed)
    ensures checks.cryptographicChecks == old(checks.cryptographicChecks) + (if trust.Some? then 1 else 0)
  {
    if trust.None? {
      return;
    }
    checks.RequireCryptographic(
      signed.provenance.Some? && trust.value.verify(signed.content, signed.provenance.value), Signature);
  }

  method VerifyPin(checks: Checks, trust: Option<Trust>, role: string, signed: Signed)
    modifies checks
    ensures checks.Clean() <==> old(checks.Clean()) && PinOk(trust, role, signed)
    ensures checks.cryptographicChecks >= old(checks.cryptographicChecks)
  {
    if trust.None? || trust.value.pins == map[] {
      return;
    }
    var pins := trust.value.pins;
    var allowed := if role in pins then pins[role] else {};
    checks.RequireCryptographic(
      signed.provenance.Some? && signed.provenance.value.producer in allowed, Signature);
  }

  /** The entries that parsed. */
  function Parsed<T>(xs: seq<Option<T>>): seq<T> {
    if xs == [] then []
    else
      var last := xs[|xs| - 1];
      Parsed(xs[..|xs| - 1]) + (if last.Some? then [last.value] else [])
  }

  predicate AllParsed<T>(xs: seq<Option<T>>) {
    forall i | 0 <= i < |xs| :: xs[i].Some?
  }

  method ParseAll<T>(checks: Checks, xs: seq<Option<T>>, what: Check) returns (parsed: seq<T>)
    modifies checks
    ensures parsed == Parsed(xs)
    ensures checks.Clean() <==> old(checks.Clean()) && AllParsed(xs)
    ensures checks.cryptographicChecks == old(checks.cryptographicChecks)
  {
    parsed := [];
    for i := 0 to |xs|
      invariant parsed == Parsed(xs[..i])
      invariant checks.Clean() <==> old(checks.Clean()) && forall j :: 0 <= j < i ==> xs[j].Some?
      invariant checks.cryptographicChecks == old(checks.cryptographicChecks)
    {
      assert xs[..i + 1][..i] == xs[..i];
      checks.Model(xs[i].Some?, what);
      if xs[i].Some? {
        parsed := parsed + [xs[i].value];
      }
    }
    assert xs[..|xs|] == xs;
  }

  // ----- one child -----

  predicate VerificationOk(ctx: Context, binding: Binding, r: Verification) {
    r.exitCode == 0 && r.binding == binding && ProvenancePresent(r.AsSigned()) && SignatureOk(ctx.trust, r.AsSigned())
  }

  predicate ReviewOk(ctx: Context, binding: Binding, worker: string, r: Review) {
    && r.pass && r.worker != r.reviewer && r.worker == worker && r.binding == binding
    && ProvenancePresent(r.AsSigned()) && SignatureOk(ctx.trust, r.AsSigned()) && PinOk(ctx.trust, r.role, r.AsSigned())
    && !r.openBlocking
  }

  method VerifyVerification(checks: Checks, ctx: Context, binding: Binding, r: Verification)
    modifies checks
    ensures checks.Clean() <==> old(checks.Clean()) && VerificationOk(ctx, binding, r)
    ensures checks.cryptographicChecks == old(checks.cryptographicChecks) + (if ctx.trust.Some? then 1 else 0)
  {
    var what := VerificationReceipt(binding.id.key);
    checks.Require(r.exitCode == 0, what);
    checks.Require(r.binding == binding, what);
    checks.Require(ProvenancePresent(r.AsSigned()), what);
    VerifySignature(checks, ctx.trust, r.AsSigned());
  }

  method VerifyVerifications(checks: Checks, ctx: Context, binding: Binding, receipts: seq<Verification>)
    modifies checks
    ensures checks.Clean() <==>
      old(checks.Clean()) && forall i :: 0 <= i < |receipts| ==> VerificationOk(ctx, binding, receipts[i])
    ensures checks.cryptographicChecks >=
      old(checks.cryptographicChecks) + (if ctx.trust.Some? then |receipts| else 0)
  {
    for n := 0 to |receipts|
      invariant checks.Clean() <==>
        old(checks.Clean()) && forall i :: 0 <= i < n ==> VerificationOk(ctx, binding, receipts[i])
      invariant checks.cryptographicChecks >= old(checks.cryptographicChecks) + (if ctx.trust.Some? then n else 0)
    {
      VerifyVerification(checks, ctx, binding, receipts[n]);
    }
  }

  method VerifyReview(checks: Checks, ctx: Context, binding: Binding, worker: string, r: Review)
    modifies checks
    ensures checks.Clean() <==> old(checks.Clean()) && ReviewOk(ctx, binding, worker, r)
    ensures checks.cryptographicChecks >= old(checks.cryptographicChecks)
  {
    var what := ReviewReceipt(binding.id.key);
    checks.Require(r.pass, what);
    checks.Require(r.worker != r.reviewer, what);
    checks.Require(r.worker == worker, what);
    checks.Require(r.binding == binding, what);
    checks.Require(ProvenancePresent(r.AsSigned()), what);
    VerifySignature(checks, ctx.trust, r.AsSigned());
    VerifyPin(checks, ctx.trust, r.role, r.AsSigned());
    checks.Require(!r.openBlocking, what);
  }

  method VerifyReviews(checks: Checks, ctx: Context, binding: Binding, worker: string, reviews: seq<Review>)
    modifies checks
    ensures checks.Clean() <==>
      old(checks.Clean()) && forall i :: 0 <= i < |reviews| ==> ReviewOk(ctx, binding, worker, reviews[i])
    ensures checks.cryptographicChecks >= old(checks.cryptographicChecks)
  {
    for n := 0 to |reviews|
      invariant checks.Clean() <==>
        old(checks.Clean()) && forall i :: 0 <= i < n ==> ReviewOk(ctx, binding, worker, reviews[i])
      invariant checks.cryptographicChecks >= old(checks.cryptographicChecks)
    {
      VerifyReview(checks, ctx, binding, worker, reviews[n]);
    }
  }

  function Contracts(receipts: seq<Verification>): seq<string> {
    seq(|receipts|, i requires 0 <= i < |receipts| => receipts[i].contract)
  }

  function Roles(reviews: seq<Review>): set<string> {
    set r | r in reviews :: r.role
  }

  function BindingOf(ctx: Context, key: string, childId: string, c: CandidateDoc): Binding {
    Binding(ctx.executionId, ctx.repository, ctx.baseSha, Identity(key, childId, c.sha, c.tree))
  }

  function Reported(c: CandidateDoc): set<string> {
    set r | r in c.requirements :: r.id
  }

  /** The payload whose digest the accepted validation must carry: the identities, and every receipt that parsed. */
  function ManifestOf(binding: Binding, worker: string, c: CandidateDoc): Manifest {
    Manifest(binding, worker, c.requirements, Parsed(c.verifications), Parsed(c.reviews))
  }

  predicate AllocationOk(ctx: Context, key: string, a: Allocation) {
    a.campaign == ctx.executionId && a.key == key && a.repository == ctx.repository && a.baseSha == ctx.baseSha
  }

  predicate VerificationsOk(ctx: Context, binding: Binding, a: Allocation, c: CandidateDoc) {
    var rs := Parsed(c.verifications);
    && AllParsed(c.verifications)
    && rs != []
    && |Contracts(rs)| == |ElementSet(Contracts(rs))|
    && ElementSet(Contracts(rs)) == a.contracts
    && forall i | 0 <= i < |rs| :: VerificationOk(ctx, binding, rs[i])
  }

  predicate ReviewsOk(ctx: Context, binding: Binding, a: Allocation, c: CandidateDoc) {
    var rs := Parsed(c.reviews);
    && AllParsed(c.reviews)
    && CHILD_REVIEW_ROLES <= Roles(rs)
    && forall i | 0 <= i < |rs| :: ReviewOk(ctx, binding, a.worker, rs[i])
  }

  predicate CandidateOk(
    ctx: Context, key: string, child: Child, digest: Option<string>, a: Allocation, c: CandidateDoc)
  {
    var binding := BindingOf(ctx, key, child.childId, c);
    && c.attemptId == child.childId
    && AllocationOk(ctx, key, a)
    && child.requirementIds != {} && Reported(c) == child.requirementIds
    && VerificationsOk(ctx, binding, a, c)
    && ReviewsOk(ctx, binding, a, c)
    && ctx.hash(ManifestOf(binding, a.worker, c)).Some?
    && ctx.hash(ManifestOf(binding, a.worker, c)) == digest
  }

  /** A completed child whose evidence is accepted, typed, signed and bound to exactly this attempt. */
  predicate ChildOk(ctx: Context, key: string, child: Child) {
    && child.completed
    && child.validation.Some? && child.validation.value.accepted && !child.validation.value.blockers
    && child.validation.value.digest.Some?
    && child.allocation.Some? && child.candidate.Some?
    && CandidateOk(ctx, key, child, child.validation.value.digest, child.allocation.value, child.candidate.value)
  }

  function IdentityOf(key: string, child: Child): Option<Identity> {
    if child.candidate.Some? && child.allocation.Some? then
      Some(Identity(key, child.childId, child.candidate.value.sha, child.candidate.value.tree))
    else None
  }

  method VerifyAllocation(checks: Checks, ctx: Context, key: string, a: Allocation)
    modifies checks
    ensures checks.Clean() <==> old(checks.Clean()) && AllocationOk(ctx, key, a)
    ensures checks.cryptographicChecks == old(checks.cryptographicChecks)
  {
    checks.Require(a.campaign == ctx.executionId, ChildRecord(key));
    checks.Require(a.key == key, ChildRecord(key));
    checks.Require(a.repository == ctx.repository, ChildRecord(key));
    checks.Require(a.baseSha == ctx.baseSha, ChildRecord(key));
  }

  method VerifyContracts(checks: Checks, ctx: Context, binding: Binding, a: Allocation, c: CandidateDoc)
    modifies checks
    ensures checks.Clean() <==> old(checks.Clean()) && VerificationsOk(ctx, binding, a, c)
    ensures checks.cryptographicChecks >= old(checks.cryptographicChecks)
    ensures checks.Clean() && ctx.trust.Some? ==> checks.cryptographicChecks > old(checks.cryptographicChecks)
  {
    var what := VerificationReceipt(binding.id.key);
    var receipts := ParseAll(checks, c.verifications, what);
    var contracts := Contracts(receipts);
    checks.Require(receipts != [], what);
    checks.Require(|contracts| == |ElementSet(contracts)|, what);
    checks.Require(ElementSet(contracts) == a.contracts, what);
    VerifyVerifications(checks, ctx, binding, receipts);
  }

  method VerifyRoles(checks: Checks, ctx: Context, binding: Binding, a: Allocation, c: CandidateDoc)
    modifies checks
    ensures checks.Clean() <==> old(checks.Clean()) && ReviewsOk(ctx, binding, a, c)
    ensures checks.cryptographicChecks >= old(checks.cryptographicChecks)
  {
    var reviews := ParseAll(checks, c.reviews, ReviewReceipt(binding.id.key));
    checks.Require(CHILD_REVIEW_ROLES <= Roles(reviews), ReviewReceipt(binding.id.key));
    VerifyReviews(checks, ctx, binding, a.worker, reviews);
  }

  method VerifyCandidate(
    checks: Checks, ctx: Context, key: string, child: Child, digest: Option<string>, a: Allocation, c: CandidateDoc)
    modifies checks
    ensures checks.Clean() <==> old(checks.Clean()) && CandidateOk(ctx, key, child, digest, a, c)
    ensures checks.cryptographicChecks >= old(checks.cryptographicChecks)
    ensures checks.Clean() && ctx.trust.Some? ==> checks.cryptographicChecks > old(checks.cryptographicChecks)
  {
    var binding := BindingOf(ctx, key, child.childId, c);
    checks.Require(c.attemptId == child.childId, ChildRecord(key));
    VerifyAllocation(checks, ctx, key, a);
    checks.Require(child.requirementIds != {} && Reported(c) == child.requirementIds, ChildRecord(key));
    VerifyContracts(checks, ctx, binding, a, c);
    VerifyRoles(checks, ctx, binding, a, c);
    var computed := ctx.hash(ManifestOf(binding, a.worker, c));
    checks.Model(computed.Some?, ChildRecord(key));
    if computed.Some? {
      checks.Require(computed == digest, ChildRecord(key));
    }
  }

  method VerifyChild(checks: Checks, ctx: Context, key: string, child: Child) returns (identity: Option<Identity>)
    modifies checks
    ensures identity == IdentityOf(key, child)
    ensures checks.Clean() <==> old(checks.Clean()) && ChildOk(ctx, key, child)
    ensures checks.cryptographicChecks >= old(checks.cryptographicChecks)
    ensures checks.Clean() && ctx.trust.Some? ==> checks.cryptographicChecks > old(checks.cryptographicChecks)
  {
    var v := child.validation;
    checks.Require(child.completed, ChildRecord(key));
    checks.Require(v.Some? && v.value.accepted && !v.value.blockers, ChildRecord(key));
    var digest := if v.Some? then v.value.digest else None;
    checks.Require(digest.Some?, ChildRecord(key));
    checks.Model(child.allocation.Some?, ChildRecord(key));
    checks.Require(child.candidate.Some?, ChildRecord(key));
    if child.candidate.None? || child.allocation.None? {
      return None;
    }
    VerifyCandidate(checks, ctx, key, child, digest, child.allocation.value, child.candidate.value);
    identity := Some(Identity(key, child.childId, child.candidate.value.sha, child.candidate.value.tree));
  }

  /** The identities of the children that got as far as having one. */
  ghost function Identities(children: map<string, Child>, keys: set<string>): set<Identity>
    requires keys <= children.Keys
  {
    set k | k in keys && IdentityOf(k, children[k]).Some? :: IdentityOf(k, children[k]).value
  }

  method VerifyChildren(checks: Checks, ctx: Context, children: map<string, Child>) returns (identities: set<Identity>)
    modifies checks
    ensures identities == Identities(children, children.Keys)
    ensures checks.Clean() <==> old(checks.Clean()) && forall k :: k in children ==> ChildOk(ctx, k, children[k])
    ensures checks.cryptographicChecks >= old(checks.cryptographicChecks)
    ensures checks.Clean() && ctx.trust.Some? && children != map[] ==>
      checks.cryptographicChecks > old(checks.cryptographicChecks)
  {
    identities := {};
    var todo := children.Keys;
    ghost var done: set<string> := {};
    while todo != {}
      invariant todo + done == children.Keys && todo !! done
      invariant identities == Identities(children, done)
      invariant checks.Clean() <==> old(checks.Clean()) && forall k :: k in done ==> ChildOk(ctx, k, children[k])
      invariant checks.cryptographicChecks >= old(checks.cryptographicChecks)
      invariant checks.Clean() && ctx.trust.Some? && done != {} ==>
        checks.cryptographicChecks > old(checks.cryptographicChecks)
      decreases todo
    {
      var key :| key in todo;
      var identity := VerifyChild(checks, ctx, key, children[key]);
      todo := todo - {key};
      done := done + {key};
      if identity.Some? {
        identities := identities + {identity.value};
      }
    }
    assert done == children.Keys;
  }
}
