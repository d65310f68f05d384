/** Integration, merge and waits of a delivery; the report; and what a success status means. */
module DeliveryReport {
  import opened Sequences
  import opened Sorting
  import opened DeliveryProof

  // ----- the execution record -----

  predicate JoinOk(detail: Detail) {
    && detail.join.Some?
    && detail.join.value.generation == detail.generation
    && detail.join.value.isSealed && detail.join.value.ready && !detail.join.value.unresolved
  }

  predicate ExecutionOk(ctx: Context, detail: Detail) {
    && detail.executionId == ctx.executionId && detail.completed && detail.hasTimestamp
    && detail.generation.Some? && detail.generation.value > 0
    && detail.repository != "" && detail.baseRef != "" && detail.baseSha != ""
    && JoinOk(detail)
  }

  predicate EvidenceOk(ctx: Context, detail: Detail, evidence: Evidence) {
    && evidence.schema == 1 && evidence.executionId == ctx.executionId
    && evidence.repository == ctx.repository && evidence.baseRef == ctx.baseRef && evidence.baseSha == ctx.baseSha
    && evidence.completed && evidence.mergeText == detail.merge.text
    && evidence.accepted && !evidence.blockers
  }

  method VerifyExecution(checks: Checks, ctx: Context, detail: Detail)
    modifies checks
    ensures checks.Clean() <==> old(checks.Clean()) && ExecutionOk(ctx, detail)
    ensures checks.cryptographicChecks == old(checks.cryptographicChecks)
  {
    checks.Require(detail.executionId == ctx.executionId, ExecutionRecord);
    checks.Require(detail.completed, ExecutionRecord);
    checks.Require(detail.hasTimestamp, ExecutionRecord);
    checks.Require(detail.generation.Some? && detail.generation.value > 0, ExecutionRecord);
    checks.Require(detail.repository != "", ExecutionRecord);
    checks.Require(detail.baseRef != "", ExecutionRecord);
    checks.Require(detail.baseSha != "", ExecutionRecord);
    VerifyJoin(checks, detail);
  }

  method VerifyJoin(checks: Checks, detail: Detail)
    modifies checks
    ensures checks.Clean() <==> old(checks.Clean()) && JoinOk(detail)
    ensures checks.cryptographicChecks == old(checks.cryptographicChecks)
  {
    checks.Require(detail.join.Some?, JoinRecord);
    if detail.join.Some? {
      var join := detail.join.value;
      checks.Require(join.generation == detail.generation, JoinRecord);
      checks.Require(join.isSealed, JoinRecord);
      checks.Require(join.ready, JoinRecord);
      checks.Require(!join.unresolved, JoinRecord);
    }
  }

  method VerifyEvidence(checks: Checks, ctx: Context, detail: Detail, evidence: Evidence)
    modifies checks
    ensures checks.Clean() <==> old(checks.Clean()) && EvidenceOk(ctx, detail, evidence)
    ensures checks.cryptographicChecks == old(checks.cryptographicChecks)
  {
    checks.Require(evidence.schema == 1, EvidenceRecord);
    checks.Require(evidence.executionId == ctx.executionId, EvidenceRecord);
    checks.Require(evidence.repository == ctx.repository, EvidenceRecord);
    checks.Require(evidence.baseRef == ctx.baseRef, EvidenceRecord);
    checks.Require(evidence.baseSha == ctx.baseSha, EvidenceRecord);
    checks.Require(evidence.completed, EvidenceRecord);
    checks.Require(evidence.mergeText == detail.merge.text, EvidenceRecord);
    checks.Require(evidence.accepted && !evidence.blockers, EvidenceRecord);
  }

  // ----- the child lists of the two documents -----

  /** Which attempt of which child the list settles on. */
  function Attempts(children: map<string, Child>): map<string, (string, Option<int>)> {
    map k | k in children :: (children[k].childId, children[k].attempt)
  }

  predicate ChildListsOk(listed: map<string, Child>, evidenced: map<string, Child>) {
    listed != map[] && Attempts(evidenced) == Attempts(listed) && evidenced != map[]
  }

  // ----- integration -----

  function IntegratedIds(receipts: seq<Integration>): (ids: seq<Identity>)
    ensures |ids| == |receipts|
    ensures forall i :: 0 <= i < |ids| ==> ids[i] == receipts[i].binding.id
  {
    seq(|receipts|, i requires 0 <= i < |receipts| => receipts[i].binding.id)
  }

  function ReceiptIds(receipts: seq<Integration>): set<string> {
    set r | r in receipts :: r.receiptId
  }

  predicate OnExecution(ctx: Context, campaign: string, repository: string, baseSha: string) {
    campaign == ctx.executionId && repository == ctx.repository && baseSha == ctx.baseSha
  }

  predicate ReceiptOk(ctx: Context, allocation: Option<Allocation>, identities: set<Identity>, r: Integration) {
    && allocation.Some? && r.allocation == allocation.value.id
    && OnExecution(ctx, r.binding.campaign, r.binding.repository, r.binding.baseSha)
    && r.binding.id in identities
    && ProvenancePresent(r.AsSigned()) && SignatureOk(ctx.trust, r.AsSigned())
  }

  predicate IntegrationOk(
    ctx: Context, allocation: Option<Allocation>, receipts: seq<Integration>, identities: set<Identity>)
  {
    && receipts != []
    && (allocation.Some? ==>
          OnExecution(ctx, allocation.value.campaign, allocation.value.repository, allocation.value.baseSha))
    && (forall i | 0 <= i < |receipts| :: ReceiptOk(ctx, allocation, identities, receipts[i]))
    && |IntegratedIds(receipts)| == |ElementSet(IntegratedIds(receipts))|
    && ElementSet(IntegratedIds(receipts)) == identities
  }

  method VerifyReceipt(
    checks: Checks, ctx: Context, allocation: Option<Allocation>, r: Integration, identities: set<Identity>)
    modifies checks
    ensures checks.Clean() <==> old(checks.Clean()) && ReceiptOk(ctx, allocation, identities, r)
    ensures checks.cryptographicChecks >= old(checks.cryptographicChecks)
  {
    checks.Require(allocation.Some? && r.allocation == allocation.value.id, IntegrationRecord);
    checks.Require(
      OnExecution(ctx, r.binding.campaign, r.binding.repository, r.binding.baseSha), IntegrationRecord);
    checks.Require(r.binding.id in identities, IntegrationRecord);
    checks.Require(ProvenancePresent(r.AsSigned()), IntegrationRecord);
    VerifySignature(checks, ctx.trust, r.AsSigned());
  }

  method VerifyReceipts(
    checks: Checks, ctx: Context, allocation: Option<Allocation>, receipts: seq<Integration>,
    identities: set<Identity>)
    modifies checks
    ensures checks.Clean() <==>
      old(checks.Clean()) && forall i :: 0 <= i < |receipts| ==> ReceiptOk(ctx, allocation, identities, receipts[i])
    ensures checks.cryptographicChecks >= old(checks.cryptographicChecks)
  {
    for n := 0 to |receipts|
      invariant checks.Clean() <==>
        old(checks.Clean()) && forall i :: 0 <= i < n ==> ReceiptOk(ctx, allocation, identities, receipts[i])
      invariant checks.cryptographicChecks >= old(checks.cryptographicChecks)
    {
      VerifyReceipt(checks, ctx, allocation, receipts[n], identities);
    }
  }

  method VerifyIntegration(
    checks: Checks, ctx: Context, allocation: Option<Allocation>, receipts: seq<Integration>,
    identities: set<Identity>)
    modifies checks
    ensures checks.Clean() <==> old(checks.Clean()) && IntegrationOk(ctx, allocation, receipts, identities)
    ensures checks.cryptographicChecks >= old(checks.cryptographicChecks)
  {
    checks.Require(receipts != [], IntegrationRecord);
    if allocation.Some? {
      var a := allocation.value;
      checks.Require(a.campaign == ctx.executionId, IntegrationRecord);
      checks.Require(a.repository == ctx.repository, IntegrationRecord);
      checks.Require(a.baseSha == ctx.baseSha, IntegrationRecord);
    }
    var ids := IntegratedIds(receipts);
    VerifyReceipts(checks, ctx, allocation, receipts, identities);
    checks.Require(|ids| == |ElementSet(ids)|, IntegrationRecord);
    checks.Require(ElementSet(ids) == identities, IntegrationRecord);
  }

  predicate InspectionOk(
    ctx: Context, allocation: Option<Allocation>, receipts: seq<Integration>, identities: set<Identity>, i: Inspection)
  {
    && OnExecution(ctx, i.campaign, i.repository, i.baseSha)
    && allocation.Some? && i.allocation == allocation.value.id
    && i.receiptIds == ReceiptIds(receipts)
    && i.integrated == identities
  }

  method VerifyInspection(
    checks: Checks, ctx: Context, allocation: Option<Allocation>, receipts: seq<Integration>, identities: set<Identity>,
    i: Inspection)
    modifies checks
    ensures checks.Clean() <==> old(checks.Clean()) && InspectionOk(ctx, allocation, receipts, identities, i)
    ensures checks.cryptographicChecks == old(checks.cryptographicChecks)
  {
    checks.Require(OnExecution(ctx, i.campaign, i.repository, i.baseSha), InspectionRecord);
    checks.Require(allocation.Some? && i.allocation == allocation.value.id, InspectionRecord);
    checks.Require(i.receiptIds == ReceiptIds(receipts), InspectionRecord);
    checks.Require(i.integrated == identities, InspectionRecord);
  }

  /** The integration review is bound to the inspected candidate; its workstream key is not looked at. */
  predicate IntegrationReviewOk(ctx: Context, i: Inspection, r: Review) {
    && r.role == "integration" && r.pass && r.worker != r.reviewer
    && OnExecution(ctx, r.binding.campaign, r.binding.repository, r.binding.baseSha)
    && r.binding.id.attemptId == i.allocation && r.binding.id.sha == i.sha && r.binding.id.tree == i.tree
    && ProvenancePresent(r.AsSigned()) && SignatureOk(ctx.trust, r.AsSigned()) && PinOk(ctx.trust, r.role, r.AsSigned())
  }

  method VerifyIntegrationReview(checks: Checks, ctx: Context, i: Inspection, r: Review)
    modifies checks
    ensures checks.Clean() <==> old(checks.Clean()) && IntegrationReviewOk(ctx, i, r)
    ensures checks.cryptographicChecks >= old(checks.cryptographicChecks)
  {
    checks.Require(r.role == "integration", IntegrationReview);
    checks.Require(r.pass, IntegrationReview);
    checks.Require(r.worker != r.reviewer, IntegrationReview);
    checks.Require(
      && OnExecution(ctx, r.binding.campaign, r.binding.repository, r.binding.baseSha)
      && r.binding.id.attemptId == i.allocation && r.binding.id.sha == i.sha && r.binding.id.tree == i.tree,
      IntegrationReview);
    checks.Require(ProvenancePresent(r.AsSigned()), IntegrationReview);
    VerifySignature(checks, ctx.trust, r.AsSigned());
    VerifyPin(checks, ctx.trust, r.role, r.AsSigned());
  }

  predicate MergeOk(ctx: Context, i: Inspection, m: Merge, digestRecorded: bool) {
    && m.merged
    && OnExecution(ctx, m.campaign, m.repository, m.baseSha) && m.targetBranch == ctx.baseRef
    && m.sourceSha == i.sha && m.resultSha == m.canonicalSha
    && ProvenancePresent(m.AsSigned()) && SignatureOk(ctx.trust, m.AsSigned())
    && digestRecorded
  }

  method VerifyMerge(checks: Checks, ctx: Context, i: Inspection, m: Merge, digestRecorded: bool)
    modifies checks
    ensures checks.Clean() <==> old(checks.Clean()) && MergeOk(ctx, i, m, digestRecorded)
    ensures checks.cryptographicChecks >= old(checks.cryptographicChecks)
  {
    checks.Require(m.merged, MergeRecord);
    checks.Require(
      OnExecution(ctx, m.campaign, m.repository, m.baseSha) && m.targetBranch == ctx.baseRef, MergeRecord);
    checks.Require(m.sourceSha == i.sha, MergeRecord);
    checks.Require(m.resultSha == m.canonicalSha, MergeRecord);
    checks.Require(ProvenancePresent(m.AsSigned()), MergeRecord);
    VerifySignature(checks, ctx.trust, m.AsSigned());
    checks.Require(digestRecorded, MergeRecord);
  }

  // ----- waits -----

  predicate WaitRequestOk(ctx: Context, inspection: Option<Inspection>, w: Wait) {
    !w.condition.OtherCondition? ==>
      && w.request.repository == ctx.repository && w.request.baseSha == ctx.baseSha
      && w.request.targetBranch == ctx.baseRef
      && (inspection.Some? ==> w.request.headSha == inspection.value.sha)
  }

  predicate WaitChecksOk(ctx: Context, w: Wait, o: Observation) {
    match o.checks
    case Absent => true
    case Invalid => false
    case Present(r) =>
      && w.condition.ForgeChecks? && o.satisfied
      && r.repository == ctx.repository && r.reviewNumber == w.request.reviewNumber
      && r.sha == w.request.headSha && r.baseSha == w.request.baseSha
      && ProvenancePresent(r.AsSigned()) && SignatureOk(ctx.trust, r.AsSigned())
  }

  predicate WaitMergeOk(ctx: Context, w: Wait, o: Observation) {
    match o.merge
    case Absent => true
    case Invalid => false
    case Present(r) =>
      && w.condition.ForgeMerge? && o.satisfied && r.merged
      && r.campaign == ctx.executionId && r.repository == ctx.repository
      && r.reviewNumber == w.request.reviewNumber && r.sourceSha == w.request.headSha
      && r.baseSha == w.request.baseSha && r.targetBranch == w.request.targetBranch
      && r.mergeMethod == w.request.mergeMethod && r.operation == w.request.operation
      && ProvenancePresent(r.AsSigned()) && SignatureOk(ctx.trust, r.AsSigned())
  }

  predicate WaitOk(ctx: Context, inspection: Option<Inspection>, w: Wait) {
    && w.executionId == ctx.executionId && w.notified && !w.lastError
    && WaitRequestOk(ctx, inspection, w)
    && w.observation.Some?
    && WaitChecksOk(ctx, w, w.observation.value)
    && WaitMergeOk(ctx, w, w.observation.value)
  }

  method VerifyWaitChecks(checks: Checks, ctx: Context, w: Wait, o: Observation)
    modifies checks
    ensures checks.Clean() <==> old(checks.Clean()) && WaitChecksOk(ctx, w, o)
    ensures checks.cryptographicChecks >= old(checks.cryptographicChecks)
  {
    match o.checks
    case Absent =>
    case Invalid => checks.Model(false, WaitRecord);
    case Present(r) =>
      checks.Require(w.condition.ForgeChecks? && o.satisfied, WaitRecord);
      checks.Require(
        && r.repository == ctx.repository && r.reviewNumber == w.request.reviewNumber
        && r.sha == w.request.headSha && r.baseSha == w.request.baseSha, WaitRecord);
      checks.Require(ProvenancePresent(r.AsSigned()), WaitRecord);
      VerifySignature(checks, ctx.trust, r.AsSigned());
  }

  method VerifyWaitMerge(checks: Checks, ctx: Context, w: Wait, o: Observation)
    modifies checks
    ensures checks.Clean() <==> old(checks.Clean()) && WaitMergeOk(ctx, w, o)
    ensures checks.cryptographicChecks >= old(checks.cryptographicChecks)
  {
    match o.merge
    case Absent =>
    case Invalid => checks.Model(false, WaitRecord);
    case Present(r) =>
      checks.Require(w.condition.ForgeMerge? && o.satisfied && r.merged, WaitRecord);
      checks.Require(
        && r.campaign == ctx.executionId && r.repository == ctx.repository
        && r.reviewNumber == w.request.reviewNumber && r.sourceSha == w.request.headSha
        && r.baseSha == w.request.baseSha && r.targetBranch == w.request.targetBranch
        && r.mergeMethod == w.request.mergeMethod && r.operation == w.request.operation, WaitRecord);
      checks.Require(ProvenancePresent(r.AsSigned()), WaitRecord);
      VerifySignature(checks, ctx.trust, r.AsSigned());
  }

  method VerifyWait(checks: Checks, ctx: Context, inspection: Option<Inspection>, w: Wait)
    modifies checks
    ensures checks.Clean() <==> old(checks.Clean()) && WaitOk(ctx, inspection, w)
    ensures checks.cryptographicChecks >= old(checks.cryptographicChecks)
  {
    checks.Require(w.executionId == ctx.executionId, WaitRecord);
    checks.Require(w.notified, WaitRecord);
    checks.Require(!w.lastError, WaitRecord);
    if !w.condition.OtherCondition? {
      checks.Require(w.request.repository == ctx.repository, WaitRecord);
      checks.Require(w.request.baseSha == ctx.baseSha, WaitRecord);
      checks.Require(w.request.targetBranch == ctx.baseRef, WaitRecord);
      if inspection.Some? {
        checks.Require(w.request.headSha == inspection.value.sha, WaitRecord);
      }
    }
    checks.Require(w.observation.Some?, WaitRecord);
    if w.observation.None? {
      return;
    }
    VerifyWaitChecks(checks, ctx, w, w.observation.value);
    VerifyWaitMerge(checks, ctx, w, w.observation.value);
  }

  predicate WaitsOk(ctx: Context, inspection: Option<Inspection>, waits: seq<Wait>) {
    forall i | 0 <= i < |waits| && waits[i].generation == ctx.generation :: WaitOk(ctx, inspection, waits[i])
  }

  method VerifyWaits(checks: Checks, ctx: Context, inspection: Option<Inspection>, waits: seq<Wait>)
    modifies checks
    ensures checks.Clean() <==> old(checks.Clean()) && WaitsOk(ctx, inspection, waits)
    ensures checks.cryptographicChecks >= old(checks.cryptographicChecks)
  {
    for n := 0 to |waits|
      invariant checks.Clean() <==>
        && old(checks.Clean())
        && forall i :: 0 <= i < n && waits[i].generation == ctx.generation ==> WaitOk(ctx, inspection, waits[i])
      invariant checks.cryptographicChecks >= old(checks.cryptographicChecks)
    {
      if waits[n].generation == ctx.generation {
        VerifyWait(checks, ctx, inspection, waits[n]);
      }
    }
  }

  // ----- the whole verification -----

  datatype Status = Verified | ServerAttested | Failed

  datatype Report = Report(status: Status, independent: bool, signaturesChecked: nat)

  function ContextOf(executionId: string, detail: Detail, trust: Option<Trust>, hash: Hash): Context {
    Context(executionId, detail.generation, detail.repository, detail.baseRef, detail.baseSha, trust, hash)
  }

  /** A missing generation selects none of the (positive) ones. */
  function SelectedGeneration(detail: Detail): int {
    if detail.generation.Some? then detail.generation.value else -1
  }

  function CurrentOf(children: seq<Child>, detail: Detail): map<string, Child> {
    Latest(children, SelectedGeneration(detail))
  }

  predicate IntegrationRecordsOk(ctx: Context, detail: Detail, identities: set<Identity>) {
    var receipts := Parsed(detail.receipts);
    && detail.allocation.Some? && AllParsed(detail.receipts)
    && detail.inspection.Some? && detail.review.Some? && detail.merge.parsed.Some?
    && IntegrationOk(ctx, detail.allocation, receipts, identities)
    && InspectionOk(ctx, detail.allocation, receipts, identities, detail.inspection.value)
    && IntegrationReviewOk(ctx, detail.inspection.value, detail.review.value)
    && MergeOk(ctx, detail.inspection.value, detail.merge.parsed.value, detail.merge.digestRecorded)
  }

  /** Everything a successful report stands for, as one condition on the documents. */
  ghost predicate Accepted(docs: Documents, executionId: string, trust: Option<Trust>, hash: Hash) {
    && docs.detail.Some? && docs.evidence.Some? && docs.waits.Some?
    && var detail, evidence := docs.detail.value, docs.evidence.value;
       var ctx := ContextOf(executionId, detail, trust, hash);
       var children := CurrentOf(evidence.children, detail);
       && ExecutionOk(ctx, detail)
       && EvidenceOk(ctx, detail, evidence)
       && ChildListsOk(CurrentOf(detail.children, detail), children)
       && (forall k | k in children :: ChildOk(ctx, k, children[k]))
       && IntegrationRecordsOk(ctx, detail, Identities(children, children.Keys))
       && WaitsOk(ctx, detail.inspection, docs.waits.value)
  }

  method VerifyIntegrationRecords(checks: Checks, ctx: Context, detail: Detail, identities: set<Identity>)
    modifies checks
    ensures checks.Clean() <==> old(checks.Clean()) && IntegrationRecordsOk(ctx, detail, identities)
    ensures checks.cryptographicChecks >= old(checks.cryptographicChecks)
  {
    checks.Model(detail.allocation.Some?, IntegrationRecord);
    var receipts := ParseAll(checks, detail.receipts, IntegrationRecord);
    checks.Model(detail.inspection.Some?, InspectionRecord);
    checks.Model(detail.review.Some?, IntegrationReview);
    checks.Model(detail.merge.parsed.Some?, MergeRecord);
    VerifyIntegration(checks, ctx, detail.allocation, receipts, identities);
    if detail.inspection.Some? {
      VerifyInspection(checks, ctx, detail.allocation, receipts, identities, detail.inspection.value);
    }
    if detail.review.Some? && detail.inspection.Some? {
      VerifyIntegrationReview(checks, ctx, detail.inspection.value, detail.review.value);
    }
    if detail.merge.parsed.Some? && detail.inspection.Some? {
      VerifyMerge(
        checks, ctx, detail.inspection.value, detail.merge.parsed.value, detail.merge.digestRecorded);
    }
  }

  method MakeReport(checks: Checks, requested: bool, success: Status) returns (report: Report)
    ensures report.status == if checks.Clean() then success else Failed
    ensures report.independent <==> requested && checks.cryptographicChecks > 0 && checks.Clean()
    ensures report.signaturesChecked == checks.cryptographicChecks
  {
    var independent := requested && checks.cryptographicChecks > 0 && checks.Clean();
    report := Report(if checks.Clean() then success else Failed, independent, checks.cryptographicChecks);
  }

  method VerifyChildLists(checks: Checks, listed: map<string, Child>, evidenced: map<string, Child>)
    modifies checks
    ensures checks.Clean() <==> old(checks.Clean()) && ChildListsOk(listed, evidenced)
    ensures checks.cryptographicChecks == old(checks.cryptographicChecks)
  {
    checks.Require(listed != map[], ChildList);
    checks.Require(Attempts(evidenced) == Attempts(listed), ChildList);
    checks.Require(evidenced != map[], ChildList);
  }

  /**
   `verify_documents`: success iff the documents meet the whole condition, and with a trust file a
   success always rests on at least one signature that was actually checked.
   */
  method VerifyDocuments(docs: Documents, executionId: string, trust: Option<Trust>, hash: Hash, success: Status)
    returns (report: Report)
    requires success != Failed
    ensures report.status == if Accepted(docs, executionId, trust, hash) then success else Failed
    ensures report.independent <==> trust.Some? && Accepted(docs, executionId, trust, hash)
    ensures report.independent ==> report.signaturesChecked > 0
  {
    var checks := new Checks();
    checks.Require(docs.detail.Some?, DocumentShape);
    checks.Require(docs.evidence.Some?, DocumentShape);
    checks.Require(docs.waits.Some?, DocumentShape);
    if docs.detail.None? || docs.evidence.None? || docs.waits.None? {
      report := MakeReport(checks, trust.Some?, success);
      return;
    }
    var detail, evidence := docs.detail.value, docs.evidence.value;
    var ctx := ContextOf(executionId, detail, trust, hash);
    VerifyExecution(checks, ctx, detail);
    VerifyEvidence(checks, ctx, detail, evidence);
    var listed := CurrentChildren(detail.children, SelectedGeneration(detail));
    var children := CurrentChildren(evidence.children, SelectedGeneration(detail));
    VerifyChildLists(checks, listed, children);
    var identities := VerifyChildren(checks, ctx, children);
    VerifyIntegrationRecords(checks, ctx, detail, identities);
    VerifyWaits(checks, ctx, detail.inspection, docs.waits.value);
    report := MakeReport(checks, trust.Some?, success);
  }

  // ----- what success means -----

  /** Comparing a list's length with the size of its set is a duplicate check. */
  lemma {:induction false} DistinctIff<T>(xs: seq<T>)
    ensures |ElementSet(xs)| <= |xs|
    ensures |xs| == |ElementSet(xs)| <==> NoDuplicates(xs)
    decreases |xs|
  {
    if xs != [] {
      var n := |xs| - 1;
      var front, last := xs[..n], xs[n];
      DistinctIff(front);
      assert ElementSet(xs) == ElementSet(front) + {last};
      if last in front {
        assert ElementSet(xs) == ElementSet(front);
        var i :| 0 <= i < n && front[i] == last;
        assert xs[i] == xs[n];
      } else {
        assert forall i, j :: 0 <= i < j < |xs| && j < n ==> (xs[i] != xs[j] <==> front[i] != front[j]);
        assert forall i :: 0 <= i < n ==> xs[i] == front[i];
      }
    }
  }

  /** The identity of a child entry whose candidate and allocation are present. */
  ghost predicate Names(id: Identity, child: Child) {
    IdentityOf(child.key, child) == Some(id)
  }

  /** Every child has an identity among `ids`, every id names one of the children, and no two share a key. */
  ghost predicate OneIdEach(children: map<string, Child>, ids: seq<Identity>) {
    && (forall k :: k in children ==> exists i :: 0 <= i < |ids| && Names(ids[i], children[k]))
    && (forall i :: 0 <= i < |ids| ==> ids[i].key in children && Names(ids[i], children[ids[i].key]))
    && (forall i, j :: 0 <= i < j < |ids| ==> ids[i].key != ids[j].key)
  }

  lemma IdentitiesMember(children: map<string, Child>, id: Identity)
    requires forall k :: k in children ==> children[k].key == k
    ensures id in Identities(children, children.Keys) <==> id.key in children && Names(id, children[id.key])
  {
  }

  lemma CoverIsOneEach(ids: seq<Identity>, children: map<string, Child>)
    requires forall k :: k in children ==> children[k].key == k && IdentityOf(k, children[k]).Some?
    requires NoDuplicates(ids) && ElementSet(ids) == Identities(children, children.Keys)
    ensures OneIdEach(children, ids)
  {
    forall k | k in children ensures exists i :: 0 <= i < |ids| && Names(ids[i], children[k]) {
      var id := IdentityOf(k, children[k]).value;
      IdentitiesMember(children, id);
      assert id in ElementSet(ids);
      var i :| 0 <= i < |ids| && ids[i] == id;
    }
    forall i | 0 <= i < |ids| ensures ids[i].key in children && Names(ids[i], children[ids[i].key]) {
      assert ids[i] in ElementSet(ids);
      IdentitiesMember(children, ids[i]);
    }
    forall i, j | 0 <= i < j < |ids| ensures ids[i].key != ids[j].key {
      assert ids[i] != ids[j];
    }
  }

  /** Two latest entries of one child are the same entry. */
  lemma LatestIsUnique(children: seq<Child>, generation: int, i: nat, j: nat)
    requires IsLatest(children, generation, i) && IsLatest(children, generation, j)
    requires children[i].key == children[j].key
    ensures i == j
  {
  }

  function CurrentChildrenOf(docs: Documents): map<string, Child>
    requires docs.detail.Some? && docs.evidence.Some?
  {
    CurrentOf(docs.evidence.value.children, docs.detail.value)
  }

  /** Child entry `i` and integration `r` belong to each other. */
  ghost predicate Integrates(entries: seq<Child>, ids: seq<Identity>, i: nat, r: nat) {
    i < |entries| && r < |ids| && Names(ids[r], entries[i])
  }

  ghost predicate HasReceipt(entries: seq<Child>, ids: seq<Identity>, i: nat) {
    exists r :: Integrates(entries, ids, i, r)
  }

  ghost predicate HasAttempt(entries: seq<Child>, generation: int, ids: seq<Identity>, r: nat) {
    exists i :: IsLatest(entries, generation, i) && Integrates(entries, ids, i, r)
  }

  /** Integration pairs the latest attempts of a generation with the receipts, one to one and onto. */
  ghost predicate Bijection(entries: seq<Child>, generation: int, ids: seq<Identity>) {
    && (forall i :: IsLatest(entries, generation, i) ==> HasReceipt(entries, ids, i))
    && (forall r: nat | r < |ids| :: HasAttempt(entries, generation, ids, r))
    && (forall i, r, r' | Integrates(entries, ids, i, r) && Integrates(entries, ids, i, r') :: r == r')
    && (forall i, i', r | IsLatest(entries, generation, i) && IsLatest(entries, generation, i')
          && Integrates(entries, ids, i, r) && Integrates(entries, ids, i', r) :: i == i')
  }

  lemma OneEachIsBijection(entries: seq<Child>, generation: int, ids: seq<Identity>)
    requires OneIdEach(Latest(entries, generation), ids)
    ensures Bijection(entries, generation, ids)
  {
    forall i | IsLatest(entries, generation, i) ensures HasReceipt(entries, ids, i) {
      LatestHasReceipt(entries, generation, ids, i);
    }
    forall r: nat | r < |ids| ensures HasAttempt(entries, generation, ids, r) {
      var i := LatestIsLatest(entries, generation, ids[r].key);
      assert Integrates(entries, ids, i, r);
    }
    forall i, i', r | IsLatest(entries, generation, i) && IsLatest(entries, generation, i')
      && Integrates(entries, ids, i, r) && Integrates(entries, ids, i', r)
      ensures i == i'
    {
      LatestIsUnique(entries, generation, i, i');
    }
  }

  lemma LatestHasReceipt(entries: seq<Child>, generation: int, ids: seq<Identity>, i: nat)
    requires OneIdEach(Latest(entries, generation), ids) && IsLatest(entries, generation, i)
    ensures HasReceipt(entries, ids, i)
  {
    var key := entries[i].key;
    ListedIff(entries, generation, key);
    var j := LatestIsLatest(entries, generation, key);
    LatestIsUnique(entries, generation, i, j);
    var r :| 0 <= r < |ids| && Names(ids[r], entries[i]);
    assert Integrates(entries, ids, i, r);
  }

  /**
   Checker soundness: in accepted documents, integration is a bijection between the latest
   current-generation child attempts and the integration receipts.
   */
  lemma AcceptedMeansBijection(docs: Documents, executionId: string, trust: Option<Trust>, hash: Hash)
    requires Accepted(docs, executionId, trust, hash)
    ensures AllParsed(docs.detail.value.receipts)
    ensures Bijection(
      docs.evidence.value.children, SelectedGeneration(docs.detail.value),
      IntegratedIds(Parsed(docs.detail.value.receipts)))
  {
    var detail := docs.detail.value;
    var children := CurrentChildrenOf(docs);
    var ids := IntegratedIds(Parsed(detail.receipts));
    DistinctIff(ids);
    assert ElementSet(ids) == Identities(children, children.Keys);
    forall k | k in children ensures IdentityOf(k, children[k]).Some? {
      assert ChildOk(ContextOf(executionId, detail, trust, hash), k, children[k]);
    }
    CoverIsOneEach(ids, children);
    OneEachIsBijection(docs.evidence.value.children, SelectedGeneration(detail), ids);
  }

  lemma AttemptsAgree(listed: map<string, Child>, evidenced: map<string, Child>, key: string)
    requires ChildListsOk(listed, evidenced)
    ensures key in listed <==> key in evidenced
    ensures key in listed ==>
      listed[key].childId == evidenced[key].childId && listed[key].attempt == evidenced[key].attempt
  {
    assert Attempts(evidenced).Keys == evidenced.Keys && Attempts(listed).Keys == listed.Keys;
    if key in listed {
      assert Attempts(listed)[key] == Attempts(evidenced)[key];
    }
  }

  /** The two documents settle on the same attempt of the same children. */
  lemma AcceptedListsAgree(docs: Documents, executionId: string, trust: Option<Trust>, hash: Hash, key: string)
    requires Accepted(docs, executionId, trust, hash)
    ensures var listed := CurrentOf(docs.detail.value.children, docs.detail.value);
      var children := CurrentChildrenOf(docs);
      && (key in listed <==> key in children)
      && (key in listed ==>
            listed[key].childId == children[key].childId && listed[key].attempt == children[key].attempt)
  {
    AttemptsAgree(CurrentOf(docs.detail.value.children, docs.detail.value), CurrentChildrenOf(docs), key);
  }

  /**
   The inspected candidate covers exactly the integrated children and receipts, and it is what was
   reviewed and merged.
   */
  lemma AcceptedMergeIsInspected(docs: Documents, executionId: string, trust: Option<Trust>, hash: Hash)
    requires Accepted(docs, executionId, trust, hash)
    ensures var detail := docs.detail.value;
      var receipts := Parsed(detail.receipts);
      && detail.inspection.Some? && detail.merge.parsed.Some? && detail.review.Some?
      && var inspection := detail.inspection.value;
      && detail.merge.parsed.value.sourceSha == inspection.sha == detail.review.value.binding.id.sha
      && detail.merge.text == docs.evidence.value.mergeText
      && inspection.integrated == ElementSet(IntegratedIds(receipts))
      && (forall r :: 0 <= r < |receipts| ==> receipts[r].receiptId in inspection.receiptIds)
      && (forall id :: id in inspection.receiptIds ==> exists r :: 0 <= r < |receipts| && receipts[r].receiptId == id)
  {
    var receipts := Parsed(docs.detail.value.receipts);
    assert docs.detail.value.inspection.value.receiptIds == ReceiptIds(receipts);
  }

  // ----- what an acceptance rests on -----

  predicate InVerifications(receipts: seq<Option<Verification>>, s: Signed) {
    exists i | 0 <= i < |receipts| :: receipts[i].Some? && receipts[i].value.AsSigned() == s
  }

  predicate InReviews(receipts: seq<Option<Review>>, s: Signed) {
    exists i | 0 <= i < |receipts| :: receipts[i].Some? && receipts[i].value.AsSigned() == s
  }

  predicate InIntegrations(receipts: seq<Option<Integration>>, s: Signed) {
    exists i | 0 <= i < |receipts| :: receipts[i].Some? && receipts[i].value.AsSigned() == s
  }

  predicate InWait(w: Wait, s: Signed) {
    && w.observation.Some?
    && var o := w.observation.value;
       || (o.checks.Present? && o.checks.value.AsSigned() == s)
       || (o.merge.Present? && o.merge.value.AsSigned() == s)
  }

  ghost predicate InWaits(waits: seq<Wait>, generation: Option<int>, s: Signed) {
    exists i :: 0 <= i < |waits| && waits[i].generation == generation && InWait(waits[i], s)
  }

  predicate InCandidate(child: Child, s: Signed) {
    && child.candidate.Some?
    && (InVerifications(child.candidate.value.verifications, s) || InReviews(child.candidate.value.reviews, s))
  }

  /** `s` is one of the receipts of a current child, of the integration, its review, the merge, or a current wait. */
  ghost predicate RestsOn(docs: Documents, s: Signed)
    requires docs.detail.Some? && docs.evidence.Some? && docs.waits.Some?
  {
    var detail := docs.detail.value;
    || (exists k :: k in CurrentChildrenOf(docs) && InCandidate(CurrentChildrenOf(docs)[k], s))
    || InIntegrations(detail.receipts, s)
    || (detail.review.Some? && detail.review.value.AsSigned() == s)
    || (detail.merge.parsed.Some? && detail.merge.parsed.value.AsSigned() == s)
    || InWaits(docs.waits.value, detail.generation, s)
  }

  /** What was signed names this execution, or, for check receipts, its repository and base. */
  predicate NamesExecution(ctx: Context, content: Content) {
    match content
    case OfVerification(r) => OnExecution(ctx, r.binding.campaign, r.binding.repository, r.binding.baseSha)
    case OfReview(r) => OnExecution(ctx, r.binding.campaign, r.binding.repository, r.binding.baseSha)
    case OfIntegration(r) => OnExecution(ctx, r.binding.campaign, r.binding.repository, r.binding.baseSha)
    case OfMerge(m) => OnExecution(ctx, m.campaign, m.repository, m.baseSha) && m.targetBranch == ctx.baseRef
    case OfChecks(r) => r.repository == ctx.repository && r.baseSha == ctx.baseSha
  }

  /** A receipt is signed over its own content, that content names the execution, and a review's producer is pinned. */
  predicate Vouched(ctx: Context, s: Signed) {
    && ProvenancePresent(s) && SignatureOk(ctx.trust, s) && NamesExecution(ctx, s.content)
    && (s.content.OfReview? ==> PinOk(ctx.trust, s.content.review.role, s))
  }

  lemma VerificationsVouched(ctx: Context, binding: Binding, a: Allocation, c: CandidateDoc, s: Signed)
    requires VerificationsOk(ctx, binding, a, c) && InVerifications(c.verifications, s)
    requires OnExecution(ctx, binding.campaign, binding.repository, binding.baseSha)
    ensures Vouched(ctx, s) && s.content.OfVerification? && s.content.verification.binding == binding
  {
    var i :| 0 <= i < |c.verifications| && c.verifications[i].Some? && c.verifications[i].value.AsSigned() == s;
    ParsedHolds(c.verifications, i);
  }

  lemma ReviewsVouched(ctx: Context, binding: Binding, a: Allocation, c: CandidateDoc, s: Signed)
    requires ReviewsOk(ctx, binding, a, c) && InReviews(c.reviews, s)
    requires OnExecution(ctx, binding.campaign, binding.repository, binding.baseSha)
    ensures Vouched(ctx, s) && s.content.OfReview? && s.content.review.binding == binding
  {
    var i :| 0 <= i < |c.reviews| && c.reviews[i].Some? && c.reviews[i].value.AsSigned() == s;
    ParsedHolds(c.reviews, i);
  }

  /** A child's signatures are made over exactly this attempt, commit and tree: none can be taken from elsewhere. */
  lemma CandidateVouched(ctx: Context, key: string, child: Child, s: Signed)
    requires ChildOk(ctx, key, child) && InCandidate(child, s)
    ensures Vouched(ctx, s)
    ensures var binding := BindingOf(ctx, key, child.childId, child.candidate.value);
      || (s.content.OfVerification? && s.content.verification.binding == binding)
      || (s.content.OfReview? && s.content.review.binding == binding)
  {
    var c, a := child.candidate.value, child.allocation.value;
    var binding := BindingOf(ctx, key, child.childId, c);
    if InVerifications(c.verifications, s) {
      VerificationsVouched(ctx, binding, a, c, s);
    } else {
      ReviewsVouched(ctx, binding, a, c, s);
    }
  }

  lemma RecordsVouched(ctx: Context, detail: Detail, identities: set<Identity>, s: Signed)
    requires IntegrationRecordsOk(ctx, detail, identities)
    requires InIntegrations(detail.receipts, s) || detail.review.value.AsSigned() == s
      || detail.merge.parsed.value.AsSigned() == s
    ensures Vouched(ctx, s)
  {
    if InIntegrations(detail.receipts, s) {
      var i :| 0 <= i < |detail.receipts| && detail.receipts[i].Some? && detail.receipts[i].value.AsSigned() == s;
      ParsedHolds(detail.receipts, i);
    }
  }

  lemma WaitVouched(ctx: Context, inspection: Option<Inspection>, w: Wait, s: Signed)
    requires WaitOk(ctx, inspection, w) && InWait(w, s)
    ensures Vouched(ctx, s)
  {
  }

  /**
   Every signed receipt an acceptance rests on, of whatever kind, carries provenance, verified over its
   own content when a trust file was given, and that content names this very execution.
   */
  lemma AcceptedReceiptsAreSigned(
    docs: Documents, executionId: string, trust: Option<Trust>, hash: Hash, s: Signed)
    requires Accepted(docs, executionId, trust, hash) && RestsOn(docs, s)
    ensures Vouched(ContextOf(executionId, docs.detail.value, trust, hash), s)
    ensures s.provenance.Some? && s.provenance.value.producer != "" && s.provenance.value.signature != ""
    ensures trust.Some? ==> trust.value.verify(s.content, s.provenance.value)
    ensures trust.Some? && trust.value.pins != map[] && s.content.OfReview? ==>
      s.content.review.role in trust.value.pins
      && s.provenance.value.producer in trust.value.pins[s.content.review.role]
  {
    var detail := docs.detail.value;
    var ctx := ContextOf(executionId, detail, trust, hash);
    var children := CurrentChildrenOf(docs);
    if k :| k in children && InCandidate(children[k], s) {
      CandidateVouched(ctx, k, children[k], s);
    } else if InWaits(docs.waits.value, detail.generation, s) {
      var i :| 0 <= i < |docs.waits.value| && docs.waits.value[i].generation == detail.generation
        && InWait(docs.waits.value[i], s);
      WaitVouched(ctx, detail.inspection, docs.waits.value[i], s);
    } else {
      RecordsVouched(ctx, detail, Identities(children, children.Keys), s);
    }
  }

  // ----- what an acceptance does not rest on -----

  /** A forge wait that passes vouches for anything iff it carries the receipt of its kind; then it was satisfied. */
  lemma WaitVouchesIff(ctx: Context, inspection: Option<Inspection>, w: Wait)
    requires WaitOk(ctx, inspection, w) && !w.condition.OtherCondition?
    ensures var o := w.observation.value;
      && ((exists s :: InWait(w, s)) <==> if w.condition.ForgeChecks? then o.checks.Present? else o.merge.Present?)
      && ((exists s :: InWait(w, s)) ==> o.satisfied)
  {
    var o := w.observation.value;
    if o.checks.Present? {
      assert InWait(w, o.checks.value.AsSigned());
    }
    if o.merge.Present? {
      assert InWait(w, o.merge.value.AsSigned());
    }
  }

  /** A delivered wait on the inspected candidate whose observation carries no receipt, satisfied or not. */
  predicate SilentWait(ctx: Context, inspection: Option<Inspection>, w: Wait) {
    && w.executionId == ctx.executionId && w.notified && !w.lastError && WaitRequestOk(ctx, inspection, w)
    && w.observation.Some? && w.observation.value.checks.Absent? && w.observation.value.merge.Absent?
  }

  lemma OneMoreWait(ctx: Context, inspection: Option<Inspection>, waits: seq<Wait>, w: Wait)
    requires WaitsOk(ctx, inspection, waits) && SilentWait(ctx, inspection, w)
    ensures WaitsOk(ctx, inspection, waits + [w])
  {
    assert forall i :: 0 <= i < |waits| ==> (waits + [w])[i] == waits[i];
  }

  /** Adding such a wait to accepted documents leaves them accepted: an unsatisfied observation alone is no error. */
  lemma SilentWaitStaysAccepted(
    docs: Documents, executionId: string, trust: Option<Trust>, hash: Hash, w: Wait)
    requires Accepted(docs, executionId, trust, hash)
    requires SilentWait(ContextOf(executionId, docs.detail.value, trust, hash), docs.detail.value.inspection, w)
    ensures Accepted(docs.(waits := Some(docs.waits.value + [w])), executionId, trust, hash)
  {
    OneMoreWait(
      ContextOf(executionId, docs.detail.value, trust, hash), docs.detail.value.inspection, docs.waits.value, w);
  }

  /** Open blocking findings decide a child's review, and only that: the integration review passes with or without. */
  lemma FindingsDecideChildrenOnly(ctx: Context, binding: Binding, i: Inspection, r: Review)
    requires SignatureOk(ctx.trust, r.AsSigned())
    requires SignatureOk(ctx.trust, r.(openBlocking := !r.openBlocking).AsSigned())
    ensures r.openBlocking ==> !ReviewOk(ctx, binding, r.worker, r)
    ensures IntegrationReviewOk(ctx, i, r) <==> IntegrationReviewOk(ctx, i, r.(openBlocking := !r.openBlocking))
  {
  }

  lemma {:induction false} ParsedHolds<T>(xs: seq<Option<T>>, n: nat)
    requires n < |xs| && xs[n].Some?
    ensures exists i :: 0 <= i < |Parsed(xs)| && Parsed(xs)[i] == xs[n].value
  {
    var last := |xs| - 1;
    if n == last {
      assert Parsed(xs)[|Parsed(xs)| - 1] == xs[n].value;
    } else {
      ParsedHolds(xs[..last], n);
      var i :| 0 <= i < |Parsed(xs[..last])| && Parsed(xs[..last])[i] == xs[n].value;
      assert Parsed(xs)[i] == xs[n].value;
    }
  }

  lemma {:induction false} ParsedAlike<T>(xs: seq<Option<T>>, ys: seq<Option<T>>)
    requires AllParsed(xs) && AllParsed(ys) && Parsed(xs) == Parsed(ys)
    ensures xs == ys
    decreases |xs|
  {
    ParsedInFull(xs);
    ParsedInFull(ys);
    forall i | 0 <= i < |xs| ensures xs[i] == ys[i] {
      assert Parsed(xs)[i] == xs[i].value && Parsed(ys)[i] == ys[i].value;
    }
  }

  lemma {:induction false} ParsedInFull<T>(xs: seq<Option<T>>)
    requires AllParsed(xs)
    ensures |Parsed(xs)| == |xs| && forall i :: 0 <= i < |xs| ==> Parsed(xs)[i] == xs[i].value
    decreases |xs|
  {
    if xs != [] {
      ParsedInFull(xs[..|xs| - 1]);
    }
  }

  /**
   The accepted digest pins the evidence: if digests do not collide, two child entries that pass with the
   same digest are of the same attempt, commit and tree, with the same requirements and receipts.
   */
  lemma DigestPinsEvidence(ctx: Context, key: string, a: Child, b: Child)
    requires forall m: Manifest, n: Manifest :: ctx.hash(m).Some? && ctx.hash(m) == ctx.hash(n) ==> m == n
    requires ChildOk(ctx, key, a) && ChildOk(ctx, key, b)
    requires a.validation.value.digest == b.validation.value.digest
    ensures a.childId == b.childId && a.candidate == b.candidate
  {
    var c, d := a.candidate.value, b.candidate.value;
    var m := ManifestOf(BindingOf(ctx, key, a.childId, c), a.allocation.value.worker, c);
    var n := ManifestOf(BindingOf(ctx, key, b.childId, d), b.allocation.value.worker, d);
    assert ctx.hash(m) == ctx.hash(n);
    ParsedAlike(c.verifications, d.verifications);
    ParsedAlike(c.reviews, d.reviews);
  }

  // ----- the command -----

  datatype Exit = UsageError | Exited(report: Report, code: int)

  /**
   Without a trust file the operator must accept the server's attestation, and then nothing is called
   verified. `fetched` is nothing when the token, the trust file or a document could not be read.
   */
  method RunVerifier(
    fetched: Option<Documents>, executionId: string, trust: Option<Trust>, hash: Hash, trustServer: bool)
    returns (exit: Exit)
    ensures exit.UsageError? <==> trust.None? && !trustServer
    ensures exit.Exited? ==>
      && var accepted := fetched.Some? && Accepted(fetched.value, executionId, trust, hash);
      && (exit.code == 0 <==> accepted)
      && (exit.report.status == Verified <==> trust.Some? && accepted)
      && (exit.report.status == Verified <==> exit.report.independent)
  {
    if trust.None? && !trustServer {
      return UsageError;
    }
    if fetched.None? {
      return Exited(Report(Failed, false, 0), 1);
    }
    var success := if trust.Some? then Verified else ServerAttested;
    var report := VerifyDocuments(fetched.value, executionId, trust, hash, success);
    var code := if report.status == Verified || report.status == ServerAttested then 0 else 1;
    return Exited(report, code);
  }
}
