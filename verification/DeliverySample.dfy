/** A smallest complete delivery: the verifier's condition can be met, so its soundness is not vacuous. */
module DeliverySample {
  import opened Sequences
  import opened DeliveryProof
  import opened DeliveryReport

  /** Every receipt carries a signature of its own. */
  function SampleProvenance(signature: string): Option<Provenance> { Some(Provenance("producer", "key", signature)) }

  function SampleIdentity(): Identity { Identity("child", "attempt", "sha", "tree") }

  function SampleBinding(): Binding { Binding("run", "repo", "base", SampleIdentity()) }

  function SampleAllocation(key: string, contracts: set<string>): Allocation {
    Allocation("allocation", "run", key, "repo", "base", "worker", contracts)
  }

  function SampleVerification(): Verification {
    Verification(SampleBinding(), "contract", 0, "", SampleProvenance("verification"))
  }

  function SampleReview(role: string, binding: Binding, open: bool): Review {
    Review(binding, role, true, "worker", "reviewer", open, "", SampleProvenance(role))
  }

  function SampleReviews(): seq<Review> {
    [SampleReview("code", SampleBinding(), false), SampleReview("security", SampleBinding(), false),
     SampleReview("adversarial", SampleBinding(), false)]
  }

  function AllSome<T>(xs: seq<T>): seq<Option<T>> { seq(|xs|, i requires 0 <= i < |xs| => Some(xs[i])) }

  function SampleCandidate(): CandidateDoc {
    CandidateDoc(
      "attempt", "sha", "tree", [Requirement("requirement", "")], AllSome([SampleVerification()]),
      AllSome(SampleReviews()))
  }

  function SampleChild(): Child {
    Child(
      1, "child", Some(1), "attempt", true, Some(Validation(true, false, Some("digest"))),
      Some(SampleAllocation("child", {"contract"})), Some(SampleCandidate()), {"requirement"})
  }

  function SampleReceipt(): Integration {
    Integration("receipt", SampleBinding(), "allocation", "", SampleProvenance("integration receipt"))
  }

  function SampleInspection(): Inspection {
    Inspection("run", "repo", "base", "allocation", {"receipt"}, {SampleIdentity()}, "merged", "tree")
  }

  function SampleMerge(): Merge {
    Merge(
      "run", "repo", "base", 1, "main", "merged", "result", "result", "merge", "", true, "", SampleProvenance("merge"))
  }

  /** The integration review, with an open blocking finding or without. */
  function SampleIntegrationReview(open: bool): Review {
    SampleReview("integration", Binding("run", "repo", "base", Identity("", "allocation", "merged", "tree")), open)
  }

  function SampleDetail(open: bool): Detail {
    Detail(
      "run", true, true, Some(1), "repo", "main", "base", Some(Join(Some(1), true, true, false)), [SampleChild()],
      Some(SampleAllocation("integration", {})), AllSome([SampleReceipt()]), Some(SampleInspection()),
      Some(SampleIntegrationReview(open)), RawMerge("merge receipt", Some(SampleMerge()), true))
  }

  function SampleDocuments(open: bool): Documents {
    Documents(
      Some(SampleDetail(open)),
      Some(Evidence(1, "run", "repo", "main", "base", true, true, false, "merge receipt", [SampleChild()])),
      Some([]))
  }

  /** The seven receipts, each as it was signed. */
  function SampleSigned(open: bool): seq<Signed> {
    [SampleVerification().AsSigned(), SampleReviews()[0].AsSigned(), SampleReviews()[1].AsSigned(),
     SampleReviews()[2].AsSigned(), SampleReceipt().AsSigned(), SampleIntegrationReview(open).AsSigned(),
     SampleMerge().AsSigned()]
  }

  /** The trust file, if any, verifies each of these over its own receipt, and pins the producer to every role. */
  ghost predicate Trusts(trust: Option<Trust>, open: bool) {
    && (forall i :: 0 <= i < |SampleSigned(open)| ==> SignatureOk(trust, SampleSigned(open)[i]))
    && (forall role, s :: s in SampleSigned(open) ==> PinOk(trust, role, s))
  }

  /** The digest the server accepted is that of this child's evidence. */
  ghost predicate Hashes(hash: Hash) {
    hash(ManifestOf(SampleBinding(), "worker", SampleCandidate())) == Some("digest")
  }

  lemma {:induction false} ParsedAllSome<T>(xs: seq<T>)
    ensures AllParsed(AllSome(xs)) && Parsed(AllSome(xs)) == xs
    decreases |xs|
  {
    if xs != [] {
      var n := |xs| - 1;
      ParsedAllSome(xs[..n]);
      assert AllSome(xs)[..n] == AllSome(xs[..n]);
      assert xs == xs[..n] + [xs[n]];
    }
  }

  lemma SampleVerificationsOk(ctx: Context, c: CandidateDoc, open: bool)
    requires Trusts(ctx.trust, open) && c.verifications == AllSome([SampleVerification()])
    ensures VerificationsOk(ctx, SampleBinding(), SampleAllocation("child", {"contract"}), c)
  {
    var rs := [SampleVerification()];
    assert SignatureOk(ctx.trust, SampleSigned(open)[0]);
    ParsedAllSome(rs);
    assert Contracts(rs) == ["contract"] && ElementSet(["contract"]) == {"contract"};
  }

  lemma SampleReviewOk(ctx: Context, i: nat, open: bool)
    requires Trusts(ctx.trust, open) && i < 3
    ensures ReviewOk(ctx, SampleBinding(), "worker", SampleReviews()[i])
  {
    var s := SampleSigned(open)[i + 1];
    assert s == SampleReviews()[i].AsSigned() && s in SampleSigned(open);
  }

  lemma SampleReviewsOk(ctx: Context, c: CandidateDoc, open: bool)
    requires Trusts(ctx.trust, open) && c.reviews == AllSome(SampleReviews())
    ensures ReviewsOk(ctx, SampleBinding(), SampleAllocation("child", {"contract"}), c)
  {
    var rs := SampleReviews();
    ParsedAllSome(rs);
    assert rs[0].role in Roles(rs) && rs[1].role in Roles(rs) && rs[2].role in Roles(rs);
    forall i | 0 <= i < |rs| ensures ReviewOk(ctx, SampleBinding(), "worker", rs[i]) {
      SampleReviewOk(ctx, i, open);
    }
  }

  lemma SampleChildOk(open: bool, trust: Option<Trust>, hash: Hash)
    requires Trusts(trust, open) && Hashes(hash)
    ensures ChildOk(ContextOf("run", SampleDetail(open), trust, hash), "child", SampleChild())
  {
    var ctx := ContextOf("run", SampleDetail(open), trust, hash);
    SampleVerificationsOk(ctx, SampleCandidate(), open);
    SampleReviewsOk(ctx, SampleCandidate(), open);
    assert BindingOf(ctx, "child", "attempt", SampleCandidate()) == SampleBinding();
    assert SampleCandidate().requirements[0].id in Reported(SampleCandidate());
    assert Reported(SampleCandidate()) == {"requirement"};
  }

  lemma SampleChildren(open: bool)
    ensures CurrentOf([SampleChild()], SampleDetail(open)) == map["child" := SampleChild()]
    ensures Identities(map["child" := SampleChild()], {"child"}) == {SampleIdentity()}
  {
    assert [SampleChild()][..0] == [];
    assert Latest([], 1) == map[];
  }

  /** Records of the sample execution, under any trust. */
  ghost predicate SampleContext(ctx: Context, open: bool) {
    ctx == ContextOf("run", SampleDetail(open), ctx.trust, ctx.hash) && Trusts(ctx.trust, open)
  }

  lemma SampleReceiptsOk(ctx: Context, open: bool)
    requires SampleContext(ctx, open)
    ensures IntegrationOk(
      ctx, Some(SampleAllocation("integration", {})), [SampleReceipt()], {SampleIdentity()})
  {
    var rs := [SampleReceipt()];
    assert SignatureOk(ctx.trust, SampleSigned(open)[4]);
    assert ReceiptOk(ctx, Some(SampleAllocation("integration", {})), {SampleIdentity()}, SampleReceipt());
    assert IntegratedIds(rs) == [SampleIdentity()] && ElementSet([SampleIdentity()]) == {SampleIdentity()};
  }

  lemma SampleInspectionOk(ctx: Context, open: bool)
    requires SampleContext(ctx, open)
    ensures InspectionOk(
      ctx, Some(SampleAllocation("integration", {})), [SampleReceipt()], {SampleIdentity()}, SampleInspection())
  {
    var rs := [SampleReceipt()];
    assert rs[0].receiptId in ReceiptIds(rs);
    assert ReceiptIds(rs) == {"receipt"};
  }

  lemma SampleReviewAndMergeOk(ctx: Context, open: bool)
    requires SampleContext(ctx, open)
    ensures IntegrationReviewOk(ctx, SampleInspection(), SampleIntegrationReview(open))
    ensures MergeOk(ctx, SampleInspection(), SampleMerge(), true)
  {
    var s, m := SampleSigned(open)[5], SampleSigned(open)[6];
    assert s == SampleIntegrationReview(open).AsSigned() && s in SampleSigned(open);
    assert SignatureOk(ctx.trust, m);
  }

  lemma SampleRecordsOk(ctx: Context, open: bool)
    requires SampleContext(ctx, open)
    ensures IntegrationRecordsOk(ctx, SampleDetail(open), {SampleIdentity()})
  {
    ParsedAllSome([SampleReceipt()]);
    SampleReceiptsOk(ctx, open);
    SampleInspectionOk(ctx, open);
    SampleReviewAndMergeOk(ctx, open);
  }

  /**
   Acceptance is possible, without a trust file and with any that verifies these receipts' own signatures,
   and it does not matter whether the integration review has an open blocking finding.
   */
  lemma SampleIsAccepted(open: bool, trust: Option<Trust>, hash: Hash)
    requires Trusts(trust, open) && Hashes(hash)
    ensures Accepted(SampleDocuments(open), "run", trust, hash)
  {
    SampleChildren(open);
    SampleChildOk(open, trust, hash);
    SampleRecordsOk(ContextOf("run", SampleDetail(open), trust, hash), open);
    var children := map["child" := SampleChild()];
    assert children.Keys == {"child"};
    assert "child" in children && "child" in Attempts(children);
  }

  /** One such trust file verifies these seven signatures over these seven receipts, and nothing else. */
  lemma StrictTrustSuffices(open: bool, hash: Hash)
    requires Hashes(hash)
    ensures var strict := Trust((c: Content, p: Provenance) => Signed(c, Some(p)) in SampleSigned(open), map[]);
      Accepted(SampleDocuments(open), "run", Some(strict), hash)
  {
    var strict := Trust((c: Content, p: Provenance) => Signed(c, Some(p)) in SampleSigned(open), map[]);
    forall i | 0 <= i < |SampleSigned(open)| ensures SignatureOk(Some(strict), SampleSigned(open)[i]) {
      var s := SampleSigned(open)[i];
      assert s.provenance.Some? && s == Signed(s.content, Some(s.provenance.value));
    }
    SampleIsAccepted(open, Some(strict), hash);
  }

  /** A merge wait that was delivered but not satisfied, and carries no receipt. */
  function UnsatisfiedWait(): Wait {
    Wait(
      Some(1), "run", true, false, ForgeMerge, WaitRequest("repo", 1, "merged", "base", "main", "merge", ""),
      Some(Observation(false, Absent, Absent)))
  }

  /** The delivery stays accepted with such a wait. */
  lemma UnsatisfiedWaitIsAccepted(open: bool, trust: Option<Trust>, hash: Hash)
    requires Trusts(trust, open) && Hashes(hash)
    ensures Accepted(SampleDocuments(open).(waits := Some([UnsatisfiedWait()])), "run", trust, hash)
  {
    SampleIsAccepted(open, trust, hash);
    var docs := SampleDocuments(open);
    SilentWaitStaysAccepted(docs, "run", trust, hash, UnsatisfiedWait());
    assert docs.waits.value + [UnsatisfiedWait()] == [UnsatisfiedWait()];
  }
}
