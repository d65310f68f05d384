/**
 What an accepted delivery stands for, read off the documents alone: which fields of which records hold
 what. The verifier accepts exactly the documents that meet these rules.
 */
module DeliveryRules {
  import opened Sequences
  import opened Sorting
  import opened DeliveryProof
  import opened DeliveryReport

  // ----- receipts -----

  /** Provenance in full, and a verified signature over this very content when there is a trust file. */
  ghost predicate SignedBy(trust: Option<Trust>, content: Content, p: Option<Provenance>) {
    && p.Some? && p.value.producer != "" && p.value.keyId != "" && p.value.signature != ""
    && (trust.Some? ==> trust.value.verify(content, p.value))
  }

  /** The producer is one the trust file pins to this role, if it pins any. */
  ghost predicate PinnedTo(trust: Option<Trust>, role: string, p: Option<Provenance>) {
    trust.Some? && trust.value.pins != map[] ==>
      p.Some? && role in trust.value.pins && p.value.producer in trust.value.pins[role]
  }

  ghost predicate IsFor(b: Binding, id: string, d: Detail) {
    b.campaign == id && b.repository == d.repository && b.baseSha == d.baseSha
  }

  /** The receipt names this attempt of this child, its commit and its tree. */
  ghost predicate IsForChild(b: Binding, id: string, d: Detail, child: Child, c: CandidateDoc) {
    && IsFor(b, id, d)
    && b.id.key == child.key && b.id.attemptId == child.childId && b.id.sha == c.sha && b.id.tree == c.tree
  }

  ghost predicate VerificationPassed(
    id: string, d: Detail, trust: Option<Trust>, child: Child, c: CandidateDoc, v: Verification)
  {
    v.exitCode == 0 && IsForChild(v.binding, id, d, child, c)
    && SignedBy(trust, OfVerification(v.(provenance := None)), v.provenance)
  }

  ghost predicate ReviewPassed(
    id: string, d: Detail, trust: Option<Trust>, child: Child, a: Allocation, c: CandidateDoc, r: Review)
  {
    && r.pass && r.worker != r.reviewer && r.worker == a.worker && !r.openBlocking
    && IsForChild(r.binding, id, d, child, c)
    && SignedBy(trust, OfReview(r.(provenance := None)), r.provenance) && PinnedTo(trust, r.role, r.provenance)
  }

  // ----- one child -----

  ghost predicate HasContract(vs: seq<Option<Verification>>, contract: string) {
    exists n :: 0 <= n < |vs| && vs[n].Some? && vs[n].value.contract == contract
  }

  /** Every contract has a receipt, and no two receipts share one. */
  ghost predicate OnePerContract(vs: seq<Option<Verification>>, contracts: set<string>) {
    && (forall n :: 0 <= n < |vs| && vs[n].Some? ==> vs[n].value.contract in contracts)
    && (forall t :: t in contracts ==> HasContract(vs, t))
    && (forall n, m :: 0 <= n < m < |vs| && vs[n].Some? && vs[m].Some? ==> vs[n].value.contract != vs[m].value.contract)
  }

  /** Every entry parses and passed; the contracts are those of the allocation, each with one receipt. */
  ghost predicate AllVerified(id: string, d: Detail, trust: Option<Trust>, child: Child, a: Allocation, c: CandidateDoc)
  {
    var vs := c.verifications;
    && vs != []
    && (forall n :: 0 <= n < |vs| ==> vs[n].Some? && VerificationPassed(id, d, trust, child, c, vs[n].value))
    && OnePerContract(vs, a.contracts)
  }

  ghost predicate HasReview(c: CandidateDoc, role: string) {
    exists n :: 0 <= n < |c.reviews| && c.reviews[n].Some? && c.reviews[n].value.role == role
  }

  ghost predicate AllReviewed(id: string, d: Detail, trust: Option<Trust>, child: Child, a: Allocation, c: CandidateDoc)
  {
    var rs := c.reviews;
    && (forall n :: 0 <= n < |rs| ==> rs[n].Some? && ReviewPassed(id, d, trust, child, a, c, rs[n].value))
    && HasReview(c, "code") && HasReview(c, "security") && HasReview(c, "adversarial")
  }

  /** The requirement ids assigned to the child are those it reports, and there are some. */
  ghost predicate RequirementsReported(child: Child, c: CandidateDoc) {
    && child.requirementIds != {}
    && (forall n :: 0 <= n < |c.requirements| ==> c.requirements[n].id in child.requirementIds)
    && (forall t :: t in child.requirementIds ==>
          exists n :: 0 <= n < |c.requirements| && c.requirements[n].id == t)
  }

  /** The accepted digest is the one of this evidence, every receipt included. */
  ghost predicate DigestFits(id: string, d: Detail, hash: Hash, child: Child, a: Allocation, c: CandidateDoc) {
    && child.validation.Some? && child.validation.value.digest.Some?
    && exists m: Manifest :: IsManifest(m, id, d, child, a, c) && hash(m) == child.validation.value.digest
  }

  ghost predicate IsManifest(m: Manifest, id: string, d: Detail, child: Child, a: Allocation, c: CandidateDoc) {
    && IsForChild(m.binding, id, d, child, c) && m.worker == a.worker && m.requirements == c.requirements
    && |m.verifications| == |c.verifications| && |m.reviews| == |c.reviews|
    && (forall n :: 0 <= n < |m.verifications| ==> c.verifications[n] == Some(m.verifications[n]))
    && (forall n :: 0 <= n < |m.reviews| ==> c.reviews[n] == Some(m.reviews[n]))
  }

  ghost predicate AllocatedTo(id: string, d: Detail, a: Allocation) {
    a.campaign == id && a.repository == d.repository && a.baseSha == d.baseSha
  }

  ghost predicate ChildPassed(id: string, d: Detail, trust: Option<Trust>, hash: Hash, child: Child) {
    && child.completed
    && child.validation.Some? && child.validation.value.accepted && !child.validation.value.blockers
    && child.allocation.Some? && child.candidate.Some?
    && var a, c := child.allocation.value, child.candidate.value;
       && c.attemptId == child.childId && AllocatedTo(id, d, a) && a.key == child.key
       && RequirementsReported(child, c)
       && AllVerified(id, d, trust, child, a, c)
       && AllReviewed(id, d, trust, child, a, c)
       && DigestFits(id, d, hash, child, a, c)
  }

  // ----- the two documents -----

  ghost predicate ExecutionCompleted(id: string, d: Detail) {
    && d.executionId == id && d.completed && d.hasTimestamp
    && d.generation.Some? && d.generation.value > 0
    && d.repository != "" && d.baseRef != "" && d.baseSha != ""
    && d.join.Some? && d.join.value.generation == d.generation
    && d.join.value.isSealed && d.join.value.ready && !d.join.value.unresolved
  }

  ghost predicate EvidenceAgrees(id: string, d: Detail, e: Evidence) {
    && e.schema == 1 && e.executionId == id
    && e.repository == d.repository && e.baseRef == d.baseRef && e.baseSha == d.baseSha
    && e.completed && e.accepted && !e.blockers && e.mergeText == d.merge.text
  }

  /** Each child either list settles on is settled on by the other, at the same attempt. */
  ghost predicate ListsAgree(listed: seq<Child>, evidenced: seq<Child>, g: int) {
    && (exists i: nat :: IsLatest(listed, g, i))
    && (forall i: nat :: IsLatest(listed, g, i) ==> Mirrored(listed[i], evidenced, g))
    && (forall i: nat :: IsLatest(evidenced, g, i) ==> Mirrored(evidenced[i], listed, g))
  }

  ghost predicate Mirrored(child: Child, others: seq<Child>, g: int) {
    exists j: nat :: IsLatest(others, g, j)
      && others[j].key == child.key && others[j].childId == child.childId && others[j].attempt == child.attempt
  }

  // ----- integration, merge and waits -----

  /** The id is that of this child's candidate. */
  ghost predicate IsIdOf(id: Identity, child: Child) {
    && child.candidate.Some?
    && id.key == child.key && id.attemptId == child.childId
    && id.sha == child.candidate.value.sha && id.tree == child.candidate.value.tree
  }

  ghost predicate ReceiptPassed(id: string, d: Detail, trust: Option<Trust>, r: Integration) {
    && d.allocation.Some? && r.allocation == d.allocation.value.id && IsFor(r.binding, id, d)
    && SignedBy(trust, OfIntegration(r.(provenance := None)), r.provenance)
  }

  ghost predicate IsIdOfSettled(x: Identity, entries: seq<Child>, g: int) {
    exists i: nat :: IsLatest(entries, g, i) && IsIdOf(x, entries[i])
  }

  ghost predicate HasReceiptOf(rs: seq<Option<Integration>>, child: Child) {
    exists n :: 0 <= n < |rs| && rs[n].Some? && IsIdOf(rs[n].value.binding.id, child)
  }

  /** Receipts and settled children belong to each other one to one. */
  ghost predicate ReceiptsPair(rs: seq<Option<Integration>>, entries: seq<Child>, g: int) {
    && (forall n :: 0 <= n < |rs| && rs[n].Some? ==> IsIdOfSettled(rs[n].value.binding.id, entries, g))
    && (forall i: nat :: IsLatest(entries, g, i) ==> HasReceiptOf(rs, entries[i]))
    && (forall n, m :: 0 <= n < m < |rs| && rs[n].Some? && rs[m].Some? ==>
          rs[n].value.binding.id.key != rs[m].value.binding.id.key)
  }

  /** Every receipt parses and is signed, and they pair the settled children. */
  ghost predicate AllIntegrated(id: string, d: Detail, entries: seq<Child>, g: int, trust: Option<Trust>) {
    && d.allocation.Some? && AllocatedTo(id, d, d.allocation.value)
    && d.receipts != []
    && (forall n :: 0 <= n < |d.receipts| ==> d.receipts[n].Some? && ReceiptPassed(id, d, trust, d.receipts[n].value))
    && ReceiptsPair(d.receipts, entries, g)
  }

  ghost predicate HasReceiptNamed(d: Detail, name: string) {
    exists n :: 0 <= n < |d.receipts| && d.receipts[n].Some? && d.receipts[n].value.receiptId == name
  }

  /** The inspected candidate is made of exactly these receipts and these children. */
  ghost predicate InspectedInFull(id: string, d: Detail, entries: seq<Child>, g: int) {
    && d.inspection.Some? && d.allocation.Some?
    && var i := d.inspection.value;
       && i.campaign == id && i.repository == d.repository && i.baseSha == d.baseSha
       && i.allocation == d.allocation.value.id
       && (forall n :: 0 <= n < |d.receipts| && d.receipts[n].Some? ==> d.receipts[n].value.receiptId in i.receiptIds)
       && (forall t :: t in i.receiptIds ==> HasReceiptNamed(d, t))
       && (forall x :: x in i.integrated ==> IsIdOfSettled(x, entries, g))
       && (forall k: nat :: IsLatest(entries, g, k) ==> exists x :: x in i.integrated && IsIdOf(x, entries[k]))
  }

  ghost predicate IntegrationReviewed(id: string, d: Detail, trust: Option<Trust>) {
    && d.review.Some? && d.inspection.Some?
    && var r, i := d.review.value, d.inspection.value;
       && r.role == "integration" && r.pass && r.worker != r.reviewer && IsFor(r.binding, id, d)
       && r.binding.id.attemptId == i.allocation && r.binding.id.sha == i.sha && r.binding.id.tree == i.tree
       && SignedBy(trust, OfReview(r.(provenance := None)), r.provenance)
       && PinnedTo(trust, "integration", r.provenance)
  }

  /** The inspected commit was merged onto the target branch, and the result is what that branch shows. */
  ghost predicate Merged(id: string, d: Detail, trust: Option<Trust>) {
    && d.merge.parsed.Some? && d.merge.digestRecorded && d.inspection.Some?
    && var m := d.merge.parsed.value;
       && m.merged && m.campaign == id && m.repository == d.repository && m.baseSha == d.baseSha
       && m.targetBranch == d.baseRef && m.sourceSha == d.inspection.value.sha && m.resultSha == m.canonicalSha
       && SignedBy(trust, OfMerge(m.(provenance := None)), m.provenance)
  }

  /** A check receipt belongs to a satisfied check wait and answers exactly its request. */
  ghost predicate ChecksAnswer(d: Detail, trust: Option<Trust>, w: Wait, o: Observation, r: CheckReceipt) {
    && w.condition == ForgeChecks && o.satisfied && r.repository == d.repository
    && r.reviewNumber == w.request.reviewNumber && r.sha == w.request.headSha && r.baseSha == w.request.baseSha
    && SignedBy(trust, OfChecks(r.(provenance := None)), r.provenance)
  }

  ghost predicate MergeAnswers(id: string, d: Detail, trust: Option<Trust>, w: Wait, o: Observation, r: Merge) {
    && w.condition == ForgeMerge && o.satisfied && r.merged
    && r.campaign == id && r.repository == d.repository && r.reviewNumber == w.request.reviewNumber
    && r.sourceSha == w.request.headSha && r.baseSha == w.request.baseSha && r.targetBranch == w.request.targetBranch
    && r.mergeMethod == w.request.mergeMethod && r.operation == w.request.operation
    && SignedBy(trust, OfMerge(r.(provenance := None)), r.provenance)
  }

  /** A forge wait asks about the inspected candidate; a wait of another kind is not held to that. */
  ghost predicate WaitDelivered(id: string, d: Detail, trust: Option<Trust>, w: Wait) {
    && w.executionId == id && w.notified && !w.lastError && w.observation.Some?
    && (w.condition == ForgeChecks || w.condition == ForgeMerge ==>
          && w.request.repository == d.repository && w.request.baseSha == d.baseSha
          && w.request.targetBranch == d.baseRef
          && (d.inspection.Some? ==> w.request.headSha == d.inspection.value.sha))
    && var o := w.observation.value;
       && o.checks != Invalid && o.merge != Invalid
       && (o.checks.Present? ==> ChecksAnswer(d, trust, w, o, o.checks.value))
       && (o.merge.Present? ==> MergeAnswers(id, d, trust, w, o, o.merge.value))
  }

  // ----- a delivery -----

  /** All of it. */
  ghost predicate Delivered(docs: Documents, id: string, trust: Option<Trust>, hash: Hash) {
    && docs.detail.Some? && docs.evidence.Some? && docs.waits.Some?
    && var d, e, ws := docs.detail.value, docs.evidence.value, docs.waits.value;
       && ExecutionCompleted(id, d) && EvidenceAgrees(id, d, e)
       && ListsAgree(d.children, e.children, d.generation.value)
       && (forall i: nat ::
             IsLatest(e.children, d.generation.value, i) ==> ChildPassed(id, d, trust, hash, e.children[i]))
       && AllIntegrated(id, d, e.children, d.generation.value, trust)
       && InspectedInFull(id, d, e.children, d.generation.value)
       && IntegrationReviewed(id, d, trust)
       && Merged(id, d, trust)
       && (forall n :: 0 <= n < |ws| && ws[n].generation == d.generation ==> WaitDelivered(id, d, trust, ws[n]))
  }

  // ----- the verifier accepts exactly these -----

  lemma ContractsIff(vs: seq<Option<Verification>>, contracts: set<string>)
    requires AllParsed(vs)
    ensures var names := Contracts(Parsed(vs));
      |names| == |ElementSet(names)| && ElementSet(names) == contracts <==> OnePerContract(vs, contracts)
  {
    ParsedInFull(vs);
    var names := Contracts(Parsed(vs));
    DistinctIff(names);
    SetIs(names, contracts);
    assert forall n :: 0 <= n < |vs| ==> names[n] == vs[n].value.contract;
    forall t | t in contracts ensures (exists n :: 0 <= n < |names| && names[n] == t) <==> HasContract(vs, t) {
      if n :| 0 <= n < |names| && names[n] == t {
        assert vs[n].value.contract == t;
      }
    }
  }

  lemma VerificationIff(ctx: Context, d: Detail, child: Child, c: CandidateDoc, v: Verification)
    requires ctx == ContextOf(ctx.executionId, d, ctx.trust, ctx.hash)
    ensures VerificationOk(ctx, BindingOf(ctx, child.key, child.childId, c), v)
      <==> VerificationPassed(ctx.executionId, d, ctx.trust, child, c, v)
  {
  }

  lemma VerificationsIff(ctx: Context, d: Detail, key: string, child: Child, a: Allocation, c: CandidateDoc)
    requires ctx == ContextOf(ctx.executionId, d, ctx.trust, ctx.hash) && key == child.key
    ensures VerificationsOk(ctx, BindingOf(ctx, key, child.childId, c), a, c)
      <==> AllVerified(ctx.executionId, d, ctx.trust, child, a, c)
  {
    var vs := c.verifications;
    if AllParsed(vs) {
      ParsedInFull(vs);
      ContractsIff(vs, a.contracts);
      forall n | 0 <= n < |vs|
        ensures VerificationOk(ctx, BindingOf(ctx, key, child.childId, c), Parsed(vs)[n])
          <==> VerificationPassed(ctx.executionId, d, ctx.trust, child, c, vs[n].value)
      {
        VerificationIff(ctx, d, child, c, vs[n].value);
      }
    }
  }

  /** The elements are the members of the set: each is one, and each member is met. */
  lemma SetIs<T>(xs: seq<T>, s: set<T>)
    ensures ElementSet(xs) == s <==>
      (forall n :: 0 <= n < |xs| ==> xs[n] in s) && (forall t :: t in s ==> exists n :: 0 <= n < |xs| && xs[n] == t)
  {
    if ElementSet(xs) == s {
      forall t | t in s ensures exists n :: 0 <= n < |xs| && xs[n] == t {
        assert t in xs;
      }
    }
  }

  lemma {:induction false} RolesAre(reviews: seq<Option<Review>>, role: string)
    requires AllParsed(reviews)
    ensures role in Roles(Parsed(reviews)) <==>
      exists n :: 0 <= n < |reviews| && reviews[n].Some? && reviews[n].value.role == role
  {
    ParsedInFull(reviews);
    if role in Roles(Parsed(reviews)) {
      var r :| r in Parsed(reviews) && r.role == role;
      var n :| 0 <= n < |reviews| && Parsed(reviews)[n] == r;
      assert reviews[n].value.role == role;
    }
    if n :| 0 <= n < |reviews| && reviews[n].Some? && reviews[n].value.role == role {
      assert Parsed(reviews)[n] in Parsed(reviews);
    }
  }

  lemma ReviewIff(ctx: Context, d: Detail, child: Child, a: Allocation, c: CandidateDoc, r: Review)
    requires ctx == ContextOf(ctx.executionId, d, ctx.trust, ctx.hash)
    ensures ReviewOk(ctx, BindingOf(ctx, child.key, child.childId, c), a.worker, r)
      <==> ReviewPassed(ctx.executionId, d, ctx.trust, child, a, c, r)
  {
  }

  lemma ReviewsIff(ctx: Context, d: Detail, key: string, child: Child, a: Allocation, c: CandidateDoc)
    requires ctx == ContextOf(ctx.executionId, d, ctx.trust, ctx.hash) && key == child.key
    ensures ReviewsOk(ctx, BindingOf(ctx, key, child.childId, c), a, c)
      <==> AllReviewed(ctx.executionId, d, ctx.trust, child, a, c)
  {
    var rs := c.reviews;
    if AllParsed(rs) {
      ParsedInFull(rs);
      RolesAre(rs, "code");
      RolesAre(rs, "security");
      RolesAre(rs, "adversarial");
      forall n | 0 <= n < |rs|
        ensures ReviewOk(ctx, BindingOf(ctx, key, child.childId, c), a.worker, Parsed(rs)[n])
          <==> ReviewPassed(ctx.executionId, d, ctx.trust, child, a, c, rs[n].value)
      {
        ReviewIff(ctx, d, child, a, c, rs[n].value);
      }
    }
  }

  lemma RequirementsIff(child: Child, c: CandidateDoc)
    ensures child.requirementIds != {} && Reported(c) == child.requirementIds <==> RequirementsReported(child, c)
  {
    var ids := seq(|c.requirements|, n requires 0 <= n < |c.requirements| => c.requirements[n].id);
    assert Reported(c) == ElementSet(ids) by {
      forall t | t in Reported(c) ensures t in ElementSet(ids) {
        var r :| r in c.requirements && r.id == t;
        var n :| 0 <= n < |c.requirements| && c.requirements[n] == r;
        assert ids[n] == t;
      }
    }
    SetIs(ids, child.requirementIds);
  }

  /** There is one manifest of the evidence, when every receipt parses. */
  lemma ManifestIs(ctx: Context, d: Detail, key: string, child: Child, a: Allocation, c: CandidateDoc, m: Manifest)
    requires ctx == ContextOf(ctx.executionId, d, ctx.trust, ctx.hash) && key == child.key
    requires AllParsed(c.verifications) && AllParsed(c.reviews)
    ensures IsManifest(m, ctx.executionId, d, child, a, c)
      <==> m == ManifestOf(BindingOf(ctx, key, child.childId, c), a.worker, c)
  {
    ParsedInFull(c.verifications);
    ParsedInFull(c.reviews);
    if IsManifest(m, ctx.executionId, d, child, a, c) {
      assert m.verifications == Parsed(c.verifications) && m.reviews == Parsed(c.reviews);
    }
  }

  lemma ChildIff(ctx: Context, d: Detail, key: string, child: Child)
    requires ctx == ContextOf(ctx.executionId, d, ctx.trust, ctx.hash) && key == child.key
    ensures ChildOk(ctx, key, child) <==> ChildPassed(ctx.executionId, d, ctx.trust, ctx.hash, child)
  {
    if child.allocation.Some? && child.candidate.Some? {
      var a, c := child.allocation.value, child.candidate.value;
      VerificationsIff(ctx, d, key, child, a, c);
      ReviewsIff(ctx, d, key, child, a, c);
      RequirementsIff(child, c);
      if child.validation.Some? && AllParsed(c.verifications) && AllParsed(c.reviews) {
        DigestIff(ctx, d, key, child, a, c);
      }
    }
  }

  lemma DigestIff(ctx: Context, d: Detail, key: string, child: Child, a: Allocation, c: CandidateDoc)
    requires ctx == ContextOf(ctx.executionId, d, ctx.trust, ctx.hash) && key == child.key
    requires AllParsed(c.verifications) && AllParsed(c.reviews) && child.validation.Some?
    ensures var computed := ctx.hash(ManifestOf(BindingOf(ctx, key, child.childId, c), a.worker, c));
      DigestFits(ctx.executionId, d, ctx.hash, child, a, c)
      <==> computed.Some? && computed == child.validation.value.digest
  {
    var m := ManifestOf(BindingOf(ctx, key, child.childId, c), a.worker, c);
    ManifestIs(ctx, d, key, child, a, c, m);
    if DigestFits(ctx.executionId, d, ctx.hash, child, a, c) {
      var n: Manifest :| IsManifest(n, ctx.executionId, d, child, a, c) && ctx.hash(n) == child.validation.value.digest;
      ManifestIs(ctx, d, key, child, a, c, n);
    }
  }

  /** The entries kept are the settled ones. */
  lemma LatestEntry(entries: seq<Child>, g: int, i: nat)
    requires IsLatest(entries, g, i)
    ensures entries[i].key in Latest(entries, g) && Latest(entries, g)[entries[i].key] == entries[i]
  {
    ListedIff(entries, g, entries[i].key);
    var j := LatestIsLatest(entries, g, entries[i].key);
    LatestIsUnique(entries, g, i, j);
  }

  lemma ListsIff(listed: seq<Child>, evidenced: seq<Child>, g: int)
    ensures ChildListsOk(Latest(listed, g), Latest(evidenced, g)) <==> ListsAgree(listed, evidenced, g)
  {
    var l, e := Latest(listed, g), Latest(evidenced, g);
    if ChildListsOk(l, e) {
      var key :| key in l;
      var i := LatestIsLatest(listed, g, key);
      forall i: nat | IsLatest(listed, g, i) ensures Mirrored(listed[i], evidenced, g) {
        SettledByBoth(listed, evidenced, g, i);
      }
      forall i: nat | IsLatest(evidenced, g, i) ensures Mirrored(evidenced[i], listed, g) {
        SettledByBoth(evidenced, listed, g, i);
      }
    }
    if ListsAgree(listed, evidenced, g) {
      SameAttempts(listed, evidenced, g);
    }
  }

  lemma SettledByBoth(xs: seq<Child>, ys: seq<Child>, g: int, i: nat)
    requires Attempts(Latest(xs, g)) == Attempts(Latest(ys, g)) && IsLatest(xs, g, i)
    ensures Mirrored(xs[i], ys, g)
  {
    var key := xs[i].key;
    LatestEntry(xs, g, i);
    assert key in Attempts(Latest(xs, g)) && key in Attempts(Latest(ys, g));
    var j := LatestIsLatest(ys, g, key);
    assert Attempts(Latest(xs, g))[key] == Attempts(Latest(ys, g))[key];
  }

  lemma AttemptOf(xs: seq<Child>, ys: seq<Child>, g: int, key: string)
    requires (forall i: nat :: IsLatest(xs, g, i) ==> Mirrored(xs[i], ys, g)) && key in Latest(xs, g)
    ensures key in Latest(ys, g) && Attempts(Latest(xs, g))[key] == Attempts(Latest(ys, g))[key]
  {
    var i := LatestIsLatest(xs, g, key);
    var j: nat :| IsLatest(ys, g, j)
      && ys[j].key == xs[i].key && ys[j].childId == xs[i].childId && ys[j].attempt == xs[i].attempt;
    LatestEntry(ys, g, j);
  }

  lemma SameAttempts(listed: seq<Child>, evidenced: seq<Child>, g: int)
    requires ListsAgree(listed, evidenced, g)
    ensures ChildListsOk(Latest(listed, g), Latest(evidenced, g))
  {
    var l, e := Latest(listed, g), Latest(evidenced, g);
    forall key | key in l ensures key in e && Attempts(l)[key] == Attempts(e)[key] {
      AttemptOf(listed, evidenced, g, key);
    }
    forall key | key in e ensures key in l && Attempts(l)[key] == Attempts(e)[key] {
      AttemptOf(evidenced, listed, g, key);
    }
    assert Attempts(l) == Attempts(e);
    var i: nat :| IsLatest(listed, g, i);
    LatestEntry(listed, g, i);
  }

  /** Every settled child has come far enough to have an identity. */
  ghost predicate AllHaveIds(entries: seq<Child>, g: int) {
    forall i: nat :: IsLatest(entries, g, i) ==> entries[i].candidate.Some? && entries[i].allocation.Some?
  }

  ghost function IdsOf(entries: seq<Child>, g: int): set<Identity> {
    Identities(Latest(entries, g), Latest(entries, g).Keys)
  }

  lemma IdsAre(entries: seq<Child>, g: int, x: Identity)
    requires AllHaveIds(entries, g)
    ensures x in IdsOf(entries, g) <==> IsIdOfSettled(x, entries, g)
  {
    IdentitiesMember(Latest(entries, g), x);
    if x in IdsOf(entries, g) {
      var i := LatestIsLatest(entries, g, x.key);
      assert IsLatest(entries, g, i) && IsIdOf(x, entries[i]);
    }
    if IsIdOfSettled(x, entries, g) {
      var i: nat :| IsLatest(entries, g, i) && IsIdOf(x, entries[i]);
      LatestEntry(entries, g, i);
    }
  }

  /** Two settled ids with one key are the same. */
  lemma KeyDetermines(entries: seq<Child>, g: int, x: Identity, y: Identity)
    requires IsIdOfSettled(x, entries, g) && IsIdOfSettled(y, entries, g) && x.key == y.key
    ensures x == y
  {
    var i: nat :| IsLatest(entries, g, i) && IsIdOf(x, entries[i]);
    var j: nat :| IsLatest(entries, g, j) && IsIdOf(y, entries[j]);
    LatestIsUnique(entries, g, i, j);
  }

  /** The ids pair the settled children one to one. */
  ghost predicate Pairs(ids: seq<Identity>, entries: seq<Child>, g: int) {
    && (forall n :: 0 <= n < |ids| ==> IsIdOfSettled(ids[n], entries, g))
    && (forall i: nat :: IsLatest(entries, g, i) ==> NamedIn(ids, entries[i]))
    && (forall n, m :: 0 <= n < m < |ids| ==> ids[n].key != ids[m].key)
  }

  ghost predicate NamedIn(ids: seq<Identity>, child: Child) {
    exists n :: 0 <= n < |ids| && IsIdOf(ids[n], child)
  }

  /** A list of ids is the set of the settled children's, without repetition, iff it pairs them. */
  lemma PairingIff(ids: seq<Identity>, entries: seq<Child>, g: int)
    requires AllHaveIds(entries, g)
    ensures |ids| == |ElementSet(ids)| && ElementSet(ids) == IdsOf(entries, g) <==> Pairs(ids, entries, g)
  {
    DistinctIff(ids);
    if |ids| == |ElementSet(ids)| && ElementSet(ids) == IdsOf(entries, g) {
      CoverPairs(ids, entries, g);
    }
    if Pairs(ids, entries, g) {
      PairsCover(ids, entries, g);
    }
  }

  lemma CoverPairs(ids: seq<Identity>, entries: seq<Child>, g: int)
    requires AllHaveIds(entries, g) && NoDuplicates(ids) && ElementSet(ids) == IdsOf(entries, g)
    ensures Pairs(ids, entries, g)
  {
    forall n | 0 <= n < |ids| ensures IsIdOfSettled(ids[n], entries, g) {
      assert ids[n] in ElementSet(ids);
      IdsAre(entries, g, ids[n]);
    }
    forall n, m | 0 <= n < m < |ids| ensures ids[n].key != ids[m].key {
      if ids[n].key == ids[m].key { KeyDetermines(entries, g, ids[n], ids[m]); }
    }
    forall i: nat | IsLatest(entries, g, i) ensures NamedIn(ids, entries[i]) {
      var child := entries[i];
      var x := Identity(child.key, child.childId, child.candidate.value.sha, child.candidate.value.tree);
      assert IsIdOf(x, entries[i]) && IsIdOfSettled(x, entries, g);
      IdsAre(entries, g, x);
      assert x in ElementSet(ids);
      var n :| 0 <= n < |ids| && ids[n] == x;
      assert IsIdOf(ids[n], entries[i]);
    }
  }

  lemma PairsCover(ids: seq<Identity>, entries: seq<Child>, g: int)
    requires AllHaveIds(entries, g) && Pairs(ids, entries, g)
    ensures NoDuplicates(ids) && ElementSet(ids) == IdsOf(entries, g)
  {
    forall x | x in IdsOf(entries, g) ensures x in ElementSet(ids) {
      IdsAre(entries, g, x);
      var i: nat :| IsLatest(entries, g, i) && IsIdOf(x, entries[i]);
      assert NamedIn(ids, entries[i]);
      var n :| 0 <= n < |ids| && IsIdOf(ids[n], entries[i]);
      assert ids[n] == x;
    }
    forall x | x in ElementSet(ids) ensures x in IdsOf(entries, g) {
      IdsAre(entries, g, x);
    }
  }

  lemma ReceiptIff(ctx: Context, d: Detail, entries: seq<Child>, g: int, r: Integration)
    requires ctx == ContextOf(ctx.executionId, d, ctx.trust, ctx.hash) && AllHaveIds(entries, g)
    ensures ReceiptOk(ctx, d.allocation, IdsOf(entries, g), r)
      <==> ReceiptPassed(ctx.executionId, d, ctx.trust, r) && IsIdOfSettled(r.binding.id, entries, g)
  {
    IdsAre(entries, g, r.binding.id);
  }

  /** The ids that the receipts name. */
  lemma ReceiptIdsPair(d: Detail, entries: seq<Child>, g: int)
    requires AllParsed(d.receipts)
    ensures Pairs(IntegratedIds(Parsed(d.receipts)), entries, g) <==> ReceiptsPair(d.receipts, entries, g)
  {
    ParsedInFull(d.receipts);
    var ids := IntegratedIds(Parsed(d.receipts));
    assert forall n :: 0 <= n < |ids| ==> ids[n] == d.receipts[n].value.binding.id;
    forall i: nat | IsLatest(entries, g, i) ensures HasReceiptOf(d.receipts, entries[i]) <==> NamedIn(ids, entries[i]) {
      ReceiptFound(d.receipts, ids, entries[i]);
    }
  }

  lemma IntegrationMeans(ctx: Context, d: Detail, entries: seq<Child>, g: int)
    requires ctx == ContextOf(ctx.executionId, d, ctx.trust, ctx.hash) && AllHaveIds(entries, g)
    requires d.allocation.Some? && AllParsed(d.receipts)
    requires IntegrationOk(ctx, d.allocation, Parsed(d.receipts), IdsOf(entries, g))
    ensures AllIntegrated(ctx.executionId, d, entries, g, ctx.trust)
  {
    ParsedInFull(d.receipts);
    PairingIff(IntegratedIds(Parsed(d.receipts)), entries, g);
    ReceiptIdsPair(d, entries, g);
    forall n | 0 <= n < |d.receipts| ensures ReceiptPassed(ctx.executionId, d, ctx.trust, d.receipts[n].value) {
      assert ReceiptOk(ctx, d.allocation, IdsOf(entries, g), Parsed(d.receipts)[n]);
      ReceiptIff(ctx, d, entries, g, d.receipts[n].value);
    }
  }

  lemma IntegrationSuffices(ctx: Context, d: Detail, entries: seq<Child>, g: int)
    requires ctx == ContextOf(ctx.executionId, d, ctx.trust, ctx.hash) && AllHaveIds(entries, g)
    requires AllIntegrated(ctx.executionId, d, entries, g, ctx.trust)
    ensures AllParsed(d.receipts) && IntegrationOk(ctx, d.allocation, Parsed(d.receipts), IdsOf(entries, g))
  {
    ParsedInFull(d.receipts);
    ReceiptIdsPair(d, entries, g);
    PairingIff(IntegratedIds(Parsed(d.receipts)), entries, g);
    forall n | 0 <= n < |d.receipts|
      ensures ReceiptOk(ctx, d.allocation, IdsOf(entries, g), Parsed(d.receipts)[n])
    {
      ReceiptIff(ctx, d, entries, g, d.receipts[n].value);
    }
  }

  lemma ReceiptFound(rs: seq<Option<Integration>>, ids: seq<Identity>, child: Child)
    requires AllParsed(rs) && |ids| == |rs| && forall n :: 0 <= n < |ids| ==> ids[n] == rs[n].value.binding.id
    ensures HasReceiptOf(rs, child) <==> NamedIn(ids, child)
  {
    if NamedIn(ids, child) {
      var n :| 0 <= n < |ids| && IsIdOf(ids[n], child);
      assert IsIdOf(rs[n].value.binding.id, child);
    }
  }

  lemma InspectionIff(ctx: Context, d: Detail, entries: seq<Child>, g: int)
    requires ctx == ContextOf(ctx.executionId, d, ctx.trust, ctx.hash) && AllHaveIds(entries, g)
    requires d.allocation.Some? && AllParsed(d.receipts) && d.inspection.Some?
    ensures InspectionOk(ctx, d.allocation, Parsed(d.receipts), IdsOf(entries, g), d.inspection.value)
      <==> InspectedInFull(ctx.executionId, d, entries, g)
  {
    var i := d.inspection.value;
    ParsedInFull(d.receipts);
    var rs := Parsed(d.receipts);
    var names := seq(|rs|, n requires 0 <= n < |rs| => rs[n].receiptId);
    assert ReceiptIds(rs) == ElementSet(names) by {
      forall t | t in ReceiptIds(rs) ensures t in ElementSet(names) {
        var r :| r in rs && r.receiptId == t;
        var n :| 0 <= n < |rs| && rs[n] == r;
        assert names[n] == t;
      }
    }
    SetIs(names, i.receiptIds);
    NamesFound(d, names, i.receiptIds);
    IntegratedIff(i.integrated, entries, g);
  }

  lemma NamesFound(d: Detail, names: seq<string>, s: set<string>)
    requires AllParsed(d.receipts) && |names| == |d.receipts|
    requires forall n :: 0 <= n < |names| ==> names[n] == d.receipts[n].value.receiptId
    ensures (forall n :: 0 <= n < |names| ==> names[n] in s) <==>
      (forall n :: 0 <= n < |d.receipts| && d.receipts[n].Some? ==> d.receipts[n].value.receiptId in s)
    ensures (forall t :: t in s ==> exists n :: 0 <= n < |names| && names[n] == t) <==>
      (forall t :: t in s ==> HasReceiptNamed(d, t))
  {
    forall t ensures (exists n :: 0 <= n < |names| && names[n] == t) <==> HasReceiptNamed(d, t) {
      if n :| 0 <= n < |names| && names[n] == t {
        assert d.receipts[n].value.receiptId == t;
      }
    }
  }

  lemma IntegratedIff(s: set<Identity>, entries: seq<Child>, g: int)
    requires AllHaveIds(entries, g)
    ensures s == IdsOf(entries, g) <==>
      && (forall x :: x in s ==> IsIdOfSettled(x, entries, g))
      && (forall k: nat :: IsLatest(entries, g, k) ==> exists x :: x in s && IsIdOf(x, entries[k]))
  {
    forall x ensures x in IdsOf(entries, g) <==> IsIdOfSettled(x, entries, g) {
      IdsAre(entries, g, x);
    }
    if s == IdsOf(entries, g) {
      forall k: nat | IsLatest(entries, g, k) ensures exists x :: x in s && IsIdOf(x, entries[k]) {
        var child := entries[k];
        var x := Identity(child.key, child.childId, child.candidate.value.sha, child.candidate.value.tree);
        assert IsIdOf(x, entries[k]) && x in s;
      }
    } else if (forall x :: x in s ==> IsIdOfSettled(x, entries, g))
      && (forall k: nat :: IsLatest(entries, g, k) ==> exists x :: x in s && IsIdOf(x, entries[k])) {
      forall x | x in IdsOf(entries, g) ensures x in s {
        var k: nat :| IsLatest(entries, g, k) && IsIdOf(x, entries[k]);
        var y :| y in s && IsIdOf(y, entries[k]);
        assert x == y;
      }
    }
  }

  lemma ReviewAndMergeIff(ctx: Context, d: Detail)
    requires ctx == ContextOf(ctx.executionId, d, ctx.trust, ctx.hash) && d.inspection.Some?
    ensures d.review.Some? && IntegrationReviewOk(ctx, d.inspection.value, d.review.value)
      <==> IntegrationReviewed(ctx.executionId, d, ctx.trust)
    ensures d.merge.parsed.Some? && MergeOk(ctx, d.inspection.value, d.merge.parsed.value, d.merge.digestRecorded)
      <==> Merged(ctx.executionId, d, ctx.trust)
  {
  }

  ghost predicate RecordsPassed(id: string, d: Detail, entries: seq<Child>, g: int, trust: Option<Trust>) {
    && AllIntegrated(id, d, entries, g, trust) && InspectedInFull(id, d, entries, g)
    && IntegrationReviewed(id, d, trust) && Merged(id, d, trust)
  }

  lemma RecordsMean(ctx: Context, d: Detail, entries: seq<Child>, g: int)
    requires ctx == ContextOf(ctx.executionId, d, ctx.trust, ctx.hash) && AllHaveIds(entries, g)
    requires IntegrationRecordsOk(ctx, d, IdsOf(entries, g))
    ensures RecordsPassed(ctx.executionId, d, entries, g, ctx.trust)
  {
    IntegrationMeans(ctx, d, entries, g);
    InspectionIff(ctx, d, entries, g);
    ReviewAndMergeIff(ctx, d);
  }

  lemma RecordsSuffice(ctx: Context, d: Detail, entries: seq<Child>, g: int)
    requires ctx == ContextOf(ctx.executionId, d, ctx.trust, ctx.hash) && AllHaveIds(entries, g)
    requires RecordsPassed(ctx.executionId, d, entries, g, ctx.trust)
    ensures IntegrationRecordsOk(ctx, d, IdsOf(entries, g))
  {
    IntegrationSuffices(ctx, d, entries, g);
    InspectionIff(ctx, d, entries, g);
    ReviewAndMergeIff(ctx, d);
  }

  lemma WaitIff(ctx: Context, d: Detail, w: Wait)
    requires ctx == ContextOf(ctx.executionId, d, ctx.trust, ctx.hash)
    ensures WaitOk(ctx, d.inspection, w) <==> WaitDelivered(ctx.executionId, d, ctx.trust, w)
  {
  }

  lemma ChildrenIff(ctx: Context, d: Detail, entries: seq<Child>, g: int)
    requires ctx == ContextOf(ctx.executionId, d, ctx.trust, ctx.hash)
    ensures (forall k :: k in Latest(entries, g) ==> ChildOk(ctx, k, Latest(entries, g)[k])) <==>
      forall i: nat :: IsLatest(entries, g, i) ==> ChildPassed(ctx.executionId, d, ctx.trust, ctx.hash, entries[i])
  {
    var current := Latest(entries, g);
    if forall k :: k in current ==> ChildOk(ctx, k, current[k]) {
      forall i: nat | IsLatest(entries, g, i)
        ensures ChildPassed(ctx.executionId, d, ctx.trust, ctx.hash, entries[i])
      {
        LatestEntry(entries, g, i);
        ChildIff(ctx, d, entries[i].key, entries[i]);
      }
    } else {
      var k :| k in current && !ChildOk(ctx, k, current[k]);
      var i := LatestIsLatest(entries, g, k);
      ChildIff(ctx, d, k, entries[i]);
      assert !ChildPassed(ctx.executionId, d, ctx.trust, ctx.hash, entries[i]);
    }
  }

  /** The records of an execution other than its children. */
  lemma RestIff(ctx: Context, d: Detail, e: Evidence)
    requires ctx == ContextOf(ctx.executionId, d, ctx.trust, ctx.hash)
    ensures ExecutionOk(ctx, d) <==> ExecutionCompleted(ctx.executionId, d)
    ensures EvidenceOk(ctx, d, e) <==> EvidenceAgrees(ctx.executionId, d, e)
  {
  }

  lemma AcceptedIsDelivered(docs: Documents, id: string, trust: Option<Trust>, hash: Hash)
    requires Accepted(docs, id, trust, hash)
    ensures Delivered(docs, id, trust, hash)
  {
    var d, e := docs.detail.value, docs.evidence.value;
    var ctx, g := ContextOf(id, d, trust, hash), d.generation.value;
    RestIff(ctx, d, e);
    ListsIff(d.children, e.children, g);
    ChildrenIff(ctx, d, e.children, g);
    RecordsMean(ctx, d, e.children, g);
    WaitsIff(ctx, d, docs.waits.value);
  }

  lemma DeliveredIsAccepted(docs: Documents, id: string, trust: Option<Trust>, hash: Hash)
    requires Delivered(docs, id, trust, hash)
    ensures Accepted(docs, id, trust, hash)
  {
    var d, e := docs.detail.value, docs.evidence.value;
    var ctx, g := ContextOf(id, d, trust, hash), d.generation.value;
    RestIff(ctx, d, e);
    ListsIff(d.children, e.children, g);
    ChildrenIff(ctx, d, e.children, g);
    RecordsSuffice(ctx, d, e.children, g);
    WaitsIff(ctx, d, docs.waits.value);
  }

  /** Main result: the verifier accepts a delivery iff its documents meet every rule above. */
  lemma AcceptedIff(docs: Documents, id: string, trust: Option<Trust>, hash: Hash)
    ensures Accepted(docs, id, trust, hash) <==> Delivered(docs, id, trust, hash)
  {
    if Accepted(docs, id, trust, hash) {
      AcceptedIsDelivered(docs, id, trust, hash);
    }
    if Delivered(docs, id, trust, hash) {
      DeliveredIsAccepted(docs, id, trust, hash);
    }
  }

  lemma WaitsIff(ctx: Context, d: Detail, ws: seq<Wait>)
    requires ctx == ContextOf(ctx.executionId, d, ctx.trust, ctx.hash)
    ensures WaitsOk(ctx, d.inspection, ws) <==> forall n ::
      0 <= n < |ws| && ws[n].generation == d.generation ==> WaitDelivered(ctx.executionId, d, ctx.trust, ws[n])
  {
    forall n | 0 <= n < |ws|
      ensures WaitOk(ctx, d.inspection, ws[n]) <==> WaitDelivered(ctx.executionId, d, ctx.trust, ws[n])
    {
      WaitIff(ctx, d, ws[n]);
    }
  }

  // ----- what that comes to -----

  /** Soundness, field by field: every latest child of the generation was completed, accepted and verified. */
  lemma AcceptedChildPassed(docs: Documents, id: string, trust: Option<Trust>, hash: Hash, i: nat)
    requires Accepted(docs, id, trust, hash)
    requires IsLatest(docs.evidence.value.children, docs.detail.value.generation.value, i)
    ensures var child := docs.evidence.value.children[i];
      && child.completed && child.validation.Some? && child.validation.value.accepted
      && !child.validation.value.blockers
      && child.allocation.Some? && child.candidate.Some?
      && var vs := child.candidate.value.verifications;
         vs != [] && forall n :: 0 <= n < |vs| ==> vs[n].Some? && vs[n].value.exitCode == 0
  {
    AcceptedIff(docs, id, trust, hash);
    assert ChildPassed(id, docs.detail.value, trust, hash, docs.evidence.value.children[i]);
  }

  /** Its reviews all passed, by someone other than the worker it was allocated to, and each role is among them. */
  lemma AcceptedChildReviewed(docs: Documents, id: string, trust: Option<Trust>, hash: Hash, i: nat)
    requires Accepted(docs, id, trust, hash)
    requires IsLatest(docs.evidence.value.children, docs.detail.value.generation.value, i)
    ensures var child := docs.evidence.value.children[i];
      && child.allocation.Some? && child.candidate.Some?
      && var rs := child.candidate.value.reviews;
         && (forall n :: 0 <= n < |rs| ==>
               && rs[n].Some? && rs[n].value.pass && !rs[n].value.openBlocking
               && rs[n].value.worker == child.allocation.value.worker != rs[n].value.reviewer)
         && (exists n :: 0 <= n < |rs| && rs[n].value.role == "code")
         && (exists n :: 0 <= n < |rs| && rs[n].value.role == "security")
         && (exists n :: 0 <= n < |rs| && rs[n].value.role == "adversarial")
  {
    AcceptedIff(docs, id, trust, hash);
    var child := docs.evidence.value.children[i];
    assert ChildPassed(id, docs.detail.value, trust, hash, child);
    var c := child.candidate.value;
    assert HasReview(c, "code") && HasReview(c, "security") && HasReview(c, "adversarial");
  }

  /** And for the execution as a whole. */
  lemma AcceptedIsCompleted(docs: Documents, id: string, trust: Option<Trust>, hash: Hash)
    requires Accepted(docs, id, trust, hash)
    ensures var d, e := docs.detail.value, docs.evidence.value;
      && d.executionId == id == e.executionId && d.completed && e.completed && d.hasTimestamp
      && e.schema == 1 && e.accepted && !e.blockers
      && d.generation.Some? && d.generation.value > 0
      && d.join.Some? && d.join.value.generation == d.generation
      && d.join.value.isSealed && d.join.value.ready && !d.join.value.unresolved
      && d.merge.parsed.Some? && d.merge.parsed.value.merged && d.merge.digestRecorded
      && d.review.Some? && d.review.value.pass && d.review.value.role == "integration"
      && d.review.value.worker != d.review.value.reviewer
  {
    AcceptedIff(docs, id, trust, hash);
  }

  /** One failed verification in a latest child refuses any documents, whatever else they hold. */
  lemma FailedVerificationRefuses(docs: Documents, id: string, trust: Option<Trust>, hash: Hash, i: nat, n: nat)
    requires docs.detail.Some? && docs.evidence.Some? && docs.detail.value.generation.Some?
    requires IsLatest(docs.evidence.value.children, docs.detail.value.generation.value, i)
    requires var child := docs.evidence.value.children[i];
      && child.candidate.Some? && n < |child.candidate.value.verifications|
      && (child.candidate.value.verifications[n].None? || child.candidate.value.verifications[n].value.exitCode != 0)
    ensures !Accepted(docs, id, trust, hash)
  {
    if Accepted(docs, id, trust, hash) {
      AcceptedChildPassed(docs, id, trust, hash, i);
    }
  }

  /** So does one review that did not pass, or that the worker made of its own work. */
  lemma FailedReviewRefuses(docs: Documents, id: string, trust: Option<Trust>, hash: Hash, i: nat, n: nat)
    requires docs.detail.Some? && docs.evidence.Some? && docs.detail.value.generation.Some?
    requires IsLatest(docs.evidence.value.children, docs.detail.value.generation.value, i)
    requires var child := docs.evidence.value.children[i];
      && child.candidate.Some? && n < |child.candidate.value.reviews|
      && var r := child.candidate.value.reviews[n];
         r.None? || !r.value.pass || r.value.openBlocking || r.value.worker == r.value.reviewer
    ensures !Accepted(docs, id, trust, hash)
  {
    if Accepted(docs, id, trust, hash) {
      AcceptedChildReviewed(docs, id, trust, hash, i);
    }
  }
}
