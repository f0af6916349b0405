/** One official tier: the retry machine, then the audit of what it selected, then the status that both
    the record and the exit code report. */
module OfficialTier {
  import opened Models
  import opened Options
  import opened Attempts
  import opened IdOrderAudit
  import opened StructuralBudget
  import Team = TeamAllocator

  datatype TierOutcome = TierOutcome(retry: RetryOutcome, audit: Option<AuditOutcome>)

  datatype TierResult =
    | Finished(outcome: TierOutcome)
    | PendingResources(attemptId: nat)
    | JournalUnreadable
    | ImageUnavailable
    | ImageTooLarge
    | Rejected

  /** What is found of a cleanup journal in one of the tier's two directories. */
  datatype JournalLook = NoJournal | JournalOf(attemptId: nat) | Unreadable

  /** The resolved image: whether all its references are immutable, and its two sizes. */
  datatype Image = Image(immutable: bool, layerBytes: int, rootfsBytes: int)

  const MAX_LAYER_BYTES: int := 1024 * 1024 * 1024
  const MAX_ROOTFS_BYTES: int := 2 * 1024 * 1024 * 1024

  datatype Status =
    | InfrastructureUnavailable
    | Disqualified
    | TierScoreZero
    | ReviewRequiredStatus
    | AuditInconclusive
    | AuditSkipped
    | ValidStatus

  /** `_official_tier_status`. */
  function TierStatus(o: TierOutcome): Status {
    if o.retry.infrastructureUnavailable then InfrastructureUnavailable
    else if o.retry.disqualified then Disqualified
    else if o.retry.tierScoreZero then TierScoreZero
    else if o.audit.Some? && o.audit.value.status.ReviewRequired? then ReviewRequiredStatus
    else if o.audit.Some? && o.audit.value.status.InconclusiveInfrastructure? then AuditInconclusive
    else if o.audit.None? then AuditSkipped
    else ValidStatus
  }

  /** What a journal found in a directory makes of the tier. */
  function JournalRefusal(look: JournalLook): Option<TierResult> {
    match look
    case NoJournal => None
    case JournalOf(attemptId) => Some(PendingResources(attemptId))
    case Unreadable => Some(JournalUnreadable)
  }

  /** What else stops a tier before its first run, if anything; the sizes are checked one after the other. */
  function ImageRefusal(image: Option<Image>): Option<TierResult> {
    if image.None? || !image.value.immutable || image.value.layerBytes < 0 then Some(ImageUnavailable)
    else if image.value.layerBytes > MAX_LAYER_BYTES then Some(ImageTooLarge)
    else if image.value.rootfsBytes < 0 then Some(ImageUnavailable)
    else if image.value.rootfsBytes > MAX_ROOTFS_BYTES then Some(ImageTooLarge)
    else None
  }

  /** A refused image is no image, a mutable one, or one with a size out of range. */
  lemma RefusedExactly(image: Option<Image>)
    ensures ImageRefusal(image).None? <==>
            image.Some? && image.value.immutable
            && 0 <= image.value.layerBytes <= MAX_LAYER_BYTES && 0 <= image.value.rootfsBytes <= MAX_ROOTFS_BYTES
    ensures ImageRefusal(image) == Some(ImageTooLarge) <==>
            image.Some? && image.value.immutable
            && (image.value.layerBytes > 1_073_741_824
                || (0 <= image.value.layerBytes && image.value.rootfsBytes > 2_147_483_648))
    ensures ImageRefusal(image).Some? ==> ImageRefusal(image).value in {ImageTooLarge, ImageUnavailable}
  {
  }

  function Runs(audited: (Variant, nat) -> AttemptResult, variant: Variant): nat -> AttemptResult {
    (n: nat) => audited(variant, n)
  }

  /** The audit ran on the secret's scramble of the official inputs against the selected submission. */
  ghost predicate AuditedOnScramble(inputs: seq<Episode>, secret: seq<nat>, digest: Digest, selected: Submission,
                                    audited: (Variant, nat) -> AttemptResult, o: AuditOutcome) {
    exists variant: Variant, cycle: seq<nat>, order: seq<nat> ::
      Scrambles(inputs, variant, cycle, order) && Keyed(inputs, secret, digest, cycle, order)
      && Audited(variant, selected, Runs(audited, variant), 3, o)
  }

  /** A finished tier is its runs' doing. */
  ghost predicate Follows(inputs: seq<Episode>, official: (nat, nat) -> AttemptResult,
                          audited: (Variant, nat) -> AttemptResult, auditEnabled: bool, secret: seq<nat>,
                          digest: Digest, o: TierOutcome) {
    && Justified(official, o.retry, 3, 3)
    && (o.audit.Some? <==> auditEnabled && o.retry.selectedSubmission.Some?)
    && (o.audit.Some? ==>
          AuditedOnScramble(inputs, secret, digest, o.retry.selectedSubmission.value, audited, o.audit.value))
  }

  /** Valid runs carry their submission. */
  ghost predicate Answers(official: (nat, nat) -> AttemptResult) {
    forall i: nat, n: nat :: official(i, n).kind.Valid? ==> official(i, n).submission.Some?
  }

  /** `_run_official_tier_locked` with its default bounds of 3 and 3. `official` and `audited` answer
      the container runs; `looks` is what was found in the official and in the audit directory. */
  method RunTier(inputs: seq<Episode>, official: (nat, nat) -> AttemptResult, audited: (Variant, nat) -> AttemptResult,
                 looks: (JournalLook, JournalLook), image: Option<Image>, auditEnabled: bool, secret: seq<nat>,
                 digest: Digest)
    returns (r: TierResult)
    requires forall i: nat, n: nat :: Covering(official(i, n), inputs)
    requires forall variant: Variant, n: nat :: Covering(audited(variant, n), variant.episodes)
    ensures !looks.0.NoJournal? ==> Some(r) == JournalRefusal(looks.0)
    ensures looks.0.NoJournal? && !looks.1.NoJournal? ==> Some(r) == JournalRefusal(looks.1)
    ensures looks == (NoJournal, NoJournal) && ImageRefusal(image).Some? ==> r == ImageRefusal(image).value
    ensures looks == (NoJournal, NoJournal) ==>
              (r.ImageTooLarge? <==>
                 image.Some? && image.value.immutable
                 && (image.value.layerBytes > 1_073_741_824
                     || (0 <= image.value.layerBytes && image.value.rootfsBytes > 2_147_483_648)))
    ensures looks == (NoJournal, NoJournal) && ImageRefusal(image).None? && Answers(official)
            && (auditEnabled ==> |secret| >= 16) ==>
              r.Finished?
    ensures r.Finished? ==>
              image.Some? && image.value.immutable
              && 0 <= image.value.layerBytes <= 1_073_741_824 && 0 <= image.value.rootfsBytes <= 2_147_483_648
    ensures r.Finished? ==>
              looks == (NoJournal, NoJournal) &&
              var o := r.outcome;
              && Follows(inputs, official, audited, auditEnabled, secret, digest, o)
              && (o.audit.Some? ==> |secret| >= 16)
              && (TierStatus(o).ValidStatus? <==>
                    (o.retry.selectedSubmission.Some? && o.audit.Some? && o.audit.value.status.Passed?))
              && (TierStatus(o).AuditSkipped? <==> o.retry.selectedSubmission.Some? && !auditEnabled)
  {
    hide Justified, Scrambles, Keyed, Audited, Differences, Validated, CoversInputs, Covering, OnlyInfrastructure;
    if JournalRefusal(looks.0).Some? {
      return JournalRefusal(looks.0).value;
    }
    if JournalRefusal(looks.1).Some? {
      return JournalRefusal(looks.1).value;
    }
    RefusedExactly(image);
    if ImageRefusal(image).Some? {
      return ImageRefusal(image).value;
    }
    var retried := RunWithRetry(official, 3, 3);
    if !retried.Retried? {
      return Rejected;
    }
    var retry := retried.outcome;
    Verdicts(official, retry);
    var audit := None;
    if auditEnabled && retry.selectedSubmission.Some? {
      var made, cycle, order := MakeVariant(inputs, secret, digest);
      if made.SecretTooShort? {
        return Rejected;
      }
      var selected := retry.selectedSubmission.value;
      SelectedCovers(inputs, official, retry);
      var attempt := Runs(audited, made.variant);
      forall n: nat
        ensures Validated(attempt(n), made.variant, selected)
      {
        ScrambleCovered(inputs, made.variant, cycle, order, selected, attempt(n));
      }
      var outcome := RunAudit(made.variant, selected, attempt, 3);
      audit := Some(outcome);
    }
    return Finished(TierOutcome(retry, audit));
  }

  /** A submission that reached the operator was validated against the inputs of its run. */
  ghost predicate Covering(result: AttemptResult, inputs: seq<Episode>) {
    result.submission.Some? ==> CoversInputs(inputs, result.submission.value)
  }

  lemma ScrambleCovered(inputs: seq<Episode>, variant: Variant, cycle: seq<nat>, order: seq<nat>,
                        selected: Submission, result: AttemptResult)
    requires Scrambles(inputs, variant, cycle, order)
    requires CoversInputs(inputs, selected) && Covering(result, variant.episodes)
    ensures Validated(result, variant, selected)
  {
    if result.submission.Some? {
      forall i | 0 <= i < |variant.mapping|
        ensures variant.mapping[i].0 in selected && variant.mapping[i].1 in result.submission.value
      {
        assert inputs[i].id in selected;
        assert i in order;
        var k :| 0 <= k < |order| && order[k] == i;
        assert variant.episodes[k].id in result.submission.value;
      }
    }
  }

  ghost predicate CoversInputs(inputs: seq<Episode>, submission: Submission) {
    forall i :: 0 <= i < |inputs| ==> inputs[i].id in submission
  }

  lemma Verdicts(official: (nat, nat) -> AttemptResult, o: RetryOutcome)
    requires Justified(official, o, 3, 3)
    ensures o.selectedSubmission.Some? <==> !o.infrastructureUnavailable && !o.disqualified && !o.tierScoreZero
  {
    hide Justified, Stops;
    ExactlyOneVerdict(official, o, 3, 3);
  }

  lemma SelectedCovers(inputs: seq<Episode>, official: (nat, nat) -> AttemptResult, o: RetryOutcome)
    requires Justified(official, o, 3, 3) && o.selectedSubmission.Some?
    requires forall i: nat, n: nat :: Covering(official(i, n), inputs)
    ensures CoversInputs(inputs, o.selectedSubmission.value)
  {
    hide CoversInputs;
    ReplaysAt(official, o.history, |o.history| - 1);
  }

  /** Each status from the last official run, whether an audit was due, and the last audit run. */
  lemma StatusExactly(inputs: seq<Episode>, official: (nat, nat) -> AttemptResult,
                      audited: (Variant, nat) -> AttemptResult, auditEnabled: bool, secret: seq<nat>,
                      digest: Digest, o: TierOutcome)
    requires Follows(inputs, official, audited, auditEnabled, secret, digest, o)
    ensures |o.retry.history| > 0 && (o.audit.Some? ==> |o.audit.value.history| > 0)
    ensures var last, status := o.retry.history[|o.retry.history| - 1].kind, TierStatus(o);
            && (status.InfrastructureUnavailable? <==> last.InfrastructureFailure?)
            && (status.Disqualified? <==> last.FairnessViolation?)
            && (status.TierScoreZero? <==> last.ExecutionFailure?)
            && (status.AuditSkipped? <==> last.Valid? && !auditEnabled)
            && (last.Valid? && auditEnabled ==>
                  && o.audit.Some?
                  && var run := o.audit.value.history[|o.audit.value.history| - 1];
                     && (status.AuditInconclusive? <==> run.kind.InfrastructureFailure?)
                     && (status.ValidStatus? <==>
                           run.kind.Valid? && run.submission.Some? && o.audit.value.mismatches == []))
  {
    hide Replays, Executions, InfrastructureFailures, Scrambles, Keyed, Validated, Differences;
    if o.audit.Some? {
      var selected, audit := o.retry.selectedSubmission.value, o.audit.value;
      var variant, cycle, order :|
        Scrambles(inputs, variant, cycle, order) && Keyed(inputs, secret, digest, cycle, order)
        && Audited(variant, selected, Runs(audited, variant), 3, audit);
      assert audit.history[|audit.history| - 1] == Runs(audited, variant)(|audit.history|);
    }
  }

  /** A valid status stands on a valid audit run on a scramble of the inputs, without a difference. */
  lemma ValidMeansCompared(inputs: seq<Episode>, official: (nat, nat) -> AttemptResult,
                           audited: (Variant, nat) -> AttemptResult, auditEnabled: bool, secret: seq<nat>,
                           digest: Digest, o: TierOutcome)
    requires Follows(inputs, official, audited, auditEnabled, secret, digest, o) && TierStatus(o).ValidStatus?
    ensures exists variant: Variant, cycle: seq<nat>, order: seq<nat>, n: nat ::
              && Scrambles(inputs, variant, cycle, order) && Keyed(inputs, secret, digest, cycle, order)
              && Validated(audited(variant, n), variant, o.retry.selectedSubmission.value)
              && audited(variant, n).kind.Valid? && audited(variant, n).submission.Some?
              && Differences(variant.mapping, o.retry.selectedSubmission.value,
                             audited(variant, n).submission.value) == []
  {
    hide Justified, Scrambles, Keyed, Validated, Differences;
    var selected, audit := o.retry.selectedSubmission.value, o.audit.value;
    var variant, cycle, order :|
      Scrambles(inputs, variant, cycle, order) && Keyed(inputs, secret, digest, cycle, order)
      && Audited(variant, selected, Runs(audited, variant), 3, audit);
    var n := |audit.history|;
    assert Runs(audited, variant)(n) == audited(variant, n);
  }

  /** Every valid official run is the team router's submission on the inputs, and every audit run the team
      router's on the variant, operator failures aside. */
  ghost predicate RunsRouter(inputs: seq<Episode>, official: (nat, nat) -> AttemptResult,
                             audited: (Variant, nat) -> AttemptResult, predict: Content -> Team.Row, s: Team.Settings)
    requires Predictor(predict) && Distinct(Ids(inputs))
  {
    && (forall i: nat, n: nat :: official(i, n).kind.Valid? ==>
          official(i, n).submission == Some(RouterSubmission(inputs, predict, s)))
    && (forall variant: Variant, n: nat :: Distinct(Ids(variant.episodes)) ==>
          audited(variant, n).kind.InfrastructureFailure?
          || (audited(variant, n).kind.Valid?
              && audited(variant, n).submission == Some(RouterSubmission(variant.episodes, predict, s))))
  }

  /** A finished tier of the team router is never sent to review: its audit passes or stays inconclusive. */
  lemma TeamRouterNeverReviewed(inputs: seq<Episode>, official: (nat, nat) -> AttemptResult,
                                audited: (Variant, nat) -> AttemptResult, auditEnabled: bool, secret: seq<nat>,
                                digest: Digest, o: TierOutcome, predict: Content -> Team.Row, s: Team.Settings)
    requires Predictor(predict) && Distinct(Ids(inputs))
    requires Follows(inputs, official, audited, auditEnabled, secret, digest, o)
    requires RunsRouter(inputs, official, audited, predict, s)
    ensures !TierStatus(o).ReviewRequiredStatus?
    ensures o.audit.Some? ==> o.audit.value.mismatches == [] && !o.audit.value.status.ReviewRequired?
  {
    hide Scrambles, Keyed, Validated, Differences, Predictor, RouterSubmission, Distinct, CoversMapping;
    if o.audit.Some? {
      SelectedIsRouters(inputs, official, audited, o.retry, predict, s);
      var selected, audit := o.retry.selectedSubmission.value, o.audit.value;
      var variant, cycle, order :|
        Scrambles(inputs, variant, cycle, order) && Keyed(inputs, secret, digest, cycle, order)
      && Audited(variant, selected, Runs(audited, variant), 3, audit);
      RouterPassesAudit(inputs, variant, cycle, order, predict, s);
      assert Runs(audited, variant)(|audit.history|) == audited(variant, |audit.history|);
    }
  }

  lemma SelectedIsRouters(inputs: seq<Episode>, official: (nat, nat) -> AttemptResult,
                          audited: (Variant, nat) -> AttemptResult, retry: RetryOutcome,
                          predict: Content -> Team.Row, s: Team.Settings)
    requires Predictor(predict) && Distinct(Ids(inputs))
    requires Justified(official, retry, 3, 3) && retry.selectedSubmission.Some?
    requires RunsRouter(inputs, official, audited, predict, s)
    ensures retry.selectedSubmission == Some(RouterSubmission(inputs, predict, s))
  {
    hide Predictor, RouterSubmission, Distinct;
    ReplaysAt(official, retry.history, |retry.history| - 1);
  }
}
