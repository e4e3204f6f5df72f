/** Two independent reviews compared: when that is possible, and that the report is valid and unbiased by order. */
module ReviewComparison {
  import opened Adjudication
  import opened AdjudicationLaws
  import opened AgreementReport
  import opened RetrievalPool
  import opened Wrappers
  import AgreementReportLaws

  /** The report with the reviewers and the digests of their pools. */
  datatype Comparison = Comparison(
    reviewers: (string, string), reviewHashes: (string, string), report: AgreementReportLaws.Report)

  /** Queries have distinct slices, as their constructor checks. */
  ghost predicate SlicedOnce(p: Pool) {
    forall q, i, j :: q in p.queries && 0 <= i < j < |q.slices| ==> q.slices[i] != q.slices[j]
  }

  lemma {:induction false} RowSlices(qs: seq<PooledQuery>, other: Pool, row: Row)
    requires (forall q | q in qs :: QueryComparable(q, other)) && row in RowsOf(qs, other)
    ensures exists q :: q in qs && row.slices == q.slices
  {
    var before, last := qs[..|qs| - 1], qs[|qs| - 1];
    assert qs == before + [last] && last in qs && QueryComparable(last, other);
    if row in RowsOf(before, other) {
      RowSlices(before, other, row);
    }
  }

  /** What two comparable reviews give are judgments a report can be assembled from. */
  lemma RowsJudged(platform: Platform, first: Pool, second: Pool)
    requires ValidPool(platform, first) && SlicedOnce(first) && Comparable(first, second)
    requires RowsOf(first.queries, second) != []
    ensures AgreementReportLaws.Judged(RowsOf(first.queries, second))
  {
    var rows := RowsOf(first.queries, second);
    RowsGraded(first.queries, second);
    FirstKeysApart(platform, first, second);
    forall row, i, j | row in rows && 0 <= i < j < |row.slices| ensures row.slices[i] != row.slices[j] {
      RowSlices(first.queries, second, row);
      var q :| q in first.queries && row.slices == q.slices;
    }
  }

  /** `compare_independent_retrieval_reviews` on reviews in canonical order. */
  ghost function CompareCanonical(platform: Platform, first: Pool, second: Pool): Result<Comparison, ReviewError>
    requires ValidPool(platform, first) && SlicedOnce(first) && FirstPass(first) && FirstPass(second)
  {
    if !Comparable(first, second) then Failure(ReviewsDiffer)
    else if RowsOf(first.queries, second) == [] then Failure(NothingToCompare)
    else
      RowsJudged(platform, first, second);
      Success(Comparison(
                (first.review.value.reviewer, second.review.value.reviewer), (platform.hash(first), platform.hash(second)),
                AgreementReportLaws.Assembled(RowsOf(first.queries, second))))
  }

  ghost function Compare(platform: Platform, a: Pool, b: Pool): Result<Comparison, ReviewError>
    requires ValidPool(platform, a) && ValidPool(platform, b) && SlicedOnce(a) && SlicedOnce(b)
  {
    match Canonical(platform, a, b)
    case Failure(e) => Failure(e)
    case Success(reviews) => CompareCanonical(platform, reviews.0, reviews.1)
  }

  /** `compare_independent_retrieval_reviews` */
  method CompareReviews(platform: Platform, a: Pool, b: Pool) returns (r: Result<Comparison, ReviewError>)
    requires ValidPool(platform, a) && ValidPool(platform, b) && SlicedOnce(a) && SlicedOnce(b)
    ensures r == Compare(platform, a, b)
  {
    var canonical := Canonical(platform, a, b);
    if canonical.Failure? {
      return Failure(canonical.error);
    }
    var (first, second) := canonical.value;
    if !Comparable(first, second) {
      return Failure(ReviewsDiffer);
    }
    var rows := RowsOf(first.queries, second);
    if rows == [] {
      return Failure(NothingToCompare);
    }
    RowsJudged(platform, first, second);
    var report := AgreementReportLaws.AssembleReport(rows);
    r := Success(Comparison(
                   (first.review.value.reviewer, second.review.value.reviewer),
                   (platform.hash(first), platform.hash(second)), report));
  }

  /** The report's own checks, and those on its two reviewers. */
  ghost predicate ValidComparison(platform: Platform, c: Comparison) {
    && AgreementReportLaws.ValidReport(c.report)
    && platform.fold(c.reviewers.0) != platform.fold(c.reviewers.1)
    && NamesOrdered(platform, c.reviewers.0, c.reviewers.1)
  }

  lemma CanonicalComparisonValid(platform: Platform, first: Pool, second: Pool)
    requires Reviews(platform, first, second) && SlicedOnce(first)
    ensures var r := CompareCanonical(platform, first, second);
            && (r.Success? <==> HasCandidates(first))
            && (r.Success? ==> ValidComparison(platform, r.value))
  {
    ReviewsComparable(platform, first, second);
    NoRows(first.queries, second);
    if RowsOf(first.queries, second) != [] {
      RowsJudged(platform, first, second);
      AgreementReportLaws.ReportValid(RowsOf(first.queries, second));
    }
  }

  /**
   Two pools are compared exactly when they are first-pass reviews of one capture, with some candidate, by
   different reviewers; the report passes every check of its validator, and which pool comes first does
   not matter.
   */
  lemma ComparisonValid(platform: Platform, a: Pool, b: Pool)
    requires ValidPool(platform, a) && ValidPool(platform, b) && SlicedOnce(a) && SlicedOnce(b)
    ensures Compare(platform, b, a) == Compare(platform, a, b)
    ensures Compare(platform, a, b).Success? <==>
              && FirstPass(a) && FirstPass(b) && CaptureOf(a) == CaptureOf(b) && HasCandidates(a)
              && platform.fold(a.review.value.reviewer) != platform.fold(b.review.value.reviewer)
    ensures Compare(platform, a, b).Success? ==> ValidComparison(platform, Compare(platform, a, b).value)
  {
    CanonicalEitherWay(platform, a, b);
    if Canonical(platform, a, b).Success? {
      var (first, second) := Canonical(platform, a, b).value;
      CanonicalComparisonValid(platform, first, second);
      SameCandidates(a, b);
    }
  }

  lemma SomeCandidates(a: Pool, b: Pool)
    requires CaptureOf(a) == CaptureOf(b) && HasCandidates(a)
    ensures HasCandidates(b)
  {
    var q :| q in a.queries && q.candidates != [];
    var i :| 0 <= i < |a.queries| && a.queries[i] == q;
    QueriesAlign(a, b, i);
    assert b.queries[i] in b.queries;
  }

  lemma SameCandidates(a: Pool, b: Pool)
    requires CaptureOf(a) == CaptureOf(b)
    ensures HasCandidates(a) <==> HasCandidates(b)
  {
    if HasCandidates(a) {
      SomeCandidates(a, b);
    } else if HasCandidates(b) {
      SomeCandidates(b, a);
    }
  }
}
