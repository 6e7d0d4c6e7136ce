/** The reconciliation report (main.py lines 115-139): the joined table
    projected onto its 21 output columns, keeping only the rows in which
    none of those columns is missing (`dropna`).
 */
module Report {
  import opened Options
  import opened Schema
  import opened Relation
  import Classify
  import Validity

  /** One row of the report, its columns in output order. */
  datatype ReportRow = ReportRow(
    referralDetailsId: Option<Id>,
    referralId: Option<Id>,
    referralSource: Option<string>,
    referralSourceCategory: Option<string>,
    referralAt: Option<Timestamp>,
    referrerId: Option<Id>,
    name: Option<string>,
    phoneNumber: Option<string>,
    homeclub: Option<string>,
    refereeId: Option<Id>,
    refereeName: Option<string>,
    refereePhone: Option<string>,
    description: Option<string>,
    transactionId: Option<Id>,
    transactionStatus: Option<string>,
    transactionAt: Option<Timestamp>,
    transactionLocation: Option<string>,
    transactionType: Option<string>,
    updatedAt: Option<Timestamp>,
    createdAt: Option<Timestamp>,
    isBusinessLogicValid: bool)

  /** The output columns of one joined row, with the two derived columns
      computed. A row with no missing column comes from a referral that
      matched a referral log, a transaction, a referrer account and a lead
      (their columns are among the output columns) and carries one of the
      three recognised source tags; the status and reward joins are not
      needed. A matched transaction never lacks a status or type: the
      normaliser turned missing ones into "NAN". */
  function Project(j: Joined): (row: ReportRow)
    ensures row.referralSourceCategory == Classify.MapSource(j)
    ensures row.isBusinessLogicValid == Validity.IsValid(j)
    ensures Complete(row) ==> j.detail.Some? && j.txn.Some? && j.referrer.Some? && j.lead.Some?
    ensures Complete(row) ==> Classify.KnownTag(j.referral.referralSource)
    ensures j.txn.Some? ==> row.transactionStatus.Some? && row.transactionType.Some?
  {
    ReportRow(
      j.ReferralDetailsId(), j.referral.referralId, j.referral.referralSource, Classify.MapSource(j),
      j.referral.referralAt, j.referral.referrerId, j.Name(), j.PhoneNumber(), j.Homeclub(),
      j.referral.refereeId, j.RefereeName(), j.RefereePhone(), j.Description(), j.referral.transactionId,
      j.TransactionStatus(), j.TransactionAt(), j.TransactionLocation(), j.TransactionType(),
      j.referral.updatedAt, j.CreatedAt(), Validity.IsValid(j))
  }

  /** No output column is missing (the validity column never is). */
  predicate Complete(row: ReportRow)
  {
    && row.referralDetailsId.Some? && row.referralId.Some? && row.referralSource.Some?
    && row.referralSourceCategory.Some? && row.referralAt.Some? && row.referrerId.Some?
    && row.name.Some? && row.phoneNumber.Some? && row.homeclub.Some?
    && row.refereeId.Some? && row.refereeName.Some? && row.refereePhone.Some?
    && row.description.Some? && row.transactionId.Some? && row.transactionStatus.Some?
    && row.transactionAt.Some? && row.transactionLocation.Some? && row.transactionType.Some?
    && row.updatedAt.Some? && row.createdAt.Some?
  }

  /** `dropna`: the complete rows, in their original order, and only those. */
  function DropIncomplete(rows: seq<ReportRow>): (r: seq<ReportRow>)
    ensures forall row :: row in r <==> row in rows && Complete(row)
    ensures IsSubsequence(r, rows)
  {
    FilterIsSubsequence(rows, Complete);
    Filter(rows, Complete)
  }

  /** Dropping incomplete rows a second time changes nothing: same rows, same order. */
  lemma DropIncompleteIdempotent(rows: seq<ReportRow>)
    ensures DropIncomplete(DropIncomplete(rows)) == DropIncomplete(rows)
  {
    FilterIdempotent(rows, Complete);
  }

  /** A complete row is kept as many times as it occurs; an incomplete one never is. */
  lemma DropIncompleteCounts(rows: seq<ReportRow>)
    ensures forall row :: multiset(DropIncomplete(rows))[row] == if Complete(row) then multiset(rows)[row] else 0
  {
    FilterCounts(rows, Complete);
  }

  /** The projected rows of a joined table. */
  function ProjectAll(joined: seq<Joined>): (r: seq<ReportRow>)
    ensures |r| == |joined|
    ensures forall i :: 0 <= i < |joined| ==> r[i] == Project(joined[i])
  {
    seq(|joined|, i requires 0 <= i < |joined| => Project(joined[i]))
  }

  /** The report: exactly the complete projections of the joined rows, in
      the joined table's order. */
  function BuildReport(joined: seq<Joined>): (r: seq<ReportRow>)
    ensures |r| <= |joined|
    ensures forall row :: row in r ==> Complete(row) && exists j :: j in joined && row == Project(j)
    ensures forall j :: j in joined && Complete(Project(j)) ==> Project(j) in r
    ensures IsSubsequence(r, ProjectAll(joined))
  {
    var rows := ProjectAll(joined);
    assert forall row :: row in rows ==> exists j :: j in joined && row == Project(j) by {
      forall row | row in rows
        ensures exists j :: j in joined && row == Project(j)
      {
        var i :| 0 <= i < |rows| && rows[i] == row;
        assert joined[i] in joined;
      }
    }
    assert forall j :: j in joined ==> Project(j) in rows by {
      forall j | j in joined
        ensures Project(j) in rows
      {
        var i :| 0 <= i < |joined| && joined[i] == j;
        assert rows[i] == Project(j);
      }
    }
    DropIncomplete(rows)
  }

  /** Each complete projected row is reported as many times as the joined
      table yields it; an incomplete one never is. */
  lemma BuildReportCounts(joined: seq<Joined>)
    ensures forall row ::
              multiset(BuildReport(joined))[row] == if Complete(row) then multiset(ProjectAll(joined))[row] else 0
  {
    DropIncompleteCounts(ProjectAll(joined));
  }
}
