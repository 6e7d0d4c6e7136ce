/** The whole audit from normalisation to the report's rows (main.py lines
    48-139): normalise, join, classify, validate, project and filter.
 */
module Pipeline {
  import opened Options
  import opened Schema
  import opened Relation
  import opened Normalise
  import opened Join
  import opened Report

  /** The seven relations as loaded, before the enumeration and flag columns are normalised. */
  datatype RawSources = RawSources(
    referrals: seq<Referral>,
    details: seq<RawDetail>,
    statuses: seq<Status>,
    rewards: seq<Reward>,
    transactions: seq<RawTransaction>,
    users: seq<RawUserAccount>,
    leads: seq<Lead>)

  function NormaliseSources(raw: RawSources): (src: Sources)
    ensures src.referrals == raw.referrals && src.statuses == raw.statuses
    ensures src.rewards == raw.rewards && src.leads == raw.leads
    ensures |src.details| == |raw.details| && |src.transactions| == |raw.transactions| && |src.users| == |raw.users|
    ensures forall i :: 0 <= i < |raw.details| ==> src.details[i] == NormaliseDetail(raw.details[i])
    ensures forall i :: 0 <= i < |raw.transactions| ==> src.transactions[i] == NormaliseTransaction(raw.transactions[i])
    ensures forall i :: 0 <= i < |raw.users| ==> src.users[i] == NormaliseUserAccount(raw.users[i])
  {
    Sources(raw.referrals, NormaliseDetails(raw.details), raw.statuses, raw.rewards,
            NormaliseTransactions(raw.transactions), NormaliseUserAccounts(raw.users), raw.leads)
  }

  /** The rows written to the report. Each is complete, and is the
      projection of a sound joined row: a referral of the input together with
      the rows of the other relations its keys select. Every joined row whose
      projection is complete is reported, as often as the join yields it and
      in the joined table's order. */
  function Run(raw: RawSources): (r: seq<ReportRow>)
    ensures forall row :: row in r ==> Complete(row)
    ensures forall row :: row in r ==>
      exists j :: j in JoinAll(NormaliseSources(raw)) && row == Project(j) && Sound(NormaliseSources(raw), j)
    ensures forall j :: j in JoinAll(NormaliseSources(raw)) && Complete(Project(j)) ==> Project(j) in r
    ensures IsSubsequence(r, ProjectAll(JoinAll(NormaliseSources(raw))))
    ensures forall row ::
              multiset(r)[row] == if Complete(row) then multiset(ProjectAll(JoinAll(NormaliseSources(raw))))[row] else 0
  {
    var src := NormaliseSources(raw);
    JoinAllSound(src);
    BuildReportCounts(JoinAll(src));
    BuildReport(JoinAll(src))
  }

  /** Every reported referral id is the id of an input referral. */
  lemma RunReportsInputReferrals(raw: RawSources)
    ensures forall row :: row in Run(raw) ==> exists x :: x in raw.referrals && row.referralId == x.referralId
  {
  }

  /** A transaction status in the joined table is the upper-cased status,
      as read, of an input transaction bearing the referral's transaction id:
      a lower-case "paid" in the source file reads as "PAID", a missing one
      as "NAN". */
  lemma JoinedStatusIsNormalised(raw: RawSources, j: Joined)
    requires j in JoinAll(NormaliseSources(raw)) && j.txn.Some?
    ensures exists t :: t in raw.transactions && t.transactionId == j.referral.transactionId
                        && j.TransactionStatus() == Some(NormaliseEnum(t.transactionStatus))
  {
    var src := NormaliseSources(raw);
    JoinedTransactionIsInput(src, j);
    NormalisedFrom(raw.transactions, j.txn.value);
  }

  /** A normalised transaction comes from a raw one with the same id. */
  lemma NormalisedFrom(raws: seq<RawTransaction>, t: Transaction)
    requires t in NormaliseTransactions(raws)
    ensures exists rt :: rt in raws && rt.transactionId == t.transactionId
                         && t.transactionStatus == NormaliseEnum(rt.transactionStatus)
  {
  }

  /** Running the completeness filter on the report again keeps every row. */
  lemma RunIsFiltered(raw: RawSources)
    ensures DropIncomplete(Run(raw)) == Run(raw)
  {
    FilterKeepsSatisfying(Run(raw), Complete);
  }
}
