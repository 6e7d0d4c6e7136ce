/** The validity rule `is_valid` (main.py lines 84-110): whether a joined
    referral's reward handling complies with the payout policy.

    The source evaluates the rule inside a catch-all handler that answers
    false on any fault. Here every column that might be missing is an
    `Option`, and each comparison is false when an operand is missing (as a
    comparison with NaN or NaT is), so the rule is a total function and the
    handler has nothing left to catch.
 */
module Validity {
  import opened Options
  import opened Schema

  /** `a > b` on timestamps that may be NaT: false when either is missing. */
  predicate Later(a: Option<Timestamp>, b: Option<Timestamp>)
  {
    a.Some? && b.Some? && a.value.ordinal > b.value.ordinal
  }

  /** `a.month == b.month`: the month of NaT is NaN, which equals nothing.
      Only the month of the year is compared, not the year. */
  predicate SameMonth(a: Option<Timestamp>, b: Option<Timestamp>)
  {
    a.Some? && b.Some? && a.value.month == b.value.month
  }

  /** Valid case 1: a reward that was granted, and granted by the policy. */
  predicate GrantedCompliant(j: Joined)
  {
    && j.RewardValue().Some? && j.RewardValue().value > 0
    && j.Description() == Some("Berhasil")
    && j.referral.transactionId.Some?
    && j.TransactionStatus() == Some("PAID")
    && j.TransactionType() == Some("NEW")
    && Later(j.TransactionAt(), j.referral.referralAt)
    && SameMonth(j.TransactionAt(), j.referral.referralAt)
    && Later(j.MembershipExpiredDate(), j.referral.referralAt)
    && j.IsDeleted() == Some(false)
    && j.IsRewardGranted() == Some(true)
  }

  /** Valid case 2: no reward, and the log says the referral is pending or failed. */
  predicate UngrantedCompliant(j: Joined)
  {
    && (j.Description() == Some("Menunggu") || j.Description() == Some("Tidak Berhasil"))
    && j.RewardValue().None?
  }

  /** The `is_business_logic_valid` column. With a reward present only case 1
      can hold; without one, the verdict is decided by the log's description. */
  function IsValid(j: Joined): (r: bool)
    ensures j.RewardValue().Some? ==> (r <==> GrantedCompliant(j))
    ensures j.RewardValue().None? ==> (r <==> j.Description() in {Some("Menunggu"), Some("Tidak Berhasil")})
  {
    GrantedCompliant(j) || UngrantedCompliant(j)
  }

  /** The two cases never hold together: case 1 needs a reward, case 2 needs none. */
  lemma CasesExclusive(j: Joined)
    ensures !(GrantedCompliant(j) && UngrantedCompliant(j))
  {
  }

  /** A pending or failed referral without a reward is valid, whatever its
      transaction, referrer account or flags hold. */
  lemma UngrantedValidWhateverElse(j: Joined, t: Option<Transaction>, u: Option<UserAccount>, g: bool)
    requires j.Description() == Some("Menunggu") || j.Description() == Some("Tidak Berhasil")
    requires j.RewardValue().None?
    ensures IsValid(j)
    ensures IsValid(j.(txn := t, referrer := u))
    ensures IsValid(j.(detail := Some(j.detail.value.(isRewardGranted := g))))
  {
  }

  /** A present reward is valid only when the log says "Berhasil": with a
      "Menunggu" (or any other) description it fails both cases. */
  lemma RewardNeedsSuccess(j: Joined)
    requires j.RewardValue().Some?
    requires j.Description() != Some("Berhasil")
    ensures !IsValid(j)
  {
  }

  /** A missing referral, transaction or membership-expiry timestamp rules
      out case 1, so the verdict is case 2's alone. */
  lemma MissingTimestampLeavesCase2(j: Joined)
    requires j.referral.referralAt.None? || j.TransactionAt().None? || j.MembershipExpiredDate().None?
    ensures IsValid(j) <==> UngrantedCompliant(j)
  {
  }

  /** A referral whose transaction or referrer account found no match (so the
      status, type, timestamps and `is_deleted` flag are all missing) can
      only be valid by case 2; one without a referral log is never valid. */
  lemma UnmatchedSideLeavesCase2(j: Joined)
    ensures j.txn.None? || j.referrer.None? ==> (IsValid(j) <==> UngrantedCompliant(j))
    ensures j.detail.None? ==> !IsValid(j)
  {
  }

  /** Case 1 fixes the timing: the transaction is strictly after the referral,
      in the same month of the year, and the membership outlasts the referral. */
  lemma GrantedTiming(j: Joined)
    requires GrantedCompliant(j)
    ensures j.TransactionAt().Some? && j.referral.referralAt.Some?
    ensures j.TransactionAt().value.ordinal > j.referral.referralAt.value.ordinal
    ensures j.TransactionAt().value.month == j.referral.referralAt.value.month
    ensures j.MembershipExpiredDate().Some?
    ensures j.MembershipExpiredDate().value.ordinal > j.referral.referralAt.value.ordinal
  {
  }

  /** The record `j` with its transaction's timestamp replaced. */
  function WithTransactionAt(j: Joined, t: Timestamp): Joined
    requires j.txn.Some?
  {
    j.(txn := Some(j.txn.value.(transactionAt := Some(t))))
  }

  /** The month check compares the month of the year only: moving a compliant
      transaction to any later time in the same month of the year, however
      many years later, keeps the referral valid. */
  lemma MonthCheckIgnoresYear(j: Joined, t: Timestamp)
    requires GrantedCompliant(j)
    requires t.month == j.TransactionAt().value.month
    requires t.ordinal > j.referral.referralAt.value.ordinal
    ensures IsValid(WithTransactionAt(j, t))
  {
  }

  // ---------------------------------------------------------------------------
  // Worked examples
  // ---------------------------------------------------------------------------

  /** A referral with the given time, reward, description and transaction
      time, a paid new transaction, a granted flag, and an undeleted referrer
      whose membership runs to 13 February 2025. Ordinals count days from
      10 January 2024. */
  function Sample(reward: Option<int>, description: string, at: Option<Timestamp>, referralAt: Option<Timestamp>): Joined
  {
    Joined(
      Referral(Some("R1"), Some("U1"), Some("L1"), Some("User Sign Up"), referralAt, None,
               Some("S1"), Some("W1"), Some("T1")),
      Some(Detail(Some("D1"), Some("R1"), None, true, Some(description))),
      Some(Status(Some("S1"), None)),
      Some(Reward(Some("W1"), reward)),
      Some(Transaction(Some("T1"), "PAID", "NEW", at, None)),
      Some(UserAccount(Some("U1"), None, None, None, Some(Timestamp(2025, 2, 400)), false)),
      Some(Lead(Some("L1"), None, None, None)))
  }

  const Jan10: Timestamp := Timestamp(2024, 1, 0)
  const Jan20: Timestamp := Timestamp(2024, 1, 10)
  const Feb20: Timestamp := Timestamp(2024, 2, 41)
  const NextJan20: Timestamp := Timestamp(2025, 1, 376)

  /** The worked examples: a compliant grant is valid; the same grant a month
      later is not; a reward with a pending description is not; a pending
      referral without reward is valid; a missing referral time makes a grant
      invalid without any fault; a transaction a year later passes. */
  lemma WorkedExamples()
    ensures IsValid(Sample(Some(50000), "Berhasil", Some(Jan20), Some(Jan10)))
    ensures !IsValid(Sample(Some(50000), "Berhasil", Some(Feb20), Some(Jan10)))
    ensures !IsValid(Sample(Some(1000), "Menunggu", Some(Jan20), Some(Jan10)))
    ensures IsValid(Sample(None, "Menunggu", None, Some(Jan10)))
    ensures !IsValid(Sample(Some(50000), "Berhasil", Some(Jan20), None))
    ensures IsValid(Sample(Some(50000), "Berhasil", Some(NextJan20), Some(Jan10)))
  {
  }
}
