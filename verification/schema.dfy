/** The entities the audit reads, after type coercion, and the wide record
    the join chain builds from them.

    Every column that can be empty in its source file is an `Option`. The
    columns the normaliser rewrites (transaction status and type, and the two
    flags) are never missing after normalisation; they become optional only
    as part of a side that a left-outer join did not match.
 */
module Schema {
  import opened Options

  /** Identifiers as they appear in the source files. */
  type Id = string

  /** A parsed timestamp. `ordinal` is its position on the time line and
      orders timestamps; `year` and `month` (1 to 12) are its calendar fields. */
  datatype Timestamp = Timestamp(year: int, month: int, ordinal: int)

  /** A row of `user_referrals`. */
  datatype Referral = Referral(
    referralId: Option<Id>,
    referrerId: Option<Id>,
    refereeId: Option<Id>,
    referralSource: Option<string>,
    referralAt: Option<Timestamp>,
    updatedAt: Option<Timestamp>,
    statusId: Option<Id>,
    rewardId: Option<Id>,
    transactionId: Option<Id>)

  /** A row of `user_referral_logs` (its `id` column renamed to `referral_details_id`). */
  datatype Detail = Detail(
    referralDetailsId: Option<Id>,
    userReferralId: Option<Id>,
    createdAt: Option<Timestamp>,
    isRewardGranted: bool,
    description: Option<string>)

  /** A row of `user_referral_statuses` (`id` renamed to `status_id`). */
  datatype Status = Status(statusId: Option<Id>, statusLabel: Option<string>)

  /** A row of `referral_rewards` (`id` renamed to `reward_id`); the value is
      missing when it was empty or not a number. */
  datatype Reward = Reward(rewardId: Option<Id>, rewardValue: Option<int>)

  /** A row of `paid_transactions`, with status and type upper-cased. */
  datatype Transaction = Transaction(
    transactionId: Option<Id>,
    transactionStatus: string,
    transactionType: string,
    transactionAt: Option<Timestamp>,
    transactionLocation: Option<string>)

  /** A row of `user_logs`: the referrer's account. */
  datatype UserAccount = UserAccount(
    userId: Option<Id>,
    name: Option<string>,
    phoneNumber: Option<string>,
    homeclub: Option<string>,
    membershipExpiredDate: Option<Timestamp>,
    isDeleted: bool)

  /** A row of `lead_log`. */
  datatype Lead = Lead(
    leadId: Option<Id>,
    sourceCategory: Option<string>,
    refereeName: Option<string>,
    refereePhone: Option<string>)

  /** One row of the joined table: a referral and, for each of the six joins,
      the matched row of that relation or `None` when nothing matched. */
  datatype Joined = Joined(
    referral: Referral,
    detail: Option<Detail>,
    status: Option<Status>,
    reward: Option<Reward>,
    txn: Option<Transaction>,
    referrer: Option<UserAccount>,
    lead: Option<Lead>)
  {
    // The wide table's columns: a column of an unmatched side is missing.

    function ReferralDetailsId(): Option<Id> {
      if detail.Some? then detail.value.referralDetailsId else None
    }

    function CreatedAt(): Option<Timestamp> {
      if detail.Some? then detail.value.createdAt else None
    }

    function Description(): Option<string> {
      if detail.Some? then detail.value.description else None
    }

    function IsRewardGranted(): Option<bool> {
      if detail.Some? then Some(detail.value.isRewardGranted) else None
    }

    function RewardValue(): Option<int> {
      if reward.Some? then reward.value.rewardValue else None
    }

    function TransactionStatus(): Option<string> {
      if txn.Some? then Some(txn.value.transactionStatus) else None
    }

    function TransactionType(): Option<string> {
      if txn.Some? then Some(txn.value.transactionType) else None
    }

    function TransactionAt(): Option<Timestamp> {
      if txn.Some? then txn.value.transactionAt else None
    }

    function TransactionLocation(): Option<string> {
      if txn.Some? then txn.value.transactionLocation else None
    }

    function Name(): Option<string> {
      if referrer.Some? then referrer.value.name else None
    }

    function PhoneNumber(): Option<string> {
      if referrer.Some? then referrer.value.phoneNumber else None
    }

    function Homeclub(): Option<string> {
      if referrer.Some? then referrer.value.homeclub else None
    }

    function MembershipExpiredDate(): Option<Timestamp> {
      if referrer.Some? then referrer.value.membershipExpiredDate else None
    }

    function IsDeleted(): Option<bool> {
      if referrer.Some? then Some(referrer.value.isDeleted) else None
    }

    function SourceCategory(): Option<string> {
      if lead.Some? then lead.value.sourceCategory else None
    }

    function RefereeName(): Option<string> {
      if lead.Some? then lead.value.refereeName else None
    }

    function RefereePhone(): Option<string> {
      if lead.Some? then lead.value.refereePhone else None
    }
  }
}
