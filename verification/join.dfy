/** The join chain (main.py lines 61-69): six left-outer joins anchored on
    the referrals, each adding one relation's row (or a missing side) to the
    growing record.

    Keys on both sides are optional and compared with `==`, so a missing
    key matches a missing key, as in a pandas merge.
 */
module Join {
  import opened Options
  import opened Schema
  import opened Relation

  /** The seven normalised input relations. */
  datatype Sources = Sources(
    referrals: seq<Referral>,
    details: seq<Detail>,
    statuses: seq<Status>,
    rewards: seq<Reward>,
    transactions: seq<Transaction>,
    users: seq<UserAccount>,
    leads: seq<Lead>)

  // The join keys: the left-hand key read from the referral, the right-hand
  // key read from the joined relation's row.

  function ReferralIdOf(r: Referral): Option<Id> { r.referralId }
  function DetailKey(d: Detail): Option<Id> { d.userReferralId }
  function StatusRef(j: Joined): Option<Id> { j.referral.statusId }
  function StatusKey(s: Status): Option<Id> { s.statusId }
  function RewardRef(j: Joined): Option<Id> { j.referral.rewardId }
  function RewardKey(w: Reward): Option<Id> { w.rewardId }
  function TransactionRef(j: Joined): Option<Id> { j.referral.transactionId }
  function TransactionKey(t: Transaction): Option<Id> { t.transactionId }
  function ReferrerRef(j: Joined): Option<Id> { j.referral.referrerId }
  function UserKey(u: UserAccount): Option<Id> { u.userId }
  function RefereeRef(j: Joined): Option<Id> { j.referral.refereeId }
  function LeadKey(l: Lead): Option<Id> { l.leadId }

  // Storing one join's right side in the record.

  function SetStatus(j: Joined, s: Option<Status>): Joined { j.(status := s) }
  function SetReward(j: Joined, w: Option<Reward>): Joined { j.(reward := w) }
  function SetTransaction(j: Joined, t: Option<Transaction>): Joined { j.(txn := t) }
  function SetReferrer(j: Joined, u: Option<UserAccount>): Joined { j.(referrer := u) }
  function SetLead(j: Joined, l: Option<Lead>): Joined { j.(lead := l) }

  /** First join: referrals with their referral logs. */
  function DetailJoin(src: Sources): seq<(Referral, Option<Detail>)>
  {
    LeftJoin(src.referrals, src.details, ReferralIdOf, DetailKey)
  }

  /** The first join's rows as wide records whose later sides are not joined yet. */
  function Seed(pairs: seq<(Referral, Option<Detail>)>): (r: seq<Joined>)
    ensures |r| == |pairs|
    ensures forall i :: 0 <= i < |pairs| ==> r[i].referral == pairs[i].0 && r[i].detail == pairs[i].1
  {
    seq(|pairs|, i requires 0 <= i < |pairs| => Joined(pairs[i].0, pairs[i].1, None, None, None, None, None))
  }

  /** The whole chain: referral logs, statuses, rewards, transactions,
      referrer accounts and leads, in that order. */
  function JoinAll(src: Sources): (r: seq<Joined>)
    ensures |r| >= |src.referrals|
  {
    var j1 := Seed(DetailJoin(src));
    var j2 := LeftJoinWith(j1, src.statuses, StatusRef, StatusKey, SetStatus);
    var j3 := LeftJoinWith(j2, src.rewards, RewardRef, RewardKey, SetReward);
    var j4 := LeftJoinWith(j3, src.transactions, TransactionRef, TransactionKey, SetTransaction);
    var j5 := LeftJoinWith(j4, src.users, ReferrerRef, UserKey, SetReferrer);
    LeftJoinWith(j5, src.leads, RefereeRef, LeadKey, SetLead)
  }

  // ---------------------------------------------------------------------------
  // What every joined row satisfies
  // ---------------------------------------------------------------------------

  predicate DetailOk(src: Sources, j: Joined) {
    PairedWith(Matches(src.details, DetailKey, j.referral.referralId), j.detail)
  }

  predicate StatusOk(src: Sources, j: Joined) {
    PairedWith(Matches(src.statuses, StatusKey, j.referral.statusId), j.status)
  }

  predicate RewardOk(src: Sources, j: Joined) {
    PairedWith(Matches(src.rewards, RewardKey, j.referral.rewardId), j.reward)
  }

  predicate TransactionOk(src: Sources, j: Joined) {
    PairedWith(Matches(src.transactions, TransactionKey, j.referral.transactionId), j.txn)
  }

  predicate ReferrerOk(src: Sources, j: Joined) {
    PairedWith(Matches(src.users, UserKey, j.referral.referrerId), j.referrer)
  }

  predicate LeadOk(src: Sources, j: Joined) {
    PairedWith(Matches(src.leads, LeadKey, j.referral.refereeId), j.lead)
  }

  /** A joined row is sound when its referral is an input referral and each
      side is a row of its relation with the referral's key, or is missing
      because that relation has no such row. */
  predicate Sound(src: Sources, j: Joined) {
    && j.referral in src.referrals
    && DetailOk(src, j) && StatusOk(src, j) && RewardOk(src, j)
    && TransactionOk(src, j) && ReferrerOk(src, j) && LeadOk(src, j)
  }

  /** Every row of the joined table is sound, whatever the inputs (duplicate keys included). */
  lemma JoinAllSound(src: Sources)
    ensures forall y :: y in JoinAll(src) ==> Sound(src, y)
  {
    var j1 := Seed(DetailJoin(src));
    var j2 := LeftJoinWith(j1, src.statuses, StatusRef, StatusKey, SetStatus);
    var j3 := LeftJoinWith(j2, src.rewards, RewardRef, RewardKey, SetReward);
    var j4 := LeftJoinWith(j3, src.transactions, TransactionRef, TransactionKey, SetTransaction);
    var j5 := LeftJoinWith(j4, src.users, ReferrerRef, UserKey, SetReferrer);
    var j6 := LeftJoinWith(j5, src.leads, RefereeRef, LeadKey, SetLead);
    assert JoinAll(src) == j6;
    forall y | y in j1
      ensures y.referral in src.referrals && DetailOk(src, y)
    {
      var i :| 0 <= i < |j1| && j1[i] == y;
    }
    forall y | y in j2
      ensures y.referral in src.referrals && DetailOk(src, y) && StatusOk(src, y)
    {
      var x, o :| x in j1 && PairedWith(Matches(src.statuses, StatusKey, StatusRef(x)), o) && y == SetStatus(x, o);
    }
    forall y | y in j3
      ensures y.referral in src.referrals && DetailOk(src, y) && StatusOk(src, y) && RewardOk(src, y)
    {
      var x, o :| x in j2 && PairedWith(Matches(src.rewards, RewardKey, RewardRef(x)), o) && y == SetReward(x, o);
    }
    forall y | y in j4
      ensures y.referral in src.referrals && DetailOk(src, y) && StatusOk(src, y) && RewardOk(src, y)
      ensures TransactionOk(src, y)
    {
      var x, o :| x in j3 && PairedWith(Matches(src.transactions, TransactionKey, TransactionRef(x)), o)
                  && y == SetTransaction(x, o);
    }
    forall y | y in j5
      ensures y.referral in src.referrals && DetailOk(src, y) && StatusOk(src, y) && RewardOk(src, y)
      ensures TransactionOk(src, y) && ReferrerOk(src, y)
    {
      var x, o :| x in j4 && PairedWith(Matches(src.users, UserKey, ReferrerRef(x)), o) && y == SetReferrer(x, o);
    }
    forall y | y in j6
      ensures Sound(src, y)
    {
      var x, o :| x in j5 && PairedWith(Matches(src.leads, LeadKey, RefereeRef(x)), o) && y == SetLead(x, o);
    }
  }

  /** A referral and any correct referral-log side form a row of the first join. */
  lemma SeedComplete(src: Sources, r: Referral, d: Option<Detail>)
    requires r in src.referrals && PairedWith(Matches(src.details, DetailKey, r.referralId), d)
    ensures Joined(r, d, None, None, None, None, None) in Seed(DetailJoin(src))
  {
    var pairs := DetailJoin(src);
    LeftJoinComplete(src.referrals, src.details, ReferralIdOf, DetailKey);
    assert (r, d) in pairs;
    var i :| 0 <= i < |pairs| && pairs[i] == (r, d);
    assert Seed(pairs)[i] == Joined(r, d, None, None, None, None, None);
  }

  /** One join step keeps a left row with any correct right side attached. */
  lemma StepComplete<R(!new)>(left: seq<Joined>, right: seq<R>, keyL: Joined -> Option<Id>,
                              keyR: R -> Option<Id>, attach: (Joined, Option<R>) -> Joined,
                              x: Joined, o: Option<R>)
    requires x in left && PairedWith(Matches(right, keyR, keyL(x)), o)
    ensures attach(x, o) in LeftJoinWith(left, right, keyL, keyR, attach)
  {
    LeftJoinWithComplete(left, right, keyL, keyR, attach);
  }

  /** The converse of JoinAllSound: every sound combination of a referral
      with one choice per side is a joined row. So when a key repeats, each
      of its rows yields its own joined row. */
  lemma JoinAllComplete(src: Sources, y: Joined)
    requires Sound(src, y)
    ensures y in JoinAll(src)
  {
    var j1 := Seed(DetailJoin(src));
    var j2 := LeftJoinWith(j1, src.statuses, StatusRef, StatusKey, SetStatus);
    var j3 := LeftJoinWith(j2, src.rewards, RewardRef, RewardKey, SetReward);
    var j4 := LeftJoinWith(j3, src.transactions, TransactionRef, TransactionKey, SetTransaction);
    var j5 := LeftJoinWith(j4, src.users, ReferrerRef, UserKey, SetReferrer);
    assert JoinAll(src) == LeftJoinWith(j5, src.leads, RefereeRef, LeadKey, SetLead);
    var x1 := Joined(y.referral, y.detail, None, None, None, None, None);
    SeedComplete(src, y.referral, y.detail);
    var x2 := SetStatus(x1, y.status);
    StepComplete(j1, src.statuses, StatusRef, StatusKey, SetStatus, x1, y.status);
    var x3 := SetReward(x2, y.reward);
    StepComplete(j2, src.rewards, RewardRef, RewardKey, SetReward, x2, y.reward);
    var x4 := SetTransaction(x3, y.txn);
    StepComplete(j3, src.transactions, TransactionRef, TransactionKey, SetTransaction, x3, y.txn);
    var x5 := SetReferrer(x4, y.referrer);
    StepComplete(j4, src.users, ReferrerRef, UserKey, SetReferrer, x4, y.referrer);
    StepComplete(j5, src.leads, RefereeRef, LeadKey, SetLead, x5, y.lead);
    assert SetLead(x5, y.lead) == y;
  }

  /** The joined table holds exactly the sound rows. */
  lemma JoinAllExactlySound(src: Sources)
    ensures forall y :: y in JoinAll(src) <==> Sound(src, y)
  {
    JoinAllSound(src);
    forall y | Sound(src, y)
      ensures y in JoinAll(src)
    {
      JoinAllComplete(src, y);
    }
  }

  /** A matched transaction in the joined table is an input transaction
      bearing the referral's transaction id. */
  lemma JoinedTransactionIsInput(src: Sources, j: Joined)
    requires j in JoinAll(src) && j.txn.Some?
    ensures j.txn.value in src.transactions && j.txn.value.transactionId == j.referral.transactionId
  {
    JoinAllSound(src);
    assert TransactionOk(src, j);
  }

  /** One join step keeps every referral of its left side, as long as
      attaching a right side leaves the referral alone. */
  lemma StepKeepsReferral<R(!new)>(left: seq<Joined>, right: seq<R>, keyL: Joined -> Option<Id>,
                                   keyR: R -> Option<Id>, attach: (Joined, Option<R>) -> Joined, r: Referral)
    requires exists x :: x in left && x.referral == r
    requires forall x, o :: attach(x, o).referral == x.referral
    ensures exists y :: y in LeftJoinWith(left, right, keyL, keyR, attach) && y.referral == r
  {
    var x :| x in left && x.referral == r;
    LeftJoinWithComplete(left, right, keyL, keyR, attach);
    assert attach(x, Lookup(right, keyR, keyL(x))) in LeftJoinWith(left, right, keyL, keyR, attach);
  }

  /** No referral is lost: each input referral has at least one joined row. */
  lemma JoinAllKeepsReferrals(src: Sources)
    ensures forall r :: r in src.referrals ==> exists y :: y in JoinAll(src) && y.referral == r
  {
    var pairs := DetailJoin(src);
    var j1 := Seed(pairs);
    var j2 := LeftJoinWith(j1, src.statuses, StatusRef, StatusKey, SetStatus);
    var j3 := LeftJoinWith(j2, src.rewards, RewardRef, RewardKey, SetReward);
    var j4 := LeftJoinWith(j3, src.transactions, TransactionRef, TransactionKey, SetTransaction);
    var j5 := LeftJoinWith(j4, src.users, ReferrerRef, UserKey, SetReferrer);
    assert JoinAll(src) == LeftJoinWith(j5, src.leads, RefereeRef, LeadKey, SetLead);
    LeftJoinComplete(src.referrals, src.details, ReferralIdOf, DetailKey);
    forall r | r in src.referrals
      ensures exists y :: y in JoinAll(src) && y.referral == r
    {
      assert (r, Lookup(src.details, DetailKey, r.referralId)) in pairs;
      var i :| 0 <= i < |pairs| && pairs[i].0 == r;
      assert j1[i] in j1;
      StepKeepsReferral(j1, src.statuses, StatusRef, StatusKey, SetStatus, r);
      StepKeepsReferral(j2, src.rewards, RewardRef, RewardKey, SetReward, r);
      StepKeepsReferral(j3, src.transactions, TransactionRef, TransactionKey, SetTransaction, r);
      StepKeepsReferral(j4, src.users, ReferrerRef, UserKey, SetReferrer, r);
      StepKeepsReferral(j5, src.leads, RefereeRef, LeadKey, SetLead, r);
    }
  }

  // ---------------------------------------------------------------------------
  // Cardinality
  // ---------------------------------------------------------------------------

  /** The five relations joined after the referral logs are keyed uniquely,
      so each of those joins is many-to-one from the referral's side. */
  predicate ManyToOne(src: Sources) {
    && UniqueKeys(src.statuses, StatusKey)
    && UniqueKeys(src.rewards, RewardKey)
    && UniqueKeys(src.transactions, TransactionKey)
    && UniqueKeys(src.users, UserKey)
    && UniqueKeys(src.leads, LeadKey)
  }

  /** The joined row for a referral paired with a referral log (or none):
      every later side is the referral's single match in its relation. */
  function Resolve(src: Sources, r: Referral, d: Option<Detail>): Joined
  {
    Joined(r, d,
           Lookup(src.statuses, StatusKey, r.statusId),
           Lookup(src.rewards, RewardKey, r.rewardId),
           Lookup(src.transactions, TransactionKey, r.transactionId),
           Lookup(src.users, UserKey, r.referrerId),
           Lookup(src.leads, LeadKey, r.refereeId))
  }

  /** With the later five relations uniquely keyed, only the referral logs
      fan a referral out: the joined table has one row per row of the first
      join, in the same order, each completed by key lookups. */
  lemma JoinAllManyToOne(src: Sources)
    requires ManyToOne(src)
    ensures |JoinAll(src)| == |DetailJoin(src)|
    ensures forall i :: 0 <= i < |DetailJoin(src)| ==>
      JoinAll(src)[i] == Resolve(src, DetailJoin(src)[i].0, DetailJoin(src)[i].1)
  {
    var pairs := DetailJoin(src);
    var j1 := Seed(pairs);
    var j2 := LeftJoinWith(j1, src.statuses, StatusRef, StatusKey, SetStatus);
    var j3 := LeftJoinWith(j2, src.rewards, RewardRef, RewardKey, SetReward);
    var j4 := LeftJoinWith(j3, src.transactions, TransactionRef, TransactionKey, SetTransaction);
    var j5 := LeftJoinWith(j4, src.users, ReferrerRef, UserKey, SetReferrer);
    var j6 := LeftJoinWith(j5, src.leads, RefereeRef, LeadKey, SetLead);
    assert JoinAll(src) == j6;
    LeftJoinWithNoFanOut(j1, src.statuses, StatusRef, StatusKey, SetStatus);
    LeftJoinWithNoFanOut(j2, src.rewards, RewardRef, RewardKey, SetReward);
    LeftJoinWithNoFanOut(j3, src.transactions, TransactionRef, TransactionKey, SetTransaction);
    LeftJoinWithNoFanOut(j4, src.users, ReferrerRef, UserKey, SetReferrer);
    LeftJoinWithNoFanOut(j5, src.leads, RefereeRef, LeadKey, SetLead);
    forall i | 0 <= i < |pairs|
      ensures j6[i] == Resolve(src, pairs[i].0, pairs[i].1)
    {
      assert j2[i] == SetStatus(j1[i], Lookup(src.statuses, StatusKey, StatusRef(j1[i])));
      assert j3[i] == SetReward(j2[i], Lookup(src.rewards, RewardKey, RewardRef(j2[i])));
      assert j4[i] == SetTransaction(j3[i], Lookup(src.transactions, TransactionKey, TransactionRef(j3[i])));
      assert j5[i] == SetReferrer(j4[i], Lookup(src.users, UserKey, ReferrerRef(j4[i])));
    }
  }

  /** Join cardinality: with the later five relations uniquely keyed, a
      referral yields one joined row per matching referral log, and a single
      row when it has none. */
  lemma {:induction false} JoinAllSize(src: Sources)
    requires ManyToOne(src)
    ensures |JoinAll(src)| == Fanout(src.referrals, src.details, ReferralIdOf, DetailKey)
  {
    JoinAllManyToOne(src);
    LeftJoinSize(src.referrals, src.details, ReferralIdOf, DetailKey);
  }

  /** With every joined relation uniquely keyed (at most one referral log
      per referral included), the joined table is the referral table, row
      for row, each referral completed by key lookups. */
  lemma JoinAllOneRowPerReferral(src: Sources)
    requires ManyToOne(src) && UniqueKeys(src.details, DetailKey)
    ensures |JoinAll(src)| == |src.referrals|
    ensures forall i :: 0 <= i < |src.referrals| ==>
      JoinAll(src)[i] == Resolve(src, src.referrals[i], Lookup(src.details, DetailKey, src.referrals[i].referralId))
  {
    JoinAllManyToOne(src);
    LeftJoinNoFanOut(src.referrals, src.details, ReferralIdOf, DetailKey);
  }
}
