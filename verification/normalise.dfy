/** Normalisation of the enumeration and flag columns before joining
    (main.py lines 48-52).

    Both rules first turn the cell into text the way Python's `str` does, so a
    missing cell becomes the text "nan". Enumerations are then upper-cased;
    a flag is true exactly when the lower-cased text is "true".
 */
module Normalise {
  import opened Options
  import opened Schema

  /** A raw cell as the CSV reader hands it over: empty, text, or a value the
      reader already recognised as a boolean. */
  datatype Cell = Missing | Text(text: string) | Bool(flag: bool)

  /** The text Python's `str` gives for a cell. */
  function Stringify(c: Cell): string
  {
    match c
    case Missing => "nan"
    case Text(s) => s
    case Bool(b) => if b then "True" else "False"
  }

  predicate IsLowerLetter(c: char) { 'a' <= c <= 'z' }

  predicate IsUpperLetter(c: char) { 'A' <= c <= 'Z' }

  function UpperChar(c: char): char
  {
    if IsLowerLetter(c) then (c as int - 32) as char else c
  }

  function LowerChar(c: char): char
  {
    if IsUpperLetter(c) then (c as int + 32) as char else c
  }

  /** `str.upper`, on ASCII letters: the same text up to case, with no lower-case letter left. */
  function Upper(s: string): (r: string)
    ensures |r| == |s|
    ensures forall i :: 0 <= i < |r| ==> !IsLowerLetter(r[i])
    ensures forall i :: 0 <= i < |r| ==> LowerChar(r[i]) == LowerChar(s[i])
    ensures (forall i :: 0 <= i < |s| ==> !IsLowerLetter(s[i])) ==> r == s
  {
    seq(|s|, i requires 0 <= i < |s| => UpperChar(s[i]))
  }

  /** `str.lower`, on ASCII letters: the same text up to case, with no upper-case letter left. */
  function Lower(s: string): (r: string)
    ensures |r| == |s|
    ensures forall i :: 0 <= i < |r| ==> !IsUpperLetter(r[i])
    ensures forall i :: 0 <= i < |r| ==> UpperChar(r[i]) == UpperChar(s[i])
  {
    seq(|s|, i requires 0 <= i < |s| => LowerChar(s[i]))
  }

  /** `astype(str).str.upper()` on one cell of an enumeration column. */
  function NormaliseEnum(c: Cell): (r: string)
    ensures c.Missing? ==> r == "NAN"
    ensures forall i :: 0 <= i < |r| ==> !IsLowerLetter(r[i])
  {
    Upper(Stringify(c))
  }

  /** The four-letter word "true" in any mix of cases. */
  predicate SpellsTrue(s: string)
  {
    && |s| == 4
    && (s[0] == 't' || s[0] == 'T')
    && (s[1] == 'r' || s[1] == 'R')
    && (s[2] == 'u' || s[2] == 'U')
    && (s[3] == 'e' || s[3] == 'E')
  }

  /** `astype(str).str.lower() == "true"` on one cell of a flag column: true
      exactly for a boolean `True` cell or a text cell spelling "true" in some
      mix of cases; a missing cell, "False", "yes", "1" and every other text
      give false. */
  function NormaliseFlag(c: Cell): (r: bool)
    ensures r <==> c == Bool(true) || (c.Text? && SpellsTrue(c.text))
  {
    Lower(Stringify(c)) == "true"
  }

  /** Normalising an enumeration twice changes nothing more than normalising it once. */
  lemma EnumIdempotent(c: Cell)
    ensures NormaliseEnum(Text(NormaliseEnum(c))) == NormaliseEnum(c)
  {
  }

  /** An enumeration normalises to a given upper-case word exactly when its
      text is that word in some mix of cases. */
  lemma EnumMatchesIgnoringCase(c: Cell, w: string)
    requires forall i :: 0 <= i < |w| ==> !IsLowerLetter(w[i])
    ensures NormaliseEnum(c) == w <==>
      |Stringify(c)| == |w| && forall i :: 0 <= i < |w| ==> LowerChar(Stringify(c)[i]) == LowerChar(w[i])
  {
  }

  // ---------------------------------------------------------------------------
  // Raw rows of the three relations with normalised columns
  // ---------------------------------------------------------------------------

  datatype RawTransaction = RawTransaction(
    transactionId: Option<Id>,
    transactionStatus: Cell,
    transactionType: Cell,
    transactionAt: Option<Timestamp>,
    transactionLocation: Option<string>)

  datatype RawUserAccount = RawUserAccount(
    userId: Option<Id>,
    name: Option<string>,
    phoneNumber: Option<string>,
    homeclub: Option<string>,
    membershipExpiredDate: Option<Timestamp>,
    isDeleted: Cell)

  datatype RawDetail = RawDetail(
    referralDetailsId: Option<Id>,
    userReferralId: Option<Id>,
    createdAt: Option<Timestamp>,
    isRewardGranted: Cell,
    description: Option<string>)

  /** Status and type upper-cased (a missing one becomes "NAN"); every other column as read. */
  function NormaliseTransaction(t: RawTransaction): (r: Transaction)
    ensures r.transactionId == t.transactionId && r.transactionAt == t.transactionAt
    ensures r.transactionLocation == t.transactionLocation
    ensures r.transactionStatus == NormaliseEnum(t.transactionStatus)
    ensures r.transactionType == NormaliseEnum(t.transactionType)
    ensures t.transactionStatus.Missing? ==> r.transactionStatus == "NAN"
    ensures t.transactionType.Missing? ==> r.transactionType == "NAN"
  {
    Transaction(t.transactionId, NormaliseEnum(t.transactionStatus), NormaliseEnum(t.transactionType),
                t.transactionAt, t.transactionLocation)
  }

  /** `is_deleted` reduced to a flag (a missing one is false); every other column as read. */
  function NormaliseUserAccount(u: RawUserAccount): (r: UserAccount)
    ensures r.userId == u.userId && r.name == u.name && r.phoneNumber == u.phoneNumber
    ensures r.homeclub == u.homeclub && r.membershipExpiredDate == u.membershipExpiredDate
    ensures r.isDeleted <==> u.isDeleted == Bool(true) || (u.isDeleted.Text? && SpellsTrue(u.isDeleted.text))
  {
    UserAccount(u.userId, u.name, u.phoneNumber, u.homeclub, u.membershipExpiredDate, NormaliseFlag(u.isDeleted))
  }

  /** `is_reward_granted` reduced to a flag (a missing one is false); every other column as read. */
  function NormaliseDetail(d: RawDetail): (r: Detail)
    ensures r.referralDetailsId == d.referralDetailsId && r.userReferralId == d.userReferralId
    ensures r.createdAt == d.createdAt && r.description == d.description
    ensures r.isRewardGranted <==>
      d.isRewardGranted == Bool(true) || (d.isRewardGranted.Text? && SpellsTrue(d.isRewardGranted.text))
  {
    Detail(d.referralDetailsId, d.userReferralId, d.createdAt, NormaliseFlag(d.isRewardGranted), d.description)
  }

  function NormaliseTransactions(ts: seq<RawTransaction>): (r: seq<Transaction>)
    ensures |r| == |ts|
    ensures forall i :: 0 <= i < |ts| ==> r[i] == NormaliseTransaction(ts[i])
  {
    seq(|ts|, i requires 0 <= i < |ts| => NormaliseTransaction(ts[i]))
  }

  function NormaliseUserAccounts(us: seq<RawUserAccount>): (r: seq<UserAccount>)
    ensures |r| == |us|
    ensures forall i :: 0 <= i < |us| ==> r[i] == NormaliseUserAccount(us[i])
  {
    seq(|us|, i requires 0 <= i < |us| => NormaliseUserAccount(us[i]))
  }

  function NormaliseDetails(ds: seq<RawDetail>): (r: seq<Detail>)
    ensures |r| == |ds|
    ensures forall i :: 0 <= i < |ds| ==> r[i] == NormaliseDetail(ds[i])
  {
    seq(|ds|, i requires 0 <= i < |ds| => NormaliseDetail(ds[i]))
  }
}
