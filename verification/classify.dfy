/** The source classifier `map_source` (main.py lines 72-79): the
    acquisition channel of a referral, from its source tag and, for leads,
    the category recorded on the matched lead.
 */
module Classify {
  import opened Options
  import opened Schema

  /** The three tags the classifier recognises. */
  predicate KnownTag(tag: Option<string>)
  {
    tag == Some("User Sign Up") || tag == Some("Draft Transaction") || tag == Some("Lead")
  }

  /** The `referral_source_category` column. */
  function MapSource(j: Joined): (r: Option<string>)
    ensures r.Some? ==> KnownTag(j.referral.referralSource)
    ensures r.None? <==> !KnownTag(j.referral.referralSource)
                         || (j.referral.referralSource == Some("Lead") && j.SourceCategory().None?)
    ensures j.referral.referralSource != Some("Lead") ==> r.None? || r == Some("Online") || r == Some("Offline")
  {
    var tag := j.referral.referralSource;
    if tag == Some("User Sign Up") then Some("Online")
    else if tag == Some("Draft Transaction") then Some("Offline")
    else if tag == Some("Lead") then j.SourceCategory()
    else None
  }

  /** The category is decided by the source tag and the lead's category
      alone: transactions, rewards, logs and accounts play no part. */
  lemma MapSourceDependsOnTagAndLead(a: Joined, b: Joined)
    requires a.referral.referralSource == b.referral.referralSource
    requires a.SourceCategory() == b.SourceCategory()
    ensures MapSource(a) == MapSource(b)
  {
  }

  /** The fixed channels: a sign-up is online and a draft transaction is
      offline whatever the lead side holds, and a lead referral takes its
      category from the matched lead, so one without a matched lead has none. */
  lemma MapSourceChannels(j: Joined)
    ensures j.referral.referralSource == Some("User Sign Up") ==> MapSource(j) == Some("Online")
    ensures j.referral.referralSource == Some("Draft Transaction") ==> MapSource(j) == Some("Offline")
    ensures j.referral.referralSource == Some("Lead") ==> MapSource(j) == j.SourceCategory()
    ensures j.referral.referralSource == Some("Lead") && j.lead.None? ==> MapSource(j).None?
  {
  }
}
