/** The texts behind the log's keys: what is hashed, and the dedupe key of a visit. Both determine their parts,
    which is what lets module Promotion treat them as structured values. */
module PromotionKeys {
  import opened Options
  import opened Sequences

  // ---- splitting ----

  function FirstColon(s: string): nat {
    if s == "" || s[0] == ':' then 0 else 1 + FirstColon(s[1..])
  }

  lemma {:induction false} ColonAfter(a: string, x: string)
    requires ':' !in a
    ensures FirstColon(a + ":" + x) == |a|
  {
    if a != "" {
      assert (a + ":" + x)[1..] == a[1..] + ":" + x;
      ColonAfter(a[1..], x);
    }
  }

  /** The text before the first colon is determined by the whole, if it holds no colon itself. */
  lemma SplitAtColon(a: string, x: string, b: string, y: string)
    requires ':' !in a && ':' !in b && a + ":" + x == b + ":" + y
    ensures a == b && x == y
  {
    ColonAfter(a, x);
    ColonAfter(b, y);
    SplitsAlike(a + ":", x, b + ":", y);
    SplitsAlike(a, ":", b, ":");
  }

  lemma SplitFixedTail(a: string, x: string, b: string, y: string)
    requires |x| == |y| && a + x == b + y
    ensures a == b && x == y
  {
    assert |a| == |b|;
    assert a == (a + x)[..|a|] && b == (b + y)[..|b|];
    assert x == (a + x)[|a|..] && y == (b + y)[|b|..];
  }

  // ---- what is hashed ----

  datatype Subject = Visitor | Account
  datatype OwnerType = HelperOwner | BusinessOwner

  function SubjectText(s: Subject): string {
    if s.Visitor? then "promotion-visit" else "promotion-account"
  }

  function OwnerTypeText(t: OwnerType): string {
    if t.HelperOwner? then "helper" else "business"
  }

  /** The input of the actor hash and of the account hash; `who` is a UUID. */
  function HashInput(s: Subject, t: OwnerType, ownerId: string, who: string): string {
    SubjectText(s) + ":" + (OwnerTypeText(t) + ":" + (ownerId + (":" + who)))
  }

  /** What is hashed, spelled out. */
  lemma HashInputSpelled(ownerId: string, who: string)
    ensures HashInput(Visitor, HelperOwner, ownerId, who) == "promotion-visit:helper:" + ownerId + ":" + who
    ensures HashInput(Visitor, BusinessOwner, ownerId, who) == "promotion-visit:business:" + ownerId + ":" + who
    ensures HashInput(Account, HelperOwner, ownerId, who) == "promotion-account:helper:" + ownerId + ":" + who
    ensures HashInput(Account, BusinessOwner, ownerId, who) == "promotion-account:business:" + ownerId + ":" + who
  {
    assert "promotion-visit" + ":" + "helper" + ":" == "promotion-visit:helper:";
    assert "promotion-visit" + ":" + "business" + ":" == "promotion-visit:business:";
    assert "promotion-account" + ":" + "helper" + ":" == "promotion-account:helper:";
    assert "promotion-account" + ":" + "business" + ":" == "promotion-account:business:";
  }

  /** Different visitors, accounts or owners are never hashed from the same text, and a visitor hash is never
      an account hash. */
  lemma HashInputDeterminesParts(s1: Subject, t1: OwnerType, o1: string, w1: string,
                                 s2: Subject, t2: OwnerType, o2: string, w2: string)
    requires |w1| == 36 && |w2| == 36
    requires HashInput(s1, t1, o1, w1) == HashInput(s2, t2, o2, w2)
    ensures s1 == s2 && t1 == t2 && o1 == o2 && w1 == w2
  {
    SplitAtColon(SubjectText(s1), OwnerTypeText(t1) + ":" + (o1 + (":" + w1)),
                 SubjectText(s2), OwnerTypeText(t2) + ":" + (o2 + (":" + w2)));
    assert SubjectText(Visitor)[10] != SubjectText(Account)[10];
    SplitAtColon(OwnerTypeText(t1), o1 + (":" + w1), OwnerTypeText(t2), o2 + (":" + w2));
    assert OwnerTypeText(HelperOwner)[0] != OwnerTypeText(BusinessOwner)[0];
    SplitFixedTail(o1, ":" + w1, o2, ":" + w2);
    SplitFixedTail(":", w1, ":", w2);
  }

  // ---- the dedupe key of a visit ----

  predicate IsSlugChar(c: char) {
    'a' <= c <= 'z' || '0' <= c <= '9' || c == '_' || c == '-'
  }

  predicate IsSlug(s: string) {
    1 <= |s| <= 60 && forall i :: 0 <= i < |s| ==> IsSlugChar(s[i])
  }

  /** A campaign name as normalised: absent, or one to eighty characters, colons allowed. */
  predicate IsCampaign(c: Option<string>) {
    c.Some? ==> 1 <= |c.value| <= 80
  }

  function CampaignText(c: Option<string>): string {
    if c.Some? then c.value else ""
  }

  function WholeKey(actor: string, source: string, campaign: Option<string>, day: string): string {
    "visit" + ":" + (actor + ":" + (source + ":" + (CampaignText(campaign) + (":" + day))))
  }

  /** The key as stored, cut at 400 characters. */
  function VisitKey(actor: string, source: string, campaign: Option<string>, day: string): string {
    var key := WholeKey(actor, source, campaign, day);
    if |key| <= 400 then key else key[..400]
  }

  /** The cut never happens, and the key determines actor, source, campaign and day. The actor is a 64-digit
      hexadecimal hash and the day is written in ten characters. */
  lemma VisitKeyDeterminesParts(a1: string, s1: string, c1: Option<string>, d1: string,
                                a2: string, s2: string, c2: Option<string>, d2: string)
    requires |a1| == 64 && |a2| == 64 && |d1| == 10 && |d2| == 10
    requires IsSlug(s1) && IsSlug(s2) && IsCampaign(c1) && IsCampaign(c2)
    ensures VisitKey(a1, s1, c1, d1) == WholeKey(a1, s1, c1, d1) && |VisitKey(a1, s1, c1, d1)| <= 223
    ensures VisitKey(a1, s1, c1, d1)
         == "visit:" + a1 + ":" + s1 + ":" + (if c1 == None then "" else c1.value) + ":" + d1
    ensures VisitKey(a1, s1, c1, d1) == VisitKey(a2, s2, c2, d2) <==> a1 == a2 && s1 == s2 && c1 == c2 && d1 == d2
  {
    if WholeKey(a1, s1, c1, d1) == WholeKey(a2, s2, c2, d2) {
      var tail1 := CampaignText(c1) + (":" + d1);
      var tail2 := CampaignText(c2) + (":" + d2);
      SplitAtColon("visit", a1 + ":" + (s1 + ":" + tail1), "visit", a2 + ":" + (s2 + ":" + tail2));
      assert a1 + ":" + (s1 + ":" + tail1) == a1 + (":" + (s1 + ":" + tail1));
      assert a2 + ":" + (s2 + ":" + tail2) == a2 + (":" + (s2 + ":" + tail2));
      SplitsAlike(a1, ":" + (s1 + ":" + tail1), a2, ":" + (s2 + ":" + tail2));
      SplitsAlike(":", s1 + ":" + tail1, ":", s2 + ":" + tail2);
      SplitAtColon(s1, tail1, s2, tail2);
      SplitFixedTail(CampaignText(c1), ":" + d1, CampaignText(c2), ":" + d2);
      SplitFixedTail(":", d1, ":", d2);
    }
  }
}
