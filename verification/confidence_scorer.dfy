/**
 The crawler's additive confidence scorer: a TLD credibility base plus fixed
 increments for keyword signals in the title and description, a compound
 boost, and a clamp to [0.00, 1.00]. All values are integer hundredths.
 A null title or description is `None`.
 */
module ConfidenceScoring {
  import opened Wrappers
  import opened Text
  import DomainCredibility

  const FundingKeywords: set<string> :=
    {"grant", "grants", "funding", "scholarship", "scholarships",
     "fellowship", "fellowships", "subsidy", "subsidies",
     "bursary", "bursaries", "award", "awards",
     "stipend", "stipends", "financial aid", "financial support",
     "sponsorship", "endowment"}

  const GeographicKeywords: set<string> :=
    {"bulgaria", "bulgarian", "българия", "българск",
     "eu", "european union", "europe", "european",
     "eastern europe", "балкан", "balkan",
     "romania", "romanian", "românia",
     "poland", "polish", "polska",
     "czech", "czechia", "české",
     "regional", "local"}

  const OrganizationKeywords: set<string> :=
    {"ministry", "minister", "министерство",
     "commission", "commissioner", "комисия",
     "foundation", "фондация", "fund",
     "university", "университет", "college",
     "government", "правителство", "official",
     "national", "state", "federal",
     "agency", "агенция", "authority",
     "council", "съвет", "chamber"}

  const TitleKeywordScore := 15
  const DescriptionKeywordScore := 10
  const GeographicScore := 15
  const OrganizationScore := 15
  const CompoundBoost := 15

  /* Some keyword of the set occurs in the lowercased text; a null or blank
     text matches nothing, and neither does an empty keyword set. */
  function MatchesAny(text: Option<string>, keywords: set<string>): (r: bool)
    ensures text.None? || IsBlank(text.value) ==> !r
    ensures keywords == {} ==> !r
  {
    text.Some? && !IsBlank(text.value) &&
    exists k :: k in keywords && Contains(Lower(text.value), k)
  }

  /* The four signals the scorer looks for. */
  datatype Signals = Signals(titleFunding: bool, descriptionFunding: bool, geographic: bool, organization: bool)

  /*
   The funding signals look at one text each; region and organization fire
   on either text. A null or blank text raises no signal of its own.
   */
  function DetectSignals(title: Option<string>, description: Option<string>): (s: Signals)
    ensures title.None? || IsBlank(title.value) ==> !s.titleFunding
    ensures description.None? || IsBlank(description.value) ==> !s.descriptionFunding
    ensures (title.None? || IsBlank(title.value)) && (description.None? || IsBlank(description.value)) ==>
              SignalCount(s) == 0
  {
    Signals(
      MatchesAny(title, FundingKeywords),
      MatchesAny(description, FundingKeywords),
      MatchesAny(title, GeographicKeywords) || MatchesAny(description, GeographicKeywords),
      MatchesAny(title, OrganizationKeywords) || MatchesAny(description, OrganizationKeywords))
  }

  function SignalCount(s: Signals): (n: nat)
    ensures n <= 4
    ensures n == 0 <==> s == Signals(false, false, false, false)
  {
    (if s.titleFunding then 1 else 0) + (if s.descriptionFunding then 1 else 0)
    + (if s.geographic then 1 else 0) + (if s.organization then 1 else 0)
  }

  /*
   The score before clamping: the base, one increment per signal, and the
   boost once three signals fire. All four signals add at most 0.70, and the
   boost opens a gap: three signals lift the score at least 0.55 above the
   base, two or fewer at most 0.30.
   */
  function RawScore(base: int, s: Signals): (r: int)
    ensures base <= r <= base + 70
    ensures SignalCount(s) >= 3 <==> r >= base + 55
    ensures SignalCount(s) < 3 ==> r <= base + 30
  {
    base
    + (if s.titleFunding then TitleKeywordScore else 0)
    + (if s.descriptionFunding then DescriptionKeywordScore else 0)
    + (if s.geographic then GeographicScore else 0)
    + (if s.organization then OrganizationScore else 0)
    + (if SignalCount(s) >= 3 then CompoundBoost else 0)
  }

  function Clamp(v: int): (r: int)
    ensures 0 <= r <= 100
    ensures 0 <= v <= 100 ==> r == v
    ensures v < 0 ==> r == 0
    ensures v > 100 ==> r == 100
  {
    if v > 100 then 100 else if v < 0 then 0 else v
  }

  /* calculateConfidence with the TLD score already looked up. */
  function ScoreWith(base: int, title: Option<string>, description: Option<string>): (r: int)
    ensures 0 <= r <= 100
  {
    Clamp(RawScore(base, DetectSignals(title, description)))
  }

  /* calculateConfidence: the TLD score of the URL is the base. */
  function CalculateConfidence(title: Option<string>, description: Option<string>,
                               url: Option<string>, uri: DomainCredibility.UriParse): (r: int)
    ensures 0 <= r <= 90
  {
    var base := DomainCredibility.TldScore(url, uri);
    ScoreWith(base, title, description)
  }

  /*
   The compound boost shows in the score: for a base the clamp leaves alone
   (0.00 to 0.30), the score exceeds the base plus the fired signals'
   increments by exactly 0.15 when at least three signals fire, and equals
   it otherwise.
   */
  lemma BoostIffThreeSignals(base: int, title: Option<string>, description: Option<string>)
    requires 0 <= base <= 30
    ensures var s := DetectSignals(title, description);
      && (SignalCount(s) >= 3 <==> ScoreWith(base, title, description) == base + SignalIncrements(s) + CompoundBoost)
      && (SignalCount(s) < 3 <==> ScoreWith(base, title, description) == base + SignalIncrements(s))
  {
  }

  /* The increments of the individual signals: 0.15 for a funding title,
     0.10 for a funding description, 0.15 each for region and organization. */
  function SignalIncrements(s: Signals): (r: int)
    ensures 0 <= r <= 55
  {
    (if s.titleFunding then 15 else 0) + (if s.descriptionFunding then 10 else 0)
    + (if s.geographic then 15 else 0) + (if s.organization then 15 else 0)
  }

  /* Firing more signals never lowers the score. */
  lemma ScoreMonotoneInSignals(base: int, s: Signals, t: Signals)
    requires s.titleFunding ==> t.titleFunding
    requires s.descriptionFunding ==> t.descriptionFunding
    requires s.geographic ==> t.geographic
    requires s.organization ==> t.organization
    ensures Clamp(RawScore(base, s)) <= Clamp(RawScore(base, t))
  {
  }

  /* Without title and description the score is the TLD score, floored at 0. */
  lemma NoTextScoresBase(base: int, title: Option<string>, description: Option<string>)
    requires base <= 100
    requires title.None? || IsBlank(title.value)
    requires description.None? || IsBlank(description.value)
    ensures ScoreWith(base, title, description) == if base < 0 then 0 else base
  {
    assert DetectSignals(title, description) == Signals(false, false, false, false);
  }

  /* Case does not matter: texts with the same lowercase form score alike. */
  lemma ScoreIgnoresCase(base: int, t1: string, t2: string, d1: string, d2: string)
    requires Lower(t1) == Lower(t2) && Lower(d1) == Lower(d2)
    ensures ScoreWith(base, Some(t1), Some(d1)) == ScoreWith(base, Some(t2), Some(d2))
  {
    MatchIgnoresCase(t1, t2);
    MatchIgnoresCase(d1, d2);
    assert DetectSignals(Some(t1), Some(d1)) == DetectSignals(Some(t2), Some(d2));
  }

  /* Whether a text matches a keyword set depends only on its lowercase form. */
  lemma MatchIgnoresCase(a: string, b: string)
    requires Lower(a) == Lower(b)
    ensures forall keywords :: MatchesAny(Some(a), keywords) == MatchesAny(Some(b), keywords)
  {
    BlankIgnoresCase(a, b);
  }

  /* Lowercasing maps whitespace to whitespace and other characters to
     non-whitespace. */
  lemma BlankIgnoresCase(a: string, b: string)
    requires Lower(a) == Lower(b)
    ensures IsBlank(a) <==> IsBlank(b)
  {
    assert forall i :: 0 <= i < |a| ==> (IsJavaWhitespace(a[i]) <==> IsJavaWhitespace(LowerChar(a[i])));
    assert forall i :: 0 <= i < |b| ==> (IsJavaWhitespace(b[i]) <==> IsJavaWhitespace(LowerChar(b[i])));
    assert |a| == |b|;
    assert forall i :: 0 <= i < |a| ==> LowerChar(a[i]) == LowerChar(b[i]) by {
      forall i | 0 <= i < |a| ensures LowerChar(a[i]) == LowerChar(b[i]) {
        assert Lower(a)[i] == Lower(b)[i];
      }
    }
  }

  /* A spam TLD (at most -0.10) with every signal reaches at most 0.60, which
     is exactly 0.60 for a -0.10 TLD and so still meets the 0.60 threshold;
     any penalty of -0.15 or worse stays below it. */
  lemma SpamBaseStaysLow(base: int, s: Signals)
    ensures base <= -10 ==> Clamp(RawScore(base, s)) <= 60
    ensures base == -10 && SignalCount(s) == 4 ==> Clamp(RawScore(base, s)) == 60
    ensures base <= -15 ==> Clamp(RawScore(base, s)) < 60
  {
  }
}
