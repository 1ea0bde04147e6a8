/**
 The crawler's anti-spam filter: four detectors look at a search result in
 a fixed order, the result is spam when any of them fires, and the first
 firing detector names the primary indicator. The detectors themselves are
 collaborators and enter as functions.
 */
module AntiSpam {
  import opened Wrappers
  import opened SearchResults

  datatype SpamIndicator =
    | KEYWORD_STUFFING
    | DOMAIN_METADATA_MISMATCH
    | UNNATURAL_KEYWORD_LIST
    | CROSS_CATEGORY_SPAM

  /* The order in which the filter consults its detectors. */
  const DetectionOrder: seq<SpamIndicator> :=
    [KEYWORD_STUFFING, DOMAIN_METADATA_MISMATCH, UNNATURAL_KEYWORD_LIST, CROSS_CATEGORY_SPAM]

  /* The four detection strategies, on the texts they are given. */
  datatype Detectors = Detectors(
    keywordStuffing: string -> bool,
    domainMetadataMismatch: (Option<string>, Option<string>, Option<string>) -> bool,
    unnaturalKeywordList: string -> bool,
    crossCategorySpam: (Option<string>, Option<string>, Option<string>) -> bool)

  /* The verdict; the confidence is in hundredths. */
  datatype SpamAnalysisResult = SpamAnalysisResult(
    isSpam: bool,
    rejectionReason: Option<string>,
    primaryIndicator: Option<SpamIndicator>,
    confidenceScore: int)

  const NotSpam: SpamAnalysisResult := SpamAnalysisResult(false, None, None, 0)

  /* Title and description joined by a space, a null part read as empty. */
  function CombinedText(r: SearchResult): string {
    r.title.GetOr("") + " " + r.description.GetOr("")
  }

  /* Whether the detector behind an indicator fires on a result. */
  predicate Fires(ind: SpamIndicator, r: SearchResult, d: Detectors) {
    match ind
    case KEYWORD_STUFFING => d.keywordStuffing(CombinedText(r))
    case DOMAIN_METADATA_MISMATCH => d.domainMetadataMismatch(r.domain, r.title, r.description)
    case UNNATURAL_KEYWORD_LIST => d.unnaturalKeywordList(CombinedText(r))
    case CROSS_CATEGORY_SPAM => d.crossCategorySpam(r.domain, r.title, r.description)
  }

  function RejectionReason(ind: SpamIndicator): string {
    match ind
    case KEYWORD_STUFFING => "Keyword stuffing detected: excessive keyword repetition (unique ratio < 0.5)"
    case DOMAIN_METADATA_MISMATCH => "Domain-metadata mismatch: domain keywords unrelated to page content (similarity < 0.15)"
    case UNNATURAL_KEYWORD_LIST => "Unnatural keyword list: missing natural language structure (< 2 common words)"
    case CROSS_CATEGORY_SPAM => "Cross-category spam: scammer industry domain with education content"
  }

  /* The running state of the filter: how many detectors fired, and the first one. */
  datatype Scan = Scan(detectionCount: nat, primary: Option<SpamIndicator>)

  /* One strategy block: count a firing detector and keep the first indicator. */
  function Observe(s: Scan, ind: SpamIndicator, fired: bool): Scan {
    if !fired then s
    else Scan(s.detectionCount + 1, if s.primary.None? then Some(ind) else s.primary)
  }

  /* The strategy blocks run in sequence. */
  function ScanAll(inds: seq<SpamIndicator>, r: SearchResult, d: Detectors): Scan {
    if inds == [] then Scan(0, None)
    else Observe(ScanAll(inds[..|inds| - 1], r, d), inds[|inds| - 1], Fires(inds[|inds| - 1], r, d))
  }

  /* The firing indicators, in detection order. */
  function Firing(inds: seq<SpamIndicator>, r: SearchResult, d: Detectors): (f: seq<SpamIndicator>)
    ensures |f| <= |inds|
    ensures forall x :: x in f ==> x in inds && Fires(x, r, d)
  {
    if inds == [] then []
    else Firing(inds[..|inds| - 1], r, d) + (if Fires(inds[|inds| - 1], r, d) then [inds[|inds| - 1]] else [])
  }

  /* The scan counts exactly the firing detectors and keeps the earliest of them. */
  lemma {:induction false} ScanMatchesFiring(inds: seq<SpamIndicator>, r: SearchResult, d: Detectors)
    ensures ScanAll(inds, r, d).detectionCount == |Firing(inds, r, d)|
    ensures ScanAll(inds, r, d).primary == if Firing(inds, r, d) == [] then None else Some(Firing(inds, r, d)[0])
  {
    if inds != [] {
      ScanMatchesFiring(inds[..|inds| - 1], r, d);
    }
  }

  /* The firing list is empty exactly when no indicator's detector fires. */
  lemma {:induction false} FiringEmpty(inds: seq<SpamIndicator>, r: SearchResult, d: Detectors)
    ensures Firing(inds, r, d) == [] <==> forall i :: 0 <= i < |inds| ==> !Fires(inds[i], r, d)
  {
    if inds != [] {
      var init := inds[..|inds| - 1];
      FiringEmpty(init, r, d);
      if Firing(inds, r, d) == [] {
        forall i | 0 <= i < |inds| ensures !Fires(inds[i], r, d) {
          if i < |inds| - 1 {
            assert inds[i] == init[i];
          }
        }
      }
    }
  }

  /* The head of the firing list is the first indicator, in order, whose detector fires. */
  lemma {:induction false} FirstFiring(inds: seq<SpamIndicator>, r: SearchResult, d: Detectors, k: nat)
    requires k < |inds| && Fires(inds[k], r, d)
    requires forall j :: 0 <= j < k ==> !Fires(inds[j], r, d)
    ensures Firing(inds, r, d) != [] && Firing(inds, r, d)[0] == inds[k]
  {
    var init := inds[..|inds| - 1];
    if k == |inds| - 1 {
      assert forall j :: 0 <= j < |init| ==> init[j] == inds[j];
      FiringEmpty(init, r, d);
    } else {
      assert init[k] == inds[k];
      assert forall j :: 0 <= j < k ==> init[j] == inds[j];
      FirstFiring(init, r, d, k);
    }
  }

  /* When every detector fires, every indicator is in the firing list, in order. */
  lemma {:induction false} AllFiring(inds: seq<SpamIndicator>, r: SearchResult, d: Detectors)
    requires forall i :: 0 <= i < |inds| ==> Fires(inds[i], r, d)
    ensures Firing(inds, r, d) == inds
  {
    if inds != [] {
      var init := inds[..|inds| - 1];
      var last := inds[|inds| - 1];
      forall i | 0 <= i < |init|
        ensures Fires(init[i], r, d)
      {
        assert init[i] == inds[i];
      }
      AllFiring(init, r, d);
      assert Fires(last, r, d);
      assert inds == init + [last];
    }
  }

  /* confidence = min(1.0, 0.35 per detection), in hundredths. */
  function SpamConfidence(detectionCount: nat): (c: int)
    ensures detectionCount >= 1 ==> 35 <= c <= 100
    ensures detectionCount >= 3 ==> c == 100
  {
    if 35 * detectionCount > 100 then 100 else 35 * detectionCount
  }

  /*
   analyzeForSpam: a null result is not spam; otherwise spam iff some
   detector fires, and the verdict carries the first firing detector, its
   reason and a confidence of 0.35 per detection capped at 1.00.
   */
  function AnalyzeForSpam(result: Option<SearchResult>, d: Detectors): (v: SpamAnalysisResult)
    ensures result.None? ==> v == NotSpam
    ensures result.Some? ==>
      && (v.isSpam <==> exists i :: 0 <= i < 4 && Fires(DetectionOrder[i], result.value, d))
      && (!v.isSpam ==> v == NotSpam)
      && (v.isSpam ==>
            && v.primaryIndicator.Some?
            && Fires(v.primaryIndicator.value, result.value, d)
            && v.rejectionReason == Some(RejectionReason(v.primaryIndicator.value))
            && v.confidenceScore == SpamConfidence(|Firing(DetectionOrder, result.value, d)|)
            && 35 <= v.confidenceScore <= 100)
  {
    if result.None? then NotSpam
    else
      var r := result.value;
      var s := ScanAll(DetectionOrder, r, d);
      ScanMatchesFiring(DetectionOrder, r, d);
      FiringEmpty(DetectionOrder, r, d);
      if s.detectionCount > 0 then
        assert Firing(DetectionOrder, r, d)[0] in Firing(DetectionOrder, r, d);
        SpamAnalysisResult(true, Some(RejectionReason(s.primary.value)), s.primary, SpamConfidence(s.detectionCount))
      else NotSpam
  }

  /* The primary indicator is the earliest detector, in the order KS, DMM, UKL, CCS, that fires. */
  lemma PrimaryIsFirstFiring(r: SearchResult, d: Detectors, k: nat)
    requires k < 4 && Fires(DetectionOrder[k], r, d)
    requires forall j :: 0 <= j < k ==> !Fires(DetectionOrder[j], r, d)
    ensures AnalyzeForSpam(Some(r), d).isSpam
    ensures AnalyzeForSpam(Some(r), d).primaryIndicator == Some(DetectionOrder[k])
  {
    FirstFiring(DetectionOrder, r, d, k);
    ScanMatchesFiring(DetectionOrder, r, d);
  }

  /* Every firing detector counts: all four firing gives the cap of 1.00. */
  lemma AllDetectorsFiring(r: SearchResult, d: Detectors)
    requires forall i :: 0 <= i < 4 ==> Fires(DetectionOrder[i], r, d)
    ensures AnalyzeForSpam(Some(r), d) ==
      SpamAnalysisResult(true, Some(RejectionReason(KEYWORD_STUFFING)), Some(KEYWORD_STUFFING), 100)
  {
    var o := DetectionOrder;
    AllFiring(o, r, d);
    ScanMatchesFiring(o, r, d);
    var s := ScanAll(o, r, d);
    assert s.detectionCount == 4 && s.primary == Some(KEYWORD_STUFFING);
    assert SpamConfidence(4) == 100;
  }
}
