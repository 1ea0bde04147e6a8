# NorthStar funding discovery: a Dafny model of the decision logic

NorthStar discovers education funding opportunities. Search engines are queried, the hits are filtered and scored, and promising ones become funding source candidates, which administrators review. This project models the deterministic decisions in that pipeline and proves properties about them:

- **Domains and credibility.** A URL is normalised to its domain. The TLD is extracted and placed in a credibility tier, government and spam TLDs are recognised, and deduplication keys are built.
- **Scoring.** The crawler's additive confidence scorer, and the four-judge weighted metadata judge of the discovery backend.
- **Batch processing.** The crawler's staged filter pipeline puts each search result in exactly one counter. The backend's two-phase candidate processing sorts results into created, low-confidence, skipped-domain and failed.
- **Domain registry.** Whether a domain is processed; its quality counters and status; exponential backoff after failures.
- **Anti-spam and aggregation.** The anti-spam verdict. The multi-provider orchestrator's error classification, per-domain best-rank aggregation, statistics and session update.
- **Provider adapters.** The daily rate-limit counter and domain normalisation shared by every search provider adapter.
- **Lifecycles.** Candidates, discovery sessions, funding programs, organizations, search results, contacts and administrators: approve/reject/assign guards, idempotent register-or-get, and status transitions.
- **Tables and text.** The day-of-week category schedule. The controller's mapping of a search request to categories and to a geographic scope. The parser for query lists returned by the language model. Search-query tags. Search engine names.

Throughout the model:

- Money-like `BigDecimal` values at scale 2 are integer hundredths, so 0.60 is `60`.
- Repositories are finite maps from ids to records.
- Java exceptions become the `Fail` case of a `Result`.
- Java `int` arithmetic that can overflow is written out as 32-bit wrap-around.
- The clock, new ids, the language model, the search engines and the spam detectors are parameters.

Each module corresponds to one source file or component. `Wrappers`, `Text`, `Time`, `JavaInt`, `Store` and `Decimal` hold the pieces of Java and the JDK that the modelled code relies on.

## Model

| member | source | states |
|---|---|---|
| DomainCredibility.SpamPenalty | northstar-crawler/src/main/java/com/northstar/funding/crawler/scoring/DomainCredibilityService.java:95-114 | every tier-5 label carries a penalty between -0.30 and -0.10 |
| DomainCredibility.ExtractHostManually | northstar-crawler/src/main/java/com/northstar/funding/crawler/scoring/DomainCredibilityService.java:312-339 | the manual host, when there is one, is a non-blank prefix of the URL without its http(s) scheme; there is none exactly when cutting at the port, path and query leaves a blank string |
| DomainCredibility.ManualHostIsFirstSegment | northstar-crawler/src/main/java/com/northstar/funding/crawler/scoring/DomainCredibilityService.java:318-338 | when the scheme-less URL does not start with ':', '/' or '?', the manual host is exactly the text before the first of them (or null if that is blank) |
| DomainCredibility.HostOf | northstar-crawler/src/main/java/com/northstar/funding/crawler/scoring/DomainCredibilityService.java:246-255 | a non-blank parsed host is used as it is; a syntax error, a missing host or a blank one falls back to the manual extraction |
| DomainCredibility.TldOfHost | northstar-crawler/src/main/java/com/northstar/funding/crawler/scoring/DomainCredibilityService.java:258-276 | a TLD exists exactly when the lowercased host has at least two labels, and it is either a whitelisted second-level suffix or a single non-empty label |
| DomainCredibility.ExtractTld | northstar-crawler/src/main/java/com/northstar/funding/crawler/scoring/DomainCredibilityService.java:239-301 | a null or blank URL, or one whose host cannot be resolved, has no TLD; otherwise the TLD is that of the resolved host, a whitelisted suffix or one label |
| DomainCredibility.TierScore | northstar-crawler/src/main/java/com/northstar/funding/crawler/scoring/DomainCredibilityService.java:137-155 | a final label scores between -0.30 and 0.20 |
| DomainCredibility.TldScore | northstar-crawler/src/main/java/com/northstar/funding/crawler/scoring/DomainCredibilityService.java:123-156 | every score lies in [-0.30, 0.20]; no TLD scores 0.00; a whitelisted second-level suffix scores 0.20; any other TLD scores the tier value of its final label |
| DomainCredibility.SpamTierDisjoint | northstar-crawler/src/main/java/com/northstar/funding/crawler/scoring/DomainCredibilityService.java:95-114 | a tier-5 label is in no other tier |
| DomainCredibility.UpperTiersDisjoint | northstar-crawler/src/main/java/com/northstar/funding/crawler/scoring/DomainCredibilityService.java:28-93 | a label of tiers 1 to 4 is in no later tier |
| DomainCredibility.TierScoreByTier | northstar-crawler/src/main/java/com/northstar/funding/crawler/scoring/DomainCredibilityService.java:137-155 | tier 1 scores 0.20, tier 2 0.15, tier 3 0.08, tier 4 0.00, tier 5 its penalty, and an unknown label 0.00 |
| DomainCredibility.ScoreOfTld | northstar-crawler/src/main/java/com/northstar/funding/crawler/scoring/DomainCredibilityService.java:130-155 | a whitelisted second-level suffix scores 0.20; any other TLD scores the tier lookup of its final label; every score lies in [-0.30, 0.20] |
| DomainCredibility.ScoreOfTldNegativeIffSpam | northstar-crawler/src/main/java/com/northstar/funding/crawler/scoring/DomainCredibilityService.java:135-152 | an extracted TLD scores below zero exactly when its final label is in tier 5 |
| DomainCredibility.IsSpamTld | northstar-crawler/src/main/java/com/northstar/funding/crawler/scoring/DomainCredibilityService.java:164-172 | a URL is a spam TLD exactly when getTldScore scores it below zero |
| DomainCredibility.IsGovernmentDomain | northstar-crawler/src/main/java/com/northstar/funding/crawler/scoring/DomainCredibilityService.java:196-209 | true exactly when a TLD is extracted and it starts with "gov.", is "europa.eu" or has final label "gov"; every such domain scores the top 0.20 |
| DomainCredibility.GovHostIsGovernment | northstar-crawler/src/main/java/com/northstar/funding/crawler/scoring/DomainCredibilityService.java:196-209 | any parsed host ending in ".gov" is a government domain scoring 0.20 |
| DomainCredibility.EuropaHostIsGovernment | northstar-crawler/src/main/java/com/northstar/funding/crawler/scoring/DomainCredibilityService.java:196-209 | any parsed host ending in ".europa.eu" is a government domain scoring 0.20 |
| DomainCredibility.GovernmentTldScoresTop | northstar-crawler/src/main/java/com/northstar/funding/crawler/scoring/DomainCredibilityService.java:203-208 | a TLD that starts with "gov.", is "europa.eu" or ends in "gov" scores 0.20 |
| DomainCredibility.IsValidatedNonprofit | northstar-crawler/src/main/java/com/northstar/funding/crawler/scoring/DomainCredibilityService.java:180-188 | true exactly when a TLD is extracted and its final label is ngo, ong, foundation or charity; every such domain scores the top 0.20 |
| DomainCredibility.IsTargetRegionCcTld | northstar-crawler/src/main/java/com/northstar/funding/crawler/scoring/DomainCredibilityService.java:217-226 | true exactly when a TLD is extracted and its final label is one of the fourteen target-region country codes; every such domain scores at least 0.15 |
| DomainCredibility.TldIgnoresCase | northstar-crawler/src/main/java/com/northstar/funding/crawler/scoring/DomainCredibilityService.java:258 | hosts equal up to case have the same TLD |
| ConfidenceScoring.SignalCount | northstar-crawler/src/main/java/com/northstar/funding/crawler/scoring/ConfidenceScorer.java:94-118 | at most four signals fire, and none fires exactly when every signal is off |
| ConfidenceScoring.DetectSignals | northstar-crawler/src/main/java/com/northstar/funding/crawler/scoring/ConfidenceScorer.java:94-118 | a null or blank title raises no title signal, likewise for the description, and with neither text no signal fires |
| ConfidenceScoring.Clamp | northstar-crawler/src/main/java/com/northstar/funding/crawler/scoring/ConfidenceScorer.java:126-135 | the final score lies in [0.00, 1.00], an in-range score is kept, a negative one becomes 0.00 and one above 1.00 becomes 1.00 |
| ConfidenceScoring.ScoreWith | northstar-crawler/src/main/java/com/northstar/funding/crawler/scoring/ConfidenceScorer.java:90-136 | whatever the TLD score and texts, the confidence lies in [0.00, 1.00] |
| ConfidenceScoring.CalculateConfidence | northstar-crawler/src/main/java/com/northstar/funding/crawler/scoring/ConfidenceScorer.java:90-136 | with a TLD score of at most 0.20 the confidence lies in [0.00, 0.90] |
| ConfidenceScoring.MatchesAny | northstar-crawler/src/main/java/com/northstar/funding/crawler/scoring/ConfidenceScorer.java:144-184 | a null or blank text, or an empty keyword set, never matches |
| ConfidenceScoring.BoostIffThreeSignals | northstar-crawler/src/main/java/com/northstar/funding/crawler/scoring/ConfidenceScorer.java:121-123 | for a base from 0.00 to 0.30 the score is the base plus the fired signals' increments plus exactly 0.15 when at least three signals fire, and without the 0.15 otherwise |
| ConfidenceScoring.SignalIncrements | northstar-crawler/src/main/java/com/northstar/funding/crawler/scoring/ConfidenceScorer.java:63-67 | the four signal increments add up to at most 0.55 |
| ConfidenceScoring.RawScore | northstar-crawler/src/main/java/com/northstar/funding/crawler/scoring/ConfidenceScorer.java:92-123 | signals and boost raise the TLD score by at most 0.70; three or more signals raise it by at least 0.55, fewer by at most 0.30 |
| ConfidenceScoring.ScoreMonotoneInSignals | northstar-crawler/src/main/java/com/northstar/funding/crawler/scoring/ConfidenceScorer.java:97-135 | firing more signals never lowers the confidence |
| ConfidenceScoring.NoTextScoresBase | northstar-crawler/src/main/java/com/northstar/funding/crawler/scoring/ConfidenceScorer.java:92-135 | without title and description the confidence is the TLD score floored at 0.00 |
| ConfidenceScoring.ScoreIgnoresCase | northstar-crawler/src/main/java/com/northstar/funding/crawler/scoring/ConfidenceScorer.java:149-181 | titles and descriptions equal up to case score alike |
| ConfidenceScoring.MatchIgnoresCase | northstar-crawler/src/main/java/com/northstar/funding/crawler/scoring/ConfidenceScorer.java:144-152 | whether a text matches a keyword set depends only on its lowercase form |
| ConfidenceScoring.BlankIgnoresCase | northstar-crawler/src/main/java/com/northstar/funding/crawler/scoring/ConfidenceScorer.java:145 | lowercasing keeps a text blank or non-blank |
| ConfidenceScoring.SpamBaseStaysLow | northstar-crawler/src/main/java/com/northstar/funding/crawler/scoring/ConfidenceScorer.java:92-135 | a spam TLD (score at most -0.10) keeps the confidence at or below 0.60 even with every signal, reaching exactly 0.60 (the threshold) for a -0.10 TLD with all four signals; a penalty of -0.15 or worse keeps it below 0.60 |
| AntiSpam.Firing | northstar-crawler/src/main/java/com/northstar/funding/crawler/antispam/AntiSpamFilterImpl.java:56-89 | the firing indicators are drawn from the detection order and each one's detector fires |
| AntiSpam.ScanMatchesFiring | northstar-crawler/src/main/java/com/northstar/funding/crawler/antispam/AntiSpamFilterImpl.java:47-89 | the strategy blocks count exactly the firing detectors and remember the earliest as primary |
| AntiSpam.FiringEmpty | northstar-crawler/src/main/java/com/northstar/funding/crawler/antispam/AntiSpamFilterImpl.java:94 | nothing fires exactly when no detector fires |
| AntiSpam.FirstFiring | northstar-crawler/src/main/java/com/northstar/funding/crawler/antispam/AntiSpamFilterImpl.java:58-88 | the primary indicator is the first, in order, whose detector fires |
| AntiSpam.AllFiring | northstar-crawler/src/main/java/com/northstar/funding/crawler/antispam/AntiSpamFilterImpl.java:56-89 | when every detector fires, every indicator is counted, in order |
| AntiSpam.SpamConfidence | northstar-crawler/src/main/java/com/northstar/funding/crawler/antispam/AntiSpamFilterImpl.java:102 | one detection gives at least 0.35 and at most 1.00, three or more give 1.00 |
| AntiSpam.AnalyzeForSpam | northstar-crawler/src/main/java/com/northstar/funding/crawler/antispam/AntiSpamFilterImpl.java:41-107 | a null result is not spam; otherwise it is spam exactly when a detector fires, with the first firing indicator, its reason and min(1.0, 0.35 per detection) |
| AntiSpam.PrimaryIsFirstFiring | northstar-crawler/src/main/java/com/northstar/funding/crawler/antispam/AntiSpamFilterImpl.java:56-89 | the verdict names the earliest of keyword stuffing, domain-metadata mismatch, unnatural keyword list and cross-category spam that fires |
| AntiSpam.AllDetectorsFiring | northstar-crawler/src/main/java/com/northstar/funding/crawler/antispam/AntiSpamFilterImpl.java:56-106 | all four detectors firing give spam, keyword stuffing as primary and confidence 1.00 |
| ProcessingContext.NewContext | northstar-crawler/src/main/java/com/northstar/funding/crawler/processing/ProcessingContext.java:40-45 | a new batch context has seen no domain and counted nothing |
| ProcessingContext.MarkDomainAsSeen | northstar-crawler/src/main/java/com/northstar/funding/crawler/processing/ProcessingContext.java:56-62 | a domain is reported unique exactly when it was not seen; it is seen afterwards; a repeat only raises the duplicate counter |
| ProcessingContext.SecondMarkIsDuplicate | northstar-crawler/src/main/java/com/northstar/funding/crawler/processing/ProcessingContext.java:56-62 | offering the same domain twice, the second offer is a duplicate |
| ProcessingContext.RecordSpamTldFiltered | northstar-crawler/src/main/java/com/northstar/funding/crawler/processing/ProcessingContext.java:67-69 | one more spam-TLD skip and no other counter changes |
| ProcessingContext.RecordBlacklisted | northstar-crawler/src/main/java/com/northstar/funding/crawler/processing/ProcessingContext.java:74-76 | one more blacklisted skip and no other counter changes |
| ProcessingContext.RecordLowConfidence | northstar-crawler/src/main/java/com/northstar/funding/crawler/processing/ProcessingContext.java:84-86 | one more low-confidence candidate and no other counter changes |
| ProcessingContext.RecordHighConfidence | northstar-crawler/src/main/java/com/northstar/funding/crawler/processing/ProcessingContext.java:91-93 | one more high-confidence candidate and no other counter changes |
| ProcessingContext.RecordInvalidUrl | northstar-crawler/src/main/java/com/northstar/funding/crawler/processing/ProcessingContext.java:100-102 | one more invalid-URL skip and no other counter changes |
| ProcessingContext.BuildStatistics | northstar-crawler/src/main/java/com/northstar/funding/crawler/processing/ProcessingContext.java:110-120 | the statistics report the batch's counters and the caller's total unchanged |
| SearchResultProcessing.ClassifyConfidence | northstar-crawler/src/main/java/com/northstar/funding/crawler/processing/SearchResultProcessor.java:256-266 | a confidence is high exactly when it reaches 0.60 (the boundary is high), and the matching counter goes up |
| SearchResultProcessing.Step | northstar-crawler/src/main/java/com/northstar/funding/crawler/processing/SearchResultProcessor.java:97-127 | each result lands in exactly one counter; it is an invalid URL exactly when no domain is extracted, a spam TLD exactly when a domain exists and the TLD is tier 5, a duplicate exactly when its domain was already seen, blacklisted exactly when the blacklist holds it, and otherwise a candidate whose confidence is the scorer's |
| SearchResultProcessing.CountIn | northstar-crawler/src/main/java/com/northstar/funding/crawler/processing/SearchResultProcessor.java:97-127 | a bucket holds at most as many outcomes as there are |
| SearchResultProcessing.StepRaisesItsBucket | northstar-crawler/src/main/java/com/northstar/funding/crawler/processing/SearchResultProcessor.java:97-127 | a result raises its own bucket's counter by one and leaves the others |
| SearchResultProcessing.Run | northstar-crawler/src/main/java/com/northstar/funding/crawler/processing/SearchResultProcessor.java:97-127 | the loop yields one outcome per result |
| SearchResultProcessing.RunCounts | northstar-crawler/src/main/java/com/northstar/funding/crawler/processing/SearchResultProcessor.java:97-129 | after the loop every counter has grown by the number of outcomes in its bucket |
| SearchResultProcessing.BucketsPartition | northstar-crawler/src/main/java/com/northstar/funding/crawler/processing/SearchResultProcessor.java:97-127 | every outcome falls in exactly one of the six buckets |
| SearchResultProcessing.RunCreatesOncePerDomain | northstar-crawler/src/main/java/com/northstar/funding/crawler/processing/SearchResultProcessor.java:110-126 | within a batch at most one candidate is created per domain, never for a domain seen before the batch, and every domain past the spam filter ends up seen |
| SearchResultProcessing.ProcessSearchResults | northstar-crawler/src/main/java/com/northstar/funding/crawler/processing/SearchResultProcessor.java:75-140 | a null or empty batch gives all-zero statistics; otherwise the total is the batch size, each counter is its bucket's share of the outcomes, and the six counters add up to the total |
| SearchResultProcessing.RunBatch | northstar-crawler/src/main/java/com/northstar/funding/crawler/processing/SearchResultProcessor.java:97-127 | the for-each loop handles the results in list order, threading one context |
| SearchResultProcessing.StatisticsCountOutcomes | northstar-crawler/src/main/java/com/northstar/funding/crawler/processing/SearchResultProcessor.java:94-129 | from a fresh context each reported counter is exactly the number of outcomes of its kind |
| CandidateProcessing.ProcessSearchResult | backend/src/main/java/com/northstar/funding/discovery/service/CandidateProcessingOrchestrator.java:119-197 | a result keeps its URL; a created one has a confidence in [0.60, 1.00] and a low-confidence one a confidence below 0.60 |
| CandidateProcessing.SkippedOrFailedOutcome | backend/src/main/java/com/northstar/funding/discovery/service/CandidateProcessingOrchestrator.java:122-139 | a result is skipped exactly when the registry holds its domain back, with the domain name (or "unknown") as message; it fails exactly when it passes but its URL has no domain, with the error's message; neither writes anything |
| CandidateProcessing.JudgedOutcome | backend/src/main/java/com/northstar/funding/discovery/service/CandidateProcessingOrchestrator.java:141-190 | a judged result has its domain registered and its quality recorded with the judged confidence, and becomes a candidate exactly when the judges say crawl |
| CandidateProcessing.CandidateOutcome | backend/src/main/java/com/northstar/funding/discovery/service/CandidateProcessingOrchestrator.java:147-225 | a created result saves exactly one PENDING_CRAWL candidate under its new id, carrying the confidence, URL, session, time, registered domain id and the judgment's reasoning as validation notes; a low-confidence result saves none |
| CandidateProcessing.Judged | backend/src/main/java/com/northstar/funding/discovery/service/CandidateProcessingOrchestrator.java:145-187 | a judged result is created exactly when the judges say crawl, reports the judged confidence, and records the domain's quality as high or low accordingly |
| CandidateProcessing.CreatedDomainIsProcessedAgain | backend/src/main/java/com/northstar/funding/discovery/service/CandidateProcessingOrchestrator.java:147-163 | after a candidate is created for a new domain, the registry still lets that domain through at any later time |
| CandidateProcessing.HighQualityDomainPasses | backend/src/main/java/com/northstar/funding/discovery/service/CandidateProcessingOrchestrator.java:159-163 | a newly registered domain marked high quality is never held back afterwards |
| CandidateProcessing.ProcessAll | backend/src/main/java/com/northstar/funding/discovery/service/CandidateProcessingOrchestrator.java:77-91 | the batch yields one result per search result, in order: the i-th result carries the i-th URL, and the first is the outcome of processing the first search result against the world as given |
| CandidateProcessing.CountStatus | backend/src/main/java/com/northstar/funding/discovery/service/CandidateProcessingOrchestrator.java:241-259 | a status counts at most every result |
| CandidateProcessing.CreatedScores | backend/src/main/java/com/northstar/funding/discovery/service/CandidateProcessingOrchestrator.java:243-248 | at most one score per created result is averaged |
| CandidateProcessing.CreatedScoresMembers | backend/src/main/java/com/northstar/funding/discovery/service/CandidateProcessingOrchestrator.java:243-248 | a score is averaged exactly when some created result carries it |
| CandidateProcessing.Max | backend/src/main/java/com/northstar/funding/discovery/service/CandidateProcessingOrchestrator.java:277-279 | the maximum is a listed score and no listed score exceeds it |
| CandidateProcessing.Min | backend/src/main/java/com/northstar/funding/discovery/service/CandidateProcessingOrchestrator.java:280-282 | the minimum is a listed score and no listed score is below it |
| CandidateProcessing.AggregateStats | backend/src/main/java/com/northstar/funding/discovery/service/CandidateProcessingOrchestrator.java:232-297 | the total is the number of results, blacklisted skips are always 0, average, max and min are null exactly when no created result has a score, and otherwise are the HALF_UP mean at scale 2, the greatest and the least of those scores |
| CandidateProcessing.CountsPartition | backend/src/main/java/com/northstar/funding/discovery/service/CandidateProcessingOrchestrator.java:241-259 | each result is counted under exactly one of the four statuses |
| CandidateProcessing.StatsPartition | backend/src/main/java/com/northstar/funding/discovery/service/CandidateProcessingOrchestrator.java:285-291 | created, low-confidence, skipped-domain and failed counts add up to the total |
| CandidateProcessing.AverageBetweenMinAndMax | backend/src/main/java/com/northstar/funding/discovery/service/CandidateProcessingOrchestrator.java:262-283 | with non-negative scores the average lies between the minimum and the maximum |
| CandidateProcessing.ProcessedScoresInRange | backend/src/main/java/com/northstar/funding/discovery/service/CandidateProcessingOrchestrator.java:243-248 | every score averaged over a processed batch lies in [0.60, 1.00] |
| MetadataJudging.Matching | backend/src/main/java/com/northstar/funding/discovery/service/MetadataJudgingService.java:145-147 | the matched keywords are exactly those of the set that occur in the text |
| MetadataJudging.MatchCount | backend/src/main/java/com/northstar/funding/discovery/service/MetadataJudgingService.java:145-147 | a judge counts at most as many matches as it has keywords |
| MetadataJudging.RatioScore | backend/src/main/java/com/northstar/funding/discovery/service/MetadataJudgingService.java:150-152 | a keyword score lies in [0.00, 1.00]; it is 1.00 once the count reaches the divisor and otherwise the HALF_UP quotient at scale 2 |
| MetadataJudging.RatioScoreSteps | backend/src/main/java/com/northstar/funding/discovery/service/MetadataJudgingService.java:150-221 | the funding score climbs 0.00, 0.33, 0.67, 1.00 and the two other keyword judges 0.00, 0.50, 1.00 |
| MetadataJudging.JudgeFundingKeywords | backend/src/main/java/com/northstar/funding/discovery/service/MetadataJudgingService.java:142-164 | weight 2.00 and a score of matched funding keywords over 3, capped at 1.00 |
| MetadataJudging.JudgeDomainCredibility | backend/src/main/java/com/northstar/funding/discovery/service/MetadataJudgingService.java:171-204 | weight 1.50 and one of the scores 0.00, 0.50, 0.80 |
| MetadataJudging.DomainJudgeScores | backend/src/main/java/com/northstar/funding/discovery/service/MetadataJudgingService.java:175-196 | the domain judge gives 0.00 exactly when the lowercased URL holds a scam pattern, 0.80 exactly when it holds none but a credible TLD, and 0.50 otherwise |
| MetadataJudging.JudgeGeographicRelevance | backend/src/main/java/com/northstar/funding/discovery/service/MetadataJudgingService.java:211-233 | weight 1.00 and a score of matched geographic keywords over 2, capped at 1.00 |
| MetadataJudging.JudgeOrganizationType | backend/src/main/java/com/northstar/funding/discovery/service/MetadataJudgingService.java:240-262 | weight 0.80 and a score of matched organization-type keywords over 2, capped at 1.00 |
| MetadataJudging.WeightedSumBounds | backend/src/main/java/com/northstar/funding/discovery/service/MetadataJudgingService.java:271-277 | the weighted sum of judges scoring in [0, 1] lies between 0 and the total weight |
| MetadataJudging.CalculateOverallConfidence | backend/src/main/java/com/northstar/funding/discovery/service/MetadataJudgingService.java:270-282 | the overall confidence lies in [0.00, 1.00] and is the weighted mean rounded HALF_UP to scale 2 |
| MetadataJudging.ExtractOrganizationAndProgram | backend/src/main/java/com/northstar/funding/discovery/service/MetadataJudgingService.java:312-329 | a null or blank title names an unknown organization and program; a title with fewer than two pieces names only the trimmed program; otherwise the last piece is the organization and the first the program |
| MetadataJudging.TitleSplitsIntoOrganizationAndProgram | backend/src/main/java/com/northstar/funding/discovery/service/MetadataJudgingService.java:318-324 | for "program - organization" the trimmed right side is the organization and the left the program |
| MetadataJudging.TitleWithoutSeparator | backend/src/main/java/com/northstar/funding/discovery/service/MetadataJudgingService.java:328 | a title without '-' or '\|' is the trimmed program of an unknown organization |
| MetadataJudging.Judges | backend/src/main/java/com/northstar/funding/discovery/service/MetadataJudgingService.java:92-108 | the four judges in order funding, domain, geographic, organization type; scores in range and weights summing to 5.30 |
| MetadataJudging.Panel | backend/src/main/java/com/northstar/funding/discovery/service/MetadataJudgingService.java:92-108 | four judges with the service's weights form a well-formed panel of total weight 5.30 |
| MetadataJudging.JudgeSearchResult | backend/src/main/java/com/northstar/funding/discovery/service/MetadataJudgingService.java:91-135 | a null URL throws; otherwise the confidence is the panel's weighted mean in [0.00, 1.00], the result is crawled exactly when it reaches 0.60, the names come from the title and the registry's domain name (or "unknown"), and the reasoning is built from the judges and the confidence |
| MetadataJudging.BuildReasoning | backend/src/main/java/com/northstar/funding/discovery/service/MetadataJudgingService.java:287-299 | the reasoning opens with the overall confidence printed to two decimals, and is only that line when there are no judges |
| MetadataJudging.ReasoningReportsConfidence | backend/src/main/java/com/northstar/funding/discovery/service/MetadataJudgingService.java:289 | the confidence printed at the head of the reasoning reads back as the judged confidence |
| MetadataJudging.CrawlNeedsFundingKeyword | backend/src/main/java/com/northstar/funding/discovery/service/MetadataJudgingService.java:91-135 | a result that matches no funding keyword is never crawled, whatever the other judges say |
| MetadataJudging.NoFundingSum | backend/src/main/java/com/northstar/funding/discovery/service/MetadataJudgingService.java:270-282 | without a funding keyword the weighted sum stays at or below 3.00, under 0.60 of 5.30 |
| Domains.FindByName | archived-backend/backend-20251031/src/main/java/com/northstar/funding/discovery/service/DomainRegistryService.java:82 | a name lookup returns a record carrying that name, or none exactly when no record carries it |
| Domains.FindByNameAfterSave | archived-backend/backend-20251031/src/main/java/com/northstar/funding/discovery/service/DomainRegistryService.java:182 | after a record is saved under a name's id, looking the name up finds that id |
| Domains.BestOf | archived-backend/backend-20251031/src/main/java/com/northstar/funding/discovery/service/DomainRegistryService.java:202-205 | the kept best score is at least the offered score and the old best, and is one of them |
| DomainRegistry.SkipIffBlocking | archived-backend/backend-20251031/src/main/java/com/northstar/funding/discovery/service/DomainRegistryService.java:81-136 | a domain is skipped exactly when it is registered and blacklisted, low quality, marked no-funds for the current year, or failed with a retry time still ahead; an unknown domain is processed |
| DomainRegistry.ExtractDomainName | archived-backend/backend-20251031/src/main/java/com/northstar/funding/discovery/service/DomainRegistryService.java:349-367 | a null URL, a syntax error or a missing host fails; otherwise the name is the lower-cased host, with a leading lowercase "www." removed first |
| DomainRegistry.ExtractDomainNameStripsWww | archived-backend/backend-20251031/src/main/java/com/northstar/funding/discovery/service/DomainRegistryService.java:359-363 | a leading "www." is dropped before lower-casing, so "WWW." stays as "www." |
| DomainRegistry.ShouldProcessDomain | archived-backend/backend-20251031/src/main/java/com/northstar/funding/discovery/service/DomainRegistryService.java:69-73 | a URL whose domain cannot be extracted is processed; otherwise the decision is the one for its domain name |
| DomainRegistry.NewDomain | archived-backend/backend-20251031/src/main/java/com/northstar/funding/discovery/service/DomainRegistryService.java:171-180 | a new domain record is DISCOVERED with every counter at zero |
| DomainRegistry.RegisterDomain | archived-backend/backend-20251031/src/main/java/com/northstar/funding/discovery/service/DomainRegistryService.java:162-186 | an existing record is returned unchanged; otherwise a DISCOVERED record with zero counters is saved under a fresh id |
| DomainRegistry.RegisterDomainIdempotent | archived-backend/backend-20251031/src/main/java/com/northstar/funding/discovery/service/DomainRegistryService.java:162-186 | registering a name a second time returns the first record and changes nothing |
| DomainRegistry.RegisteredDomainIsProcessed | archived-backend/backend-20251031/src/main/java/com/northstar/funding/discovery/service/DomainRegistryService.java:81-136 | a newly registered domain is processed |
| DomainRegistry.UpdateDomainQuality | archived-backend/backend-20251031/src/main/java/com/northstar/funding/discovery/service/DomainRegistryService.java:199-238 | an unknown id changes nothing; otherwise only that record changes: the best score becomes the maximum, the matching quality counter and the processing count go up by one, a high-quality candidate sets PROCESSED_HIGH_QUALITY, and no high-quality with three or more low-quality candidates sets PROCESSED_LOW_QUALITY |
| DomainRegistry.ThreeLowCandidatesRetireDomain | archived-backend/backend-20251031/src/main/java/com/northstar/funding/discovery/service/DomainRegistryService.java:221-229 | three low-quality candidates and no high-quality one make a new domain PROCESSED_LOW_QUALITY, and it is skipped from then on |
| DomainRegistry.BlacklistDomain | archived-backend/backend-20251031/src/main/java/com/northstar/funding/discovery/service/DomainRegistryService.java:252-275 | the domain ends BLACKLISTED with the admin, time and reason recorded; an unknown name gets a new record, and an existing one changes in place in those four fields only |
| DomainRegistry.BlacklistedDomainIsSkipped | archived-backend/backend-20251031/src/main/java/com/northstar/funding/discovery/service/DomainRegistryService.java:92-96 | a blacklisted domain is skipped at every later time and in every year |
| DomainRegistry.MarkNoFundsThisYear | archived-backend/backend-20251031/src/main/java/com/northstar/funding/discovery/service/DomainRegistryService.java:289-304 | an unknown domain fails with "Domain not found: " and the name; otherwise only its record changes, and only to NO_FUNDS_THIS_YEAR with the given year and notes |
| DomainRegistry.Backoff | archived-backend/backend-20251031/src/main/java/com/northstar/funding/discovery/service/DomainRegistryService.java:327-332 | the retry delay is positive, and a week from the fourth failure on |
| DomainRegistry.BackoffGrows | archived-backend/backend-20251031/src/main/java/com/northstar/funding/discovery/service/DomainRegistryService.java:327-332 | the retry delay never shrinks as failures accumulate |
| DomainRegistry.RecordProcessingFailure | archived-backend/backend-20251031/src/main/java/com/northstar/funding/discovery/service/DomainRegistryService.java:319-339 | an unknown id changes nothing; otherwise only that record changes: one more failure, PROCESSING_FAILED, the reason, and a retry time one backoff after now |
| DomainRegistry.FailedDomainWaitsOutBackoff | archived-backend/backend-20251031/src/main/java/com/northstar/funding/discovery/service/DomainRegistryService.java:319-339 | after a failure the domain is skipped exactly until its backoff has elapsed |
| DomainRegistry.RegisterDomainFromUrl | archived-backend/backend-20251031/src/main/java/com/northstar/funding/discovery/service/DomainRegistryService.java:149-152 | registration from a URL fails exactly when the name cannot be extracted, and otherwise registers that name |
| DomainStore.RegisterDomain | northstar-persistence/src/main/java/com/northstar/funding/persistence/service/DomainService.java:45-59 | an existing record is returned without saving; otherwise a DISCOVERED record for the session, with zero counters, is saved under a fresh id |
| DomainStore.RegisterDomainIdempotent | northstar-persistence/src/main/java/com/northstar/funding/persistence/service/DomainService.java:45-59 | a second registration of the same name returns the first one's record and changes nothing |
| DomainStore.UpdateStatus | northstar-persistence/src/main/java/com/northstar/funding/persistence/service/DomainService.java:68-77 | an unknown id fails with "Domain not found: " and the id; otherwise only status and processing time of that record change |
| DomainStore.BlacklistDomain | northstar-persistence/src/main/java/com/northstar/funding/persistence/service/DomainService.java:87-98 | an unknown name fails; otherwise only that record changes, to BLACKLISTED with admin, time and reason |
| DomainStore.KeepBest | northstar-persistence/src/main/java/com/northstar/funding/persistence/service/DomainService.java:119-123 | a null offered score keeps the current best; otherwise the best becomes the larger |
| DomainStore.UpdateCandidateCounts | northstar-persistence/src/main/java/com/northstar/funding/persistence/service/DomainService.java:108-134 | an unknown name fails; otherwise both counts are added with int wrap-around, exactly when the sums fit in an int, the best score is kept as a maximum, any high-quality count sets PROCESSED_HIGH_QUALITY, otherwise any low-quality count sets PROCESSED_LOW_QUALITY, and nothing else of other records changes |
| DomainStore.CandidateCountsAccumulate | northstar-persistence/src/main/java/com/northstar/funding/persistence/service/DomainService.java:108-134 | two count updates leave the counters and best score where one update with the summed counts and the larger best would, overflow included |
| ProviderAdapter.NewRateLimiter | northstar-crawler/src/main/java/com/northstar/funding/crawler/adapter/AbstractSearchProviderAdapter.java:38-55 | a new adapter has used nothing and was last reset at construction |
| ProviderAdapter.CheckAndReset | northstar-crawler/src/main/java/com/northstar/funding/crawler/adapter/AbstractSearchProviderAdapter.java:85-96 | a full day after the last reset the count returns to zero and the reset time moves to now; within the day nothing changes |
| ProviderAdapter.CurrentUsageCount | northstar-crawler/src/main/java/com/northstar/funding/crawler/adapter/AbstractSearchProviderAdapter.java:58-61 | the reported usage is the count after a possible reset |
| ProviderAdapter.IncrementUsageAndCheckLimit | northstar-crawler/src/main/java/com/northstar/funding/crawler/adapter/AbstractSearchProviderAdapter.java:73-79 | every call counts, after a possible reset, and is refused with the provider and limit exactly when the new count exceeds the daily limit |
| ProviderAdapter.Calls | northstar-crawler/src/main/java/com/northstar/funding/crawler/adapter/AbstractSearchProviderAdapter.java:73-79 | a sequence of calls yields one verdict per call |
| ProviderAdapter.CallsWithinOneDay | northstar-crawler/src/main/java/com/northstar/funding/crawler/adapter/AbstractSearchProviderAdapter.java:73-96 | within a day of a reset the k-th call passes exactly when k is at most the daily limit, and the count is the number of calls |
| ProviderAdapter.LimitThenRefusal | northstar-crawler/src/main/java/com/northstar/funding/crawler/adapter/AbstractSearchProviderAdapter.java:73-79 | with limit N, the first N calls of a day pass and call N+1 is refused |
| ProviderAdapter.NextDayStartsAfresh | northstar-crawler/src/main/java/com/northstar/funding/crawler/adapter/AbstractSearchProviderAdapter.java:85-96 | a day after the last reset the next call is the first of a new day |
| ProviderAdapter.StripWww | northstar-crawler/src/main/java/com/northstar/funding/crawler/adapter/AbstractSearchProviderAdapter.java:120 | only a leading "www." is removed |
| ProviderAdapter.BeforeSlash | northstar-crawler/src/main/java/com/northstar/funding/crawler/adapter/AbstractSearchProviderAdapter.java:123-126 | the result holds no '/', and is the whole text when there is none or else the part before the first |
| ProviderAdapter.NormalizeDomain | northstar-crawler/src/main/java/com/northstar/funding/crawler/adapter/AbstractSearchProviderAdapter.java:109-129 | a null or blank URL gives ""; otherwise lower-case, trim, drop the scheme and a leading "www.", and cut at the first '/'; the result never holds '/' |
| ProviderAdapter.NormalizeDomainOfUrl | northstar-crawler/src/main/java/com/northstar/funding/crawler/adapter/AbstractSearchProviderAdapter.java:109-129 | for every URL made of an optional http(s) scheme, an optional "www.", a lower-case host and a path starting with '/', the normalised domain is the host |
| ProviderAdapter.CheckStatus | northstar-crawler/src/main/java/com/northstar/funding/crawler/adapter/AbstractSearchProviderAdapter.java:191-203 | a response fails exactly from status 400 up: 401 and 403 as authentication failures, 429 as the rate limit, others as "HTTP <code>: <body>"; below 400 the body is passed on |
| ProviderAdapter.CreateBaseSearchResult | northstar-crawler/src/main/java/com/northstar/funding/crawler/adapter/AbstractSearchProviderAdapter.java:141-160 | a base result carries the URL, its normalised domain, title, description, rank, engine, session, discovery time and date, and nothing else |
| ProviderAdapter.BaseResultKey | northstar-crawler/src/main/java/com/northstar/funding/crawler/adapter/AbstractSearchProviderAdapter.java:141-160 | a result built by an adapter has a deduplication key exactly when it has a URL, made of its normalised domain, URL and search date |
| SearchEngines.RequiresApiKey | archived-backend/backend-20251031/src/main/java/com/northstar/funding/discovery/search/domain/SearchEngineType.java:26-90 | every engine but the self-hosted SearXNG needs an API key |
| SearchEngines.Name | archived-backend/backend-20251031/src/main/java/com/northstar/funding/discovery/search/domain/SearchEngineType.java:26-66 | every constant name is non-empty upper-case letters, so the upper-casing in fromString can reach it |
| SearchEngines.DisplayName | archived-backend/backend-20251031/src/main/java/com/northstar/funding/discovery/search/domain/SearchEngineType.java:81-83 | the display name is the constant name with only its first letter capital |
| SearchEngines.DefaultBaseUrl | archived-backend/backend-20251031/src/main/java/com/northstar/funding/discovery/search/domain/SearchEngineType.java:95-97 | the engines that need an API key have https base URLs; the self-hosted one uses plain http |
| SearchEngines.NameInjective | archived-backend/backend-20251031/src/main/java/com/northstar/funding/discovery/search/domain/SearchEngineType.java:19-66 | distinct engines have distinct names |
| SearchEngines.ValueOf | archived-backend/backend-20251031/src/main/java/com/northstar/funding/discovery/search/domain/SearchEngineType.java:115 | valueOf returns the engine with exactly that name, or none exactly when no engine has it |
| SearchEngines.FromString | archived-backend/backend-20251031/src/main/java/com/northstar/funding/discovery/search/domain/SearchEngineType.java:107-122 | null throws "value cannot be null", blank throws "value cannot be blank"; otherwise the trimmed upper-case value reads as the engine of that name, or throws naming the original value |
| SearchEngines.FromStringName | archived-backend/backend-20251031/src/main/java/com/northstar/funding/discovery/search/domain/SearchEngineType.java:107-122 | the name of every engine reads back as that engine |
| SearchEngines.FromStringIgnoresCase | archived-backend/backend-20251031/src/main/java/com/northstar/funding/discovery/search/domain/SearchEngineType.java:107-122 | any spelling whose trimmed upper case is an engine's name reads as that engine |
| SearchResults.GenerateDeduplicationKey | northstar-domain/src/main/java/com/northstar/funding/domain/SearchResult.java:181-186 | the key is null exactly when domain, URL or search date is null, and otherwise is "domain:url:date" |
| SearchResults.KeySeparatesDates | northstar-domain/src/main/java/com/northstar/funding/domain/SearchResult.java:181-186 | two results for the same domain and URL share a key exactly when they share a search date |
| SearchResults.ShouldSkipAsDuplicate | northstar-domain/src/main/java/com/northstar/funding/domain/SearchResult.java:191-193 | true exactly when the duplicate flag is set to true; a null flag reads as false |
| SearchResults.HasBeenProcessed | northstar-domain/src/main/java/com/northstar/funding/domain/SearchResult.java:198-200 | true exactly when the processed flag is set to true; a null flag reads as false |
| SearchResults.IsBlacklistedDomain | northstar-domain/src/main/java/com/northstar/funding/domain/SearchResult.java:205-207 | true exactly when the blacklisted flag is set to true; a null flag reads as false |
| SearchResults.FindByDeduplicationKey | northstar-persistence/src/main/java/com/northstar/funding/persistence/repository/SearchResultRepository.java:42 | the derived query matches the rows whose key equals the given one, a null key matching the keyless rows (`IS NULL`); none found exactly when no row matches, the only row when one does, and several rows throw IncorrectResultSizeDataAccessException |
| SearchResults.KeyedLookupSucceeds | northstar-persistence/src/main/java/com/northstar/funding/persistence/repository/SearchResultRepository.java:42 | with unique keys the lookup of a non-null key never throws |
| SearchResults.RegisterSearchResult | northstar-persistence/src/main/java/com/northstar/funding/persistence/service/SearchResultService.java:46-56 | fails exactly when several stored rows match the input's key; one match (a keyless row for a keyless input) is marked duplicate and returned, changing nothing else; no match saves the input under a fresh id |
| SearchResults.KeylessInputMatchesKeylessRow | northstar-persistence/src/main/java/com/northstar/funding/persistence/service/SearchResultService.java:46-56 | a keyless input finds a stored keyless row: with exactly one it is marked duplicate and no record is added; with two the registration fails |
| SearchResults.RegisterKeepsKeysUnique | northstar-persistence/src/main/java/com/northstar/funding/persistence/service/SearchResultService.java:46-56 | a successful registration keeps the deduplication keys of the store unique |
| SearchResults.RegisterTwiceStoresOnce | northstar-persistence/src/main/java/com/northstar/funding/persistence/service/SearchResultService.java:46-56 | registering the same keyed result twice succeeds both times and stores it once: the second call adds no record, one stored record has the key, and it is returned marked duplicate |
| SearchResults.MarkAsProcessed | northstar-persistence/src/main/java/com/northstar/funding/persistence/service/SearchResultService.java:64-71 | an unknown id fails with "SearchResult not found: " and the id; otherwise only isProcessed of that record becomes true |
| SearchResults.MarkAsBlacklisted | northstar-persistence/src/main/java/com/northstar/funding/persistence/service/SearchResultService.java:79-86 | an unknown id fails; otherwise only isBlacklisted of that record becomes true |
| SearchResults.LinkToOrganization | northstar-persistence/src/main/java/com/northstar/funding/persistence/service/SearchResultService.java:95-102 | an unknown id fails; otherwise only the organization link of that record changes |
| SearchResults.LinkToProgram | northstar-persistence/src/main/java/com/northstar/funding/persistence/service/SearchResultService.java:111-118 | an unknown id fails; otherwise only the program link of that record changes |
| SearchResults.LinkToCandidate | northstar-persistence/src/main/java/com/northstar/funding/persistence/service/SearchResultService.java:127-134 | an unknown id fails; otherwise only the candidate link of that record changes |
| SearchResults.MarkAsProcessedKeepsKeysUnique | northstar-persistence/src/main/java/com/northstar/funding/persistence/service/SearchResultService.java:64-71 | marking a result processed keeps the deduplication keys unique |
| Sessions.NewSession | northstar-domain/src/main/java/com/northstar/funding/domain/DiscoverySession.java:45-92 | a new session is RUNNING, started now, not completed, with every count at zero |
| Sessions.UpdateStatus | northstar-persistence/src/main/java/com/northstar/funding/persistence/service/DiscoverySessionService.java:59-71 | an unknown id fails with "Session not found: " and the id; otherwise only that session changes: its status, and its completion time exactly when the status is COMPLETED or FAILED |
| Sessions.DurationAt | northstar-persistence/src/main/java/com/northstar/funding/persistence/service/DiscoverySessionService.java:95-101 | only a session with a start time gets a duration, which is an int |
| Sessions.CompleteSession | northstar-persistence/src/main/java/com/northstar/funding/persistence/service/DiscoverySessionService.java:82-104 | an unknown id fails; otherwise only that session changes: COMPLETED now, the three counts, and the duration when it has a start time |
| Sessions.FailSession | northstar-persistence/src/main/java/com/northstar/funding/persistence/service/DiscoverySessionService.java:113-123 | an unknown id fails; otherwise only that session changes: FAILED now with the given messages |
| Sessions.UpdateStatistics | northstar-persistence/src/main/java/com/northstar/funding/persistence/service/DiscoverySessionService.java:132-140 | an unknown id fails; otherwise only the average confidence of that session changes |
| Sessions.MutatorsKeepStamped | northstar-persistence/src/main/java/com/northstar/funding/persistence/service/DiscoverySessionService.java:59-140 | no mutator leaves a COMPLETED or FAILED session without a completion time |
| Sessions.UpdateStatusKeepsStamped | northstar-persistence/src/main/java/com/northstar/funding/persistence/service/DiscoverySessionService.java:59-71 | a status update keeps every finished session stamped |
| Sessions.CompleteKeepsStamped | northstar-persistence/src/main/java/com/northstar/funding/persistence/service/DiscoverySessionService.java:82-104 | completing keeps every finished session stamped |
| Sessions.FailKeepsStamped | northstar-persistence/src/main/java/com/northstar/funding/persistence/service/DiscoverySessionService.java:113-123 | failing keeps every finished session stamped |
| Sessions.StatisticsKeepStamped | northstar-persistence/src/main/java/com/northstar/funding/persistence/service/DiscoverySessionService.java:132-140 | a statistics update keeps every finished session stamped |
| Sessions.CompleteAgreesWithUpdateStatus | northstar-persistence/src/main/java/com/northstar/funding/persistence/service/DiscoverySessionService.java:66-89 | completing sets status and completion time exactly as a status update to COMPLETED would |
| Sessions.DurationIsElapsedMinutes | northstar-persistence/src/main/java/com/northstar/funding/persistence/service/DiscoverySessionService.java:95-101 | a run shorter than 2^31-1 minutes records its elapsed whole minutes |
| Sessions.DurationOverflows | northstar-persistence/src/main/java/com/northstar/funding/persistence/service/DiscoverySessionService.java:100 | a run of 2^31 minutes wraps the duration to -2^31 |
| Time.MinutesBetween | northstar-persistence/src/main/java/com/northstar/funding/persistence/service/DiscoverySessionService.java:96-99 | whole minutes between two times, truncated toward zero in either direction |
| Time.YearRoundTrip | northstar-domain/src/main/java/com/northstar/funding/domain/SearchResult.java:185 | the year as LocalDate prints it reads back as the same year |
| Time.DateRoundTrip | northstar-domain/src/main/java/com/northstar/funding/domain/SearchResult.java:185 | the ISO text of a date in a deduplication key reads back as that date |
| Time.DateTextInjective | northstar-domain/src/main/java/com/northstar/funding/domain/SearchResult.java:185 | different search dates print differently |
| Organizations.FindByDomain | northstar-persistence/src/main/java/com/northstar/funding/persistence/service/OrganizationService.java:164-166 | a domain lookup returns an organization with that domain, or none exactly when none has it |
| Organizations.OrganizationExistsForDomain | northstar-persistence/src/main/java/com/northstar/funding/persistence/service/OrganizationService.java:153-155 | a domain exists exactly when some stored organization has it |
| Organizations.FindByDomainAfterSave | northstar-persistence/src/main/java/com/northstar/funding/persistence/service/OrganizationService.java:59 | after an organization is saved under its domain's id, the domain lookup finds that id |
| Organizations.RegisterOrganization | northstar-persistence/src/main/java/com/northstar/funding/persistence/service/OrganizationService.java:47-62 | a known domain returns its organization and saves nothing; otherwise a new active organization for the domain and session is saved under a fresh id |
| Organizations.RegisterOrganizationIdempotent | northstar-persistence/src/main/java/com/northstar/funding/persistence/service/OrganizationService.java:47-62 | registering a domain again, under any name or session, returns the first registration and saves nothing |
| Organizations.UpdateMetadata | northstar-persistence/src/main/java/com/northstar/funding/persistence/service/OrganizationService.java:73-91 | an unknown id fails with "Organization not found: " and the id; otherwise only the non-null fields of that organization change and its refresh time is stamped |
| Organizations.UpdateMetadataComposes | northstar-persistence/src/main/java/com/northstar/funding/persistence/service/OrganizationService.java:73-91 | two metadata updates act as one with the second call's values, falling back to the first's where the second passed null |
| Organizations.MarkAsValidFundingSource | northstar-persistence/src/main/java/com/northstar/funding/persistence/service/OrganizationService.java:100-109 | an unknown id fails; otherwise only validity, confidence and refresh time of that organization change |
| Organizations.IncrementProgramCount | northstar-persistence/src/main/java/com/northstar/funding/persistence/service/OrganizationService.java:116-125 | an unknown id fails; otherwise a null counter becomes 1 and an int counter below the maximum goes up by one, always staying an int |
| Organizations.IncrementTimes | northstar-persistence/src/main/java/com/northstar/funding/persistence/service/OrganizationService.java:116-125 | repeated increments keep the organization stored |
| Organizations.IncrementsCountFromNull | northstar-persistence/src/main/java/com/northstar/funding/persistence/service/OrganizationService.java:121-122 | from a null counter, k increments within the int range leave it at k |
| Organizations.IncrementWrapsAtIntMax | northstar-persistence/src/main/java/com/northstar/funding/persistence/service/OrganizationService.java:121-122 | the Integer addition wraps: incrementing 2^31-1 gives -2^31 |
| Organizations.Deactivate | northstar-persistence/src/main/java/com/northstar/funding/persistence/service/OrganizationService.java:133-140 | an unknown id fails; otherwise only isActive of that organization becomes false |
| Organizations.DeactivatedStillRegistered | northstar-persistence/src/main/java/com/northstar/funding/persistence/service/OrganizationService.java:133-140 | a deactivated organization is still the one registration finds for its domain |
| Programs.FindByUrl | northstar-persistence/src/main/java/com/northstar/funding/persistence/service/FundingProgramService.java:198-200 | a URL lookup returns a program with that URL, or none exactly when none has it |
| Programs.ProgramExists | northstar-persistence/src/main/java/com/northstar/funding/persistence/service/FundingProgramService.java:187-189 | a URL exists exactly when some stored program has it |
| Programs.FindByUrlAfterSave | northstar-persistence/src/main/java/com/northstar/funding/persistence/service/FundingProgramService.java:66 | after a program is saved under its URL's id, the URL lookup finds that id |
| Programs.RegisterProgram | northstar-persistence/src/main/java/com/northstar/funding/persistence/service/FundingProgramService.java:50-69 | a known URL returns its program and saves nothing; otherwise a new active program is saved under a fresh id |
| Programs.RegisterProgramIdempotent | northstar-persistence/src/main/java/com/northstar/funding/persistence/service/FundingProgramService.java:50-69 | registering a URL again, with any other details, returns the first registration and saves nothing |
| Programs.RegisteredProgramExists | northstar-persistence/src/main/java/com/northstar/funding/persistence/service/FundingProgramService.java:50-189 | after registering, the URL is known |
| Programs.UpdateStatus | northstar-persistence/src/main/java/com/northstar/funding/persistence/service/FundingProgramService.java:78-87 | an unknown id fails with "Program not found: " and the id; otherwise only status and refresh time of that program change |
| Programs.MarkAsValidFundingOpportunity | northstar-persistence/src/main/java/com/northstar/funding/persistence/service/FundingProgramService.java:96-105 | an unknown id fails; otherwise only validity, confidence and refresh time change |
| Programs.UpdateDeadline | northstar-persistence/src/main/java/com/northstar/funding/persistence/service/FundingProgramService.java:114-123 | an unknown id fails; otherwise only the deadline and refresh time change |
| Programs.Expired | northstar-persistence/src/main/java/com/northstar/funding/persistence/service/FundingProgramService.java:136-137 | an expired program is EXPIRED and inactive, otherwise unchanged |
| Programs.MarkAsExpired | northstar-persistence/src/main/java/com/northstar/funding/persistence/service/FundingProgramService.java:131-140 | an unknown id fails; otherwise only that program expires, its refresh time untouched |
| Programs.Deactivate | northstar-persistence/src/main/java/com/northstar/funding/persistence/service/FundingProgramService.java:167-174 | an unknown id fails; otherwise only isActive of that program becomes false |
| Programs.MarkAsExpiredIdempotent | northstar-persistence/src/main/java/com/northstar/funding/persistence/service/FundingProgramService.java:131-140 | expiring a program twice leaves the table as the first expiry left it |
| Programs.MarkExpiredPrograms | northstar-persistence/src/main/java/com/northstar/funding/persistence/service/FundingProgramService.java:147-159 | the sweep expires exactly the programs whose deadline has passed and whose status is neither EXPIRED nor ARCHIVED, and leaves every other program unchanged |
| Programs.MarkExpiredCountsChanges | northstar-persistence/src/main/java/com/northstar/funding/persistence/service/FundingProgramService.java:147-159 | the count returned is exactly the number of programs the sweep newly expired |
| Programs.MarkExpiredProgramsIdempotent | northstar-persistence/src/main/java/com/northstar/funding/persistence/repository/FundingProgramRepository.java:98-104 | after a sweep nothing is left to select, so a second sweep at the same time changes nothing and returns 0 |
| Programs.SweepAgreesWithMarkAsExpired | northstar-persistence/src/main/java/com/northstar/funding/persistence/service/FundingProgramService.java:131-159 | the sweep does to each selected program exactly what markAsExpired does |
| AdminUsers.IncrementWorkload | northstar-domain/src/main/java/com/northstar/funding/domain/AdminUser.java:93-101 | a user who can take an assignment (active, both figures known, workload below the maximum) gets one more; any other user is left as is |
| AdminUsers.DecrementWorkload | northstar-domain/src/main/java/com/northstar/funding/domain/AdminUser.java:103-107 | a known positive workload drops by one; otherwise nothing changes |
| AdminUsers.WorkloadStaysInRange | northstar-domain/src/main/java/com/northstar/funding/domain/AdminUser.java:93-107 | any run of assignments and releases keeps the workload between 0 and the maximum, the maximum untouched and a known workload known |
| AdminUsers.AssignThenRelease | northstar-domain/src/main/java/com/northstar/funding/domain/AdminUser.java:97-107 | taking an assignment and then releasing it restores the user |
| AdminUsers.UpdateReviewStatistics | northstar-domain/src/main/java/com/northstar/funding/domain/AdminUser.java:109-127 | the review count goes up by one with Integer wrap-around, the division by a wrapped zero count throws, and the average becomes the truncated 32-bit running mean; no other field changes |
| AdminUsers.NullStatisticsAreZero | northstar-domain/src/main/java/com/northstar/funding/domain/AdminUser.java:111-113 | null review count and average act exactly like zeros |
| AdminUsers.FirstReview | northstar-domain/src/main/java/com/northstar/funding/domain/AdminUser.java:109-127 | the first review sets the count to 1 and the average to that review's time |
| AdminUsers.RunningMean | northstar-domain/src/main/java/com/northstar/funding/domain/AdminUser.java:124-126 | away from overflow the new average is floor((a*k+t)/(k+1)) and lies between the old average and the new review time |
| AdminUsers.NoWrap | northstar-domain/src/main/java/com/northstar/funding/domain/AdminUser.java:124-125 | a plausible count, average and review time never reach the int limits, so the wrapping arithmetic is exact |
| AdminUsers.MeanBetween | northstar-domain/src/main/java/com/northstar/funding/domain/AdminUser.java:126 | the truncated mean of an average and a larger review time lies between them |
| AdminUsers.MeanLower | northstar-domain/src/main/java/com/northstar/funding/domain/AdminUser.java:126 | the truncated mean of an average and a smaller review time lies between them |
| CandidateValidation.MissingField | backend/src/main/java/com/northstar/funding/discovery/application/CandidateValidationService.java:144-154 | the first of programName, organizationName, sourceUrl that is null or blank, and none exactly when all three are present |
| CandidateValidation.ApproveCandidate | backend/src/main/java/com/northstar/funding/discovery/application/CandidateValidationService.java:43-162 | approval succeeds exactly for a stored candidate not yet APPROVED, with confidence at least 0.50 and all required fields; each refusal carries its own exception; success changes only status, reviewer, notes and review time of that candidate |
| CandidateValidation.RejectCandidate | backend/src/main/java/com/northstar/funding/discovery/application/CandidateValidationService.java:75-162 | rejection succeeds exactly for a stored candidate not already REJECTED and records reviewer, reason and time, nothing else |
| CandidateValidation.AssignToReviewer | backend/src/main/java/com/northstar/funding/discovery/application/CandidateValidationService.java:97-115 | assignment succeeds exactly when the candidate exists and the reviewer exists and is active, failing in that order with the source's exceptions |
| CandidateValidation.IsDuplicate | backend/src/main/java/com/northstar/funding/discovery/application/CandidateValidationService.java:120-124 | true exactly when some candidate row matches the duplicate query |
| CandidateValidation.ApproveTwiceFails | backend/src/main/java/com/northstar/funding/discovery/application/CandidateValidationService.java:47-49 | approving an approved candidate again fails with "already approved" |
| CandidateValidation.RejectedCandidateCanBeApproved | backend/src/main/java/com/northstar/funding/discovery/application/CandidateValidationService.java:43-91 | a rejected candidate that meets the other rules can still be approved, since only APPROVED is refused |
| CandidateValidation.RejectTwiceFails | backend/src/main/java/com/northstar/funding/discovery/application/CandidateValidationService.java:79-81 | rejecting a rejected candidate again fails with "already rejected" |
| CandidateValidation.ApprovedCount | backend/src/main/java/com/northstar/funding/discovery/application/CandidateValidationService.java:134-136 | the approved count never exceeds the list length |
| CandidateValidation.ApprovedCountFull | backend/src/main/java/com/northstar/funding/discovery/application/CandidateValidationService.java:134-136 | the count equals the length exactly when all are approved, and is zero exactly when none is |
| CandidateValidation.CalculateApprovalRate | backend/src/main/java/com/northstar/funding/discovery/application/CandidateValidationService.java:129-139 | 0 for an empty list, otherwise the share of APPROVED candidates, always between 0 and 1 |
| CandidateValidation.ApprovalRateExtremes | backend/src/main/java/com/northstar/funding/discovery/application/CandidateValidationService.java:129-139 | the rate is 1 exactly when every candidate is approved and 0 exactly when none is |
| Candidates.FirstDuplicate | backend/src/main/java/com/northstar/funding/discovery/infrastructure/FundingSourceCandidateRepository.java:188-201 | returns a row with the same organization and program names ignoring case and a status other than REJECTED, and none exactly when no row matches |
| Candidates.FirstApprovedDuplicate | backend/src/main/java/com/northstar/funding/discovery/infrastructure/FundingSourceCandidateRepository.java:188-201 | returns a matching row that is APPROVED, and none exactly when no matching row is approved |
| CandidateService.TotalPages | northstar-rest-api/src/main/java/com/northstar/funding/rest/service/CandidateService.java:75 | for a positive size the page count is the least number of pages that holds the whole list; a zero size gives 0 for an empty list and the largest int otherwise; a negative size gives no positive count |
| CandidateService.SubList | northstar-rest-api/src/main/java/com/northstar/funding/rest/service/CandidateService.java:79-81 | the slice is returned exactly when 0 <= from <= to <= length, and it holds those elements |
| CandidateService.Paginate | northstar-rest-api/src/main/java/com/northstar/funding/rest/service/CandidateService.java:58-90 | a successful page reports the list length, the page count, the page and the size, and holds at most size elements; a negative wrapped offset on a non-empty list throws IndexOutOfBounds; a negative size fails whenever the offset lies inside the list |
| CandidateService.PageFrom | northstar-rest-api/src/main/java/com/northstar/funding/rest/service/CandidateService.java:76-89 | without overflow, the page starting at the int offset holds the elements from there up to size more that exist |
| CandidateService.PageContents | northstar-rest-api/src/main/java/com/northstar/funding/rest/service/CandidateService.java:76-81 | without overflow, page p holds the elements from p*size up to (p+1)*size that exist |
| CandidateService.PagesUpToIsPrefix | northstar-rest-api/src/main/java/com/northstar/funding/rest/service/CandidateService.java:76-81 | the first k pages, walked in order, are exactly the list's first k*size elements |
| CandidateService.PagesCoverList | northstar-rest-api/src/main/java/com/northstar/funding/rest/service/CandidateService.java:75-81 | walking pages 0 to totalPages-1 returns the whole list, each element once and in order |
| CandidateService.PagePastEndIsEmpty | northstar-rest-api/src/main/java/com/northstar/funding/rest/service/CandidateService.java:79-82 | a page at or after the last one, reached without overflow, is empty but still succeeds |
| CandidateService.FarPageThrows | northstar-rest-api/src/main/java/com/northstar/funding/rest/service/CandidateService.java:76-80 | a far page whose int offset wraps negative throws IndexOutOfBounds rather than being empty |
| CandidateService.NegativeSizeThrows | northstar-rest-api/src/main/java/com/northstar/funding/rest/service/CandidateService.java:77-80 | a negative size on the first page of a non-empty list throws from subList |
| CandidateService.ApproveCandidate | northstar-rest-api/src/main/java/com/northstar/funding/rest/service/CandidateService.java:99-111 | succeeds exactly for a stored candidate that is not APPROVED, making it APPROVED and touching no other field or record; otherwise the not-found or already-approved exception |
| CandidateService.RejectCandidate | northstar-rest-api/src/main/java/com/northstar/funding/rest/service/CandidateService.java:120-137 | succeeds exactly for a stored candidate that is not REJECTED, making it REJECTED and touching nothing else; otherwise the not-found or already-rejected exception |
| CandidateService.ApproveThenRejectRestores | northstar-rest-api/src/main/java/com/northstar/funding/rest/service/CandidateService.java:99-137 | approving a rejected candidate and rejecting it again gives back the original table |
| Contacts.LastIndexOf | backend/src/main/java/com/northstar/funding/discovery/application/ContactIntelligenceService.java:26-28 | the last index holding the character, with none after it, or -1 exactly when it does not occur |
| Contacts.ValidEmailIsPattern | backend/src/main/java/com/northstar/funding/discovery/application/ContactIntelligenceService.java:26-28 | the split-based email check accepts exactly the strings the anchored pattern matches |
| Contacts.ValidEmailMatches | backend/src/main/java/com/northstar/funding/discovery/application/ContactIntelligenceService.java:26-28 | an accepted address splits at its first '@' and at the host's last '.' |
| Contacts.MatchIsValidEmail | backend/src/main/java/com/northstar/funding/discovery/application/ContactIntelligenceService.java:26-28 | any split the pattern allows makes the check accept |
| Contacts.ValidEmailExample | backend/src/main/java/com/northstar/funding/discovery/application/ContactIntelligenceService.java:26-28 | an ordinary address such as jane.doe@fund.org is accepted |
| Contacts.HostWithoutDotFails | backend/src/main/java/com/northstar/funding/discovery/application/ContactIntelligenceService.java:26-28 | a host with no dot is refused |
| Contacts.ShortTopLevelFails | backend/src/main/java/com/northstar/funding/discovery/application/ContactIntelligenceService.java:26-28 | a one-letter top-level part is refused |
| Contacts.EmailAcceptable | backend/src/main/java/com/northstar/funding/discovery/application/ContactIntelligenceService.java:156-160 | a null or blank email passes; any other passes exactly when it matches the pattern |
| Contacts.ValidateContactData | backend/src/main/java/com/northstar/funding/discovery/application/ContactIntelligenceService.java:146-161 | no error exactly when the name is present, the type is set and the email is blank or well-formed; the name is checked first, then the type |
| Contacts.IsDuplicateContact | backend/src/main/java/com/northstar/funding/discovery/application/ContactIntelligenceService.java:166-176 | a contact with an email is a duplicate exactly when a stored contact of the same candidate has that email ignoring case; without an email it never is |
| Contacts.AddContact | backend/src/main/java/com/northstar/funding/discovery/application/ContactIntelligenceService.java:46-72 | saving succeeds exactly for a known candidate and a valid, non-duplicate contact; the saved contact belongs to the candidate, is active unless it says otherwise, and is otherwise as given |
| Contacts.SecondContactWithSameEmailRefused | backend/src/main/java/com/northstar/funding/discovery/application/ContactIntelligenceService.java:166-176 | after a contact with an email is added, a second one with that email in any case is refused for the candidate |
| Contacts.NoEmailNeverDuplicate | backend/src/main/java/com/northstar/funding/discovery/application/ContactIntelligenceService.java:167-169 | a contact without an email is never a duplicate |
| Contacts.MarkContactInactive | backend/src/main/java/com/northstar/funding/discovery/application/ContactIntelligenceService.java:97-108 | an unknown id throws "Contact not found: "; otherwise only that contact changes: it is inactive and its notes gain the "Marked inactive" line, on a new line when notes existed |
| Contacts.NotesOnlyGrow | backend/src/main/java/com/northstar/funding/discovery/application/ContactIntelligenceService.java:102-105 | marking a contact inactive twice keeps the first notes as a prefix of the second |
| DaySchedule.GetCategories | northstar-search-adapters/src/main/java/com/northstar/funding/searchadapters/workflow/DayOfWeekCategories.java:98-110 | a null day throws; any day has a list of 3 to 8 categories, and a category is on it exactly when that day is its theme day |
| DaySchedule.DayInSchedule | northstar-search-adapters/src/main/java/com/northstar/funding/searchadapters/workflow/DayOfWeekCategories.java:31-88 | every day of the week has a list, of 3 to 8 categories |
| DaySchedule.ThemeDayMatchesSchedule | northstar-search-adapters/src/main/java/com/northstar/funding/searchadapters/workflow/DayOfWeekCategories.java:31-88 | a category is on a day's list exactly when that is its theme day |
| DaySchedule.ListedOnThemeDay | northstar-search-adapters/src/main/java/com/northstar/funding/searchadapters/workflow/DayOfWeekCategories.java:31-88 | every category is on its theme day's list |
| DaySchedule.ListedOnlyOnThemeDay | northstar-search-adapters/src/main/java/com/northstar/funding/searchadapters/workflow/DayOfWeekCategories.java:31-88 | a category on a day's list has that day as its theme day |
| DaySchedule.ThemesOfList | northstar-search-adapters/src/main/java/com/northstar/funding/searchadapters/workflow/DayOfWeekCategories.java:31-88 | every entry of a day's list has that day as its theme day |
| DaySchedule.ListsHaveNoRepeats | northstar-search-adapters/src/main/java/com/northstar/funding/searchadapters/workflow/DayOfWeekCategories.java:31-88 | no day lists a category twice |
| DaySchedule.AllDaysInSchedule | northstar-search-adapters/src/main/java/com/northstar/funding/searchadapters/workflow/DayOfWeekCategories.java:31-88 | the table has an entry for each of the seven days |
| DaySchedule.GetTotalCategories | northstar-search-adapters/src/main/java/com/northstar/funding/searchadapters/workflow/DayOfWeekCategories.java:117-122 | the total is the number of searches in a week, 30 |
| DaySchedule.WeekSize | northstar-search-adapters/src/main/java/com/northstar/funding/searchadapters/workflow/DayOfWeekCategories.java:117-122 | the list sizes over the seven days add up to the week's length, 30 |
| DaySchedule.DayCount | northstar-search-adapters/src/main/java/com/northstar/funding/searchadapters/workflow/DayOfWeekCategories.java:31-88 | a day's list holds a category once on its theme day and never on another day |
| DaySchedule.EachCategoryOnceAWeek | northstar-search-adapters/src/main/java/com/northstar/funding/searchadapters/workflow/DayOfWeekCategories.java:31-88 | over a week every category is searched exactly once |
| DaySchedule.OnlyOnItsThemeDay | northstar-search-adapters/src/main/java/com/northstar/funding/searchadapters/workflow/DayOfWeekCategories.java:98-110 | getCategories of a day contains a category exactly when that day is its theme day |
| DaySchedule.NoRepeatsCountsOnce | northstar-search-adapters/src/main/java/com/northstar/funding/searchadapters/workflow/DayOfWeekCategories.java:31-88 | each entry of a list without repeats occurs in it exactly once |
| DaySchedule.GetFullSchedule | northstar-search-adapters/src/main/java/com/northstar/funding/searchadapters/workflow/DayOfWeekCategories.java:128-130 | the copy has every day, each mapped to what getCategories returns for it |
| Decimal.HundredthsText | backend/src/main/java/com/northstar/funding/discovery/application/CandidateValidationService.java:53-55 | a scale-2 decimal prints with a leading minus exactly when negative and a point before its last two characters |
| Decimal.HundredthsRoundTrip | backend/src/main/java/com/northstar/funding/discovery/application/CandidateValidationService.java:53-55 | the printed decimal reads back as the value printed |
| Decimal.RoundHalfUp | backend/src/main/java/com/northstar/funding/discovery/application/DiscoveryOrchestrationService.java:146-150 | the quotient is rounded to the nearest integer, halves away from zero |
| Decimal.RoundHalfUpUnique | backend/src/main/java/com/northstar/funding/discovery/application/DiscoveryOrchestrationService.java:146-150 | the only integer within half a unit of the quotient, ties upward, is the rounded one |
| Decimal.RoundHalfUpMonotone | backend/src/main/java/com/northstar/funding/discovery/application/DiscoveryOrchestrationService.java:146-150 | a larger dividend never rounds to a smaller quotient |
| Decimal.RoundWithin | backend/src/main/java/com/northstar/funding/discovery/application/DiscoveryOrchestrationService.java:146-150 | a quotient of a sum within lo*n..hi*n rounds to a value within lo..hi |
| DiscoveryOrchestration.CheckAndMarkDuplicate | backend/src/main/java/com/northstar/funding/discovery/application/DiscoveryOrchestrationService.java:112-131 | no duplicate exactly when the duplicate query finds no row; otherwise the candidate is marked as duplicate of the first approved match, else of the first match, and nothing else about it changes |
| DiscoveryOrchestration.ApprovedMasterPreferred | backend/src/main/java/com/northstar/funding/discovery/application/DiscoveryOrchestrationService.java:119-127 | an approved match is chosen as master over any unapproved one |
| DiscoveryOrchestration.Step | backend/src/main/java/com/northstar/funding/discovery/application/DiscoveryOrchestrationService.java:78-97 | a null confidence throws; a score below 0.50 changes nothing; a duplicate is counted, not saved; otherwise the candidate is saved PENDING_REVIEW with the session id and counted |
| DiscoveryOrchestration.BelowThreshold | backend/src/main/java/com/northstar/funding/discovery/application/DiscoveryOrchestrationService.java:80-83 | the number of skipped candidates never exceeds the batch size |
| DiscoveryOrchestration.LoopAccounts | backend/src/main/java/com/northstar/funding/discovery/application/DiscoveryOrchestrationService.java:78-97 | the loop fails exactly on a null confidence; otherwise every candidate is skipped, counted as duplicate or saved, and the three counts add up to the batch size |
| DiscoveryOrchestration.CalculateAverageConfidence | backend/src/main/java/com/northstar/funding/discovery/application/DiscoveryOrchestrationService.java:136-151 | fails exactly on a null score; 0 for an empty list; otherwise the sum over the count rounded half up to hundredths |
| DiscoveryOrchestration.ScoreSumWithin | backend/src/main/java/com/northstar/funding/discovery/application/DiscoveryOrchestrationService.java:142-144 | the sum of scores within lo..hi lies within lo*n..hi*n |
| DiscoveryOrchestration.AverageWithin | backend/src/main/java/com/northstar/funding/discovery/application/DiscoveryOrchestrationService.java:136-151 | the average of non-negative scores lies between their bounds |
| DiscoveryOrchestration.ProcessDiscoveryResults | backend/src/main/java/com/northstar/funding/discovery/application/DiscoveryOrchestrationService.java:71-106 | an unknown session or a null score fails; otherwise the session is COMPLETED with the saved count, the duplicate count and the average confidence of the whole batch |
| DiscoveryOrchestration.BatchDuplicatesItself | backend/src/main/java/com/northstar/funding/discovery/application/DiscoveryOrchestrationService.java:78-97 | two candidates of a batch with the same names: the first is saved and the second counted as its duplicate |
| ProviderOrchestration.ClassifyErrorType | northstar-crawler/src/main/java/com/northstar/funding/crawler/orchestrator/MultiProviderSearchOrchestratorImpl.java:297-314 | each error type is chosen exactly when its sign shows and no earlier sign does, in the order rate limit, timeout, authentication, network, malformed response; UNKNOWN exactly when none shows |
| ProviderOrchestration.ClassifyIgnoresMessageCase | northstar-crawler/src/main/java/com/northstar/funding/crawler/orchestrator/MultiProviderSearchOrchestratorImpl.java:299 | the message is read without regard to case |
| ProviderOrchestration.NullMessageClassifiedByName | northstar-crawler/src/main/java/com/northstar/funding/crawler/orchestrator/MultiProviderSearchOrchestratorImpl.java:299-309 | a null message classifies like an empty one, so only the class name decides and the result is never INVALID_RESPONSE |
| ProviderOrchestration.ToProviderResult | northstar-crawler/src/main/java/com/northstar/funding/crawler/orchestrator/MultiProviderSearchOrchestratorImpl.java:259-292 | an answer is a success exactly when the search succeeded, carrying its results; a failure gives no results and an error with the provider, message, classified type, time and query |
| ProviderOrchestration.Answers | northstar-crawler/src/main/java/com/northstar/funding/crawler/orchestrator/MultiProviderSearchOrchestratorImpl.java:94-118 | one answer per provider, in order, each provider asked its own query |
| ProviderOrchestration.Successes | northstar-crawler/src/main/java/com/northstar/funding/crawler/orchestrator/MultiProviderSearchOrchestratorImpl.java:121-130 | a provider has results in the map exactly when one of its answers succeeded |
| ProviderOrchestration.Errors | northstar-crawler/src/main/java/com/northstar/funding/crawler/orchestrator/MultiProviderSearchOrchestratorImpl.java:121-130 | the errors are exactly those of the failed answers, never more than the answers |
| ProviderOrchestration.FewerErrorsThanAnswers | northstar-crawler/src/main/java/com/northstar/funding/crawler/orchestrator/MultiProviderSearchOrchestratorImpl.java:124-130 | one successful answer leaves fewer errors than answers |
| ProviderOrchestration.Flatten | northstar-crawler/src/main/java/com/northstar/funding/crawler/orchestrator/MultiProviderSearchOrchestratorImpl.java:177-179 | the flattened list is as long as the providers' results together and holds only their results |
| ProviderOrchestration.FlattenHasAll | northstar-crawler/src/main/java/com/northstar/funding/crawler/orchestrator/MultiProviderSearchOrchestratorImpl.java:177-179 | every result of every provider is in the flattened list |
| ProviderOrchestration.NonSpam | northstar-crawler/src/main/java/com/northstar/funding/crawler/orchestrator/MultiProviderSearchOrchestratorImpl.java:186-196 | exactly the results the spam verdict lets through, never more than the input |
| ProviderOrchestration.DeduplicateByDomain | northstar-crawler/src/main/java/com/northstar/funding/crawler/orchestrator/MultiProviderSearchOrchestratorImpl.java:202-219 | fails with the unboxing NullPointerException exactly when two non-blacklisted results share a domain and one has no rank; otherwise every such domain maps to the first of its best-ranked results |
| ProviderOrchestration.DomainsAtMostResults | northstar-crawler/src/main/java/com/northstar/funding/crawler/orchestrator/MultiProviderSearchOrchestratorImpl.java:221 | there are no more distinct domains than results |
| ProviderOrchestration.AggregateResults | northstar-crawler/src/main/java/com/northstar/funding/crawler/orchestrator/MultiProviderSearchOrchestratorImpl.java:172-227 | nothing for no input; otherwise fails, with the unboxing exception, exactly on a rank conflict among the non-spam results, else each entry is a non-spam, non-blacklisted input result of its domain, and every such input result is represented by an entry ranked no worse |
| ProviderOrchestration.AggregateMeaning | northstar-crawler/src/main/java/com/northstar/funding/crawler/orchestrator/MultiProviderSearchOrchestratorImpl.java:186-219 | the deduplicated map, read against the unfiltered results: no larger, entries from the input, and every kept domain's other results ranked no better |
| ProviderOrchestration.EntriesComeFromInput | northstar-crawler/src/main/java/com/northstar/funding/crawler/orchestrator/MultiProviderSearchOrchestratorImpl.java:204-218 | every entry is a non-spam result of its own non-blacklisted domain |
| ProviderOrchestration.KeptBeatsOthers | northstar-crawler/src/main/java/com/northstar/funding/crawler/orchestrator/MultiProviderSearchOrchestratorImpl.java:215-218 | a counted result's domain is in the map, and unless it is the entry it ranks no better than it |
| ProviderOrchestration.CalculateStatistics | northstar-crawler/src/main/java/com/northstar/funding/crawler/orchestrator/MultiProviderSearchOrchestratorImpl.java:319-342 | results found and new domains are the aggregate's size, no duplicate is counted, per-provider counts are the providers' result counts, and whatever the raw total lost is booked as spam |
| ProviderOrchestration.TotalIsListed | northstar-crawler/src/main/java/com/northstar/funding/crawler/orchestrator/MultiProviderSearchOrchestratorImpl.java:324-329 | adding up the providers' counts gives the same total in any order that lists each once |
| ProviderOrchestration.SpamCountIsWhatAggregationDropped | northstar-crawler/src/main/java/com/northstar/funding/crawler/orchestrator/MultiProviderSearchOrchestratorImpl.java:329-330 | with the four queried providers the raw total is the flattened list's length, so the spam count is everything aggregation dropped and never negative |
| ProviderOrchestration.RestrictIsIterationOrder | northstar-crawler/src/main/java/com/northstar/funding/crawler/orchestrator/MultiProviderSearchOrchestratorImpl.java:121-177 | restricting the hash order to the providers that answered lists each of them once |
| ProviderOrchestration.SpamCountInHashOrder | northstar-crawler/src/main/java/com/northstar/funding/crawler/orchestrator/MultiProviderSearchOrchestratorImpl.java:329-330 | in hash order, too, the spam count is never negative |
| ProviderOrchestration.AnswersInOrder | northstar-crawler/src/main/java/com/northstar/funding/crawler/orchestrator/MultiProviderSearchOrchestratorImpl.java:113-118 | the run collects four answers, BRAVE, SEARXNG, SERPER and TAVILY in that order, never PERPLEXICA |
| ProviderOrchestration.RunSuccesses | northstar-crawler/src/main/java/com/northstar/funding/crawler/orchestrator/MultiProviderSearchOrchestratorImpl.java:121-135 | the run has a success exactly when some provider answered, and then fewer than four errors |
| ProviderOrchestration.RunErrors | northstar-crawler/src/main/java/com/northstar/funding/crawler/orchestrator/MultiProviderSearchOrchestratorImpl.java:259-292 | each recorded error is the classified failure of an orchestrated provider asked its own query |
| ProviderOrchestration.ExecuteMultiProviderSearch | northstar-crawler/src/main/java/com/northstar/funding/crawler/orchestrator/MultiProviderSearchOrchestratorImpl.java:82-160 | all four providers failing fails with "All search providers failed"; otherwise the run fails, with the unboxing exception, exactly on a rank conflict among the successes taken in hash order; success carries the aggregate of those successes (entries and coverage), the errors, fewer than four, and statistics with a non-negative spam count |
| ProviderOrchestration.AggregateAndCount | northstar-crawler/src/main/java/com/northstar/funding/crawler/orchestrator/MultiProviderSearchOrchestratorImpl.java:138-141 | fails, with the unboxing exception, exactly on a rank conflict among the successes in hash order; success carries their aggregate (entries and coverage) and its statistics with a non-negative spam count |
| ProviderOrchestration.SessionStatusFor | northstar-crawler/src/main/java/com/northstar/funding/crawler/orchestrator/MultiProviderSearchOrchestratorImpl.java:242-251 | FAILED exactly when providers failed and nothing came through; COMPLETED exactly for a full or partial success |
| ProviderOrchestration.UpdateSessionStatisticsAsWritten | northstar-crawler/src/main/java/com/northstar/funding/crawler/orchestrator/MultiProviderSearchOrchestratorImpl.java:229-254 | an unknown session throws; otherwise the stored session gets the status, but its counts stay as they were |
| ProviderOrchestration.CountsAreLost | northstar-crawler/src/main/java/com/northstar/funding/crawler/orchestrator/MultiProviderSearchOrchestratorImpl.java:237-253 | a run that found one result leaves a fresh session showing no candidates found |
| ProviderOrchestration.UpdateSessionStatistics | northstar-crawler/src/main/java/com/northstar/funding/crawler/orchestrator/MultiProviderSearchOrchestratorImpl.java:229-254 | as intended: only that session changes, gaining the run's counts, its status and the completion time |
| ProviderOrchestration.IntendedUpdateKeepsCounts | northstar-crawler/src/main/java/com/northstar/funding/crawler/orchestrator/MultiProviderSearchOrchestratorImpl.java:237-253 | the intended update differs from the written one exactly in the two counts, and keeps every stored session's timestamps consistent |
| QueryParsing.Limit | northstar-query-generation/src/main/java/com/northstar/funding/querygeneration/strategy/KeywordQueryStrategy.java:121 | a negative limit throws; otherwise the first min(n, length) elements |
| QueryParsing.SearchQueriesTestSubsumed | northstar-query-generation/src/main/java/com/northstar/funding/querygeneration/strategy/KeywordQueryStrategy.java:135-141 | the "search queries:" test adds nothing, since such a line also contains "queries:" |
| QueryParsing.DigitRun | northstar-query-generation/src/main/java/com/northstar/funding/querygeneration/strategy/KeywordQueryStrategy.java:118 | the longest prefix of ASCII digits |
| QueryParsing.SpaceRun | northstar-query-generation/src/main/java/com/northstar/funding/querygeneration/strategy/KeywordQueryStrategy.java:118 | the longest prefix of regex whitespace |
| QueryParsing.StripNumber | northstar-query-generation/src/main/java/com/northstar/funding/querygeneration/strategy/KeywordQueryStrategy.java:118 | a line starting with digits and a full stop loses that number and the whitespace after it, leaving a rest that starts with no whitespace; any other line is unchanged |
| QueryParsing.FinalTerminator | northstar-query-generation/src/main/java/com/northstar/funding/querygeneration/strategy/KeywordQueryStrategy.java:119 | the final line terminator (one character, or CR LF) that the regex end anchor may stand before |
| QueryParsing.LeadingQuotes | northstar-query-generation/src/main/java/com/northstar/funding/querygeneration/strategy/KeywordQueryStrategy.java:119 | the longest run of quotes at the start |
| QueryParsing.TrailingQuotes | northstar-query-generation/src/main/java/com/northstar/funding/querygeneration/strategy/KeywordQueryStrategy.java:119 | the longest run of quotes at the end |
| QueryParsing.StripQuotes | northstar-query-generation/src/main/java/com/northstar/funding/querygeneration/strategy/KeywordQueryStrategy.java:119 | the leading quotes go, and the trailing ones before any final line terminator |
| QueryParsing.StripQuotesLeavesNoEndQuote | northstar-query-generation/src/main/java/com/northstar/funding/querygeneration/strategy/KeywordQueryStrategy.java:119 | after the rewrite neither end is a quote |
| QueryParsing.CleanLine | northstar-query-generation/src/main/java/com/northstar/funding/querygeneration/strategy/KeywordQueryStrategy.java:114-120 | a kept line is non-empty and has no quote at either end |
| QueryParsing.CleanLines | northstar-query-generation/src/main/java/com/northstar/funding/querygeneration/strategy/KeywordQueryStrategy.java:114-120 | at most as many lines come out as went in, each non-empty and unquoted |
| QueryParsing.ParseQueries | northstar-query-generation/src/main/java/com/northstar/funding/querygeneration/strategy/KeywordQueryStrategy.java:113-123 | a null reply throws; a negative maximum throws; otherwise at most maxQueries non-empty, unquoted queries |
| QueryParsing.GetFallbackQueries | northstar-query-generation/src/main/java/com/northstar/funding/querygeneration/strategy/KeywordQueryStrategy.java:146-150 | a negative maximum throws; otherwise the first min(maxQueries, 5) fixed queries, in order |
| QueryParsing.GenerateQueries | northstar-query-generation/src/main/java/com/northstar/funding/querygeneration/strategy/KeywordQueryStrategy.java:49-89 | a failed or null model reply falls back to the fixed queries; otherwise the parsed reply; never more than maxQueries, none empty |
| QueryParsing.CleanNumberedLine | northstar-query-generation/src/main/java/com/northstar/funding/querygeneration/strategy/KeywordQueryStrategy.java:114-120 | one numbered line of a well-formed query cleans to the query |
| QueryParsing.CleanQuotedNumberedLine | northstar-query-generation/src/main/java/com/northstar/funding/querygeneration/strategy/KeywordQueryStrategy.java:118-119 | a numbered query in quotes cleans to the query as well |
| QueryParsing.CleanNumberedLines | northstar-query-generation/src/main/java/com/northstar/funding/querygeneration/strategy/KeywordQueryStrategy.java:114-120 | numbered lines of well-formed queries clean to the queries, in order |
| QueryParsing.DroppedLineIgnored | northstar-query-generation/src/main/java/com/northstar/funding/querygeneration/strategy/KeywordQueryStrategy.java:116-117 | a blank or preamble line anywhere in the reply changes nothing in the result |
| QueryParsing.NumberedReplyRoundTrip | northstar-query-generation/src/main/java/com/northstar/funding/querygeneration/strategy/KeywordQueryStrategy.java:113-123 | a reply listing well-formed queries as numbered lines, with any numbers, parses back to exactly those queries |
| QueryParsing.NotPreamble | northstar-query-generation/src/main/java/com/northstar/funding/querygeneration/strategy/KeywordQueryStrategy.java:135-141 | a numbered line is not a preamble unless its query mentions "queries:" |
| SearchMapping.BeneficiaryCategories | northstar-rest-api/src/main/java/com/northstar/funding/rest/controller/SearchController.java:242-287 | every beneficiary population implies at least one category |
| SearchMapping.RecipientCategories | northstar-rest-api/src/main/java/com/northstar/funding/rest/controller/SearchController.java:289-327 | every recipient organization type implies at least one category |
| SearchMapping.MechanismCategories | northstar-rest-api/src/main/java/com/northstar/funding/rest/controller/SearchController.java:329-352 | every funding mechanism implies at least one category |
| SearchMapping.ImpliedEmptyIffNothingAsked | northstar-rest-api/src/main/java/com/northstar/funding/rest/controller/SearchController.java:215-237 | the implied set is empty exactly when the request names no beneficiary, recipient type or mechanism |
| SearchMapping.MapToFundingCategories | northstar-rest-api/src/main/java/com/northstar/funding/rest/controller/SearchController.java:215-240 | the set is never empty; it holds every category each requested value implies and nothing else, or PROGRAM_GRANTS and INNOVATION_GRANTS when nothing is asked |
| SearchMapping.AnyContained | northstar-rest-api/src/main/java/com/northstar/funding/rest/controller/SearchController.java:373-419 | true exactly when one of the phrases occurs in the string |
| SearchMapping.FirstHit | northstar-rest-api/src/main/java/com/northstar/funding/rest/controller/SearchController.java:373-419 | the first test some string passes, with no earlier test passed, or -1 when none is |
| SearchMapping.Classify | northstar-rest-api/src/main/java/com/northstar/funding/rest/controller/SearchController.java:362-423 | null or empty input is INTERNATIONAL; otherwise the scope of the first test passed |
| SearchMapping.MapToGeographicScope | northstar-rest-api/src/main/java/com/northstar/funding/rest/controller/SearchController.java:362-423 | null or empty input is INTERNATIONAL; otherwise INTERNATIONAL exactly when no test is passed, and else the scope of the first test that some uppercased string passes |
| SearchMapping.NoRuleIsInternational | northstar-rest-api/src/main/java/com/northstar/funding/rest/controller/SearchController.java:373-419 | no test yields INTERNATIONAL, which only the fall-through gives |
| SearchMapping.ScopeIgnoresCase | northstar-rest-api/src/main/java/com/northstar/funding/rest/controller/SearchController.java:368-370 | the letter case of the input does not change the scope |
| SearchMapping.RulesNarrowFirst | northstar-rest-api/src/main/java/com/northstar/funding/rest/controller/SearchController.java:372-419 | the tests run from countries through regions, EU groups and Europe to global |
| SearchMapping.NarrowestScopeWins | northstar-rest-api/src/main/java/com/northstar/funding/rest/controller/SearchController.java:372-423 | the result is at least as narrow as the scope of any test the input passes |
| SearchMapping.CountryBeatsRegion | northstar-rest-api/src/main/java/com/northstar/funding/rest/controller/SearchController.java:373-387 | a string naming a country decides a country scope, whatever else is given |
| SearchMapping.SoutheasternImpliesEastern | northstar-rest-api/src/main/java/com/northstar/funding/rest/controller/SearchController.java:390-398 | whatever passes the southeastern test also passes the eastern one, which runs first |
| SearchMapping.RuleOrder | northstar-rest-api/src/main/java/com/northstar/funding/rest/controller/SearchController.java:373-419 | the fourteen tests in source order, eastern sixth and southeastern eighth |
| SearchMapping.SoutheasternEuropeUnreachable | northstar-rest-api/src/main/java/com/northstar/funding/rest/controller/SearchController.java:390-398 | as written, no input is ever classified SOUTHEASTERN_EUROPE |
| SearchMapping.SoutheasternEuropeReadAsEastern | northstar-rest-api/src/main/java/com/northstar/funding/rest/controller/SearchController.java:390-398 | as written, "Southeastern Europe" is classified EASTERN_EUROPE |
| SearchMapping.NoCountryIn | northstar-rest-api/src/main/java/com/northstar/funding/rest/controller/SearchController.java:373-387 | "SOUTHEASTERN EUROPE" passes none of the five country tests |
| SearchMapping.ClassifiedByFirstHit | northstar-rest-api/src/main/java/com/northstar/funding/rest/controller/SearchController.java:372-423 | the scope is that of the first test passed |
| SearchMapping.CorrectedGeographicScope | northstar-rest-api/src/main/java/com/northstar/funding/rest/controller/SearchController.java:362-423 | the corrected classifier still maps null or empty input to INTERNATIONAL |
| SearchMapping.CorrectedKeepsSoutheastern | northstar-rest-api/src/main/java/com/northstar/funding/rest/controller/SearchController.java:396-398 | with the southeastern test moved ahead, a southeastern name naming no country is SOUTHEASTERN_EUROPE |
| SearchMapping.CorrectedNarrowFirst | northstar-rest-api/src/main/java/com/northstar/funding/rest/controller/SearchController.java:372-419 | the corrected order still tries the narrowest scopes first |
| SearchMapping.CorrectedReadsSoutheastern | northstar-rest-api/src/main/java/com/northstar/funding/rest/controller/SearchController.java:396-398 | with the corrected order "Southeastern Europe" is SOUTHEASTERN_EUROPE |
| SearchQueries.TagTypeValueOf | backend/src/main/java/com/northstar/funding/discovery/search/domain/SearchQuery.java:174 | the tag type with exactly this name, and none exactly when no type has it |
| SearchQueries.TagTypeNameShape | backend/src/main/java/com/northstar/funding/discovery/search/domain/SearchQuery.java:174-180 | a type name is non-empty, colon-free and upper case, so it survives formatting and upper-casing |
| SearchQueries.TagTypeNameInjective | backend/src/main/java/com/northstar/funding/discovery/search/domain/SearchQuery.java:180 | distinct tag types have distinct names |
| SearchQueries.NewQueryTag | archived-backend/backend-20251031/src/test/java/com/northstar/funding/discovery/search/domain/QueryTagTest.java:39-60 | a tag is built exactly from a type and a non-blank value; a null type or value throws NullPointerException, a blank value IllegalArgumentException |
| SearchQueries.ParseTag | backend/src/main/java/com/northstar/funding/discovery/search/domain/SearchQuery.java:169-177 | a string without a colon throws "Invalid tag format"; a parsed tag is always valid, its type read upper-cased before the first colon and its value after it |
| SearchQueries.FormatTag | backend/src/main/java/com/northstar/funding/discovery/search/domain/SearchQuery.java:179-181 | the first colon of the text separates the type's name from the value, which parseTag relies on |
| SearchQueries.ColonSplit | backend/src/main/java/com/northstar/funding/discovery/search/domain/SearchQuery.java:170 | splitting with limit 2 cuts at the first colon only |
| SearchQueries.FirstColon | backend/src/main/java/com/northstar/funding/discovery/search/domain/SearchQuery.java:170-180 | a colon-free type name followed by a colon ends at the first colon |
| SearchQueries.ParseFormatTag | backend/src/main/java/com/northstar/funding/discovery/search/domain/SearchQuery.java:169-181 | parseTag inverts formatTag on every valid tag |
| SearchQueries.FormatTagInjective | backend/src/main/java/com/northstar/funding/discovery/search/domain/SearchQuery.java:179-181 | distinct tags format to distinct strings |
| SearchQueries.ParsedTagIsSpelling | backend/src/main/java/com/northstar/funding/discovery/search/domain/SearchQuery.java:169-177 | a parsed string is some spelling of the type, a colon and the value |
| SearchQueries.UnsavedQueriesEqual | backend/src/main/java/com/northstar/funding/discovery/search/domain/SearchQuery.java:41-49 | equality looks only at the id, so two unsaved queries are equal whatever their contents |
| SearchQueries.BuildQuery | backend/src/main/java/com/northstar/funding/discovery/search/domain/SearchQuery.java:74-102 | the builder keeps the text and day and defaults to no tags, no engines, 25 expected results and enabled |
| SearchQueries.Violations | backend/src/main/java/com/northstar/funding/discovery/search/domain/SearchQuery.java:55-95 | no violation exactly when the text is present with 1 to 500 characters, the day is set, and expected results, when present, lie in 1..100 |
| SearchQueries.BuiltQueryValid | backend/src/main/java/com/northstar/funding/discovery/search/domain/SearchQuery.java:55-102 | the defaults satisfy the constraints, so a built query with a valid text and a day is valid |
| SearchQueries.AddTag | backend/src/main/java/com/northstar/funding/discovery/search/domain/SearchQuery.java:141-144 | a null tag throws; otherwise the formatted tag joins the set and nothing else changes |
| SearchQueries.ContainsTag | backend/src/main/java/com/northstar/funding/discovery/search/domain/SearchQuery.java:162-165 | a null tag throws; otherwise true exactly when the formatted tag is stored |
| SearchQueries.ContainsAfterAdd | backend/src/main/java/com/northstar/funding/discovery/search/domain/SearchQuery.java:141-165 | after adding a, containsTag(b) holds exactly when b is a or was already there |
| SearchQueries.AddTagIdempotent | backend/src/main/java/com/northstar/funding/discovery/search/domain/SearchQuery.java:141-144 | adding a tag twice is adding it once |
| SearchQueries.NewQueryHasNoTags | backend/src/main/java/com/northstar/funding/discovery/search/domain/SearchQuery.java:74-165 | a freshly built query contains no tag |
| SearchQueries.AddTargetEngine | backend/src/main/java/com/northstar/funding/discovery/search/domain/SearchQuery.java:151-154 | a null engine throws; otherwise its name joins the set and nothing else changes |
| SearchQueries.MapAll | backend/src/main/java/com/northstar/funding/discovery/search/domain/SearchQuery.java:120-122 | mapping a stream succeeds exactly when every element maps, else fails with some element's exception |
| SearchQueries.ParsedTags | backend/src/main/java/com/northstar/funding/discovery/search/domain/SearchQuery.java:119-123 | succeeds exactly when every stored string parses, giving exactly the parsed tags; otherwise fails with a stored string's exception |
| SearchQueries.ParsedTagsOfAddedTags | backend/src/main/java/com/northstar/funding/discovery/search/domain/SearchQuery.java:119-144 | tags put in with addTag come back out of getParsedTags, and only those |
| SearchQueries.AddedTagsParse | backend/src/main/java/com/northstar/funding/discovery/search/domain/SearchQuery.java:141-177 | every string stored by addTag parses |
| SearchQueries.ParseEngine | backend/src/main/java/com/northstar/funding/discovery/search/domain/SearchQuery.java:132 | the engine with exactly this name, else IllegalArgumentException "No enum constant" |
| SearchQueries.ParsedTargetEngines | backend/src/main/java/com/northstar/funding/discovery/search/domain/SearchQuery.java:130-134 | succeeds exactly when every stored name is an engine, giving exactly the engines named |
| SearchQueries.AddedEngineParsed | backend/src/main/java/com/northstar/funding/discovery/search/domain/SearchQuery.java:130-154 | an engine added with addTargetEngine is among the parsed engines |

## Left out

- HTTP search adapters, the language-model client, Kafka consumers and Spring wiring are left out; they are network I/O and framework code. Each adapter's answer and the model's reply enter as parameters (`Outcome`, `Result<Option<string>>`).
- Concurrency is left out. The orchestrator's virtual-thread fan-out runs in the model as a sequential pass over the providers in their fixed order. The candidate-processing executor does the same over the results.
- ProviderOrchestration.ExecuteMultiProviderSearch: the 10-second `orTimeout` on the provider futures is not modelled, because it depends on wall-clock time; a run whose providers all answer is what the contract describes.
- Repository SQL is modelled only through its filter. Spring Data finder queries become `Store.FindWhere`, and a query without ORDER BY takes rows in id order.
- `HashMap` iteration order is a parameter. `hashOrder` lists the providers once each; no particular hash order is assumed.
- Floating-point values are left out because they are approximations: `AdminUser.approvalRate` is not modelled. The spam analysis confidence, a `double`, is modelled in hundredths, which is exact for the values 0.35, 0.70 and 1.00 it can take.
- AdminUsers.UpdateReviewStatistics: the running approval rate, a `double`, is not modelled; only the review count and the average review time are.
- AdminUsers.UpdateReviewStatistics: when the count wraps to zero and the division throws, Java has already stored the defaults and the wrapped count on the object; the model returns only the failure, because a `Result` carries no partial state.
- CandidateValidation.CalculateApprovalRate: the rate is an exact `real`, without the rounding of a `double` division.
- The spam detectors (keyword stuffing, domain-metadata mismatch, unnatural keyword list, cross-category spam) enter as predicates. Their sources are not part of this model.
- MetadataJudging.BuildReasoning: `String.format("%.2f")` is taken to print with a point, as in a locale such as `Locale.ROOT`; a default locale with a decimal comma is not modelled.
- `java.net.URI` parsing is not modelled. Its outcome enters as a `UriParse` value. The manual host fallback the scorer uses when parsing fails is modelled exactly.
- Case mapping (`Text.LowerChar`, `Text.UpperChar`) follows Character.toLowerCase and Character.toUpperCase on ASCII, Latin-1, Latin Extended-A (so "ČESKÉ" lowers to "české", and dotless i and long s upper-case to I and S) and basic Cyrillic, one character at a time. Left out: other scripts (Greek, Armenian, Latin Extended-B and beyond), the default-locale rules (a Turkish locale upper-cases i to a dotted capital), and the mappings that change a string's length: "ß".toUpperCase() is "SS", U+0130 lower-cases to i plus a combining dot, and U+0149 upper-cases to two characters; the model leaves those characters unchanged. Text containing them can therefore diverge from the Java program in every case-insensitive member: ConfidenceScoring.DetectSignals (keyword matching on lower-cased text), SearchEngines.FromString, SearchQueries.ParseTag and SearchMapping.MapToGeographicScope (upper-cased names), and the equalsIgnoreCase and lower-cased domain comparisons built on `Text.EqualsIgnoreCase` and `Text.Lower`, because a per-character function cannot produce two characters from one.
- `@Size` counts UTF-16 code units in Java. The model counts characters, which is the same for text without surrogate pairs.
- NullPointerException messages are reproduced exactly only where the text is fixed: `Objects.requireNonNull` messages, and the JVM's own messages for unboxing a null rank position and for splitting a null reply. Other null dereferences carry a short label naming the null field instead of the JVM's message, because the JVM generates that text.
- Logging, prompt construction, and read-only delegations to repositories (`findById`, `getRecentSessions`, `getPendingCandidates` and similar) are left out. They decide nothing.
- The candidate-processing executor's catch-all around a result that throws is modelled as the FAILED outcome, with the exception's message. Exception types thrown by collaborators are not distinguished.
- The discovery orchestration service updates the caller's candidate objects in place (status, duplicate marks). The model returns new records instead, because Dafny datatypes are immutable; callers that keep the old references are not modelled.
- The enum sources (DomainStatus, CandidateStatus, SessionStatus, ProgramStatus, TagType, ErrorType, FundingSearchCategory) and the `QueryTag` and `SearchExecutionResult` records are not part of this model. Their constants and checks are taken from how the modelled files and their tests use them. `isFullSuccess`, `isPartialSuccess` and `isCompleteFailure` are read from their names. FundingSearchCategory is taken to hold exactly the thirty constants the day-of-week schedule lists.
- CandidateService.PagesCoverList: the page walk is proved only for lists whose last page offset stays within `int`. Beyond that the offset wraps, and FarPageThrows shows what happens then.
- QueryParsing.ParseQueries: the contract bounds the output and fixes its shape. The exact queries are stated for replies made of numbered lines by NumberedReplyRoundTrip, not for arbitrary text.
- Integer counters in records, such as session counts, are unbounded here. 32-bit wrap-around is modelled where one call can reach an overflow: AdminUser's review statistics, OrganizationService's program counter, DomainService's candidate counts, a session's duration in minutes and the page offset.
- Other strategies' query parsing, ApiUsageTrackingService, the REST controllers' input checks, and the category and geographic keyword tables are left out. They repeat logic that is modelled here.

## Findings

| source | as written | input that shows it | evidently intended | confidence | as-written member | corrected member |
|---|---|---|---|---|---|---|
| northstar-rest-api/src/main/java/com/northstar/funding/rest/controller/SearchController.java:390-398 | the EASTERN EUROPE test runs before the SOUTHEASTERN EUROPE test, and every string containing "SOUTHEASTERN EUROPE" contains "EASTERN EUROPE" | the geographic string "Southeastern Europe" is classified EASTERN_EUROPE; no input ever yields SOUTHEASTERN_EUROPE | the southeastern test runs first, so "Southeastern Europe" is SOUTHEASTERN_EUROPE | high; not executed | SearchMapping.SoutheasternEuropeReadAsEastern | SearchMapping.CorrectedKeepsSoutheastern |
| northstar-crawler/src/main/java/com/northstar/funding/crawler/orchestrator/MultiProviderSearchOrchestratorImpl.java:237-253 | the counts and completion time are set on the loaded session, which is never saved; updateStatus then reloads the stored session and saves only the status | a run with one result, on a fresh session, leaves candidatesFound at 0 | the session keeps the run's counts along with its final status | high; not executed | ProviderOrchestration.CountsAreLost | ProviderOrchestration.IntendedUpdateKeepsCounts |
