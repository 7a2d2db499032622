# FlattyBot matching core in Dafny

FlattyBot is a Telegram bot that watches Geneva rental listings and alerts
each user about the listings that fit their criteria. This project models
the part of it that decides and records those alerts, and the location data
the criteria refer to:

- `Scoring` — `ScoringService.calculateScore`: the strict phase (zone 30,
  budget 30, rooms 25, type 15 points, each earned as "benefit of doubt"
  when unspecified or unknown, one failure vetoing everything), the comfort
  phase (5/4/4/4, capped at 30) and the badges. JavaScript truthiness is
  explicit: `Truthy(o, zero)` holds for `Some(v)` with `v != zero`, so a
  budget, rent or room bound of `0` behaves as absent. The zone text is
  `"<ville> <quartier> <code_postal> <adresse_complete>"` with a missing
  column rendered as `null`.
- `Text` — `toLowerCase` (ASCII and Latin-1 capitals) and `includes` (a
  left-to-right scan proved equal to "occurs at some position").
- `ScoringProperties` — the scorer's promises as lemmas: match labels and
  their order, comfort bonuses, badges, the zero-as-absent rules, and the
  listing/criteria pair of the repository's scoring test.
- `Locations` — `LocationRepository` over already-parsed location data:
  canonical set, flattening of the five alias sections into
  `(source, target, context)` triples, and the internal consistency check.
- `Proximity` — `ProximityGraph`: a read-only directed adjacency map.
- `Poller` — one polling cycle (`poll` → `processUser` → `sendAlert`) over
  the `sent_alerts` table, with criteria lookup, the sent-alert lookup and
  message delivery as oracles.
- `LocationCheck` — the `verify_locations` script: node cross-check
  between canonical locations and the proximity graph, postal expectations,
  and issue counting.

Independent reference definitions sit next to the executable ones:
`StrictPasses` (existential occurrence, no scanning) for the verdict
functions, `IsCanonical` for the built set, `Lists` for the flattened
triples, `AliasTargetsCanonical` for the consistency check, `Justified`,
`CheckedAt` and `CompleteUpTo` for the poll loop.

## Model

| member | source | states |
|---|---|---|
| Scoring.CalculateScore | src/services/scoring.service.ts:14-151 | A failing strict dimension yields all zeros, empty match lists and no badges (an earlier price badge is dropped); otherwise the strict score is exactly 100, comfort lies in 0..30 and total = strict + comfort; total > 0 iff every strict dimension passes; total is 0 or in 100..117 |
| Scoring.VerdictsAgree | src/services/scoring.service.ts:27-100 | Each of zone, budget, rooms and type fails exactly when its reference condition (case-insensitive occurrence in the zone text, truthy rent above truthy budget, rooms outside a truthy bound, no wanted type inside a truthy listing type) holds |
| Scoring.SomeIncludedMentions | src/services/scoring.service.ts:30-31 | Some zone, lower-cased, is found by the substring scan in the lower-cased zone text iff some zone occurs case-insensitively in it |
| Scoring.SomeIncluded | src/services/scoring.service.ts:31 | The `some(... includes ...)` test is true iff some needle, lower-cased, is included in the text |
| Text.Includes | src/services/scoring.service.ts:31 | The scan answers true iff the needle occurs at some position of the text |
| Text.Lower | src/services/scoring.service.ts:30 | Lower-casing keeps the length, leaves no capital in the result and keeps every character that is not a capital in its place; each capital becomes its small letter |
| Text.LowerChar | src/services/scoring.service.ts:30 | A capital becomes its small letter 32 code points above, any other character is kept, and the result is never a capital |
| Text.LowerIdempotent | src/services/scoring.service.ts:30-31 | Lower-casing an already lower-cased string changes nothing, so lower-casing both sides of `includes` is stable |
| Text.EmptyNeedleAlwaysIncluded | src/services/scoring.service.ts:31 | An empty zone or type string is included in every text, so it always matches |
| ScoringProperties.StrictMatchLabels | src/services/scoring.service.ts:29-100 | On a pass, "Zone" is listed iff zones were given; "Budget" iff budget and rent are both truthy; "Pièces" iff a truthy room bound exists and the room count is known; "Type" iff types were given and the listing type is truthy; labels appear in the order Zone, Budget, Pièces, Type |
| ScoringProperties.ComfortBonuses | src/services/scoring.service.ts:116-137 | On a pass, the comfort score is the sum of the four bonuses, each given only when wanted and present (top floor 5, balcony or terrace 4, furnished 4, parking 4), and is at most 17 |
| ScoringProperties.ComfortMatchLabels | src/services/scoring.service.ts:116-131 | On a pass, each comfort label is listed iff its bonus is earned, in the order top floor, balcony/terrace, furnished, parking |
| ScoringProperties.UnscoredComfortIgnored | src/services/scoring.service.ts:114-132 | The `calme`, `ascenseur` and `autres` criteria never change the result |
| ScoringProperties.Badges | src/services/scoring.service.ts:44-61 | The price badge appears iff the listing passes, budget and rent are truthy, rent ≤ budget and 100·rent ≤ 85·budget; the urgent badge appears iff the listing passes and is urgent; a vetoed listing has no badge |
| ScoringProperties.PerfectMatchUnreachable | src/services/scoring.service.ts:141 | The perfect-match badge is never awarded, since total never exceeds 117 |
| ScoringProperties.TestListingScores109 | src/tests/scoring.test.ts:6-82 | The test listing against the test criteria scores strict 100, comfort 9, total 109 |
| ScoringProperties.OverBudgetListingVetoed | src/services/scoring.service.ts:56-58 | The test listing with rent 2600 against budget 2500 is rejected outright |
| ScoringProperties.ZeroBudgetIsUnset | src/services/scoring.service.ts:44 | A budget of 0 scores exactly like no budget |
| ScoringProperties.ZeroRentIsUnknown | src/services/scoring.service.ts:45-55 | A rent of 0 scores exactly like an unknown rent |
| ScoringProperties.ZeroRoomBoundsAreUnset | src/services/scoring.service.ts:64-68 | A minimum or maximum room bound of 0 scores exactly like an absent bound |
| ScoringProperties.TypeMismatchVetoes | src/services/scoring.service.ts:85-93 | A wanted type the listing type does not contain vetoes the test listing |
| Locations.LoadCanonicalLocations | src/repositories/LocationRepository.ts:37-45 | The built set holds exactly the communes, intra-muros districts and historical places |
| Locations.AddAll | src/repositories/LocationRepository.ts:40-42 | Adding a list to a set gives exactly the union |
| Locations.NewLocationRepository | src/repositories/LocationRepository.ts:30-35 | The constructor keeps the data and establishes that the stored set is the canonical union |
| Locations.GetCanonicalLocations | src/repositories/LocationRepository.ts:47-49 | The returned set holds exactly the canonical locations of the stored data |
| Locations.EntryTargets | src/repositories/LocationRepository.ts:56-62 | A triple comes out of an entry iff it carries the entry's key, the section's context and one of the entry's values; there is one per value, in value order |
| Locations.ProcessSection | src/repositories/LocationRepository.ts:54-64 | A section yields one triple per value; every triple carries `mapping.<section>`; a triple is produced iff its key lists its target in that section |
| Locations.GetMappingTargets | src/repositories/LocationRepository.ts:51-73 | The triple count is the sum of the value-list lengths of the five sections; a triple is present iff its section lists it; sections appear in the fixed order variantes, termes vagues, infrastructures, lieux-dits, secteurs |
| Locations.ContextsDistinct | src/repositories/LocationRepository.ts:66-70 | The five context strings are pairwise distinct, so each names its section |
| Locations.ValidateInternalConsistency | src/repositories/LocationRepository.ts:75-86 | One diagnostic per triple whose target is not canonical, in triple order, each naming such a triple, every such triple named; the list is empty iff every alias target in every section is canonical |
| Locations.CheckTargets | src/repositories/LocationRepository.ts:79-83 | The diagnostics are those of the non-canonical triples, in triple order, as many as there are such triples, and empty iff every target is canonical |
| Locations.TargetsCanonicalIffAliases | src/repositories/LocationRepository.ts:51-86 | Every flattened triple has a canonical target iff every value of every alias section is canonical |
| Proximity.GetAllNodes | src/repositories/ProximityGraph.ts:21-23 | The node list holds exactly the names for which `hasNode` holds |
| Proximity.GetNeighbors | src/repositories/ProximityGraph.ts:25-27 | Only names in the node list have neighbours; a node's neighbours are its stored list, nothing added or dropped; a non-node has none |
| Proximity.NeighborsOnlyOfNodes | src/repositories/ProximityGraph.ts:25-27 | Only nodes have neighbours |
| Proximity.NoImplicitReverseEdge | src/repositories/ProximityGraph.ts:8-28 | An edge A→B does not make A a neighbour of B: no symmetry is added |
| Poller.ProcessUser | src/services/poller.ts:44-66 | The table only grows, by the rows of delivered-and-saved attempts; a user without criteria causes no attempt; each attempt is a positive score computed with the user's criteria for a pair found unsent just before; listings are tried in order; every listing with a positive score is attempted unless its sent-alert lookup succeeded and found exactly one row for the pair, so a failed lookup or a pair held twice always leads to an attempt |
| Poller.SendAlert | src/services/poller.ts:68-108 | The table only grows, by at most one row, and a new row copies the attempt's score with action `SENT`; afterwards the pair is recorded iff it was before or the send and the save both succeeded; a failed send or save leaves the table unchanged |
| Poller.Poll | src/services/poller.ts:28-42 | The table only grows, by the saved rows of the attempts; a throwing fetch makes no attempt; users are processed in order; every attempt is justified and checked against the table as it stood; every (user with criteria, listing with positive score) pair is attempted unless its sent-alert lookup succeeded and found exactly one row for it |
| Poller.NoResendOfRecordedPair | src/repositories/alert.repository.ts:17-29 | With working lookups and one row per pair when the cycle starts, a pair recorded then is never attempted |
| Poller.AtMostOneRowPerPair | src/services/poller.ts:50-51 | With working lookups, a table holding each pair at most once still does so after the cycle |
| Poller.UniqueRecordedOnce | src/repositories/alert.repository.ts:17-29 | In a table with one row per pair, the single-row lookup finds a pair exactly when the pair is recorded |
| Poller.AttemptedWhenHeldTwice | src/services/poller.ts:50-51 | After a complete cycle, a scoring pair held at two positions of the table has been attempted, since its lookup finds more than one row and reads as not sent |
| Poller.RepeatedPairResent | src/repositories/alert.repository.ts:17-29 | A scoring pair held twice is attempted in every cycle, and when the send and the save succeed it gets yet another row |
| Poller.AttemptedDespiteLookupError | src/services/poller.ts:50-51 | After a complete cycle, a scoring pair whose sent-alert lookup failed has been attempted, whether or not the table holds it |
| Poller.ResentAfterLookupError | src/repositories/alert.repository.ts:17-30 | A failed lookup reads as not sent: a pair already in the table, with a failing lookup, a positive score and a send and save that succeed, gets a second row, so the table no longer holds each pair once |
| Poller.SecondRow | src/services/poller.ts:92-102 | A saved attempt for a pair the table already holds adds a row for the same pair after the old rows |
| Poller.DeliveredIsSaved | src/services/poller.ts:92-102 | The row of each attempt that was sent and saved appears among the saved rows, after those of the earlier attempts |
| Poller.RowsComeFromDeliveredAlerts | src/services/poller.ts:62-64 | Every saved row copies a delivered attempt, has action `SENT`, a positive total, a user with criteria and the score computed with those criteria |
| LocationCheck.VerifyLocations | src/scripts/verify_locations.ts:5-90 | Missing nodes are exactly the canonical locations absent from the graph; extra nodes only are reported, never counted; a postal code is listed iff an expected location is absent from its lookup, once, and only test codes are listed; the issue count is internal errors + missing nodes + database-term errors + failed codes; the run fails iff that count is nonzero |
| LocationCheck.MissingNodes | src/scripts/verify_locations.ts:30-35 | Exactly the canonical locations that are not graph nodes |
| LocationCheck.FailedPostalTests | src/scripts/verify_locations.ts:59-75 | A test's code is listed iff one of its expected locations is missing from the lookup result; no code is listed twice and nothing but test codes is listed, so the list has one entry per failing test |
| LocationCheck.MissingFrom | src/scripts/verify_locations.ts:70 | The missing expectations are exactly the expected names absent from the result |
| LocationCheck.PostalCodesDistinct | src/scripts/verify_locations.ts:61-65 | The three postal test codes are distinct, so counting failing codes counts failing tests |

## Left out

- Reading `known_locations.json` and `proximity.json` from disk: the parsed data is a constructor argument. The `metadata` block is not modelled because nothing reads it.
- Object key order: a JSON object of aliases is a sequence of `(key, values)` entries in `Object.entries` order; the proximity map is a Dafny `map`, so `GetAllNodes` is a set and its order is not modelled. Inherited object properties (`toString` and friends) read by `data[name]` in `getNeighbors` are not modelled.
- `findCanonical` and `validateDbTermsConsistency` are called by the script but defined in no repository file; their results are inputs of `VerifyLocations`.
- Console output, `process.exit` and the wording of warnings: the report carries the counted sets and an `exitFailure` flag instead.
- The `setInterval` timer of `startPolling` and overlapping cycles: one sequential cycle is modelled.
- Supabase calls: the active-user list, the recent-ads list, criteria lookup, the sent-alert lookup and message delivery are parameters. `getRecentAds` and `getAllActiveUsers` return empty lists on a database error; an exception thrown by either fetch is `FetchThrew` and ends the cycle before any user. The sent-alert lookup asks for a single row: it reads as "sent" only when exactly one row matches, and a lookup that errors, finds no row or finds two rows reads as "not sent", following the alert repository. The `saveAlert` result is ignored by the poller, so delivery reports whether the row was saved.
- Message formatting, image lookup and the choice between photo and text message: a send either fails or succeeds.
- The 48-hour cutoff of `getRecentAds` depends on the clock; the listing list is an input.
- Criteria whose `criteres_stricts` block is `null`: `calculateScore` throws as soon as it reads the zones (src/services/scoring.service.ts:29). `processUser` does not catch it, so the catch around the whole user loop in `poll` (src/services/poller.ts:39-41) ends the cycle, and every user after that one gets nothing. A `null` `criteres_confort` block throws the same way, but only for a listing that passes the strict phase (src/services/scoring.service.ts:116). A `Criteria` value always holds both blocks, so these aborted cycles are not modelled. An absent zone or type list is the empty sequence, which the scorer treats the same way.
- Poller.Poll: the completeness clause (`CompleteUpTo`: every scoring pair is attempted unless its lookup found its single row) holds only because a `Criteria` value cannot hold a `null` block; in the source, a user with a `null` strict block ends the cycle and the later users are never processed. The same holds for Poller.ProcessUser, which in the source stops at the first listing that makes the scorer throw.
- A missing text column is rendered `null` in the zone text; the `undefined` rendering of a missing property is not modelled.
- Poller.NoResendOfRecordedPair: promised only for a table holding each pair at most once; a pair held twice is sent again in every cycle, which Poller.RepeatedPairResent states.
- Text.LowerChar: folds only ASCII and Latin-1 capitals (U+00C0–U+00DE except U+00D7), not full Unicode case mapping.
- Scoring.CheapEnough: the price-badge test `rent <= budget * 0.85` is floating-point in the source; the model uses the exact rational comparison `100·rent ≤ 85·budget`, which can differ from the floating-point result only at the rounding boundary.
- Rents and budgets are unbounded integers and room counts are exact reals; floating-point values and `NaN` are not modelled.
- The ranking and filtering of listings beyond `calculateScore`, the alias and postal-code resolver, the chat dialogue and the language-model extraction of criteria are outside this model.

The strict type check is a veto in the code (a listing whose type contains
none of the wanted types is rejected); the model follows the code.
