# Class-start countdown for Peruvian universities — a Dafny model

The system answers one question per institution: when do classes start? The server's
`/api/university` handler tries three sources in turn:

- the seeded institution table, when a record has an official date and a confidence of
  at least 0.6;
- otherwise, a web search, whose result page is flattened into text fragments and handed
  to a language-model extraction step;
- otherwise, a historical prediction, which re-dates the middle entry of the record's
  history into the current year, or falls back to the first of March.

The front end renders one countdown card per institution. A card shows a date only when it
is official or has a confidence of at least 0.6; otherwise it says the date is not
confirmed. A search box filters the cards by a case-insensitive substring of the name.

The model has one module per source file:

- `Strings` holds the JavaScript string behaviour the code relies on: truthiness,
  `|| null`, `toLowerCase`, `trim`, `includes`, `${n}` and `join`.
- `Registry` and `RegistryFacts` hold the seeded table, its lookup and the facts the
  table satisfies.
- `Search` models `searchWeb`, as imperative methods proved against a flattening function.
- `Extraction` models `analyzeWithAI`, `safeParseJSON` and `computeConfidence`.
- `Predict` models `predictHistorically`.
- `Handler` models the request handler.
- `Countdown` models the card.
- `QueryFilter` models the search box.

The collaborators reached over the network become parameters, and so do the clock:

- the SerpAPI fetch with its JSON decoding;
- the language-model call;
- `JSON.parse`;
- the current year, and the card's clock reading and parsed target instant.

Every result holds for all of their values.

## Model

| member | source | states |
|---|---|---|
| Strings.OrNull | server/index.js:57-59 | `x \|\| null` keeps a non-empty string and turns an absent or empty one into null |
| Strings.Lower | server/index.js:28 | `toLowerCase` keeps the length and lowers each character in place |
| Strings.CaseBlind | server/index.js:28 | two names compare equal after `toLowerCase` iff they have the same length and each pair of characters lowers alike, so the lookup ignores how the letters were capitalised |
| Strings.Trim | src/App.jsx:25 | `trim` returns the middle of the string with only whitespace cut from both ends, and the result neither starts nor ends with whitespace |
| Strings.TrimPadded | src/App.jsx:25 | whitespace added around a string is exactly what `trim` removes |
| Strings.Contains | src/App.jsx:27 | `includes` holds iff the needle occurs at some position |
| Strings.Join | server/ai.js:119 | `join` of no parts is empty and of one part is that part; otherwise the result starts with the first part followed by the separator, and its length is the parts' lengths plus one separator between each two |
| Strings.JoinFront | server/ai.js:119 | a join of two or more parts is the first part, the separator, then the join of the rest: the parts appear in order with one separator between each two |
| Strings.DecimalCanonical | server/ai.js:119 | the numeral `${n}` starts with `0` only for zero, so it never has a leading zero |
| Strings.DecimalRoundTrip | server/ai.js:119 | the numeral `${i+1}` prints denotes the number again |
| Registry.Find | server/index.js:28 | the lookup returns the first record whose name equals the query ignoring case, and nothing iff no record matches |
| Registry.FindUnique | server/predict.js:9 | with case-distinct names, the lookup returns any record whose name matches |
| RegistryFacts.SeedDatesHold | src/data/universidades.js:7-34 | every official date and history entry of the table is a `dddd-dd-dd` date followed by `T08:00:00Z` |
| RegistryFacts.ConfianzaInUnitRange | src/data/universidades.js:6-15 | every confidence present in the table lies in [0, 1] |
| RegistryFacts.OnlyTwoTrusted | src/data/universidades.js:8-15 | exactly the first two records (PUCP, Universidad de Lima) pass the short-circuit test, and both are official with a date |
| RegistryFacts.EstimatedAreUntrusted | src/data/universidades.js:10-33 | estimated records carry confidence 0.30, and records from the ninth on have no official date |
| RegistryFacts.NamesAreDistinct | src/data/universidades.js:7-34 | no two names of the table are equal ignoring case |
| Search.SearchWeb | server/search.js:3-59 | without a key the result is empty; with one it is the flattening of the fetched response, or empty when the fetch fails or a listed entry is null |
| Search.AppendOrganic | server/search.js:24-34 | the organic loop succeeds iff no entry is null, and then appends each result's fragments in order |
| Search.AppendLinks | server/search.js:38-40 | the inline-link loop succeeds iff no entry is null, and then appends the truthy titles in order |
| Search.AppendResults | server/search.js:43-49 | the general-results loop succeeds iff no entry is null, and then appends each hit's fragments in order |
| Search.OrganicPass | server/search.js:25-33 | one organic pass extends the fragments gathered so far by exactly that result's fragments |
| Search.ResultPass | server/search.js:44-48 | one general-results pass extends the fragments gathered so far by exactly that hit's fragments |
| Search.AppendOrganicResult | server/search.js:26-32 | one organic result pushes title, snippet, link, then its truthy rich snippets |
| Search.AppendHit | server/search.js:45-47 | a hit pushes its truthy title, snippet and link, in that order |
| Search.AppendTruthy | server/search.js:31 | the rich-snippet loop pushes exactly the truthy entries, in order |
| Search.NoNullEach | server/search.js:25-28 | a list is null-free iff each entry is present, so reading a field of the first null entry is where the loop throws |
| Search.OrganicGroupAppend | server/search.js:24-34 | flattening the organic results distributes over concatenation |
| Search.ResultGroupAppend | server/search.js:43-49 | flattening the general results distributes over concatenation |
| Search.OneOrganicResult | server/search.js:26-32 | a single organic result contributes title, snippet, link and then its rich snippets |
| Extraction.LastMember | server/ai.js:145-148 | property access finds a member with that key when there is one, and none when no member has it |
| Extraction.LastDuplicateWins | server/ai.js:145-148 | of duplicated keys the last one is read |
| Extraction.BraceSpan | server/ai.js:13 | the recovery match starts at the first `{` and ends after the last `}`, and there is none iff no `}` follows a `{` |
| Extraction.SafeParse | server/ai.js:10-19 | a strict parse wins, and a strict outcome is the strict parse's value; a recovered outcome is the parse of the brace-delimited substring after the whole text failed; the outcome is unparseable iff both stages fail |
| Extraction.RecoversWrappedObject | server/ai.js:13-15 | a reply that wraps one object in brace-free text is recovered by the second stage |
| Extraction.Institutional | server/ai.js:29 | a source is institutional iff its lower-cased text contains one of the eight marks |
| Extraction.Score | server/ai.js:21-37 | the score is one of 0, 0.5, 0.6, 0.75 and 0.9; it is ≥ 0.5 iff there is a date, ≥ 0.75 iff also official, 0.9 iff also institutional, and 0.6 iff dated, unofficial and institutional |
| Extraction.ScoreMonotone | server/ai.js:30-34 | adding officiality or an institutional source never lowers the score |
| Extraction.TextField | server/ai.js:145-147 | a text field is kept exactly when it is a non-empty string |
| Extraction.Normalise | server/ai.js:144-154 | date and source are kept as non-empty strings, official is the field's truthiness, and a numeric model confidence is kept as given, otherwise the heuristic score is used |
| Extraction.Gate | server/ai.js:156-168 | below 0.5, or with a date that is not a full calendar date, the record becomes no date, not official, with its source and confidence; otherwise it is returned unchanged; a surviving date is the input's and is a full date |
| Extraction.Numbered | server/ai.js:119 | entry i of the context is `i+1`, a dot, a space and snippet i |
| Extraction.ContextIgnoresTail | server/ai.js:119 | snippets after the twelfth never reach the oracle |
| Extraction.Analyze | server/ai.js:81-172 | the oracle is asked iff there are texts and a key, with the institution and the numbered context; not asking gives no evidence; any date has confidence ≥ 0.5 and is a full date; below 0.5 there is no date and no flag |
| Extraction.EmptyReplyGivesNoEvidence | server/ai.js:129-134 | an absent or empty reply, after the oracle was asked, gives the no-evidence record |
| Extraction.UnparseableGivesNoEvidence | server/ai.js:137-141 | a reply that safeParseJSON turns into null or a falsy value gives the no-evidence record |
| Extraction.GarbledReplyGivesNoEvidence | server/ai.js:10-19 | a reply that does not parse, with no brace-delimited text or one that does not parse either, gives the no-evidence record |
| Extraction.AnalyzeOnReply | server/ai.js:137-168 | a reply that parses, strictly or after brace recovery, to a truthy value is normalised and gated |
| Extraction.LowConfidenceIsDowngraded | server/ai.js:156-160 | a dated official reply at 0.4 keeps only its source and confidence |
| Extraction.ModelConfidenceIsNotClamped | server/ai.js:148 | a model confidence of at least 0.5 is returned as given, even above 1 |
| Extraction.OfficialWithoutDate | server/ai.js:157-168 | an official reply without a date passes with its flag set |
| Extraction.HeuristicScoresInstitutionalAnswer | server/ai.js:29-30 | without a numeric confidence, a full date from an institutional source marked official scores 0.9 |
| Predict.Padded | server/predict.js:17 | the zero-padded field has the requested width (or more), only digits, and denotes the number |
| Predict.YearText | server/predict.js:17 | a year up to 9999 is written as four digits that denote it |
| Predict.Middle | server/predict.js:13-14 | the chosen entry is one of the history's entries |
| Predict.PredictHistorically | server/predict.js:3-24 | the confidence is always below 0.5; the source is the pattern label iff a found record has history; the call throws iff such a record's middle history entry does not start with a `dddd-dd-dd` date |
| Predict.AtEightShape | server/predict.js:16-17 | for a four-digit year the timestamp is that year, the given month and day, and `T08:00:00.000Z` |
| Predict.PatternForecast | server/predict.js:10-18 | with a history the forecast keeps the middle entry's month and day, takes the clock's year, and has confidence 0.35 |
| Predict.DefaultForecast | server/predict.js:20-23 | without a record or history the forecast is March 1 of the clock's year at 08:00 UTC with confidence 0.25 |
| Predict.SeededTableNeverThrows | server/predict.js:12-17 | on the seeded table the predictor always returns a forecast |
| Predict.UniExample | server/predict.js:9-17 | UNI, however capitalised, is forecast for March 18 of the clock's year with confidence 0.35 |
| Predict.UniMiddle | src/data/universidades.js:12 | UNI's middle history entry is the 18th of March |
| Predict.FindUni | server/predict.js:9 | any capitalisation of "UNI" finds UNI's record |
| Handler.FromRegistry | server/index.js:31-37 | a registry answer carries the record's date and confidence, official iff the type is official, the record's source or "datos-locales", and no fallback |
| Handler.FromPrediction | server/index.js:56-62 | a fallback answer is never official and carries the forecast's date, source and confidence |
| Handler.Resolve | server/index.js:22-66 | 400 iff the name is missing or empty; for a string name, 500 only when the predictor throws; a non-fallback or official answer has a date; a fallback answer is unofficial with confidence below 0.5; every answer has confidence ≥ 0.25 |
| Handler.ShortCircuitIgnoresEnv | server/index.js:28-38 | a trusted registry hit is answered from the record whatever search, extraction and the clock would give |
| Handler.ExtractionHit | server/index.js:44-49 | a dated extraction is returned as found, with confidence ≥ 0.5 and a full date |
| Handler.Fallback | server/index.js:52-66 | with no trusted registry hit and no extraction date, the answer is the prediction marked as fallback, or 500 when the predictor throws |
| Handler.NoSearchKeyFallsBack | server/index.js:41-62 | without a search key the handler answers with the prediction |
| Handler.SeededTableNeverFails | server/index.js:52-66 | on the seeded table the handler never answers 500 |
| Handler.ShortCircuitExactly | server/index.js:28-29 | when exactly the first two records are trusted, the registry answers exactly the names that find one of them |
| Handler.SeededShortCircuit | server/index.js:28-29 | on the seeded table only PUCP and Universidad de Lima are answered from the registry |
| Handler.PucpExample | server/index.js:28-37 | PUCP, however capitalised, gets its official date with confidence 0.85 from the registry |
| Handler.PucpResponse | server/index.js:31-37 | PUCP's record passes the short-circuit test and yields its official answer |
| Handler.FindPucp | server/index.js:28 | any capitalisation of "PUCP" finds PUCP's record |
| Countdown.Card | src/components/CountdownCard.jsx:51-97 | the card is unconfirmed iff the date is not shown, and notes the fallback iff one was used; it is started iff the target is not in the future; a countdown's fields add up to the whole seconds left, each below its unit, and it is marked soon iff under seven days |
| Countdown.Breakdown | src/components/CountdownCard.jsx:82-86 | days, hours, minutes and seconds add back up to the seconds they were cut from, each within its range |
| Countdown.BreakdownUnique | src/components/CountdownCard.jsx:82-86 | no other in-range split of the same seconds exists |
| Countdown.SoonWithinAWeek | src/components/CountdownCard.jsx:88 | a countdown is marked soon iff less than seven days of milliseconds remain |
| Countdown.FallbackNeverShown | src/components/CountdownCard.jsx:54-65 | a fallback answer of the handler is always rendered unconfirmed, with the fallback note |
| Countdown.RegistryAnswerShown | src/components/CountdownCard.jsx:54 | a registry answer is always shown |
| QueryFilter.Keep | src/App.jsx:27 | a record is kept iff its lower-cased name contains the needle |
| QueryFilter.Filter | src/App.jsx:24-28 | an empty trimmed query shows every record; otherwise exactly the records whose lower-cased name contains the trimmed, lower-cased query |
| QueryFilter.KeepCounts | src/App.jsx:27 | `filter` keeps each matching record as many times as the table holds it, and no other record |
| QueryFilter.FilterCounts | src/App.jsx:24-28 | with an empty needle every record keeps its count; otherwise a matching record keeps its count and any other has none |
| QueryFilter.FilterIsSubsequence | src/App.jsx:26-27 | the filtered list keeps the table's order and never repeats or invents a record |
| QueryFilter.KeepIsSubsequence | src/App.jsx:27 | filtering yields a subsequence of the table |
| QueryFilter.SubsequenceOfSelf | src/App.jsx:26 | the unfiltered table is a subsequence of itself |
| QueryFilter.LowerTrim | src/App.jsx:25 | trimming then lowering equals lowering then trimming |
| QueryFilter.CaseInsensitive | src/App.jsx:25-27 | queries that differ only in letter case select the same records |
| QueryFilter.PaddingIgnored | src/App.jsx:25 | whitespace around the query does not change the selection |

## Where the code and its comments differ

The model follows the code in each case.

- Model confidence is not clamped. The table's header comment gives confianza as a number
  from 0 to 1 (src/data/universidades.js:6), and the prompt asks the model for
  `"confidence":<number 0-1>` (server/ai.js:120). But `analyzeWithAI` keeps any numeric
  confidence the model returns (server/ai.js:148), so an answer above 1 reaches the client
  unchanged (`Extraction.ModelConfidenceIsNotClamped`).
- Extraction can report `official: true` with a null date (`Extraction.OfficialWithoutDate`),
  although the prompt describes official answers as carrying a date (server/ai.js:120).
  The handler then ignores that answer, because it tests only the date (server/index.js:47).
- The pattern forecast is placed in the current year even when that date has already
  passed. The comment at server/predict.js:11 speaks of the current or the next year, but
  the code never rolls over.
- The same comment speaks of a median, but the code takes the entry at index `floor(n/2)`
  of the history as listed, which is not sorted.

## Left out

- Unicode case mapping beyond ASCII and Latin-1, because `toLowerCase` and the regex `i` flag are modelled only for those letters.
- `Date` parsing, local time zones and `Date.UTC` normalisation, because the model reads the month and day from an entry's ISO digits. That equals `getMonth`/`getDate` for the seeded `T08:00:00Z` entries in any zone between UTC-8 and UTC+15.
- Predict.PredictHistorically: throws exactly when the middle entry lacks the `dddd-dd-dd` shape. Strings that `Date` parses in other formats, and out-of-range months or days such as `2026-02-30` (which `Date.UTC` rolls over), are not modelled.
- Predict.YearText: years past 275760, where `toISOString` throws, are not modelled.
- The text of the prompt around the numbered context, because it is a fixed string; the model records only the institution and the context it carries.
- `callOpenAI` (HTTP, headers, status codes and the choices payload) is a parameter returning the reply text or nothing, because it is network I/O.
- The `AI_MOCK` development branch of `analyzeWithAI` (server/ai.js:85-116), because it only runs in development.
- `JSON.parse`, `JSON.stringify` of the answer box, and the SerpAPI fetch and decoding are parameters, because they are library and network code.
- Extraction.Normalise: a truthy non-string `date` or `source` (a number, say) is treated as absent, because the model keeps string fields only.
- Handler.Resolve: the query parameter is a string or absent. A repeated parameter (`?name=a&name=b`) arrives as an array, which is truthy, so `name.toLowerCase()` (server/index.js:28) throws and the handler answers 500 (server/index.js:63-66); the model does not represent non-string query values.
- Extraction.Analyze: the `!texts` guard for a null or undefined argument is not modelled, because the handler always passes an array.
- The in-place `result.confidence = …` update is modelled as building a new value, because nothing else observes the object.
- Extraction.Gate: requires that the date and source are not empty strings; normalisation always turns those into null.
- Search.Response: a truthy `rich_snippet.top.snippets` that is not iterable is not modelled; the model holds a list or nothing.
- NaN and infinities, because real numbers stand in for JavaScript numbers.
- `Math.round` of the displayed percentage and the card's text, because they only format output.
- React state, effects, the one-second timer, the loading and error cards, the theme toggle with `localStorage` (src/App.jsx:7-21), and `GoogleAd`, because they are rendering and browser I/O.
- Logging, environment loading, the Express server set-up, and concurrency between requests, because they are runtime plumbing with no effect on the answers.
