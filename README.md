# CyberSentry honeypot dashboard: a Dafny model of its state and derived views

The dashboard shows simulated attack records in a live feed and on a world map, draws
three rolling metric charts, and asks a remote text service for an analysis of the
selected record. This project models the logic behind those views and proves its
properties:

- **Feed store** (`feed_store.dfy`). The reducer that prepends a record, removes
  duplicate ids with the semantics of a JavaScript `Map`, and keeps the first fifteen.
  It also covers the start-up rehydration from storage.
- **Record builders** (`builders.dfy`). The random generator and the manual trigger,
  with the dotted-quad address and the `evt-…` id.
- **Filter** (`filters.dfy`). The three-field wildcard filter and its single-field update.
- **Metric window** (`metrics.dfy`). The twenty-sample initial window and the tick that
  shifts, appends and relabels.
- **Dashboard** (`dashboard.dfy`). A class holding the dashboard's six state cells. Each
  handler or timer tick is a method that overwrites them.
- **Analysis panel** (`attack_details.dfy`). The classifier that lays the analysis text
  out as headings, log lines and paragraphs. A class with the panel's four state
  variables, driven by selection changes and by the completions of the two remote
  requests.
- **Threat map** (`world_map.dfy`). The projection onto at most twenty points, the
  marker styling rules, the marker click and the tooltip position.
- **Live feed list** (`live_attack_feed.dfy`). The severity style table with its gray
  fallback, and one row per attack with the selected background.
- **Tables and types** (`constants.dfy`, `types.dfy`, helpers in `text.dfy`).
  - The attack categories, the severities, the country table and the cap.
  - The `Attack` and `SystemMetric` records.
  - The JavaScript string operations the views rely on: number-to-text, `split`,
    `trim` and `includes`.

Where the behaviour differs from what a reader might expect, the model follows the code:

- **An id collision keeps the stored record.** `new Map(entries)` keeps each id at the
  position of its first entry, but with the value of its last entry. Inserting a record
  whose id is already stored therefore moves the STORED record to the front and drops the
  new one. One might expect the newest insert to win; the code does not do that.
- **The analysis panel has no staleness guard.** An answer to an earlier selection is
  still written into the panel after a later selection. `AttackDetails.StaleCompletion`
  shows this. A guard against stale answers would be expected, but the code has none, so
  none is modelled.
- **The octets of a random address run from 0 to 254.**
- **Rehydration neither caps nor checks the stored array.**

## Model

| member | source | states |
|---|---|---|
| Types.SeverityValue | types.ts:1-6 | the string value of each severity; no value is the filter wildcard "All" |
| Types.SeverityFromValue | types.ts:1-6 | the severity whose value a string is, found exactly when such a severity exists |
| Types.SeverityMembers | types.ts:1-6 | the enumeration has exactly four members, each once |
| Types.SeverityValueRoundTrip | types.ts:2-5 | reading a severity's value gives back that severity, and distinct severities have distinct values |
| Constants.FeedCap | constants.ts:34 | the feed cap is 15 |
| Constants.AttackTypesTable | constants.ts:3-12 | eight pairwise-distinct categories, "SQL Injection" first |
| Constants.SeverityLevelsTable | constants.ts:14-19 | the levels are Low, Medium, High, Critical, each member exactly once |
| Constants.CountriesTable | constants.ts:21-32 | ten countries with distinct names and coordinates in [0, 100]; entry 0 is USA at (25, 40), UK is at (45, 33) |
| Text.NatToString | components/Dashboard.tsx:12 | the decimal text of a number is a non-empty digit string without a leading zero |
| Text.DecimalRoundTrip | components/Dashboard.tsx:12 | reading the decimal text of a number gives back the number |
| Text.Split | components/AttackDetails.tsx:105 | `split` gives at least one part and no part holds the separator |
| Text.JoinSplit | components/AttackDetails.tsx:105 | joining the parts of a split with the separator gives back the text |
| Text.SplitJoin | components/AttackDetails.tsx:105 | splitting a join of separator-free parts gives back the parts |
| Text.Trim | components/AttackDetails.tsx:106 | `trim` leaves no whitespace at either end, and is empty exactly for whitespace-only text |
| Text.TrimPadded | components/AttackDetails.tsx:106-107 | trimming whitespace padding off a text yields that text |
| Text.IntToString | components/Dashboard.tsx:76-85 | the template-literal text of an integer: non-empty, with a leading minus sign exactly when the integer is negative |
| Text.Contains | components/AttackDetails.tsx:111 | defines `includes`: the piece occurs at some position of the text |
| Text.ContainsInfix | components/AttackDetails.tsx:111 | `includes` finds a piece wherever it stands in the text |
| FeedStore.MapSet | components/Dashboard.tsx:40 | setting an entry keeps the key order; a new key is appended with its value |
| FeedStore.Dedup | components/Dashboard.tsx:40 | the `Map` over the records has distinct ids, exactly the ids of its input |
| FeedStore.Take | components/Dashboard.tsx:41 | `slice(0, n)` is the prefix of length min(n, length) and keeps ids distinct |
| FeedStore.Insert | components/Dashboard.tsx:37-43 | after any insert the feed holds at most 15 records and no two share an id, whatever it held before |
| FeedStore.DedupKeepsLast | components/Dashboard.tsx:40 | every record kept is the LAST record of the input with its id |
| FeedStore.DedupKeepsFirstOrder | components/Dashboard.tsx:40 | the records kept are in the order of the FIRST occurrences of their ids |
| FeedStore.DedupOfUnique | components/Dashboard.tsx:40 | a duplicate-free list is left unchanged by the deduplication |
| FeedStore.FreshInsert | components/Dashboard.tsx:39-41 | a record with a fresh id lands at index 0, followed by the previous records in order, cut to 15 |
| FeedStore.Collision | components/Dashboard.tsx:39-41 | a record whose id is stored does not grow the feed, and the older stored record takes index 0 |
| FeedStore.Load | components/Dashboard.tsx:16-24 | nothing stored, an empty text or a failed parse gives the empty feed; a parsed array is taken as it is |
| FeedStore.LoadDoesNotCapOrDedup | components/Dashboard.tsx:19 | sixteen copies of one record load as sixteen records, over the cap and with duplicate ids |
| Builders.Pick | components/Dashboard.tsx:46 | `Math.floor(r * n)` is an index below n, within one of `r * n` |
| Builders.PickReachesEvery | components/Dashboard.tsx:46-54 | every index of a table is picked by some draw |
| Builders.Octets | components/Dashboard.tsx:12 | four octets, each a pick from 255 values and at most 254 |
| Builders.FormatIp | components/Dashboard.tsx:12 | defines the dotted quad: the decimal texts of the four octets joined with "." |
| Builders.IpRoundTrip | components/Dashboard.tsx:12 | a dotted quad splits back into the four decimal octets it was made from |
| Builders.RandomIp | components/Dashboard.tsx:11-13 | four dot-separated parts, each the canonical decimal text of the picked octet, which is at most 254 |
| Builders.OctetRange | components/Dashboard.tsx:12 | no octet exceeds 254, and 254 can be drawn |
| Builders.EventId | components/Dashboard.tsx:51 | the id starts with "evt-" |
| Builders.EventIdInjective | components/Dashboard.tsx:51 | moments with a different clock or random part get different ids |
| Builders.RandomAttack | components/Dashboard.tsx:45-58 | the country and coords are a table entry, the category and severity are table picks, and the id, time and address come from the draws |
| Builders.RandomAttackCovers | components/Dashboard.tsx:46-57 | every country, severity and category can come out of the generator |
| Builders.FindCountry | components/Dashboard.tsx:103 | `find` gives the first entry with the name, and nothing only when no entry has it |
| Builders.FindCountryUnique | components/Dashboard.tsx:103 | in a table with distinct names, the entry found is the one with the name |
| Builders.TriggerAttack | components/Dashboard.tsx:102-112 | the category and severity are copied; the country and coords are those of the matching entry, else USA at (25, 40) |
| Builders.TriggerUk | components/Dashboard.tsx:103-111 | a UK trigger lands at (45, 33) |
| Builders.TriggerAtlantis | components/Dashboard.tsx:103 | an instance of `TriggerAttack`'s fallback: the absent name "Atlantis" lands at USA (25, 40) |
| Filters.Update | components/Dashboard.tsx:98-100 | the named field takes the value and the other two fields are unchanged |
| Filters.UpdateLaws | components/Dashboard.tsx:99 | writing a field's own value changes nothing; a second write to a field overrides the first |
| Filters.SeverityFilterExact | components/Dashboard.tsx:119 | a severity filter set to a member's value keeps exactly that severity |
| Filters.Matches | components/Dashboard.tsx:117-121 | defines the filter's test: a record passes iff each of the three fields is "All" or equals the record's field (severity compared by its string value) |
| Filters.Apply | components/Dashboard.tsx:116-123 | a record is kept iff each field is "All" or equals the record's field |
| Filters.ApplyConcat | components/Dashboard.tsx:117 | filtering distributes over concatenation, so feed order is kept |
| Filters.ApplyAllIsIdentity | components/Dashboard.tsx:116-123 | the all-"All" filter is the identity |
| Filters.ApplyIdempotent | components/Dashboard.tsx:116-123 | filtering twice is filtering once |
| Filters.ApplyKeepsUniqueIds | components/Dashboard.tsx:116-123 | the filtered list of a duplicate-free feed is duplicate-free |
| Metrics.InitialLabel | components/Dashboard.tsx:76 | defines the initial label of position i: the decimal text of 20 - i followed by "s" |
| Metrics.AgoLabel | components/Dashboard.tsx:85 | defines the label of position i after a tick: the decimal text of 19 - i followed by "s ago" |
| Metrics.NatToStringInjective | components/Dashboard.tsx:76 | different numbers have different labels |
| Metrics.InitialData | components/Dashboard.tsx:76 | twenty zero samples with distinct labels "20s" down to "1s" |
| Metrics.UpdateData | components/Dashboard.tsx:82-85 | same length on a non-empty window; value i is the old value i+1, the last is the sample, name i is "(19-i)s ago" |
| Metrics.TickShifts | components/Dashboard.tsx:84 | a tick shifts the values one place forward and appends the sample |
| Metrics.TickAll | components/Dashboard.tsx:81-90 | a run of ticks keeps the length and relabels by position |
| Metrics.TickAllWindow | components/Dashboard.tsx:81-90 | after any run of ticks the window holds the latest old values followed by the new samples |
| Metrics.ChartWindow | components/Dashboard.tsx:75-90 | from the initial window every run of ticks keeps twenty samples labelled "19s ago" to "0s ago" |
| Dashboard.Dashboard.constructor | components/Dashboard.tsx:16-35 | the first render: the loaded feed, no selection, empty charts, all filters "All" |
| Dashboard.Dashboard.AddNewAttack | components/Dashboard.tsx:37-43 | the feed becomes the insert's result, within the cap and duplicate-free; no other cell changes |
| Dashboard.Dashboard.CreateAttack | components/Dashboard.tsx:45-60 | the generator's record is inserted |
| Dashboard.Dashboard.TriggerAttack | components/Dashboard.tsx:102-114 | the simulator's record is inserted |
| Dashboard.Dashboard.SelectAttack | components/Dashboard.tsx:94-96 | the selection becomes the attack; nothing else changes |
| Dashboard.Dashboard.FilterChange | components/Dashboard.tsx:98-100 | only the named filter field changes |
| Dashboard.Dashboard.StartMetrics | components/Dashboard.tsx:75-79 | all three charts get the initial window |
| Dashboard.Dashboard.TickMetrics | components/Dashboard.tsx:81-90 | each chart takes its own sample through the window update, so a non-empty chart's values shift by one with the sample appended; no other cell changes |
| Dashboard.Dashboard.FilteredAttacks | components/Dashboard.tsx:116-123 | the order-keeping filter of the feed: exactly the feed records that pass, in feed order; duplicate-free when the feed is |
| Dashboard.Dashboard.SelectedAttackId | components/Dashboard.tsx:142-147 | the selected record's id, absent without a selection |
| Dashboard.FeedInvariantScenario | components/Dashboard.tsx:16-43 | whatever storage held, after inserts the feed is within the cap and duplicate-free |
| AttackDetails.KNOWN_HEADINGS | components/AttackDetails.tsx:9-15 | defines the five heading texts, in the source's order |
| AttackDetails.KnownHeadingsTable | components/AttackDetails.tsx:9-15 | five distinct headings, each ending in a colon and equal to its own trimmed text |
| AttackDetails.TIMESTAMP | components/AttackDetails.tsx:111 | defines the timestamp pattern position by position: a bracketed date and time of day in digits, one wildcard, three digits of milliseconds and `Z` |
| AttackDetails.TimestampPatternTable | components/AttackDetails.tsx:111 | the pattern matches twenty-six characters, and its only wildcard is the unescaped `.` at position 20 |
| AttackDetails.ClassMatches | components/AttackDetails.tsx:111 | defines one pattern position: a literal matches itself, `\d` an ASCII digit, `.` one UTF-16 code unit that is not a line terminator |
| AttackDetails.MatchesPrefix | components/AttackDetails.tsx:111 | defines a match at the start of a text: the text is long enough and each of its first twenty-six characters fits its pattern position |
| AttackDetails.MatchesAt | components/AttackDetails.tsx:111 | defines a match starting at position i: i is within the text and the pattern matches the rest from there |
| AttackDetails.HasTimestamp | components/AttackDetails.tsx:111 | defines `regex.test`: the pattern matches at position 0 or somewhere in the rest of the line |
| AttackDetails.IsLogLine | components/AttackDetails.tsx:111 | defines the log heuristic: the line contains `ip=` or `status=`, or the timestamp pattern matches |
| AttackDetails.HasTimestampIff | components/AttackDetails.tsx:111 | the regular-expression test succeeds iff the pattern matches at some position |
| AttackDetails.TimestampAnywhere | components/AttackDetails.tsx:111 | a bracketed timestamp anywhere in a line is found |
| AttackDetails.TimestampIsoSample | components/AttackDetails.tsx:111 | an ISO-8601 instant in brackets matches |
| AttackDetails.TimestampCommaSample | components/AttackDetails.tsx:111 | the unescaped `.` lets a comma before the milliseconds match |
| AttackDetails.TimestampLineBreakSample | components/AttackDetails.tsx:111 | a line terminator before the milliseconds does not match |
| AttackDetails.TimestampAstralSample | components/AttackDetails.tsx:111 | without the `u` flag `.` matches one UTF-16 code unit, so a character outside the Basic Multilingual Plane before the milliseconds does not match |
| AttackDetails.ClassifyLine | components/AttackDetails.tsx:106-114 | a heading iff the trimmed line is a known heading (shown trimmed); otherwise a log line iff it has `ip=`, `status=` or a timestamp; both others keep the line as written |
| AttackDetails.HeadingWithPadding | components/AttackDetails.tsx:106-108 | a known heading with whitespace padding is shown as that heading |
| AttackDetails.IpMentionIsLog | components/AttackDetails.tsx:111-112 | a non-heading line that mentions `ip=` is a log line |
| AttackDetails.TimestampIsLog | components/AttackDetails.tsx:111-112 | a non-heading line that holds a timestamp is a log line |
| AttackDetails.NonBlank | components/AttackDetails.tsx:105 | exactly the lines that are not blank after trimming |
| AttackDetails.NonBlankConcat | components/AttackDetails.tsx:105 | blank lines are dropped where they stand and the order of the others is kept |
| AttackDetails.ClassifyAll | components/AttackDetails.tsx:105-115 | each line is classified on its own, in order |
| AttackDetails.Classify | components/AttackDetails.tsx:105-115 | nothing shown in the article is blank |
| AttackDetails.ClassifyLineNotBlank | components/AttackDetails.tsx:105-114 | a non-blank line is not shown blank |
| AttackDetails.ClassifyLines | components/AttackDetails.tsx:105-115 | for newline-free lines, the article is the classification of the non-blank lines in the order written |
| AttackDetails.EmptyAnalysisHasNoArticle | components/AttackDetails.tsx:103 | an empty analysis shows no lines |
| AttackDetails.ShortLineHasNoTimestamp | components/AttackDetails.tsx:111 | a line shorter than the pattern's twenty-six characters holds no timestamp |
| AttackDetails.SingleParagraph | components/AttackDetails.tsx:105-114 | a one-line, non-blank text that is neither a heading nor a log line is shown as that one paragraph |
| AttackDetails.FailureMessageIsParagraph | components/AttackDetails.tsx:32-114 | the analysis failure message is shown as a single paragraph |
| AttackDetails.AttackDetailsPanel.constructor | components/AttackDetails.tsx:18-21 | empty analysis and summary, nothing loading, no requests |
| AttackDetails.AttackDetailsPanel.SetAttack | components/AttackDetails.tsx:23-36 | a new selection starts loading, clears analysis and summary and issues a request; no selection or the same one changes nothing |
| AttackDetails.AttackDetailsPanel.CompleteAnalysis | components/AttackDetails.tsx:28-34 | a completion writes its text, or "Failed to load analysis.", and loading ends, whichever selection it belongs to |
| AttackDetails.AttackDetailsPanel.Summarize | components/AttackDetails.tsx:38-43 | nothing without an analysis; otherwise the spinner starts, the summary clears, and a request is issued for the analysis |
| AttackDetails.AttackDetailsPanel.CompleteSummary | components/AttackDetails.tsx:43-50 | the summary becomes the text or "Failed to generate summary.", and the spinner always stops |
| AttackDetails.AttackDetailsPanel.SummaryButton | components/AttackDetails.tsx:76-84 | the button exists iff there is an analysis and nothing loads; it is disabled, with the busy caption, while summarizing |
| AttackDetails.AttackDetailsPanel.Render | components/AttackDetails.tsx:54-117 | the placeholder iff no selection; otherwise the summary box iff a summary exists, the skeleton iff loading, and the classified article |
| AttackDetails.SelectShowsSkeleton | components/AttackDetails.tsx:23-117 | right after a new selection the panel shows that attack with the skeleton, no summary button, no summary box and an empty article |
| AttackDetails.FailedAnalysisShown | components/AttackDetails.tsx:28-117 | after a rejected analysis request the skeleton is gone, the summary button is offered and the article is the failure message as one paragraph |
| AttackDetails.StaleCompletion | components/AttackDetails.tsx:23-36 | the answer to an earlier selection is shown for a later one, and loading ends while the later request is outstanding |
| AttackDetails.Deselect | components/AttackDetails.tsx:23-60 | a null selection leaves the four state variables as they were and renders the placeholder |
| WorldMap.ToPoint | components/WorldMap.tsx:22-28 | defines one point: the attack's id, its coordinates as x and y, and its severity, category and address |
| WorldMap.ToPoints | components/WorldMap.tsx:22-29 | one point per attack, in order |
| WorldMap.Points | components/WorldMap.tsx:22-29 | the first min(20, n) attacks as points, in order |
| WorldMap.LatestId | components/WorldMap.tsx:33 | the first attack's id, absent exactly for an empty feed |
| WorldMap.FindById | components/WorldMap.tsx:34 | the first attack with the id, absent exactly when none has it |
| WorldMap.Click | components/WorldMap.tsx:59 | defines the marker's click: the attack `find` returns for the point's id, or nothing |
| WorldMap.ClickSelectsItsAttack | components/WorldMap.tsx:54-59 | a click on a drawn marker selects an attack with its id, which in a duplicate-free feed is the attack it was drawn for |
| WorldMap.SeverityColor | components/WorldMap.tsx:10-15 | Critical red, High orange, Medium yellow, Low blue; never white |
| WorldMap.SeverityColorsDistinct | components/WorldMap.tsx:10-15 | different severities have different colours |
| WorldMap.MarkerFor | components/WorldMap.tsx:52-84 | radius 6 if selected, else 5 if latest, else 3; a white outline iff selected; width 2 iff selected or latest; a pulse iff latest and not selected |
| WorldMap.Markers | components/WorldMap.tsx:51-96 | one marker per point, styled by whether it is latest and whether it is selected |
| WorldMap.LatestAndSelectedUnique | components/WorldMap.tsx:52-53 | in a duplicate-free feed only the first point is latest and at most one is selected |
| WorldMap.PulseOnlyOnNewest | components/WorldMap.tsx:75-84 | only the newest marker pulses, and only when it is not selected |
| WorldMap.TooltipAt | components/WorldMap.tsx:98 | the tooltip is translated to (10x + 10, 5y) |
| LiveAttackFeed.FamilyStyle | components/LiveAttackFeed.tsx:12-35 | a row's background differs from its selected background |
| LiveAttackFeed.Entry | components/LiveAttackFeed.tsx:11-36 | defines the four table entries: Critical red-500 with ShieldAlert, High orange-400 with ShieldAlert, Medium yellow-400 with ShieldHalf, Low blue-400 with ShieldCheck |
| LiveAttackFeed.SeverityValuesNotInherited | components/LiveAttackFeed.tsx:11-36 | no severity value is the name of a property inherited from `Object.prototype` |
| LiveAttackFeed.SeverityConfig | components/LiveAttackFeed.tsx:11-36 | reading the table gives an own entry iff the key is a severity value (then that severity's entry), an inherited property iff the key is a prototype name, and `undefined` otherwise |
| LiveAttackFeed.ConfigFor | components/LiveAttackFeed.tsx:43 | the `||` fallback: a severity value gets its entry, a prototype name gets the inherited non-style (no style), any other key gets the gray style |
| LiveAttackFeed.StyleFor | components/LiveAttackFeed.tsx:43 | a typed severity gets its table entry, never the gray fallback |
| LiveAttackFeed.FallbackForUnknownKey | components/LiveAttackFeed.tsx:43 | a key that is neither a severity value nor a prototype name finds nothing, so the gray style with the question icon is used |
| LiveAttackFeed.InheritedKeyMissesFallback | components/LiveAttackFeed.tsx:43 | the key "toString" finds the inherited function, which is truthy, so the fallback is not taken and no style results |
| LiveAttackFeed.Icons | components/LiveAttackFeed.tsx:14-32 | Critical and High show ShieldAlert, Medium ShieldHalf, Low ShieldCheck |
| LiveAttackFeed.SameColourFamilyAsMap | components/LiveAttackFeed.tsx:11-36 | each row's colour classes name the map's colour for the same severity |
| LiveAttackFeed.RowFor | components/LiveAttackFeed.tsx:43-50 | keyed by id, handing over that attack, with the selected background iff its id is the selected id |
| LiveAttackFeed.Rows | components/LiveAttackFeed.tsx:42-50 | one row per attack, in input order |
| LiveAttackFeed.OneHighlightedRow | components/LiveAttackFeed.tsx:44-45 | in a duplicate-free list at most one row is highlighted |

## Left out

- Rendering is not modelled: JSX, CSS classes, the SVG map paths and the recharts chart. Only the decisions the rendering makes are modelled.
- Browser storage and JSON are I/O. A load is given as the stored text plus the outcome of `JSON.parse`, and that outcome is either a failure or an array of well-formed records. Other parses are not modelled:
  - a parsed non-array such as `null` throws at `attacks.filter` (Dashboard.tsx:117);
  - a `null` element throws when the feed rows render, at `severityConfig[attack.severity]` (LiveAttackFeed.tsx:43);
  - a record without `coords` throws at `attack.coords.x` (WorldMap.tsx:24);
  - records missing other fields load and render with undefined fields. For example, records without an `id` share the `Map` key `undefined` (Dashboard.tsx:40) and count as the latest marker when the first record of the list also has no `id` (WorldMap.tsx:33, WorldMap.tsx:52). The save effect (Dashboard.tsx:67-73) writes nothing the model reads, so it is not modelled.
- Timers are not modelled: `setInterval`, its random delay and clearing it on unmount. Each insert and each metric tick is an explicit method call.
- `Math.random`, `Date.now` and `toISOString` are parameters:
  - each draw is a real in [0, 1);
  - the clock is a natural number of milliseconds;
  - the random part of the id and the ISO timestamp are given strings.
- Floating point is modelled with reals. The rounding of samples with `toFixed(1)` is not modelled, nor are the fill and stroke opacities.
- A stored record whose severity is not one of the four values cannot be represented, because severities are a typed enum. So the feed's gray fallback and the inherited-property lookup are modelled for string keys but unreachable for the records the model holds.
- React runs the panel's effect when the `attack` property changes by reference. The model compares selections by value.
- The remote text service (services/geminiService.ts) is not part of this model. Its two requests appear as queued requests. Each completes with `Resolved(text)` or `Rejected`, in any order the caller chooses.
- The map's `points` state cache and `hoveredPoint` hover state are not kept. The tooltip is modelled as the position function of the hovered point.
- The form components (FilterControls.tsx, AttackSimulator.tsx), Header.tsx, App.tsx and SystemMetricChart.tsx are not part of this model.
- `console.error` logging is not modelled.
- Strings are sequences of Unicode scalar values, not UTF-16 code units. Only the timestamp pattern's `.` depends on the difference, and it is restricted to characters of one code unit.
