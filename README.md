# Bussin arrivals: a Dafny model

Bussin is an Android app that shows the live departures of De Lijn bus stops.
This project models its data core, the part that turns the raw API response into
what a stop screen shows:

- **Line reconciliation** (`ArrivalsMapper`). A raw passage ("doorkomst") carries a
  line number, entity number and direction. It is matched against the line
  metadata table through an ordered cascade of six rules, and one enriched
  `Arrival` is built from it. The modules involved:
  - `LineKeys`: the line-number normaliser.
  - `IsoTime`: the timestamp parser and "HH:mm" formatter.
  - `LineIndexes`: the three lookup indexes.
  - `LineMatching`: the cascade, stated as one function per rule.
  - `ArrivalsMapper`: the mapper itself. It is an imperative method proved equal to that specification.
- **The bus card** (`BusCard`): the badge text, the real-time flag, the vehicle text,
  the scheduled time, the delay label and the countdown text. The arithmetic is Kotlin's: 64-bit wrap-around, division that
  truncates toward zero, and `toInt()` truncation.
- **The stop-details view model** (`StopDetails`): the UI state as a class field.
  `LoadStopDetails` and `FetchFinalScheduleForStop` update it in place. A third
  method, `FinishWithError`, makes the failure writes that the fetch's failure
  branch and its exception branch share (StopDetailsViewModel.kt:105-115 and :119-129). The arrivals are stably sorted by effective time.
- **The field-copy mappers** (`FinalScheduleMapper`, `LineDirectionMapper`).

Inputs the program reads from its environment become parameters:
- the device's time-zone offset (`localOffset`, in minutes east of UTC);
- the clock (`now`);
- the results or exceptions of the use-case calls (`Outcome`, `Call`).

The use cases themselves, the repository and the network are not part of this model.

A passage whose entity has several lines, with no direction and no line number, gets the entity's unlabelled line, because a missing label equals the missing key: rule 5 compares each candidate's public label with the normalised key. This is stated by `LineMatching.MissingKeyMatchesUnlabelledScenario` and `LineMatching.AmbiguousEntityWithoutKey`.

## Model

Paths are relative to the repository root. `ArrivalsMapper.kt`, `FinalScheduleMapper.kt` and
`LineDirectionMapper.kt` live in `app/src/main/java/com/danieljm/bussin/data/mapper/`,
`BusCard.kt` in `app/src/main/java/com/danieljm/bussin/ui/components/stopdetails/`, and
`StopDetailsViewModel.kt` in `app/src/main/java/com/danieljm/bussin/ui/screens/stopdetails/`.

| member | source | states |
|---|---|---|
| Text.Trim | app/src/main/java/com/danieljm/bussin/data/mapper/ArrivalsMapper.kt:68 | `trim()` leaves no whitespace at either end, is empty exactly when the text is blank, and never lengthens it |
| Text.TrimOfPadded | app/src/main/java/com/danieljm/bussin/data/mapper/ArrivalsMapper.kt:68 | trimming removes exactly the blank text around a non-blank body |
| Text.TrimUnpadded | app/src/main/java/com/danieljm/bussin/data/mapper/ArrivalsMapper.kt:94 | trimming an already trimmed label changes nothing |
| Text.Lower | app/src/main/java/com/danieljm/bussin/data/mapper/ArrivalsMapper.kt:97 | `lowercase()` keeps the length and folds every character |
| Text.LowerUnchanged | app/src/main/java/com/danieljm/bussin/data/mapper/ArrivalsMapper.kt:167 | a key without capitals is its own lower-case form |
| Text.Contains | app/src/main/java/com/danieljm/bussin/data/mapper/ArrivalsMapper.kt:209 | `contains` holds exactly when the key occurs at some position, case-sensitively |
| Text.NotContainsChar | app/src/main/java/com/danieljm/bussin/data/mapper/ArrivalsMapper.kt:209 | a character absent from the label is not contained in it |
| Text.FirstDigitRun | app/src/main/java/com/danieljm/bussin/data/mapper/ArrivalsMapper.kt:99 | `Regex("\\d+").find` gives a non-empty digit run, and none exactly when the label has no digit; which run is stated by `Text.FirstDigitRunIsLeftmost` |
| Text.FirstDigitRunIsLeftmost | app/src/main/java/com/danieljm/bussin/data/mapper/ArrivalsMapper.kt:99 | the run found is the leftmost maximal one: it occurs in the label with no digit before it and no digit right after it |
| Text.IntToDecimal | app/src/main/java/com/danieljm/bussin/data/mapper/ArrivalsMapper.kt:66 | `toString()` of an integer: unpadded, a minus sign only for negatives, otherwise the plain decimal digits |
| Text.DecimalRoundTrip | app/src/main/java/com/danieljm/bussin/data/mapper/ArrivalsMapper.kt:66 | the decimal text of a number reads back as that number |
| Text.PaddedRoundTrip | app/src/main/java/com/danieljm/bussin/data/mapper/ArrivalsMapper.kt:20-22 | a fixed-width zero-padded field reads back as its number |
| LineKeys.ToInt32Saturating | app/src/main/java/com/danieljm/bussin/data/mapper/ArrivalsMapper.kt:66 | `Number.toInt()` of a decoded JSON number stays within the 32-bit range and is the identity inside it |
| LineKeys.BeforeFirstDot | app/src/main/java/com/danieljm/bussin/data/mapper/ArrivalsMapper.kt:71 | `substringBefore('.')` is the dot-free prefix, followed by a dot when shorter than the text |
| LineKeys.NormalizeText | app/src/main/java/com/danieljm/bussin/data/mapper/ArrivalsMapper.kt:67-73 | a trimmed `<digits>.0` text gives its digits (digits + ".0" is the trimmed text); any other text gives the trimmed text |
| LineKeys.NormalizeLijnnummer | app/src/main/java/com/danieljm/bussin/data/mapper/ArrivalsMapper.kt:63-78 | null gives null and only null does; a number gives the decimal text of its saturated `toInt()`; a string, or any other value's text, gives `NormalizeText` of it; every key is trimmed |
| LineKeys.NormalizeDecimalText | app/src/main/java/com/danieljm/bussin/data/mapper/ArrivalsMapper.kt:67-73 | " 136.0 " with any surrounding blanks normalises to "136" |
| LineKeys.NumberAndTextKeysAgree | app/src/main/java/com/danieljm/bussin/data/mapper/ArrivalsMapper.kt:63-78 | the number n, the text "n" and the text "n.0" give the same key |
| LineKeys.NegativeKeys | app/src/main/java/com/danieljm/bussin/data/mapper/ArrivalsMapper.kt:66-73 | a negative number and its text share a key, but "-n.0" is kept as it is, because the `<digits>.0` pattern has no sign |
| LineKeys.NormalizeIdempotent | app/src/main/java/com/danieljm/bussin/data/mapper/ArrivalsMapper.kt:63-78 | normalising a key again, as a string, gives the same key |
| IsoTime.YearLength | app/src/main/java/com/danieljm/bussin/data/mapper/ArrivalsMapper.kt:27-33 | the calendar behind the parsed instant has 365 days a year, 366 in leap years |
| IsoTime.MonthRollover | app/src/main/java/com/danieljm/bussin/data/mapper/ArrivalsMapper.kt:27-33 | a day past the end of a month is the first of the next month, as in a lenient calendar |
| IsoTime.DigitsAt | app/src/main/java/com/danieljm/bussin/data/mapper/ArrivalsMapper.kt:20-22 | a numeric field is read exactly when its positions hold digits, and its value is their decimal value |
| IsoTime.ParseIsoToMillis | app/src/main/java/com/danieljm/bussin/data/mapper/ArrivalsMapper.kt:15-50 | the pattern loop with early return gives the first accepting pattern's instant, else the fallback's, else 0; null or blank gives 0 |
| IsoTime.FirstAcceptedTail | app/src/main/java/com/danieljm/bussin/data/mapper/ArrivalsMapper.kt:25-37 | the three patterns are tried in their listed order |
| IsoTime.FallbackNeverDecides | app/src/main/java/com/danieljm/bussin/data/mapper/ArrivalsMapper.kt:39-47 | whenever the colon-stripping fallback would accept, the zone-less pattern has accepted first |
| IsoTime.DateTimeRoundTrip | app/src/main/java/com/danieljm/bussin/data/mapper/ArrivalsMapper.kt:20-22 | the fields of a written `yyyy-MM-dd'T'HH:mm:ss` text read back unchanged |
| IsoTime.ZoneTextRead | app/src/main/java/com/danieljm/bussin/data/mapper/ArrivalsMapper.kt:19-23 | which zone designators `XXX`, `X` and the zone-less pattern accept, and the offset each reads |
| IsoTime.ParseFormatted | app/src/main/java/com/danieljm/bussin/data/mapper/ArrivalsMapper.kt:15-50 | a written timestamp parses to its instant: `Z` is UTC, `+hh:mm` and `+hh` are read in full, no zone means the device zone, `+hhmm` keeps only its hours |
| IsoTime.AfterFirstT | app/src/main/java/com/danieljm/bussin/data/mapper/ArrivalsMapper.kt:55 | `substringAfter('T', ts)` is the text after the first 'T', or all of it when there is none |
| IsoTime.FormatToHm | app/src/main/java/com/danieljm/bussin/data/mapper/ArrivalsMapper.kt:52-60 | null exactly for a null or blank timestamp; otherwise the first five characters after the first 'T', or all of that text when it is shorter |
| IsoTime.FormatToHmOfFormatted | app/src/main/java/com/danieljm/bussin/data/mapper/ArrivalsMapper.kt:52-60 | the short time of any written timestamp is its "HH:mm" |
| IsoTime.ExampleTimestamp | app/src/main/java/com/danieljm/bussin/data/mapper/ArrivalsMapper.kt:15-60 | "2024-05-01T08:15:00+02:00" is 1 714 544 100 000 ms and shows as "08:15" |
| LineIndexes.LastWithKey | app/src/main/java/com/danieljm/bussin/data/mapper/ArrivalsMapper.kt:87-88 | the line found carries the key, and none is found exactly when no line does |
| LineIndexes.LastWithKeyIsLast | app/src/main/java/com/danieljm/bussin/data/mapper/ArrivalsMapper.kt:88 | last write wins: the line filed under a number is the last line with that number |
| LineIndexes.EntityCandidates | app/src/main/java/com/danieljm/bussin/data/mapper/ArrivalsMapper.kt:89-92 | an entity's list holds its lines and every one of them |
| LineIndexes.LastWithPublicKey | app/src/main/java/com/danieljm/bussin/data/mapper/ArrivalsMapper.kt:93-102 | the line found files its label under the key, and none is found exactly when no line does |
| LineIndexes.LastWithPublicKeyIsLast | app/src/main/java/com/danieljm/bussin/data/mapper/ArrivalsMapper.kt:96-102 | last write wins for label keys as well |
| LineIndexes.Lookup | app/src/main/java/com/danieljm/bussin/data/mapper/ArrivalsMapper.kt:167 | a lookup misses exactly for an absent key, and a hit is one of the map's values |
| LineIndexes.Put | app/src/main/java/com/danieljm/bussin/data/mapper/ArrivalsMapper.kt:96-101 | `LinkedHashMap` put: a new key goes last, an existing key keeps its place, and only the key's value changes |
| LineIndexes.PutValues | app/src/main/java/com/danieljm/bussin/data/mapper/ArrivalsMapper.kt:96-101 | a put adds no value other than the one given |
| LineIndexes.PutDistinct | app/src/main/java/com/danieljm/bussin/data/mapper/ArrivalsMapper.kt:96-101 | a put never lists a key twice |
| LineIndexes.AddLabel | app/src/main/java/com/danieljm/bussin/data/mapper/ArrivalsMapper.kt:93-103 | a line without a label leaves the label index as it was |
| LineIndexes.AddLabelLookup | app/src/main/java/com/danieljm/bussin/data/mapper/ArrivalsMapper.kt:93-103 | after filing a line, a key answers with it exactly when it is the trimmed label, its lower-case form or its digit run |
| LineIndexes.AddLabelValues | app/src/main/java/com/danieljm/bussin/data/mapper/ArrivalsMapper.kt:93-103 | filing a line adds only that labelled line and keeps keys distinct |
| LineIndexes.LabelIndexLookup | app/src/main/java/com/danieljm/bussin/data/mapper/ArrivalsMapper.kt:93-103 | the built label index answers every key with the last line filing its label under it |
| LineIndexes.LabelIndexValues | app/src/main/java/com/danieljm/bussin/data/mapper/ArrivalsMapper.kt:205 | the values the final scan walks are labelled lines of the table, under distinct keys |
| LineIndexes.FileNumber | app/src/main/java/com/danieljm/bussin/data/mapper/ArrivalsMapper.kt:87-88 | one loop step keeps the number index equal to "last line per non-blank key" over the lines seen |
| LineIndexes.FileEntity | app/src/main/java/com/danieljm/bussin/data/mapper/ArrivalsMapper.kt:89-92 | one loop step keeps the entity index equal to "all lines per entity, in order" over the lines seen |
| LineIndexes.FileLabel | app/src/main/java/com/danieljm/bussin/data/mapper/ArrivalsMapper.kt:93-103 | one loop step's three puts give the label index of the lines seen |
| LineIndexes.BuildLineIndexes | app/src/main/java/com/danieljm/bussin/data/mapper/ArrivalsMapper.kt:81-110 | the three maps hold exactly the last line per normalised number, every line per entity in order, and the label index of the table; a null table gives empty maps |
| LineMatching.FirstWhere | app/src/main/java/com/danieljm/bussin/data/mapper/ArrivalsMapper.kt:128-132 | `firstOrNull` finds the element at the first satisfying position, and none exactly when no element satisfies |
| LineMatching.FirstWhereAt | app/src/main/java/com/danieljm/bussin/data/mapper/ArrivalsMapper.kt:128-132 | the element at the first satisfying position is the one found |
| LineMatching.FirstIndex | app/src/main/java/com/danieljm/bussin/data/mapper/ArrivalsMapper.kt:128-132 | the position found satisfies the test and no earlier position does |
| LineMatching.Filter | app/src/main/java/com/danieljm/bussin/data/mapper/ArrivalsMapper.kt:136-139 | `filter` keeps only elements that satisfy the test, and every element of `s` that does |
| LineMatching.FilterSnoc | app/src/main/java/com/danieljm/bussin/data/mapper/ArrivalsMapper.kt:136-139 | `filter` keeps the order of the list: one more element is appended exactly when it satisfies the test |
| LineMatching.FilterCount | app/src/main/java/com/danieljm/bussin/data/mapper/ArrivalsMapper.kt:140 | the filtered list has one element per satisfying position, so `size == 1` means exactly one line agrees |
| LineMatching.FilterOnly | app/src/main/java/com/danieljm/bussin/data/mapper/ArrivalsMapper.kt:140-141 | with exactly one satisfying element, the filtered list is that element alone |
| LineMatching.ExactRule | app/src/main/java/com/danieljm/bussin/data/mapper/ArrivalsMapper.kt:126-144 | rule 1 yields nothing without a key and an entity, and only a line with both; the first line agreeing on key, entity and direction wins; failing that, it yields a line exactly when one position agrees on key and entity |
| LineMatching.AmbiguousKeyEntityRejected | app/src/main/java/com/danieljm/bussin/data/mapper/ArrivalsMapper.kt:134-143 | two lines agreeing on key and entity, with none in a compatible direction, leave rule 1 without a line |
| LineMatching.UniqueEntityRule | app/src/main/java/com/danieljm/bussin/data/mapper/ArrivalsMapper.kt:147-152 | rule 2 yields a line exactly when the entity is non-blank and has one line, which it yields |
| LineMatching.LineNumberRule | app/src/main/java/com/danieljm/bussin/data/mapper/ArrivalsMapper.kt:157-162 | rule 3 yields a line with the key, and nothing exactly when the key is blank or no line has it |
| LineMatching.MaxSuffix | app/src/main/java/com/danieljm/bussin/data/mapper/ArrivalsMapper.kt:170 | `minOf(3, length)` |
| LineMatching.Suffix | app/src/main/java/com/danieljm/bussin/data/mapper/ArrivalsMapper.kt:172 | `takeLast(n)` has length n and ends the key |
| LineMatching.SuffixRule | app/src/main/java/com/danieljm/bussin/data/mapper/ArrivalsMapper.kt:168-179 | the suffix probes find a labelled line, and nothing exactly when no probed suffix is a label key |
| LineMatching.PublicLabelRule | app/src/main/java/com/danieljm/bussin/data/mapper/ArrivalsMapper.kt:165-180 | rule 4 yields nothing for a blank key; otherwise the label index at the key, else at its lower-case form, else the suffix probes; only labelled lines of the table |
| LineMatching.EntityDirectionRule | app/src/main/java/com/danieljm/bussin/data/mapper/ArrivalsMapper.kt:183-201 | rule 5 yields nothing for a blank entity; otherwise the first line of the entity in the same direction, else the first whose number or label equals the key; only lines of that entity |
| LineMatching.LabelScanRule | app/src/main/java/com/danieljm/bussin/data/mapper/ArrivalsMapper.kt:204-216 | rule 6 yields nothing for a blank key; otherwise the first value of the label index, in key-insertion order, whose label mentions the key, and none exactly when no value does |
| LineMatching.MatchLine | app/src/main/java/com/danieljm/bussin/data/mapper/ArrivalsMapper.kt:121-216 | the chosen line is a line of the table; no key and no entity choose nothing; which rule decides in each case is stated by the `…Wins` lemmas below |
| LineMatching.ExactTripleWins | app/src/main/java/com/danieljm/bussin/data/mapper/ArrivalsMapper.kt:126-132 | the first line agreeing on key, entity and direction is always the one chosen |
| LineMatching.UniqueKeyEntityWins | app/src/main/java/com/danieljm/bussin/data/mapper/ArrivalsMapper.kt:134-143 | failing direction, the only line agreeing on key and entity is chosen |
| LineMatching.UniqueEntityDecides | app/src/main/java/com/danieljm/bussin/data/mapper/ArrivalsMapper.kt:147-152 | the only line of the passage's entity is always chosen |
| LineMatching.OnlyEntityLine | app/src/main/java/com/danieljm/bussin/data/mapper/ArrivalsMapper.kt:148-150 | an entity held by one position has that one line as its list |
| LineMatching.LineNumberLastWins | app/src/main/java/com/danieljm/bussin/data/mapper/ArrivalsMapper.kt:157-162 | without an entity, the last line with the passage's number is chosen |
| LineMatching.SuffixShortestFirst | app/src/main/java/com/danieljm/bussin/data/mapper/ArrivalsMapper.kt:170-178 | the shortest suffix that hits decides |
| LineMatching.PublicSuffixDecides | app/src/main/java/com/danieljm/bussin/data/mapper/ArrivalsMapper.kt:165-180 | without an entity, number or direct label hit, the line of the shortest known suffix is chosen |
| LineMatching.PublicLabelDecides | app/src/main/java/com/danieljm/bussin/data/mapper/ArrivalsMapper.kt:165-180 | without an entity or number hit, a label hit decides |
| LineMatching.AmbiguousEntityWithoutKey | app/src/main/java/com/danieljm/bussin/data/mapper/ArrivalsMapper.kt:183-201 | several labelled lines of the entity, no key and no direction: nothing is chosen |
| LineMatching.EntitySameDirectionWins | app/src/main/java/com/danieljm/bussin/data/mapper/ArrivalsMapper.kt:183-192 | once rules 1 to 4 fail, the first line of the passage's entity in its direction is chosen |
| LineMatching.EntityKeyOrLabelWins | app/src/main/java/com/danieljm/bussin/data/mapper/ArrivalsMapper.kt:193-198 | once rules 1 to 4 fail and no line of the entity is in the passage's direction, the first of its lines whose number or label equals the key is chosen |
| LineMatching.LabelScanWins | app/src/main/java/com/danieljm/bussin/data/mapper/ArrivalsMapper.kt:204-216 | once rules 1 to 5 fail, the first label-index value, in key-insertion order, whose label mentions the key is chosen |
| LineMatching.MissingKeyMatchesUnlabelledScenario | app/src/main/java/com/danieljm/bussin/data/mapper/ArrivalsMapper.kt:194-197 | a missing key equals a missing label: the unlabelled line of the entity is chosen |
| LineMatching.PublicLabelBySuffix | app/src/main/java/com/danieljm/bussin/data/mapper/ArrivalsMapper.kt:168-179 | a key found neither as it is nor in lower case falls through to the suffix probes |
| LineMatching.LabelScanDecides | app/src/main/java/com/danieljm/bussin/data/mapper/ArrivalsMapper.kt:204-216 | with rules 1 to 4 failing and no entity, the label scan decides |
| LineMatching.LabelDigitRunScenario | app/src/main/java/com/danieljm/bussin/data/mapper/ArrivalsMapper.kt:99-101 | line "92" finds the line labelled "R92" through the label's digit run |
| LineMatching.SuffixOrderScenario | app/src/main/java/com/danieljm/bussin/data/mapper/ArrivalsMapper.kt:169-178 | key "136" probes "6" before "36": it gets the "X6" line, not the "R36" line |
| LineMatching.LabelMentionsCaseScenario | app/src/main/java/com/danieljm/bussin/data/mapper/ArrivalsMapper.kt:209 | the end test ignores case but `contains` does not: "XAB" mentions "b" and "A" but not "a" |
| LineMatching.LabelScanUnindexedKey | app/src/main/java/com/danieljm/bussin/data/mapper/ArrivalsMapper.kt:204-215 | on a one-line table, a one-character key that the label index does not hold, under neither its own nor its lower-case form, reaches rule 6 |
| ArrivalsMapper.ArrivalOf | app/src/main/java/com/danieljm/bussin/data/mapper/ArrivalsMapper.kt:227-255 | the line number is the normalised key, and the seven passage fields are copied; the real-time text is the nested or own one; both instants are `IsoToMillis` of their texts; the short time is `FormatToHm` of the schedule; `vias` defaults to empty; the six metadata fields are those of the line `MatchLine` chooses, all null without one |
| ArrivalsMapper.RealtimePrefersNested | app/src/main/java/com/danieljm/bussin/data/mapper/ArrivalsMapper.kt:113-116 | the first nested real-time entry's fields win when present, the passage's otherwise |
| ArrivalsMapper.RealtimeWithoutNested | app/src/main/java/com/danieljm/bussin/data/mapper/ArrivalsMapper.kt:113-116 | without nested entries the passage's own fields are used, statuses defaulting to empty |
| ArrivalsMapper.FromDoorkomst | app/src/main/java/com/danieljm/bussin/data/mapper/ArrivalsMapper.kt:112-256 | the imperative mapper computes exactly `ArrivalOf` |
| ArrivalsMapper.MatchLineMeta | app/src/main/java/com/danieljm/bussin/data/mapper/ArrivalsMapper.kt:118-216 | reassigning `lineMeta` through the cascade over the built indexes gives exactly `MatchLine` |
| ArrivalsMapper.MatchByLabel | app/src/main/java/com/danieljm/bussin/data/mapper/ArrivalsMapper.kt:165-180 | the label-index lookups give exactly rule 4 |
| ArrivalsMapper.MatchBySuffix | app/src/main/java/com/danieljm/bussin/data/mapper/ArrivalsMapper.kt:168-179 | the suffix loop with `break` gives exactly the shortest-first suffix rule |
| ArrivalsMapper.MatchByEntityLines | app/src/main/java/com/danieljm/bussin/data/mapper/ArrivalsMapper.kt:183-201 | the entity-index search gives exactly rule 5 |
| ArrivalsMapper.FromHalteDoorkomsten | app/src/main/java/com/danieljm/bussin/data/mapper/ArrivalsMapper.kt:258-261 | one arrival per passage, in order, against the same lines; null passages give none |
| BusCard.WrapLong | app/src/main/java/com/danieljm/bussin/ui/components/stopdetails/BusCard.kt:138 | 64-bit subtraction wraps: the result is a `Long` congruent to the exact difference |
| BusCard.WrapInt | app/src/main/java/com/danieljm/bussin/ui/components/stopdetails/BusCard.kt:138 | `toInt()` keeps the low 32 bits: an `Int` congruent to the value, the value itself when it fits |
| BusCard.TruncDiv | app/src/main/java/com/danieljm/bussin/ui/components/stopdetails/BusCard.kt:138 | division rounds toward zero for both signs |
| BusCard.DelayTruncatesTowardZero | app/src/main/java/com/danieljm/bussin/ui/components/stopdetails/BusCard.kt:138 | for realistic times the delay is the difference in whole minutes, rounded toward zero |
| BusCard.AbsInt32 | app/src/main/java/com/danieljm/bussin/ui/components/stopdetails/BusCard.kt:142 | `abs` is the magnitude, except that the smallest `Int` stays negative |
| BusCard.DelayText | app/src/main/java/com/danieljm/bussin/ui/components/stopdetails/BusCard.kt:139-143 | "on time" exactly for 0, "+ n" when late, "- n" when early |
| BusCard.DelayTextRoundTrip | app/src/main/java/com/danieljm/bussin/ui/components/stopdetails/BusCard.kt:139-143 | every delay label except the smallest `Int`'s reads back as its delay |
| BusCard.SmallestDelayText | app/src/main/java/com/danieljm/bussin/ui/components/stopdetails/BusCard.kt:142 | the smallest `Int` delay is written "- -…" |
| BusCard.StatusText | app/src/main/java/com/danieljm/bussin/ui/components/stopdetails/BusCard.kt:137-160 | "schedule" exactly without real-time data; otherwise the delay label of the whole-minute delay, which is "on time" exactly for a zero delay |
| BusCard.RealtimeNeedsTimestamp | app/src/main/java/com/danieljm/bussin/ui/components/stopdetails/BusCard.kt:72 | a mapped arrival shows real-time data only when its real-time timestamp is present and not blank |
| BusCard.VehicleOfMappedArrival | app/src/main/java/com/danieljm/bussin/ui/components/stopdetails/BusCard.kt:121 | without a real-time timestamp the card shows "sched"; with real-time data it shows the first nested entry's vehicle, else the passage's own, else "-" |
| BusCard.ScheduledOfMappedArrival | app/src/main/java/com/danieljm/bussin/ui/components/stopdetails/BusCard.kt:131 | "--:--" when the scheduled timestamp is missing or blank, else its short time `FormatToHm` |
| BusCard.BadgeOfMappedArrival | app/src/main/java/com/danieljm/bussin/ui/components/stopdetails/BusCard.kt:53 | the badge shows the matched line's label, else the normalised line number, else "-" |
| BusCard.RemainingMillis | app/src/main/java/com/danieljm/bussin/ui/components/stopdetails/BusCard.kt:188-193 | time to the real arrival if set, else to the scheduled one if set, else the `Long.MIN_VALUE` sentinel |
| BusCard.FormatCountdownMillis | app/src/main/java/com/danieljm/bussin/ui/components/stopdetails/BusCard.kt:207-228 | "" exactly for `Long.MIN_VALUE`, "departed" for other negatives, "at stop" below 20 s, "arriving" below a minute, then "in " and the minutes text |
| BusCard.CountdownRoundTrip | app/src/main/java/com/danieljm/bussin/ui/components/stopdetails/BusCard.kt:213-225 | every countdown of a minute or more reads back as the whole minutes remaining |
| BusCard.AmountRoundTrip | app/src/main/java/com/danieljm/bussin/ui/components/stopdetails/BusCard.kt:215-224 | "m min", "h h" and "h h m min" read back as the minutes they were written from |
| BusCard.CountdownBlankIffNoTime | app/src/main/java/com/danieljm/bussin/ui/components/stopdetails/BusCard.kt:188-208 | the countdown is blank exactly when neither instant is set |
| BusCard.CountdownExample | app/src/main/java/com/danieljm/bussin/ui/components/stopdetails/BusCard.kt:213-225 | 125 minutes show as "in 2 h 5 min" |
| StopDetails.EffectiveTime | app/src/main/java/com/danieljm/bussin/ui/screens/stopdetails/StopDetailsViewModel.kt:82-88 | the real instant if positive, else the scheduled one if positive, else `Long.MAX_VALUE` |
| StopDetails.Insert | app/src/main/java/com/danieljm/bussin/ui/screens/stopdetails/StopDetailsViewModel.kt:82-88 | one insertion step adds exactly the one arrival |
| StopDetails.InsertSorted | app/src/main/java/com/danieljm/bussin/ui/screens/stopdetails/StopDetailsViewModel.kt:82-88 | inserting into a sorted list keeps it sorted |
| StopDetails.SortByEffectiveTime | app/src/main/java/com/danieljm/bussin/ui/screens/stopdetails/StopDetailsViewModel.kt:82-88 | the sorted list is a permutation of the input, ascending by effective time |
| StopDetails.InsertWithTime | app/src/main/java/com/danieljm/bussin/ui/screens/stopdetails/StopDetailsViewModel.kt:82-88 | inserting an arrival puts it ahead of its equal-time arrivals |
| StopDetails.SortStable | app/src/main/java/com/danieljm/bussin/ui/screens/stopdetails/StopDetailsViewModel.kt:82-88 | arrivals of equal effective time keep their input order |
| StopDetails.SortedByKeyEqual | app/src/main/java/com/danieljm/bussin/ui/screens/stopdetails/StopDetailsViewModel.kt:82-88 | two sorted lists with the same arrivals per time, in the same order, are equal |
| StopDetails.SortUnique | app/src/main/java/com/danieljm/bussin/ui/screens/stopdetails/StopDetailsViewModel.kt:82-88 | any sorted, order-keeping arrangement is this sort: every stable sort gives the same list |
| StopDetails.UntimedLast | app/src/main/java/com/danieljm/bussin/ui/screens/stopdetails/StopDetailsViewModel.kt:86 | after an arrival without instants, only `Long.MAX_VALUE` keys follow |
| StopDetails.Flatten | app/src/main/java/com/danieljm/bussin/ui/screens/stopdetails/StopDetailsViewModel.kt:76 | `flatMap` is empty exactly when every group is |
| StopDetails.FlattenAppend | app/src/main/java/com/danieljm/bussin/ui/screens/stopdetails/StopDetailsViewModel.kt:76 | flattening distributes over concatenation of groups |
| StopDetails.AfterFetch | app/src/main/java/com/danieljm/bussin/ui/screens/stopdetails/StopDetailsViewModel.kt:47-132 | the stop fields are kept and loading ends; the raw text survives only a successful raw call; success gives the stably sorted arrivals, no error, and no-groups exactly when the schedule is null or has no groups; failure or an exception gives no arrivals and the message or its default |
| StopDetails.FetchShowsSortedSchedule | app/src/main/java/com/danieljm/bussin/ui/screens/stopdetails/StopDetailsViewModel.kt:73-101 | a successful fetch shows exactly the sorted flattened arrivals |
| StopDetails.AfterLoad | app/src/main/java/com/danieljm/bussin/ui/screens/stopdetails/StopDetailsViewModel.kt:30-45 | loading ends; success sets the stop and clears the error, then fetches when the stop has an id; failure keeps the stop and sets the message or "Unknown error"; without a fetch the arrivals fields are untouched |
| StopDetails.StopDetailsViewModel.constructor | app/src/main/java/com/danieljm/bussin/ui/screens/stopdetails/StopDetailsViewModel.kt:27 | the state starts with every field at its default |
| StopDetails.StopDetailsViewModel.LoadStopDetails | app/src/main/java/com/danieljm/bussin/ui/screens/stopdetails/StopDetailsViewModel.kt:30-45 | the successive writes of `_uiState` leave exactly `AfterLoad` of the old state |
| StopDetails.StopDetailsViewModel.FetchFinalScheduleForStop | app/src/main/java/com/danieljm/bussin/ui/screens/stopdetails/StopDetailsViewModel.kt:47-132 | the successive writes of `_uiState` leave exactly `AfterFetch` of the old state, the stop fields untouched |
| StopDetails.StopDetailsViewModel.FinishWithError | app/src/main/java/com/danieljm/bussin/ui/screens/stopdetails/StopDetailsViewModel.kt:102-129 | the error update: no arrivals, the error set, the raw text kept, loading over |
| FinalScheduleMapper.MapGroups | app/src/main/java/com/danieljm/bussin/data/mapper/FinalScheduleMapper.kt:9 | one mapped group per input group, same length, same stop numbers, same order |
| FinalScheduleMapper.MapGroupsAppend | app/src/main/java/com/danieljm/bussin/data/mapper/FinalScheduleMapper.kt:9 | mapping distributes over concatenation: each group is mapped on its own |
| FinalScheduleMapper.MapGroupsShareLines | app/src/main/java/com/danieljm/bussin/data/mapper/FinalScheduleMapper.kt:9 | every group's passages are matched against the response's one line table |
| FinalScheduleMapper.FromDto | app/src/main/java/com/danieljm/bussin/data/mapper/FinalScheduleMapper.kt:7-15 | groups mapped in order, null groups give none, the three note lists copied or empty |
| FinalScheduleMapper.FromDtoArrival | app/src/main/java/com/danieljm/bussin/data/mapper/FinalScheduleMapper.kt:9 | each arrival of the schedule is its passage mapped with the response's lines |
| FinalScheduleMapper.FromDtoSplit | app/src/main/java/com/danieljm/bussin/data/mapper/FinalScheduleMapper.kt:9 | splitting the response's groups splits the schedule's groups the same way |
| LineDirectionMapper.FromDto | app/src/main/java/com/danieljm/bussin/data/mapper/LineDirectionMapper.kt:7-17 | number: internal, else public, else ""; direction, else ""; description and colours copied |
| LineDirectionMapper.FromDtoRoundTrip | app/src/main/java/com/danieljm/bussin/data/mapper/LineDirectionMapper.kt:7-17 | every direction is the mapping of the search result that carries it |
| LineDirectionMapper.FromDtoDefaults | app/src/main/java/com/danieljm/bussin/data/mapper/LineDirectionMapper.kt:9-10 | the public number matters only without an internal one; the direction is empty exactly when missing or empty |
| LineDirectionMapper.ToLineDto | app/src/main/java/com/danieljm/bussin/data/mapper/LineDirectionMapper.kt:19-31 | all nine fields copied unchanged |
| LineDirectionMapper.ToLineDtoRoundTrip | app/src/main/java/com/danieljm/bussin/data/mapper/LineDirectionMapper.kt:19-31 | the copy is a bijection between direction records and line records |

## Left out

- The Compose layout of the bus card (colours, icons, spacing), the `toColorInt` colour parsing and every `Log` call: rendering and foreign library calls with no state to model.
- The `launch` coroutines of the view model: the model runs each coroutine body to completion, one after the other. The use-case calls become parameters giving their result or exception.
- The clock and the use-case arguments:
  - the card's `System.currentTimeMillis()` (BusCard.kt:188) becomes the `now` parameter of `BusCard.RemainingMillis`;
  - the date "today", formatted from `Date()`, and the literal limit of 200 passages are only arguments to the two use-case calls (StopDetailsViewModel.kt:67 and :73). The model takes those calls' results as parameters, so neither value appears in it.
- `SimpleDateFormat` is modelled only as far as these patterns use it. Field values are not range-checked (lenient rollover), and text after the zone is ignored. Daylight-saving changes of the device's zone are not modelled: the zone is one fixed offset, `localOffset`. Two further behaviours are not modelled either:
  - Java skips spaces and tabs before each field, the zone included. So "2024-05-01T08:15:00 +02:00" reads `+02:00` in the app, but the model falls back to the device zone.
  - Java's calendar is Julian before 15 October 1582, while `DaysFromCivil` is proleptic Gregorian.
- IsoTime.DigitsAt: reads exactly as many ASCII digits as the pattern letter has. Java reads a numeric field that is followed by a literal or a zone greedily: any number of digits, a leading '-', and non-ASCII digits. So "2024-5-1T8:15:00Z" is 2024-05-01T08:15Z in the app but falls through every pattern to 0 in the model, and "2024-05-01T08:15:0012" reads 12 seconds in the app and 0 seconds in the model.
- Text.Lower: `lowercase(Locale.getDefault())` is modelled as ASCII case folding. Locale-specific mappings, such as the Turkish dotless i, are not modelled.
- Text.EqualsIgnoreCase, Text.EndsWithIgnoreCase: the `ignoreCase = true` comparisons of directions and labels (`equals`, `endsWith`) fold case only for A to Z. Kotlin folds every Unicode letter, so "É" and "é" match in the app but not in the model.
- IsoTime.FormatToHm, LineMatching.MaxSuffix, LineMatching.Suffix: a string here is a sequence of Unicode characters, while Kotlin's `length`, `substring(0, 5)`, `minOf(3, length)` and `takeLast(n)` count UTF-16 code units. They differ only for characters outside the Basic Multilingual Plane: on "T😀😀😀" the app keeps five code units (two emoji and half of the third) while the model keeps all three emoji, and a key holding such a character is probed with different suffixes.
- JSON numbers with a fractional part: numeric line numbers are whole numbers here. `toInt()` is modelled by saturating at the 32-bit bounds.
- `Stop` keeps only its id, and the three note lists of a schedule are type parameters, because their fields are never read.
- `refreshArrivals` is called by the stop screen but defined nowhere in the view model, so it is not modelled.
- `fromDoorkomst`'s matching is split into helper methods:
  - one per rule stage: `MatchLineMeta`, `MatchByLabel`, `MatchBySuffix`, `MatchByEntityLines`;
  - the loop body of `buildLineIndexes` into `FileNumber`, `FileEntity` and `FileLabel`.

  The source runs these steps in one function body. The order and results are the same.
- BusCard.DelayTextRoundTrip: excludes the smallest `Int` delay. Its label `abs` leaves negative ("- -2147483648"); `SmallestDelayText` states that case instead.
- BusCard.DelayTruncatesTowardZero: assumes the two instants are less than about 4 000 years apart. Further apart, the `toInt()` wrap-around makes the delay meaningless; `DelayMinutes` still computes it as the app does.
- BusCard.CountdownBlankIffNoTime: assumes `now` is not before the epoch. At a negative `now`, `Long` subtraction could wrap to the sentinel value.
- IsoTime.ParseIsoToMillis: the instant is an unbounded integer, not a `Long`. Years have four digits, so it fits a `Long` for any real zone offset, but `localOffset` itself is not bounded.
