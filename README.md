# sim-exporter, modelled in Dafny

sim-exporter is a Prometheus exporter that serves simulated metrics. A
configuration describes the metrics, and each refresh gives every metric
item a new value. This project models the core of its three generations.
Each generation has its own data types, so each has its own modules.

**The current simulator (pkg/metrics).**
- `MetricsModel`: the `Collection`, `Metric` and `MetricItem` data model.
  - `Collection` and `Metric` are classes, because the source updates them in place through pointers.
  - Their guarded constructors `AddMetric` and `AddItem` are methods. Each is proved against a pure function on the value view (`AddMetricTo`, `AddItemTo`).
- `Waveform`: the `interval` clock arithmetic and `generateValue`, with its constant, `rand`, `asc`, `desc` and `sin` cases.
- `YamlValidation`: the checks `FromYamlFile` applies to a decoded collection. All findings are collected; labels are sorted in place.
- `ScrapeConvert`: the current scrape-to-configuration converter `convertScrapeToConfig`, and its argument helpers `stripQuotes`, `isPercent`, `randomFunc`, `randomDuration` and `randomRange`.
- `Common`: `isInSlice`, `isNotInSlice`, `stringSlicesEqual`, `createMatchMap` and the tables of valid functions and metric types.
  - `isInSlice`, `isNotInSlice` and `createMatchMap` are textually the same in internal/metrics/common.go and cmd/common.go. The table below cites all three copies.

**The earlier value-string configuration (internal/metrics, cmd).**
- `ValueConfig`: metrics in a map keyed by name, each item holding its value as text.
  - `parseValue`, `Init` (a loop over the item array, updated in place) and `generateValue`.
  - The two-way label checks of `LoadAndValidateConfiguration`.
- `CmdConfig`: what cmd/configuration.go and cmd/common.go change on top of that.
  - `GenerateValue` returns 0 where the earlier copy returns a null float.
  - The messages quote names in single quotes.
  - `SimulationError` carries the message.

**The older converter (cmd/convert.go).**
- `CmdConvert`: `buildConfig` and `generateValueRange`.

**Shared building blocks.**
- `GoText`: the parts of Go's standard library the core relies on, stated over Dafny strings.
- `GoSort`: Go's byte-wise string order and `sort.Strings`.

**Inputs taken as parameters.** The clock, the random sources, regular expressions, `strconv.ParseFloat`, `time.ParseDuration`, `units.FromHumanSize`, `math.Sin` and `fmt.Sprintf` of a number are all parameters of the model.
- Regular expressions are represented by the submatches they return.
- The parsers are partial functions from text.
- A Go panic is an explicit error outcome.
- A converter's state machine is a right fold of a line-step function over the lines. The imperative loop is proved equal to that fold. The order rules, skipping rules and invariants are lemmas about the fold.

## Model

| member | source | states |
|---|---|---|
| GoText.Split | pkg/metrics/convert.go:178-179 | strings.Split yields at least one piece, and no piece holds the separator |
| GoText.SplitThenJoin | pkg/metrics/convert.go:178-179 | joining the pieces of a split with the separator gives back the original string |
| GoText.SplitWithoutSeparator | pkg/metrics/convert.go:217-219 | a string without the separator splits into itself alone |
| GoText.SplitWithSeparator | pkg/metrics/convert.go:217-219 | a string holding the separator splits into at least two pieces |
| GoText.SplitFirst | pkg/metrics/convert.go:78-79 | a separator-free prefix followed by the separator comes back as the first piece |
| GoText.SplitTrailingSeparator | pkg/metrics/convert.go:203-210 | a trailing separator adds exactly one empty last piece |
| GoText.SplitPair | pkg/metrics/convert.go:179-180 | two separator-free strings joined by the separator split back into exactly those two |
| GoText.JoinThenSplit | pkg/metrics/convert.go:203 | splitting a join of separator-free pieces gives back exactly those pieces |
| GoText.Itoa | pkg/metrics/metrics.go:299 | the decimal text of a natural number is never empty |
| GoText.NumberedAppend | internal/metrics/configuration.go:153-156 | one more finding appends exactly one numbered entry "n. text; " to the message, numbered after the ones before it |
| GoText.BuildMessage | internal/metrics/configuration.go:152-157 | the message loop builds exactly the numbered list of its findings, numbered from 1, in order |
| GoSort.LeTransitive | pkg/metrics/metrics.go:136 | Go's byte-wise order on strings is transitive |
| GoSort.InsertKeeps | pkg/metrics/metrics.go:136 | inserting one string into a sorted list keeps it sorted and adds exactly that string |
| GoSort.Sort | pkg/metrics/metrics.go:136 | sort.Strings returns a sorted permutation of its input |
| GoSort.SortedUnique | pkg/metrics/metrics.go:136 | two sorted sequences holding the same multiset of strings are equal, so every sort algorithm gives one result |
| GoSort.SortOfSorted | pkg/metrics/metrics.go:288 | sorting an already sorted list changes nothing, so sorting twice is sorting once |
| GoSort.SortByContents | pkg/metrics/metrics.go:136 | the sorted result depends only on the multiset of the input |
| GoSort.Enumerate | pkg/metrics/metrics.go:133-135 | ranging over a map's keys yields every key exactly once, in some order |
| GoSort.SortedKeys | pkg/metrics/metrics.go:132-136 | the collected and sorted keys of a map are sorted and hold each key exactly once |
| GoSort.SortAnyListing | pkg/metrics/metrics.go:132-136 | whatever order the map range produces, collecting and sorting gives the same list |
| GoSort.SetListingDistinct | pkg/metrics/metrics.go:132-136 | a sorted listing of a set has no repeated element |
| GoSort.SortedKeysMatch | pkg/metrics/metrics.go:283-291 | the sorted keys equal a sorted label list exactly when the label list holds each key once and nothing else |
| Common.IsInSlice | pkg/metrics/common.go:31-38 | true exactly when some element equals the search string |
| Common.IsInSliceIsMembership | internal/metrics/common.go:20-27 | isInSlice is membership in the sequence, so an empty slice contains nothing (the internal copy; cmd/common.go:14-21 is the same) |
| Common.IsNotInSlice | internal/metrics/common.go:28-30 | exactly the negation of isInSlice, i.e. no element equals the search string |
| Common.StringSlicesEqual | pkg/metrics/common.go:42-52 | true exactly when the lengths agree and every index holds the same element |
| Common.StringSlicesEqualIsEquality | pkg/metrics/common.go:42-52 | stringSlicesEqual is sequence equality, hence reflexive, symmetric and sensitive to order |
| Common.MatchMapUpToSpec | pkg/metrics/common.go:61-66 | after the loop reaches group i, the keys are the names of groups 1..i-1 and each maps to the last capture bearing that name |
| Common.CreateMatchMapSpec | pkg/metrics/common.go:55-68 | no match gives the empty map; otherwise the keys are exactly the group names from index 1 on, and group 0 is never a key |
| Common.CreateMatchMapDistinctNames | cmd/common.go:27-40 | with distinct group names each named group maps to its own capture (the cmd copy) |
| MetricsModel.IndexOfName | pkg/metrics/metrics.go:34-41 | the position GetMetric stops at: the first metric with the name, or none exactly when no metric has it |
| MetricsModel.AddMetricSpec | pkg/metrics/metrics.go:22-32 | fails exactly on an empty or already present name and then changes nothing; on success appends the metric at the end and keeps every earlier metric |
| MetricsModel.AddMetricKeepsNamesDistinct | pkg/metrics/metrics.go:26-30 | names added through AddMetric stay pairwise distinct, and GetMetric then finds the new metric |
| MetricsModel.ItemLabelNames | pkg/metrics/metrics.go:132-136 | an item's label names are sorted, duplicate-free and are exactly its label keys |
| MetricsModel.AddItemSpec | pkg/metrics/metrics.go:128-156 | a metric without labels adopts the item's sorted keys; otherwise accepts exactly when its list equals them element for element; a refusal changes nothing; success appends exactly one item |
| MetricsModel.UnlabelledItemLeavesLabelsOpen | pkg/metrics/metrics.go:138-139 | an item without labels sets the metric's label list to nil, so the next item is adopted, not checked |
| MetricsModel.AddItemKeepsLabelsAgree | pkg/metrics/metrics.go:138-153 | if every item of a metric carries its label list before AddItem, this still holds after it |
| MetricsModel.SameNames | pkg/metrics/metrics.go:34-41 | changing a metric without changing its name preserves every lookup and the distinctness of names |
| MetricsModel.CollectLabelNames | pkg/metrics/metrics.go:132-136 | the label-name loop, for any map order, returns the item's sorted label names |
| MetricsModel.Values | pkg/metrics/metrics.go:17-20 | the value view of a metric list has one value per object, in order |
| MetricsModel.ValuesAre | pkg/metrics/metrics.go:17-20 | objects whose values match the given values one by one have those values as their view |
| MetricsModel.Metric.constructor | pkg/metrics/metrics.go:106-126 | a new Metric object holds exactly the given value |
| MetricsModel.Metric.AddItem | pkg/metrics/metrics.go:128-156 | the new state of the metric is what AddItemTo gives, and the method fails exactly when AddItemTo does |
| MetricsModel.Collection.constructor | pkg/metrics/metrics.go:17-20 | a new collection holds the version and no metrics |
| MetricsModel.Collection.GetMetric | pkg/metrics/metrics.go:34-41 | returns the first metric with the name, and nothing exactly when no metric has it |
| MetricsModel.Collection.AddMetric | pkg/metrics/metrics.go:22-32 | the new collection value is what AddMetricTo gives; a refused metric changes nothing |
| Waveform.GoRem | pkg/metrics/metrics.go:184 | Go's % truncates toward zero: the remainder has the dividend's sign and is smaller in size than the divisor |
| Waveform.Interval | pkg/metrics/metrics.go:177-187 | fails exactly for a zero interval; otherwise the time passed modulo the interval, in [0, interval) when the clock has not gone back |
| Waveform.IntervalExamples | pkg/metrics/metrics_test.go:671-710 | the table's cases: 123456789s modulo 100s is 89s, 10s modulo 9s is 1s, 1m modulo 1m is 0, 1m modulo 100s is 1m, and interval 0 is an error |
| Waveform.IntervalNegative | pkg/metrics/metrics.go:184 | Go's % keeps the dividend's sign, so 5s into an interval of -10s gives 5s, not a negative remainder |
| Waveform.ConstantItem | pkg/metrics/metrics.go:192-193 | Min == Max gives Min, whatever the function or the interval, including interval 0 |
| Waveform.GenerateOutcome | pkg/metrics/metrics.go:190-231 | a value exactly for Min == Max or a valid function with a nonzero interval; the interval error for interval 0; the panic for an unknown function |
| Waveform.StartOfInterval | pkg/metrics/metrics.go:205-219 | at every start of an interval asc is at Min, desc at Max and sin at the midpoint |
| Waveform.AscDescMirror | pkg/metrics/metrics.go:205-214 | asc and desc add up to Min + Max at every instant |
| Waveform.PhaseWithin | pkg/metrics/metrics.go:207 | within an interval the phase lies in [0, 1) |
| Waveform.WaveWithin | pkg/metrics/metrics.go:200-220 | every waveform at a phase in [0, 1] and a draw in [0, 1) lies in [Min, Max] |
| Waveform.RisingWithin | pkg/metrics/metrics.go:208 | the ascending ramp stays within [Min, Max] |
| Waveform.FallingWithin | pkg/metrics/metrics.go:213 | the descending ramp stays within [Min, Max] |
| Waveform.SwingWithin | pkg/metrics/metrics.go:218-219 | the sine around the midpoint stays within [Min, Max] for a sine value in [-1, 1] |
| Waveform.ValueWithinRange | pkg/metrics/metrics.go:190-231 | with Min <= Max, a positive interval and a refresh not before the start, every waveform stays within [Min, Max] |
| YamlValidation.Texts | pkg/metrics/metrics.go:250-291 | one message per finding, in order |
| YamlValidation.SortLabelsIdempotent | pkg/metrics/metrics.go:288 | sorting keeps nil as nil, sorts a present label list without changing its contents, and a second sort changes nothing |
| YamlValidation.ValidatedAll | pkg/metrics/metrics.go:258-294 | validation keeps the number and the names of the metrics |
| YamlValidation.ItemFindingsEmpty | pkg/metrics/metrics.go:273-291 | an item has no finding exactly when Min <= Max, its function is known, its interval is not 0 and its sorted keys are the metric's labels |
| YamlValidation.FlattenIncludes | pkg/metrics/metrics.go:269-292 | every finding of each element is among the collected findings |
| YamlValidation.ItemsFindingsEmpty | pkg/metrics/metrics.go:269-292 | the items give no finding exactly when every item passes |
| YamlValidation.MetricFindingsEmpty | pkg/metrics/metrics.go:262-293 | a metric gives no finding exactly when its type is known, it has items, and each item passes |
| YamlValidation.MetricsFindingsEmpty | pkg/metrics/metrics.go:258-294 | the metrics give no finding exactly when every metric passes |
| YamlValidation.FindingsEmptyIff | pkg/metrics/metrics.go:248-302 | a collection is accepted exactly when it has a version and metrics, every metric has a known type and items, and every item passes all four checks |
| YamlValidation.EveryMetricProblemReported | pkg/metrics/metrics.go:258-294 | validation does not stop early: every failing check of every metric is among the findings |
| YamlValidation.ItemFindingReported | pkg/metrics/metrics.go:269-292 | every finding of one item is among the collection's findings |
| YamlValidation.EveryItemProblemReported | pkg/metrics/metrics.go:273-291 | every failing check of every item, Min > Max, unknown function, interval 0, label mismatch, is reported |
| YamlValidation.ValidatedTwice | pkg/metrics/metrics.go:283-288 | validating one metric twice is validating it once, and the validated metric has the same findings |
| YamlValidation.ValidationIdempotent | pkg/metrics/metrics.go:288 | validating the collection validation leaves behind finds the same problems and changes nothing more |
| YamlValidation.LoadedMetricAcceptsItsItems | pkg/metrics/metrics.go:283-291 | after a successful load, each labelled metric holds its labels sorted and AddItem would accept every one of its items again |
| YamlValidation.LoadedItemStaysInRange | pkg/metrics/metrics.go:273-282 | a loaded item with a positive interval generates only values within [Min, Max] |
| YamlValidation.RoomLabelNames | pkg/metrics/metrics.go:283-288 | a one-label item's sorted key list is that label |
| YamlValidation.ConstantRoomLoads | pkg/metrics/metrics.go:248-304 | a well-formed constant gauge loads with no finding and always generates its constant |
| YamlValidation.MinAboveMaxRoomRefused | pkg/metrics/metrics.go:273-275 | the same gauge with Min above Max is refused with exactly the one finding "min > max" |
| YamlValidation.DuplicateNamesLoad | pkg/metrics/metrics.go:258-294 | two metrics with the same name load: the loader does not check names for uniqueness |
| YamlValidation.NegativeIntervalLoads | pkg/metrics/metrics.go:280-282 | as written, a ramp with a negative interval loads and then generates a value below its Min |
| YamlValidation.NegativeRampPasses | pkg/metrics/metrics.go:280-282 | an `asc` item with interval -10s passes every check of FromYamlFile |
| YamlValidation.NegativeRampBelowMin | pkg/metrics/metrics.go:177-232 | 5s after its start that item generates -5, below its Min of 0 |
| YamlValidation.IntendedIntervalCheckKeepsRange | pkg/metrics/metrics.go:280-282 | with the check the message describes (one second or longer), every item that passes generates values within [Min, Max] |
| YamlValidation.CheckItem | pkg/metrics/metrics.go:273-291 | the checks of one item find exactly its findings, in source order |
| YamlValidation.CheckItems | pkg/metrics/metrics.go:269-292 | the item loop finds exactly the items' findings and leaves the metric's label list sorted |
| YamlValidation.CheckMetric | pkg/metrics/metrics.go:258-293 | the checks of one metric find exactly its findings; a metric without items is left untouched |
| YamlValidation.CheckMetrics | pkg/metrics/metrics.go:258-294 | the metric loop finds exactly the findings of every metric, in order, and leaves every metric validated |
| YamlValidation.ValuesValidated | pkg/metrics/metrics.go:258-294 | the metric objects after the loop have the validated values |
| YamlValidation.FromYaml | pkg/metrics/metrics.go:248-304 | returns the collection exactly when there is no finding, otherwise an error numbering every finding; labels of metrics with items end up sorted |
| ScrapeConvert.StripQuotes | pkg/metrics/convert.go:38-46 | drops at most one leading and one trailing double quote, and keeps a string without quotes at its ends; cmd/convert.go:68-76 is the same code |
| ScrapeConvert.StripQuotesOfQuoted | pkg/metrics/convert.go:38-46 | a string wrapped in one pair of quotes comes back unwrapped, whatever it holds |
| ScrapeConvert.StripQuotesExamples | pkg/metrics/convert_test.go:192-234 | "" and a lone quote give "", and a quoted word gives the word |
| ScrapeConvert.AnyContained | pkg/metrics/convert.go:193-199 | true exactly when some piece is a substring of the name |
| ScrapeConvert.IsPercentSpec | pkg/metrics/convert.go:192-200 | isPercent holds exactly when some comma-separated piece of honorpct occurs in the metric name |
| ScrapeConvert.EmptyPieceMatchesEveryName | pkg/metrics/convert.go:192-200 | an empty piece, from a leading, trailing or doubled comma, makes every metric a percentage |
| ScrapeConvert.EmptyHonorpctMatchesEveryName | pkg/metrics/convert.go:192-200 | an empty honorpct makes every metric a percentage |
| ScrapeConvert.IsPercentRefuses | pkg/metrics/convert_test.go:485-535 | neither "foo" nor "bar" occurs in "brabaz", so it is not a percentage |
| ScrapeConvert.IsPercentByPiece | pkg/metrics/convert.go:194-197 | any piece occurring in the name makes it a percentage |
| ScrapeConvert.IsPercentAcceptsLastPiece | pkg/metrics/convert_test.go:485-535 | "foo,bar,baz" makes "brabaz" a percentage through its last piece |
| ScrapeConvert.IsPercentAcceptsInside | pkg/metrics/convert_test.go:485-535 | "bar" inside "meabaran" makes it a percentage |
| ScrapeConvert.IsPercentAcceptsPrefix | pkg/metrics/convert_test.go:485-535 | "foo" at the start of "foo_met" makes it a percentage |
| ScrapeConvert.FirstInvalidFunction | pkg/metrics/convert.go:207-211 | the first piece that is not a valid function, and none exactly when all pieces are valid |
| ScrapeConvert.RandomFunc | pkg/metrics/convert.go:202-213 | fails exactly when some piece is not a valid function, naming the first such piece in order; otherwise returns one of the pieces, a valid function |
| ScrapeConvert.RandomFuncAcceptsAll | pkg/metrics/convert_test.go:271-334 | "rand,asc,desc,sin" is accepted |
| ScrapeConvert.RandomFuncAcceptsOne | pkg/metrics/convert_test.go:271-334 | any single valid function, such as the table's "sin" and "rand", is accepted and is the only possible result |
| ScrapeConvert.RandomFuncRefusedExamples | pkg/metrics/convert_test.go:271-334 | the table's refused cases: "sin,foo" and "foo" with the error naming "foo"; "rand,desc,", "rand," and "" with the error naming the empty piece |
| ScrapeConvert.RefusedAt | pkg/metrics/convert.go:202-210 | a comma-joined list is refused with the error naming piece k when k is the first invalid piece |
| ScrapeConvert.FirstInvalidAt | pkg/metrics/convert.go:207-210 | the loop stops at piece k when k is invalid and every piece before it is valid |
| ScrapeConvert.RandomFuncAcceptsValid | pkg/metrics/convert.go:202-213 | any non-empty comma-joined list of valid functions is accepted, and the function picked is one of the list |
| ScrapeConvert.RandomFuncValidPieces | pkg/metrics/convert.go:207-212 | a text whose every piece is a valid function is accepted |
| ScrapeConvert.RandomFuncRefusesPiece | pkg/metrics/convert.go:207-210 | any piece that is not a valid function makes the whole text refused |
| ScrapeConvert.ValidFunctionWithoutComma | pkg/metrics/common.go:23 | no valid function name holds a comma |
| ScrapeConvert.RandomDuration | pkg/metrics/convert.go:215-240 | fails unless the text is two parseable durations around one '-', the first at least 15s and not above the second |
| ScrapeConvert.RandomDurationSyntax | pkg/metrics/convert.go:217-220 | every text that does not split into exactly two pieces on '-' is refused with the interval syntax error, whatever the durations |
| ScrapeConvert.RandomDurationSyntaxExamples | pkg/metrics/convert_test.go:336-400 | the table's empty text, and a single duration "20s", are refused with the interval syntax error |
| ScrapeConvert.RandomDurationWithin | pkg/metrics/convert.go:235-238 | the result is a whole number of seconds, never below 15s nor above the upper bound, and not below the lower bound when that is whole seconds |
| ScrapeConvert.DurationBetweenWithin | pkg/metrics/convert.go:237-238 | for a draw in [0, 1) the truncated duration between two bounds from 15s up is whole seconds and lies between them |
| ScrapeConvert.SecondsBetweenWithin | pkg/metrics/convert.go:237 | the seconds at a draw in [0, 1) of the way between the bounds lie between the bounds |
| ScrapeConvert.WholeSecondsBetween | pkg/metrics/convert.go:235-238 | truncating to seconds a point between two bounds stays between them when the lower one is whole seconds |
| ScrapeConvert.RandomRangeAround | pkg/metrics/convert.go:242-247 | for a non-negative value and deviation the range brackets the value, within maxDeviation percent of it; deviation 0 gives the value itself |
| ScrapeConvert.DeviationMonotonic | pkg/metrics/convert.go:243-245 | a larger deviation widens the range |
| ScrapeConvert.RandomRangeExamples | pkg/metrics/convert_test.go:424-483 | 10 with 100 percent stays within [0, 20]; 10 with 10 percent within [9, 11] |
| ScrapeConvert.PercentRangeWithin | pkg/metrics/convert.go:162-164 | a percentage in [0, 100] gets bounds within [0, 100] that bracket it |
| ScrapeConvert.PercentRangeAboveHundred | pkg/metrics/convert.go:162-164 | a "percentage" of 200 with deviation 10 gets min 190 above max 100 |
| ScrapeConvert.LabelPair | pkg/metrics/convert.go:179-180 | no pair exactly when the piece has no '=' (the source panics on kv[1]) |
| ScrapeConvert.LabelPairOfQuoted | pkg/metrics/convert.go:179-180 | key="value" reads back as that key and that value |
| ScrapeConvert.LabelsFromSpec | pkg/metrics/convert.go:176-183 | labels exist exactly when every piece holds '='; the keys are exactly the pieces' keys, and the last piece's value is kept for its key |
| ScrapeConvert.LabelsFromNone | pkg/metrics/convert.go:178-181 | the label text fails exactly when some piece lacks '=' |
| ScrapeConvert.LabelsFromKeys | pkg/metrics/convert.go:178-181 | when the label text succeeds, every piece's unquoted key is a label key, and every label key comes from some piece |
| ScrapeConvert.LabelsFromStaysNone | pkg/metrics/convert.go:178-181 | one piece without '=' makes the whole label text fail, whatever follows |
| ScrapeConvert.ParseLabels | pkg/metrics/convert.go:176-183 | the label loop yields exactly the labels of the specification, or the panic |
| ScrapeConvert.SubmatchMapSpec | pkg/metrics/common.go:55-68 | a sample-line match gives exactly its name, labels and value groups; anything else gives an empty map |
| ScrapeConvert.HelpLine | pkg/metrics/convert.go:69-98 | the HELP branch on the Collection object has the effect of the HELP step |
| ScrapeConvert.TypeLine | pkg/metrics/convert.go:99-123 | the TYPE branch sets the metric's type as the TYPE step says |
| ScrapeConvert.AddItemToMetric | pkg/metrics/convert.go:184-186 | the item is added to the metric stored under the name as AddItemTo says, and no other metric changes |
| ScrapeConvert.ReadSampleLabels | pkg/metrics/convert.go:176-183 | no labels for an empty labels group, otherwise the parsed labels |
| ScrapeConvert.SampleLine | pkg/metrics/convert.go:124-187 | the sample branch has the effect of the sample step |
| ScrapeConvert.ConvertLine | pkg/metrics/convert.go:64-187 | one pass of the loop passes blank lines over and dispatches the rest on their prefix, with the effect of the line step |
| ScrapeConvert.ConvertNext | pkg/metrics/convert.go:64-188 | one pass of the loop leaves exactly the rest of the run, or the error that ends it |
| ScrapeConvert.ConvertScrapeToConfig | pkg/metrics/convert.go:48-190 | builds a version-"1" collection line by line and returns it or the first error, exactly as the fold of the line step |
| ScrapeConvert.InitialReachable | pkg/metrics/convert.go:50-62 | the starting state satisfies the converter's invariant |
| ScrapeConvert.HelpStepKeeps | pkg/metrics/convert.go:69-98 | an accepted HELP keeps the invariant |
| ScrapeConvert.TypeStepKeeps | pkg/metrics/convert.go:99-123 | an accepted TYPE keeps the invariant |
| ScrapeConvert.SampleStepKeeps | pkg/metrics/convert.go:124-187 | an accepted sample keeps the invariant |
| ScrapeConvert.ReplacedMetricKeeps | pkg/metrics/convert.go:184-186 | replacing the current metric by a kept one of the same name keeps the invariant |
| ScrapeConvert.LineStepKeeps | pkg/metrics/convert.go:65-188 | every accepted line keeps the invariant |
| ScrapeConvert.LineStepNeverUnknown | pkg/metrics/convert.go:118-122 | in a reachable state the "Metric unknown" error never happens |
| ScrapeConvert.RunFromKeeps | pkg/metrics/convert.go:65-188 | every run of lines from a reachable state keeps the invariant and never raises "Metric unknown" |
| ScrapeConvert.ConvertResult | pkg/metrics/convert.go:48-190 | the result has version "1", distinct non-empty names that are not internal, and per metric a sorted label list every labelled item carries |
| ScrapeConvert.LineKinds | pkg/metrics/convert.go:66-99 | a line is a HELP, a TYPE, blank or a sample, and only one of them |
| ScrapeConvert.StepOrdering | pkg/metrics/convert.go:69-131 | unexpected HELP, TYPE and sample lines are refused, and so is a TYPE for another metric; the flags after each accepted line enforce HELP, TYPE, samples |
| ScrapeConvert.BlankLineIgnored | pkg/metrics/convert.go:66-68 | a blank line changes nothing |
| ScrapeConvert.SampleBeforeTypeRefused | pkg/metrics/convert.go:125-127 | a sample line before every TYPE line fails the conversion |
| ScrapeConvert.MustStartWithHelp | pkg/metrics/convert_test.go:75-103 | a scrape opening with a TYPE or a sample fails with the matching error at line 0 |
| ScrapeConvert.WithoutHelpNothing | pkg/metrics/convert.go:66-131 | without HELP lines, only all-blank input succeeds, and it yields nothing |
| ScrapeConvert.InternalHelpSkipped | pkg/metrics/convert.go:80-88 | a HELP for go_, process_ or promhttp_ adds nothing and switches skipping on |
| ScrapeConvert.SkippedBlockAddsNothing | pkg/metrics/convert.go:114-116 | while skipping, no TYPE or sample line changes the collection or the metric being read, up to the next HELP |
| ScrapeConvert.UnusableSampleSkipped | pkg/metrics/convert.go:136-155 | an unmatched sample, one naming another metric, or one whose value does not parse changes only the flags |
| ScrapeConvert.SampleLabelsPanic | pkg/metrics/convert.go:178-180 | a kept sample with a label piece lacking '=' is the index-out-of-range panic |
| ScrapeConvert.SampleKeptAppends | pkg/metrics/convert.go:146-186 | a kept sample appends exactly its item to the current metric when its labels agree, and is refused with the label-mismatch error otherwise |
| ScrapeConvert.KeptSampleStep | pkg/metrics/convert.go:146-186 | the step of a kept sample is the outcome of adding its item to the current metric |
| ScrapeConvert.RepeatedHelpRefused | pkg/metrics/convert.go:95-98 | a second HELP for a name in the collection is refused by AddMetric |
| ScrapeConvert.SampleItemWithin | pkg/metrics/convert.go:157-174 | every item gets a valid function and an interval of whole seconds, at least 15; its bounds bracket the value for a percentage in [0, 100] (after the clamp), and otherwise for a value >= 0 with a deviation >= 0 and a draw in [0, 1); randomRange does not bracket a negative value |
| ScrapeConvert.LineStepItemsWithin | pkg/metrics/convert.go:157-186 | each line keeps every item's function valid and its interval at least 15s |
| ScrapeConvert.HelpStepItemsWithin | pkg/metrics/convert.go:69-98 | a HELP line adds a metric without items, so every item stays within bounds |
| ScrapeConvert.SampleStepItemsWithin | pkg/metrics/convert.go:157-186 | a sample line adds one item, with a valid function and an interval of at least 15s |
| ScrapeConvert.RunFromItemsWithin | pkg/metrics/convert.go:65-188 | the whole run keeps every item's function valid and its interval at least 15s |
| ScrapeConvert.ScrapefileItemsWithin | pkg/metrics/convert.go:249-271 | a function list randomFunc refuses is refused before any line; a success is the conversion's result, and every item has a valid function and an interval of at least 15s |
| ValueConfig.ValueMatchSpec | internal/metrics/configuration.go:72-73 | a match of the value regex gives exactly the "from" and "to" captures; anything else an empty map |
| ValueConfig.ParseValueSpec | internal/metrics/configuration.go:71-94 | fails exactly when there is no match or a number does not parse; an empty "to" sets the constant only; otherwise sets both range ends only; cmd/configuration.go:69-92 is the same code |
| ValueConfig.ParsedItemGenerates | internal/metrics/configuration.go:96-104 | a parsed constant generates itself; a parsed range from <= to generates within [from, to]; an unparsed item the null float |
| ValueConfig.InitFrom | internal/metrics/configuration.go:47-61 | the result has as many items as the input |
| ValueConfig.FirstFailure | internal/metrics/configuration.go:49-56 | the index of the first non-empty item that does not parse, and none exactly when all parse |
| ValueConfig.InitFromSpec | internal/metrics/configuration.go:47-61 | items before the first failure are parsed, it and those after are untouched, and its error is returned; empty texts are never touched |
| ValueConfig.InitFromError | internal/metrics/configuration.go:49-58 | Init returns an error exactly when some item does not parse, and it is the first such item's error |
| ValueConfig.InitFromAt | internal/metrics/configuration.go:49-58 | item k comes out parsed when it precedes the first failure and untouched from the failure on |
| ValueConfig.InitFromSuffix | internal/metrics/configuration.go:53-55 | from the first item that does not parse on, Init leaves every item as it was |
| ValueConfig.InitAtNext | internal/metrics/configuration.go:49-58 | an item that parses is replaced by its parsed form and the loop goes on with the next |
| ValueConfig.InitAtStop | internal/metrics/configuration.go:53-55 | an item that does not parse ends the loop with its error and the items as they are |
| ValueConfig.InitStep | internal/metrics/configuration.go:50-57 | one pass on the array: item i is replaced by its parsed form, or the array is left as it was and the item's error ends the loop, as the loop's specification says |
| ValueConfig.InitAtFrom | internal/metrics/configuration.go:47-61 | the in-place loop, item by item, ends where the recursive definition does: the replaced prefix followed by what is left of the rest |
| ValueConfig.Init | internal/metrics/configuration.go:47-61 | the item array ends up as InitFrom says, and the error is InitFrom's; cmd/configuration.go:45-59 is the same code |
| ValueConfig.KeysFindingsAny | internal/metrics/configuration.go:125 | the findings do not depend on the order in which the metrics map is ranged over |
| ValueConfig.UndeclaredRemove | internal/metrics/configuration.go:135 | the undeclared-label findings do not depend on the order of the label map |
| ValueConfig.UndeclaredHas | internal/metrics/configuration.go:135-140 | an undeclared-label finding is reported exactly for an item label the metric does not declare |
| ValueConfig.MissingHas | internal/metrics/configuration.go:141-145 | a missing-label finding is reported exactly for a declared label the item lacks |
| ValueConfig.ItemFindingsHas | internal/metrics/configuration.go:133-147 | an item's findings are exactly its labels the metric does not declare and the declared labels it lacks |
| ValueConfig.CheckUndeclared | internal/metrics/configuration.go:134-140 | the first item loop collects the item's label names and the undeclared ones |
| ValueConfig.CheckMissing | internal/metrics/configuration.go:141-145 | the second item loop finds the declared labels the item lacks, in declared order |
| ValueConfig.CheckItemLabels | internal/metrics/configuration.go:133-147 | one item's label checks find exactly its findings |
| ValueConfig.CheckItems | internal/metrics/configuration.go:133-147 | the item loop finds exactly the findings of every item |
| ValueConfig.CheckMetric | internal/metrics/configuration.go:126-149 | one metric's checks find exactly its findings |
| ValueConfig.ValidateConfiguration | internal/metrics/configuration.go:120-150 | the checks of the whole configuration find exactly all findings, whatever order the map is ranged in |
| ValueConfig.ItemsFindingsNamed | internal/metrics/configuration.go:133-147 | every finding about the items is a label finding about the metric |
| ValueConfig.ItemsUndeclared | internal/metrics/configuration.go:135-139 | a label is reported undeclared exactly when the metric does not declare it and some item carries it |
| ValueConfig.ItemsMissing | internal/metrics/configuration.go:141-144 | a declared label is reported missing exactly when some item lacks it |
| ValueConfig.MetricFindingsNamed | internal/metrics/configuration.go:126-149 | every finding about a metric names that metric |
| ValueConfig.KeysFindingsHas | internal/metrics/configuration.go:125-150 | a finding is among those of a set of keys exactly when it is a finding of the metric under one of them |
| ValueConfig.AllFindingsHas | internal/metrics/configuration.go:120-150 | a finding about the named metric is among all findings exactly when it is among that metric's |
| ValueConfig.FindingsSpec | internal/metrics/configuration.go:122-131 | "no metrics" exactly for an empty map; an unknown-type finding exactly for a metric with a type outside the four kinds; a no-items finding exactly for a metric without items; cmd/configuration.go:132-141 makes the same checks |
| ValueConfig.LabelFindingsSpec | internal/metrics/configuration.go:132-149 | label findings only for a metric that declares labels: an item label it does not declare, or a declared label some item lacks; cmd/configuration.go:142-159 makes the same checks |
| ValueConfig.NoFindingsIffAcceptable | internal/metrics/configuration.go:120-152 | there is no finding exactly when the configuration is acceptable |
| ValueConfig.NoFindingsAcceptable | internal/metrics/configuration.go:120-152 | with no finding there is at least one metric, each of a known type with items, and where labels are declared every item carries exactly them |
| ValueConfig.FindingRefutes | internal/metrics/configuration.go:120-152 | any single finding makes the configuration unacceptable |
| ValueConfig.Texts | internal/metrics/configuration.go:122-145 | one message per finding, in order |
| ValueConfig.LoadAndValidateConfiguration | internal/metrics/configuration.go:120-160 | returns the configuration exactly when it is acceptable; otherwise a message numbering all findings |
| CmdConfig.GenerateValueSpec | cmd/configuration.go:107-114 | the constant if set; for a range within [from, to], below to when from < to; otherwise 0, as for an item never parsed; equal to the earlier generateValue wherever that gives a value |
| CmdConfig.LoadAndValidateConfiguration | cmd/configuration.go:130-170 | returns the configuration exactly when it is acceptable; otherwise a SimulationError numbering all findings, with single-quoted names |
| CmdConvert.RangeAroundValue | cmd/convert.go:93-94 | for a non-negative deviation the lower and upper ends bracket a non-negative value, are swapped for a negative one, and equal the value for deviation 0 |
| CmdConvert.GenerateValueRangeSpec | cmd/convert.go:78-104 | nothing exactly when the value does not parse; the value itself for deviation 0; otherwise two ends centred on the value, bracketing a non-negative value for a positive deviation, giving the value when they print alike and else "lower-upper" in the lower end's format |
| CmdConvert.NamesAndLabelsSpec | cmd/convert.go:203-213 | label names exist exactly when the label map does; the map equals the current converter's; one name per piece, in the pieces' order |
| CmdConvert.NamesAreKeys | cmd/convert.go:203-213 | every label name is a key of the item's label map, and every key is among the names |
| CmdConvert.NamesAndLabelsStaysNone | cmd/convert.go:205-207 | one piece without '=' fails the whole label text, whatever follows |
| CmdConvert.ReadLabels | cmd/convert.go:203-210 | the label loop yields the names and map of the specification, or the panic |
| CmdConvert.ErrorOf | cmd/convert.go:127-208 | every handled error is a SimulationError starting "Line n: "; the index panics and the crypto/rand panic give none |
| CmdConvert.SampleLine | cmd/convert.go:171-219 | the sample branch has exactly the effect of the sample step |
| CmdConvert.BuildConfig | cmd/convert.go:106-223 | the loop returns exactly what the fold of the line step returns |
| CmdConvert.InitialKept | cmd/convert.go:108-120 | the starting state satisfies the converter's invariant |
| CmdConvert.WithSampleSpec | cmd/convert.go:202-215 | a sample keeps the metric's name, help and type, appends one item with its labels, and replaces the label names when it has labels |
| CmdConvert.HelpStepKeeps | cmd/convert.go:125-148 | an accepted HELP keeps the invariant |
| CmdConvert.TypeStepKeeps | cmd/convert.go:149-170 | an accepted TYPE keeps the invariant |
| CmdConvert.SampleStepKeeps | cmd/convert.go:171-219 | an accepted sample keeps the invariant |
| CmdConvert.LineStepKeeps | cmd/convert.go:123-221 | every accepted line keeps the invariant |
| CmdConvert.RunFromKeeps | cmd/convert.go:123-221 | every run of lines keeps the invariant |
| CmdConvert.BuildResult | cmd/convert.go:106-223 | the result has version "1"; each metric is under its own name; no metric is internal; items carry only a value text and labels |
| CmdConvert.StepOrdering | cmd/convert.go:125-176 | unexpected HELP, TYPE and sample lines are refused, and so is a TYPE for another metric; TYPE leaves expectHelp unchanged |
| CmdConvert.SampleNeededBetweenHelps | cmd/convert.go:127-131 | after an accepted HELP, a later HELP reached through HELP and TYPE lines only is refused |
| CmdConvert.MetricWithoutSamplesRefused | cmd/convert.go:149-155 | HELP, TYPE and then another HELP fails: a metric needs at least one sample line |
| CmdConvert.SampleBeforeTypeRefused | cmd/convert.go:173-175 | a sample line, blank ones included, before every TYPE line fails the conversion |
| CmdConvert.MustStartWithHelp | cmd/convert.go:149-175 | a scrape opening with a TYPE, a sample or a blank line fails with the matching error at line 0 |
| CmdConvert.BlankLineIsSample | cmd/convert.go:171-218 | a blank line is a sample line: refused before a TYPE, otherwise skipped as unmatched |
| CmdConvert.HelpReplacesEntry | cmd/convert.go:140-148 | a HELP for a name puts a fresh metric under it, dropping the type, labels and items of an earlier one; other metrics stay |
| CmdConvert.InternalHelpSkipped | cmd/convert.go:134-140 | a HELP for go_, process_ or promhttp_ adds nothing and switches skipping on |
| CmdConvert.SkippedBlockAddsNothing | cmd/convert.go:161-179 | while skipping, no TYPE or sample line changes the configuration, up to the next HELP |
| CmdConvert.TypeSetsKind | cmd/convert.go:161-168 | an accepted TYPE sets the current metric's type and changes nothing else |
| CmdConvert.UnusableSampleSkipped | cmd/convert.go:180-218 | an unmatched sample, one naming another metric, or one whose value does not parse changes only the flags |
| CmdConvert.UsableSampleAppends | cmd/convert.go:182-215 | the crypto/rand panic or error, otherwise one item appended with the value widened by less than the maximum deviation; label names overwritten in order, unchecked; no other metric changes |

## Left out

- Reading files, decoding and encoding YAML, logging, and the output of the convert command are not modelled. Validators start from the decoded values.
- The Prometheus registry, the refresh loop and its goroutines, the HTTP server and the CLI commands are not modelled. This covers pkg/metrics/metrics_server.go, internal/metrics/metrics.go, cmd/metrics.go, cmd/serve.go, cmd/root.go, cmd/check.go, cmd/version.go and main.go.
- pkg/errors/errors.go is not part of this model. The internal loader's error is its message text.
- Floating point is real arithmetic. NaN and ±Inf are not modelled: strconv.ParseFloat accepts "NaN" and "+Inf", which Prometheus scrapes carry, and Go then adds an item with NaN or infinite bounds; the model's parseFloat can only give no number (the sample is skipped) or a real.
- Floating point rounding: IEEE rounding, the int64 to float64 conversions of the clock, and math.Pi are not modelled. math.Sin is a parameter bounded by [-1, 1].
- Regular expressions, strconv.ParseFloat, time.ParseDuration and units.FromHumanSize are parameters. The model does not state which texts they accept.
- CmdConvert.GenerateValueRangeSpec: fmt.Sprintf of a number is a parameter. The model keeps the choice of verb ("%.0f" below 10000, "%.3e" from there on) but not the digits the verbs print.
- Time is an unbounded integer of nanoseconds. time.Since and the interval are int64 in the source (pkg/metrics/metrics.go:179-184) and could wrap only after about 292 years, so the model does not model wrap-around.
- Go's %q escaping is not modelled: a quoted text is the text between double quotes.
- Random draws are parameters.
  - rand.Float64 is a real in [0, 1).
  - rand.Intn and crypto/rand.Int are a natural number, reduced modulo the bound.
  - Seeding is not modelled.
- Go map iteration order is left open. The order of findings that depends on it is stated as a multiset.
- `setField` (pkg/metrics/convert.go:277-295) is not called by the core and is not modelled.
- Parent pointers (`parent`, `ParentCollection`, `ParentMetric`) are not modelled. They are only set, never read by the core.
- MetricsModel.Collection.AddMetric: the metric is stored as a new object holding the given value. The model does not capture that the source stores a pointer to its own copy of the argument.

## Findings

| source | as written | input that shows it | evidently intended | confidence | as-written member | corrected member |
|---|---|---|---|---|---|---|
| pkg/metrics/metrics.go:280-282 | only an interval of exactly 0 is refused | an `asc` item with Min 0, Max 10 and interval -10s loads; 5s after the start it generates -5, below Min | the message asks for "1s or longer", so intervals below one second should be refused | high, not executed | YamlValidation.NegativeIntervalLoads | YamlValidation.IntendedIntervalCheckKeepsRange |

## Behaviour notes

- The two converters differ in their order rules.
  - In pkg/metrics/convert.go a TYPE sets expectHelp, so a metric with no samples is accepted.
  - In cmd/convert.go a TYPE leaves expectHelp unset, so a HELP right after a TYPE is refused (`CmdConvert.MetricWithoutSamplesRefused`).
- cmd/convert.go has no blank-line skip: a blank line is a sample line (`CmdConvert.BlankLineIsSample`).
- In generateValueRange both ends of a range use the format chosen for the lower end, as the comment at cmd/convert.go:98 says. For example, 9500 with a deviation of 10 gives "8550-10450", not "8550-1.045e+04".
- A repeated HELP is refused by the current converter (through AddMetric). The older one replaces the entry instead.
