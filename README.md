# OPC UA publisher message flattener — a Dafny model

This project models the flattening engine of the Azure IoT Edge OPC flattener
module (`OPCUAPublisherNodesFlattener`). The engine takes the telemetry an
OPC UA publisher sends and turns it into one flat JSON object. The telemetry
is a JSON array, or a single object, of node readings. Each reading has an
`ApplicationUri`, a `NodeId`, a `DisplayName` and a `Value` envelope holding
the payload and a `SourceTimestamp`.

The model covers:

- **Entry dispatch** (`DoFlatten`). `Flattener.RouteOf` decides between "no
  output" (`{}`), "array of readings" and "single reading wrapped into an
  array". The raw message decides: its length in UTF-16 code units (what C#
  `string.Length` counts, so a character outside the Basic Multilingual
  Plane counts twice) and its first character.
- **Identity grouping** (`CreateNodeTimeseries`, `ApplicationNodeId`,
  `ApplicationNodeIdComparer`).
  - A `Timeseries` is a map from identity to a list of (timestamp, reading)
    entries, plus the order in which keys were first added.
  - The model takes that order to be the order in which the `foreach` of
    `DoStandardFlattening` enumerates the .NET `Dictionary`. This relies on
    the behaviour of .NET's `Dictionary` implementation, which enumerates in
    insertion order while no key is removed (and none is here). .NET does not
    document this as a guarantee.
  - The list of a key is re-sorted by timestamp after every append.
  - The method is proved against the relational specification
    `IsTimeseriesOf`: keys in first-seen order, each list sorted and holding
    exactly (as a multiset) the entries of its identity.
- **Batch flattening** (`DoStandardFlattening`).
  - The loop over the groups works on a mutable `JsonObject`. That object is a
    deep clone of the template, or a new object.
  - The loop is proved equal to the functional `Batch.Accumulate`.
  - `Batch.StandardFlattening` gives the closed form of the output: the
    template, then one property per identity in first-seen order (the latest
    entry's `Value.Value` under its resolved name), then `TimeCreated` with
    the latest timestamp of all readings. It fails exactly when a name
    repeats.
- **Name resolution.** An override from `DisplayNames` wins whenever the
  reading's node id is in the table. Otherwise the key is
  `(DoUseApplicationUri ? ApplicationUri : "") + ";" + DisplayName`. That
  candidate always contains `;`, so the "empty candidate" branch of the
  source never selects the override.
- **Streaming flattening** (`DoFlattenAsync`, `ReadTillNextProp`).
  - It is a forward-only cursor over an abstract token sequence.
  - `Streaming.StreamFrom` is its specification.
  - `Streaming.FlattenAsyncOfArray` covers an array of readings laid out as
    the publisher sends them: `ApplicationUri`, `NodeId`, `DisplayName`, then
    the `Value` object holding `Value` and `SourceTimestamp`, with a scalar or
    null payload. It also requires that no `ApplicationUri`, `NodeId` or
    `SourceTimestamp` is itself the text "DisplayName". On such input the
    lemma proves the path writes one (DisplayName, Value) pair per reading,
    in order, without deduplication.
  - Outside that layout the output depends on property order, because the
    reader only moves forward. `Streaming.ValueFirstWritesNothing` and
    `Streaming.ValueFirstTakesNextValue` show this on a concrete example.
- **Override-table construction.** This is the `NodesMapping` loop of
  `UseMappingConfigurationFromFile`, run on already-parsed elements.

Modules: `Wrappers` (Option/Result), `Failures` (the exceptions that escape),
`Json` (the JObject part used), `Identity`, `Readings`, `Timeseries`,
`Batch`, `Streaming`, `Mapping`, `Flattener` (the flattener class) and
`Scenarios` (worked examples).

Behaviour of the code worth knowing:

- **Missing or unparseable `SourceTimestamp`.** `Value<DateTime>()` throws,
  so the whole batch fails. The model gives `InvalidTimestamp`.
- **Two identities resolving to the same name.** `JObject.Add` throws on a
  name already present, so the model gives `DuplicateProperty`. The same
  happens when a name equals `TimeCreatedPropertyname` or a template
  property.
- **Sorting.** `List.Sort` is not stable. The contracts promise only "sorted
  by timestamp and a permutation", never which of two equal-timestamp
  readings comes last.
- **`DoUseApplicationUri` off.** The key is `";" + DisplayName`.
- **Missing display name.** It adds nothing to the key (C# `string + null`).
- **Property order in the streaming path.** `DoFlattenAsync` scans forward for
  `DisplayName` and then for `Value` twice. A reading whose `DisplayName` comes
  after its `Value` object writes nothing of its own. If another reading
  follows, the first reading's display name is written with the next
  reading's value, and the next reading's display name is skipped.

## Model

| member | source | states |
|---|---|---|
| `Identity.Equals` | modules/OPCFlattenerModule/OPCUAPublisherNodesFlattener.cs:232-235 | the comparer relates two identities exactly when both ApplicationUri and NodeId are equal, i.e. it is structural equality, so identities can key a map |
| `Identity.HashText` | modules/OPCFlattenerModule/OPCUAPublisherNodesFlattener.cs:239 | the hashed text is ApplicationUri, a vertical bar, then NodeId, in that order and nothing else |
| `Identity.GetHashCode` | modules/OPCFlattenerModule/OPCUAPublisherNodesFlattener.cs:237-241 | the hash code depends only on the two fields Equals compares: every identity Equals relates to this one hashes to the same value, for whatever string hash the runtime uses |
| `Identity.EqualKeysHashEqually` | modules/OPCFlattenerModule/OPCUAPublisherNodesFlattener.cs:237-241 | identities the comparer calls equal get equal hash codes, whatever the string hash function is |
| `Identity.HashTextCollides` | modules/OPCFlattenerModule/OPCUAPublisherNodesFlattener.cs:237-241 | the hashed text (ApplicationUri, a vertical bar, NodeId) is not injective: two unequal identities can share it (a collision Equals then resolves) |
| `Json.AddProperty` | modules/OPCFlattenerModule/OPCUAPublisherNodesFlattener.cs:105 | adding a property succeeds exactly when no property of that name exists, then appends it; otherwise it fails with a duplicate-name error and never overwrites; distinct names are kept |
| `Json.JsonObject.Add` | modules/OPCFlattenerModule/OPCUAPublisherNodesFlattener.cs:114 | the mutable object's properties change exactly as AddProperty says, and stay unchanged on failure |
| `Json.JsonObject.DeepClone` | modules/OPCFlattenerModule/OPCUAPublisherNodesFlattener.cs:86 | the clone is a fresh object with the same properties, so changing it cannot reach the template |
| `Readings.ReadEntry` | modules/OPCFlattenerModule/OPCUAPublisherNodesFlattener.cs:130-131 | reading a node's identity and timestamp succeeds exactly when ApplicationUri, NodeId, Value and a SourceTimestamp date are present, and keys the entry by that reading's own identity and timestamp |
| `Readings.ExtractAll` | modules/OPCFlattenerModule/OPCUAPublisherNodesFlattener.cs:128-131 | all readings are read in order, one entry each, or the error is the one of the first reading that lacks a property |
| `Readings.ExtractStopsAtFirstFailure` | modules/OPCFlattenerModule/OPCUAPublisherNodesFlattener.cs:128-131 | the first malformed reading decides the error, whatever follows it |
| `Timeseries.InsertByTime` | modules/OPCFlattenerModule/OPCUAPublisherNodesFlattener.cs:135-141 | appending one entry to a sorted list and re-sorting gives a sorted list with exactly one more entry, the new one, and every old one |
| `Timeseries.SortByTime` | modules/OPCFlattenerModule/OPCUAPublisherNodesFlattener.cs:136-141 | the re-sort yields the same entries (as a multiset) in nondecreasing timestamp order, with no promise about equal timestamps |
| `Timeseries.Identities` | modules/OPCFlattenerModule/OPCUAPublisherNodesFlattener.cs:132-145 | the dictionary's keys are exactly the identities of the readings, each listed once, in order of first occurrence: every identity listed before that of a reading already occurs among the readings before it |
| `Timeseries.CreateNodeTimeseries` | modules/OPCFlattenerModule/OPCUAPublisherNodesFlattener.cs:124-149 | fails with the first malformed reading's error, else builds a grouping with one list per identity in first-seen order, each sorted by time and holding exactly that identity's entries |
| `Timeseries.GroupStepKnown` | modules/OPCFlattenerModule/OPCUAPublisherNodesFlattener.cs:132-141 | appending to an existing key's list and re-sorting keeps the grouping exact and sorted after every insertion |
| `Timeseries.GroupStepNew` | modules/OPCFlattenerModule/OPCUAPublisherNodesFlattener.cs:142-145 | a key's list is created, with that one entry, on the key's first occurrence, and the key is appended to the key order |
| `Timeseries.GroupNonEmpty` | modules/OPCFlattenerModule/OPCUAPublisherNodesFlattener.cs:144 | no group is empty |
| `Timeseries.GroupsHoldTheirIdentity` | modules/OPCFlattenerModule/OPCUAPublisherNodesFlattener.cs:130-145 | a group holds only well-formed readings of its own identity, each with its own timestamp |
| `Timeseries.EachReadingInExactlyOneGroup` | modules/OPCFlattenerModule/OPCUAPublisherNodesFlattener.cs:128-145 | every reading is in its own identity's group and in no other group |
| `Timeseries.LastEntryIsLatest` | modules/OPCFlattenerModule/OPCUAPublisherNodesFlattener.cs:131-141 | a group's last entry is one of that identity's readings, and none of them has a later timestamp |
| `Timeseries.GroupSizesSumToReadings` | modules/OPCFlattenerModule/OPCUAPublisherNodesFlattener.cs:128-145 | the group sizes add up to the number of readings: none is lost or duplicated |
| `Batch.Candidate` | modules/OPCFlattenerModule/OPCUAPublisherNodesFlattener.cs:97-98 | the candidate key is ApplicationUri (or "" when DoUseApplicationUri is off), ";" and the display name; it always contains ";"; it fails only when the ApplicationUri it needs is missing |
| `Batch.Override` | modules/OPCFlattenerModule/OPCUAPublisherNodesFlattener.cs:102 | the override lookup succeeds exactly when a table is set and holds the node id, and then gives that node id's entry; a node id missing from the table fails with KeyNotFound, as the dictionary indexer throws |
| `Batch.ResolveName` | modules/OPCFlattenerModule/OPCUAPublisherNodesFlattener.cs:97-103 | an override registered for the node id wins whatever the candidate is; otherwise the key is the candidate; it fails only on a missing ApplicationUri or, with a table set, a missing NodeId |
| `Batch.ValueOf` | modules/OPCFlattenerModule/OPCUAPublisherNodesFlattener.cs:105 | the output value is the envelope's inner Value, a present inner value is returned unchanged and a missing one gives JSON null; it fails exactly when the Value envelope is missing |
| `Batch.AddGroup` | modules/OPCFlattenerModule/OPCUAPublisherNodesFlattener.cs:91-110 | an empty list changes nothing; otherwise a success appends exactly one property after the existing ones, named by the resolved name of the list's last reading and not already present, and moves latest to the larger of itself and that reading's timestamp; only a non-empty list can fail |
| `Batch.Accumulate` | modules/OPCFlattenerModule/OPCUAPublisherNodesFlattener.cs:89-111 | a successful loop keeps the template as the prefix of the result, adds at most one property per key, and ends with latest at least each non-empty list's last timestamp |
| `Batch.FlattenGroups` | modules/OPCFlattenerModule/OPCUAPublisherNodesFlattener.cs:84-114 | a success keeps the template as the prefix, adds at most one property per identity plus TimeCreated when enabled, and then ends with the TimeCreated property |
| `Batch.LatestOf` | modules/OPCFlattenerModule/OPCUAPublisherNodesFlattener.cs:87-109 | the latest of the groups' last timestamps is at least each of them and is one of them, or DateTime.MinValue |
| `Batch.MaxTimestamp` | modules/OPCFlattenerModule/OPCUAPublisherNodesFlattener.cs:87-109 | the reference maximum over all readings: at least every timestamp and equal to one of them, or DateTime.MinValue when there are none |
| `Batch.AccumulateYieldsPairs` | modules/OPCFlattenerModule/OPCUAPublisherNodesFlattener.cs:89-111 | the loop appends exactly one property per group, in key order, to the template, and ends with the latest timestamp; it fails, with a duplicate-name error, exactly when a name repeats |
| `Batch.LatestIsMaxTimestamp` | modules/OPCFlattenerModule/OPCUAPublisherNodesFlattener.cs:107-109 | the maximum of the groups' last timestamps equals the maximum timestamp of all readings |
| `Batch.StandardFlattening` | modules/OPCFlattenerModule/OPCUAPublisherNodesFlattener.cs:82-114 | the output is the template, then each identity's latest value under its resolved name in first-seen order, then TimeCreated with the maximum timestamp when enabled; it fails, with a duplicate-name error, exactly when a name repeats |
| `Batch.OutputShape` | modules/OPCFlattenerModule/OPCUAPublisherNodesFlattener.cs:86-114 | whichever equal-timestamp reading a group ends with, the batch output only fails on a repeated name, and a success starts with the template unchanged, then has exactly one property per identity, then ends with TimeCreated holding the latest timestamp when enabled, with all names distinct |
| `Batch.AccumulateFailureStops` | modules/OPCFlattenerModule/OPCUAPublisherNodesFlattener.cs:89-111 | once a group has thrown, the remaining groups change nothing |
| `Flattener.RouteOf` | modules/OPCFlattenerModule/OPCUAPublisherNodesFlattener.cs:63-80 | no output exactly for null, a length of at most 2 UTF-16 code units, or a first character other than '[' and '{'; an array for '['; a single reading for '{' |
| `Flattener.Utf16Length` | modules/OPCFlattenerModule/OPCUAPublisherNodesFlattener.cs:67 | the length C# `string.Length` gives: between the number of characters and twice that |
| `Flattener.SurrogatePairCountsTwice` | modules/OPCFlattenerModule/OPCUAPublisherNodesFlattener.cs:67-70 | "[" followed by one character outside the Basic Multilingual Plane is two characters but three code units long, so it goes to the array route |
| `Flattener.AddLatestValues` | modules/OPCFlattenerModule/OPCUAPublisherNodesFlattener.cs:87-111 | the in-place loop leaves in the result object exactly the properties of the functional loop, returns its latest timestamp, and fails with its error |
| `Flattener.NodesFlattener.constructor` | modules/OPCFlattenerModule/OPCUAPublisherNodesFlattener.cs:16-35 | a new flattener is valid, uses ApplicationUri, adds "TimeCreated", and has no template and no override table |
| `Flattener.NodesFlattener.DoFlatten` | modules/OPCFlattenerModule/OPCUAPublisherNodesFlattener.cs:63-80 | on a valid flattener (template, if any, with distinct names): "{}" for the no-output route; otherwise the parse error, or the batch flattening (with its shape guarantee) of the parsed array, or of the one-element array holding the parsed object |
| `Flattener.NodesFlattener.DoStandardFlattening` | modules/OPCFlattenerModule/OPCUAPublisherNodesFlattener.cs:82-122 | on a valid flattener, the result is the flattening of a valid grouping of the readings, or the first reading error; whatever the grouping, the output has the shape OutputShape states (template, one property per identity, TimeCreated last); no existing object, the shared template included, is modified |
| `Flattener.NodesFlattener.DoFlattenAsync` | modules/OPCFlattenerModule/OPCUAPublisherNodesFlattener.cs:169-201 | the cursor loop writes exactly the properties of the stream specification, or fails as it does; it reads no template, override table or time setting |
| `Flattener.NodesFlattener.UseMappingConfiguration` | modules/OPCFlattenerModule/OPCUAPublisherNodesFlattener.cs:156-166 | DisplayNames is replaced by a new table and then holds what the element-by-element construction gives, together with its error; a valid flattener stays valid |
| `Streaming.Seek` | modules/OPCFlattenerModule/OPCUAPublisherNodesFlattener.cs:203-212 | the scan never moves the cursor backwards, and moves it strictly forward unless the reader is already exhausted |
| `Streaming.SeekIsFirstMatch` | modules/OPCFlattenerModule/OPCUAPublisherNodesFlattener.cs:203-212 | the scan stops at the first later token whose value is the name; it reports false exactly when the stream is exhausted with no match on the way |
| `Streaming.ReadTillNextProp` | modules/OPCFlattenerModule/OPCUAPublisherNodesFlattener.cs:203-212 | the reader loop finds the token and leaves the cursor exactly where the scan specification says |
| `Streaming.Iterate` | modules/OPCFlattenerModule/OPCUAPublisherNodesFlattener.cs:179-194 | one pass of the outer loop ends exactly when the reader is exhausted, and otherwise moves the cursor strictly forward |
| `Streaming.StreamFrom` | modules/OPCFlattenerModule/OPCUAPublisherNodesFlattener.cs:179-194 | the outer loop from a cursor position writes no more properties than there are tokens from the cursor on (plus one), writes nothing once the cursor is at the end, and can fail only with the NullReferenceException of reading a key that has no value |
| `Streaming.FlattenAsyncOfArray` | modules/OPCFlattenerModule/OPCUAPublisherNodesFlattener.cs:169-201 | on an array of readings in the publisher's layout (ApplicationUri, NodeId, DisplayName, then Value holding Value and SourceTimestamp; a scalar or null payload; no ApplicationUri, NodeId or SourceTimestamp equal to "DisplayName"), the streaming path writes one (DisplayName, Value.Value) pair per reading, in encounter order, with no grouping, template, override or time stamp |
| `Streaming.StreamKeepsDuplicates` | modules/OPCFlattenerModule/OPCUAPublisherNodesFlattener.cs:188-192 | two readings with the same display name both appear in the output, in stream order |
| `Streaming.DisplayNameAtEndFails` | modules/OPCFlattenerModule/OPCUAPublisherNodesFlattener.cs:185-186 | a "DisplayName" with no token after it makes reading the key throw |
| `Streaming.ValueFirstWritesNothing` | modules/OPCFlattenerModule/OPCUAPublisherNodesFlattener.cs:179-212 | the forward-only scan makes the output depend on property order: a lone reading whose DisplayName follows its Value object writes nothing |
| `Streaming.ValueFirstTakesNextValue` | modules/OPCFlattenerModule/OPCUAPublisherNodesFlattener.cs:179-212 | such a reading followed by one in the usual order gives a single property: the first reading's display name with the second reading's value |
| `Mapping.AddMapping` | modules/OPCFlattenerModule/OPCUAPublisherNodesFlattener.cs:164-165 | one element adds its node id with its display name, and fails on a missing part or on a node id already in the table |
| `Mapping.BuildMapping` | modules/OPCFlattenerModule/OPCUAPublisherNodesFlattener.cs:158-166 | the loop from an empty table adds one entry per element while it succeeds, so a complete run has exactly one entry per element; it can fail only on a non-empty array |
| `Mapping.MappingOutcome` | modules/OPCFlattenerModule/OPCUAPublisherNodesFlattener.cs:162-166 | construction succeeds exactly when every element is well formed and no node id repeats; the table then maps exactly those node ids to their display names |
| `Mapping.TableStep` | modules/OPCFlattenerModule/OPCUAPublisherNodesFlattener.cs:164-165 | an element with a new node id extends an exact table of the earlier elements to an exact table of all of them |
| `Mapping.FailureStops` | modules/OPCFlattenerModule/OPCUAPublisherNodesFlattener.cs:162-166 | after the first failing element, later elements change nothing |
| `Mapping.FailureKeepsPrefix` | modules/OPCFlattenerModule/OPCUAPublisherNodesFlattener.cs:158-166 | a failing construction leaves behind the table built by the elements before the failing one |
| `Scenarios.SingleReadingFlattening` | modules/OPCFlattenerModule/OPCUAPublisherNodesFlattener.cs:82-114 | with default settings one reading gives `ApplicationUri;DisplayName` with its value, then TimeCreated with its SourceTimestamp |
| `Scenarios.OneGroupFlattening` | modules/OPCFlattenerModule/OPCUAPublisherNodesFlattener.cs:84-114 | with default settings and no template, a single group is flattened to its latest entry's value under ApplicationUri;DisplayName, then TimeCreated with that entry's timestamp |
| `Scenarios.LaterReadingWins` | modules/OPCFlattenerModule/OPCUAPublisherNodesFlattener.cs:82-141 | of two readings of one node with different timestamps, in either arrival order, the later one's value and name make the output and its timestamp is TimeCreated: the re-sort, not arrival order, decides |
| `Scenarios.TwoEntries` | modules/OPCFlattenerModule/OPCUAPublisherNodesFlattener.cs:128-131 | two well-formed readings of one node are read as two entries with that identity, in order, each with its own timestamp |
| `Scenarios.LatestOfTwo` | modules/OPCFlattenerModule/OPCUAPublisherNodesFlattener.cs:132-141 | two entries of one identity with different timestamps, in either order, give one group whose last entry is the later one |

## Left out

- `DoFlattenMessage`: the IoT Edge `Message` byte and UTF-8 conversion and the property copy are transport. The `Interlocked.Increment` counter is diagnostics only.
- `DoFlattenFromFile`, `UseOutputTemplateFromFile` and the file read of `UseMappingConfigurationFromFile`: file I/O. The mapping loop takes the already-parsed `NodesMapping` elements. A document without a `NodesMapping` array is part of that parsing and is not modelled.
- Console logging under `Verbose`: it does not affect the output.
- Program.cs (module client, configuration, message pipe) is not part of this model.
- JSON parsing and serialisation are foreign library calls.
  - `JArray.Parse` and `JObject.Parse` are parameters of `DoFlatten` that return readings or an error.
  - The output is the property list of the result object rather than its text.
  - A reading's properties are kept as the text their `ToString()` gives, and `None` stands for a missing property. A JSON `null` property reads as the empty text.
  - The configurable `NodeIdPropertyname` and `DisplayNamePropertyname` are applied when a reading is built, so they are not settings of the model.
- ISO-8601 `DateTime` parsing: timestamps are ticks (`nat`), and `DateTime.MinValue` is 0. A value that is not a date is the `InvalidTimestamp` error.
- `DoFlattenAsync`: the async/await machinery is modelled as a synchronous loop. The JSON tokenizer is an abstract token sequence, so its errors on malformed text are not modelled. The writer's output text is the list of properties written inside the wrapping object.
- `Timeseries.SortByTime`: `List.Sort` is unstable, so no order among equal timestamps is promised. The model's insertion sort is one admissible outcome.
- The `== null` tests of the sort comparison are left out: `DateTime` is a value type, so they can never be true.
- `Batch.ResolveName`: the "empty candidate" disjunct is modelled as written. It can never select the override, because the candidate always holds ";".
- An indexer applied to a JSON value that is not an object (for example a scalar `Value`) throws in the library. It is not modelled separately from a missing property.
- The enumeration order of `Dictionary`: the model takes it to be insertion order, which is what .NET does while no key is removed. .NET does not document this, so an implementation that enumerates in another order would list the identities' properties in that order instead.
