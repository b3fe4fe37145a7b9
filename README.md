# AI Travel Planner: itinerary pipeline and planner form, in Dafny

This project models the two pieces of sequential logic in the travel-planner
web client and proves properties of them.

- **The itinerary pipeline** (`generateItinerary`, module `Gemini`). It builds
  the prompt from the trip parameters. It then takes the reply of the
  completion API and cuts out the JSON span: it looks for the first `{` and the
  last `}`, which is what the greedy regular expression `\{[\s\S]*\}` matches.
  It parses that span and accepts the value only if its `days` field is an
  array. The accepted value is returned unchanged. Every failure becomes the
  single message "Failed to generate itinerary. Please try again.".
  The completion API is a parameter `complete: string -> Option<string>`
  (None means the call threw). `JSON.parse` is a parameter
  `parse: string -> Option<Json>`. JSON values are the datatype `Json.Json`.
  JavaScript's reading of `v.days` and its truthiness are written out in
  module `Json`.
- **The planner form** (`TripPlanner`, module `TripPlanner`). The form
  updates are pure functions: one input field changes, or one interest tag is
  toggled. The component's state is the class `TripPlanner.Planner`, with
  `step`, `loading`, `error`, `formData`, `itinerary`, and `saved`, the rows
  inserted into the trips table. Each handler is one sequential transition.
  The generator is `Gemini.GenerateItinerary` with its two oracles. The
  signed-in user is a parameter `user: Option<string>`.

Files: `wrappers.dfy` (Option, Result), `json.dfy` (JSON values),
`gemini.dfy` (src/lib/gemini.ts), `trip_planner.dfy`
(src/components/TripPlanner.tsx).

Facts about the code that shape the model:

- The interests are an ordered list. Toggling appends an absent tag at the
  end and filters out a present one.
- The generator throws two messages of its own: "No valid JSON found in
  response" and "Invalid itinerary format" (`Gemini.CauseMessage`).
  `JSON.parse` throws its own error, and so does a read of `days` on a
  parsed `null`. All of these reach the caller as the same fixed message
  (`Gemini.Cause`, `Gemini.CauseMessagesReplaced`).
- The `null` case is a dead path in the code: the candidate text always
  starts with `{`, so `JSON.parse` either yields an object or throws. The
  model keeps the case because `parse` is an unconstrained parameter;
  `Gemini.NoReadOfNull` shows it cannot occur once the parser behaves so.
- A non-empty destination is not enforced anywhere.

## Model

| member | source | states |
|---|---|---|
| `Gemini.Join` | src/lib/gemini.ts:16 | JavaScript's `join`: no elements give the empty text, otherwise the text starts with the first element; `JoinAppend` and `JoinContainsEach` state the separator placement and containment |
| `Gemini.BuildPrompt` | src/lib/gemini.ts:14-44 | the template assembled piece by piece with the fixed schema request; `PromptEmbedsTrip` states its properties |
| `Gemini.JoinContainsEach` | src/lib/gemini.ts:16 | every interest occurs verbatim in `interests.join(', ')` |
| `Gemini.JoinAppend` | src/lib/gemini.ts:16 | the join puts exactly one separator between neighbours: joining `xs + [x]` is joining `xs`, then the separator, then `x` |
| `Gemini.ConcatAppend` | src/lib/gemini.ts:14-44 | the template text of a list of pieces is the text of the first pieces followed by the text of the rest |
| `Gemini.ConcatContainsRun` | src/lib/gemini.ts:14-44 | any run of consecutive template pieces occurs verbatim in the prompt text |
| `Gemini.PromptEmbedsFields` | src/lib/gemini.ts:14-15 | the prompt contains destination, start date, end date and budget verbatim, whatever schema text follows |
| `Gemini.PromptEmbedsInterests` | src/lib/gemini.ts:16-44 | the line is "Interests: " plus the interests joined by ", "; with no interests it is "Interests: \n"; the line and every interest occur in the prompt; the prompt ends with the schema text |
| `Gemini.PromptEmbedsTrip` | src/lib/gemini.ts:14-44 | the prompt actually sent contains every trip field and every interest verbatim and ends with the fixed JSON schema and the "ONLY the JSON object" instruction |
| `Gemini.FirstIndexOf` | src/lib/gemini.ts:52 | the result is an index holding the character with none before it, or None exactly when the character does not occur |
| `Gemini.LastIndexOf` | src/lib/gemini.ts:52 | the result is an index holding the character with none after it, or None exactly when the character does not occur |
| `Gemini.SpanBounds` | src/lib/gemini.ts:52-55 | returns the first `{` and the last `}` with the `{` strictly first, and returns None exactly when no `{` precedes a `}` |
| `Gemini.ExtractSpan` | src/lib/gemini.ts:52-57 | extraction succeeds iff some `{` stands before some `}`; the result starts with `{` and ends with `}` |
| `Gemini.OutermostSpanUnique` | src/lib/gemini.ts:52-57 | any indices of a first `{` and a last `}` with the `{` first are exactly the ones reported, and the result is the inclusive substring between them |
| `Gemini.SpanBoundsIsRegexMatch` | src/lib/gemini.ts:52-53 | the first-`{`/last-`}` rule is exactly the leftmost, greedy match of `\{[\s\S]*\}`, and it fails exactly when the regex matches nowhere |
| `Gemini.ExtractSpanIdentity` | src/lib/gemini.ts:52 | a text that starts with `{` and ends with `}` is extracted whole |
| `Gemini.ExtractSpanWrapped` | src/lib/gemini.ts:52 | prose before the text without `{` and prose after it without `}` do not change the extraction |
| `Gemini.WrappedSpan` | src/lib/gemini.ts:52-57 | wrapped in such prose, a text with an outermost span still yields exactly that span |
| `Gemini.WrappedNone` | src/lib/gemini.ts:52-55 | wrapped in such prose, a text without a span still yields nothing |
| `Gemini.WrappedOutermost` | src/lib/gemini.ts:52 | the outermost span of a text, shifted, is the outermost span of the text wrapped in such prose |
| `Json.ReadProperty` | src/lib/gemini.ts:61 | reading `days`: a TypeError exactly on `null`, a value exactly when the object has the key, and then that field's value |
| `Json.Truthy` | src/lib/gemini.ts:61 | the `!` test: arrays and objects are truthy even when empty, `null` is falsy, so an empty `days` array passes the guard |
| `Json.IsArray` | src/lib/gemini.ts:61 | the `Array.isArray` test; `Validate` states the guard it builds |
| `Gemini.CauseMessage` | src/lib/gemini.ts:54-62 | the message each failure is thrown with inside the generator: an own message exactly for no JSON found and for an invalid format; `CauseMessagesReplaced` states that none reaches the caller |
| `Gemini.Validate` | src/lib/gemini.ts:61-65 | a value is accepted iff it is an object whose `days` is an array (so an empty array is accepted); the accepted value is returned unchanged; `null` fails by its TypeError, anything else by "Invalid itinerary format" |
| `Gemini.ProcessReply` | src/lib/gemini.ts:52-65 | fails with NoJsonFound iff there is no span; fails with MalformedJson iff the span does not parse; succeeds iff the parsed span has the accepted shape, returning exactly the parsed value |
| `Gemini.Pipeline` | src/lib/gemini.ts:46-65 | fails with TransportFailed iff the completion call fails; otherwise it is the processing of the reply text |
| `Gemini.GenerateItinerary` | src/lib/gemini.ts:46-69 | every failure carries the one message "Failed to generate itinerary. Please try again."; it succeeds exactly when the pipeline does, with the same value |
| `Gemini.ReextractWrapped` | src/lib/gemini.ts:52-65 | re-extracting an accepted span wrapped in brace-free prose yields the same itinerary |
| `Gemini.ReextractStringified` | src/lib/gemini.ts:52-65 | an accepted itinerary, serialised again and wrapped in prose without `{` before and `}` after, is accepted again as the same value, given that parsing inverts serialising for that value and writes it as one `{` ... `}` block |
| `Gemini.StrayBraceChangesSpan` | src/lib/gemini.ts:52 | an extra `{` before the JSON, or an extra `}` after it, changes the extracted span, so re-extraction is promised only for prose without them |
| `Gemini.NoReadOfNull` | src/lib/gemini.ts:52-61 | when a text starting with `{` parses only to an object, processing never fails by reading `days` of `null` |
| `Gemini.CauseMessagesReplaced` | src/lib/gemini.ts:53-69 | exactly the no-JSON and invalid-format failures carry a message of the generator's own, neither is the fixed message, and every failure reaches the caller as the fixed message |
| `Gemini.PlainRefusalFails` | src/lib/gemini.ts:52-69 | the reply "I cannot help with that" fails with NoJsonFound and reaches the caller as the fixed message |
| `Gemini.PureJsonReplyAccepted` | src/lib/gemini.ts:47-65 | a reply that is pure JSON of the accepted shape makes the generator return exactly the parsed value |
| `Gemini.EmptyDaysInProseAccepted` | src/lib/gemini.ts:52-65 | `prefix {"days": []} suffix` is accepted with its empty `days` |
| `Gemini.DaysNotArrayRejected` | src/lib/gemini.ts:61-63 | `{"days": "not-an-array"}` is rejected with InvalidFormat |
| `TripPlanner.InputChange` | src/components/TripPlanner.tsx:19-24 | the named field takes the new value; every other field and the interests are unchanged |
| `TripPlanner.RemoveAll` | src/components/TripPlanner.tsx:30 | the removed tag is absent afterwards and every other tag keeps its membership |
| `TripPlanner.ToggleInterest` | src/components/TripPlanner.tsx:29-31 | after a toggle the tag is present iff it was absent before; every other tag keeps its membership |
| `TripPlanner.InterestChange` | src/components/TripPlanner.tsx:26-33 | the interests are toggled and destination, dates and budget are unchanged |
| `TripPlanner.RemoveAllKeepsOrder` | src/components/TripPlanner.tsx:30 | the filtered list is a subsequence of the original (relative order kept) |
| `TripPlanner.RemoveAllCounts` | src/components/TripPlanner.tsx:30 | the filtered list has every other tag exactly as often as before and the removed tag not at all |
| `TripPlanner.RemoveAllAbsent` | src/components/TripPlanner.tsx:30 | filtering out an absent tag returns the list unchanged |
| `TripPlanner.RemoveAllAppend` | src/components/TripPlanner.tsx:30 | filtering distributes over concatenation |
| `TripPlanner.RemoveAllNoDuplicates` | src/components/TripPlanner.tsx:30 | filtering keeps a duplicate-free list duplicate-free |
| `TripPlanner.ToggleKeepsOrder` | src/components/TripPlanner.tsx:29-31 | an absent tag is appended at the end; removing a present tag keeps the rest in order with their counts |
| `TripPlanner.ToggleKeepsNoDuplicates` | src/components/TripPlanner.tsx:29-31 | a duplicate-free interest list stays duplicate-free after a toggle |
| `TripPlanner.ToggleTwiceAbsent` | src/components/TripPlanner.tsx:29-31 | toggling an absent tag twice returns the original list exactly |
| `TripPlanner.RowsToSave` | src/components/TripPlanner.tsx:44-56 | one row exactly when a user is signed in, holding the user id, destination, dates, budget, interests and the result verbatim |
| `TripPlanner.Planner.constructor` | src/components/TripPlanner.tsx:7-17 | starts on step 1, not loading, no error, no itinerary, the empty form with budget "Mid-Range" |
| `TripPlanner.Planner.HandleInputChange` | src/components/TripPlanner.tsx:19-24 | the form becomes the single-field update of the old form |
| `TripPlanner.Planner.HandleInterestChange` | src/components/TripPlanner.tsx:156-161 | the form becomes the toggled old form; the interests stay distinct tags from the offered list |
| `TripPlanner.Planner.Next` | src/components/TripPlanner.tsx:124 | "Next: Preferences" moves to step 2 |
| `TripPlanner.Planner.Back` | src/components/TripPlanner.tsx:173 | "Back" moves to step 1 |
| `TripPlanner.Planner.StartGeneration` | src/components/TripPlanner.tsx:36-37 | on entry loading becomes true and the error is cleared |
| `TripPlanner.Planner.HandleGenerateItinerary` | src/components/TripPlanner.tsx:35-64 | ends with loading false; on success the error is cleared, the itinerary is the result and a row is added only for a signed-in user; on failure the error is the fixed message and the itinerary and saved rows are unchanged |
| `TripPlanner.Planner.Generate` | src/components/TripPlanner.tsx:179-182 | "Generate Itinerary" moves to step 3 and runs a generation with the outcome above |
| `TripPlanner.Planner.PlanAnotherTrip` | src/components/TripPlanner.tsx:226-235 | "Plan Another Trip" moves to step 1, clears the itinerary and restores the initial form |

## Left out

- The completion client, the model name `gemini-pro` and the API key (src/lib/gemini.ts:1-3, 12, 47-49) are network and configuration; they are the oracle `complete`.
- The grammar of `JSON.parse` (src/lib/gemini.ts:58) is a library; it is the oracle `parse`. Numbers are reals, and an object is a map, so key order is not kept.
- `console.error` logging (src/lib/gemini.ts:67, src/components/TripPlanner.tsx:60) is output only. `Gemini.Cause` keeps the logged cause.
- Supabase auth and insert (src/components/TripPlanner.tsx:44-56) are remote I/O. The model keeps the signed-in user as a parameter and records an attempted insert as a row in `saved`. A `getUser` or insert call that throws is not modelled; in the source that would set `error` after the itinerary is stored.
- The fallback message `'Failed to generate itinerary'` (src/components/TripPlanner.tsx:59) is not modelled: the generator only throws `Error` values, so the message is always the generator's.
- `TripPlanner.InputChange`: an input `name` is one of the four the form renders (destination, startDate, endDate, budget); an arbitrary DOM `name` adding a new key is not modelled.
- Async ordering and React re-rendering: each handler is one transition, and the intermediate "loading" state appears only as the state after `StartGeneration`.
- Rendering, including which button is visible on which step, is not modelled. The step handlers are unconditional, as in the source.
- Header, FAQ, Hero and Testimonials are markup and UI toggles with nothing to verify.
- JavaScript strings are UTF-16 code units, modelled as Dafny characters; the braces the extraction looks for are ASCII, so this does not matter here.
