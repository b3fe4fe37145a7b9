/**
 * The itinerary request/response pipeline of `generateItinerary`:
 * the prompt template, the extraction of the JSON span from the model's
 * free-text reply, the check that the parsed value has a `days` array, and
 * the collapse of every failure into one fixed message.
 *
 * The completion API and `JSON.parse` are parameters: `complete` maps a
 * prompt to the reply text, or None when the call fails; `parse` maps a text
 * to its JSON value, or None when the text is not valid JSON.
 */
module Gemini {
  import opened Wrappers
  import opened Json

  /** The trip parameters handed to the generator (the planner's form data). */
  datatype TripData = TripData(
    destination: string,
    startDate: string,
    endDate: string,
    budget: string,
    interests: seq<string>)

  // ---------------------------------------------------------------------------
  // Prompt templating
  // ---------------------------------------------------------------------------

  /** `s` occurs in `text` starting at index `k`. */
  ghost predicate OccursAt(text: string, s: string, k: int)
  {
    0 <= k <= |text| && s <= text[k..]
  }

  /** `s` occurs in `text` as a contiguous piece. */
  ghost predicate Contains(text: string, s: string)
  {
    exists k :: OccursAt(text, s, k)
  }

  /** JavaScript's array join: the elements with `sep` between neighbours. */
  function Join(xs: seq<string>, sep: string): (r: string)
    ensures |xs| == 0 ==> r == ""
    ensures |xs| > 0 ==> xs[0] <= r
  {
    if |xs| == 0 then ""
    else if |xs| == 1 then xs[0]
    else xs[0] + sep + Join(xs[1..], sep)
  }

  /** The requested JSON schema and the closing instruction, verbatim. */
  const SchemaRequest: string :=
    "Please provide a structured itinerary in the following JSON format:\n"
    + "{\n"
    + "  \"summary\": \"Brief overview of the trip\",\n"
    + "  \"days\": [\n"
    + "    {\n"
    + "      \"date\": \"YYYY-MM-DD\",\n"
    + "      \"activities\": [\n"
    + "        {\n"
    + "          \"time\": \"HH:MM\",\n"
    + "          \"description\": \"Activity description\",\n"
    + "          \"location\": \"Place name\",\n"
    + "          \"cost\": \"Estimated cost\",\n"
    + "          \"type\": \"Activity type (e.g., Sightseeing, Food, etc.)\"\n"
    + "        }\n"
    + "      ]\n"
    + "    }\n"
    + "  ],\n"
    + "  \"totalCost\": \"Estimated total cost\",\n"
    + "  \"tips\": [\"Array of useful tips\"],\n"
    + "  \"recommendations\": {\n"
    + "    \"restaurants\": [\"List of recommended restaurants\"],\n"
    + "    \"attractions\": [\"Must-visit attractions\"],\n"
    + "    \"transportation\": [\"Transportation tips\"]\n"
    + "  }\n"
    + "}\n"
    + "\n"
    + "Ensure the response is ONLY the JSON object, with no additional text or formatting."

  /** The pieces of the prompt template in order: literal text alternating
      with the interpolated trip fields, ending with the schema request. */
  function PromptParts(t: TripData, schema: string): seq<string>
  {
    [ "Create a travel itinerary for ", t.destination,
      " from ", t.startDate, " to ", t.endDate, ".\n",
      "Budget level: ", t.budget, "\n",
      "Interests: ", Join(t.interests, ", "), "\n",
      "\n", schema ]
  }

  /** The concatenation of a list of strings. */
  function Concat(parts: seq<string>): string
  {
    if |parts| == 0 then "" else parts[0] + Concat(parts[1..])
  }

  /** The prompt template, with the fixed schema request as a parameter. */
  function PromptWith(t: TripData, schema: string): string
  {
    Concat(PromptParts(t, schema))
  }

  /** The prompt sent to the completion API. */
  function BuildPrompt(t: TripData): string
  {
    PromptWith(t, SchemaRequest)
  }

  /** The line of the prompt that lists the interests. */
  function InterestsLine(interests: seq<string>): string
  {
    "Interests: " + Join(interests, ", ") + "\n"
  }

  /** A text contains whatever stands in its middle. */
  lemma ContainsMiddle(a: string, b: string, c: string)
    ensures Contains(a + b + c, b)
  {
    assert (a + b + c)[|a|..] == b + c;
    assert OccursAt(a + b + c, b, |a|);
  }

  /** A piece of a piece of a text is a piece of the text. */
  lemma ContainsTrans(text: string, b: string, s: string)
    requires Contains(text, b) && Contains(b, s)
    ensures Contains(text, s)
  {
    var k :| OccursAt(text, b, k);
    var m :| OccursAt(b, s, m);
    assert text[k..][..|b|] == b;
    assert text[k + m..][..|s|] == b[m..][..|s|];
    assert OccursAt(text, s, k + m);
  }

  /** Concatenation distributes over appending lists. */
  lemma {:induction false} ConcatAppend(a: seq<string>, b: seq<string>)
    ensures Concat(a + b) == Concat(a) + Concat(b)
  {
    if |a| > 0 {
      assert (a + b)[1..] == a[1..] + b;
      ConcatAppend(a[1..], b);
    } else {
      assert a + b == b;
    }
  }

  /** Cutting the list of parts in three cuts the concatenation in three. */
  lemma ConcatSplit(parts: seq<string>, i: nat, j: nat)
    requires i <= j <= |parts|
    ensures Concat(parts) == Concat(parts[..i]) + Concat(parts[i..j]) + Concat(parts[j..])
  {
    var a, b, c := parts[..i], parts[i..j], parts[j..];
    assert parts[..j] == a + b by { assert parts[..j][..i] == a && parts[..j][i..] == b; }
    assert parts == parts[..j] + c;
    assert Concat(a + b + c) == Concat(a + b) + Concat(c) by { ConcatAppend(a + b, c); }
    assert Concat(a + b) == Concat(a) + Concat(b) by { ConcatAppend(a, b); }
  }

  /** Any run of consecutive parts occurs in the concatenation. */
  lemma ConcatContainsRun(parts: seq<string>, i: nat, j: nat)
    requires i <= j <= |parts|
    ensures Contains(Concat(parts), Concat(parts[i..j]))
  {
    ConcatSplit(parts, i, j);
    ContainsMiddle(Concat(parts[..i]), Concat(parts[i..j]), Concat(parts[j..]));
  }

  /** Every single part occurs in the concatenation. */
  lemma ConcatContainsPart(parts: seq<string>, i: nat)
    requires i < |parts|
    ensures Contains(Concat(parts), parts[i])
  {
    var run := parts[i..i + 1];
    ConcatContainsRun(parts, i, i + 1);
    assert Concat(run) == parts[i] by {
      assert run[0] == parts[i] && run[1..] == [];
      assert parts[i] + "" == parts[i];
    }
  }

  /** Every element of a list occurs verbatim in its join. */
  lemma {:induction false} JoinContainsEach(xs: seq<string>, sep: string, k: nat)
    requires k < |xs|
    ensures Contains(Join(xs, sep), xs[k])
  {
    if |xs| == 1 {
      ContainsMiddle("", xs[0], "");
      assert "" + xs[0] + "" == Join(xs, sep);
    } else if k == 0 {
      ContainsMiddle("", xs[0], sep + Join(xs[1..], sep));
      assert "" + xs[0] + (sep + Join(xs[1..], sep)) == Join(xs, sep);
    } else {
      JoinContainsEach(xs[1..], sep, k - 1);
      ContainsMiddle(xs[0] + sep, Join(xs[1..], sep), "");
      assert xs[0] + sep + Join(xs[1..], sep) + "" == Join(xs, sep);
      ContainsTrans(Join(xs, sep), Join(xs[1..], sep), xs[k]);
    }
  }

  /** Joining puts exactly one separator between each pair of neighbours. */
  lemma {:induction false} JoinAppend(xs: seq<string>, x: string, sep: string)
    requires |xs| > 0
    ensures Join(xs + [x], sep) == Join(xs, sep) + sep + x
  {
    if |xs| == 1 {
      assert (xs + [x])[1..] == [x];
    } else {
      assert (xs + [x])[1..] == xs[1..] + [x];
      JoinAppend(xs[1..], x, sep);
    }
  }

  /** The prompt embeds destination, both dates and the budget verbatim. */
  lemma PromptEmbedsFields(t: TripData, schema: string)
    ensures Contains(PromptWith(t, schema), t.destination)
    ensures Contains(PromptWith(t, schema), t.startDate)
    ensures Contains(PromptWith(t, schema), t.endDate)
    ensures Contains(PromptWith(t, schema), t.budget)
  {
    var parts := PromptParts(t, schema);
    ConcatContainsPart(parts, 1);
    ConcatContainsPart(parts, 3);
    ConcatContainsPart(parts, 5);
    ConcatContainsPart(parts, 8);
  }

  /** The interests line is "Interests: " followed by the interests joined
      by ", " (nothing at all when there are none); it and every interest
      occur verbatim in the prompt, which ends with the schema and the
      JSON-only instruction. */
  lemma PromptEmbedsInterests(t: TripData, schema: string)
    ensures t.interests == [] ==> InterestsLine(t.interests) == "Interests: \n"
    ensures Contains(PromptWith(t, schema), InterestsLine(t.interests))
    ensures forall k :: 0 <= k < |t.interests| ==> Contains(PromptWith(t, schema), t.interests[k])
    ensures |PromptWith(t, schema)| >= |schema|
    ensures PromptWith(t, schema)[|PromptWith(t, schema)| - |schema|..] == schema
  {
    var parts := PromptParts(t, schema);
    var p := Concat(parts);
    var joined := Join(t.interests, ", ");
    assert Contains(p, InterestsLine(t.interests)) by {
      var run := parts[10..13];
      ConcatContainsRun(parts, 10, 13);
      assert run == ["Interests: ", joined, "\n"];
      assert Concat(run[2..]) == "\n" by { assert run[2..][1..] == []; }
      assert Concat(run[1..]) == joined + "\n" by { assert run[1..][1..] == run[2..]; }
      assert Concat(run) == InterestsLine(t.interests);
    }
    forall k | 0 <= k < |t.interests|
      ensures Contains(p, t.interests[k])
    {
      ConcatContainsPart(parts, 11);
      JoinContainsEach(t.interests, ", ", k);
      ContainsTrans(p, joined, t.interests[k]);
    }
    assert p == Concat(parts[..14]) + schema by {
      assert parts == parts[..14] + [schema];
      ConcatAppend(parts[..14], [schema]);
    }
  }

  /** The prompt actually sent: every trip field and every interest occurs
      in it verbatim, and it ends with the fixed schema request. */
  lemma PromptEmbedsTrip(t: TripData)
    ensures Contains(BuildPrompt(t), t.destination)
    ensures Contains(BuildPrompt(t), t.startDate) && Contains(BuildPrompt(t), t.endDate)
    ensures Contains(BuildPrompt(t), t.budget)
    ensures Contains(BuildPrompt(t), InterestsLine(t.interests))
    ensures forall k :: 0 <= k < |t.interests| ==> Contains(BuildPrompt(t), t.interests[k])
    ensures |BuildPrompt(t)| >= |SchemaRequest|
    ensures BuildPrompt(t)[|BuildPrompt(t)| - |SchemaRequest|..] == SchemaRequest
  {
    PromptEmbedsFields(t, SchemaRequest);
    PromptEmbedsInterests(t, SchemaRequest);
  }

  // ---------------------------------------------------------------------------
  // JSON span extraction: the greedy match of a `{` ... `}` block
  // ---------------------------------------------------------------------------

  /** The index of the first `c` in `s`, if any. */
  function FirstIndexOf(s: string, c: char): (r: Option<nat>)
    ensures r.Some? ==> r.value < |s| && s[r.value] == c
    ensures r.Some? ==> forall k :: 0 <= k < r.value ==> s[k] != c
    ensures r.None? ==> forall k :: 0 <= k < |s| ==> s[k] != c
  {
    if |s| == 0 then None
    else if s[0] == c then Some(0)
    else
      match FirstIndexOf(s[1..], c)
      case None => None
      case Some(k) => Some(k + 1)
  }

  /** The index of the last `c` in `s`, if any. */
  function LastIndexOf(s: string, c: char): (r: Option<nat>)
    ensures r.Some? ==> r.value < |s| && s[r.value] == c
    ensures r.Some? ==> forall k :: r.value < k < |s| ==> s[k] != c
    ensures r.None? ==> forall k :: 0 <= k < |s| ==> s[k] != c
  {
    if |s| == 0 then None
    else if s[|s| - 1] == c then Some(|s| - 1)
    else LastIndexOf(s[..|s| - 1], c)
  }

  /** The regular expression `\{[\s\S]*\}` matches `s[i..j+1]`. */
  ghost predicate MatchesAt(s: string, i: int, j: int)
  {
    0 <= i < j < |s| && s[i] == '{' && s[j] == '}'
  }

  /** Some `{` stands strictly before some `}`. */
  ghost predicate HasSpan(s: string)
  {
    exists i, j :: MatchesAt(s, i, j)
  }

  /** The match JavaScript reports: the leftmost start, and at that start the
      longest (greedy) match. */
  ghost predicate RegexMatch(s: string, i: int, j: int)
  {
    && MatchesAt(s, i, j)
    && (forall i', j' :: 0 <= i' < i ==> !MatchesAt(s, i', j'))
    && (forall j' :: j < j' ==> !MatchesAt(s, i, j'))
  }

  /** The span from the first `{` of `s` to the last `}` of `s`. */
  ghost predicate IsOutermostSpan(s: string, i: int, j: int)
  {
    && MatchesAt(s, i, j)
    && (forall k :: 0 <= k < i ==> s[k] != '{')
    && (forall k :: j < k < |s| ==> s[k] != '}')
  }

  /** Indices of the first `{` and the last `}`, when the first is before
      the last. */
  function SpanBounds(s: string): (r: Option<(nat, nat)>)
    ensures r.Some? ==> IsOutermostSpan(s, r.value.0, r.value.1)
    ensures r.None? <==> !HasSpan(s)
  {
    match (FirstIndexOf(s, '{'), LastIndexOf(s, '}'))
    case (Some(i), Some(j)) => if i < j then Some((i, j)) else None
    case _ => None
  }

  /** The JSON candidate: the text of the whole match, or None when the
      regular expression matches nowhere. */
  function ExtractSpan(s: string): (r: Option<string>)
    ensures r.Some? <==> HasSpan(s)
    ensures r.Some? ==> |r.value| >= 2 && r.value[0] == '{' && r.value[|r.value| - 1] == '}'
  {
    match SpanBounds(s)
    case None => None
    case Some((i, j)) => Some(s[i..j + 1])
  }

  /** The outermost span is unique: whatever indices satisfy it are the
      ones extraction reports. */
  lemma OutermostSpanUnique(s: string, i: int, j: int)
    requires IsOutermostSpan(s, i, j)
    ensures SpanBounds(s) == Some((i, j))
    ensures ExtractSpan(s) == Some(s[i..j + 1])
  {
    assert HasSpan(s);
  }

  /** The first-`{`/last-`}` rule is exactly the match the greedy regex
      reports, and the regex fails exactly when no `{` precedes a `}`. */
  lemma SpanBoundsIsRegexMatch(s: string, i: int, j: int)
    ensures SpanBounds(s) == Some((i, j)) <==> RegexMatch(s, i, j)
    ensures SpanBounds(s).None? <==> (forall i', j' :: !MatchesAt(s, i', j'))
  {
    if RegexMatch(s, i, j) {
      assert HasSpan(s);
      var (i0, j0) := SpanBounds(s).value;
      assert MatchesAt(s, i0, j0);
      assert MatchesAt(s, i, j0);
    }
  }

  /** Extraction is the identity on a text that already starts with `{` and
      ends with `}`. */
  lemma ExtractSpanIdentity(s: string)
    requires |s| > 0 && s[0] == '{' && s[|s| - 1] == '}'
    ensures ExtractSpan(s) == Some(s)
  {
    OutermostSpanUnique(s, 0, |s| - 1);
    assert s[0..|s|] == s;
  }

  /** Prose before the JSON with no `{`, and prose after it with no `}`, do
      not change what is extracted. */
  lemma ExtractSpanWrapped(p: string, s: string, q: string)
    requires '{' !in p && '}' !in q
    ensures ExtractSpan(p + s + q) == ExtractSpan(s)
  {
    if HasSpan(s) {
      var b := SpanBounds(s).value;
      WrappedSpan(p, s, q, b.0, b.1);
    } else {
      WrappedNone(p, s, q);
    }
  }

  /** Wrapped in such prose, the outermost span of `s` is still the one
      extracted. */
  lemma WrappedSpan(p: string, s: string, q: string, i: int, j: int)
    requires '{' !in p && '}' !in q
    requires IsOutermostSpan(s, i, j)
    ensures ExtractSpan(p + s + q) == ExtractSpan(s) == Some(s[i..j + 1])
  {
    OutermostSpanUnique(s, i, j);
    WrappedOutermost(p, s, q, i, j);
    WrappedSlice(p, s, q, i, j + 1);
    SpanOfOutermost(p + s + q, |p| + i, |p| + j, s[i..j + 1]);
  }

  /** The outermost span of a text, given by its bounds and its contents, is
      what is extracted. */
  lemma SpanOfOutermost(w: string, a: int, b: int, x: string)
    requires IsOutermostSpan(w, a, b) && w[a..b + 1] == x
    ensures ExtractSpan(w) == Some(x)
  {
    OutermostSpanUnique(w, a, b);
  }

  /** Such prose around a text without a span gives nothing to extract. */
  lemma WrappedNone(p: string, s: string, q: string)
    requires '{' !in p && '}' !in q
    requires !HasSpan(s)
    ensures ExtractSpan(p + s + q) == ExtractSpan(s) == None
  {
    WrappedNoSpan(p, s, q);
  }

  /** A slice of `s` is the shifted slice of `p + s + q`. */
  lemma WrappedSlice(p: string, s: string, q: string, a: int, b: int)
    requires 0 <= a <= b <= |s|
    ensures (p + s + q)[|p| + a..|p| + b] == s[a..b]
  {
    assert (p + s + q)[|p|..|p| + |s|] == s;
  }

  /** Such prose creates no span where the text has none. */
  lemma WrappedNoSpan(p: string, s: string, q: string)
    requires '{' !in p && '}' !in q
    requires !HasSpan(s)
    ensures !HasSpan(p + s + q)
  {
    forall i, j | MatchesAt(p + s + q, i, j)
      ensures MatchesAt(s, i - |p|, j - |p|)
    {
      WrappedAt(p, s, q, i);
      WrappedAt(p, s, q, j);
    }
  }

  /** What stands at index `k` of `p + s + q`. */
  lemma WrappedAt(p: string, s: string, q: string, k: int)
    requires '{' !in p && '}' !in q
    requires 0 <= k < |p + s + q|
    ensures k < |p| ==> (p + s + q)[k] != '{'
    ensures |p| <= k < |p| + |s| ==> (p + s + q)[k] == s[k - |p|]
    ensures |p| + |s| <= k ==> (p + s + q)[k] != '}'
  {
    if k < |p| { assert (p + s + q)[k] == p[k]; }
    if |p| + |s| <= k { assert (p + s + q)[k] == q[k - |p| - |s|]; }
  }

  /** The outermost span of `s` is the outermost span of `s` wrapped in
      prose of that kind. */
  lemma WrappedOutermost(p: string, s: string, q: string, i: int, j: int)
    requires '{' !in p && '}' !in q
    requires IsOutermostSpan(s, i, j)
    ensures IsOutermostSpan(p + s + q, |p| + i, |p| + j)
  {
    var w := p + s + q;
    forall k | 0 <= k < |p| + i ensures w[k] != '{' { WrappedAt(p, s, q, k); }
    forall k | |p| + j < k < |w| ensures w[k] != '}' { WrappedAt(p, s, q, k); }
    WrappedAt(p, s, q, |p| + i);
    WrappedAt(p, s, q, |p| + j);
  }

  // ---------------------------------------------------------------------------
  // Shape validation and the pipeline
  // ---------------------------------------------------------------------------

  /** Why a generation failed; the caller only ever sees FailureMessage. */
  datatype Cause =
    | TransportFailed   // the completion call threw
    | NoJsonFound       // the regex did not match
    | MalformedJson     // JSON.parse threw
    | ReadOfNull        // reading `days` of a parsed null threw a TypeError
    | InvalidFormat     // `days` missing, falsy or not an array

  /** The message of the error each failure throws inside the `try`; a
      transport or parse error carries the library's own message. */
  function CauseMessage(c: Cause): (r: Option<string>)
    ensures r.Some? <==> c == NoJsonFound || c == InvalidFormat
  {
    match c
    case NoJsonFound => Some("No valid JSON found in response")
    case InvalidFormat => Some("Invalid itinerary format")
    case _ => None
  }

  /** The one message every failure is rethrown with. */
  const FailureMessage: string := "Failed to generate itinerary. Please try again."

  /** The shape the guard accepts: an object whose `days` field is an array. */
  ghost predicate IsItineraryShape(v: Json)
  {
    v.JObject? && "days" in v.fields && v.fields["days"].JArray?
  }

  /** The shape guard: a value whose `days` is missing, falsy or not an
      array is rejected; any other value is passed through unchanged. */
  function Validate(v: Json): (r: Result<Json, Cause>)
    ensures r.Ok? <==> IsItineraryShape(v)
    ensures r.Ok? ==> r.value == v
    ensures r.Err? ==> r.error == (if v.JNull? then ReadOfNull else InvalidFormat)
  {
    match ReadProperty(v, "days")
    case ThrowsTypeError => Err(ReadOfNull)
    case Undefined => Err(InvalidFormat)
    case Defined(days) =>
      if !Truthy(days) || !IsArray(days) then Err(InvalidFormat) else Ok(v)
  }

  /** From the reply text to the parsed itinerary: extract the span, parse
      it, check its shape. */
  function ProcessReply(text: string, parse: string -> Option<Json>): (r: Result<Json, Cause>)
    ensures r == Err(NoJsonFound) <==> !HasSpan(text)
    ensures r == Err(MalformedJson) <==> HasSpan(text) && parse(ExtractSpan(text).value).None?
    ensures r.Ok? <==>
      HasSpan(text) && parse(ExtractSpan(text).value).Some?
      && IsItineraryShape(parse(ExtractSpan(text).value).value)
    ensures r.Ok? ==> Some(r.value) == parse(ExtractSpan(text).value)
  {
    match ExtractSpan(text)
    case None => Err(NoJsonFound)
    case Some(span) =>
      match parse(span)
      case None => Err(MalformedJson)
      case Some(v) => Validate(v)
  }

  /** One generation attempt, before the failures are collapsed: it keeps
      the specific cause of each failure. */
  function Pipeline(t: TripData, complete: string -> Option<string>, parse: string -> Option<Json>)
    : (r: Result<Json, Cause>)
    ensures r == Err(TransportFailed) <==> complete(BuildPrompt(t)).None?
    ensures complete(BuildPrompt(t)).Some? ==> r == ProcessReply(complete(BuildPrompt(t)).value, parse)
  {
    match complete(BuildPrompt(t))
    case None => Err(TransportFailed)
    case Some(text) => ProcessReply(text, parse)
  }

  /** The generator: the parsed value unchanged, or the fixed message. */
  function GenerateItinerary(t: TripData, complete: string -> Option<string>, parse: string -> Option<Json>)
    : (r: Result<Json, string>)
    ensures r.Err? ==> r.error == FailureMessage
    ensures r.Ok? <==> Pipeline(t, complete, parse).Ok?
    ensures r.Ok? ==> r.value == Pipeline(t, complete, parse).value
  {
    match Pipeline(t, complete, parse)
    case Ok(v) => Ok(v)
    case Err(_) => Err(FailureMessage)
  }

  /** Re-extracting the accepted span, wrapped in prose, gives the same
      itinerary back. */
  lemma ReextractWrapped(text: string, parse: string -> Option<Json>, p: string, q: string)
    requires ProcessReply(text, parse).Ok?
    requires '{' !in p && '}' !in q
    ensures ProcessReply(p + ExtractSpan(text).value + q, parse) == ProcessReply(text, parse)
  {
    var span := ExtractSpan(text).value;
    assert ExtractSpan(span) == Some(span) by { ExtractSpanIdentity(span); }
    assert ExtractSpan(p + span + q) == Some(span) by { ExtractSpanWrapped(p, span, q); }
  }

  /** The library's round trip for one value: parsing what `stringify`
      writes for `v` gives `v` back, and the text is one `{` ... `}` block. */
  ghost predicate StringifiesBack(stringify: Json -> string, parse: string -> Option<Json>, v: Json)
  {
    && parse(stringify(v)) == Some(v)
    && |stringify(v)| >= 2 && stringify(v)[0] == '{' && stringify(v)[|stringify(v)| - 1] == '}'
  }

  /** Extraction is idempotent up to serialisation: an accepted itinerary,
      written back out as JSON and wrapped in prose without `{` before it
      and without `}` after it, is accepted again as the same value. */
  lemma ReextractStringified(text: string, parse: string -> Option<Json>, stringify: Json -> string,
                             p: string, q: string)
    requires ProcessReply(text, parse).Ok?
    requires StringifiesBack(stringify, parse, ProcessReply(text, parse).value)
    requires '{' !in p && '}' !in q
    ensures ProcessReply(p + stringify(ProcessReply(text, parse).value) + q, parse) == ProcessReply(text, parse)
  {
    var s := stringify(ProcessReply(text, parse).value);
    assert ExtractSpan(s) == Some(s) by { ExtractSpanIdentity(s); }
    assert ExtractSpan(p + s + q) == Some(s) by { ExtractSpanWrapped(p, s, q); }
  }

  /** Why the prose must be brace-free on the outside: one extra `{` before
      the JSON, or one extra `}` after it, changes what is extracted. */
  lemma StrayBraceChangesSpan()
    ensures ExtractSpan("{" + "{}") == Some("{{}") != ExtractSpan("{}")
    ensures ExtractSpan("{}" + "}") == Some("{}}") != ExtractSpan("{}")
  {
    ExtractSpanIdentity("{}");
    ExtractSpanIdentity("{{}");
    ExtractSpanIdentity("{}}");
    assert "{" + "{}" == "{{}";
    assert "{}" + "}" == "{}}";
  }

  /** A JSON parser that, for a text starting with `{`, either fails or
      yields an object (as `JSON.parse` does). */
  ghost predicate BraceParsesToObject(parse: string -> Option<Json>)
  {
    forall s: string :: |s| > 0 && s[0] == '{' && parse(s).Some? ==> parse(s).value.JObject?
  }

  /** With such a parser the TypeError of reading `days` of `null` cannot
      happen: the candidate always starts with `{`. */
  lemma NoReadOfNull(text: string, parse: string -> Option<Json>)
    requires BraceParsesToObject(parse)
    ensures ProcessReply(text, parse) != Err(ReadOfNull)
  {
    if HasSpan(text) {
      var span := ExtractSpan(text).value;
      assert span[0] == '{';
    }
  }

  /** The two messages the generator throws itself name their cause; both
      are replaced by the fixed message before they reach the caller. */
  lemma CauseMessagesReplaced(t: TripData, complete: string -> Option<string>, parse: string -> Option<Json>)
    ensures forall c :: CauseMessage(c).Some? <==> (c == NoJsonFound || c == InvalidFormat)
    ensures forall c :: CauseMessage(c) != Some(FailureMessage)
    ensures Pipeline(t, complete, parse).Err? ==> GenerateItinerary(t, complete, parse) == Err(FailureMessage)
  {
  }

  /** A reply without a JSON object fails. */
  lemma PlainRefusalFails(t: TripData, complete: string -> Option<string>, parse: string -> Option<Json>)
    requires complete(BuildPrompt(t)) == Some("I cannot help with that")
    ensures Pipeline(t, complete, parse) == Err(NoJsonFound)
    ensures GenerateItinerary(t, complete, parse) == Err(FailureMessage)
  {
    var s := "I cannot help with that";
    ExtractSpanWrapped(s, "", "");
    assert s + "" + "" == s;
  }

  /** A reply that is the JSON alone, with the required shape, is returned
      exactly as parsed. */
  lemma PureJsonReplyAccepted(t: TripData, complete: string -> Option<string>, parse: string -> Option<Json>, text: string)
    requires complete(BuildPrompt(t)) == Some(text)
    requires |text| > 0 && text[0] == '{' && text[|text| - 1] == '}'
    requires parse(text).Some? && IsItineraryShape(parse(text).value)
    ensures GenerateItinerary(t, complete, parse) == Ok(parse(text).value)
  {
    ExtractSpanIdentity(text);
  }

  /** `prefix {"days": []} suffix` is accepted, with its empty `days`. */
  lemma EmptyDaysInProseAccepted(parse: string -> Option<Json>)
    requires parse("{\"days\": []}") == Some(JObject(map["days" := JArray([])]))
    ensures ProcessReply("prefix " + "{\"days\": []}" + " suffix", parse) == Ok(JObject(map["days" := JArray([])]))
  {
    var json := "{\"days\": []}";
    assert ExtractSpan(json) == Some(json) by { ExtractSpanIdentity(json); }
    assert ExtractSpan("prefix " + json + " suffix") == Some(json) by {
      ExtractSpanWrapped("prefix ", json, " suffix");
    }
    var v := JObject(map["days" := JArray([])]);
    assert Validate(v) == Ok(v) by { assert IsItineraryShape(v); }
  }

  /** `{"days": "not-an-array"}` is rejected by the shape check. */
  lemma DaysNotArrayRejected(parse: string -> Option<Json>)
    requires parse("{\"days\": \"not-an-array\"}") == Some(JObject(map["days" := JString("not-an-array")]))
    ensures ProcessReply("{\"days\": \"not-an-array\"}", parse) == Err(InvalidFormat)
  {
    ExtractSpanIdentity("{\"days\": \"not-an-array\"}");
  }
}
