/**
 * The planner form of `TripPlanner`: the pure updates of the form data
 * (a single input field, an interest tag), and the component's state
 * machine (the step counter, the loading/error/itinerary bookkeeping of a
 * generation, and the trips saved for a signed-in user).
 *
 * Each handler is one sequential transition. The generator is the model's
 * `Gemini.GenerateItinerary` with its completion and parse oracles; the
 * signed-in user is a parameter; an insert into the trips table is recorded
 * by appending the row to `saved`.
 */
module TripPlanner {
  import opened Wrappers
  import opened Json
  import Gemini

  /** The form data is exactly what is handed to the generator. */
  type FormData = Gemini.TripData

  /** The initial form, restored by "Plan Another Trip". */
  const InitialForm: FormData := Gemini.TripData("", "", "", "Mid-Range", [])

  /** The interest tags the checkboxes offer. */
  const InterestOptions: seq<string> := ["Culture", "Nature", "Food", "Adventure", "Shopping", "Relaxation"]

  // ---------------------------------------------------------------------------
  // handleInputChange
  // ---------------------------------------------------------------------------

  /** The inputs wired to `handleInputChange`, by their `name` attribute. */
  datatype Field = Destination | StartDate | EndDate | Budget

  function FieldValue(f: FormData, field: Field): string
  {
    match field
    case Destination => f.destination
    case StartDate => f.startDate
    case EndDate => f.endDate
    case Budget => f.budget
  }

  /** An input change: the named field takes the value, every other field
      and the interests are left as they were. */
  function InputChange(f: FormData, field: Field, value: string): (r: FormData)
    ensures FieldValue(r, field) == value
    ensures forall g :: g != field ==> FieldValue(r, g) == FieldValue(f, g)
    ensures r.interests == f.interests
  {
    match field
    case Destination => f.(destination := value)
    case StartDate => f.(startDate := value)
    case EndDate => f.(endDate := value)
    case Budget => f.(budget := value)
  }

  // ---------------------------------------------------------------------------
  // handleInterestChange
  // ---------------------------------------------------------------------------

  /** The list without any occurrence of `x`, the rest in order. */
  function RemoveAll(xs: seq<string>, x: string): (r: seq<string>)
    ensures x !in r
    ensures forall y :: y != x ==> (y in r <==> y in xs)
    ensures |r| <= |xs|
  {
    if |xs| == 0 then []
    else (if xs[0] == x then [] else [xs[0]]) + RemoveAll(xs[1..], x)
  }

  /** A present tag is filtered out, an absent one appended: afterwards `x`
      is present exactly when it was absent before, and every other tag keeps
      its membership. */
  function ToggleInterest(xs: seq<string>, x: string): (r: seq<string>)
    ensures x in r <==> x !in xs
    ensures forall y :: y != x ==> (y in r <==> y in xs)
  {
    if x in xs then RemoveAll(xs, x) else xs + [x]
  }

  /** `handleInterestChange`: toggles the tag and leaves the other fields. */
  function InterestChange(f: FormData, x: string): (r: FormData)
    ensures r.interests == ToggleInterest(f.interests, x)
    ensures forall g :: FieldValue(r, g) == FieldValue(f, g)
  {
    f.(interests := ToggleInterest(f.interests, x))
  }

  /** `a` is `b` with some elements left out, the rest in their order. */
  ghost predicate IsSubsequence(a: seq<string>, b: seq<string>)
    decreases |b|
  {
    if |a| == 0 then true
    else if |b| == 0 then false
    else if a[0] == b[0] then IsSubsequence(a[1..], b[1..])
    else IsSubsequence(a, b[1..])
  }

  ghost predicate NoDuplicates(xs: seq<string>)
  {
    forall i, j :: 0 <= i < j < |xs| ==> xs[i] != xs[j]
  }

  /** Removal keeps the other tags in their relative order. */
  lemma {:induction false} RemoveAllKeepsOrder(xs: seq<string>, x: string)
    ensures IsSubsequence(RemoveAll(xs, x), xs)
  {
    if |xs| > 0 {
      RemoveAllKeepsOrder(xs[1..], x);
      var rest := RemoveAll(xs[1..], x);
      if xs[0] != x {
        assert ([xs[0]] + rest)[1..] == rest;
      } else {
        assert RemoveAll(xs, x) == rest;
        assert |rest| > 0 ==> rest[0] in rest && rest[0] != xs[0];
      }
    }
  }

  /** Removal keeps every other tag exactly as often as before. */
  lemma {:induction false} RemoveAllCounts(xs: seq<string>, x: string)
    ensures multiset(RemoveAll(xs, x)) == multiset(xs)[x := 0]
  {
    if |xs| > 0 {
      RemoveAllCounts(xs[1..], x);
      assert xs == [xs[0]] + xs[1..];
    }
  }

  /** Removing a tag that is not there changes nothing. */
  lemma {:induction false} RemoveAllAbsent(xs: seq<string>, x: string)
    requires x !in xs
    ensures RemoveAll(xs, x) == xs
  {
    if |xs| > 0 {
      RemoveAllAbsent(xs[1..], x);
      assert xs == [xs[0]] + xs[1..];
    }
  }

  /** Removal works element by element. */
  lemma {:induction false} RemoveAllAppend(a: seq<string>, b: seq<string>, x: string)
    ensures RemoveAll(a + b, x) == RemoveAll(a, x) + RemoveAll(b, x)
  {
    if |a| > 0 {
      assert (a + b)[1..] == a[1..] + b;
      RemoveAllAppend(a[1..], b, x);
    } else {
      assert a + b == b;
    }
  }

  /** Removal keeps a duplicate-free list duplicate-free. */
  lemma {:induction false} RemoveAllNoDuplicates(xs: seq<string>, x: string)
    requires NoDuplicates(xs)
    ensures NoDuplicates(RemoveAll(xs, x))
  {
    if |xs| > 0 {
      assert NoDuplicates(xs[1..]) by {
        forall i, j | 0 <= i < j < |xs[1..]| ensures xs[1..][i] != xs[1..][j] {
          assert xs[1..][i] == xs[i + 1] && xs[1..][j] == xs[j + 1];
        }
      }
      RemoveAllNoDuplicates(xs[1..], x);
      var rest := RemoveAll(xs[1..], x);
      if xs[0] != x {
        assert xs[0] !in xs[1..] by {
          forall k | 0 <= k < |xs[1..]| ensures xs[1..][k] != xs[0] {
            assert xs[1..][k] == xs[k + 1];
          }
        }
        assert xs[0] !in rest;
        var r := [xs[0]] + rest;
        forall i, j | 0 <= i < j < |r| ensures r[i] != r[j] {
          if i == 0 { assert r[j] == rest[j - 1] && r[j] in rest; }
          else { assert r[i] == rest[i - 1] && r[j] == rest[j - 1]; }
        }
      }
    }
  }

  /** An absent tag is added at the end; a present one is removed with the
      order of the rest kept. */
  lemma ToggleKeepsOrder(xs: seq<string>, x: string)
    ensures x !in xs ==> ToggleInterest(xs, x) == xs + [x]
    ensures x in xs ==> IsSubsequence(ToggleInterest(xs, x), xs)
    ensures x in xs ==> multiset(ToggleInterest(xs, x)) == multiset(xs)[x := 0]
  {
    RemoveAllKeepsOrder(xs, x);
    RemoveAllCounts(xs, x);
  }

  /** A duplicate-free interest list stays duplicate-free. */
  lemma ToggleKeepsNoDuplicates(xs: seq<string>, x: string)
    requires NoDuplicates(xs)
    ensures NoDuplicates(ToggleInterest(xs, x))
  {
    if x in xs {
      RemoveAllNoDuplicates(xs, x);
    } else {
      var r := xs + [x];
      forall i, j | 0 <= i < j < |r| ensures r[i] != r[j] {
        if j == |xs| { assert r[i] == xs[i]; }
      }
    }
  }

  /** Ticking and unticking an absent tag restores the list exactly. */
  lemma ToggleTwiceAbsent(xs: seq<string>, x: string)
    requires x !in xs
    ensures ToggleInterest(ToggleInterest(xs, x), x) == xs
  {
    RemoveAllAppend(xs, [x], x);
    RemoveAllAbsent(xs, x);
    assert RemoveAll([x], x) == [];
  }

  // ---------------------------------------------------------------------------
  // The component's state
  // ---------------------------------------------------------------------------

  /** A row inserted into the trips table. */
  datatype TripRecord = TripRecord(
    userId: string,
    destination: string,
    startDate: string,
    endDate: string,
    budget: string,
    interests: seq<string>,
    itinerary: Json)

  /** The rows a successful generation inserts: one for a signed-in user,
      none otherwise. */
  function RowsToSave(user: Option<string>, f: FormData, result: Json): (rows: seq<TripRecord>)
    ensures |rows| == (if user.Some? then 1 else 0)
    ensures user.Some? ==>
      rows[0] == TripRecord(user.value, f.destination, f.startDate, f.endDate, f.budget, f.interests, result)
  {
    match user
    case None => []
    case Some(id) => [TripRecord(id, f.destination, f.startDate, f.endDate, f.budget, f.interests, result)]
  }

  class Planner {
    var step: int
    var loading: bool
    var error: Option<string>
    var formData: FormData
    var itinerary: Option<Json>
    /** The rows inserted into the trips table so far. */
    var saved: seq<TripRecord>

    /** The step is one of the three screens; the interests are distinct
        tags from the offered list. */
    ghost predicate Valid()
      reads this
    {
      && 1 <= step <= 3
      && NoDuplicates(formData.interests)
      && forall y :: y in formData.interests ==> y in InterestOptions
    }

    constructor ()
      ensures Valid()
      ensures step == 1 && !loading && error == None
      ensures formData == InitialForm && itinerary == None && saved == []
    {
      step := 1;
      loading := false;
      error := None;
      formData := InitialForm;
      itinerary := None;
      saved := [];
    }

    /** An input's `onChange`. */
    method HandleInputChange(field: Field, value: string)
      requires Valid()
      modifies this`formData
      ensures Valid()
      ensures formData == InputChange(old(formData), field, value)
    {
      formData := InputChange(formData, field, value);
    }

    /** A checkbox's `onChange`; the checkboxes pass only the offered tags. */
    method HandleInterestChange(x: string)
      requires Valid()
      requires x in InterestOptions
      modifies this`formData
      ensures Valid()
      ensures formData == InterestChange(old(formData), x)
    {
      ToggleKeepsNoDuplicates(formData.interests, x);
      formData := InterestChange(formData, x);
    }

    /** "Next: Preferences". */
    method Next()
      requires Valid()
      modifies this`step
      ensures Valid() && step == 2
    {
      step := 2;
    }

    /** "Back". */
    method Back()
      requires Valid()
      modifies this`step
      ensures Valid() && step == 1
    {
      step := 1;
    }

    /** The first two statements of `handleGenerateItinerary`. */
    method StartGeneration()
      requires Valid()
      modifies this`loading, this`error
      ensures Valid() && loading && error == None
    {
      loading := true;
      error := None;
    }

    /** `handleGenerateItinerary`, also run by "Try Again": on success the
        itinerary is stored, then a row is inserted if a user is signed in;
        on failure the error is the generator's message and the itinerary is
        left as it was; loading always ends false. */
    method HandleGenerateItinerary(
      complete: string -> Option<string>, parse: string -> Option<Json>, user: Option<string>)
      requires Valid()
      modifies this`loading, this`error, this`itinerary, this`saved
      ensures Valid() && !loading
      ensures var r := Gemini.GenerateItinerary(formData, complete, parse);
        && (r.Ok? ==> && error == None
                      && itinerary == Some(r.value)
                      && saved == old(saved) + RowsToSave(user, formData, r.value))
        && (r.Err? ==> && error == Some(Gemini.FailureMessage)
                       && itinerary == old(itinerary)
                       && saved == old(saved))
    {
      StartGeneration();
      var result := Gemini.GenerateItinerary(formData, complete, parse);
      match result {
        case Ok(v) =>
          itinerary := Some(v);
          saved := saved + RowsToSave(user, formData, v);
        case Err(message) =>
          error := Some(message);
      }
      loading := false;
    }

    /** "Generate Itinerary": move to the result screen and generate. */
    method Generate(complete: string -> Option<string>, parse: string -> Option<Json>, user: Option<string>)
      requires Valid()
      modifies this`step, this`loading, this`error, this`itinerary, this`saved
      ensures Valid() && step == 3 && !loading
      ensures var r := Gemini.GenerateItinerary(formData, complete, parse);
        && (r.Ok? ==> error == None && itinerary == Some(r.value)
                      && saved == old(saved) + RowsToSave(user, formData, r.value))
        && (r.Err? ==> error == Some(Gemini.FailureMessage) && itinerary == old(itinerary)
                       && saved == old(saved))
    {
      step := 3;
      HandleGenerateItinerary(complete, parse, user);
    }

    /** "Plan Another Trip": back to the first screen with an empty form and
        no itinerary; the error and loading flags are not touched. */
    method PlanAnotherTrip()
      requires Valid()
      modifies this`step, this`itinerary, this`formData
      ensures Valid()
      ensures step == 1 && itinerary == None && formData == InitialForm
    {
      step := 1;
      itinerary := None;
      formData := InitialForm;
    }
  }
}
