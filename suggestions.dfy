/** `get_suggestions` of backend/db_utils.py: for each of a user's
    assignments, the first longest window that one sweep closes over the
    free-time slots of its students that end by the due date, at the
    highest number of open slots that yields a window. */
module Suggestions {
  import opened Wrappers
  import opened Models
  import opened CommonBlock
  import opened FreeTime

  /** One entry of the result, its instants kept as instants. */
  datatype Suggestion = Suggestion(assignment: Value, due: Time, start: Time, end: Time)

  /** `due = assignment.get("due")`, with a text parsed by `fromisoformat`. */
  function ReadDue(parse: string -> Option<Time>, a: Dict): (r: Result<Value, Fault>)
    ensures var raw := Get(a, "due", Null);
      && (r.Err? <==> raw.Str? && parse(raw.s).None?)
      && (r.Err? ==> r.error == BadIsoFormat(raw.s))
      && (r.Ok? && raw.Str? ==> r.value == When(parse(raw.s).value))
      && (!raw.Str? ==> r == Ok(raw))
  {
    var raw := Get(a, "due", Null);
    if raw.Str? then
      if parse(raw.s).Some? then Ok(When(parse(raw.s).value)) else Err(BadIsoFormat(raw.s))
    else Ok(raw)
  }

  /** `due if isinstance(due, datetime) else datetime.fromisoformat(str(due))`
      in `fetch_user_free_times_before_due`; `str(None)` is "None". */
  function DueInstant(parse: string -> Option<Time>, due: Value): (r: Result<Time, Fault>)
    ensures due.When? ==> r == Ok(due.t)
    ensures due.Null? ==> (r.Ok? <==> parse("None").Some?)
  {
    match due
    case When(t) => Ok(t)
    case Str(s) => if parse(s).Some? then Ok(parse(s).value) else Err(BadIsoFormat(s))
    case Null => if parse("None").Some? then Ok(parse("None").value) else Err(BadIsoFormat("None"))
  }

  /** The body of the loop of `get_suggestions` for one assignment:
      `Ok(None)` when it is skipped or no common block exists. */
  function SuggestionFor(store: Store, hooks: Hooks, email: string, a: Dict): Result<Option<Suggestion>, Fault>
  {
    match ReadDue(hooks.parse, a)
    case Err(f) => Err(f)
    case Ok(due) =>
      var title := Get(a, "title", Null);
      var others := OtherStudents(store, hooks, email, title, due);
      if others == [] then Ok(None)
      else
        match DueInstant(hooks.parse, due)
        case Err(f) => Err(f)
        case Ok(d) =>
          var emails := [email] + others;
          match LargestCommonBlock(FreeTimesBefore(store, hooks.parse, emails, d), |emails|)
          case None => Ok(None)
          case Some(w) =>
            // `due.isoformat()` on a missing due date
            if due.Null? then Err(NoneHasNoIsoformat)
            else Ok(Some(Suggestion(title, d, w.start, w.end)))
  }

  /** One iteration of the loop: an exception so far or now ends the loop,
      a suggestion is appended. */
  function Collect(prior: Result<seq<Suggestion>, Fault>, one: Result<Option<Suggestion>, Fault>): Result<seq<Suggestion>, Fault>
  {
    match prior
    case Err(f) => Err(f)
    case Ok(found) =>
      match one
      case Err(f) => Err(f)
      case Ok(None) => Ok(found)
      case Ok(Some(s)) => Ok(found + [s])
  }

  /** A step that does not raise follows a prefix that did not, and adds
      at most its own suggestion. */
  lemma CollectOk(prior: Result<seq<Suggestion>, Fault>, one: Result<Option<Suggestion>, Fault>)
    requires Collect(prior, one).Ok?
    ensures prior.Ok? && one.Ok?
    ensures one.value.None? ==> Collect(prior, one).value == prior.value
    ensures one.value.Some? ==> Collect(prior, one).value == prior.value + [one.value.value]
  {
  }

  /** The whole loop; the first exception ends it. */
  function SuggestionsSpec(store: Store, hooks: Hooks, email: string, assignments: seq<Dict>): Result<seq<Suggestion>, Fault>
  {
    if assignments == [] then Ok([])
    else Collect(SuggestionsSpec(store, hooks, email, assignments[..|assignments| - 1]),
                 SuggestionFor(store, hooks, email, assignments[|assignments| - 1]))
  }

  lemma SuggestionsNext(store: Store, hooks: Hooks, email: string, assignments: seq<Dict>, i: nat)
    requires i < |assignments|
    ensures SuggestionsSpec(store, hooks, email, assignments[..i + 1]) ==
      Collect(SuggestionsSpec(store, hooks, email, assignments[..i]), SuggestionFor(store, hooks, email, assignments[i]))
  {
    assert assignments[..i + 1][..i] == assignments[..i];
  }

  /** The body of the loop of `get_suggestions` for one assignment. */
  method SuggestFor(store: Store, hooks: Hooks, email: string, assignment: Dict)
    returns (r: Result<Option<Suggestion>, Fault>)
    ensures r == SuggestionFor(store, hooks, email, assignment)
  {
    var title := Get(assignment, "title", Null);
    var due := ReadDue(hooks.parse, assignment);
    if due.Err? {
      return Err(due.error);
    }
    var overlappingUsers := OtherStudents(store, hooks, email, title, due.value);
    if overlappingUsers == [] {
      return Ok(None);
    }
    var allEmails := [email] + overlappingUsers;
    var dueInstant := DueInstant(hooks.parse, due.value);
    if dueInstant.Err? {
      return Err(dueInstant.error);
    }
    var allFreeTimes := FetchUserFreeTimesBeforeDue(store, hooks.parse, allEmails, dueInstant.value);
    var bestBlock := FindLargestCommonBlock(allFreeTimes, |allEmails|);
    if bestBlock.None? {
      return Ok(None);
    }
    if due.value.Null? {
      return Err(NoneHasNoIsoformat);
    }
    return Ok(Some(Suggestion(title, dueInstant.value, bestBlock.value.start, bestBlock.value.end)));
  }

  /** `get_suggestions(user)`. */
  method GetSuggestions(store: Store, hooks: Hooks, user: User) returns (r: Result<seq<Suggestion>, Fault>)
    ensures r == SuggestionsSpec(store, hooks, user.email, user.assignments)
  {
    var assignments := user.assignments;
    var suggestions := [];
    for i := 0 to |assignments|
      invariant SuggestionsSpec(store, hooks, user.email, assignments[..i]) == Ok(suggestions)
    {
      SuggestionsNext(store, hooks, user.email, assignments, i);
      var one := SuggestFor(store, hooks, user.email, assignments[i]);
      if one.Err? {
        SuggestionsKeepFault(store, hooks, user.email, assignments, i + 1);
        return Err(one.error);
      }
      if one.value.Some? {
        suggestions := suggestions + [one.value.value];
      }
    }
    assert assignments[..|assignments|] == assignments;
    return Ok(suggestions);
  }

  /** Once a prefix of the assignments raises, so does the whole list, with
      the same exception. */
  lemma {:induction false} SuggestionsKeepFault(store: Store, hooks: Hooks, email: string, assignments: seq<Dict>, k: nat)
    requires k <= |assignments| && SuggestionsSpec(store, hooks, email, assignments[..k]).Err?
    ensures SuggestionsSpec(store, hooks, email, assignments) == SuggestionsSpec(store, hooks, email, assignments[..k])
    decreases |assignments|
  {
    if k < |assignments| {
      assert assignments[..|assignments| - 1][..k] == assignments[..k];
      SuggestionsKeepFault(store, hooks, email, assignments[..|assignments| - 1], k);
    } else {
      assert assignments[..k] == assignments;
    }
  }

  /** The list raises exactly when one assignment raises, and then with the
      exception of the first such assignment. */
  lemma {:induction false} SuggestionsFault(store: Store, hooks: Hooks, email: string, assignments: seq<Dict>)
    ensures SuggestionsSpec(store, hooks, email, assignments).Err? <==>
      exists i :: 0 <= i < |assignments| && SuggestionFor(store, hooks, email, assignments[i]).Err?
    ensures SuggestionsSpec(store, hooks, email, assignments).Err? ==>
      exists i :: 0 <= i < |assignments|
        && SuggestionFor(store, hooks, email, assignments[i]) == Err(SuggestionsSpec(store, hooks, email, assignments).error)
        && forall j :: 0 <= j < i ==> SuggestionFor(store, hooks, email, assignments[j]).Ok?
  {
    if assignments != [] {
      var init := assignments[..|assignments| - 1];
      SuggestionsFault(store, hooks, email, init);
      forall i | 0 <= i < |init| ensures init[i] == assignments[i] { }
    }
  }

  /** The suggestions come from distinct assignments, in the order of the
      assignments, one at most per assignment. */
  lemma {:induction false} SuggestionsFollowAssignments(store: Store, hooks: Hooks, email: string, assignments: seq<Dict>)
    returns (idx: seq<nat>)
    requires SuggestionsSpec(store, hooks, email, assignments).Ok?
    ensures var r := SuggestionsSpec(store, hooks, email, assignments).value;
      && |idx| == |r| <= |assignments|
      && (forall k :: 0 <= k < |idx| ==> (idx[k] < |assignments|
            && SuggestionFor(store, hooks, email, assignments[idx[k]]) == Ok(Some(r[k]))))
      && (forall k, m :: 0 <= k < m < |idx| ==> idx[k] < idx[m])
  {
    if assignments == [] {
      idx := [];
    } else {
      var n := |assignments| - 1;
      var init := assignments[..n];
      var prior := SuggestionsSpec(store, hooks, email, init);
      var one := SuggestionFor(store, hooks, email, assignments[n]);
      assert SuggestionsSpec(store, hooks, email, assignments) == Collect(prior, one);
      CollectOk(prior, one);
      idx := SuggestionsFollowAssignments(store, hooks, email, init);
      forall k | 0 <= k < |idx| ensures init[idx[k]] == assignments[idx[k]] { }
      if one.value.Some? {
        idx := idx + [n];
      }
    }
  }

  /** What one suggestion means: it is for an assignment with at least one
      other student, its due instant is the assignment's, and its window is
      non-empty, starts at a fetched window's start and ends at a fetched
      window's end, no later than the due instant; when the fetched windows
      are well formed, some level `k` from 2 to the number of e-mails covers
      every instant of it, and no instant at all is covered more than `k`
      times unless `k` is that number. */
  lemma SuggestionForMeaning(store: Store, hooks: Hooks, email: string, a: Dict, s: Suggestion)
    returns (k: int, i: nat, j: nat)
    requires SuggestionFor(store, hooks, email, a) == Ok(Some(s))
    ensures s.assignment == Get(a, "title", Null)
    ensures var raw := Get(a, "due", Null);
      && (raw.Str? ==> hooks.parse(raw.s) == Some(s.due))
      && (raw.When? ==> s.due == raw.t)
      && !raw.Null?
    ensures s.start < s.end <= s.due
    ensures var due := ReadDue(hooks.parse, a).value;
      var others := OtherStudents(store, hooks, email, s.assignment, due);
      var slots := FreeTimesBefore(store, hooks.parse, [email] + others, s.due);
      && others != []
      && i < |slots| && slots[i].0 == s.start
      && j < |slots| && slots[j].1 == s.end
      && 2 <= k <= |[email] + others|
      && (WellFormed(slots) ==> forall t :: s.start <= t < s.end ==> Covering(slots, t) >= k)
      && (WellFormed(slots) && k < |[email] + others| ==> forall t :: Covering(slots, t) <= k)
  {
    var due := ReadDue(hooks.parse, a).value;
    var others := OtherStudents(store, hooks, email, s.assignment, due);
    var slots := FreeTimesBefore(store, hooks.parse, [email] + others, s.due);
    assert DueInstant(hooks.parse, due) == Ok(s.due);
    k, i, j := LargestCommonBlockMeaning(slots, |[email] + others|);
  }

  /** An assignment whose due date parses yields no suggestion exactly when
      nobody else is registered for it or, for well-formed fetched windows,
      no instant is covered twice. */
  lemma SuggestionForNone(store: Store, hooks: Hooks, email: string, a: Dict)
    requires SuggestionFor(store, hooks, email, a).Ok?
    ensures var due := ReadDue(hooks.parse, a).value;
      var others := OtherStudents(store, hooks, email, Get(a, "title", Null), due);
      others != [] ==>
        var slots := FreeTimesBefore(store, hooks.parse, [email] + others, DueInstant(hooks.parse, due).value);
        WellFormed(slots) ==>
          (SuggestionFor(store, hooks, email, a).value.None? <==> forall t :: Covering(slots, t) < 2)
    ensures OtherStudents(store, hooks, email, Get(a, "title", Null), ReadDue(hooks.parse, a).value) == [] ==>
      SuggestionFor(store, hooks, email, a) == Ok(None)
  {
    var due := ReadDue(hooks.parse, a).value;
    var others := OtherStudents(store, hooks, email, Get(a, "title", Null), due);
    if others != [] {
      var slots := FreeTimesBefore(store, hooks.parse, [email] + others, DueInstant(hooks.parse, due).value);
      if WellFormed(slots) {
        LargestCommonBlockNone(slots, |[email] + others|);
      }
    }
  }

  /** An assignment without a due date that still has a common block
      raises at `due.isoformat()`, even when the parse hook accepts "None". */
  lemma NullDueRaises(store: Store, hooks: Hooks, email: string, a: Dict)
    requires Get(a, "due", Null).Null?
    requires var others := OtherStudents(store, hooks, email, Get(a, "title", Null), Null);
      && others != [] && hooks.parse("None").Some?
      && LargestCommonBlock(FreeTimesBefore(store, hooks.parse, [email] + others, hooks.parse("None").value),
                            |[email] + others|).Some?
    ensures SuggestionFor(store, hooks, email, a) == Err(NoneHasNoIsoformat)
  {
  }
}
