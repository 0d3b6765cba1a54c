/**
 * The decision logic of the calendar's add/edit event dialogs: the
 * date-order validator, the category, member and iteration pickers of the
 * free-form and days-off controls, and how the dialog reports the outcome of
 * its field checks. Dates are the numbers `Date.valueOf()` gives.
 */
module Dialogs {
  import opened Wrappers
  import opened Text
  import opened EventCache

  // ---------------------------------------------------------------- first match

  /**
   * The index of the first element satisfying `p`, as `filter(p)[0]` finds
   * it; None when no element does.
   */
  function FirstIndex<T>(s: seq<T>, p: T -> bool): (r: Option<nat>)
    ensures r.Some? ==> r.value < |s| && p(s[r.value]) && forall j :: 0 <= j < r.value ==> !p(s[j])
    ensures r.None? <==> forall j :: 0 <= j < |s| ==> !p(s[j])
  {
    if s == [] then None
    else if p(s[0]) then Some(0)
    else
      match FirstIndex(s[1..], p)
      case None => None
      case Some(i) => Some(i + 1)
  }

  // ---------------------------------------------------------------- DateRelativeToValidator

  /** The two orders a date field can be checked in against another field. */
  datatype DateComparison = GreaterOrEqual | LessOrEqual

  /**
   * DateRelativeToValidator.isValid. `parse` is the culture's short-date
   * parser, None where it yields no valid date. Only two parsed dates in the
   * wrong order fail: an empty field or one that does not parse passes (other
   * validators report those).
   */
  function IsValid(fieldValue: string, relativeToValue: string, parse: string -> Option<int>,
                   comparison: DateComparison): (r: bool)
    ensures Trim(fieldValue) == [] || Trim(relativeToValue) == [] ==> r
    ensures Trim(fieldValue) != [] && Trim(relativeToValue) != [] ==>
      (parse(Trim(fieldValue)).None? || parse(Trim(relativeToValue)).None? ==> r)
  {
    var fieldText, relativeToFieldText := Trim(fieldValue), Trim(relativeToValue);
    if fieldText == [] || relativeToFieldText == [] then true
    else
      var fieldDate, relativeToFieldDate := parse(fieldText), parse(relativeToFieldText);
      if fieldDate.Some? && relativeToFieldDate.Some? then
        match comparison
        case GreaterOrEqual => fieldDate.value >= relativeToFieldDate.value
        case LessOrEqual => fieldDate.value <= relativeToFieldDate.value
      else true
  }

  /** The validator rejects exactly two non-empty fields whose parsed dates are in the wrong order. */
  lemma IsValidRejects(fieldValue: string, relativeToValue: string, parse: string -> Option<int>,
                       comparison: DateComparison)
    ensures !IsValid(fieldValue, relativeToValue, parse, comparison) <==>
      var f, g := parse(Trim(fieldValue)), parse(Trim(relativeToValue));
      && Trim(fieldValue) != [] && Trim(relativeToValue) != []
      && f.Some? && g.Some?
      && (if comparison == GreaterOrEqual then f.value < g.value else f.value > g.value)
  {
  }

  /**
   * The end field checked "on or after the start" and the start field checked
   * "on or before the end" accept the same pair of texts.
   */
  lemma IsValidMirror(startValue: string, endValue: string, parse: string -> Option<int>)
    ensures IsValid(endValue, startValue, parse, GreaterOrEqual) == IsValid(startValue, endValue, parse, LessOrEqual)
  {
  }

  // ---------------------------------------------------------------- dialog error reporting

  /** The string a passing field check resolves to. */
  const ValidResult := "valid"

  /** What one field check resolves to: its validation message when it fails, "valid" otherwise. */
  function CheckResult(isValid: bool, validationErrorMessage: string): (r: string)
    ensures isValid ==> r == ValidResult
    ensures !isValid ==> r == validationErrorMessage
  {
    if !isValid then validationErrorMessage else ValidResult
  }

  predicate IsInvalidResult(result: string) {
    result != ValidResult
  }

  /** `results.filter(r => r !== "valid")`: the messages of the failed checks, in field order. */
  function InvalidMessages(results: seq<string>): (r: seq<string>)
    ensures |r| <= |results|
    ensures forall k :: 0 <= k < |r| ==> r[k] != ValidResult && r[k] in results
    ensures r == [] <==> forall k :: 0 <= k < |results| ==> results[k] == ValidResult
    ensures r != [] ==>
      var i := FirstIndex(results, IsInvalidResult);
      i.Some? && r[0] == results[i.value]
  {
    if results == [] then []
    else
      var rest := InvalidMessages(results[1..]);
      assert forall k :: 0 <= k < |results[1..]| ==> results[1..][k] == results[k + 1];
      if results[0] != ValidResult then [results[0]] + rest else rest
  }

  /**
   * A failed check whose message is itself "valid" is dropped by the filter,
   * so it does not block the dialog.
   */
  lemma FailureNamedValidIgnored(before: seq<string>, after: seq<string>)
    requires forall k :: 0 <= k < |before| ==> before[k] == ValidResult
    requires forall k :: 0 <= k < |after| ==> after[k] == ValidResult
    ensures InvalidMessages(before + [CheckResult(false, ValidResult)] + after) == []
  {
    var all := before + [CheckResult(false, ValidResult)] + after;
    assert forall k :: 0 <= k < |all| ==> all[k] == ValidResult by {
      forall k | 0 <= k < |all| ensures all[k] == ValidResult {
        if k < |before| {
          assert all[k] == before[k];
        } else if k > |before| {
          assert all[k] == after[k - |before| - 1];
        }
      }
    }
  }

  /** The message the error control shows for `errorMessage`: None when it is cleared. */
  function ErrorShown(errorMessage: string): (r: Option<string>)
    ensures r.Some? <==> errorMessage != [] && errorMessage != "invalid"
    ensures r.Some? ==> r.value == errorMessage
  {
    if errorMessage != [] && errorMessage != "invalid" then Some(errorMessage) else None
  }

  /** The dialog's validation state: the message its error control shows, and whether OK is enabled. */
  class EditEventDialog {
    var contributionsValid: bool
    var error: Option<string>
    var okEnabled: bool

    constructor (contributionsValid: bool)
      ensures this.contributionsValid == contributionsValid && error == None && !okEnabled
    {
      this.contributionsValid := contributionsValid;
      error := None;
      okEnabled := false;
    }

    /** _setError: show a non-empty message other than "invalid"; otherwise clear the error. */
    method SetError(errorMessage: string)
      modifies this`error
      ensures error.Some? <==> errorMessage != [] && errorMessage != "invalid"
      ensures error.Some? ==> error.value == errorMessage
    {
      if errorMessage != [] && errorMessage != "invalid" {
        error := Some(errorMessage);
      } else {
        error := None;
      }
    }

    /**
     * _validate. `groupValid` and `groupMessage` are the outcome of the
     * dialog's standard validators (and the first one's message); `results`
     * are what the custom field checks resolved to, in field order. OK is
     * enabled exactly when everything passes; with `showError`, the first
     * failure is reported.
     */
    method Validate(showError: bool, groupValid: bool, groupMessage: string, results: seq<string>)
      modifies this`error, this`okEnabled
      ensures okEnabled <==> contributionsValid && groupValid && forall k :: 0 <= k < |results| ==> results[k] == ValidResult
      ensures !contributionsValid ==> error == None
      ensures contributionsValid && !groupValid ==> error == (if showError then ErrorShown(groupMessage) else old(error))
      ensures contributionsValid && groupValid ==>
        match FirstIndex(results, IsInvalidResult)
        case None => error == None
        case Some(i) => error == (if showError then ErrorShown(results[i]) else old(error))
    {
      if !contributionsValid {
        error := None;
        okEnabled := false;
        return;
      }
      if !groupValid {
        if showError {
          SetError(groupMessage);
        }
        okEnabled := false;
        return;
      }
      var invalidMessages := InvalidMessages(results);
      if |invalidMessages| > 0 {
        if showError {
          SetError(invalidMessages[0]);
        }
        okEnabled := false;
        return;
      }
      error := None;
      okEnabled := true;
    }
  }

  // ---------------------------------------------------------------- free-form event control

  /** An event category as the dialogs hold it (IEventCategory, the fields they read and write). */
  datatype EventCategory = EventCategory(title: string, id: Option<string>)

  /** A team member (IdentityRef). */
  datatype Identity = Identity(displayName: string, id: Option<string>)

  /** A team iteration: its id, its name and its start and finish dates, when set. */
  datatype Iteration = Iteration(id: string, name: string, startDate: Option<int>, finishDate: Option<int>)

  /** The event the dialog edits, the fields its controls set. */
  class CalendarEvent {
    var category: Option<EventCategory>
    var member: Identity
    var iterationId: Option<string>

    constructor (category: Option<EventCategory>, member: Identity, iterationId: Option<string>)
      ensures this.category == category && this.member == member && this.iterationId == iterationId
    {
      this.category := category;
      this.member := member;
      this.iterationId := iterationId;
    }
  }

  /** The first known category titled exactly `value` (untrimmed). */
  function CategoryIndex(categories: seq<EventCategory>, value: string): (r: Option<nat>)
    ensures r.Some? ==>
      && r.value < |categories| && categories[r.value].title == value
      && forall j :: 0 <= j < r.value ==> categories[j].title != value
    ensures r.None? <==> forall j :: 0 <= j < |categories| ==> categories[j].title != value
  {
    FirstIndex(categories, (c: EventCategory) => c.title == value)
  }

  class EditFreeFormEventControl {
    var calendarEvent: CalendarEvent
    var categories: seq<EventCategory>

    constructor (calendarEvent: CalendarEvent)
      ensures this.calendarEvent == calendarEvent && categories == []
    {
      this.calendarEvent := calendarEvent;
      categories := [];
    }

    /**
     * _categoryCallback: a known category titled exactly `value` is taken
     * as is; otherwise a new category titled with the trimmed value
     * ("Uncategorized" when that is empty), with id "freeForm.<title>".
     */
    method CategoryCallback(value: string)
      modifies calendarEvent`category
      ensures match CategoryIndex(categories, value)
        case Some(i) => calendarEvent.category == Some(categories[i])
        case None =>
          && calendarEvent.category.Some?
          && calendarEvent.category.value.title == (if Trim(value) == [] then Uncategorized else Trim(value))
          && calendarEvent.category.value.id == Some("freeForm." + calendarEvent.category.value.title)
    {
      var title := Trim(value);
      if |title| == 0 {
        title := Uncategorized;
      }
      var category := EventCategory(title, Some("freeForm." + title));
      var known := CategoryIndex(categories, value);
      if known.Some? {
        category := categories[known.value];
      }
      calendarEvent.category := Some(category);
    }
  }

  // ---------------------------------------------------------------- days-off event control

  /** The member choice that stands for the whole team. */
  const Everyone := "Everyone"

  /** The first member whose display name is `name`. */
  function MemberIndex(members: seq<Identity>, name: string): (r: Option<nat>)
    ensures r.Some? ==>
      && r.value < |members| && members[r.value].displayName == name
      && forall j :: 0 <= j < r.value ==> members[j].displayName != name
    ensures r.None? <==> forall j :: 0 <= j < |members| ==> members[j].displayName != name
  {
    FirstIndex(members, (m: Identity) => m.displayName == name)
  }

  /** The first iteration named `name`. */
  function IterationIndex(iterations: seq<Iteration>, name: string): (r: Option<nat>)
    ensures r.Some? ==>
      && r.value < |iterations| && iterations[r.value].name == name
      && forall j :: 0 <= j < r.value ==> iterations[j].name != name
    ensures r.None? <==> forall j :: 0 <= j < |iterations| ==> iterations[j].name != name
  {
    FirstIndex(iterations, (it: Iteration) => it.name == name)
  }

  /** An iteration with both dates set whose [start, finish] holds `date`. */
  predicate Covers(iteration: Iteration, date: int) {
    && iteration.startDate.Some? && iteration.finishDate.Some?
    && iteration.startDate.value <= date <= iteration.finishDate.value
  }

  /** _getCurrentIteration: the first iteration covering `date`, if any. */
  function CurrentIteration(iterations: seq<Iteration>, date: int): (r: Option<Iteration>)
    ensures r.None? <==> forall j :: 0 <= j < |iterations| ==> !Covers(iterations[j], date)
    ensures r.Some? ==> exists i ::
      && 0 <= i < |iterations| && iterations[i] == r.value && Covers(r.value, date)
      && forall j :: 0 <= j < i ==> !Covers(iterations[j], date)
  {
    match FirstIndex(iterations, (it: Iteration) => Covers(it, date))
    case None => None
    case Some(i) => Some(iterations[i])
  }

  /** _checkMemberValid: some member is named by the trimmed value, or the raw value is "Everyone". */
  function CheckMemberValid(members: seq<Identity>, value: string): (r: bool)
    ensures r <==> (exists j :: 0 <= j < |members| && members[j].displayName == Trim(value)) || value == Everyone
  {
    MemberIndex(members, Trim(value)).Some? || value == Everyone
  }

  /** _checkIterationValid: some iteration is named by the trimmed value. */
  function CheckIterationValid(iterations: seq<Iteration>, value: string): (r: bool)
    ensures r <==> exists j :: 0 <= j < |iterations| && iterations[j].name == Trim(value)
  {
    IterationIndex(iterations, Trim(value)).Some?
  }

  class EditCapacityEventControl {
    var calendarEvent: CalendarEvent
    var members: seq<Identity>
    var iterations: seq<Iteration>

    constructor (calendarEvent: CalendarEvent)
      ensures this.calendarEvent == calendarEvent && members == [] && iterations == []
    {
      this.calendarEvent := calendarEvent;
      members := [];
      iterations := [];
    }

    /** _memberCallback: the first member named by the trimmed value, or else the whole team. */
    method MemberCallback(value: string)
      modifies calendarEvent`member
      ensures match MemberIndex(members, Trim(value))
        case Some(i) => calendarEvent.member == members[i]
        case None => calendarEvent.member == Identity(Everyone, None)
    {
      var member := MemberIndex(members, Trim(value));
      if member.Some? {
        calendarEvent.member := members[member.value];
      } else {
        calendarEvent.member := Identity(Everyone, None);
      }
    }

    /** _iterationCallback: the id of the first iteration named by the trimmed value; unchanged when none is. */
    method IterationCallback(value: string)
      modifies calendarEvent`iterationId
      ensures match IterationIndex(iterations, Trim(value))
        case Some(i) => calendarEvent.iterationId == Some(iterations[i].id)
        case None => calendarEvent.iterationId == old(calendarEvent.iterationId)
    {
      var iteration := IterationIndex(iterations, Trim(value));
      if iteration.Some? {
        calendarEvent.iterationId := Some(iterations[iteration.value].id);
      }
    }
  }
}
