/** The state and handlers of the study-group creation form
    (frontend/src/Components/CreateStudyGroupModal.js): adding members by
    e-mail with a derived display name, removing them by position, and
    validating the form into a new group. */
module CreateGroup {
  import opened Wrappers
  import opened Text

  datatype Member = Member(name: string, email: string)

  /** The keys of the form's `errors` object. */
  datatype Field = GroupName | ClassCode | Members | MemberEmail

  /** The text inputs of the form, each bound to one state variable. */
  datatype Input = GroupNameInput | ClassCodeInput | MemberEmailInput
                 | MeetingDateInput | MeetingTimeInput | LocationInput

  /** The object handed to `onCreateGroup`. */
  datatype Group = Group(id: string, name: string, members: seq<string>,
                         meetingDate: string, meetingTime: string, location: string)

  const InvalidEmail := "Please enter a valid email"
  const GroupNameRequired := "Group name is required"
  const ClassCodeRequired := "Class code is required"
  const MemberRequired := "At least one member is required"

  // ---------------------------------------------------------------------
  // Display names

  /** `word.charAt(0).toUpperCase() + word.slice(1)`. */
  function Capitalize(w: string): (r: string)
    ensures |r| == |w|
    ensures w != [] ==> r[0] == ToUpper(w[0]) && r[1..] == w[1..]
  {
    if w == [] then [] else [ToUpper(w[0])] + w[1..]
  }

  function CapitalizeAll(ws: seq<string>): (r: seq<string>)
    ensures |r| == |ws|
    ensures forall i :: 0 <= i < |ws| ==> r[i] == Capitalize(ws[i])
  {
    seq(|ws|, i requires 0 <= i < |ws| => Capitalize(ws[i]))
  }

  /** The display name `handleAddMember` derives from an e-mail: the part
      before the first '@', dots turned into spaces, the first letter of
      each space-separated word upper-cased. */
  function DisplayName(email: string): string
  {
    Join(CapitalizeAll(Split(ReplaceChar(Split(email, '@')[0], '.', ' '), ' ')), ' ')
  }

  /** An independent, character-by-character reading of the same rule: a
      character is upper-cased exactly when it starts the string or follows
      a space. */
  function TitleCase(s: string, atWordStart: bool): (r: string)
    ensures |r| == |s|
    ensures s != [] ==> r[0] == if atWordStart then ToUpper(s[0]) else s[0]
    ensures forall i :: 0 < i < |s| ==> r[i] == if s[i - 1] == ' ' then ToUpper(s[i]) else s[i]
  {
    if s == [] then []
    else [if atWordStart then ToUpper(s[0]) else s[0]] + TitleCase(s[1..], s[0] == ' ')
  }

  /** Joining the pieces with the first one capitalised or not. */
  function Render(ws: seq<string>, capitalizeFirst: bool): string
    requires |ws| >= 1
  {
    Join([if capitalizeFirst then Capitalize(ws[0]) else ws[0]] + CapitalizeAll(ws[1..]), ' ')
  }

  lemma {:induction false} JoinHeadChar(c: char, w: string, ws: seq<string>, sep: char)
    ensures Join([[c] + w] + ws, sep) == [c] + Join([w] + ws, sep)
  {
    if ws != [] {
      assert ([[c] + w] + ws)[1..] == ws;
      assert ([w] + ws)[1..] == ws;
    }
  }

  lemma CapitalizeAllCons(ws: seq<string>)
    requires |ws| >= 1
    ensures CapitalizeAll(ws) == [Capitalize(ws[0])] + CapitalizeAll(ws[1..])
  {
    assert CapitalizeAll(ws)[1..] == CapitalizeAll(ws[1..]);
  }

  lemma JoinEmptyHead(ws: seq<string>, sep: char)
    requires |ws| >= 1
    ensures Join([[]] + ws, sep) == [sep] + Join(ws, sep)
  {
    assert ([[]] + ws)[1..] == ws;
  }

  /** A leading space ends an empty first word. */
  lemma RenderLeadingSpace(s: string, capitalizeFirst: bool)
    requires s != [] && s[0] == ' '
    requires Render(Split(s[1..], ' '), true) == TitleCase(s[1..], true)
    ensures Render(Split(s, ' '), capitalizeFirst) == TitleCase(s, capitalizeFirst)
  {
    var rest := Split(s[1..], ' ');
    var ws := [[]] + rest;
    assert Split(s, ' ') == ws;
    assert ws[0] == [] && ws[1..] == rest;
    CapitalizeAllCons(rest);
    var capped := CapitalizeAll(rest);
    assert Render(ws, capitalizeFirst) == Join([[]] + capped, ' ');
    JoinEmptyHead(capped, ' ');
    assert ToUpper(' ') == ' ';
  }

  /** Any other first character joins the first word. */
  lemma RenderLeadingLetter(s: string, capitalizeFirst: bool)
    requires s != [] && s[0] != ' '
    requires Render(Split(s[1..], ' '), false) == TitleCase(s[1..], false)
    ensures Render(Split(s, ' '), capitalizeFirst) == TitleCase(s, capitalizeFirst)
  {
    var rest := Split(s[1..], ' ');
    var ws := [[s[0]] + rest[0]] + rest[1..];
    assert Split(s, ' ') == ws;
    assert ws[1..] == rest[1..];
    var c := if capitalizeFirst then ToUpper(s[0]) else s[0];
    assert (if capitalizeFirst then Capitalize(ws[0]) else ws[0]) == [c] + rest[0];
    JoinHeadChar(c, rest[0], CapitalizeAll(rest[1..]), ' ');
  }

  lemma {:induction false} RenderIsTitleCase(s: string, capitalizeFirst: bool)
    ensures Render(Split(s, ' '), capitalizeFirst) == TitleCase(s, capitalizeFirst)
  {
    if s != [] {
      RenderIsTitleCase(s[1..], s[0] == ' ');
      if s[0] == ' ' {
        RenderLeadingSpace(s, capitalizeFirst);
      } else {
        RenderLeadingLetter(s, capitalizeFirst);
      }
    }
  }

  /** The display name, character by character, in terms of the part of
      the e-mail before its first '@'. */
  lemma DisplayNameChars(email: string) returns (local: string)
    ensures |local| <= |email| && local == email[..|local|] && '@' !in local
    ensures |local| < |email| ==> email[|local|] == '@'
    ensures |DisplayName(email)| == |local|
    ensures forall i :: 0 <= i < |local| ==> (DisplayName(email)[i] ==
      if local[i] == '.' then ' '
      else if i == 0 || local[i - 1] == '.' || local[i - 1] == ' ' then ToUpper(local[i])
      else local[i])
  {
    local := Split(email, '@')[0];
    SplitFirst(email, '@');
    var spaced := ReplaceChar(local, '.', ' ');
    RenderIsTitleCase(spaced, true);
    var ws := Split(spaced, ' ');
    assert CapitalizeAll(ws) == [Capitalize(ws[0])] + CapitalizeAll(ws[1..]);
    assert DisplayName(email) == TitleCase(spaced, true);
    assert ToUpper(' ') == ' ';
    forall i | 0 <= i < |local|
      ensures DisplayName(email)[i] ==
        if local[i] == '.' then ' '
        else if i == 0 || local[i - 1] == '.' || local[i - 1] == ' ' then ToUpper(local[i])
        else local[i]
    {
      if i > 0 {
        assert spaced[i - 1] == ' ' <==> local[i - 1] == '.' || local[i - 1] == ' ';
      }
    }
  }

  // ---------------------------------------------------------------------
  // Validation

  /** The test `handleAddMember` applies to the e-mail input. */
  predicate EmailAccepted(email: string)
  {
    Trim(email) != [] && '@' in email
  }

  /** The blank test is implied by the '@' test: an e-mail is accepted
      exactly when it contains '@'. */
  lemma EmailAcceptedIffAt(email: string)
    ensures EmailAccepted(email) <==> '@' in email
  {
    TrimEmptyIffBlank(email);
    if '@' in email {
      var i :| 0 <= i < |email| && email[i] == '@';
      assert !IsSpace(email[i]);
    }
  }

  /** The `newErrors` object of `handleCreateGroup`. */
  function ValidationErrors(groupName: string, classCode: string, members: seq<Member>): (r: map<Field, Option<string>>)
    ensures GroupName in r <==> Trim(groupName) == []
    ensures ClassCode in r <==> Trim(classCode) == []
    ensures Members in r <==> members == []
    ensures MemberEmail !in r
    ensures forall f :: f in r ==> r[f] == Some(Message(f))
  {
    var noName := Trim(groupName) == [];
    var noCode := Trim(classCode) == [];
    map f: Field | (f == GroupName && noName) || (f == ClassCode && noCode) || (f == Members && members == [])
      :: Some(Message(f))
  }

  /** The message each validation error shows. */
  function Message(f: Field): string
  {
    match f
    case GroupName => GroupNameRequired
    case ClassCode => ClassCodeRequired
    case Members => MemberRequired
    case MemberEmail => InvalidEmail
  }

  /** The form is accepted exactly when the group name and class code are
      not blank and there is at least one member. */
  lemma ValidationPasses(groupName: string, classCode: string, members: seq<Member>)
    ensures ValidationErrors(groupName, classCode, members) == map[] <==>
      !IsBlank(groupName) && !IsBlank(classCode) && |members| >= 1
  {
    TrimEmptyIffBlank(groupName);
    TrimEmptyIffBlank(classCode);
    var r := ValidationErrors(groupName, classCode, members);
    if r != map[] {
      var f :| f in r;
    }
  }

  /** The group built from the form; `now` stands for `Date.now()`. */
  function NewGroup(now: int, groupName: string, classCode: string, members: seq<Member>,
                    meetingDate: string, meetingTime: string, location: string): (g: Group)
    ensures g.id == "group-" + IntToString(now)
    ensures g.name == classCode + " " + groupName
    ensures |g.members| == |members| + 1 && g.members[0] == "You"
    ensures forall i :: 0 <= i < |members| ==> g.members[i + 1] == members[i].name
    ensures g.meetingDate == meetingDate && g.meetingTime == meetingTime && g.location == location
  {
    Group("group-" + IntToString(now), classCode + " " + groupName,
          ["You"] + seq(|members|, i requires 0 <= i < |members| => members[i].name),
          meetingDate, meetingTime, location)
  }

  // ---------------------------------------------------------------------
  // Removal by position

  /** Where `splice(index, 1)` starts for a list of length `n`: a negative
      index counts from the end and is clamped at 0, a large one at `n`. */
  function SpliceStart(index: int, n: nat): (k: nat)
    ensures k <= n
    ensures 0 <= index <= n ==> k == index
    ensures index < 0 && 0 <= n + index ==> k == n + index
    ensures n + index < 0 ==> k == 0
    ensures index > n ==> k == n
  {
    if index < 0 then (if n + index < 0 then 0 else n + index)
    else if index > n then n
    else index
  }

  /** The list with the element at `k` removed, or unchanged when `k` is
      past its end. */
  function RemoveAt<T>(s: seq<T>, k: nat): (r: seq<T>)
    ensures k < |s| ==> (|r| == |s| - 1
      && (forall i :: 0 <= i < k ==> r[i] == s[i])
      && (forall i :: k <= i < |r| ==> r[i] == s[i + 1]))
    ensures k >= |s| ==> r == s
  {
    if k < |s| then s[..k] + s[k + 1..] else s
  }

  /** Removing a member keeps every other member, in order: the removed
      one and the rest together are the original list. */
  lemma RemoveAtPermutes<T>(s: seq<T>, k: nat)
    requires k < |s|
    ensures multiset(RemoveAt(s, k)) + multiset{s[k]} == multiset(s)
  {
    assert s == s[..k] + [s[k]] + s[k + 1..];
  }

  /** Removing the member just added restores the list, whether it is
      addressed from the front or as index -1. */
  lemma RemoveUndoesAppend<T>(s: seq<T>, x: T)
    ensures RemoveAt(s + [x], SpliceStart(|s|, |s| + 1)) == s
    ensures RemoveAt(s + [x], SpliceStart(-1, |s| + 1)) == s
  {
    assert (s + [x])[..|s|] == s;
  }

  // ---------------------------------------------------------------------
  // The form

  /** A snapshot of the form's state variables. */
  datatype FormState = FormState(groupName: string, classCode: string, members: seq<Member>,
    memberEmail: string, meetingDate: string, meetingTime: string, location: string,
    errors: map<Field, Option<string>>)

  /** What `handleAddMember` does to the state. */
  function AddMemberStep(s: FormState): FormState
  {
    if !EmailAccepted(s.memberEmail) then s.(errors := s.errors[MemberEmail := Some(InvalidEmail)])
    else s.(errors := s.errors[MemberEmail := None],
            members := s.members + [Member(DisplayName(s.memberEmail), s.memberEmail)],
            memberEmail := [])
  }

  /** An e-mail containing '@' is added under its display name and the
      input is cleared; any other text only sets the e-mail error. */
  lemma AddMemberStepMeaning(s: FormState)
    ensures '@' !in s.memberEmail ==>
      AddMemberStep(s) == s.(errors := s.errors[MemberEmail := Some(InvalidEmail)])
    ensures '@' in s.memberEmail ==>
      AddMemberStep(s) == s.(errors := s.errors[MemberEmail := None],
        members := s.members + [Member(DisplayName(s.memberEmail), s.memberEmail)],
        memberEmail := [])
  {
    EmailAcceptedIffAt(s.memberEmail);
  }

  /** What `handleCreateGroup` does to the state, and the group it hands on. */
  function CreateGroupStep(s: FormState, now: int): (FormState, Option<Group>)
  {
    var newErrors := ValidationErrors(s.groupName, s.classCode, s.members);
    if |newErrors.Keys| > 0 then (s.(errors := newErrors), None)
    else (s, Some(NewGroup(now, s.groupName, s.classCode, s.members, s.meetingDate, s.meetingTime, s.location)))
  }

  /** With a blank group name, a blank class code or no member, the errors
      are replaced and no group is made; otherwise the state is untouched
      and the group is built from it. */
  lemma CreateGroupStepMeaning(s: FormState, now: int)
    ensures (IsBlank(s.groupName) || IsBlank(s.classCode) || s.members == []) ==>
      CreateGroupStep(s, now).1.None?
      && CreateGroupStep(s, now).0 == s.(errors := ValidationErrors(s.groupName, s.classCode, s.members))
    ensures !(IsBlank(s.groupName) || IsBlank(s.classCode) || s.members == []) ==>
      CreateGroupStep(s, now) == (s, Some(NewGroup(now, s.groupName, s.classCode, s.members,
                                                   s.meetingDate, s.meetingTime, s.location)))
  {
    ValidationPasses(s.groupName, s.classCode, s.members);
    var newErrors := ValidationErrors(s.groupName, s.classCode, s.members);
    if newErrors != map[] {
      var f :| f in newErrors;
      assert f in newErrors.Keys;
    }
  }

  class Form {
    var groupName: string
    var classCode: string
    var members: seq<Member>
    var memberEmail: string
    var meetingDate: string
    var meetingTime: string
    var location: string
    /** A key absent is a key never set; `None` is the `null` written when
        an e-mail is accepted. */
    var errors: map<Field, Option<string>>

    function State(): FormState
      reads this
    {
      FormState(groupName, classCode, members, memberEmail, meetingDate, meetingTime, location, errors)
    }

    constructor()
      ensures groupName == [] && classCode == [] && members == [] && memberEmail == []
      ensures meetingDate == [] && meetingTime == [] && location == [] && errors == map[]
    {
      groupName, classCode, members, memberEmail := [], [], [], [];
      meetingDate, meetingTime, location, errors := [], [], [], map[];
    }

    /** An input's `onChange`: the bound state variable takes the text. */
    method Edit(input: Input, value: string)
      modifies this
      ensures groupName == if input == GroupNameInput then value else old(groupName)
      ensures classCode == if input == ClassCodeInput then value else old(classCode)
      ensures memberEmail == if input == MemberEmailInput then value else old(memberEmail)
      ensures meetingDate == if input == MeetingDateInput then value else old(meetingDate)
      ensures meetingTime == if input == MeetingTimeInput then value else old(meetingTime)
      ensures location == if input == LocationInput then value else old(location)
      ensures members == old(members) && errors == old(errors)
    {
      match input
      case GroupNameInput => groupName := value;
      case ClassCodeInput => classCode := value;
      case MemberEmailInput => memberEmail := value;
      case MeetingDateInput => meetingDate := value;
      case MeetingTimeInput => meetingTime := value;
      case LocationInput => location := value;
    }

    /** `handleAddMember`. */
    method AddMember()
      modifies this
      ensures State() == AddMemberStep(old(State()))
    {
      if !EmailAccepted(memberEmail) {
        errors := errors[MemberEmail := Some(InvalidEmail)];
        return;
      }
      errors := errors[MemberEmail := None];
      var formattedName := DisplayName(memberEmail);
      members := members + [Member(formattedName, memberEmail)];
      memberEmail := [];
    }

    /** `handleRemoveMember(index)`. */
    method RemoveMember(index: int)
      modifies this
      ensures members == RemoveAt(old(members), SpliceStart(index, |old(members)|))
      ensures groupName == old(groupName) && classCode == old(classCode) && memberEmail == old(memberEmail)
      ensures meetingDate == old(meetingDate) && meetingTime == old(meetingTime) && location == old(location)
      ensures errors == old(errors)
    {
      var start := SpliceStart(index, |members|);
      members := RemoveAt(members, start);
    }

    /** `handleCreateGroup`: the group passed to `onCreateGroup`, or `None`
        when validation fails. */
    method CreateGroup(now: int) returns (g: Option<Group>)
      modifies this
      ensures (State(), g) == CreateGroupStep(old(State()), now)
    {
      var newErrors := ValidationErrors(groupName, classCode, members);
      if |newErrors.Keys| > 0 {
        errors := newErrors;
        return None;
      }
      return Some(NewGroup(now, groupName, classCode, members, meetingDate, meetingTime, location));
    }
  }
}
