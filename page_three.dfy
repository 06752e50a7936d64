/** The third wizard step, src/components/onboarding/pageThree.tsx: up to
    three subjects (picked from a list of common ones or typed in), the note
    format and the curriculum. Submitting a valid step is the wizard's
    `handleFinish`. Case mapping is the ASCII one of the Text module. */
module PageThree {
  import opened Common
  import Text
  import Schema
  import OnboardingPage
  import OnboardingController

  const MaxSubjects: nat := 3

  /** `COMMON_SUBJECTS`. */
  const CommonSubjects: seq<string> :=
    ["Mathematics", "English Language", "Physics", "Chemistry", "Biology", "Economics", "History", "Civic Education"]

  /** No value occurs twice. */
  ghost predicate Distinct(s: seq<string>) {
    forall t :: multiset(s)[t] <= 1
  }

  /** `s.filter(t => t !== x)`. */
  function Without(s: seq<string>, x: string): (r: seq<string>)
    ensures multiset(r) == multiset(s)[x := 0]
    ensures x !in s ==> r == s
  {
    if s == [] then []
    else
      assert s == [s[0]] + s[1..];
      if s[0] == x then Without(s[1..], x) else [s[0]] + Without(s[1..], x)
  }

  /** `toggleSubject`: remove a selected subject, add an unselected one while
      there is room, otherwise do nothing. */
  function Toggle(s: seq<string>, x: string): (r: seq<string>)
    ensures x in s ==> multiset(r) == multiset(s)[x := 0]
    ensures x !in s && |s| < MaxSubjects ==> r == s + [x]
    ensures x !in s && |s| >= MaxSubjects ==> r == s
  {
    if x in s then Without(s, x)
    else if |s| < MaxSubjects then s + [x]
    else s
  }

  /** `subject.charAt(0).toUpperCase() + subject.slice(1)`. */
  function Capitalize(s: string): (r: string)
    ensures |r| == |s|
    ensures s != [] ==> r[0] == Text.ToUpperChar(s[0]) && r[1..] == s[1..]
  {
    if s == [] then [] else [Text.ToUpperChar(s[0])] + s[1..]
  }

  /** `subjects.map(s => s.toLowerCase())`. */
  function LowerAll(s: seq<string>): (r: seq<string>)
    ensures |r| == |s|
    ensures forall i :: 0 <= i < |s| ==> r[i] == Text.Lower(s[i])
  {
    seq(|s|, i requires 0 <= i < |s| => Text.Lower(s[i]))
  }

  /** `handleAddCustomSubject` on the list and the input box: the trimmed
      input is added, capitalised, when it is non-empty, not already chosen
      in any letter case, and there is room; the box is then cleared.
      Otherwise both stay as they are. */
  function AddCustom(s: seq<string>, input: string): (r: (seq<string>, string))
    ensures var subject := Text.Trim(input);
            if subject != "" && Text.Lower(subject) !in LowerAll(s) && |s| < MaxSubjects
            then r == (s + [Capitalize(subject)], "")
            else r == (s, input)
  {
    var subject := Text.Trim(input);
    if subject != "" && Text.Lower(subject) !in LowerAll(s) && |s| < MaxSubjects then
      (s + [Capitalize(subject)], "")
    else (s, input)
  }

  /** `isValid`: one to three subjects, a note format and a curriculum. */
  predicate IsValid(d: OnboardingPage.OnboardingData) {
    0 < |d.subjectTaught| <= MaxSubjects && d.preferredNoteFormat != "" && d.curriculumStandard != ""
  }

  /** A common-subject button is disabled when it is not selected and the
      list is full. */
  predicate ToggleDisabled(s: seq<string>, x: string) {
    x !in s && |s| >= MaxSubjects
  }

  /** The add button is disabled when the trimmed input is empty or the list
      is full. */
  predicate AddDisabled(s: seq<string>, input: string) {
    Text.Trim(input) == "" || |s| >= MaxSubjects
  }

  datatype Field = PreferredNoteFormat | CurriculumStandard

  function Value(d: OnboardingPage.OnboardingData, f: Field): string {
    match f
    case PreferredNoteFormat => d.preferredNoteFormat
    case CurriculumStandard => d.curriculumStandard
  }

  class Step {
    var customInput: string
    var touchedNoteFormat: bool
    var touchedCurriculum: bool

    function Touched(f: Field): bool
      reads this
    {
      match f
      case PreferredNoteFormat => touchedNoteFormat
      case CurriculumStandard => touchedCurriculum
    }

    /** `showError(f)`. */
    function ShowError(f: Field, d: OnboardingPage.OnboardingData): (b: bool)
      reads this
      ensures b <==> Touched(f) && Value(d, f) == ""
    {
      Touched(f) && Value(d, f) == ""
    }

    constructor ()
      ensures customInput == "" && !touchedNoteFormat && !touchedCurriculum
    {
      customInput, touchedNoteFormat, touchedCurriculum := "", false, false;
    }

    /** Typing into the custom subject box. */
    method ChangeCustomInput(v: string)
      modifies this
      ensures customInput == v
      ensures touchedNoteFormat == old(touchedNoteFormat) && touchedCurriculum == old(touchedCurriculum)
    {
      customInput := v;
    }

    /** Clicking a common subject. */
    method ToggleSubject(w: OnboardingPage.Wizard, x: string)
      modifies w
      ensures w.data == old(w.data).(subjectTaught := Toggle(old(w.data.subjectTaught), x))
      ensures w.page == old(w.page) && w.navigatedTo == old(w.navigatedTo)
    {
      w.SetData(OnboardingPage.NoChange.(subjectTaught := Some(Toggle(w.data.subjectTaught, x))));
    }

    /** The add button, or Enter in the custom subject box. */
    method AddCustomSubject(w: OnboardingPage.Wizard)
      modifies this, w
      ensures var r := AddCustom(old(w.data.subjectTaught), old(customInput));
              w.data == old(w.data).(subjectTaught := r.0) && customInput == r.1
      ensures w.page == old(w.page) && w.navigatedTo == old(w.navigatedTo)
      ensures touchedNoteFormat == old(touchedNoteFormat) && touchedCurriculum == old(touchedCurriculum)
    {
      var subject := Text.Trim(customInput);
      var s := w.data.subjectTaught;
      if subject != "" && Text.Lower(subject) !in LowerAll(s) && |s| < MaxSubjects {
        w.SetData(OnboardingPage.NoChange.(subjectTaught := Some(s + [Capitalize(subject)])));
        customInput := "";
      }
    }

    /** `handleRemoveSubject`: the cross on a chosen subject. */
    method RemoveSubject(w: OnboardingPage.Wizard, x: string)
      modifies w
      ensures w.data == old(w.data).(subjectTaught := Without(old(w.data.subjectTaught), x))
      ensures w.page == old(w.page) && w.navigatedTo == old(w.navigatedTo)
    {
      w.SetData(OnboardingPage.NoChange.(subjectTaught := Some(Without(w.data.subjectTaught, x))));
    }

    /** Choosing a note format. */
    method ChangeNoteFormat(w: OnboardingPage.Wizard, v: string)
      modifies this, w
      ensures w.data == old(w.data).(preferredNoteFormat := v)
      ensures w.page == old(w.page) && w.navigatedTo == old(w.navigatedTo)
      ensures touchedNoteFormat && touchedCurriculum == old(touchedCurriculum) && customInput == old(customInput)
    {
      w.SetData(OnboardingPage.NoChange.(preferredNoteFormat := Some(v)));
      if !touchedNoteFormat {
        touchedNoteFormat := true;
      }
    }

    /** Opening or closing the note format menu. */
    method OpenChangeNoteFormat(open: bool)
      modifies this
      ensures touchedNoteFormat == (old(touchedNoteFormat) || !open)
      ensures touchedCurriculum == old(touchedCurriculum) && customInput == old(customInput)
    {
      if !open && !touchedNoteFormat {
        touchedNoteFormat := true;
      }
    }

    /** Choosing a curriculum. */
    method ChangeCurriculum(w: OnboardingPage.Wizard, v: string)
      modifies this, w
      ensures w.data == old(w.data).(curriculumStandard := v)
      ensures w.page == old(w.page) && w.navigatedTo == old(w.navigatedTo)
      ensures touchedCurriculum && touchedNoteFormat == old(touchedNoteFormat) && customInput == old(customInput)
    {
      w.SetData(OnboardingPage.NoChange.(curriculumStandard := Some(v)));
      if !touchedCurriculum {
        touchedCurriculum := true;
      }
    }

    /** Opening or closing the curriculum menu. */
    method OpenChangeCurriculum(open: bool)
      modifies this
      ensures touchedCurriculum == (old(touchedCurriculum) || !open)
      ensures touchedNoteFormat == old(touchedNoteFormat) && customInput == old(customInput)
    {
      if !open && !touchedCurriculum {
        touchedCurriculum := true;
      }
    }

    /** `handleSubmit`: a valid step finishes the wizard (the wizard's
      `handleFinish`, which calls the save action); an invalid one marks
      both selects touched and sends nothing. */
    method HandleSubmit(w: OnboardingPage.Wizard, db: Schema.Store, session: Option<User>, newId: string, now: int)
      returns (reply: Option<OnboardingController.Reply>)
      requires w.Valid() && db.Valid()
      modifies this, w, db
      ensures w.Valid() && db.Valid()
      ensures w.page == old(w.page) && w.data == old(w.data)
      ensures IsValid(old(w.data)) ==>
                var out := OnboardingController.SaveOutcome(old(db.onboarding), session,
                                                            OnboardingPage.FinishForm(old(w.data)), newId, now);
                reply == Some(out.reply) && db.onboarding == out.onboarding
                && w.navigatedTo == (if reply.value.success then Some(OnboardingPage.NewsFeed) else old(w.navigatedTo))
                && touchedNoteFormat == old(touchedNoteFormat) && touchedCurriculum == old(touchedCurriculum)
      ensures !IsValid(old(w.data)) ==>
                reply.None? && w.navigatedTo == old(w.navigatedTo)
                && db.onboarding == old(db.onboarding) && touchedNoteFormat && touchedCurriculum
      ensures db.settings == old(db.settings) && db.languages == old(db.languages)
    {
      if IsValid(w.data) {
        var r := w.HandleFinish(db, session, newId, now);
        reply := Some(r);
      } else {
        touchedNoteFormat, touchedCurriculum := true, true;
        reply := None;
      }
    }
  }

  // ---------------------------------------------------------------------
  // Properties of the subject list

  /** Neither control lets the list grow past three subjects. */
  lemma SubjectsBounded(s: seq<string>, x: string, input: string)
    requires |s| <= MaxSubjects
    ensures |Toggle(s, x)| <= MaxSubjects
    ensures |AddCustom(s, input).0| <= MaxSubjects
    ensures |Without(s, x)| <= MaxSubjects
  {
    assert |Without(s, x)| == |multiset(Without(s, x))| <= |multiset(s)|;
  }

  /** Toggling keeps a list of distinct subjects distinct. */
  lemma ToggleKeepsDistinct(s: seq<string>, x: string)
    requires Distinct(s)
    ensures Distinct(Toggle(s, x))
  {
    if x !in s && |s| < MaxSubjects {
      assert multiset(s + [x]) == multiset(s) + multiset{x};
      assert multiset(s)[x] == 0;
    }
  }

  /** Removing a subject takes out every copy of it and keeps every other
      subject of the list. */
  lemma {:induction false} WithoutRemovesOnly(s: seq<string>, x: string)
    ensures x !in Without(s, x)
    ensures forall t :: t in Without(s, x) <==> t in s && t != x
  {
    assert multiset(Without(s, x)) == multiset(s)[x := 0];
    forall t ensures t in Without(s, x) <==> t in s && t != x {
      assert t in Without(s, x) <==> multiset(Without(s, x))[t] > 0;
      assert t in s <==> multiset(s)[t] > 0;
    }
  }

  /** Capitalising changes no letter as seen case-insensitively. */
  lemma CapitalizeSameLetters(s: string)
    ensures Text.Lower(Capitalize(s)) == Text.Lower(s)
  {
    if s != [] {
      var c := s[0];
      assert Text.ToLowerChar(Text.ToUpperChar(c)) == Text.ToLowerChar(c);
    }
  }

  /** Adding a custom subject keeps a list of distinct subjects distinct:
      the case-insensitive check also rules out the exact subject. */
  lemma AddCustomKeepsDistinct(s: seq<string>, input: string)
    requires Distinct(s)
    ensures Distinct(AddCustom(s, input).0)
  {
    var subject := Text.Trim(input);
    if subject != "" && Text.Lower(subject) !in LowerAll(s) && |s| < MaxSubjects {
      var c := Capitalize(subject);
      CapitalizeSameLetters(subject);
      assert c !in s;
      DistinctAppend(s, c);
    }
  }

  /** Adding a custom subject keeps the list distinct even ignoring case. */
  lemma AddCustomKeepsDistinctIgnoringCase(s: seq<string>, input: string)
    requires Distinct(LowerAll(s))
    ensures Distinct(LowerAll(AddCustom(s, input).0))
  {
    var subject := Text.Trim(input);
    if subject != "" && Text.Lower(subject) !in LowerAll(s) && |s| < MaxSubjects {
      var c := Capitalize(subject);
      CapitalizeSameLetters(subject);
      LowerAllAppend(s, c);
      DistinctAppend(LowerAll(s), Text.Lower(c));
    }
  }

  lemma LowerAllAppend(s: seq<string>, x: string)
    ensures LowerAll(s + [x]) == LowerAll(s) + [Text.Lower(x)]
  {
    assert |LowerAll(s + [x])| == |LowerAll(s) + [Text.Lower(x)]|;
    forall i | 0 <= i < |s| + 1 ensures LowerAll(s + [x])[i] == (LowerAll(s) + [Text.Lower(x)])[i] {
      assert (s + [x])[i] == if i < |s| then s[i] else x;
    }
  }

  /** Appending a new value to a list without repetitions keeps it so. */
  lemma DistinctAppend(l: seq<string>, x: string)
    requires Distinct(l) && x !in l
    ensures Distinct(l + [x])
  {
    assert multiset(l + [x]) == multiset(l) + multiset{x};
    assert multiset(l)[x] == 0;
  }

  /** An input of white space only is ignored, and the box keeps it. */
  lemma BlankInputIgnored(s: seq<string>, input: string)
    requires Text.AllSpace(input)
    ensures AddCustom(s, input) == (s, input)
  {
    Text.TrimEmptyIffAllSpace(input);
  }

  /** What the add control puts in is taken out again by its cross. */
  lemma RemoveUndoesAdd(s: seq<string>, input: string)
    requires AddCustom(s, input).0 != s
    ensures var c := Capitalize(Text.Trim(input));
            AddCustom(s, input).0 == s + [c] && Without(s + [c], c) == s
  {
    var subject := Text.Trim(input);
    var c := Capitalize(subject);
    CapitalizeSameLetters(subject);
    assert c !in s;
    WithoutAppend(s, [c], c);
  }

  lemma {:induction false} WithoutAppend(a: seq<string>, b: seq<string>, x: string)
    ensures Without(a + b, x) == Without(a, x) + Without(b, x)
  {
    if a == [] {
      assert a + b == b;
    } else {
      assert (a + b)[1..] == a[1..] + b;
      WithoutAppend(a[1..], b, x);
    }
  }

  /** Toggling an unselected subject twice restores the list; toggling a
      selected one twice moves it to the end. */
  lemma {:induction false} ToggleTwice(s: seq<string>, x: string)
    requires |s| <= MaxSubjects && (x !in s || Distinct(s))
    ensures x !in s && |s| < MaxSubjects ==> Toggle(Toggle(s, x), x) == s
    ensures x in s ==> multiset(Toggle(Toggle(s, x), x)) == multiset(s)
  {
    if x !in s && |s| < MaxSubjects {
      WithoutAppend(s, [x], x);
    } else if x in s {
      var t := Without(s, x);
      assert multiset(t)[x] == 0;
      assert x !in t;
      assert |t| < |s| by {
        assert |multiset(t)| < |multiset(s)| by {
          assert multiset(t) + multiset{x} == multiset(s);
        }
      }
      assert Toggle(t, x) == t + [x];
      assert multiset(t + [x]) == multiset(t) + multiset{x};
      assert multiset(t) + multiset{x} == multiset(s);
    }
  }

  /** The disabled controls would do nothing anyway. */
  lemma DisabledControlsAreIdle(s: seq<string>, x: string, input: string)
    ensures ToggleDisabled(s, x) ==> Toggle(s, x) == s
    ensures AddDisabled(s, input) ==> AddCustom(s, input) == (s, input)
  {
  }

  /** The common-subject buttons compare exactly while the custom box
      compares ignoring case, so after typing `civic education` (stored as
      `Civic education`) the button `Civic Education` adds the same subject
      a second time. */
  lemma ToggleIgnoresCustomCase(s: seq<string>)
    requires |s| < MaxSubjects && "Civic education" in s && "Civic Education" !in s
    ensures "Civic Education" in CommonSubjects
    ensures Toggle(s, "Civic Education") == s + ["Civic Education"]
    ensures !Distinct(LowerAll(Toggle(s, "Civic Education")))
  {
    var t := s + ["Civic Education"];
    var i :| 0 <= i < |s| && s[i] == "Civic education";
    assert Text.Lower("Civic education") == Text.Lower("Civic Education");
    assert LowerAll(t)[i] == LowerAll(t)[|s|];
    assert multiset(LowerAll(t))[Text.Lower("Civic education")] >= 2 by {
      var l := LowerAll(t);
      assert l == l[..i] + [l[i]] + l[i+1..|s|] + [l[|s|]];
    }
  }

  /** A custom subject is stored with only its first character upper-cased:
      the later letters keep the case they were typed in, so typing
      `civic education` stores `Civic education`. */
  lemma CustomKeepsLaterCase(input: string)
    requires input != [] && !Text.IsSpace(input[0]) && !Text.IsSpace(input[|input| - 1])
    ensures AddCustom([], input).0 == [[Text.ToUpperChar(input[0])] + input[1..]]
  {
    Text.TrimUnchanged(input);
    assert LowerAll([]) == [];
    var c := Capitalize(input);
    assert c == [c[0]] + c[1..];
  }

  /** The subjects a valid step submits are at most three distinct choices
      joined with commas. */
  lemma ValidStepSubmitsSubjects(d: OnboardingPage.OnboardingData)
    requires IsValid(d)
    requires forall k :: 0 <= k < |d.subjectTaught| ==> ',' !in d.subjectTaught[k]
    ensures 1 <= |Text.Split(OnboardingPage.FinishForm(d)["subjectTaught"], ',')| <= MaxSubjects
  {
    OnboardingPage.FinishFormSubjectsRoundTrip(d);
  }
}
