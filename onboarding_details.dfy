/** The teaching-preferences card of
    src/components/profileComponent/onboardingDetails.tsx: the labels it
    shows for enum values, its edit dialog with five fields, the save that
    calls `updateOnboardingAction`, and the cancel that restores the values
    the card was given. Toasts are results; the action's reply is returned
    too, although the card ignores it. */
module OnboardingDetails {
  import opened Common
  import Text
  import Schema
  import ProfileSchema
  import SettingsController

  // ---------------------------------------------------------------------
  // Display labels

  /** `formatMap`: the label of every enum value the card shows. */
  const FormatMap: map<string, string> := map[
    "basic_1_6" := "Basic (Primary 1-6)",
    "jss_1_3" := "JSS (JSS 1-3)",
    "sss_1_3" := "SSS (SSS 1-3)",
    "government" := "Government (Public)",
    "private" := "Private",
    "mission" := "Mission/Faith-Based",
    "international" := "International",
    "national" := "National (NERDC)",
    "waec" := "WAEC",
    "neco" := "NECO",
    "state" := "State-Specific",
    "structured_table" := "Structured Table",
    "paragraph_style" := "Paragraph Style",
    "detailed_breakdown" := "Detailed Breakdown"]

  const NotSet: string := "Not set"

  /** A character of the regular-expression class `\w`. */
  predicate IsWordChar(c: char) {
    Text.IsUpper(c) || Text.IsLower(c) || Text.IsDigit(c) || c == '_'
  }

  /** `value.replace(/_/g, ' ')`. */
  function Underscores(s: string): (r: string)
    ensures |r| == |s|
    ensures forall i :: 0 <= i < |s| ==> r[i] == (if s[i] == '_' then ' ' else s[i])
    ensures '_' !in r
  {
    seq(|s|, i requires 0 <= i < |s| => if s[i] == '_' then ' ' else s[i])
  }

  /** `\b\w` matches at `i`: a word character not preceded by one. */
  predicate WordStart(t: string, i: int)
    requires 0 <= i < |t|
  {
    IsWordChar(t[i]) && (i == 0 || !IsWordChar(t[i - 1]))
  }

  /** The fallback label: underscores become spaces and the first character
      of every word is upper-cased. */
  function TitleCase(s: string): (r: string)
    ensures |r| == |s|
    ensures forall i :: 0 <= i < |s| ==>
              r[i] == (if WordStart(Underscores(s), i) then Text.ToUpperChar(Underscores(s)[i]) else Underscores(s)[i])
  {
    var t := Underscores(s);
    seq(|t|, i requires 0 <= i < |t| => if WordStart(t, i) then Text.ToUpperChar(t[i]) else t[i])
  }

  /** `formatDisplay(value)`. Every label in the map is non-empty, so the
      `||` fallback is taken exactly for values outside the map. */
  function FormatDisplay(v: string): (r: string)
    ensures v == "" ==> r == NotSet
    ensures v != "" && v in FormatMap ==> r == FormatMap[v]
    ensures v != "" && v !in FormatMap ==> r == TitleCase(v)
  {
    if v == "" then NotSet
    else if v in FormatMap && FormatMap[v] != "" then FormatMap[v]
    else TitleCase(v)
  }

  /** Every value of the four database enums the card edits has its own
      label. */
  lemma EveryEnumValueLabelled(v: string)
    requires v in Schema.TeachingLevels || v in Schema.SchoolTypes
          || v in Schema.CurriculumStandards || v in Schema.NoteFormats
    ensures v in FormatMap && FormatDisplay(v) == FormatMap[v]
  {
  }

  /** The fallback never leaves an underscore, keeps every letter up to case,
      and applying it again changes nothing. */
  lemma TitleCaseLaws(s: string)
    ensures '_' !in TitleCase(s)
    ensures Text.Lower(TitleCase(s)) == Text.Lower(Underscores(s))
    ensures TitleCase(TitleCase(s)) == TitleCase(s)
  {
    var t := Underscores(s);
    var r := TitleCase(s);
    forall i | 0 <= i < |r|
      ensures r[i] != '_'
      ensures Text.ToLowerChar(r[i]) == Text.ToLowerChar(t[i])
      ensures IsWordChar(r[i]) == IsWordChar(t[i])
    {
    }
    assert Underscores(r) == r;
    forall i | 0 <= i < |r|
      ensures WordStart(r, i) == WordStart(t, i)
    {
    }
  }

  /** "Not set" is shown exactly for the empty value. */
  lemma NotSetOnlyForEmpty(v: string)
    ensures FormatDisplay(v) == NotSet <==> v == ""
  {
    if v != "" && v !in FormatMap && |v| == |NotSet| {
      var t := Underscores(v);
      var r := TitleCase(v);
      assert NotSet[3] == ' ' && NotSet[4] == 's';
      if IsWordChar(t[3]) {
        assert IsWordChar(r[3]);
        assert r[3] != NotSet[3];
      } else if IsWordChar(t[4]) {
        assert WordStart(t, 4);
        assert !Text.IsLower(r[4]);
        assert r[4] != NotSet[4];
      } else {
        assert r[4] == t[4];
        assert r[4] != NotSet[4];
      }
    }
  }

  // ---------------------------------------------------------------------
  // The card

  /** The card's `profile` prop: each field may be missing. */
  datatype Props = Props(
    subjectTaught: Option<string>,
    teachingLevel: Option<string>,
    curriculumStandard: Option<string>,
    preferredNoteFormat: Option<string>,
    schoolType: Option<string>)

  /** The five edited values. */
  datatype Prefs = Prefs(
    subjectTaught: string,
    teachingLevel: string,
    curriculumStandard: string,
    preferredNoteFormat: string,
    schoolType: string)

  /** The values the dialog starts from: each prop, or `""` (`prop || ""`). */
  function Initial(p: Props): (r: Prefs)
    ensures r.subjectTaught == p.subjectTaught.GetOr("")
    ensures r.teachingLevel == p.teachingLevel.GetOr("")
    ensures r.curriculumStandard == p.curriculumStandard.GetOr("")
    ensures r.preferredNoteFormat == p.preferredNoteFormat.GetOr("")
    ensures r.schoolType == p.schoolType.GetOr("")
  {
    Prefs(p.subjectTaught.GetOr(""), p.teachingLevel.GetOr(""), p.curriculumStandard.GetOr(""),
          p.preferredNoteFormat.GetOr(""), p.schoolType.GetOr(""))
  }

  /** `isFormValid`, which enables the save button: every value non-blank. */
  predicate IsFormValid(p: Prefs) {
    Text.Trim(p.subjectTaught) != "" && Text.Trim(p.teachingLevel) != ""
    && Text.Trim(p.curriculumStandard) != "" && Text.Trim(p.preferredNoteFormat) != ""
    && Text.Trim(p.schoolType) != ""
  }

  /** `isProfileComplete`, the badge: every value non-empty, untrimmed. */
  predicate IsProfileComplete(p: Prefs) {
    p.subjectTaught != "" && p.teachingLevel != "" && p.curriculumStandard != ""
    && p.preferredNoteFormat != "" && p.schoolType != ""
  }

  /** The guard at the top of `handleSave`: only the subject is trimmed. */
  predicate SaveGuard(p: Prefs) {
    Text.Trim(p.subjectTaught) != "" && p.teachingLevel != "" && p.curriculumStandard != ""
    && p.preferredNoteFormat != "" && p.schoolType != ""
  }

  /** The form data the save sends: the subject trimmed, the rest verbatim. */
  function SaveForm(p: Prefs): (fd: FormData)
    ensures fd.Keys == {"subjectTaught", "teachingLevel", "curriculumStandard", "preferredNoteFormat", "schoolType"}
    ensures fd["subjectTaught"] == Text.Trim(p.subjectTaught) && fd["teachingLevel"] == p.teachingLevel
    ensures fd["curriculumStandard"] == p.curriculumStandard
    ensures fd["preferredNoteFormat"] == p.preferredNoteFormat && fd["schoolType"] == p.schoolType
  {
    map["subjectTaught" := Text.Trim(p.subjectTaught), "teachingLevel" := p.teachingLevel,
        "curriculumStandard" := p.curriculumStandard, "preferredNoteFormat" := p.preferredNoteFormat,
        "schoolType" := p.schoolType]
  }

  datatype Toast = Success(text: string) | Failure(text: string)

  const FillRequiredMessage: string := "Please fill in all required fields."
  const PreferencesSavedMessage: string := "Teaching preferences updated successfully! \U{1F389}"

  datatype PrefField = TeachingLevel | CurriculumStandard | PreferredNoteFormat | SchoolType

  class DetailsCard {
    const props: Props
    var open: bool
    var prefs: Prefs

    constructor (props: Props)
      ensures this.props == props && !open && prefs == Initial(props)
    {
      this.props := props;
      open := false;
      prefs := Initial(props);
    }

    /** The dialog's `onOpenChange`. */
    method SetOpen(b: bool)
      modifies this
      ensures open == b && prefs == old(prefs)
    {
      open := b;
    }

    /** Typing into the subject box. */
    method ChangeSubject(v: string)
      modifies this
      ensures prefs == old(prefs).(subjectTaught := v) && open == old(open)
    {
      prefs := prefs.(subjectTaught := v);
    }

    /** Choosing a value in one of the four selects. */
    method Select(f: PrefField, v: string)
      modifies this
      ensures open == old(open) && prefs.subjectTaught == old(prefs.subjectTaught)
      ensures prefs == match f
                       case TeachingLevel => old(prefs).(teachingLevel := v)
                       case CurriculumStandard => old(prefs).(curriculumStandard := v)
                       case PreferredNoteFormat => old(prefs).(preferredNoteFormat := v)
                       case SchoolType => old(prefs).(schoolType := v)
    {
      match f
      case TeachingLevel => prefs := prefs.(teachingLevel := v);
      case CurriculumStandard => prefs := prefs.(curriculumStandard := v);
      case PreferredNoteFormat => prefs := prefs.(preferredNoteFormat := v);
      case SchoolType => prefs := prefs.(schoolType := v);
    }

    /** `handleSave`. A failed guard sends nothing. Otherwise the action is
      called and, whatever it answers, the success toast is shown and the
      dialog closes. */
    method HandleSave(db: Schema.Store, session: Option<User>, now: int)
      returns (toast: Toast, reply: Option<SettingsController.Reply>)
      requires db.Valid()
      modifies this, db
      ensures db.Valid() && prefs == old(prefs)
      ensures db.settings == old(db.settings) && db.languages == old(db.languages)
      ensures !SaveGuard(old(prefs)) ==>
                toast == Failure(FillRequiredMessage) && reply.None? && open == old(open)
                && db.onboarding == old(db.onboarding)
      ensures SaveGuard(old(prefs)) ==>
                var out := SettingsController.UpdateOutcome(old(db.onboarding), session, SaveForm(old(prefs)), now);
                toast == Success(PreferencesSavedMessage) && !open
                && reply == Some(out.reply) && db.onboarding == out.onboarding
    {
      if !SaveGuard(prefs) {
        return Failure(FillRequiredMessage), None;
      }
      var r := SettingsController.UpdateOnboardingAction(db, session, SaveForm(prefs), now);
      reply := Some(r);
      toast := Success(PreferencesSavedMessage);
      open := false;
    }

    /** `handleCancel`: back to the values the card was given, dialog closed. */
    method HandleCancel()
      modifies this
      ensures prefs == Initial(props) && !open
    {
      prefs := Initial(props);
      open := false;
    }
  }

  /** A form that enables the save button always passes the save guard, and
      the badge then reads complete. */
  lemma FormValidPassesGuard(p: Prefs)
    requires IsFormValid(p)
    ensures SaveGuard(p) && IsProfileComplete(p)
  {
    assert |Text.Trim(p.teachingLevel)| <= |p.teachingLevel|;
    assert |Text.Trim(p.curriculumStandard)| <= |p.curriculumStandard|;
    assert |Text.Trim(p.preferredNoteFormat)| <= |p.preferredNoteFormat|;
    assert |Text.Trim(p.schoolType)| <= |p.schoolType|;
    assert |Text.Trim(p.subjectTaught)| <= |p.subjectTaught|;
  }

  /** A subject of white space only reads as complete on the badge, yet the
      save button stays disabled. */
  lemma BlankSubjectCompleteButInvalid(p: Prefs)
    requires p.subjectTaught != "" && Text.AllSpace(p.subjectTaught)
    requires p.teachingLevel != "" && p.curriculumStandard != "" && p.preferredNoteFormat != "" && p.schoolType != ""
    ensures IsProfileComplete(p) && !IsFormValid(p) && !SaveGuard(p)
  {
    Text.TrimEmptyIffAllSpace(p.subjectTaught);
  }

  /** A one-letter subject passes the card's guard but is refused by the
      action's schema, so the card announces success for an update that was
      not made. */
  lemma SuccessAfterRejectedUpdate(p: Prefs)
    requires |Text.Trim(p.subjectTaught)| == 1
    requires p.teachingLevel != "" && p.curriculumStandard != "" && p.preferredNoteFormat != "" && p.schoolType != ""
    ensures SaveGuard(p)
    ensures ProfileSchema.ParseOnboardingPartial(SettingsController.OnboardingInput(SaveForm(p))).None?
  {
    OneLetterSubjectRefused(SaveForm(p));
  }

  /** A submitted one-letter subject fails the partial schema. */
  lemma OneLetterSubjectRefused(fd: FormData)
    requires "subjectTaught" in fd && |fd["subjectTaught"]| == 1
    ensures ProfileSchema.ParseOnboardingPartial(SettingsController.OnboardingInput(fd)).None?
  {
    var obj := SettingsController.OnboardingInput(fd);
    assert "subjectTaught" in ProfileSchema.OnboardingKeys;
    assert obj["subjectTaught"] == Str(fd["subjectTaught"]);
    assert !ProfileSchema.OptionalOk(obj, "subjectTaught", ProfileSchema.Length(2, None));
  }

  /** Cancelling restores the values the card was given; the badge then
      reflects the props alone. */
  lemma CancelRestoresProps(p: Props)
    ensures IsProfileComplete(Initial(p)) <==>
              p.subjectTaught.Some? && p.subjectTaught.value != ""
              && p.teachingLevel.Some? && p.teachingLevel.value != ""
              && p.curriculumStandard.Some? && p.curriculumStandard.value != ""
              && p.preferredNoteFormat.Some? && p.preferredNoteFormat.value != ""
              && p.schoolType.Some? && p.schoolType.value != ""
  {
  }
}
