/** The first wizard step, src/components/onboarding/pageOne.tsx: full name,
    school name and school type, with its own `touched` record. The wizard's
    record is changed only through the wizard's `SetData`; the step advances
    through the wizard's `HandleNext`. */
module PageOne {
  import opened Common
  import Schema
  import OnboardingPage
  import OnboardingController

  /** `SCHOOL_TYPE_OPTIONS`, the values the select offers. */
  const SchoolTypeOptions: seq<string> := ["government", "private", "mission", "international"]

  /** The fields that have a `touched` flag. */
  datatype Field = SchoolName | SchoolType

  /** `isValid`: the three fields are all non-empty. */
  predicate IsValid(d: OnboardingPage.OnboardingData) {
    d.fullName != "" && d.schoolName != "" && d.schoolType != ""
  }

  function Value(d: OnboardingPage.OnboardingData, f: Field): string {
    match f
    case SchoolName => d.schoolName
    case SchoolType => d.schoolType
  }

  class Step {
    var touchedSchoolName: bool
    var touchedSchoolType: bool

    function Touched(f: Field): bool
      reads this
    {
      match f
      case SchoolName => touchedSchoolName
      case SchoolType => touchedSchoolType
    }

    /** `showError(f)`. */
    function ShowError(f: Field, d: OnboardingPage.OnboardingData): (b: bool)
      reads this
      ensures b <==> Touched(f) && Value(d, f) == ""
    {
      Touched(f) && Value(d, f) == ""
    }

    constructor ()
      ensures !touchedSchoolName && !touchedSchoolType
    {
      touchedSchoolName := false;
      touchedSchoolType := false;
    }

    /** The prefill effect: the session name fills the full name only while
      the full name is empty. */
    method Prefill(w: OnboardingPage.Wizard, sessionName: Option<string>)
      modifies w
      ensures w.page == old(w.page) && w.navigatedTo == old(w.navigatedTo)
      ensures w.data == Prefilled(old(w.data), sessionName)
    {
      if Truthy(sessionName) && w.data.fullName == "" {
        w.SetData(OnboardingPage.NoChange.(fullName := Some(sessionName.value)));
      }
    }

    /** `handleSubmit`: advance when valid, otherwise mark both fields touched. */
    method HandleSubmit(w: OnboardingPage.Wizard)
      requires w.Valid()
      modifies this, w
      ensures w.Valid() && w.data == old(w.data) && w.navigatedTo == old(w.navigatedTo)
      ensures IsValid(old(w.data)) ==>
                (w.page == (if old(w.page) < 2 then old(w.page) + 1 else old(w.page))
                 && touchedSchoolName == old(touchedSchoolName) && touchedSchoolType == old(touchedSchoolType))
      ensures !IsValid(old(w.data)) ==> w.page == old(w.page) && touchedSchoolName && touchedSchoolType
    {
      if IsValid(w.data) {
        w.HandleNext();
      } else {
        touchedSchoolName, touchedSchoolType := true, true;
      }
    }

    /** Typing into the school name. */
    method ChangeSchoolName(w: OnboardingPage.Wizard, v: string)
      modifies this, w
      ensures w.data == old(w.data).(schoolName := v) && w.page == old(w.page) && w.navigatedTo == old(w.navigatedTo)
      ensures touchedSchoolName && touchedSchoolType == old(touchedSchoolType)
    {
      w.SetData(OnboardingPage.NoChange.(schoolName := Some(v)));
      touchedSchoolName := true;
    }

    /** Leaving the school name input. */
    method BlurSchoolName()
      modifies this
      ensures touchedSchoolName && touchedSchoolType == old(touchedSchoolType)
    {
      touchedSchoolName := true;
    }

    /** Choosing a school type. */
    method ChangeSchoolType(w: OnboardingPage.Wizard, v: string)
      modifies this, w
      ensures w.data == old(w.data).(schoolType := v) && w.page == old(w.page) && w.navigatedTo == old(w.navigatedTo)
      ensures touchedSchoolType && touchedSchoolName == old(touchedSchoolName)
    {
      w.SetData(OnboardingPage.NoChange.(schoolType := Some(v)));
      touchedSchoolType := true;
    }

    /** Opening or closing the school type menu: closing it marks the field
      touched. */
    method OpenChangeSchoolType(open: bool)
      modifies this
      ensures touchedSchoolType == (old(touchedSchoolType) || !open)
      ensures touchedSchoolName == old(touchedSchoolName)
    {
      if !open && !touchedSchoolType {
        touchedSchoolType := true;
      }
    }
  }

  /** The record after the prefill effect. */
  function Prefilled(d: OnboardingPage.OnboardingData, sessionName: Option<string>): (r: OnboardingPage.OnboardingData)
    ensures r == d.(fullName := r.fullName)
    ensures d.fullName != "" ==> r.fullName == d.fullName
    ensures d.fullName == "" && Truthy(sessionName) ==> r.fullName == sessionName.value
    ensures d.fullName == "" && !Truthy(sessionName) ==> r.fullName == ""
  {
    if Truthy(sessionName) && d.fullName == "" then d.(fullName := sessionName.value) else d
  }

  /** The effect settles after one run: running it again changes nothing. */
  lemma PrefillSettles(d: OnboardingPage.OnboardingData, sessionName: Option<string>)
    ensures Prefilled(Prefilled(d, sessionName), sessionName) == Prefilled(d, sessionName)
  {
  }

  /** The form offers every school type of the table, `international`
      included. */
  lemma OffersEveryTableSchoolType()
    ensures SchoolTypeOptions == Schema.SchoolTypes
    ensures "international" in SchoolTypeOptions
  {
  }

  /** This step accepts records the save action later refuses: a one-letter
      school name, or the `international` school type. */
  lemma StepAcceptsWhatActionRefuses(d: OnboardingPage.OnboardingData)
    requires IsValid(d)
    requires |d.schoolName| == 1 || d.schoolType == "international"
    ensures OnboardingController.ParseSaveForm(OnboardingPage.FinishForm(d)).None?
  {
  }
}
