/** The second wizard step, src/components/onboarding/pageTwo.tsx: school
    state, local government area and teaching level. The list of states and
    their areas comes from a data file that is not part of this model; it is
    the parameter `states`, the set of state names. */
module PageTwo {
  import opened Common
  import OnboardingPage

  /** `TEACHING_LEVELS`, the values the level select offers. */
  const LevelOptions: seq<string> := ["basic_1_6", "jss_1_3", "sss_1_3"]

  datatype Field = SchoolState | LocalGovt | TeachingLevels

  /** `isValid`: state and area chosen, and exactly one teaching level. */
  predicate IsValid(d: OnboardingPage.OnboardingData) {
    d.schoolState != "" && d.localGovt != "" && |d.teachingLevels| == 1
  }

  /** `currentTeachingLevel`: `teachingLevels[0] || ""`. */
  function CurrentLevel(d: OnboardingPage.OnboardingData): (l: string)
    ensures |d.teachingLevels| > 0 ==> l == d.teachingLevels[0]
    ensures |d.teachingLevels| == 0 ==> l == ""
  {
    if |d.teachingLevels| > 0 && d.teachingLevels[0] != "" then d.teachingLevels[0] else ""
  }

  /** JavaScript truthiness of an array: every array, the empty one
      included, is truthy. */
  predicate ArrayTruthy(a: seq<string>) {
    true
  }

  /** `!data[field]` for each field. */
  predicate Missing(d: OnboardingPage.OnboardingData, f: Field) {
    match f
    case SchoolState => d.schoolState == ""
    case LocalGovt => d.localGovt == ""
    case TeachingLevels => !ArrayTruthy(d.teachingLevels)
  }

  /** The area select is disabled while the chosen state is not one of the
      known states (`selectedState` is undefined). */
  predicate LgaDisabled(d: OnboardingPage.OnboardingData, states: set<string>) {
    d.schoolState !in states
  }

  class Step {
    var touchedSchoolState: bool
    var touchedLocalGovt: bool
    var touchedTeachingLevels: bool

    function Touched(f: Field): bool
      reads this
    {
      match f
      case SchoolState => touchedSchoolState
      case LocalGovt => touchedLocalGovt
      case TeachingLevels => touchedTeachingLevels
    }

    /** `showError(f)`. */
    function ShowError(f: Field, d: OnboardingPage.OnboardingData): (b: bool)
      reads this
      ensures b <==> Touched(f) && Missing(d, f)
    {
      Touched(f) && Missing(d, f)
    }

    constructor ()
      ensures !touchedSchoolState && !touchedLocalGovt && !touchedTeachingLevels
    {
      touchedSchoolState, touchedLocalGovt, touchedTeachingLevels := false, false, false;
    }

    /** Choosing a state sets it and clears the area. */
    method SelectState(w: OnboardingPage.Wizard, v: string)
      modifies this, w
      ensures w.data == old(w.data).(schoolState := v, localGovt := "")
      ensures w.page == old(w.page) && w.navigatedTo == old(w.navigatedTo)
      ensures touchedSchoolState
      ensures touchedLocalGovt == old(touchedLocalGovt) && touchedTeachingLevels == old(touchedTeachingLevels)
    {
      w.SetData(OnboardingPage.NoChange.(schoolState := Some(v), localGovt := Some("")));
      touchedSchoolState := true;
    }

    /** Choosing an area. While no known state is chosen the select is
      disabled and the choice has no effect. */
    method SelectLocalGovt(w: OnboardingPage.Wizard, states: set<string>, v: string)
      modifies this, w
      ensures LgaDisabled(old(w.data), states) ==>
                w.data == old(w.data) && touchedLocalGovt == old(touchedLocalGovt)
      ensures !LgaDisabled(old(w.data), states) ==> w.data == old(w.data).(localGovt := v) && touchedLocalGovt
      ensures w.page == old(w.page) && w.navigatedTo == old(w.navigatedTo)
      ensures touchedSchoolState == old(touchedSchoolState) && touchedTeachingLevels == old(touchedTeachingLevels)
    {
      if !LgaDisabled(w.data, states) {
        w.SetData(OnboardingPage.NoChange.(localGovt := Some(v)));
        touchedLocalGovt := true;
      }
    }

    /** `handleLevelChange`: the chosen level replaces the whole list. */
    method HandleLevelChange(w: OnboardingPage.Wizard, v: string)
      modifies this, w
      ensures w.data == old(w.data).(teachingLevels := [v])
      ensures |w.data.teachingLevels| == 1 && CurrentLevel(w.data) == v
      ensures w.page == old(w.page) && w.navigatedTo == old(w.navigatedTo)
      ensures touchedTeachingLevels
      ensures touchedSchoolState == old(touchedSchoolState) && touchedLocalGovt == old(touchedLocalGovt)
    {
      w.SetData(OnboardingPage.NoChange.(teachingLevels := Some([v])));
      touchedTeachingLevels := true;
    }

    /** `handleSubmit`: advance when valid, otherwise mark all three touched. */
    method HandleSubmit(w: OnboardingPage.Wizard)
      requires w.Valid()
      modifies this, w
      ensures w.Valid() && w.data == old(w.data) && w.navigatedTo == old(w.navigatedTo)
      ensures IsValid(old(w.data)) ==>
                (w.page == (if old(w.page) < 2 then old(w.page) + 1 else old(w.page))
                 && touchedSchoolState == old(touchedSchoolState) && touchedLocalGovt == old(touchedLocalGovt)
                 && touchedTeachingLevels == old(touchedTeachingLevels))
      ensures !IsValid(old(w.data)) ==>
                w.page == old(w.page) && touchedSchoolState && touchedLocalGovt && touchedTeachingLevels
    {
      if IsValid(w.data) {
        w.HandleNext();
      } else {
        touchedSchoolState, touchedLocalGovt, touchedTeachingLevels := true, true, true;
      }
    }
  }

  /** The teaching-level error is never shown: the empty list is truthy,
      even after an invalid submit has marked the field touched. */
  lemma LevelErrorNeverShown(s: Step, d: OnboardingPage.OnboardingData)
    ensures !s.ShowError(TeachingLevels, d)
  {
  }

  /** A record with no level is still invalid, so a submit without a level
      marks the fields touched yet shows no message for the level. */
  lemma MissingLevelSilent(s: Step, d: OnboardingPage.OnboardingData)
    requires d.teachingLevels == []
    ensures !IsValid(d) && !s.ShowError(TeachingLevels, d)
  {
  }

  /** After a state is chosen the area is empty, so the step is invalid until
      an area is chosen again. */
  lemma StateChangeInvalidates(d: OnboardingPage.OnboardingData, v: string)
    ensures !IsValid(d.(schoolState := v, localGovt := ""))
  {
  }
}
