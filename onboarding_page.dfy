/** The onboarding wizard of src/app/onboarding/page.tsx: a three-step page
    counter, the form record shared by the three step components and merged
    by their `setData` calls, the progress shown per step, and `handleFinish`,
    which serialises the record into form data and calls the save action.
    The 300 ms animation delay of a step change is taken as an immediate
    step; the router is the `navigatedTo` field. */
module OnboardingPage {
  import opened Common
  import Text
  import Schema
  import OnboardingController

  /** `OnboardingData`: the wizard's form record. */
  datatype OnboardingData = OnboardingData(
    fullName: string,
    schoolState: string,
    localGovt: string,
    schoolName: string,
    schoolType: string,
    teachingLevels: seq<string>,
    subjectTaught: seq<string>,
    preferredNoteFormat: string,
    curriculumStandard: string)

  /** The record the wizard starts from: every field empty. */
  const EmptyData: OnboardingData := OnboardingData("", "", "", "", "", [], [], "", "")

  /** A partial update `Partial<OnboardingData>`: `None` leaves a field as it is. */
  datatype Patch = Patch(
    fullName: Option<string>,
    schoolState: Option<string>,
    localGovt: Option<string>,
    schoolName: Option<string>,
    schoolType: Option<string>,
    teachingLevels: Option<seq<string>>,
    subjectTaught: Option<seq<string>>,
    preferredNoteFormat: Option<string>,
    curriculumStandard: Option<string>)

  const NoChange: Patch := Patch(None, None, None, None, None, None, None, None, None)

  /** `{...prev, ...update}`. */
  function Merge(d: OnboardingData, u: Patch): (r: OnboardingData)
    ensures r.fullName == u.fullName.GetOr(d.fullName)
    ensures r.schoolState == u.schoolState.GetOr(d.schoolState)
    ensures r.localGovt == u.localGovt.GetOr(d.localGovt)
    ensures r.schoolName == u.schoolName.GetOr(d.schoolName)
    ensures r.schoolType == u.schoolType.GetOr(d.schoolType)
    ensures r.teachingLevels == u.teachingLevels.GetOr(d.teachingLevels)
    ensures r.subjectTaught == u.subjectTaught.GetOr(d.subjectTaught)
    ensures r.preferredNoteFormat == u.preferredNoteFormat.GetOr(d.preferredNoteFormat)
    ensures r.curriculumStandard == u.curriculumStandard.GetOr(d.curriculumStandard)
  {
    OnboardingData(
      u.fullName.GetOr(d.fullName), u.schoolState.GetOr(d.schoolState), u.localGovt.GetOr(d.localGovt),
      u.schoolName.GetOr(d.schoolName), u.schoolType.GetOr(d.schoolType),
      u.teachingLevels.GetOr(d.teachingLevels), u.subjectTaught.GetOr(d.subjectTaught),
      u.preferredNoteFormat.GetOr(d.preferredNoteFormat), u.curriculumStandard.GetOr(d.curriculumStandard))
  }

  /** Merging the empty update changes nothing, and merging an update twice
      is merging it once. */
  lemma MergeLaws(d: OnboardingData, u: Patch)
    ensures Merge(d, NoChange) == d
    ensures Merge(Merge(d, u), u) == Merge(d, u)
  {
  }

  const StepCount: nat := 3

  /** `STEPS[i].progress`: the share of the steps reached with step `i`, in
      whole percent rounded down. */
  function StepProgress(page: nat): (p: nat)
    requires page < StepCount
    ensures p == (page + 1) * 100 / StepCount
  {
    if page == 0 then 33 else if page == 1 then 66 else 100
  }

  /** Progress rises strictly with the page and reaches 100 on the last. */
  lemma ProgressIncreasing(i: nat, j: nat)
    requires i < j < StepCount
    ensures StepProgress(i) < StepProgress(j)
    ensures StepProgress(StepCount - 1) == 100
  {
  }

  /** The form data `handleFinish` appends: every field verbatim, except the
      two lists, which are joined with `,`. */
  function FinishForm(d: OnboardingData): (fd: FormData)
    ensures fd.Keys == {"fullName", "schoolName", "schoolType", "schoolState", "localGovt",
                        "subjectTaught", "teachingLevel", "preferredNoteFormat", "curriculumStandard"}
    ensures fd["fullName"] == d.fullName && fd["schoolName"] == d.schoolName
    ensures fd["schoolType"] == d.schoolType && fd["schoolState"] == d.schoolState
    ensures fd["localGovt"] == d.localGovt && fd["preferredNoteFormat"] == d.preferredNoteFormat
    ensures fd["curriculumStandard"] == d.curriculumStandard
    ensures fd["subjectTaught"] == Text.Join(d.subjectTaught, ',')
    ensures fd["teachingLevel"] == Text.Join(d.teachingLevels, ',')
  {
    map["fullName" := d.fullName, "schoolName" := d.schoolName, "schoolType" := d.schoolType,
        "schoolState" := d.schoolState, "localGovt" := d.localGovt,
        "subjectTaught" := Text.Join(d.subjectTaught, ','),
        "teachingLevel" := Text.Join(d.teachingLevels, ','),
        "preferredNoteFormat" := d.preferredNoteFormat, "curriculumStandard" := d.curriculumStandard]
  }

  /** The subject list survives serialisation: splitting the submitted
      `subjectTaught` on `,` gives the list back when it is non-empty and no
      subject contains a comma. */
  lemma FinishFormSubjectsRoundTrip(d: OnboardingData)
    requires |d.subjectTaught| >= 1
    requires forall k :: 0 <= k < |d.subjectTaught| ==> ',' !in d.subjectTaught[k]
    ensures Text.Split(FinishForm(d)["subjectTaught"], ',') == d.subjectTaught
  {
    Text.SplitJoin(d.subjectTaught, ',');
  }

  /** A single teaching level is sent as itself, so the database's enum check
      sees the level the user chose. */
  lemma FinishFormSingleLevel(d: OnboardingData)
    requires |d.teachingLevels| == 1
    ensures FinishForm(d)["teachingLevel"] == d.teachingLevels[0]
  {
  }

  const NewsFeed: string := "/community/news-feed"

  class Wizard {
    var page: nat
    var data: OnboardingData
    var navigatedTo: Option<string>

    predicate Valid()
      reads this
    {
      page < StepCount
    }

    function Progress(): (p: nat)
      reads this
      requires Valid()
      ensures p == StepProgress(page)
    {
      StepProgress(page)
    }

    constructor ()
      ensures Valid()
      ensures page == 0 && data == EmptyData && navigatedTo == None
    {
      page := 0;
      data := EmptyData;
      navigatedTo := None;
    }

    /** `handleNext`: one step forward unless on the last step. */
    method HandleNext()
      requires Valid()
      modifies this
      ensures Valid()
      ensures page == if old(page) < StepCount - 1 then old(page) + 1 else old(page)
      ensures data == old(data) && navigatedTo == old(navigatedTo)
    {
      if page < StepCount - 1 {
        page := page + 1;
      }
    }

    /** `handleBack`: one step back unless on the first step. */
    method HandleBack()
      requires Valid()
      modifies this
      ensures Valid()
      ensures page == if old(page) > 0 then old(page) - 1 else old(page)
      ensures data == old(data) && navigatedTo == old(navigatedTo)
    {
      if page > 0 {
        page := page - 1;
      }
    }

    /** `setData(u)` as the step components receive it. */
    method SetData(u: Patch)
      modifies this
      ensures data == Merge(old(data), u)
      ensures page == old(page) && navigatedTo == old(navigatedTo)
    {
      data := Merge(data, u);
    }

    /** `handleFinish`: submit the serialised record to `saveOnboardingAction`,
      so that the reply and the onboarding table are the action's on that
      form, and go to the news feed when the action reports success;
      otherwise stay on the page. */
    method HandleFinish(db: Schema.Store, session: Option<User>, newId: string, now: int)
      returns (reply: OnboardingController.Reply)
      requires Valid() && db.Valid()
      modifies this, db
      ensures Valid() && db.Valid()
      ensures page == old(page) && data == old(data)
      ensures var out := OnboardingController.SaveOutcome(old(db.onboarding), session, FinishForm(old(data)), newId, now);
              reply == out.reply && db.onboarding == out.onboarding
      ensures navigatedTo == if reply.success then Some(NewsFeed) else old(navigatedTo)
      ensures reply.success ==> session.Some? && session.value.id in db.onboarding
      ensures db.settings == old(db.settings) && db.languages == old(db.languages)
    {
      var fd := FinishForm(data);
      reply := OnboardingController.SaveOnboardingAction(db, session, fd, newId, now);
      if reply.success {
        navigatedTo := Some(NewsFeed);
      }
    }
  }
}
