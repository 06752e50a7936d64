/** The personal-information card of
    src/components/profileComponent/personalDetails.tsx: a dialog editing the
    school's state, area and name (saved with `updateOnboardingAction`) and
    the bio (saved with `updateProfileSettingsController`), checked in a
    fixed order before anything is sent. The card's status line and the
    bio counter are read from the card's props and draft. */
module PersonalDetails {
  import opened Common
  import Text
  import Schema
  import ProfileSchema
  import SettingsController

  /** The card's `profile` prop; a `null` bio is `None` like a missing one. */
  datatype Props = Props(
    fullName: Option<string>,
    email: Option<string>,
    schoolState: Option<string>,
    localGovt: Option<string>,
    bio: Option<string>,
    schoolName: Option<string>)

  /** The four values the dialog edits. */
  datatype Draft = Draft(bio: string, schoolState: string, localGovt: string, schoolName: string)

  /** The dialog's starting values: each prop, or `""`. */
  function Initial(p: Props): (d: Draft)
    ensures d.bio == p.bio.GetOr("") && d.schoolState == p.schoolState.GetOr("")
    ensures d.localGovt == p.localGovt.GetOr("") && d.schoolName == p.schoolName.GetOr("")
  {
    Draft(p.bio.GetOr(""), p.schoolState.GetOr(""), p.localGovt.GetOr(""), p.schoolName.GetOr(""))
  }

  const StateMissing: string := "Please enter your school state"
  const LocalGovtMissing: string := "Please enter your local government"
  const SchoolNameMissing: string := "Please enter your school name"
  const ProfileUpdatedMessage: string := "Profile updated successfully! \U{1F389}"
  const ProfileFailedMessage: string := "Failed to update profile"

  /** The checks of `handleSave`, in order: the first blank field (after
      trimming) names the error. */
  function FirstError(d: Draft): (e: Option<string>)
    ensures e.None? <==> Text.Trim(d.schoolState) != "" && Text.Trim(d.localGovt) != "" && Text.Trim(d.schoolName) != ""
    ensures Text.Trim(d.schoolState) == "" ==> e == Some(StateMissing)
    ensures Text.Trim(d.schoolState) != "" && Text.Trim(d.localGovt) == "" ==> e == Some(LocalGovtMissing)
    ensures Text.Trim(d.schoolState) != "" && Text.Trim(d.localGovt) != "" && Text.Trim(d.schoolName) == "" ==>
              e == Some(SchoolNameMissing)
  {
    if Text.Trim(d.schoolState) == "" then Some(StateMissing)
    else if Text.Trim(d.localGovt) == "" then Some(LocalGovtMissing)
    else if Text.Trim(d.schoolName) == "" then Some(SchoolNameMissing)
    else None
  }

  /** The save button: disabled while a save is pending or a required field
      is blank. */
  predicate SaveDisabled(d: Draft, pending: bool) {
    pending || Text.Trim(d.schoolState) == "" || Text.Trim(d.localGovt) == "" || Text.Trim(d.schoolName) == ""
  }

  /** `form1`: the three location fields, trimmed. */
  function LocationForm(d: Draft): (fd: FormData)
    ensures fd.Keys == {"schoolState", "localGovt", "schoolName"}
    ensures fd["schoolState"] == Text.Trim(d.schoolState) && fd["localGovt"] == Text.Trim(d.localGovt)
    ensures fd["schoolName"] == Text.Trim(d.schoolName)
  {
    map["schoolState" := Text.Trim(d.schoolState), "localGovt" := Text.Trim(d.localGovt),
        "schoolName" := Text.Trim(d.schoolName)]
  }

  /** `form2`: the bio alone, trimmed. */
  function BioForm(bio: string): (fd: FormData)
    ensures fd == map["bio" := Text.Trim(bio)]
  {
    map["bio" := Text.Trim(bio)]
  }

  /** The bio box's `maxLength`. */
  const BioMaxLength: nat := 300

  /** The counter of characters left, shown past 250 characters. */
  function BioCounter(bio: string): (r: Option<int>)
    ensures r.Some? <==> |bio| > 250
    ensures r.Some? ==> r.value == BioMaxLength - |bio|
  {
    if |bio| > 250 then Some(BioMaxLength - |bio|) else None
  }

  /** The status line: complete when the props hold a state, an area and a
      school name. */
  predicate LocationComplete(p: Props) {
    p.schoolState.Some? && p.schoolState.value != ""
    && p.localGovt.Some? && p.localGovt.value != ""
    && p.schoolName.Some? && p.schoolName.value != ""
  }

  datatype Toast = Success(text: string) | Failure(text: string)

  datatype DraftField = Bio | SchoolState | LocalGovt | SchoolName

  class PersonalCard {
    const props: Props
    var open: bool
    var draft: Draft

    constructor (props: Props)
      ensures this.props == props && !open && draft == Initial(props)
    {
      this.props := props;
      open := false;
      draft := Initial(props);
    }

    /** The dialog's `onOpenChange`. */
    method SetOpen(b: bool)
      modifies this
      ensures open == b && draft == old(draft)
    {
      open := b;
    }

    /** Typing into one of the four inputs. */
    method Change(f: DraftField, v: string)
      modifies this
      ensures open == old(open)
      ensures draft == match f
                       case Bio => old(draft).(bio := v)
                       case SchoolState => old(draft).(schoolState := v)
                       case LocalGovt => old(draft).(localGovt := v)
                       case SchoolName => old(draft).(schoolName := v)
    {
      match f
      case Bio => draft := draft.(bio := v);
      case SchoolState => draft := draft.(schoolState := v);
      case LocalGovt => draft := draft.(localGovt := v);
      case SchoolName => draft := draft.(schoolName := v);
    }

    /** `handleSave`. A failed check sends nothing. Otherwise the location
      is sent to the onboarding action and then the bio to the settings
      controller; the first answers without throwing, so only a throw of the
      second (no session) reaches the error toast. The answers themselves are
      not read. */
    method HandleSave(db: Schema.Store, session: Option<User>, isUrl: string -> bool, isUuid: string -> bool,
                      newId: string, now: int)
      returns (toast: Toast)
      requires db.Valid()
      modifies this, db
      ensures db.Valid() && draft == old(draft) && db.languages == old(db.languages)
      ensures FirstError(old(draft)).Some? ==>
                toast == Failure(FirstError(old(draft)).value) && open == old(open)
                && db.onboarding == old(db.onboarding) && db.settings == old(db.settings)
      ensures FirstError(old(draft)).None? && session.None? ==>
                toast == Failure(ProfileFailedMessage) && open == old(open)
                && db.onboarding == old(db.onboarding) && db.settings == old(db.settings)
      ensures FirstError(old(draft)).None? && session.Some? ==>
                toast == Success(ProfileUpdatedMessage) && !open
                && db.onboarding
                     == SettingsController.UpdateOutcome(old(db.onboarding), session, LocationForm(old(draft)), now).onboarding
                && db.settings
                     == SettingsController.SettingsOutcome(old(db.settings), old(db.languages), session,
                                                           BioForm(old(draft).bio), isUrl, isUuid, newId, now).settings
      ensures FirstError(old(draft)).None? && session.Some? && Text.Trim(old(draft).bio) == "" ==>
                db.settings == old(db.settings)
    {
      var err := FirstError(draft);
      if err.Some? {
        return Failure(err.value);
      }
      var r1 := SettingsController.UpdateOnboardingAction(db, session, LocationForm(draft), now);
      if Text.Trim(draft.bio) == "" {
        BlankBioKeepsSettings(db.settings, db.languages, session, draft.bio, isUrl, isUuid, newId, now);
      }
      var r2 := SettingsController.UpdateProfileSettingsController(db, session, BioForm(draft.bio), isUrl, isUuid, newId, now);
      if r2.Threw? {
        return Failure(ProfileFailedMessage);
      }
      toast := Success(ProfileUpdatedMessage);
      open := false;
    }

    /** `handleCancel`: back to the props, dialog closed. */
    method HandleCancel()
      modifies this
      ensures draft == Initial(props) && !open
    {
      draft := Initial(props);
      open := false;
    }
  }

  // ---------------------------------------------------------------------
  // Properties of the card

  /** The save button is enabled exactly when no check would fail and no
      save is pending. */
  lemma ButtonMatchesChecks(d: Draft, pending: bool)
    ensures !SaveDisabled(d, pending) <==> !pending && FirstError(d).None?
  {
  }

  /** What the bio form does at the settings controller: it validates exactly
      when the trimmed bio fits in 300 characters, and the data left to save
      is the trimmed bio, or nothing when the bio is blank. A blank bio
      therefore never clears a saved one. */
  lemma BioFormOutcome(bio: string, isUrl: string -> bool, isUuid: string -> bool)
    ensures var parsed := ProfileSchema.ParseProfileSettings(
                            SettingsController.SettingsInput(BioForm(bio)), isUrl, isUuid);
            (parsed.Some? <==> |Text.Trim(bio)| <= ProfileSchema.MaxBio)
            && (parsed.Some? ==>
                  SettingsController.CleanData(parsed.value)
                  == if Text.Trim(bio) == "" then map[] else map["bio" := Str(Text.Trim(bio))])
  {
    var obj := SettingsController.SettingsInput(BioForm(bio));
    BioFormInput(bio);
    var parsed := ProfileSchema.ParseProfileSettings(obj, isUrl, isUuid);
    assert parsed.Some? <==> |Text.Trim(bio)| <= ProfileSchema.MaxBio by {
      assert ProfileSchema.SettingsValid(obj, isUrl, isUuid) <==>
               ProfileSchema.OptionalNullable(obj, "bio", s => |s| <= ProfileSchema.MaxBio);
    }
    if parsed.Some? {
      BioCleanData(obj, parsed.value, Text.Trim(bio));
    }
  }

  /** A stored bio save writes the trimmed bio and leaves the photo and the
      social links of the user's row as they were (null for a new row). */
  lemma BioSaveWritesBio(settings: map<string, Schema.SettingsRow>, languages: map<string, Schema.Language>,
                         u: User, bio: string, isUrl: string -> bool, isUuid: string -> bool,
                         newId: string, now: int)
    ensures var r := SettingsController.SettingsOutcome(settings, languages, Some(u), BioForm(bio),
                                                        isUrl, isUuid, newId, now);
            r.out.Returned? && r.out.value.SettingsSaved? ==>
              Text.Trim(bio) != "" && |Text.Trim(bio)| <= ProfileSchema.MaxBio
              && u.id in r.settings
              && var s := r.settings[u.id];
                 s.bio == Some(Text.Trim(bio))
                 && s.fileUrl == (if u.id in settings then settings[u.id].fileUrl else None)
                 && s.thumbnailUrl == (if u.id in settings then settings[u.id].thumbnailUrl else None)
                 && s.socialLinks == (if u.id in settings then settings[u.id].socialLinks else None)
  {
    var r := SettingsController.SettingsOutcome(settings, languages, Some(u), BioForm(bio), isUrl, isUuid, newId, now);
    if r.out.Returned? && r.out.value.SettingsSaved? {
      BioFormOutcome(bio, isUrl, isUuid);
      var data := map["bio" := Str(Text.Trim(bio))];
      var row := SettingsController.UpsertedRow(settings, u.id, data, newId, now);
      assert r.settings == settings[u.id := Schema.StoredSettings(row)];
      assert row.bio == Some(Text.Trim(bio));
    }
  }

  /** A blank bio sends nothing the settings controller would store. */
  lemma BlankBioKeepsSettings(settings: map<string, Schema.SettingsRow>, languages: map<string, Schema.Language>,
                              session: Option<User>, bio: string, isUrl: string -> bool, isUuid: string -> bool,
                              newId: string, now: int)
    requires Text.Trim(bio) == ""
    ensures SettingsController.SettingsOutcome(settings, languages, session, BioForm(bio),
                                               isUrl, isUuid, newId, now).settings == settings
  {
    BioFormOutcome(bio, isUrl, isUuid);
  }

  /** The settings input of the bio form: the trimmed bio under `bio`, or
      `undefined` when it is blank, and `undefined` everywhere else. */
  lemma BioFormInput(bio: string)
    ensures var obj := SettingsController.SettingsInput(BioForm(bio));
            "bio" in obj && obj["bio"] == ProfileSchema.Field(BioForm(bio), "bio")
            && (forall k :: k in obj && k != "bio" ==> obj[k] == Undefined)
  {
    assert "bio" in ProfileSchema.SettingsKeys;
  }

  /** Cleaning the parsed bio input keeps the bio exactly when it is non-blank. */
  lemma BioCleanData(obj: Record, data: Record, t: string)
    requires "bio" in obj && obj["bio"] == (if t == "" then Undefined else Str(t))
    requires forall k :: k in obj && k != "bio" ==> obj[k] == Undefined
    requires data.Keys <= obj.Keys && forall k :: k in data ==> data[k] == obj[k]
    requires "bio" in data
    ensures SettingsController.CleanData(data) == if t == "" then map[] else map["bio" := Str(t)]
  {
    var c := SettingsController.CleanData(data);
    if t == "" {
      assert c.Keys == {};
    } else {
      assert c.Keys == {"bio"};
    }
  }

  /** Any bio the text box lets through validates. */
  lemma BoxBioValidates(bio: string, isUrl: string -> bool, isUuid: string -> bool)
    requires |bio| <= BioMaxLength
    ensures ProfileSchema.ParseProfileSettings(SettingsController.SettingsInput(BioForm(bio)), isUrl, isUuid).Some?
  {
    BioFormOutcome(bio, isUrl, isUuid);
  }

  /** A school name of one or two characters passes the card's checks but
      not the onboarding schema, so the location is not saved while the card
      still announces success. */
  lemma ShortSchoolNameNotSaved(d: Draft)
    requires FirstError(d).None? && |Text.Trim(d.schoolName)| < 3
    ensures ProfileSchema.ParseOnboardingPartial(SettingsController.OnboardingInput(LocationForm(d))).None?
  {
    var fd := LocationForm(d);
    var obj := SettingsController.OnboardingInput(fd);
    assert "schoolName" in ProfileSchema.OnboardingKeys;
    assert obj["schoolName"] == Str(Text.Trim(d.schoolName));
    assert !ProfileSchema.OptionalOk(obj, "schoolName", ProfileSchema.Length(3, Some(150)));
  }

  /** Within the box's limit the counter never goes negative, and it shows
      at most 49 characters left. */
  lemma CounterRange(bio: string)
    requires |bio| <= BioMaxLength
    ensures BioCounter(bio).Some? ==> 0 <= BioCounter(bio).value < 50
  {
  }
}
