/** The three actions of src/controllers/settings.controller.ts:
    `getProfileController` (merge the onboarding row with the settings row),
    `updateProfileSettingsController` (filter the form, then upsert the
    settings row keyed by user) and `updateOnboardingAction` (validate a
    partial form, then update an existing onboarding row). Sessions, the
    `.url()`/`.uuid()` checks, the generated id and the clock are inputs;
    the tables are those of `Schema.Store`. */
module SettingsController {
  import opened Common
  import Schema
  import ProfileSchema

  /** The result of an action that may throw instead of returning. */
  datatype Outcome<T> = Threw(error: string) | Returned(value: T)

  const NotLoggedIn: string := "You must be logged in"

  // ---------------------------------------------------------------------
  // getProfileController

  /** The merged profile: the onboarding row's columns, the settings columns
      (null when the user has none), the joined language, and the name and
      email of the session user, which replace the row's `fullName`. */
  datatype Profile = Profile(
    onboarding: Schema.OnboardingRow,
    bio: Option<string>,
    fileUrl: Option<string>,
    thumbnailUrl: Option<string>,
    language: Option<Schema.Language>,
    fullName: string,
    email: Option<string>,
    displayName: Option<string>,
    socialLinks: Option<string>)

  /** `settings.language`: the language row the settings row refers to. */
  function JoinLanguage(s: Schema.SettingsRow, languages: map<string, Schema.Language>): (l: Option<Schema.Language>)
    ensures l.Some? <==> s.languageId.Some? && s.languageId.value in languages
    ensures l.Some? ==> l.value == languages[s.languageId.value]
  {
    if s.languageId.Some? && s.languageId.value in languages then Some(languages[s.languageId.value]) else None
  }

  function GetProfileController(onboarding: map<string, Schema.OnboardingRow>,
                                settings: map<string, Schema.SettingsRow>,
                                languages: map<string, Schema.Language>,
                                session: Option<User>, userId: string): (r: Outcome<Option<Profile>>)
    ensures r.Threw? <==> session.None?
    ensures r.Threw? ==> r.error == NotLoggedIn
    ensures r.Returned? ==> (r.value.Some? <==> userId in onboarding)
    ensures r.Returned? && r.value.Some? ==>
              r.value.value.onboarding == onboarding[userId]
              && r.value.value.fullName == session.value.name.GetOr("Anonymous")
              && r.value.value.email == session.value.email
  {
    if session.None? then Threw(NotLoggedIn)
    else if userId !in onboarding then Returned(None)
    else
      var u := session.value;
      if userId in settings then
        var s := settings[userId];
        Returned(Some(Profile(onboarding[userId], s.bio, s.fileUrl, s.thumbnailUrl, JoinLanguage(s, languages),
                              u.name.GetOr("Anonymous"), u.email, s.displayName, s.socialLinks)))
      else
        Returned(Some(Profile(onboarding[userId], None, None, None, None,
                              u.name.GetOr("Anonymous"), u.email, None, None)))
  }

  /** Without a settings row every settings field of the profile is null. */
  lemma ProfileWithoutSettings(onboarding: map<string, Schema.OnboardingRow>,
                               settings: map<string, Schema.SettingsRow>,
                               languages: map<string, Schema.Language>, u: User, userId: string)
    requires userId in onboarding && userId !in settings
    ensures var p := GetProfileController(onboarding, settings, languages, Some(u), userId).value.value;
            p.bio == None && p.fileUrl == None && p.thumbnailUrl == None && p.language == None
            && p.displayName == None && p.socialLinks == None
  {
  }

  /** With a settings row the profile carries its values; in a well-formed
      store the language is always found. */
  lemma ProfileWithSettings(db: Schema.Store, u: User, userId: string)
    requires db.Valid() && userId in db.onboarding && userId in db.settings
    ensures var p := GetProfileController(db.onboarding, db.settings, db.languages, Some(u), userId).value.value;
            var s := db.settings[userId];
            p.bio == s.bio && p.fileUrl == s.fileUrl && p.thumbnailUrl == s.thumbnailUrl
            && p.displayName == s.displayName && p.socialLinks == s.socialLinks
            && (p.language.Some? <==> s.languageId.Some?)
  {
    assert Schema.SettingsInCaps(db.settings[userId], db.languages);
  }

  /** The profile's name is the session user's, not the one saved in the
      onboarding row, and the lookup is by the `userId` argument, which need
      not be the session user's own id. */
  lemma ProfileNameFromSession(onboarding: map<string, Schema.OnboardingRow>,
                               settings: map<string, Schema.SettingsRow>,
                               languages: map<string, Schema.Language>, u: User, userId: string)
    requires userId in onboarding
    ensures var p := GetProfileController(onboarding, settings, languages, Some(u), userId).value.value;
            p.fullName == (if u.name.Some? then u.name.value else "Anonymous")
            && p.onboarding.userId == onboarding[userId].userId
  {
  }

  // ---------------------------------------------------------------------
  // updateProfileSettingsController

  datatype SettingsReply = SettingsSaved(data: Schema.SettingsRow) | SettingsFailed(error: string)

  const NoDataMessage: string := "No data provided to update"
  const SettingsFailedMessage: string := "Failed to update profile settings"

  /** The object handed to `ProfileSettingsSchema.parse`: each of the six
      fields read with `field`. */
  function SettingsInput(fd: FormData): (obj: Record)
    ensures obj.Keys == set k | k in ProfileSchema.SettingsKeys
    ensures forall k :: k in obj ==> obj[k] == ProfileSchema.Field(fd, k)
  {
    map k | k in ProfileSchema.SettingsKeys :: ProfileSchema.Field(fd, k)
  }

  /** `cleanData`: the entries that are neither null/undefined nor "". */
  function CleanData(data: Record): (r: Record)
    ensures r.Keys <= data.Keys
    ensures forall k :: k in data ==> (k in r <==> data[k] != Undefined && data[k] != Null && data[k] != Str(""))
    ensures forall k :: k in r ==> r[k] == data[k]
  {
    map k | k in data && data[k] != Undefined && data[k] != Null && data[k] != Str("") :: data[k]
  }

  /** `field` never yields "", so on the parsed form `cleanData` removes the
      same entries `cleanObject` would. */
  lemma CleanDataIsCleanObject(fd: FormData, isUrl: string -> bool, isUuid: string -> bool)
    requires ProfileSchema.ParseProfileSettings(SettingsInput(fd), isUrl, isUuid).Some?
    ensures var data := ProfileSchema.ParseProfileSettings(SettingsInput(fd), isUrl, isUuid).value;
            CleanData(data) == ProfileSchema.CleanObject(data)
  {
    var data := ProfileSchema.ParseProfileSettings(SettingsInput(fd), isUrl, isUuid).value;
    forall k | k in data ensures data[k] != Str("") {
      assert data[k] == ProfileSchema.Field(fd, k);
    }
    assert CleanData(data).Keys == ProfileSchema.CleanObject(data).Keys;
  }

  /** Nothing is left to save exactly when each of the six fields is missing
      from the form or empty. */
  lemma NoDataIffAllBlank(fd: FormData, isUrl: string -> bool, isUuid: string -> bool)
    requires ProfileSchema.ParseProfileSettings(SettingsInput(fd), isUrl, isUuid).Some?
    ensures var data := ProfileSchema.ParseProfileSettings(SettingsInput(fd), isUrl, isUuid).value;
            |CleanData(data)| == 0 <==>
              forall k :: k in ProfileSchema.SettingsKeys ==> k !in fd || fd[k] == ""
  {
    var data := ProfileSchema.ParseProfileSettings(SettingsInput(fd), isUrl, isUuid).value;
    forall k | k in ProfileSchema.SettingsKeys && k in fd && fd[k] != "" ensures k in CleanData(data) {
      assert k in data;
    }
    if |CleanData(data)| != 0 {
      var k :| k in CleanData(data);
      assert k in ProfileSchema.SettingsKeys && k in fd && fd[k] != "";
    }
  }

  /** A settings column by its key. */
  function SettingsColumn(r: Schema.SettingsRow, key: string): Option<string> {
    if key == "fileUrl" then r.fileUrl
    else if key == "thumbnailUrl" then r.thumbnailUrl
    else if key == "languageId" then r.languageId
    else if key == "bio" then r.bio
    else if key == "displayName" then r.displayName
    else if key == "socialLinks" then r.socialLinks
    else None
  }

  /** The value `set` writes into a column: the supplied string, or the
      column's current value. */
  function Supplied(data: Record, key: string, current: Option<string>): Option<string> {
    if key in data && data[key].Str? then Some(data[key].s) else current
  }

  /** `set({...cleanData, updatedAt: now})` on a settings row. */
  function ApplySettings(r: Schema.SettingsRow, data: Record, now: int): (u: Schema.SettingsRow)
    ensures u.id == r.id && u.userId == r.userId && u.createdAt == r.createdAt && u.updatedAt == now
  {
    r.(fileUrl := Supplied(data, "fileUrl", r.fileUrl),
       thumbnailUrl := Supplied(data, "thumbnailUrl", r.thumbnailUrl),
       languageId := Supplied(data, "languageId", r.languageId),
       bio := Supplied(data, "bio", r.bio),
       displayName := Supplied(data, "displayName", r.displayName),
       socialLinks := Supplied(data, "socialLinks", r.socialLinks),
       updatedAt := now)
  }

  /** The upserted row: the existing row with the supplied fields
      overwritten, or a new row holding only the supplied fields. */
  function UpsertedRow(settings: map<string, Schema.SettingsRow>, userId: string, data: Record,
                       newId: string, now: int): (r: Schema.SettingsRow)
    ensures r.userId == (if userId in settings then settings[userId].userId else userId)
    ensures r.id == (if userId in settings then settings[userId].id else newId)
  {
    if userId in settings then ApplySettings(settings[userId], data, now)
    else ApplySettings(Schema.SettingsRow(newId, userId, None, None, None, None, None, None, now, now), data, now)
  }

  /** Each settings column after the upsert is the supplied value, or else
      what the row held before (null for a new row). */
  lemma UpsertOverwritesOnlySupplied(settings: map<string, Schema.SettingsRow>, userId: string,
                                     data: Record, newId: string, now: int, key: string)
    requires key in ProfileSchema.SettingsKeys
    requires forall k :: k in data ==> data[k].Str?
    ensures SettingsColumn(UpsertedRow(settings, userId, data, newId, now), key) ==
              if key in data then Some(data[key].s)
              else if userId in settings then SettingsColumn(settings[userId], key)
              else None
  {
  }

  /** Upserting the same data twice is upserting it once (up to the
      timestamp). */
  lemma UpsertIdempotent(settings: map<string, Schema.SettingsRow>, userId: string, data: Record,
                         newId: string, now: int)
    requires userId in settings ==> settings[userId].userId == userId
    ensures var once := UpsertedRow(settings, userId, data, newId, now);
            UpsertedRow(settings[userId := once], userId, data, newId, now) == once
  {
  }

  datatype SettingsResult = SettingsResult(out: Outcome<SettingsReply>, settings: map<string, Schema.SettingsRow>)

  /** What `updateProfileSettingsController` answers and stores, given the
      settings and languages tables before it: it throws exactly when nobody
      is signed in; it stores only when the form parses, leaves something to
      save, and the upserted row is one the table accepts, and then answers
      that stored row; every other path leaves the table as it was. */
  function SettingsOutcome(settings: map<string, Schema.SettingsRow>, languages: map<string, Schema.Language>,
                           session: Option<User>, fd: FormData, isUrl: string -> bool, isUuid: string -> bool,
                           newId: string, now: int): (r: SettingsResult)
    ensures r.out.Threw? <==> session.None?
    ensures r.out.Threw? ==> r.out.error == NotLoggedIn
    ensures (r.out.Returned? && r.out.value.SettingsSaved?) <==>
              session.Some?
              && var parsed := ProfileSchema.ParseProfileSettings(SettingsInput(fd), isUrl, isUuid);
                 parsed.Some? && |CleanData(parsed.value)| != 0
                 && var row := UpsertedRow(settings, session.value.id, CleanData(parsed.value), newId, now);
                    Schema.SettingsFits(row, languages) && Schema.SettingsIdFree(settings, Schema.StoredSettings(row))
    ensures !(r.out.Returned? && r.out.value.SettingsSaved?) ==> r.settings == settings
    ensures r.out.Returned? && r.out.value.SettingsSaved? ==>
              var parsed := ProfileSchema.ParseProfileSettings(SettingsInput(fd), isUrl, isUuid);
              var stored := Schema.StoredSettings(UpsertedRow(settings, session.value.id, CleanData(parsed.value), newId, now));
              r.out.value.data == stored && r.settings == settings[session.value.id := stored]
    ensures r.out.Returned? && r.out.value.SettingsFailed? ==>
              r.out.value.error ==
                if ProfileSchema.ParseProfileSettings(SettingsInput(fd), isUrl, isUuid).Some?
                   && |CleanData(ProfileSchema.ParseProfileSettings(SettingsInput(fd), isUrl, isUuid).value)| == 0
                then NoDataMessage else SettingsFailedMessage
  {
    if session.None? then SettingsResult(Threw(NotLoggedIn), settings)
    else
      var parsed := ProfileSchema.ParseProfileSettings(SettingsInput(fd), isUrl, isUuid);
      if parsed.None? then SettingsResult(Returned(SettingsFailed(SettingsFailedMessage)), settings)
      else if |CleanData(parsed.value)| == 0 then SettingsResult(Returned(SettingsFailed(NoDataMessage)), settings)
      else
        var row := UpsertedRow(settings, session.value.id, CleanData(parsed.value), newId, now);
        var stored := Schema.StoredSettings(row);
        if Schema.SettingsFits(row, languages) && Schema.SettingsIdFree(settings, stored) then
          SettingsResult(Returned(SettingsSaved(stored)), settings[session.value.id := stored])
        else
          SettingsResult(Returned(SettingsFailed(SettingsFailedMessage)), settings)
  }

  /** The controller. */
  method UpdateProfileSettingsController(db: Schema.Store, session: Option<User>, fd: FormData,
                                         isUrl: string -> bool, isUuid: string -> bool,
                                         newId: string, now: int)
    returns (out: Outcome<SettingsReply>)
    requires db.Valid()
    modifies db
    ensures db.Valid()
    ensures db.onboarding == old(db.onboarding) && db.languages == old(db.languages)
    ensures SettingsResult(out, db.settings)
              == SettingsOutcome(old(db.settings), old(db.languages), session, fd, isUrl, isUuid, newId, now)
  {
    if session.None? {
      return Threw(NotLoggedIn);
    }
    var parsed := ProfileSchema.ParseProfileSettings(SettingsInput(fd), isUrl, isUuid);
    if parsed.None? {
      return Returned(SettingsFailed(SettingsFailedMessage));
    }
    var clean := CleanData(parsed.value);
    if |clean| == 0 {
      return Returned(SettingsFailed(NoDataMessage));
    }
    var userId := session.value.id;
    var row := UpsertedRow(db.settings, userId, clean, newId, now);
    if userId in db.settings {
      assert row.userId == userId;
    }
    var ok := db.PutSettings(row);
    if ok {
      out := Returned(SettingsSaved(db.settings[userId]));
    } else {
      out := Returned(SettingsFailed(SettingsFailedMessage));
    }
  }

  // ---------------------------------------------------------------------
  // updateOnboardingAction

  datatype Reply = Reply(success: bool, message: string)

  const UpdateNotLoggedIn: string := "You must be logged in to update your onboarding."
  const NoValidDataMessage: string := "No valid data provided for update."
  const IncompleteMessage: string := " Please complete the full profile form first."
  const UpdateFailedMessage: string := "Failed to update onboarding"
  const UpdatedMessage: string := "Onboarding updated successfully!"

  /** `rawData`: the nine onboarding fields read with `field`. */
  function OnboardingInput(fd: FormData): (obj: Record)
    ensures obj.Keys == set k | k in ProfileSchema.OnboardingKeys
    ensures forall k :: k in obj ==> obj[k] == ProfileSchema.Field(fd, k)
  {
    map k | k in ProfileSchema.OnboardingKeys :: ProfileSchema.Field(fd, k)
  }

  /** `cleanObject({...validated, updatedAt: now})`. */
  function UpdatePayload(validated: Record, now: int): (p: Record)
    ensures "updatedAt" in p && p["updatedAt"] == Date(now)
    ensures forall k :: k in p && k != "updatedAt" ==> k in validated && p[k] == validated[k]
  {
    ProfileSchema.CleanObject(validated["updatedAt" := Date(now)])
  }

  /** `updatedAt` is always present, so the payload is never empty and the
      "No valid data provided for update." branch cannot be taken. */
  lemma PayloadNeverEmpty(validated: Record, now: int)
    ensures |UpdatePayload(validated, now)| > 0
  {
    assert "updatedAt" in UpdatePayload(validated, now);
  }

  /** An onboarding column by its key. */
  function OnboardingColumn(r: Schema.OnboardingRow, key: string): string {
    if key == "fullName" then r.fullName
    else if key == "schoolName" then r.schoolName
    else if key == "schoolType" then r.schoolType
    else if key == "schoolState" then r.schoolState
    else if key == "localGovt" then r.localGovt
    else if key == "subjectTaught" then r.subjectTaught
    else if key == "teachingLevel" then r.teachingLevel
    else if key == "curriculumStandard" then r.curriculumStandard
    else if key == "preferredNoteFormat" then r.preferredNoteFormat
    else ""
  }

  function StrOr(p: Record, key: string, current: string): string {
    if key in p && p[key].Str? then p[key].s else current
  }

  /** `update(onboarding).set(payload)`. */
  function ApplyPayload(r: Schema.OnboardingRow, p: Record): (u: Schema.OnboardingRow)
    ensures u.id == r.id && u.userId == r.userId && u.createdAt == r.createdAt
    ensures u.schemeOfWorkUrl == r.schemeOfWorkUrl && u.schemeExtracted == r.schemeExtracted
    ensures u.approvalStatus == r.approvalStatus && u.profileCompleted == r.profileCompleted
    ensures u.lastGeneratedAt == r.lastGeneratedAt
  {
    r.(fullName := StrOr(p, "fullName", r.fullName),
       schoolName := StrOr(p, "schoolName", r.schoolName),
       schoolType := StrOr(p, "schoolType", r.schoolType),
       schoolState := StrOr(p, "schoolState", r.schoolState),
       localGovt := StrOr(p, "localGovt", r.localGovt),
       subjectTaught := StrOr(p, "subjectTaught", r.subjectTaught),
       teachingLevel := StrOr(p, "teachingLevel", r.teachingLevel),
       curriculumStandard := StrOr(p, "curriculumStandard", r.curriculumStandard),
       preferredNoteFormat := StrOr(p, "preferredNoteFormat", r.preferredNoteFormat),
       updatedAt := if "updatedAt" in p && p["updatedAt"].Date? then p["updatedAt"].time else r.updatedAt)
  }

  /** Each of the nine editable columns takes the supplied value when the
      form supplied one and keeps its value otherwise. */
  lemma PayloadChangesOnlySupplied(r: Schema.OnboardingRow, fd: FormData, now: int, key: string)
    requires ProfileSchema.ParseOnboardingPartial(OnboardingInput(fd)).Some?
    requires key in ProfileSchema.OnboardingKeys
    ensures var p := UpdatePayload(ProfileSchema.ParseOnboardingPartial(OnboardingInput(fd)).value, now);
            OnboardingColumn(ApplyPayload(r, p), key) ==
              if key in fd && fd[key] != "" then fd[key] else OnboardingColumn(r, key)
    ensures ApplyPayload(r, UpdatePayload(ProfileSchema.ParseOnboardingPartial(OnboardingInput(fd)).value, now)).updatedAt == now
  {
    var v := ProfileSchema.ParseOnboardingPartial(OnboardingInput(fd)).value;
    var p := UpdatePayload(v, now);
    ApplyPayloadColumn(r, p, key);
    assert key in OnboardingInput(fd);
    if key in fd && fd[key] != "" {
      assert key in v && v[key] == Str(fd[key]);
      assert key in p;
    } else {
      assert key in v && v[key] == Undefined;
      assert key !in p;
    }
  }

  /** An editable column after the update is the payload's string for it,
      or else its previous value. */
  lemma ApplyPayloadColumn(r: Schema.OnboardingRow, p: Record, key: string)
    requires key in ProfileSchema.OnboardingKeys
    ensures OnboardingColumn(ApplyPayload(r, p), key) == StrOr(p, key, OnboardingColumn(r, key))
  {
  }

  /** A validated partial update of a well-formed row leaves it well-formed:
      the partial schema's bounds and enums are within the table's. */
  lemma ValidatedPayloadFits(r: Schema.OnboardingRow, input: Record, now: int)
    requires Schema.OnboardingInCaps(r)
    requires ProfileSchema.ParseOnboardingPartial(input).Some?
    ensures Schema.OnboardingInCaps(ApplyPayload(r, UpdatePayload(ProfileSchema.ParseOnboardingPartial(input).value, now)))
  {
    var validated := ProfileSchema.ParseOnboardingPartial(input).value;
    assert ProfileSchema.OnboardingRules(input, ProfileSchema.OptionalOk);
    var p := UpdatePayload(validated, now);
    var u := ApplyPayload(r, p);
    assert |u.fullName| <= 255 by {
      if "fullName" in p && p["fullName"].Str? { assert input["fullName"] == p["fullName"]; }
    }
    assert |u.schoolName| <= 150 by {
      if "schoolName" in p && p["schoolName"].Str? { assert input["schoolName"] == p["schoolName"]; }
    }
    assert |u.schoolState| <= 100 by {
      if "schoolState" in p && p["schoolState"].Str? { assert input["schoolState"] == p["schoolState"]; }
    }
    assert |u.localGovt| <= 100 by {
      if "localGovt" in p && p["localGovt"].Str? { assert input["localGovt"] == p["localGovt"]; }
    }
    assert u.schoolType in Schema.SchoolTypes by {
      if "schoolType" in p && p["schoolType"].Str? { assert input["schoolType"] == p["schoolType"]; }
    }
    assert u.teachingLevel in Schema.TeachingLevels by {
      if "teachingLevel" in p && p["teachingLevel"].Str? { assert input["teachingLevel"] == p["teachingLevel"]; }
    }
    assert u.curriculumStandard in Schema.CurriculumStandards by {
      if "curriculumStandard" in p && p["curriculumStandard"].Str? {
        assert input["curriculumStandard"] == p["curriculumStandard"];
      }
    }
    assert u.preferredNoteFormat in Schema.NoteFormats by {
      if "preferredNoteFormat" in p && p["preferredNoteFormat"].Str? {
        assert input["preferredNoteFormat"] == p["preferredNoteFormat"];
      }
    }
  }

  datatype UpdateResult = UpdateResult(reply: Reply, onboarding: map<string, Schema.OnboardingRow>)

  /** What `updateOnboardingAction` answers and stores, given the onboarding
      table before it: only a signed-in user with a row of their own and a
      form that validates gets the row updated with the payload; every other
      path leaves the table as it was, and no path adds or removes a row. */
  function UpdateOutcome(onboarding: map<string, Schema.OnboardingRow>, session: Option<User>, fd: FormData,
                         now: int): (r: UpdateResult)
    ensures r.reply.success <==>
              session.Some? && ProfileSchema.ParseOnboardingPartial(OnboardingInput(fd)).Some?
              && session.value.id in onboarding
    ensures !r.reply.success ==> r.onboarding == onboarding
    ensures r.reply.success ==>
              var userId := session.value.id;
              var parsed := ProfileSchema.ParseOnboardingPartial(OnboardingInput(fd));
              r.reply == Reply(true, UpdatedMessage)
              && r.onboarding == onboarding[userId := ApplyPayload(onboarding[userId], UpdatePayload(parsed.value, now))]
    ensures r.onboarding.Keys == onboarding.Keys
    ensures r.reply.message ==
              if session.None? then UpdateNotLoggedIn
              else if ProfileSchema.ParseOnboardingPartial(OnboardingInput(fd)).None? then UpdateFailedMessage
              else if session.value.id !in onboarding then IncompleteMessage
              else UpdatedMessage
  {
    if session.None? then UpdateResult(Reply(false, UpdateNotLoggedIn), onboarding)
    else
      var parsed := ProfileSchema.ParseOnboardingPartial(OnboardingInput(fd));
      var userId := session.value.id;
      if parsed.None? then UpdateResult(Reply(false, UpdateFailedMessage), onboarding)
      else if userId !in onboarding then UpdateResult(Reply(false, IncompleteMessage), onboarding)
      else
        UpdateResult(Reply(true, UpdatedMessage),
                     onboarding[userId := ApplyPayload(onboarding[userId], UpdatePayload(parsed.value, now))])
  }

  /** The server action: every update it makes fits the table, so the write
      never fails. */
  method UpdateOnboardingAction(db: Schema.Store, session: Option<User>, fd: FormData, now: int)
    returns (reply: Reply)
    requires db.Valid()
    modifies db
    ensures db.Valid()
    ensures db.settings == old(db.settings) && db.languages == old(db.languages)
    ensures UpdateResult(reply, db.onboarding) == UpdateOutcome(old(db.onboarding), session, fd, now)
  {
    if session.None? {
      return Reply(false, UpdateNotLoggedIn);
    }
    var userId := session.value.id;
    var parsed := ProfileSchema.ParseOnboardingPartial(OnboardingInput(fd));
    if parsed.None? {
      return Reply(false, UpdateFailedMessage);
    }
    var payload := UpdatePayload(parsed.value, now);
    PayloadNeverEmpty(parsed.value, now);
    if |payload| == 0 {
      assert false;
    }
    if userId !in db.onboarding {
      return Reply(false, IncompleteMessage);
    }
    var row := ApplyPayload(db.onboarding[userId], payload);
    assert row.userId == userId;
    ValidatedPayloadFits(db.onboarding[userId], OnboardingInput(fd), now);
    assert Schema.OnboardingIdFree(db.onboarding, row);
    var ok := db.PutOnboarding(row);
    if ok {
      reply := Reply(true, UpdatedMessage);
    } else {
      assert false;
    }
  }
}
