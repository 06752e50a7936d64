/** `saveOnboardingAction` of src/controllers/onboarding.controller.ts: the
    server action behind the onboarding wizard. It validates the submitted
    form against its own schema (which differs from the one in
    profileSchema.ts), then updates the user's onboarding row or inserts one.
    The session is an input and the database is a `Schema.Store`; the
    generated row id and the clock are inputs too. */
module OnboardingController {
  import opened Common
  import Schema
  import ProfileSchema
  import Middleware

  datatype Reply = Reply(success: bool, message: string, onboardingId: Option<string>)

  const UnauthorizedMessage: string := "Unauthorized: You must be logged in."
  const ValidationMessage: string := "Validation failed: "
  const ServerErrorMessage: string := "Failed to save onboarding due to a server error."
  const SavedMessage: string := "Profile saved successfully. Proceed to file upload."

  /** The action schema's own enums: school type leaves out `international`. */
  const ActionSchoolTypes: seq<string> := ["government", "private", "mission"]
  const ActionNoteFormats: seq<string> := ["structured_table", "paragraph_style", "detailed_breakdown"]
  const ActionCurricula: seq<string> := ["national", "waec", "neco", "state"]

  /** `z.string().min(n)` on `formData.get(key)`: a missing key gives `null`,
      which is not a string. */
  predicate TextAtLeast(fd: FormData, key: string, n: nat) {
    key in fd && |fd[key]| >= n
  }

  predicate OneOfField(fd: FormData, key: string, values: seq<string>) {
    key in fd && fd[key] in values
  }

  /** The conditions of the action's `OnboardingSchema`. */
  predicate ActionSchemaAccepts(fd: FormData) {
    TextAtLeast(fd, "fullName", 1)
    && TextAtLeast(fd, "schoolName", 2)
    && OneOfField(fd, "schoolType", ActionSchoolTypes)
    && TextAtLeast(fd, "schoolState", 2)
    && TextAtLeast(fd, "localGovt", 2)
    && TextAtLeast(fd, "teachingLevel", 1)
    && TextAtLeast(fd, "subjectTaught", 1)
    && OneOfField(fd, "preferredNoteFormat", ActionNoteFormats)
    && OneOfField(fd, "curriculumStandard", ActionCurricula)
  }

  /** `OnboardingSchema.parse(rawData)` followed by `valuesToSave`: the nine
      submitted strings, with the scheme of work cleared. */
  function ParseSaveForm(fd: FormData): (r: Option<Schema.OnboardingValues>)
    ensures r.Some? <==> ActionSchemaAccepts(fd)
    ensures r.Some? ==> r.value.fullName == fd["fullName"] && r.value.schoolName == fd["schoolName"]
                        && r.value.schoolType == fd["schoolType"] && r.value.schoolState == fd["schoolState"]
                        && r.value.localGovt == fd["localGovt"] && r.value.teachingLevel == fd["teachingLevel"]
                        && r.value.subjectTaught == fd["subjectTaught"]
                        && r.value.preferredNoteFormat == fd["preferredNoteFormat"]
                        && r.value.curriculumStandard == fd["curriculumStandard"]
    ensures r.Some? ==> r.value.schemeOfWorkUrl == None && !r.value.schemeExtracted
  {
    if ActionSchemaAccepts(fd) then
      Some(Schema.OnboardingValues(
        fd["fullName"], fd["schoolName"], fd["schoolType"], fd["schoolState"], fd["localGovt"],
        fd["teachingLevel"], fd["subjectTaught"], fd["preferredNoteFormat"], fd["curriculumStandard"],
        None, false))
    else None
  }

  /** The row the action writes for `userId`: the existing row updated with
      the values and the new `updatedAt`, or a new row with `newId`. Either
      way it holds every submitted value. */
  function SavedRow(onboarding: map<string, Schema.OnboardingRow>, userId: string,
                    v: Schema.OnboardingValues, newId: string, now: int): (r: Schema.OnboardingRow)
    ensures r.userId == (if userId in onboarding then onboarding[userId].userId else userId)
    ensures r.id == (if userId in onboarding then onboarding[userId].id else newId)
    ensures Schema.HoldsValues(r, v)
    ensures r.updatedAt == now
  {
    if userId in onboarding then Schema.WithValues(onboarding[userId], v, now)
    else Schema.NewOnboardingRow(newId, userId, v, now)
  }

  /** The reply of the action together with the onboarding table it leaves. */
  datatype SaveResult = SaveResult(reply: Reply, onboarding: map<string, Schema.OnboardingRow>)

  /** What `saveOnboardingAction` answers and stores, given the onboarding
      table before it: only a signed-in user's valid form that the table
      accepts is written, as the user's row, and the answer then carries the
      stored row's id; every other path leaves the table as it was. */
  function SaveOutcome(onboarding: map<string, Schema.OnboardingRow>, session: Option<User>, fd: FormData,
                       newId: string, now: int): (r: SaveResult)
    ensures r.reply.success <==>
              session.Some? && ParseSaveForm(fd).Some?
              && var row := SavedRow(onboarding, session.value.id, ParseSaveForm(fd).value, newId, now);
                 Schema.OnboardingFits(row) && Schema.OnboardingIdFree(onboarding, Schema.StoredOnboarding(row))
    ensures !r.reply.success ==> r.onboarding == onboarding && r.reply.onboardingId == None
    ensures r.reply.success ==>
              var row := SavedRow(onboarding, session.value.id, ParseSaveForm(fd).value, newId, now);
              r.onboarding == onboarding[session.value.id := Schema.StoredOnboarding(row)]
              && r.reply == Reply(true, SavedMessage, Some(Schema.StoredOnboarding(row).id))
    ensures r.reply.message ==
              if session.None? then UnauthorizedMessage
              else if ParseSaveForm(fd).None? then ValidationMessage
              else if r.reply.success then SavedMessage
              else ServerErrorMessage
  {
    if session.None? then SaveResult(Reply(false, UnauthorizedMessage, None), onboarding)
    else if ParseSaveForm(fd).None? then SaveResult(Reply(false, ValidationMessage, None), onboarding)
    else
      var row := SavedRow(onboarding, session.value.id, ParseSaveForm(fd).value, newId, now);
      var stored := Schema.StoredOnboarding(row);
      if Schema.OnboardingFits(row) && Schema.OnboardingIdFree(onboarding, stored) then
        SaveResult(Reply(true, SavedMessage, Some(stored.id)), onboarding[session.value.id := stored])
      else
        SaveResult(Reply(false, ServerErrorMessage, None), onboarding)
  }

  /** The server action. */
  method SaveOnboardingAction(db: Schema.Store, session: Option<User>, fd: FormData, newId: string, now: int)
    returns (reply: Reply)
    requires db.Valid()
    modifies db
    ensures db.Valid()
    ensures db.settings == old(db.settings) && db.languages == old(db.languages)
    ensures SaveResult(reply, db.onboarding) == SaveOutcome(old(db.onboarding), session, fd, newId, now)
    ensures reply.success ==> session.Some? && session.value.id in db.onboarding
  {
    if session.None? {
      return Reply(false, UnauthorizedMessage, None);
    }
    var parsed := ParseSaveForm(fd);
    if parsed.None? {
      return Reply(false, ValidationMessage, None);
    }
    var userId := session.value.id;
    var row := SavedRow(db.onboarding, userId, parsed.value, newId, now);
    if userId in db.onboarding {
      assert row.userId == userId;
    }
    var ok := db.PutOnboarding(row);
    if ok {
      reply := Reply(true, SavedMessage, Some(db.onboarding[userId].id));
    } else {
      reply := Reply(false, ServerErrorMessage, None);
    }
  }

  // ---------------------------------------------------------------------
  // Properties of the action

  /** `international` is offered by the form and allowed by the table, but
      the action's schema refuses it. */
  lemma InternationalRejected(fd: FormData)
    requires "schoolType" in fd && fd["schoolType"] == "international"
    ensures ParseSaveForm(fd).None?
  {
  }

  /** Every school type the action accepts is one the table accepts. */
  lemma ActionSchoolTypesInTable(fd: FormData)
    requires ParseSaveForm(fd).Some?
    ensures ParseSaveForm(fd).value.schoolType in Schema.SchoolTypes
    ensures ParseSaveForm(fd).value.schoolType != "international"
  {
  }

  /** The submitted form as the object the shared schema would parse. */
  function FormRecord(fd: FormData): (obj: Record)
    ensures forall k :: k in fd <==> k in obj
    ensures forall k :: k in fd ==> obj[k] == Str(fd[k])
  {
    map k | k in fd :: Str(fd[k])
  }

  /** Of the forms the action accepts, the shared schema of profileSchema.ts
      accepts exactly those whose name and school name have 3 to 255 and 3 to
      150 characters, whose state and area fit 100, whose subject has at
      least 2 characters and whose teaching level is a table enum value. So
      the action is looser wherever one of these fails, for instance on a
      one-letter name. */
  lemma ActionSchemaLooser(fd: FormData)
    requires ParseSaveForm(fd).Some?
    ensures ProfileSchema.ParseOnboarding(FormRecord(fd)).Some? <==>
              3 <= |fd["fullName"]| <= 255 && 3 <= |fd["schoolName"]| <= 150
              && |fd["schoolState"]| <= 100 && |fd["localGovt"]| <= 100
              && |fd["subjectTaught"]| >= 2 && fd["teachingLevel"] in Schema.TeachingLevels
  {
    var obj := FormRecord(fd);
    ProfileSchema.OnboardingBounds(obj);
    assert fd["schoolType"] in Schema.SchoolTypes;
  }

  /** Conversely, a form the shared schema accepts is refused by the action
      only for school type `international`. */
  lemma SharedSchemaWithinAction(fd: FormData)
    requires ProfileSchema.ParseOnboarding(FormRecord(fd)).Some?
    ensures ParseSaveForm(fd).Some? <==> fd["schoolType"] != "international"
  {
    var obj := FormRecord(fd);
    ProfileSchema.OnboardingBounds(obj);
    assert "fullName" in fd && "schoolType" in fd && "teachingLevel" in fd;
  }

  /** Updating keeps the row's id, owner, creation time and approval state. */
  lemma UpdateKeepsIdentity(onboarding: map<string, Schema.OnboardingRow>, userId: string,
                            v: Schema.OnboardingValues, newId: string, now: int)
    requires userId in onboarding
    ensures var r := SavedRow(onboarding, userId, v, newId, now);
            r.id == onboarding[userId].id && r.userId == onboarding[userId].userId
            && r.createdAt == onboarding[userId].createdAt
            && r.approvalStatus == onboarding[userId].approvalStatus
  {
  }

  /** Inserting gives the new row the generated id, this user, and the
      table defaults. */
  lemma InsertUsesDefaults(onboarding: map<string, Schema.OnboardingRow>, userId: string,
                           v: Schema.OnboardingValues, newId: string, now: int)
    requires userId !in onboarding
    ensures var r := SavedRow(onboarding, userId, v, newId, now);
            r.id == newId && r.userId == userId && r.approvalStatus == "pending"
            && !r.profileCompleted && r.createdAt == now
  {
  }

  /** Every save, update or insert, clears the scheme of work. */
  lemma SaveResetsScheme(onboarding: map<string, Schema.OnboardingRow>, userId: string,
                         fd: FormData, newId: string, now: int)
    requires ParseSaveForm(fd).Some?
    ensures var r := SavedRow(onboarding, userId, ParseSaveForm(fd).value, newId, now);
            r.schemeOfWorkUrl == None && !r.schemeExtracted
  {
  }

  /** Given a well-formed store and a short id, a validated save is refused by
      the database exactly when a value has a character other than a space
      past its length cap or the free-text teaching level is not a database
      enum value. */
  lemma SaveDatabaseErrors(onboarding: map<string, Schema.OnboardingRow>, userId: string,
                           fd: FormData, newId: string, now: int)
    requires ParseSaveForm(fd).Some?
    requires userId in onboarding ==> Schema.OnboardingInCaps(onboarding[userId])
    requires |newId| <= 36
    ensures var r := SavedRow(onboarding, userId, ParseSaveForm(fd).value, newId, now);
            Schema.OnboardingFits(r) <==>
              Schema.FitsVarchar(fd["fullName"], 255) && Schema.FitsVarchar(fd["schoolName"], 150)
              && Schema.FitsVarchar(fd["schoolState"], 100) && Schema.FitsVarchar(fd["localGovt"], 100)
              && fd["teachingLevel"] in Schema.TeachingLevels
  {
    var v := ParseSaveForm(fd).value;
    assert v.schoolType in Schema.SchoolTypes;
  }

  /** After a successful save the user's row holds the submitted form: the
      four `varchar` fields cut to their caps (they can only lose trailing
      spaces), the other five fields as sent, the scheme of work cleared and
      the save time as `updatedAt`. */
  lemma SaveStoresForm(onboarding: map<string, Schema.OnboardingRow>, u: User, fd: FormData,
                       newId: string, now: int)
    requires SaveOutcome(onboarding, Some(u), fd, newId, now).reply.success
    ensures var out := SaveOutcome(onboarding, Some(u), fd, newId, now);
            u.id in out.onboarding
            && var row := out.onboarding[u.id];
               row.fullName == Schema.Truncated(fd["fullName"], 255)
               && row.schoolName == Schema.Truncated(fd["schoolName"], 150)
               && row.schoolState == Schema.Truncated(fd["schoolState"], 100)
               && row.localGovt == Schema.Truncated(fd["localGovt"], 100)
               && row.schoolType == fd["schoolType"] && row.teachingLevel == fd["teachingLevel"]
               && row.subjectTaught == fd["subjectTaught"]
               && row.preferredNoteFormat == fd["preferredNoteFormat"]
               && row.curriculumStandard == fd["curriculumStandard"]
               && row.schemeOfWorkUrl == None && !row.schemeExtracted && row.updatedAt == now
               && out.reply.onboardingId == Some(row.id)
  {
  }

  /** Once a user has an onboarding row, the gate's onboarding wall lets them
      through everywhere but `/login`. */
  lemma SavedUserPassesGate(onboarding: map<string, Schema.OnboardingRow>, u: User, path: string)
    requires u.id in onboarding && path != "/login"
    ensures Middleware.Gate(path, Some(u), id => id in onboarding) == Middleware.Continue
  {
  }
}
