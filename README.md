# SMART-NOTE onboarding and profile core, in Dafny

SMART-NOTE is a Next.js site for teachers. This project models its onboarding and profile core:

- **The request gate** (`src/middleware.ts`). It sends signed-out visitors of protected pages to `/login`, signed-in visitors of `/login` to `/`, and teachers without an onboarding row to `/onboarding`. Only the paths in the matcher reach the gate.
- **The database model** (`src/lib/db/schema.ts`). It covers the enums, the `onboarding`, `languages` and `profile_settings` tables with their length caps, enum columns, defaults and one-row-per-user keys, and the defaults of a lesson note.
- **The validation layer** (`src/lib/db/validation/profileSchema.ts`). It covers `field`, `cleanObject` and the two zod schemas, the onboarding one in its full and its `partial()` form.
- **The server actions.**
  - `saveOnboardingAction` (`src/controllers/onboarding.controller.ts`).
  - `getProfileController`, `updateProfileSettingsController` and `updateOnboardingAction` (`src/controllers/settings.controller.ts`).
  - Each is modelled with its error replies and with the database writes it makes.
- **The three-step onboarding wizard** (`src/app/onboarding/page.tsx` and `pageOne.tsx`, `pageTwo.tsx`, `pageThree.tsx` under `src/components/onboarding/`). It covers the wizard's page and form record, the per-field `touched` flags, the validity checks, the subject picker (toggle, custom entry, removal, the limit of three) and the serialised form that `handleFinish` submits.
- **The three profile cards** under `src/components/profileComponent/`:
  - teaching preferences, with the label formatter;
  - personal details, with the save checks, the two forms and the bio counter;
  - the avatar, with Cloudinary public-id extraction, name shortening, the upload handler and its database save.
- **The site header** (`src/components/layout/header.tsx`). It covers the navigation links, the highlighted link, the avatar URL and the initials.
- **The client-side user context** (`src/context/user.context.tsx`).
- **`slugify`** (`src/lib/utils.ts`).

How the model is built:

- **Database.** A `Schema.Store` class holds the three tables as maps keyed by owner, plus the languages. Each write either satisfies every column constraint or is refused and leaves the table unchanged. As in PostgreSQL, a `varchar(n)` value longer than `n` is accepted when its excess is all spaces, and is then stored cut to `n` characters.
- **Server actions.** They are methods on that store, proved against specification functions of their inputs.
- **React components.** They become classes whose fields are the component's state. Every event handler is a method, and a state update takes effect at once.
- **Helpers.** The JavaScript string operations the source relies on (`trim`, `split`, `join`, case mapping) are in `text.dfy`. `FormData`, JavaScript values and sessions are in `common.dfy`.
- **Outside inputs.** Everything the program gets from outside is a parameter: the session, the current time, generated ids, the URL and UUID validators of zod, and the Cloudinary upload result.

## Model

| member | source | states |
|---|---|---|
| Middleware.Gate | src/middleware.ts:22-57 | The gate's decision: `/login` exactly for a signed-out visitor of a protected path, `/` exactly for a signed-in visitor of `/login`, and `/onboarding` exactly for a signed-in non-admin without an onboarding row who asks for neither `/login` nor an onboarding path; otherwise continue |
| Middleware.Route | src/middleware.ts:60-74 | A path outside the matcher always continues; a matched path gets the gate's decision |
| Middleware.NotificationsPage | src/app/notifications/page.tsx:6-16 | The notifications page sends exactly the signed-in admins to `/` and lets everyone else through |
| Middleware.AnonymousProtectedGoesToLogin | src/middleware.ts:27-28 | A signed-out request for any path under a protected prefix is sent to `/login` |
| Middleware.AnonymousUnprotectedContinues | src/middleware.ts:27-56 | A signed-out request for a path under no protected prefix continues |
| Middleware.LoginPageIsOpen | src/middleware.ts:27-32 | The login page is reachable while signed out |
| Middleware.SignedInLoginGoesHome | src/middleware.ts:31-32 | A signed-in user asking for `/login` goes to `/`, whether or not they have an onboarding row |
| Middleware.AdminSkipsOnboardingWall | src/middleware.ts:35-49 | An admin is never sent to `/onboarding`, and the onboarding table does not affect an admin's decision |
| Middleware.OnboardingWall | src/middleware.ts:39-48 | A non-admin without a row is sent to `/onboarding` from every path except `/login` and the onboarding pages, which continue |
| Middleware.OnboardedUserContinues | src/middleware.ts:39-56 | A signed-in user with an onboarding row continues on every path except `/login` |
| Middleware.AdminSettingsUnprotected | src/middleware.ts:60-74 | `/admin/settings` is in the matcher but under no protected prefix, so a signed-out visitor reaches it |
| Middleware.RootIsNotGated | src/middleware.ts:60-74 | `/` is outside the matcher: a teacher without a row would be walled by the gate yet reaches the home page |
| Middleware.PrefixWiderThanMatcher | src/middleware.ts:9-20 | The prefix test would protect `/notificationsX`, but the matcher never sends it to the gate, so it continues signed out |
| Middleware.MatchedIsProtectedOrAdminSettings | src/middleware.ts:60-74 | Every matched path other than `/login` is under a protected prefix or is `/admin/settings` or below it |
| Middleware.GateDeterministic | src/middleware.ts:22-57 | The decision depends only on the path, the session and whether that session's user has a row |
| Utils.KeepAllowed | src/lib/utils.ts:13 | The output holds only `[a-z0-9\s-]` characters, and an input made only of those is unchanged |
| Utils.Squeeze | src/lib/utils.ts:14-15 | Replacing runs keeps the first character or turns it into the replacement, and the output is empty exactly when the input is |
| Utils.TrimHyphens | src/lib/utils.ts:16 | The output neither starts nor ends with `-` |
| Utils.KeepAllowedAlnums | src/lib/utils.ts:13 | Filtering keeps every letter and digit, in order |
| Utils.SqueezeAlnums | src/lib/utils.ts:14-15 | Collapsing white space or hyphens keeps every letter and digit, in order |
| Utils.TrimHyphensAlnums | src/lib/utils.ts:16 | Stripping edge hyphens keeps every letter and digit |
| Utils.SqueezeNoDouble | src/lib/utils.ts:15 | After collapsing a class into one of its members, no two neighbours are both in the class |
| Utils.SqueezeSpacesSlugChars | src/lib/utils.ts:14 | Turning white-space runs into `-` leaves only `[a-z0-9-]` characters |
| Utils.SqueezeHyphensSlugChars | src/lib/utils.ts:15 | Collapsing hyphen runs keeps `[a-z0-9-]` and leaves no `--` |
| Utils.TrimHyphensSlug | src/lib/utils.ts:16 | Stripping edge hyphens from such a string gives a slug |
| Utils.SlugifyAlnums | src/lib/utils.ts:9-17 | The letters and digits of the lower-cased input survive `slugify`, in order |
| Utils.Slugify | src/lib/utils.ts:9-17 | The result is a slug (only `a-z`, `0-9` and `-`, no `--`, no hyphen at either end), and deleting its hyphens gives exactly the letters and digits of the lower-cased input, in order |
| Utils.SlugifyNoAlphanumerics | src/lib/utils.ts:9-17 | An input without a letter or digit gives the empty slug |
| Utils.SlugifyFixesSlugs | src/lib/utils.ts:9-17 | A slug is its own slug |
| Utils.SlugifyIdempotent | src/lib/utils.ts:9-17 | `slugify` applied twice is `slugify` applied once |
| Schema.EnumSizes | src/lib/db/schema.ts:75-108 | The school-type, curriculum, teaching-level, note-format and approval enums have 4, 4, 3, 3 and 3 values, and the first four are free of repetitions |
| Schema.Truncated | src/lib/db/schema.ts:113-128 | The value a `varchar(n)` column holds: within `n` characters, a prefix of the value written, equal to it when it fits, and when the value was accepted only spaces are cut |
| Schema.WithinCapFits | src/lib/db/schema.ts:113-128 | A value within the cap is accepted and stored unchanged |
| Schema.TrailingSpacesTruncated | src/lib/db/schema.ts:113-128 | A value of `n` characters followed by spaces is accepted by a `varchar(n)` column and stored as those `n` characters |
| Schema.NonSpaceExcessRefused | src/lib/db/schema.ts:113-128 | A value with a character other than a space past the cap is refused |
| Schema.StoredOnboarding | src/lib/db/schema.ts:111-147 | The stored row differs from the written one only in its five `varchar` columns, which are cut to their caps; an accepted row is stored within the caps, and a row within the caps is stored as it is |
| Schema.StoredSettings | src/lib/db/schema.ts:215-239 | The same for a settings row's id, language id and display name; the stored row meets the caps and the language key |
| Schema.NewOnboardingRow | src/lib/db/schema.ts:111-147 | An inserted row holds the given values, the generated id, its owner, approval `pending`, `profileCompleted` false, no generation time, and the insert time as both timestamps |
| Schema.WithValues | src/controllers/onboarding.controller.ts:89-100 | An update holds the given values in all nine form columns and both scheme columns, sets `updatedAt`, and keeps id, owner, creation time, approval state, completion flag and generation time |
| Schema.NewRowFits | src/lib/db/schema.ts:111-147 | A fresh row with a short id is accepted exactly when each `varchar` value fits its cap up to trailing spaces and the values are in the enum sets |
| Schema.LessonNoteDefaults | src/lib/db/schema.ts:278-281 | A new lesson note is an incomplete, private draft |
| Schema.Store.constructor | src/lib/db/schema.ts:204-211 | A new store has empty onboarding and settings tables and the given languages |
| Schema.Store.PutOnboarding | src/lib/db/schema.ts:111-147 | A write succeeds exactly when the row meets the column constraints, up to trailing spaces, and its stored id is unused by another user. On success only the owner's row is replaced, by the stored form of the row; on failure nothing changes |
| Schema.Store.PutSettings | src/lib/db/schema.ts:215-239 | The same rule for a settings row, whose constraints include the language foreign key on the stored language id |
| Schema.PutKeepsOtherUsers | src/lib/db/schema.ts:117-120 | Writing a row keyed by its owner leaves every other user's row as it was and stores this one |
| ProfileSchema.Field | src/lib/db/validation/profileSchema.ts:34-37 | `field` gives `undefined` exactly when the key is missing or empty, otherwise the string itself; never `null` |
| ProfileSchema.CleanObject | src/lib/db/validation/profileSchema.ts:41-45 | The result keeps exactly the entries whose value is neither `undefined` nor `null`, with their values |
| ProfileSchema.CleanObjectIdempotent | src/lib/db/validation/profileSchema.ts:41-45 | Cleaning a cleaned object changes nothing |
| ProfileSchema.CleanObjectKeepsEmptyStrings | src/lib/db/validation/profileSchema.ts:43 | An empty string survives `cleanObject` |
| ProfileSchema.Restrict | src/lib/db/validation/profileSchema.ts:10-17 | A parsed object keeps exactly the schema's keys that the input has, with their values |
| ProfileSchema.ParseProfileSettings | src/lib/db/validation/profileSchema.ts:10-17 | Parsing succeeds exactly when every present field passes its check, and then returns the input restricted to the six keys |
| ProfileSchema.AllAbsentSettingsValidate | src/lib/db/validation/profileSchema.ts:10-17 | Every settings field is optional and nullable |
| ProfileSchema.SettingsLengthCaps | src/lib/db/validation/profileSchema.ts:13-15 | A bio is accepted exactly up to 300 characters and a display name up to 100 |
| ProfileSchema.ParseOnboarding | src/lib/db/validation/profileSchema.ts:20-30 | The full schema accepts exactly when every field is present and passes its rule, returning the nine fields |
| ProfileSchema.ParseOnboardingPartial | src/lib/db/validation/profileSchema.ts:20-30 | The partial schema accepts exactly when every present field passes its rule, returning the fields given |
| ProfileSchema.OnboardingBounds | src/lib/db/validation/profileSchema.ts:21-29 | The full schema's rules, field by field: the length ranges of the five text fields and the database enum sets of the four choices |
| ProfileSchema.PartialEnumIsDbEnum | src/lib/db/validation/profileSchema.ts:23-29 | A single enum field passes the partial schema exactly when its value is in the database enum |
| ProfileSchema.FullImpliesPartial | src/lib/db/validation/profileSchema.ts:20-30 | Whatever the full schema accepts, the partial schema accepts with the same result |
| ProfileSchema.OnboardingSchemaWithinDbCaps | src/lib/db/validation/profileSchema.ts:21-27 | Values the full schema accepts fit the table's length caps and enums |
| OnboardingController.ParseSaveForm | src/controllers/onboarding.controller.ts:51-87 | The action schema accepts exactly its own conditions, and the values to save are the submitted fields with no scheme of work and `schemeExtracted` false |
| OnboardingController.SavedRow | src/controllers/onboarding.controller.ts:74-115 | An update keeps the existing row's id and owner; an insert is a new row with the new id owned by the user. Either way the row holds every submitted value with the scheme of work cleared, and carries the save time |
| OnboardingController.SaveOutcome | src/controllers/onboarding.controller.ts:40-141 | Success exactly for a signed-in user's valid form whose row the table accepts; then the user's row becomes the stored row and the reply carries its id. Every failure leaves the table as it was, with the unauthorized, validation or server-error message of its path |
| OnboardingController.SaveOnboardingAction | src/controllers/onboarding.controller.ts:40-141 | The reply and the new onboarding table are those of `SaveOutcome`; the other tables do not change, and a success means the user now has a row |
| OnboardingController.SaveStoresForm | src/controllers/onboarding.controller.ts:74-115 | After a successful save the user's row holds the submitted fields (the four `varchar` ones cut to their caps), no scheme of work and the save time, and the reply carries that row's id |
| OnboardingController.InternationalRejected | src/controllers/onboarding.controller.ts:18-20 | The action refuses school type `international` |
| OnboardingController.ActionSchoolTypesInTable | src/controllers/onboarding.controller.ts:18-20 | Every school type the action accepts is one the table accepts, and never `international` |
| OnboardingController.FormRecord | src/controllers/onboarding.controller.ts:51-61 | The object has the form's keys, each holding the submitted string |
| OnboardingController.ActionSchemaLooser | src/controllers/onboarding.controller.ts:13-35 | Of the forms the action accepts, the shared schema accepts exactly those with a name of 3 to 255 and a school of 3 to 150 characters, state and area within 100, a subject of at least 2 and a table teaching level |
| OnboardingController.SharedSchemaWithinAction | src/controllers/onboarding.controller.ts:13-35 | A form the shared schema accepts is refused by the action exactly when its school type is `international` |
| OnboardingController.UpdateKeepsIdentity | src/controllers/onboarding.controller.ts:89-100 | Updating keeps the row's id, owner, creation time and approval state |
| OnboardingController.InsertUsesDefaults | src/controllers/onboarding.controller.ts:102-115 | Inserting uses the generated id, this user, and the table's defaults |
| OnboardingController.SaveResetsScheme | src/controllers/onboarding.controller.ts:85-86 | Every save clears the scheme-of-work URL and the extracted flag |
| OnboardingController.SaveDatabaseErrors | src/controllers/onboarding.controller.ts:89-139 | A validated save is refused by the database exactly when a value has a character other than a space past its length cap or the free-text teaching level is not a database enum value |
| OnboardingController.SavedUserPassesGate | src/middleware.ts:39-48 | Once the user has a row, the onboarding wall lets them through on every path but `/login` |
| SettingsController.JoinLanguage | src/controllers/settings.controller.ts:28-30 | The joined language is present exactly when the settings row names a language in the table, and it is that language |
| SettingsController.GetProfileController | src/controllers/settings.controller.ts:18-50 | Throws exactly without a session. Otherwise the profile is null exactly when there is no onboarding row, and it merges the row with the settings fields |
| SettingsController.ProfileWithoutSettings | src/controllers/settings.controller.ts:37-44 | Without a settings row every settings field of the profile is null |
| SettingsController.ProfileWithSettings | src/controllers/settings.controller.ts:37-45 | With a settings row the profile carries its values and its language |
| SettingsController.ProfileNameFromSession | src/controllers/settings.controller.ts:41 | The profile's name is the session's name, or `Anonymous`, not the saved full name |
| SettingsController.SettingsInput | src/controllers/settings.controller.ts:58-65 | The object parsed holds the six settings keys, each read with `field` |
| SettingsController.CleanData | src/controllers/settings.controller.ts:67 | Keeps exactly the entries that are neither undefined, null nor empty |
| SettingsController.CleanDataIsCleanObject | src/controllers/settings.controller.ts:67 | On parsed form data, `cleanData` equals `cleanObject` |
| SettingsController.NoDataIffAllBlank | src/controllers/settings.controller.ts:67-70 | Nothing is left to save exactly when each of the six fields is missing or empty |
| SettingsController.ApplySettings | src/controllers/settings.controller.ts:75-78 | The upsert's update keeps id, owner and creation time, and stamps the update time |
| SettingsController.UpsertedRow | src/controllers/settings.controller.ts:72-79 | On a conflict on `userId` the existing row is updated and keeps its id and owner; otherwise a new row with the new id belongs to the user |
| SettingsController.UpsertOverwritesOnlySupplied | src/controllers/settings.controller.ts:72-79 | Each settings column becomes the supplied value, or else keeps its previous value, or is null in a new row |
| SettingsController.UpsertIdempotent | src/controllers/settings.controller.ts:72-79 | Upserting the same data again at the same time gives back the same row |
| SettingsController.SettingsOutcome | src/controllers/settings.controller.ts:53-91 | A throw exactly without a session. A save exactly when the form parses, leaves something to save, and the table accepts the upserted row; then the stored row is returned and becomes the user's row. Every other path leaves the table as it was, with "no data" when nothing was left and the failure message otherwise |
| SettingsController.UpdateProfileSettingsController | src/controllers/settings.controller.ts:53-91 | The outcome and the new settings table are those of `SettingsOutcome`; the other tables do not change |
| SettingsController.OnboardingInput | src/controllers/settings.controller.ts:102-112 | The object parsed holds the nine onboarding keys, each read with `field` |
| SettingsController.UpdatePayload | src/controllers/settings.controller.ts:114 | The payload always has `updatedAt` as the given time, and every other entry is a validated one |
| SettingsController.PayloadNeverEmpty | src/controllers/settings.controller.ts:114-118 | The payload is never empty, so the "no valid data" reply cannot occur |
| SettingsController.ApplyPayload | src/controllers/settings.controller.ts:127-130 | The update keeps id, owner, creation time, scheme, approval, completion and generation time |
| SettingsController.PayloadChangesOnlySupplied | src/controllers/settings.controller.ts:113-130 | Each editable column takes the supplied value when given and keeps its value otherwise, and the update time is stamped |
| SettingsController.ValidatedPayloadFits | src/controllers/settings.controller.ts:113-130 | A validated partial update keeps a well-formed row within the table's constraints |
| SettingsController.UpdateOutcome | src/controllers/settings.controller.ts:94-145 | Success exactly for a signed-in user with a row and a form that validates; then only the user's row is updated with the payload. Every other path leaves the table as it was, with the not-logged-in, validation or "complete the full profile form first" message; no path adds or removes a row |
| SettingsController.UpdateOnboardingAction | src/controllers/settings.controller.ts:94-145 | The reply and the new onboarding table are those of `UpdateOutcome`, so the write never fails; the other tables do not change |
| OnboardingPage.Merge | src/app/onboarding/page.tsx:182-197 | Each field of the merge is the update's value when given, else the old one |
| OnboardingPage.MergeLaws | src/app/onboarding/page.tsx:182-197 | Merging no change is the identity, and merging an update twice is merging it once |
| OnboardingPage.StepProgress | src/app/onboarding/page.tsx:27-46 | The progress of a step is the share of the three steps reached, in whole percent rounded down (33, 66, 100) |
| OnboardingPage.ProgressIncreasing | src/app/onboarding/page.tsx:65-66 | Progress rises strictly with the page and is 100 on the last |
| OnboardingPage.FinishForm | src/app/onboarding/page.tsx:91-106 | The submitted form has exactly the nine keys: every field verbatim, with subjects and levels comma-joined |
| OnboardingPage.FinishFormSubjectsRoundTrip | src/app/onboarding/page.tsx:101 | Splitting the submitted subjects on commas gives back the list, when no subject holds a comma |
| OnboardingPage.FinishFormSingleLevel | src/app/onboarding/page.tsx:102 | A single teaching level is sent as itself |
| OnboardingPage.Wizard.Progress | src/app/onboarding/page.tsx:65-66 | The bar shows the current step's progress |
| OnboardingPage.Wizard.constructor | src/app/onboarding/page.tsx:50-61 | The wizard starts on page 1 with an empty record |
| OnboardingPage.Wizard.HandleNext | src/app/onboarding/page.tsx:68-76 | One page forward unless on the last; nothing else changes |
| OnboardingPage.Wizard.HandleBack | src/app/onboarding/page.tsx:78-86 | One page back unless on the first; nothing else changes |
| OnboardingPage.Wizard.SetData | src/app/onboarding/page.tsx:182-197 | The record becomes the merge of the old record and the update |
| OnboardingPage.Wizard.HandleFinish | src/app/onboarding/page.tsx:88-126 | The reply and the onboarding table are those of `saveOnboardingAction` (`SaveOutcome`) on the serialised record; the wizard navigates to the news feed exactly on success, and the record and page are kept |
| PageOne.Step.ShowError | src/components/onboarding/pageOne.tsx:57-59 | An error shows exactly for a touched, empty field |
| PageOne.Step.constructor | src/components/onboarding/pageOne.tsx:44-47 | No field starts touched |
| PageOne.Step.Prefill | src/components/onboarding/pageOne.tsx:49-53 | The record becomes its prefilled form |
| PageOne.Prefilled | src/components/onboarding/pageOne.tsx:49-53 | Only the full name changes, and only when it is empty and the session has a name, which it then takes |
| PageOne.PrefillSettles | src/components/onboarding/pageOne.tsx:49-53 | Running the prefill effect again changes nothing |
| PageOne.Step.HandleSubmit | src/components/onboarding/pageOne.tsx:61-68 | A valid step advances a page; an invalid one stays and marks both fields touched |
| PageOne.Step.ChangeSchoolName | src/components/onboarding/pageOne.tsx:136-141 | Sets the school name and marks it touched |
| PageOne.Step.BlurSchoolName | src/components/onboarding/pageOne.tsx:142 | Marks the school name touched |
| PageOne.Step.ChangeSchoolType | src/components/onboarding/pageOne.tsx:175-180 | Sets the school type and marks it touched |
| PageOne.Step.OpenChangeSchoolType | src/components/onboarding/pageOne.tsx:181-185 | Closing the menu marks the school type touched; opening it changes nothing |
| PageOne.OffersEveryTableSchoolType | src/components/onboarding/pageOne.tsx:18-23 | The options are exactly the table's school types, `international` included |
| PageOne.StepAcceptsWhatActionRefuses | src/components/onboarding/pageOne.tsx:55 | A valid step with a one-letter school name or type `international` is refused by the save action |
| PageTwo.CurrentLevel | src/components/onboarding/pageTwo.tsx:51 | The shown level is the first of the list, or empty |
| PageTwo.Step.ShowError | src/components/onboarding/pageTwo.tsx:60-62 | An error shows exactly for a touched, falsy field |
| PageTwo.Step.constructor | src/components/onboarding/pageTwo.tsx:43-47 | No field starts touched |
| PageTwo.Step.SelectState | src/components/onboarding/pageTwo.tsx:105-110 | Sets the state, clears the area and marks the state touched |
| PageTwo.Step.SelectLocalGovt | src/components/onboarding/pageTwo.tsx:150-160 | Under a known state, sets the area and marks it touched; while the state is unknown the select is disabled and nothing changes |
| PageTwo.Step.HandleLevelChange | src/components/onboarding/pageTwo.tsx:53-58 | The chosen level replaces the whole list and is the one shown |
| PageTwo.Step.HandleSubmit | src/components/onboarding/pageTwo.tsx:64-71 | A valid step advances a page; an invalid one stays and marks all three fields touched |
| PageTwo.LevelErrorNeverShown | src/components/onboarding/pageTwo.tsx:60-62 | The teaching-level error is never shown, since an empty array is truthy |
| PageTwo.MissingLevelSilent | src/components/onboarding/pageTwo.tsx:49 | With no level the step is invalid, yet no error says why |
| PageTwo.StateChangeInvalidates | src/components/onboarding/pageTwo.tsx:105-110 | After a state is chosen, the step is invalid until an area is chosen |
| PageThree.Without | src/components/onboarding/pageThree.tsx:106-110 | Removal takes out every copy of the subject and keeps the rest |
| PageThree.Toggle | src/components/onboarding/pageThree.tsx:75-88 | A selected subject is removed, and an unselected one is appended while fewer than three are chosen |
| PageThree.Capitalize | src/components/onboarding/pageThree.tsx:97 | Upper-cases the first character and keeps the rest |
| PageThree.LowerAll | src/components/onboarding/pageThree.tsx:94 | Each subject lower-cased |
| PageThree.AddCustom | src/components/onboarding/pageThree.tsx:90-104 | A non-blank trimmed input, new ignoring case, is appended capitalised while fewer than three are chosen, and the box is cleared; otherwise nothing changes |
| PageThree.Step.ShowError | src/components/onboarding/pageThree.tsx:71-73 | An error shows exactly for a touched, empty select |
| PageThree.Step.constructor | src/components/onboarding/pageThree.tsx:59-63 | Empty input box and no select touched |
| PageThree.Step.ChangeCustomInput | src/components/onboarding/pageThree.tsx:219 | Sets the input box |
| PageThree.Step.ToggleSubject | src/components/onboarding/pageThree.tsx:75-88 | The subjects become their toggle |
| PageThree.Step.AddCustomSubject | src/components/onboarding/pageThree.tsx:90-104 | The subjects and the box become the result of adding the custom subject |
| PageThree.Step.RemoveSubject | src/components/onboarding/pageThree.tsx:168-171 | The subjects lose the removed one |
| PageThree.Step.ChangeNoteFormat | src/components/onboarding/pageThree.tsx:269-274 | Sets the note format and marks it touched |
| PageThree.Step.OpenChangeNoteFormat | src/components/onboarding/pageThree.tsx:275-279 | Closing the menu marks the note format touched |
| PageThree.Step.ChangeCurriculum | src/components/onboarding/pageThree.tsx:318-323 | Sets the curriculum and marks it touched |
| PageThree.Step.OpenChangeCurriculum | src/components/onboarding/pageThree.tsx:324-328 | Closing the menu marks the curriculum touched |
| PageThree.Step.HandleSubmit | src/components/onboarding/pageThree.tsx:112-119 | A valid step finishes the wizard: the reply and the onboarding table are the save action's on the serialised record, then the news feed on success. An invalid one sends nothing and marks both selects touched |
| PageThree.SubjectsBounded | src/components/onboarding/pageThree.tsx:26 | No control lets the list grow past three subjects |
| PageThree.ToggleKeepsDistinct | src/components/onboarding/pageThree.tsx:75-88 | Toggling keeps a list of distinct subjects distinct |
| PageThree.WithoutRemovesOnly | src/components/onboarding/pageThree.tsx:106-110 | After removal the subject is gone, and exactly the other subjects remain |
| PageThree.CapitalizeSameLetters | src/components/onboarding/pageThree.tsx:97 | Capitalising changes no letter, ignoring case |
| PageThree.AddCustomKeepsDistinct | src/components/onboarding/pageThree.tsx:90-104 | Adding a custom subject keeps a list of distinct subjects distinct |
| PageThree.AddCustomKeepsDistinctIgnoringCase | src/components/onboarding/pageThree.tsx:90-104 | Adding keeps the list distinct ignoring case |
| PageThree.BlankInputIgnored | src/components/onboarding/pageThree.tsx:91-93 | A blank input adds nothing and stays in the box |
| PageThree.RemoveUndoesAdd | src/components/onboarding/pageThree.tsx:106-110 | Removing what the add control appended restores the list |
| PageThree.ToggleTwice | src/components/onboarding/pageThree.tsx:75-88 | Toggling an unselected subject twice restores the list; toggling a selected one twice keeps the same subjects |
| PageThree.DisabledControlsAreIdle | src/components/onboarding/pageThree.tsx:189-190 | A disabled subject button or add button would change nothing |
| PageThree.ToggleIgnoresCustomCase | src/components/onboarding/pageThree.tsx:75-88 | With a custom `Civic education` chosen, the common `Civic Education` button adds a case-insensitive duplicate |
| PageThree.CustomKeepsLaterCase | src/components/onboarding/pageThree.tsx:90-104 | A custom subject is stored with only its first character upper-cased and the rest as typed, so `civic education` becomes `Civic education` |
| PageThree.ValidStepSubmitsSubjects | src/components/onboarding/pageThree.tsx:65-69 | A valid step submits one to three subjects |
| OnboardingDetails.Underscores | src/components/profileComponent/onboardingDetails.tsx:97 | Every underscore becomes a space and nothing else changes |
| OnboardingDetails.TitleCase | src/components/profileComponent/onboardingDetails.tsx:97 | Underscores become spaces and each word start is upper-cased; the length is kept |
| OnboardingDetails.FormatDisplay | src/components/profileComponent/onboardingDetails.tsx:77-98 | `Not set` for an empty value, the map's label for a known value, else the title-cased value |
| OnboardingDetails.EveryEnumValueLabelled | src/components/profileComponent/onboardingDetails.tsx:80-95 | Every value of the four edited database enums has its own label |
| OnboardingDetails.TitleCaseLaws | src/components/profileComponent/onboardingDetails.tsx:97 | The fallback leaves no underscore, keeps every letter up to case, and is idempotent |
| OnboardingDetails.NotSetOnlyForEmpty | src/components/profileComponent/onboardingDetails.tsx:77-98 | `Not set` is shown exactly for the empty value |
| OnboardingDetails.Initial | src/components/profileComponent/onboardingDetails.tsx:68-73 | The dialog starts from each prop, or empty |
| OnboardingDetails.SaveForm | src/components/profileComponent/onboardingDetails.tsx:110-115 | The five keys: the subject trimmed, the rest verbatim |
| OnboardingDetails.DetailsCard.constructor | src/components/profileComponent/onboardingDetails.tsx:68-73 | Closed dialog, values from the props |
| OnboardingDetails.DetailsCard.SetOpen | src/components/profileComponent/onboardingDetails.tsx:153 | Opens or closes the dialog and keeps the values |
| OnboardingDetails.DetailsCard.ChangeSubject | src/components/profileComponent/onboardingDetails.tsx:189 | Sets the subject only |
| OnboardingDetails.DetailsCard.Select | src/components/profileComponent/onboardingDetails.tsx:209-299 | Sets the chosen select's value only |
| OnboardingDetails.DetailsCard.HandleSave | src/components/profileComponent/onboardingDetails.tsx:100-125 | A failed guard shows the fill-in toast and sends nothing. Otherwise the reply and onboarding table are those of `updateOnboardingAction` (`UpdateOutcome`) on the five preferences, the success toast is shown whatever it answers, and the dialog closes |
| OnboardingDetails.DetailsCard.HandleCancel | src/components/profileComponent/onboardingDetails.tsx:127-134 | Back to the props, dialog closed |
| OnboardingDetails.FormValidPassesGuard | src/components/profileComponent/onboardingDetails.tsx:136-137 | An enabled save button implies the guard passes and the badge reads complete |
| OnboardingDetails.BlankSubjectCompleteButInvalid | src/components/profileComponent/onboardingDetails.tsx:136-137 | A subject of spaces reads complete on the badge, yet the form is invalid and the guard fails |
| OnboardingDetails.SuccessAfterRejectedUpdate | src/components/profileComponent/onboardingDetails.tsx:117-119 | Any subject that trims to one character passes the guard (with the four selects chosen) but fails the action's schema, so success is announced for an update not made |
| OnboardingDetails.CancelRestoresProps | src/components/profileComponent/onboardingDetails.tsx:127-137 | After cancel, the badge is complete exactly when every prop is present and non-empty |
| PersonalDetails.Initial | src/components/profileComponent/personalDetails.tsx:26-30 | The dialog starts from each prop, or empty |
| PersonalDetails.FirstError | src/components/profileComponent/personalDetails.tsx:37-50 | No error exactly when state, area and school are non-blank; otherwise the message of the first blank one, in that order |
| PersonalDetails.LocationForm | src/components/profileComponent/personalDetails.tsx:55-59 | The three location fields, trimmed |
| PersonalDetails.BioForm | src/components/profileComponent/personalDetails.tsx:62-64 | The bio alone, trimmed |
| PersonalDetails.BioCounter | src/components/profileComponent/personalDetails.tsx:194-196 | Shown exactly past 250 characters, as 300 minus the length |
| PersonalDetails.PersonalCard.constructor | src/components/profileComponent/personalDetails.tsx:26-30 | Closed dialog, values from the props |
| PersonalDetails.PersonalCard.SetOpen | src/components/profileComponent/personalDetails.tsx:98 | Opens or closes the dialog and keeps the values |
| PersonalDetails.PersonalCard.Change | src/components/profileComponent/personalDetails.tsx:132-184 | Sets the edited field only |
| PersonalDetails.PersonalCard.HandleSave | src/components/profileComponent/personalDetails.tsx:33-73 | A failed check shows its message and sends nothing. Without a session the error toast shows and nothing changes. Otherwise the onboarding table is `UpdateOutcome` on the trimmed location and the settings table is `SettingsOutcome` on the trimmed bio (so a blank bio leaves it as it was), and the success toast shows with the dialog closed |
| PersonalDetails.BlankBioKeepsSettings | src/components/profileComponent/personalDetails.tsx:62-64 | A blank bio leaves the settings table as it was, whoever is signed in |
| PersonalDetails.BioSaveWritesBio | src/components/profileComponent/personalDetails.tsx:62-64 | A stored bio save writes the trimmed, non-blank bio of at most 300 characters and keeps the photo and social links of the user's row |
| PersonalDetails.PersonalCard.HandleCancel | src/components/profileComponent/personalDetails.tsx:75-82 | Back to the props, dialog closed |
| PersonalDetails.ButtonMatchesChecks | src/components/profileComponent/personalDetails.tsx:244 | The save button is enabled exactly when no check fails and no save is pending |
| PersonalDetails.BioFormOutcome | src/components/profileComponent/personalDetails.tsx:62-64 | The bio validates exactly when trimmed to at most 300 characters, and is saved only when non-blank |
| PersonalDetails.BoxBioValidates | src/components/profileComponent/personalDetails.tsx:188 | Any bio the box's length limit lets through validates |
| PersonalDetails.ShortSchoolNameNotSaved | src/components/profileComponent/personalDetails.tsx:55-59 | A school name of one or two characters passes the card's checks but is refused by the action |
| PersonalDetails.CounterRange | src/components/profileComponent/personalDetails.tsx:194-196 | Within the limit the counter is between 0 and 49 |
| ProfileDetails.DropVersions | src/components/profileComponent/profileDetails.tsx:84 | No version segment is left, and the list does not grow |
| ProfileDetails.FindIndex | src/components/profileComponent/profileDetails.tsx:85 | The first position of `upload`, or -1 exactly when it is absent |
| ProfileDetails.StripExtension | src/components/profileComponent/profileDetails.tsx:87 | Unchanged, or cut just before a dot |
| ProfileDetails.StripExtensionOf | src/components/profileComponent/profileDetails.tsx:87 | The extension is removed, and only the extension |
| ProfileDetails.StripExtensionNoDot | src/components/profileComponent/profileDetails.tsx:87 | A name without a dot is kept |
| ProfileDetails.GetPublicId | src/components/profileComponent/profileDetails.tsx:81-91 | The id is the version-free path after the first `upload` segment (the whole path when there is none), kept as it is or cut just before a dot |
| ProfileDetails.PublicIdOfUploadUrl | src/components/profileComponent/profileDetails.tsx:81-91 | For `.../upload/v<digits>/<path>/<name>.<ext>` the public id is `<path>/<name>` |
| ProfileDetails.PublicIdWithoutUpload | src/components/profileComponent/profileDetails.tsx:81-91 | Without an `upload` segment the whole URL less its extension is the id |
| ProfileDetails.ShortenName | src/components/profileComponent/profileDetails.tsx:166-168 | A name within the limit is kept; a longer one is its first characters plus an ellipsis |
| ProfileDetails.ShortenNameLaws | src/components/profileComponent/profileDetails.tsx:166-168 | At most one character over the limit, and shortening twice is shortening once |
| ProfileDetails.AvatarInitials | src/components/profileComponent/profileDetails.tsx:181-187 | `U` without a name, else the upper-cased word starts |
| ProfileDetails.DbForm | src/components/profileComponent/profileDetails.tsx:133-135 | The uploaded URL as both file and thumbnail |
| ProfileDetails.AvatarRow | src/components/profileComponent/profileDetails.tsx:137-138 | The saved row has the URL in both columns and the save time |
| ProfileDetails.AvatarFormOutcome | src/components/profileComponent/profileDetails.tsx:133-138 | The form validates exactly when the URL is empty or passes the URL check; an empty URL saves nothing |
| ProfileDetails.SaveAvatar | src/components/profileComponent/profileDetails.tsx:137-138 | Saved exactly when there is a session, a non-empty valid URL and a row the table takes; only then does the table change, to the stored avatar row |
| ProfileDetails.ProfileCard.constructor | src/components/profileComponent/profileDetails.tsx:39-53 | The avatar is the prop's URL or the logo, and the previous id is the prop's when truthy |
| ProfileDetails.ProfileCard.SetOpenUpload | src/components/profileComponent/profileDetails.tsx:175 | Opens or closes the dialog only |
| ProfileDetails.ProfileCard.SelectFile | src/components/profileComponent/profileDetails.tsx:215 | Sets or clears the file only |
| ProfileDetails.ProfileCard.Commit | src/components/profileComponent/profileDetails.tsx:141-150 | The previous non-empty id is queued for deletion, the new URL and id are remembered, and the dialog is closed and reset |
| ProfileDetails.ProfileCard.HandleUpload | src/components/profileComponent/profileDetails.tsx:95-159 | No file and too large fail first. Otherwise success exactly when the upload gives a URL the database saves, and then the avatar, id, deletion queue and settings row change; on failure nothing does |
| Header.NavItems | src/components/layout/header.tsx:64-77 | No links while loading or signed out, the two admin pages for an admin, the five teacher pages otherwise |
| Header.AvatarUrl | src/components/layout/header.tsx:51 | The trimmed profile URL when non-empty, else a non-empty session image, else the logo |
| Header.InitialsSource | src/components/layout/header.tsx:55-56 | The profile's non-empty name, else the session's non-empty name, else none |
| Header.HeaderInitials | src/components/layout/header.tsx:55-61 | `U` without a name, else the upper-cased word starts |
| Header.NavItemsProtected | src/components/layout/header.tsx:64-77 | Every link leads to a path the gate protects |
| Header.AtMostOneActive | src/components/layout/header.tsx:283-285 | At most one link is highlighted for any path |
| Header.AvatarNeverEmpty | src/components/layout/header.tsx:51 | There is always an image to show |
| Header.HeaderShowsUpdatedAvatar | src/components/layout/header.tsx:51 | For any caller of the context's avatar update with a non-blank URL, the header then shows that URL trimmed |
| Header.InitialsEmptyIffSpaces | src/components/layout/header.tsx:55-61 | The initials are empty exactly when the chosen name is all spaces |
| UserContext.WithAvatar | src/context/user.context.tsx:29-33 | A present profile gets the new URL and keeps its name; an absent one stays absent |
| UserContext.Provider.constructor | src/context/user.context.tsx:27 | The store starts with the initial data |
| UserContext.Provider.SetProfile | src/context/user.context.tsx:36-37 | Replaces the whole profile |
| UserContext.Provider.UpdateAvatarUrl | src/context/user.context.tsx:29-33 | The profile becomes its avatar update |
| UserContext.UseUser | src/context/user.context.tsx:45-51 | Throws the outside-provider message exactly when there is no provider; otherwise gives that provider |
| UserContext.LastAvatarWins | src/context/user.context.tsx:29-33 | Only the last avatar update counts |

## Left out

- Text: case mapping covers ASCII letters only. Lengths count characters, not UTF-16 code units.
- The zod URL and UUID checks are the parameters `isUrl` and `isUuid`, not implementations of those formats.
- The Nigerian states and areas list (`nigeria.json`) is not part of this model. The area select's disabled state takes the set of states as a parameter.
- Cloudinary is outside the model. The signature request, the upload request and its progress events are replaced by the `upload` parameter: the returned URL, or none for a failed upload.
- `deleteFromCloudinary` is a queue of the public ids handed to it. Its failures are left out. In the source, such a failure would reach the catch block and show the failure toast after the database save had already succeeded.
- The file reader behind the image preview is left out. The preview is always none between events.
- The 300 ms timers before navigation and the pages' loading flags are left out: each step happens at once.
- Database connection failures, `console` logging and `revalidatePath` are left out. The store refuses exactly the rows that break a column constraint (a `varchar` excess other than spaces, or a value outside an enum), an id clash or the language foreign key. Trailing spaces past a cap are cut, as PostgreSQL does on assignment to `varchar(n)`.
- Generated UUIDs and the clock are parameters (`newId`, `now`).
- Nullable boolean columns are plain booleans, and `socialLinks` is a string.
- Styling is left out: `cn`, `formatDate`, the pages that only lay out other components, the header's mobile drawer, the theme toggle and sign-out.
- OnboardingDetails.FormatDisplay: keys that `formatMap` inherits from `Object.prototype` (such as `constructor`) are treated as absent from the map.
- OnboardingDetails.DetailsCard.HandleSave: the reply of the action is returned but the card ignores it, as the source does.
- The `user_id` foreign keys of the `onboarding` and `profile_settings` tables into `user` (src/lib/db/schema.ts:119, 222) are not modelled: the `user` table is outside the model, and every write takes its user id from a session.
- React rendering, effects ordering and concurrent updates are left out. A handler's state updates apply together when it returns.
