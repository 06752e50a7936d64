/** The data model of src/lib/db/schema.ts as far as the onboarding and
    profile parts of the application use it: the enum value sets, the
    `onboarding`, `profile_settings` and `languages` tables with their length
    caps, defaults, uniqueness and foreign-key constraints, and the defaults
    of a new lesson note. Both user-owned tables are maps keyed by `userId`,
    which is how the unique `user_id` column of each is modelled. */
module Schema {
  import opened Common

  // ---------------------------------------------------------------------
  // Enum value sets, in declaration order

  const ApprovalStatuses: seq<string> := ["pending", "approved", "rejected"]
  const SchoolTypes: seq<string> := ["government", "private", "mission", "international"]
  const CurriculumStandards: seq<string> := ["national", "waec", "neco", "state"]
  const NoteFormats: seq<string> := ["structured_table", "paragraph_style", "detailed_breakdown"]
  const CompletionStatuses: seq<string> := ["incomplete", "complete", "pending_review"]
  const TeachingLevels: seq<string> := ["basic_1_6", "jss_1_3", "sss_1_3"]

  /** The enum sets are fixed and free of repetitions. */
  lemma EnumSizes()
    ensures |SchoolTypes| == 4 && |CurriculumStandards| == 4
    ensures |TeachingLevels| == 3 && |NoteFormats| == 3 && |ApprovalStatuses| == 3
    ensures forall i, j :: 0 <= i < j < |SchoolTypes| ==> SchoolTypes[i] != SchoolTypes[j]
    ensures forall i, j :: 0 <= i < j < |CurriculumStandards| ==> CurriculumStandards[i] != CurriculumStandards[j]
    ensures forall i, j :: 0 <= i < j < |TeachingLevels| ==> TeachingLevels[i] != TeachingLevels[j]
    ensures forall i, j :: 0 <= i < j < |NoteFormats| ==> NoteFormats[i] != NoteFormats[j]
  {
  }

  // ---------------------------------------------------------------------
  // The onboarding table

  /** One `onboarding` row. `schemeExtracted` and `profileCompleted` are
      nullable in the table but every write here gives them a value. */
  datatype OnboardingRow = OnboardingRow(
    id: string,
    userId: string,
    fullName: string,
    schoolName: string,
    schoolType: string,
    schoolState: string,
    localGovt: string,
    subjectTaught: string,
    teachingLevel: string,
    curriculumStandard: string,
    preferredNoteFormat: string,
    schemeOfWorkUrl: Option<string>,
    schemeExtracted: bool,
    approvalStatus: string,
    profileCompleted: bool,
    lastGeneratedAt: Option<int>,
    createdAt: int,
    updatedAt: int)

  // ---------------------------------------------------------------------
  // varchar(n) columns

  /** PostgreSQL accepts `s` for a `varchar(n)` column when every character
      past the first `n` is a space; a longer value with any other excess
      character is refused. */
  predicate FitsVarchar(s: string, n: nat) {
    forall i :: n <= i < |s| ==> s[i] == ' '
  }

  /** The value a `varchar(n)` column holds for an accepted `s`: the excess
      spaces are dropped silently. */
  function Truncated(s: string, n: nat): (t: string)
    ensures |t| <= n && t <= s
    ensures |s| <= n ==> t == s
    ensures |s| > n ==> |t| == n
    ensures FitsVarchar(s, n) ==> forall i :: |t| <= i < |s| ==> s[i] == ' '
  {
    if |s| <= n then s else s[..n]
  }

  /** A value already within its cap is accepted and stored as it is. */
  lemma WithinCapFits(s: string, n: nat)
    requires |s| <= n
    ensures FitsVarchar(s, n) && Truncated(s, n) == s
  {
  }

  /** A value whose excess is all spaces is accepted, and the table holds its
      first `n` characters. */
  lemma TrailingSpacesTruncated(t: string, k: nat, n: nat)
    requires |t| == n && k > 0
    ensures var s := t + seq(k, _ => ' ');
            |s| > n && FitsVarchar(s, n) && Truncated(s, n) == t
  {
    var s := t + seq(k, _ => ' ');
    assert s[..n] == t;
    forall i | n <= i < |s|
      ensures s[i] == ' '
    {
      assert s[i] == seq(k, _ => ' ')[i - n];
    }
  }

  /** A value with a non-space character past the cap is refused. */
  lemma NonSpaceExcessRefused(s: string, n: nat, i: nat)
    requires n <= i < |s| && s[i] != ' '
    ensures !FitsVarchar(s, n)
  {
  }

  // ---------------------------------------------------------------------
  // The onboarding table, continued

  /** What a stored onboarding row satisfies: every `varchar` within its
      length and every enum column a member of its enum. */
  predicate OnboardingInCaps(r: OnboardingRow) {
    |r.id| <= 36
    && |r.fullName| <= 255
    && |r.schoolName| <= 150
    && |r.schoolState| <= 100
    && |r.localGovt| <= 100
    && r.schoolType in SchoolTypes
    && r.teachingLevel in TeachingLevels
    && r.curriculumStandard in CurriculumStandards
    && r.preferredNoteFormat in NoteFormats
    && r.approvalStatus in ApprovalStatuses
  }

  /** The column constraints the database checks when an onboarding row is
      written: each `varchar` value fits up to trailing spaces, and each enum
      column holds a member of its enum. */
  predicate OnboardingFits(r: OnboardingRow) {
    FitsVarchar(r.id, 36)
    && FitsVarchar(r.fullName, 255)
    && FitsVarchar(r.schoolName, 150)
    && FitsVarchar(r.schoolState, 100)
    && FitsVarchar(r.localGovt, 100)
    && r.schoolType in SchoolTypes
    && r.teachingLevel in TeachingLevels
    && r.curriculumStandard in CurriculumStandards
    && r.preferredNoteFormat in NoteFormats
    && r.approvalStatus in ApprovalStatuses
  }

  /** The row the table holds after an accepted write of `r`: the `varchar`
      columns cut to their caps, everything else as written. */
  function StoredOnboarding(r: OnboardingRow): (s: OnboardingRow)
    ensures OnboardingFits(r) ==> OnboardingInCaps(s)
    ensures OnboardingInCaps(r) ==> s == r
    ensures s.id == Truncated(r.id, 36) && s.fullName == Truncated(r.fullName, 255)
    ensures s.schoolName == Truncated(r.schoolName, 150)
    ensures s.schoolState == Truncated(r.schoolState, 100) && s.localGovt == Truncated(r.localGovt, 100)
    ensures s.(id := r.id, fullName := r.fullName, schoolName := r.schoolName,
               schoolState := r.schoolState, localGovt := r.localGovt) == r
  {
    r.(id := Truncated(r.id, 36), fullName := Truncated(r.fullName, 255),
       schoolName := Truncated(r.schoolName, 150), schoolState := Truncated(r.schoolState, 100),
       localGovt := Truncated(r.localGovt, 100))
  }

  /** The columns an insert may set; everything else takes its default. */
  datatype OnboardingValues = OnboardingValues(
    fullName: string,
    schoolName: string,
    schoolType: string,
    schoolState: string,
    localGovt: string,
    teachingLevel: string,
    subjectTaught: string,
    preferredNoteFormat: string,
    curriculumStandard: string,
    schemeOfWorkUrl: Option<string>,
    schemeExtracted: bool)

  /** The row holds the given values in the nine form columns and the two
      scheme-of-work columns. */
  predicate HoldsValues(r: OnboardingRow, v: OnboardingValues) {
    r.fullName == v.fullName && r.schoolName == v.schoolName && r.schoolType == v.schoolType
    && r.schoolState == v.schoolState && r.localGovt == v.localGovt
    && r.teachingLevel == v.teachingLevel && r.subjectTaught == v.subjectTaught
    && r.preferredNoteFormat == v.preferredNoteFormat && r.curriculumStandard == v.curriculumStandard
    && r.schemeOfWorkUrl == v.schemeOfWorkUrl && r.schemeExtracted == v.schemeExtracted
  }

  /** An inserted onboarding row: the given values, the generated id, and the
      column defaults (approval pending, profile not completed, never
      generated) with both timestamps set to `now`. */
  function NewOnboardingRow(id: string, userId: string, v: OnboardingValues, now: int): (r: OnboardingRow)
    ensures r.id == id && r.userId == userId && HoldsValues(r, v)
    ensures r.approvalStatus == "pending" && !r.profileCompleted && r.lastGeneratedAt == None
    ensures r.createdAt == now && r.updatedAt == now
    ensures WithValues(r, v, now) == r
  {
    OnboardingRow(id, userId, v.fullName, v.schoolName, v.schoolType, v.schoolState, v.localGovt,
                  v.subjectTaught, v.teachingLevel, v.curriculumStandard, v.preferredNoteFormat,
                  v.schemeOfWorkUrl, v.schemeExtracted, "pending", false, None, now, now)
  }

  /** `update(onboarding).set({...values, updatedAt: now})`: the given values
      and the new timestamp; id, owner, approval, completion, generation time
      and creation time are kept. */
  function WithValues(r: OnboardingRow, v: OnboardingValues, now: int): (u: OnboardingRow)
    ensures u.id == r.id && u.userId == r.userId && u.createdAt == r.createdAt
    ensures u.approvalStatus == r.approvalStatus && u.profileCompleted == r.profileCompleted
    ensures u.lastGeneratedAt == r.lastGeneratedAt && u.updatedAt == now
    ensures HoldsValues(u, v)
  {
    r.(fullName := v.fullName, schoolName := v.schoolName, schoolType := v.schoolType,
       schoolState := v.schoolState, localGovt := v.localGovt, subjectTaught := v.subjectTaught,
       teachingLevel := v.teachingLevel, curriculumStandard := v.curriculumStandard,
       preferredNoteFormat := v.preferredNoteFormat, schemeOfWorkUrl := v.schemeOfWorkUrl,
       schemeExtracted := v.schemeExtracted, updatedAt := now)
  }

  /** A fresh row starts in approval state `pending`, which is a member of
      the approval enum, so its constraints depend only on the values. */
  lemma NewRowFits(id: string, userId: string, v: OnboardingValues, now: int)
    requires |id| <= 36
    ensures OnboardingFits(NewOnboardingRow(id, userId, v, now)) <==>
              FitsVarchar(v.fullName, 255) && FitsVarchar(v.schoolName, 150) && FitsVarchar(v.schoolState, 100)
              && FitsVarchar(v.localGovt, 100) && v.schoolType in SchoolTypes
              && v.teachingLevel in TeachingLevels && v.curriculumStandard in CurriculumStandards
              && v.preferredNoteFormat in NoteFormats
  {
  }

  // ---------------------------------------------------------------------
  // The languages and profile_settings tables

  datatype Language = Language(id: string, code: string, name: string, nativeName: Option<string>)

  /** One `profile_settings` row; every column but the keys and timestamps
      is nullable. */
  datatype SettingsRow = SettingsRow(
    id: string,
    userId: string,
    fileUrl: Option<string>,
    thumbnailUrl: Option<string>,
    languageId: Option<string>,
    bio: Option<string>,
    displayName: Option<string>,
    socialLinks: Option<string>,
    createdAt: int,
    updatedAt: int)

  /** What a stored settings row satisfies: the `varchar` lengths and the
      foreign key into `languages`. */
  predicate SettingsInCaps(r: SettingsRow, languages: map<string, Language>) {
    |r.id| <= 36
    && (r.languageId.Some? ==> |r.languageId.value| <= 36 && r.languageId.value in languages)
    && (r.displayName.Some? ==> |r.displayName.value| <= 100)
  }

  /** The constraints the database checks when a settings row is written:
      each `varchar` value fits up to trailing spaces, and the language id,
      once cut to its cap, names a language. */
  predicate SettingsFits(r: SettingsRow, languages: map<string, Language>) {
    FitsVarchar(r.id, 36)
    && (r.languageId.Some? ==>
          FitsVarchar(r.languageId.value, 36) && Truncated(r.languageId.value, 36) in languages)
    && (r.displayName.Some? ==> FitsVarchar(r.displayName.value, 100))
  }

  function TruncatedOr(s: Option<string>, n: nat): Option<string> {
    if s.Some? then Some(Truncated(s.value, n)) else None
  }

  /** The row the table holds after an accepted write of `r`. */
  function StoredSettings(r: SettingsRow): (s: SettingsRow)
    ensures forall languages :: SettingsFits(r, languages) ==> SettingsInCaps(s, languages)
    ensures forall languages :: SettingsInCaps(r, languages) ==> s == r
    ensures s.id == Truncated(r.id, 36)
    ensures s.languageId == TruncatedOr(r.languageId, 36) && s.displayName == TruncatedOr(r.displayName, 100)
    ensures s.(id := r.id, languageId := r.languageId, displayName := r.displayName) == r
  {
    r.(id := Truncated(r.id, 36), languageId := TruncatedOr(r.languageId, 36),
       displayName := TruncatedOr(r.displayName, 100))
  }

  // ---------------------------------------------------------------------
  // Lesson notes

  datatype LessonNoteStatus = LessonNoteStatus(completionStatus: string, isDraft: bool, isPublic: bool)

  /** The defaults of a new lesson note: an incomplete private draft. */
  function LessonNoteDefaults(): (d: LessonNoteStatus)
    ensures d.completionStatus == CompletionStatuses[0]
    ensures d.isDraft && !d.isPublic
  {
    LessonNoteStatus("incomplete", true, false)
  }

  // ---------------------------------------------------------------------
  // The store

  /** No row other than the one owned by `row.userId` already uses `row.id`:
      the primary key stays unique when `row` is written. */
  predicate OnboardingIdFree(m: map<string, OnboardingRow>, row: OnboardingRow) {
    forall u :: u in m && u != row.userId ==> m[u].id != row.id
  }

  predicate SettingsIdFree(m: map<string, SettingsRow>, row: SettingsRow) {
    forall u :: u in m && u != row.userId ==> m[u].id != row.id
  }

  /** The three tables. Keying each user-owned table by `userId` gives at
      most one row per user; `Valid` states the remaining constraints. */
  class Store {
    var onboarding: map<string, OnboardingRow>
    var settings: map<string, SettingsRow>
    var languages: map<string, Language>

    ghost predicate Valid()
      reads this
    {
      (forall u :: u in onboarding ==> onboarding[u].userId == u && OnboardingInCaps(onboarding[u]))
      && (forall u, w :: u in onboarding && w in onboarding && u != w ==> onboarding[u].id != onboarding[w].id)
      && (forall u :: u in settings ==> settings[u].userId == u && SettingsInCaps(settings[u], languages))
      && (forall u, w :: u in settings && w in settings && u != w ==> settings[u].id != settings[w].id)
      && (forall l :: l in languages ==> languages[l].id == l)
    }

    /** A store holding only the given languages. */
    constructor (langs: map<string, Language>)
      requires forall l :: l in langs ==> langs[l].id == l
      ensures Valid()
      ensures onboarding == map[] && settings == map[] && languages == langs
    {
      onboarding := map[];
      settings := map[];
      languages := langs;
    }

    /** Writes the onboarding row of `row.userId` (an insert when the user has
      none, otherwise an update of that row). The database refuses the write
      when a column constraint fails or the stored id belongs to another row;
      the refusal is reported as `ok == false` and changes nothing. An
      accepted row is stored with its `varchar` values cut to their caps. */
    method PutOnboarding(row: OnboardingRow) returns (ok: bool)
      requires Valid()
      modifies this
      ensures Valid()
      ensures ok <==> OnboardingFits(row) && OnboardingIdFree(old(onboarding), StoredOnboarding(row))
      ensures onboarding == if ok then old(onboarding)[row.userId := StoredOnboarding(row)] else old(onboarding)
      ensures settings == old(settings) && languages == old(languages)
    {
      var stored := StoredOnboarding(row);
      ok := OnboardingFits(row) && OnboardingIdFree(onboarding, stored);
      if ok {
        onboarding := onboarding[row.userId := stored];
      }
    }

    /** Writes the settings row of `row.userId`, under the same rules plus the
      foreign key into `languages`. */
    method PutSettings(row: SettingsRow) returns (ok: bool)
      requires Valid()
      modifies this
      ensures Valid()
      ensures ok <==> SettingsFits(row, old(languages)) && SettingsIdFree(old(settings), StoredSettings(row))
      ensures settings == if ok then old(settings)[row.userId := StoredSettings(row)] else old(settings)
      ensures onboarding == old(onboarding) && languages == old(languages)
    {
      var stored := StoredSettings(row);
      ok := SettingsFits(row, languages) && SettingsIdFree(settings, stored);
      if ok {
        settings := settings[row.userId := stored];
      }
    }
  }

  /** Writing a row keyed by its owner keeps one row per user: the owner's
      row is the new one, and no other user's row changes. */
  lemma PutKeepsOtherUsers(m: map<string, OnboardingRow>, row: OnboardingRow, u: string)
    requires u in m && u != row.userId
    ensures u in m[row.userId := row] && m[row.userId := row][u] == m[u]
    ensures row.userId in m[row.userId := row] && m[row.userId := row][row.userId] == row
  {
  }
}
