/** The validation layer of src/lib/db/validation/profileSchema.ts: the
    `ProfileSettingsSchema` and `OnboardingSchema` object schemas, the
    `field` reader of form data and the `cleanObject` filter. A schema is
    modelled by what `parse` does with a plain object: it fails, or it
    returns the object restricted to the schema's keys. The `.url()` and
    `.uuid()` string checks are parameters. */
module ProfileSchema {
  import opened Common
  import Schema

  /** `field(fd, key)`: the submitted string, or `undefined` when the key is
      missing or its value is the empty string. */
  function Field(fd: FormData, key: string): (v: JsValue)
    ensures v == Undefined <==> key !in fd || fd[key] == ""
    ensures v != Undefined ==> v == Str(fd[key])
    ensures v != Null
  {
    var got := Get(fd, key);
    if got.None? || got.value == "" then Undefined else Str(got.value)
  }

  /** `cleanObject(obj)`: the entries whose value is neither `undefined` nor
      `null`. */
  function CleanObject(obj: Record): (r: Record)
    ensures r.Keys <= obj.Keys
    ensures forall k :: k in r ==> r[k] == obj[k]
    ensures forall k :: k in obj ==> (k in r <==> obj[k] != Undefined && obj[k] != Null)
  {
    map k | k in obj && obj[k] != Undefined && obj[k] != Null :: obj[k]
  }

  /** Cleaning a clean object changes nothing. */
  lemma CleanObjectIdempotent(obj: Record)
    ensures CleanObject(CleanObject(obj)) == CleanObject(obj)
  {
    var once := CleanObject(obj);
    assert CleanObject(once).Keys == once.Keys;
  }

  /** Empty strings are kept: only `undefined` and `null` are filtered. */
  lemma CleanObjectKeepsEmptyStrings(obj: Record, k: string)
    requires k in obj && obj[k] == Str("")
    ensures k in CleanObject(obj) && CleanObject(obj)[k] == Str("")
  {
  }

  /** `obj` restricted to the keys of a schema: what a successful `parse`
      returns (unknown keys are stripped, a present `undefined` is kept). */
  function Restrict(obj: Record, keys: seq<string>): (r: Record)
    ensures r.Keys == obj.Keys * set k | k in keys
    ensures forall k :: k in r ==> r[k] == obj[k]
  {
    map k | k in obj && k in keys :: obj[k]
  }

  // ---------------------------------------------------------------------
  // ProfileSettingsSchema

  const SettingsKeys: seq<string> := ["fileUrl", "thumbnailUrl", "bio", "languageId", "displayName", "socialLinks"]

  const MaxBio: nat := 300
  const MaxDisplayName: nat := 100

  /** An optional, nullable string field whose string value must pass `check`. */
  predicate OptionalNullable(obj: Record, key: string, check: string -> bool) {
    key !in obj || obj[key] == Undefined || obj[key] == Null || (obj[key].Str? && check(obj[key].s))
  }

  predicate SettingsValid(obj: Record, isUrl: string -> bool, isUuid: string -> bool) {
    OptionalNullable(obj, "fileUrl", isUrl)
    && OptionalNullable(obj, "thumbnailUrl", isUrl)
    && OptionalNullable(obj, "bio", s => |s| <= MaxBio)
    && OptionalNullable(obj, "languageId", isUuid)
    && OptionalNullable(obj, "displayName", s => |s| <= MaxDisplayName)
    && OptionalNullable(obj, "socialLinks", s => true)
  }

  /** `ProfileSettingsSchema.parse(obj)`. */
  function ParseProfileSettings(obj: Record, isUrl: string -> bool, isUuid: string -> bool): (r: Option<Record>)
    ensures r.Some? <==> SettingsValid(obj, isUrl, isUuid)
    ensures r.Some? ==> r.value == Restrict(obj, SettingsKeys)
  {
    if SettingsValid(obj, isUrl, isUuid) then Some(Restrict(obj, SettingsKeys)) else None
  }

  /** Every field is optional and nullable: an object holding only
      `undefined` and `null` values validates, whatever the URL and UUID
      checks say. */
  lemma AllAbsentSettingsValidate(obj: Record, isUrl: string -> bool, isUuid: string -> bool)
    requires forall k :: k in obj ==> obj[k] == Undefined || obj[k] == Null
    ensures ParseProfileSettings(obj, isUrl, isUuid).Some?
  {
  }

  /** The bio is accepted up to 300 characters and the display name up to
      100; one character more is refused. */
  lemma SettingsLengthCaps(bio: string, name: string, isUrl: string -> bool, isUuid: string -> bool)
    ensures ParseProfileSettings(map["bio" := Str(bio)], isUrl, isUuid).Some? <==> |bio| <= 300
    ensures ParseProfileSettings(map["displayName" := Str(name)], isUrl, isUuid).Some? <==> |name| <= 100
  {
    var b := map["bio" := Str(bio)];
    assert OptionalNullable(b, "bio", s => |s| <= MaxBio) <==> |bio| <= 300;
    var d := map["displayName" := Str(name)];
    assert OptionalNullable(d, "displayName", s => |s| <= MaxDisplayName) <==> |name| <= 100;
  }

  // ---------------------------------------------------------------------
  // OnboardingSchema

  /** A string rule: a length range (`max` absent for no upper bound) or an
      enum value set. */
  datatype Rule = Length(min: nat, max: Option<nat>) | OneOf(values: seq<string>)

  predicate Accepts(rule: Rule, s: string) {
    match rule
    case Length(lo, hi) => lo <= |s| && (hi.Some? ==> |s| <= hi.value)
    case OneOf(vs) => s in vs
  }

  const OnboardingKeys: seq<string> := [
    "fullName", "schoolName", "schoolType", "schoolState", "localGovt",
    "subjectTaught", "teachingLevel", "curriculumStandard", "preferredNoteFormat"
  ]

  /** A present field: a string the rule accepts. */
  predicate FieldOk(obj: Record, key: string, rule: Rule) {
    key in obj && obj[key].Str? && Accepts(rule, obj[key].s)
  }

  /** A field of the partial schema: missing, `undefined`, or acceptable. */
  predicate OptionalOk(obj: Record, key: string, rule: Rule) {
    key !in obj || obj[key] == Undefined || FieldOk(obj, key, rule)
  }

  /** The rule of every `OnboardingSchema` field, by key; the enum fields use
      the database enums' own value lists. */
  predicate OnboardingRules(obj: Record, ok: (Record, string, Rule) -> bool) {
    ok(obj, "fullName", Length(3, Some(255)))
    && ok(obj, "schoolName", Length(3, Some(150)))
    && ok(obj, "schoolType", OneOf(Schema.SchoolTypes))
    && ok(obj, "schoolState", Length(2, Some(100)))
    && ok(obj, "localGovt", Length(2, Some(100)))
    && ok(obj, "subjectTaught", Length(2, None))
    && ok(obj, "teachingLevel", OneOf(Schema.TeachingLevels))
    && ok(obj, "curriculumStandard", OneOf(Schema.CurriculumStandards))
    && ok(obj, "preferredNoteFormat", OneOf(Schema.NoteFormats))
  }

  /** `OnboardingSchema.parse(obj)`: every field required. */
  function ParseOnboarding(obj: Record): (r: Option<Record>)
    ensures r.Some? <==> OnboardingRules(obj, FieldOk)
    ensures r.Some? ==> r.value == Restrict(obj, OnboardingKeys)
  {
    if OnboardingRules(obj, FieldOk) then Some(Restrict(obj, OnboardingKeys)) else None
  }

  /** `OnboardingSchema.partial().parse(obj)`: every field may be missing or
      `undefined`; `null` is still refused. */
  function ParseOnboardingPartial(obj: Record): (r: Option<Record>)
    ensures r.Some? <==> OnboardingRules(obj, OptionalOk)
    ensures r.Some? ==> r.value == Restrict(obj, OnboardingKeys)
  {
    if OnboardingRules(obj, OptionalOk) then Some(Restrict(obj, OnboardingKeys)) else None
  }

  predicate IsStr(obj: Record, key: string) {
    key in obj && obj[key].Str?
  }

  /** The rules, field by field, as length ranges and database enum sets. */
  lemma OnboardingBounds(obj: Record)
    ensures ParseOnboarding(obj).Some? <==>
      IsStr(obj, "fullName") && 3 <= |obj["fullName"].s| <= 255
      && IsStr(obj, "schoolName") && 3 <= |obj["schoolName"].s| <= 150
      && IsStr(obj, "schoolType") && obj["schoolType"].s in Schema.SchoolTypes
      && IsStr(obj, "schoolState") && 2 <= |obj["schoolState"].s| <= 100
      && IsStr(obj, "localGovt") && 2 <= |obj["localGovt"].s| <= 100
      && IsStr(obj, "subjectTaught") && 2 <= |obj["subjectTaught"].s|
      && IsStr(obj, "teachingLevel") && obj["teachingLevel"].s in Schema.TeachingLevels
      && IsStr(obj, "curriculumStandard") && obj["curriculumStandard"].s in Schema.CurriculumStandards
      && IsStr(obj, "preferredNoteFormat") && obj["preferredNoteFormat"].s in Schema.NoteFormats
  {
  }

  /** A single supplied enum field passes the partial schema exactly when its
      value belongs to the database enum of that column. */
  lemma PartialEnumIsDbEnum(v: string)
    ensures ParseOnboardingPartial(map["schoolType" := Str(v)]).Some? <==> v in Schema.SchoolTypes
    ensures ParseOnboardingPartial(map["teachingLevel" := Str(v)]).Some? <==> v in Schema.TeachingLevels
    ensures ParseOnboardingPartial(map["curriculumStandard" := Str(v)]).Some? <==> v in Schema.CurriculumStandards
    ensures ParseOnboardingPartial(map["preferredNoteFormat" := Str(v)]).Some? <==> v in Schema.NoteFormats
  {
  }

  /** What the full schema accepts the partial schema accepts, with the same
      output. */
  lemma FullImpliesPartial(obj: Record)
    requires ParseOnboarding(obj).Some?
    ensures ParseOnboardingPartial(obj) == ParseOnboarding(obj)
  {
  }

  /** A value accepted by the full schema fits the database's length caps and
      enum columns. */
  lemma OnboardingSchemaWithinDbCaps(obj: Record)
    requires ParseOnboarding(obj).Some?
    ensures |obj["fullName"].s| <= 255 && |obj["schoolName"].s| <= 150
    ensures |obj["schoolState"].s| <= 100 && |obj["localGovt"].s| <= 100
    ensures obj["schoolType"].s in Schema.SchoolTypes && obj["teachingLevel"].s in Schema.TeachingLevels
  {
  }
}
