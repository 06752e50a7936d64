/** The avatar card of src/components/profileComponent/profileDetails.tsx:
    the avatar shown, the public id of the stored image derived from its URL,
    and `handleUpload`, which checks the chosen file, uploads it, saves the
    URL through `updateProfileSettingsController` and only then deletes the
    previous image. The signature request and the upload itself are one
    input, `upload`: the URL the image service answered with, or `None` when
    either request failed. Deletions are recorded in the order they are
    requested. */
module ProfileDetails {
  import opened Common
  import Text
  import Schema
  import ProfileSchema
  import SettingsController

  // ---------------------------------------------------------------------
  // getPublicId

  /** A path segment matching `^v\d+$`: a version segment. */
  predicate IsVersion(p: string) {
    |p| >= 2 && p[0] == 'v' && forall k :: 1 <= k < |p| ==> Text.IsDigit(p[k])
  }

  /** `parts.filter(p => !/^v\d+$/.test(p))`. */
  function DropVersions(parts: seq<string>): (r: seq<string>)
    ensures |r| <= |parts|
    ensures forall k :: 0 <= k < |r| ==> !IsVersion(r[k])
  {
    if parts == [] then []
    else if IsVersion(parts[0]) then DropVersions(parts[1..])
    else [parts[0]] + DropVersions(parts[1..])
  }

  lemma {:induction false} DropVersionsAppend(a: seq<string>, b: seq<string>)
    ensures DropVersions(a + b) == DropVersions(a) + DropVersions(b)
  {
    if a == [] {
      assert a + b == b;
    } else {
      assert (a + b)[1..] == a[1..] + b;
      DropVersionsAppend(a[1..], b);
    }
  }

  lemma {:induction false} DropVersionsNone(a: seq<string>)
    requires forall k :: 0 <= k < |a| ==> !IsVersion(a[k])
    ensures DropVersions(a) == a
  {
    if a != [] {
      DropVersionsNone(a[1..]);
    }
  }

  /** `findIndex(p => p === x)`: the first position of `x`, or -1. */
  function FindIndex(parts: seq<string>, x: string): (r: int)
    ensures -1 <= r < |parts|
    ensures r == -1 <==> x !in parts
    ensures r >= 0 ==> parts[r] == x && x !in parts[..r]
  {
    if parts == [] then -1
    else if parts[0] == x then 0
    else
      var i := FindIndex(parts[1..], x);
      assert i >= 0 ==> parts[..i + 1] == [parts[0]] + parts[1..][..i];
      if i == -1 then -1 else i + 1
  }

  /** The length of the longest suffix free of `/` and `.`. */
  function TrailingRun(s: string): (n: nat)
    ensures n <= |s|
    ensures forall k :: |s| - n <= k < |s| ==> s[k] != '/' && s[k] != '.'
    ensures n < |s| ==> s[|s| - n - 1] == '/' || s[|s| - n - 1] == '.'
  {
    if s == [] || s[|s| - 1] == '/' || s[|s| - 1] == '.' then 0
    else 1 + TrailingRun(s[..|s| - 1])
  }

  /** `s.replace(/\.[^/.]+$/, "")`: a final extension (a dot followed by at
      least one character, none of them `/` or `.`) is removed. */
  function StripExtension(s: string): (r: string)
    ensures r == s || (|r| < |s| && s[..|r|] == r && s[|r|] == '.')
  {
    var n := TrailingRun(s);
    if 0 < n < |s| && s[|s| - n - 1] == '.' then s[..|s| - n - 1] else s
  }

  lemma {:induction false} TrailingRunAppend(a: string, e: string)
    requires '/' !in e && '.' !in e
    ensures TrailingRun(a + e) == TrailingRun(a) + |e|
  {
    if e != [] {
      var e' := e[..|e| - 1];
      assert (a + e)[..|a + e| - 1] == a + e';
      TrailingRunAppend(a, e');
    } else {
      assert a + e == a;
    }
  }

  /** The extension is removed, and only the extension. */
  lemma StripExtensionOf(base: string, ext: string)
    requires ext != [] && '/' !in ext && '.' !in ext
    ensures StripExtension(base + ['.'] + ext) == base
  {
    var s := base + ['.'] + ext;
    TrailingRunAppend(base + ['.'], ext);
    assert TrailingRun(base + ['.']) == 0;
    assert s[..|base|] == base;
  }

  /** A name without a dot has no extension to remove. */
  lemma StripExtensionNoDot(s: string)
    requires '.' !in s
    ensures StripExtension(s) == s
  {
  }

  /** `getPublicId(url)`: the path after the first `upload` segment, version
      segments dropped, without the final extension. With no `upload`
      segment, `findIndex` gives -1 and the whole path is kept. */
  function GetPublicId(url: string): (r: string)
    ensures var parts := DropVersions(Text.Split(url, '/'));
            var path := Text.Join(if "upload" in parts then parts[FindIndex(parts, "upload") + 1..] else parts, '/');
            r == path || (|r| < |path| && path[..|r|] == r && path[|r|] == '.')
  {
    var parts := DropVersions(Text.Split(url, '/'));
    var i := FindIndex(parts, "upload");
    StripExtension(Text.Join(parts[i + 1..], '/'))
  }

  lemma {:induction false} JoinLastAppend(xs: seq<string>, a: string, b: string)
    ensures Text.Join(xs + [a + b], '/') == Text.Join(xs + [a], '/') + b
  {
    if xs != [] {
      assert (xs + [a + b])[1..] == xs[1..] + [a + b];
      assert (xs + [a])[1..] == xs[1..] + [a];
      JoinLastAppend(xs[1..], a, b);
    }
  }

  /** A version piece between two version-free runs is dropped, and nothing
      else is. */
  lemma DropOneVersion(a: seq<string>, version: string, rest: seq<string>)
    requires forall k :: 0 <= k < |a| ==> !IsVersion(a[k])
    requires IsVersion(version)
    requires forall k :: 0 <= k < |rest| ==> !IsVersion(rest[k])
    ensures DropVersions(a + [version] + rest) == a + rest
  {
    DropVersionsAppend(a + [version], rest);
    DropVersionsAppend(a, [version]);
    assert DropVersions([version]) == [];
    DropVersionsNone(a);
    DropVersionsNone(rest);
    assert a + [] == a;
  }

  /** The first `upload` piece comes right after a host part without one. */
  lemma FindUploadAfterHost(host: seq<string>, rest: seq<string>)
    requires "upload" !in host
    ensures FindIndex(host + ["upload"] + rest, "upload") == |host|
  {
    var kept := host + ["upload"] + rest;
    var i := FindIndex(kept, "upload");
    assert kept[|host|] == "upload";
    assert kept[..|host|] == host;
  }

  /** For an image URL of the form `…/upload/v<digits>/<path>/<name>.<ext>`,
      the public id is `<path>/<name>`: the host part, the version and the
      extension are dropped. */
  lemma PublicIdOfUploadUrl(host: seq<string>, version: string, path: seq<string>, name: string, ext: string)
    requires forall k :: 0 <= k < |host| ==> '/' !in host[k] && !IsVersion(host[k]) && host[k] != "upload"
    requires '/' !in version && IsVersion(version)
    requires forall k :: 0 <= k < |path| ==> '/' !in path[k] && !IsVersion(path[k])
    requires '/' !in name && ext != [] && '/' !in ext && '.' !in ext
    ensures GetPublicId(Text.Join(host + ["upload", version] + path + [name + ['.'] + ext], '/'))
            == Text.Join(path + [name], '/')
  {
    var file := name + ['.'] + ext;
    var rest := path + [file];
    var parts := host + ["upload", version] + path + [file];
    assert parts == host + ["upload", version] + rest;
    assert forall k :: 0 <= k < |parts| ==> '/' !in parts[k];
    Text.SplitJoin(parts, '/');
    assert !IsVersion(file) by {
      assert file[|name|] == '.';
    }
    var kept := host + ["upload"] + rest;
    assert parts == (host + ["upload"]) + [version] + rest;
    assert !IsVersion("upload") by { assert "upload"[0] != 'v'; }
    DropOneVersion(host + ["upload"], version, rest);
    FindUploadAfterHost(host, rest);
    assert kept[|host| + 1..] == rest;
    JoinLastAppend(path, name + ['.'], ext);
    JoinLastAppend(path, name, ['.']);
    StripExtensionOf(Text.Join(path + [name], '/'), ext);
  }

  /** Without an `upload` segment and without version segments, the whole
      URL, host included, is the public id, less its extension. */
  lemma PublicIdWithoutUpload(url: string)
    requires "upload" !in Text.Split(url, '/')
    requires forall k :: 0 <= k < |Text.Split(url, '/')| ==> !IsVersion(Text.Split(url, '/')[k])
    ensures GetPublicId(url) == StripExtension(url)
  {
    var parts := Text.Split(url, '/');
    DropVersionsNone(parts);
    assert parts[0..] == parts;
    Text.JoinSplit(url, '/');
  }

  // ---------------------------------------------------------------------
  // Display

  const DefaultShortLength: nat := 15
  const Ellipsis: char := '…'

  /** `shortenName(name, maxLength)`. */
  function ShortenName(name: string, maxLength: nat): (r: string)
    ensures |name| <= maxLength ==> r == name
    ensures |name| > maxLength ==> |r| == maxLength + 1 && r[..maxLength] == name[..maxLength] && r[maxLength] == Ellipsis
  {
    if |name| > maxLength then name[..maxLength] + [Ellipsis] else name
  }

  /** A shortened name is at most one character longer than the limit, and
      shortening it again changes nothing. */
  lemma ShortenNameLaws(name: string, maxLength: nat)
    ensures |ShortenName(name, maxLength)| <= maxLength + 1
    ensures ShortenName(ShortenName(name, maxLength), maxLength) == ShortenName(name, maxLength)
  {
    var r := ShortenName(name, maxLength);
    if |name| > maxLength {
      assert r[..maxLength] + [Ellipsis] == r;
    }
  }

  /** The card's `profile` prop (which may itself be `null`). */
  datatype CardProps = CardProps(fullName: string, fileUrl: Option<string>)

  const DefaultAvatar: string := "/logo.jpg"

  /** The avatar fallback: the initials of the full name, or `U`. */
  function AvatarInitials(props: Option<CardProps>): (r: string)
    ensures props.None? || props.value.fullName == "" ==> r == "U"
    ensures props.Some? && props.value.fullName != "" ==>
              r == Text.Upper(Text.WordStarts(props.value.fullName, true))
  {
    if props.Some? && props.value.fullName != "" then
      Text.InitialsAreWordStarts(props.value.fullName);
      Text.Initials(props.value.fullName)
    else "U"
  }

  // ---------------------------------------------------------------------
  // handleUpload

  datatype FileInfo = FileInfo(size: nat)

  datatype Toast = Success(text: string) | Failure(text: string)

  const MaxFileSize: nat := 1048576
  const NoFileMessage: string := "Please select a file first"
  const TooLargeMessage: string := "File size too large. Please upload under 1MB."
  const UploadFailedMessage: string := "Failed to upload profile picture"
  const AvatarUpdatedMessage: string := "Profile picture updated! \U{1F389}"

  /** `dbForm`: the uploaded URL as both the file and the thumbnail. */
  function DbForm(url: string): (fd: FormData)
    ensures fd == map["fileUrl" := url, "thumbnailUrl" := url]
  {
    map["fileUrl" := url, "thumbnailUrl" := url]
  }

  function AvatarData(url: string): Record {
    map["fileUrl" := Str(url), "thumbnailUrl" := Str(url)]
  }

  /** The settings row the save writes for `userId`. */
  function AvatarRow(settings: map<string, Schema.SettingsRow>, userId: string, url: string,
                     newId: string, now: int): (r: Schema.SettingsRow)
    ensures r.fileUrl == Some(url) && r.thumbnailUrl == Some(url) && r.updatedAt == now
  {
    SettingsController.UpsertedRow(settings, userId, AvatarData(url), newId, now)
  }

  /** When the save of `url` succeeds: a session, a non-empty URL the URL
      check accepts, and a row the database takes. */
  predicate AvatarSaved(settings: map<string, Schema.SettingsRow>, languages: map<string, Schema.Language>,
                        session: Option<User>, url: string, isUrl: string -> bool, newId: string, now: int) {
    session.Some? && url != "" && isUrl(url)
    && Schema.SettingsFits(AvatarRow(settings, session.value.id, url, newId, now), languages)
    && Schema.SettingsIdFree(settings, Schema.StoredSettings(AvatarRow(settings, session.value.id, url, newId, now)))
  }

  /** What the avatar form does at the settings controller: it validates when
      the URL is empty or passes the URL check, and the data to save is the
      URL in both columns, or nothing for an empty URL. */
  lemma AvatarFormOutcome(url: string, isUrl: string -> bool, isUuid: string -> bool)
    ensures var parsed := ProfileSchema.ParseProfileSettings(
                            SettingsController.SettingsInput(DbForm(url)), isUrl, isUuid);
            (parsed.Some? <==> url == "" || isUrl(url))
            && (parsed.Some? ==>
                  SettingsController.CleanData(parsed.value) == if url == "" then map[] else AvatarData(url))
  {
    var obj := SettingsController.SettingsInput(DbForm(url));
    assert "fileUrl" in ProfileSchema.SettingsKeys && "thumbnailUrl" in ProfileSchema.SettingsKeys;
    assert forall k :: k in obj && k != "fileUrl" && k != "thumbnailUrl" ==> obj[k] == Undefined;
    var parsed := ProfileSchema.ParseProfileSettings(obj, isUrl, isUuid);
    if parsed.Some? {
      var c := SettingsController.CleanData(parsed.value);
      if url == "" {
        assert c.Keys == {};
      } else {
        assert c.Keys == {"fileUrl", "thumbnailUrl"};
      }
    }
  }

  /** The database save of `handleUpload`: `updateProfileSettingsController`
      on the avatar form, where a throw and a `success: false` answer both
      count as failure. */
  method SaveAvatar(db: Schema.Store, session: Option<User>, url: string,
                    isUrl: string -> bool, isUuid: string -> bool, newId: string, now: int)
    returns (saved: bool)
    requires db.Valid()
    modifies db
    ensures db.Valid() && db.onboarding == old(db.onboarding) && db.languages == old(db.languages)
    ensures saved <==> AvatarSaved(old(db.settings), old(db.languages), session, url, isUrl, newId, now)
    ensures db.settings == if saved then old(db.settings)[session.value.id :=
                                           Schema.StoredSettings(AvatarRow(old(db.settings), session.value.id, url, newId, now))]
                           else old(db.settings)
  {
    AvatarFormOutcome(url, isUrl, isUuid);
    var out := SettingsController.UpdateProfileSettingsController(db, session, DbForm(url), isUrl, isUuid, newId, now);
    saved := out.Returned? && out.value.SettingsSaved?;
  }

  class ProfileCard {
    const props: Option<CardProps>
    var openUpload: bool
    var avatarUrl: string
    var file: Option<FileInfo>
    var filePreview: Option<string>
    var isUploading: bool
    var progress: nat
    var prevPublicId: Option<string>
    /** The public ids handed to `deleteFromCloudinary`, in order. */
    var deleted: seq<string>

    /** Between events: nothing is uploading, and no preview is ever shown,
      because the file reader is only started from inside its own
      completion callback. */
    predicate Valid()
      reads this
    {
      !isUploading && progress == 0 && filePreview.None?
    }

    /** The initial state followed by the effect on `profile`: the avatar is
      the stored URL (`??` keeps an empty one) or the default image, and
      the public id is read from a non-empty stored URL. */
    constructor (props: Option<CardProps>)
      ensures Valid() && this.props == props && !openUpload && file.None? && deleted == []
      ensures avatarUrl == if props.Some? && props.value.fileUrl.Some? then props.value.fileUrl.value else DefaultAvatar
      ensures prevPublicId == if props.Some? && Truthy(props.value.fileUrl)
                              then Some(GetPublicId(props.value.fileUrl.value)) else None
    {
      this.props := props;
      openUpload := false;
      avatarUrl := if props.Some? && props.value.fileUrl.Some? then props.value.fileUrl.value else DefaultAvatar;
      file := None;
      filePreview := None;
      isUploading := false;
      progress := 0;
      prevPublicId := None;
      deleted := [];
      new;
      if props.Some? && Truthy(props.value.fileUrl) {
        avatarUrl := props.value.fileUrl.value;
        prevPublicId := Some(GetPublicId(props.value.fileUrl.value));
      }
    }

    /** The upload dialog's `onOpenChange`. */
    method SetOpenUpload(b: bool)
      requires Valid()
      modifies this
      ensures Valid() && openUpload == b
      ensures avatarUrl == old(avatarUrl) && file == old(file) && prevPublicId == old(prevPublicId) && deleted == old(deleted)
    {
      openUpload := b;
    }

    /** Choosing (or clearing) the file. */
    method SelectFile(f: Option<FileInfo>)
      requires Valid()
      modifies this
      ensures Valid() && file == f
      ensures openUpload == old(openUpload) && avatarUrl == old(avatarUrl)
      ensures prevPublicId == old(prevPublicId) && deleted == old(deleted)
    {
      file := f;
      if f.None? {
        filePreview := None;
      }
    }

    /** The success branch of `handleUpload`: the previous image is handed
      for deletion when it had a public id, the new URL becomes the avatar
      and its public id (computed by the caller) is remembered, and the dialog is closed and reset. */
    method Commit(url: string, publicId: string)
      modifies this
      ensures avatarUrl == url && prevPublicId == Some(publicId)
      ensures deleted == old(deleted) + (if old(prevPublicId).Some? && old(prevPublicId).value != ""
                                         then [old(prevPublicId).value] else [])
      ensures !openUpload && file.None? && filePreview.None?
      ensures isUploading == old(isUploading) && progress == old(progress)
    {
      if prevPublicId.Some? && prevPublicId.value != "" {
        deleted := deleted + [prevPublicId.value];
      }
      avatarUrl := url;
      prevPublicId := Some(publicId);
      openUpload := false;
      file := None;
      filePreview := None;
    }

    /** `handleUpload`. */
    method HandleUpload(db: Schema.Store, session: Option<User>, upload: Option<string>,
                        isUrl: string -> bool, isUuid: string -> bool, newId: string, now: int)
      returns (toast: Toast)
      requires Valid() && db.Valid()
      modifies this, db
      ensures Valid() && db.Valid()
      ensures db.onboarding == old(db.onboarding) && db.languages == old(db.languages)
      ensures old(file).None? ==> toast == Failure(NoFileMessage)
      ensures old(file).Some? && old(file).value.size > MaxFileSize ==> toast == Failure(TooLargeMessage)
      ensures old(file).Some? && old(file).value.size <= MaxFileSize ==>
                (toast.Success? <==> upload.Some? && AvatarSaved(old(db.settings), old(db.languages), session,
                                                                 upload.value, isUrl, newId, now))
      ensures toast.Success? ==> toast == Success(AvatarUpdatedMessage) && upload.Some? && session.Some?
      ensures toast.Success? ==> avatarUrl == upload.value && prevPublicId == Some(GetPublicId(upload.value))
      ensures toast.Success? ==>
                deleted == old(deleted) + (if old(prevPublicId).Some? && old(prevPublicId).value != ""
                                           then [old(prevPublicId).value] else [])
      ensures toast.Success? ==> !openUpload && file.None?
      ensures toast.Success? ==>
                db.settings == old(db.settings)[session.value.id :=
                                 Schema.StoredSettings(AvatarRow(old(db.settings), session.value.id, upload.value, newId, now))]
      ensures toast.Failure? ==>
                (old(file).Some? && old(file).value.size <= MaxFileSize ==> toast == Failure(UploadFailedMessage))
                && avatarUrl == old(avatarUrl) && prevPublicId == old(prevPublicId) && deleted == old(deleted)
                && openUpload == old(openUpload) && file == old(file) && db.settings == old(db.settings)
    {
      if file.None? {
        return Failure(NoFileMessage);
      }
      if file.value.size > MaxFileSize {
        return Failure(TooLargeMessage);
      }
      isUploading, progress := true, 0;
      var saved := false;
      if upload.Some? {
        saved := SaveAvatar(db, session, upload.value, isUrl, isUuid, newId, now);
      }
      if saved {
        Commit(upload.value, GetPublicId(upload.value));
        toast := Success(AvatarUpdatedMessage);
      } else {
        toast := Failure(UploadFailedMessage);
      }
      isUploading, progress := false, 0;
    }
  }
}
