/** Upload checks and file-name classification: the size-then-type decision of
    `validate_file`, the lower-cased `pathlib` suffix of a POSIX file name, and the three
    extension sets it is matched against. */
module FileHandling {
  import opened Wrappers
  import opened PyText
  import opened Exceptions
  import Config
  import Validators

  /** How `f"{content_type}"` shows a missing content type. */
  function ShowContentType(contentType: Option<string>): string {
    if contentType.Some? then contentType.value else "None"
  }

  /** `validate_file` given the size the stream reports: too large is refused first, then a
      content type outside the allowed list (a missing one is never allowed). Both errors
      record the content type. */
  function ValidateFile(fileSize: int, contentType: Option<string>, maxSizeMb: int, allowedTypes: seq<string>)
    : (r: Outcome<GatewayError>)
    ensures r.Pass? <==> fileSize <= maxSizeMb * Config.BytesPerMb && contentType.Some? && contentType.value in allowedTypes
    ensures r.Fail? ==> r.error.FileProcessingError? && r.error.fileType == contentType && r.error.StatusCode() == 400
    ensures fileSize > maxSizeMb * Config.BytesPerMb ==>
              r.Fail? && r.error.message == "File size " + FormatFixed(fileSize as real / Config.BytesPerMb as real, 2)
                                            + "MB exceeds maximum of " + IntToString(maxSizeMb) + "MB"
  {
    var maxSizeBytes := maxSizeMb * Config.BytesPerMb;
    if fileSize > maxSizeBytes then
      Fail(NewFileProcessingError("File size " + FormatFixed(fileSize as real / Config.BytesPerMb as real, 2)
                                  + "MB exceeds maximum of " + IntToString(maxSizeMb) + "MB", contentType))
    else if contentType.None? || contentType.value !in allowedTypes then
      Fail(NewFileProcessingError("File type '" + ShowContentType(contentType) + "' not allowed. Allowed types: "
                                  + Join(", ", allowedTypes), contentType))
    else Pass
  }

  /** The upload check accepts exactly what the request validators' size and type checks
      accept together, with the limit converted to bytes, and refuses with the same status. */
  lemma ValidateFileAgreesWithValidators(fileSize: int, contentType: string, maxSizeMb: int, allowedTypes: seq<string>)
    ensures var r := ValidateFile(fileSize, Some(contentType), maxSizeMb, allowedTypes);
            var s := Validators.ValidateFileSize(fileSize, maxSizeMb * Config.BytesPerMb);
            var t := Validators.ValidateFileType(contentType, allowedTypes);
            && (r.Pass? <==> s.Pass? && t.Pass?)
            && (r.Fail? ==> r.error.StatusCode() == (if s.Fail? then s.error else t.error).StatusCode())
  {
  }

  /** The index just past the last '/' of `s`, or 0 when there is none. */
  function AfterLastSlash(s: string): (i: nat)
    ensures i <= |s|
    ensures i > 0 ==> s[i - 1] == '/'
    ensures forall k :: i <= k < |s| ==> s[k] != '/'
  {
    if |s| == 0 || s[|s| - 1] == '/' then |s| else AfterLastSlash(s[..|s| - 1])
  }

  /** `PurePosixPath(s).name`: the last path component, ignoring trailing slashes and "."
      components; empty when there is no component. */
  function Name(s: string): (r: string)
    ensures forall k :: 0 <= k < |r| ==> r[k] != '/'
    decreases |s|
  {
    if |s| == 0 then ""
    else if s[|s| - 1] == '/' then Name(s[..|s| - 1])
    else
      var i := AfterLastSlash(s);
      if s[i..] == "." then Name(s[..i]) else s[i..]
  }

  /** `name.rfind(c)`: the last index of `c`, or -1. */
  function RFind(s: string, c: char): (i: int)
    ensures -1 <= i < |s|
    ensures i >= 0 ==> s[i] == c
    ensures forall k :: i < k < |s| ==> s[k] != c
  {
    if |s| == 0 then -1 else if s[|s| - 1] == c then |s| - 1 else RFind(s[..|s| - 1], c)
  }

  /** `PurePath.suffix` of a name: from the last dot on, provided that dot is neither the
      first nor the last character. */
  function Suffix(name: string): (r: string)
    ensures r == "" || (r[0] == '.' && |r| >= 2 && forall k :: 1 <= k < |r| ==> r[k] != '.')
    ensures r != "" ==> |name| > |r| && name[|name| - |r|..] == r
  {
    var i := RFind(name, '.');
    if 0 < i < |name| - 1 then name[i..] else ""
  }

  /** `get_file_extension`: the lower-cased suffix of the file name, dot included. */
  function GetFileExtension(filename: string): (r: string)
    ensures r == "" || (r[0] == '.' && |r| >= 2 && forall k :: 1 <= k < |r| ==> r[k] != '.' && r[k] != '/')
  {
    var n := Name(filename);
    var sfx := Suffix(n);
    assert forall k :: 0 <= k < |sfx| ==> sfx[k] == n[|n| - |sfx| + k];
    Lower(sfx)
  }

  /** The extension is already lower-case: lower-casing it again changes nothing. */
  lemma ExtensionIsLowerCase(filename: string)
    ensures Lower(GetFileExtension(filename)) == GetFileExtension(filename)
  {
    LowerIdempotent(Suffix(Name(filename)));
  }

  /** Lower-casing keeps every slash and dot where it is and creates no new ones. */
  lemma LowerKeepsSeparators(c: char)
    ensures LowerChar(c) == '/' <==> c == '/'
    ensures LowerChar(c) == '.' <==> c == '.'
  {
  }

  lemma {:induction false} AfterLastSlashLower(s: string)
    ensures AfterLastSlash(Lower(s)) == AfterLastSlash(s)
    decreases |s|
  {
    if |s| > 0 {
      LowerKeepsSeparators(s[|s| - 1]);
      assert Lower(s)[..|s| - 1] == Lower(s[..|s| - 1]);
      AfterLastSlashLower(s[..|s| - 1]);
    }
  }

  lemma LowerSlices(s: string, i: nat)
    requires i <= |s|
    ensures Lower(s)[i..] == Lower(s[i..]) && Lower(s)[..i] == Lower(s[..i])
  {
  }

  lemma LowerIsDot(x: string)
    ensures Lower(x) == "." <==> x == "."
  {
    if |x| == 1 {
      LowerKeepsSeparators(x[0]);
    }
  }

  lemma {:induction false} NameLower(s: string)
    ensures Name(Lower(s)) == Lower(Name(s))
    decreases |s|
  {
    if |s| > 0 {
      var l := Lower(s);
      LowerKeepsSeparators(s[|s| - 1]);
      LowerSlices(s, |s| - 1);
      if s[|s| - 1] == '/' {
        NameLower(s[..|s| - 1]);
      } else {
        var i := AfterLastSlash(s);
        AfterLastSlashLower(s);
        LowerSlices(s, i);
        LowerIsDot(s[i..]);
        if s[i..] == "." {
          NameLower(s[..i]);
        }
      }
    }
  }

  lemma {:induction false} RFindDotLower(s: string)
    ensures RFind(Lower(s), '.') == RFind(s, '.')
    decreases |s|
  {
    if |s| > 0 {
      LowerKeepsSeparators(s[|s| - 1]);
      assert Lower(s)[..|s| - 1] == Lower(s[..|s| - 1]);
      RFindDotLower(s[..|s| - 1]);
    }
  }

  /** The extension does not depend on the case of the file name. */
  lemma ExtensionCaseInsensitive(filename: string)
    ensures GetFileExtension(Lower(filename)) == GetFileExtension(filename)
  {
    var n := Name(filename);
    NameLower(filename);
    RFindDotLower(n);
    var i := RFind(n, '.');
    if 0 < i < |n| - 1 {
      assert Lower(n)[i..] == Lower(n[i..]);
    }
    LowerIdempotent(Suffix(n));
  }

  /** A plain `stem.ext` name, with a non-empty stem and an extension free of dots and
      slashes, has extension `.ext` lower-cased. */
  lemma ExtensionOfPlainName(stem: string, ext: string)
    requires stem != "" && ext != ""
    requires forall k :: 0 <= k < |stem| ==> stem[k] != '/'
    requires forall k :: 0 <= k < |ext| ==> ext[k] != '/' && ext[k] != '.'
    ensures GetFileExtension(stem + "." + ext) == Lower("." + ext)
  {
    var f := stem + "." + ext;
    forall k | 0 <= k < |f| ensures f[k] != '/' {
      if k < |stem| {
        assert f[k] == stem[k];
      } else if k > |stem| {
        assert f[k] == ext[k - |stem| - 1];
      }
    }
    assert AfterLastSlash(f) == 0;
    assert f[0..] == f;
    assert Name(f) == f;
    forall k | |stem| < k < |f| ensures f[k] != '.' {
      assert f[k] == ext[k - |stem| - 1];
    }
    assert f[|stem|] == '.';
    assert RFind(f, '.') == |stem|;
    assert f[|stem|..] == "." + ext;
  }

  const ImageExtensions: set<string> := {".jpg", ".jpeg", ".png", ".gif", ".webp", ".bmp"}
  const VideoExtensions: set<string> := {".mp4", ".avi", ".mov", ".mkv", ".webm", ".flv"}
  const AudioExtensions: set<string> := {".mp3", ".wav", ".ogg", ".flac", ".aac", ".m4a"}

  /** `is_image_file`. */
  predicate IsImageFile(filename: string) {
    GetFileExtension(filename) in ImageExtensions
  }

  /** `is_video_file`. */
  predicate IsVideoFile(filename: string) {
    GetFileExtension(filename) in VideoExtensions
  }

  /** `is_audio_file`. */
  predicate IsAudioFile(filename: string) {
    GetFileExtension(filename) in AudioExtensions
  }

  /** No file name is in more than one media class. */
  lemma MediaClassesDisjoint(filename: string)
    ensures !(IsImageFile(filename) && IsVideoFile(filename))
    ensures !(IsImageFile(filename) && IsAudioFile(filename))
    ensures !(IsVideoFile(filename) && IsAudioFile(filename))
  {
    assert ImageExtensions * VideoExtensions == {};
    assert ImageExtensions * AudioExtensions == {};
    assert VideoExtensions * AudioExtensions == {};
  }

  /** A name without slashes, other than "" and ".", is its own `name`. */
  lemma {:induction false} NameOfPlainName(name: string)
    requires name != "" && name != "."
    requires forall k :: 0 <= k < |name| ==> name[k] != '/'
    ensures Name(name) == name
  {
    assert AfterLastSlash(name) == 0;
    assert name[0..] == name;
  }

  /** The directories in front of a file name do not change its extension. */
  lemma ExtensionIgnoresDirectory(dir: string, name: string)
    requires name != "" && name != "."
    requires forall k :: 0 <= k < |name| ==> name[k] != '/'
    ensures GetFileExtension(dir + "/" + name) == GetFileExtension(name)
  {
    var f := dir + "/" + name;
    forall k | |dir| + 1 <= k < |f| ensures f[k] != '/' {
      assert f[k] == name[k - |dir| - 1];
    }
    assert f[|dir|] == '/';
    assert AfterLastSlash(f) == |dir| + 1;
    assert f[|dir| + 1..] == name;
    NameOfPlainName(name);
  }

  /** Classification ignores case: a file name and its lower-cased form fall in the same
      media classes, so "PHOTO.JPG" is an image exactly as "photo.jpg" is. */
  lemma MediaClassesIgnoreCase(filename: string)
    ensures IsImageFile(Lower(filename)) == IsImageFile(filename)
    ensures IsVideoFile(Lower(filename)) == IsVideoFile(filename)
    ensures IsAudioFile(Lower(filename)) == IsAudioFile(filename)
  {
    ExtensionCaseInsensitive(filename);
  }

  /** A name whose only dot is its first character has no suffix. */
  lemma LeadingDotOnly(name: string)
    requires |name| >= 1 && name[0] == '.'
    requires forall k :: 1 <= k < |name| ==> name[k] != '.'
    ensures Suffix(name) == ""
  {
    assert RFind(name, '.') == 0;
  }

  /** A name whose only dot comes first has no suffix: ".png" is not an image. */
  lemma HiddenFileHasNoExtension()
    ensures GetFileExtension(".png") == "" && !IsImageFile(".png")
  {
    var f := ".png";
    assert f[0] == '.' && f[1] == 'p' && f[2] == 'n' && f[3] == 'g';
    assert Name(f) == f by { NameOfPlainName(f); }
    LeadingDotOnly(f);
  }
}
