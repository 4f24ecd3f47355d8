/** The upload check of tickets/validators.py: a plain file name, at most
    20 MiB, one of seven extensions, and an allowed content type when one is
    given. The checks run in that order and the first failure is reported. */
module Validators {
  import opened Strings

  const ALLOWED_EXT: set<string> := {".png", ".jpg", ".jpeg", ".pdf", ".txt", ".doc", ".docx"}
  const ALLOWED_CT: set<string> := {
    "image/png", "image/jpeg", "application/pdf", "text/plain", "application/msword",
    "application/vnd.openxmlformats-officedocument.wordprocessingml.document"
  }
  const MAX_SIZE: int := 20 * 1024 * 1024

  /** What the validator reads from an uploaded file; a missing or None
      content type is the empty string. */
  datatype Upload = Upload(name: string, size: int, contentType: string)

  datatype UploadError = BadName | TooLarge | BadExtension(ext: string) | BadContentType(ct: string)

  datatype Verdict = Accepted | Rejected(error: UploadError)

  /** The message the source raises for each failure. */
  function Message(e: UploadError): string {
    match e
    case BadName => "Nombre de archivo inválido."
    case TooLarge => "Archivo demasiado grande (>20MB)."
    case BadExtension(ext) => "Extensión no permitida: " + ext
    case BadContentType(ct) => "Tipo de contenido no permitido: " + ct
  }

  /** `PurePosixPath(s).name`: the last component that is neither empty nor
      ".", or "" when there is none. */
  function PathName(s: string): (r: string)
    ensures '/' !in r
    ensures r != "."
    decreases |s|
  {
    if '/' !in s then (if s == "." then "" else s)
    else
      var p := AfterLastSlash(s);
      if p == "" || p == "." then PathName(s[..|s| - |p| - 1]) else p
  }

  /** A name is its own path name exactly when it has no slash and is not ".". */
  lemma PathNameIsIdentity(s: string)
    ensures PathName(s) == s <==> ('/' !in s && s != ".")
  {
  }

  /** `PurePosixPath(name).suffix`: from the last dot on, unless that dot is the
      first or the last character. */
  function Suffix(name: string): (r: string)
    ensures r != "" ==> |r| >= 2 && r[0] == '.' && |r| < |name|
  {
    var i := LastIndexOf(name, '.');
    if 0 < i < |name| - 1 then name[i..] else ""
  }

  /** A suffix is the tail of the name from its last dot, with no dot after it. */
  lemma SuffixIsTail(name: string)
    ensures var r := Suffix(name);
      r != "" ==> r == name[|name| - |r|..] && '.' !in r[1..]
  {
    var i := LastIndexOf(name, '.');
    var r := Suffix(name);
    if r != "" {
      assert forall k :: 0 <= k < |r| - 1 ==> r[1..][k] == name[i + 1 + k];
    }
  }

  predicate PlainName(name: string) { PathName(name) == name }

  function Extension(name: string): string { Lower(Suffix(PathName(name))) }

  predicate ContentTypeOk(ct: string) { ct == "" || ct in ALLOWED_CT }

  /** `validate_upload`. */
  function Validate(f: Upload): (v: Verdict)
    ensures v == Accepted <==>
      ('/' !in f.name && f.name != "." && f.size <= MAX_SIZE
       && Extension(f.name) in ALLOWED_EXT && ContentTypeOk(f.contentType))
    ensures v == Rejected(BadName) <==> ('/' in f.name || f.name == ".")
    ensures v == Rejected(TooLarge) <==> (PlainName(f.name) && f.size > MAX_SIZE)
    ensures v.Rejected? && v.error.BadExtension? <==>
      (PlainName(f.name) && f.size <= MAX_SIZE && Extension(f.name) !in ALLOWED_EXT)
    ensures v.Rejected? && v.error.BadContentType? ==>
      PlainName(f.name) && f.size <= MAX_SIZE && Extension(f.name) in ALLOWED_EXT
      && v.error.ct == f.contentType && !ContentTypeOk(f.contentType)
  {
    PathNameIsIdentity(f.name);
    if !PlainName(f.name) then Rejected(BadName)
    else if f.size > MAX_SIZE then Rejected(TooLarge)
    else if Extension(f.name) !in ALLOWED_EXT then Rejected(BadExtension(Extension(f.name)))
    else if f.contentType != "" && f.contentType !in ALLOWED_CT then Rejected(BadContentType(f.contentType))
    else Accepted
  }

  /** A path that climbs directories is refused before anything else is looked at. */
  lemma TraversalRejected(size: int, ct: string)
    ensures Validate(Upload("../../evil.txt", size, ct)) == Rejected(BadName)
  {
    assert '/' in "../../evil.txt" by { assert "../../evil.txt"[2] == '/'; }
  }

  /** The extension of "ok.txt" is ".txt". */
  lemma OkTxtExtension()
    ensures PlainName("ok.txt") && Extension("ok.txt") == ".txt"
  {
    assert '/' !in "ok.txt";
    assert PathName("ok.txt") == "ok.txt";
    LastIndexOfFound("ok.txt", '.');
    assert "ok.txt"[2] == '.';
    assert LastIndexOf("ok.txt", '.') == 2;
    assert Suffix("ok.txt") == ".txt";
    assert Lower(".txt") == ".txt";
  }

  /** "ok.txt" sent as text/plain passes; so does it with no content type. */
  lemma PlainTextAccepted(size: int)
    requires 0 <= size <= MAX_SIZE
    ensures Validate(Upload("ok.txt", size, "text/plain")) == Accepted
    ensures Validate(Upload("ok.txt", size, "")) == Accepted
  {
    OkTxtExtension();
  }

  /** The size limit is inclusive: exactly 20 MiB is accepted, one byte more is not. */
  lemma SizeLimitInclusive()
    ensures Validate(Upload("ok.txt", MAX_SIZE, "")) == Accepted
    ensures Validate(Upload("ok.txt", MAX_SIZE + 1, "")) == Rejected(TooLarge)
  {
    PlainTextAccepted(MAX_SIZE);
    assert '/' !in "ok.txt";
  }

  /** Upper-case extensions are accepted after lower-casing. */
  lemma UpperCaseExtensionAccepted()
    ensures Validate(Upload("SCAN.PDF", 1, "application/pdf")) == Accepted
  {
    ScanPdfExtension();
  }

  /** The extension of "SCAN.PDF" reads ".pdf" once lower-cased. */
  lemma ScanPdfExtension()
    ensures PlainName("SCAN.PDF") && Extension("SCAN.PDF") == ".pdf"
  {
    assert '/' !in "SCAN.PDF";
    assert PathName("SCAN.PDF") == "SCAN.PDF";
    LastIndexOfFound("SCAN.PDF", '.');
    assert "SCAN.PDF"[4] == '.';
    assert LastIndexOf("SCAN.PDF", '.') == 4;
    assert Suffix("SCAN.PDF") == ".PDF";
    assert Lower(".PDF") == ".pdf";
  }
}
