/** The pure string logic of a resume upload: the case-insensitive file type
    test on the text after the file name's last dot, the size bound, the title
    taken from the file name, and the fail-fast screening of an upload. */
module ResumeFiles {
  import opened Outcomes

  /** The suffixes the upload accepts; the test prefixes the extension with a dot. */
  const AllowedSuffixes: seq<string> := [".pdf", ".doc", ".docx"]

  /** 10 MiB, the largest accepted file. */
  const MaxSize: nat := 10 * 1024 * 1024

  const NoFile := "No resume file provided"
  const InvalidType := "Invalid file type. Only PDF, DOC, and DOCX files are allowed."
  const TooLarge := "File size too large. Maximum size is 10MB."

  /** The uploaded file as the view sees it: its client-side name and its size. */
  datatype UploadedFile = UploadedFile(name: string, size: nat)

  /** Lower-casing of one character; only A to Z change. */
  function LowerChar(c: char): char {
    if 'A' <= c <= 'Z' then (c as int - 'A' as int + 'a' as int) as char else c
  }

  function Lower(s: string): (r: string)
    ensures |r| == |s|
    ensures forall i :: 0 <= i < |s| ==> r[i] == LowerChar(s[i])
  {
    if s == [] then [] else [LowerChar(s[0])] + Lower(s[1..])
  }

  /** The index of the last '.' of `s`, if there is one. */
  function LastDot(s: string): (r: Option<nat>)
    ensures r.Some? ==> r.value < |s| && s[r.value] == '.'
    ensures r.Some? ==> forall j :: r.value < j < |s| ==> s[j] != '.'
    ensures r.None? ==> forall j :: 0 <= j < |s| ==> s[j] != '.'
  {
    if s == [] then None
    else if s[|s| - 1] == '.' then Some(|s| - 1)
    else LastDot(s[..|s| - 1])
  }

  /** The last piece of `s` split at every '.' (Python's `s.split('.')[-1]`):
      the text after the last dot, or all of `s` when it has no dot. */
  function LastSegment(s: string): string {
    match LastDot(s)
    case None => s
    case Some(i) => s[i + 1..]
  }

  /** The first piece of `s` split once at its last '.' (Python's
      `s.rsplit('.', 1)[0]`): the text before the last dot, or all of `s`. */
  function BeforeLastDot(s: string): string {
    match LastDot(s)
    case None => s
    case Some(i) => s[..i]
  }

  /** The file type test of the upload view: the lower-cased name's last
      segment, prefixed with '.', is one of the allowed suffixes. */
  predicate ExtensionAllowed(name: string) {
    "." + LastSegment(Lower(name)) in AllowedSuffixes
  }

  /** The size test: a file is too large only when it exceeds 10 MiB. */
  predicate SizeAllowed(size: nat) {
    size <= MaxSize
  }

  /** The title stored for an upload: the one given, unless it is absent or
      empty, else the file name without its last extension. */
  function ResumeTitle(given: Option<string>, fileName: string): string {
    if Given(given) then given.value else BeforeLastDot(fileName)
  }

  /** The checks of an upload in the view's order, each one ending the request
      with a 400 before anything is stored: a file is present, its type is
      allowed, its size is within the bound. */
  function ScreenUpload(file: Option<UploadedFile>): (r: Result<UploadedFile>)
    ensures r.Ok? <==> file.Some? && ExtensionAllowed(file.value.name) && SizeAllowed(file.value.size)
    ensures r.Ok? ==> r.value == file.value
    ensures r.Err? ==> r.kind == BadRequest && r.field == Some("error")
    ensures file.None? ==> r.Err? && r.message == NoFile
    ensures file.Some? && !ExtensionAllowed(file.value.name) ==> r.Err? && r.message == InvalidType
    ensures file.Some? && ExtensionAllowed(file.value.name) && !SizeAllowed(file.value.size) ==>
              r.Err? && r.message == TooLarge
  {
    if file.None? then Err(BadRequest, Some("error"), NoFile)
    else if !ExtensionAllowed(file.value.name) then Err(BadRequest, Some("error"), InvalidType)
    else if !SizeAllowed(file.value.size) then Err(BadRequest, Some("error"), TooLarge)
    else Ok(file.value)
  }

  predicate EndsWith(s: string, suffix: string) {
    |suffix| <= |s| && s[|s| - |suffix|..] == suffix
  }

  /** Splitting at the last dot loses nothing: the two pieces and the dot
      rebuild the name, the extension holds no dot, and a name without a dot
      is its own title and its own extension. */
  lemma {:induction false} PiecesRebuildName(s: string)
    ensures LastDot(s).Some? ==> BeforeLastDot(s) + "." + LastSegment(s) == s
    ensures LastDot(s).None? ==> BeforeLastDot(s) == s && LastSegment(s) == s
    ensures '.' !in LastSegment(s)
    ensures |BeforeLastDot(s)| <= |s|
  {
    match LastDot(s)
    case None =>
    case Some(i) =>
      assert s == s[..i] + [s[i]] + s[i + 1..];
  }

  /** A text ending with a dot and `e` has that dot just before `e`'s copy. */
  lemma {:induction false} EndsWithDotThen(l: string, e: string)
    requires EndsWith(l, "." + e)
    ensures l[|l| - |e| - 1] == '.'
    ensures forall j :: |l| - |e| <= j < |l| ==> l[j] == e[j - (|l| - |e|)]
  {
    var d := |l| - |e| - 1;
    assert l[d..] == "." + e;
    forall j | |l| - |e| <= j < |l| ensures l[j] == e[j - (|l| - |e|)] {
      assert l[j] == l[d..][j - d] == ("." + e)[j - d];
    }
  }

  /** A suffix that holds no dot is the last segment exactly when the text is
      that suffix alone or ends with a dot followed by it. */
  lemma {:induction false} LastSegmentIs(l: string, e: string)
    requires '.' !in e
    ensures LastSegment(l) == e <==> l == e || EndsWith(l, "." + e)
  {
    if LastSegment(l) == e {
      SegmentGivesSuffix(l, e);
    }
    if l == e {
      if LastDot(l).Some? {
        assert false;
      }
    }
    if EndsWith(l, "." + e) {
      SuffixGivesSegment(l, e);
    }
  }

  lemma {:induction false} SegmentGivesSuffix(l: string, e: string)
    requires LastSegment(l) == e
    ensures l == e || EndsWith(l, "." + e)
  {
    match LastDot(l)
    case None =>
    case Some(i) =>
      assert l[i..] == [l[i]] + l[i + 1..] == "." + e;
  }

  lemma {:induction false} SuffixGivesSegment(l: string, e: string)
    requires '.' !in e
    requires EndsWith(l, "." + e)
    ensures LastSegment(l) == e
  {
    var d := |l| - |e| - 1;
    EndsWithDotThen(l, e);
    var r := LastDot(l);
    if r.None? {
      assert false;
    }
    var i := r.value;
    if i > d {
      assert false;
    }
    assert i == d;
    assert l[i + 1..] == e;
  }

  /** An independent statement of the file type test on a lower-cased name:
      it ends with ".pdf", ".doc" or ".docx", or is "pdf", "doc" or "docx"
      alone (a name without a dot is its own extension). */
  predicate HasAllowedEnding(l: string) {
    || EndsWith(l, ".pdf") || EndsWith(l, ".doc") || EndsWith(l, ".docx")
    || l == "pdf" || l == "doc" || l == "docx"
  }

  lemma {:induction false} AcceptedIffEndsWithAllowedSuffix(name: string)
    ensures ExtensionAllowed(name) <==> HasAllowedEnding(Lower(name))
  {
    var l := Lower(name);
    var x := LastSegment(l);
    assert ExtensionAllowed(name) <==> "." + x == ".pdf" || "." + x == ".doc" || "." + x == ".docx";
    assert ".pdf" == "." + "pdf" && ".doc" == "." + "doc" && ".docx" == "." + "docx";
    DotPrefixCancels(x, "pdf");
    DotPrefixCancels(x, "doc");
    DotPrefixCancels(x, "docx");
    assert '.' !in "pdf" && '.' !in "doc" && '.' !in "docx";
    LastSegmentIs(l, "pdf");
    LastSegmentIs(l, "doc");
    LastSegmentIs(l, "docx");
  }

  lemma DotPrefixCancels(x: string, y: string)
    ensures "." + x == "." + y <==> x == y
  {
    if "." + x == "." + y {
      assert x == ("." + x)[1..] == ("." + y)[1..] == y;
    }
  }

  /** An upper-case extension passes. */
  lemma UpperCaseExtensionAccepted()
    ensures ExtensionAllowed("CV.PDF")
  {
    var l := Lower("CV.PDF");
    assert l == "cv.pdf" by {
      assert forall i | 0 <= i < 6 :: l[i] == "cv.pdf"[i];
    }
    assert EndsWith(l, ".pdf") by {
      assert l[2..] == ".pdf";
    }
    AcceptedIffEndsWithAllowedSuffix("CV.PDF");
  }

  /** Dots before the extension do not matter. */
  lemma DottedNameAccepted()
    ensures ExtensionAllowed("my.cv.docx")
  {
    var l := Lower("my.cv.docx");
    assert l == "my.cv.docx" by {
      assert forall i | 0 <= i < 10 :: l[i] == "my.cv.docx"[i];
    }
    assert EndsWith(l, ".docx") by {
      assert l[5..] == ".docx";
    }
    AcceptedIffEndsWithAllowedSuffix("my.cv.docx");
  }

  /** A type outside the three fails. */
  lemma ExecutableRejected()
    ensures !ExtensionAllowed("a.exe")
  {
    var l := Lower("a.exe");
    assert l == "a.exe" by {
      assert forall i | 0 <= i < 5 :: l[i] == "a.exe"[i];
    }
    assert l[1..] == ".exe" && l[0..] == "a.exe";
    AcceptedIffEndsWithAllowedSuffix("a.exe");
  }

  /** Only the last extension counts: an executable named like a document fails. */
  lemma DoubleExtensionRejected()
    ensures !ExtensionAllowed("cv.pdf.exe")
  {
    var l := Lower("cv.pdf.exe");
    assert l == "cv.pdf.exe" by {
      assert forall i | 0 <= i < 10 :: l[i] == "cv.pdf.exe"[i];
    }
    assert l[6..] == ".exe" && l[5..] == "f.exe";
    AcceptedIffEndsWithAllowedSuffix("cv.pdf.exe");
  }

  /** A name without any dot is its own extension, so a file named just
      "pdf" passes the type test. */
  lemma BareExtensionNameAccepted()
    ensures ExtensionAllowed("pdf")
    ensures ExtensionAllowed("DOCX")
  {
    var l := Lower("pdf");
    assert l == "pdf" by {
      assert forall i | 0 <= i < 3 :: l[i] == "pdf"[i];
    }
    AcceptedIffEndsWithAllowedSuffix("pdf");
    var m := Lower("DOCX");
    assert m == "docx" by {
      assert forall i | 0 <= i < 4 :: m[i] == "docx"[i];
    }
    AcceptedIffEndsWithAllowedSuffix("DOCX");
  }

  /** The size bound is inclusive: exactly 10 MiB passes, one byte more fails. */
  lemma SizeBoundary()
    ensures SizeAllowed(10485760) && !SizeAllowed(10485761)
  {
  }

  /** The type test comes first: a file of the wrong type is reported as such
      whatever its size, and a large file is reported only when its type passes. */
  lemma TypeCheckedBeforeSize(f: UploadedFile)
    requires !SizeAllowed(f.size)
    ensures ScreenUpload(Some(f)).message == if ExtensionAllowed(f.name) then TooLarge else InvalidType
  {
  }

  /** Without a given title, the title is the file name up to its last dot:
      the name minus its extension, or the whole name when it has no dot. */
  lemma {:induction false} DefaultTitleDropsExtension(given: Option<string>, fileName: string)
    requires !Given(given)
    ensures '.' in fileName ==> ResumeTitle(given, fileName) + "." + LastSegment(fileName) == fileName
    ensures '.' !in fileName ==> ResumeTitle(given, fileName) == fileName
  {
    PiecesRebuildName(fileName);
    if '.' in fileName {
      var k :| 0 <= k < |fileName| && fileName[k] == '.';
    }
  }

  lemma TitleExamples()
    ensures ResumeTitle(None, "my.cv.docx") == "my.cv"
    ensures ResumeTitle(Some(""), "resume") == "resume"
    ensures ResumeTitle(Some("Backend CV"), "x.pdf") == "Backend CV"
  {
    assert LastDot("my.cv.docx") == Some(5) by {
      assert "my.cv.docx"[..9] == "my.cv.doc";
      assert "my.cv.doc"[..8] == "my.cv.do";
      assert "my.cv.do"[..7] == "my.cv.d";
      assert "my.cv.d"[..6] == "my.cv.";
    }
    assert LastDot("resume") == None by {
      assert "resume"[..5] == "resum";
      assert "resum"[..4] == "resu";
      assert "resu"[..3] == "res";
      assert "res"[..2] == "re";
      assert "re"[..1] == "r";
      assert "r"[..0] == "";
    }
  }
}
