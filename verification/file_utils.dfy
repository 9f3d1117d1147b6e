/**
 * Filename and MIME helpers (utils/fileUtils.ts): `cleanFilename`, which
 * turns a file name into a candidate username by removing its extension, and
 * `getFileType`, which classifies a file by its MIME type.
 */
module FileUtils {
  import JsString

  /** The parts of a browser `File` the application reads. */
  datatype File = File(name: string, mime: string, size: nat)

  datatype MediaKind = Image | Video | Unknown

  /** A character of `[^/.]`: anything but a dot or a slash. */
  predicate IsExtChar(c: char) {
    c != '.' && c != '/'
  }

  /** A non-empty run of `[^/.]` characters. */
  predicate IsExtension(ext: string) {
    ext != [] && forall j :: 0 <= j < |ext| ==> IsExtChar(ext[j])
  }

  /** The pattern `/\.[^/.]+$/` matches `name` at position `k`. */
  predicate ExtensionAt(name: string, k: int) {
    0 <= k < |name| && name[k] == '.' && IsExtension(name[k + 1..])
  }

  predicate HasExtension(name: string) {
    exists k :: 0 <= k < |name| && ExtensionAt(name, k)
  }

  /**
   * `cleanFilename`: the regex replace restated without a regex. Only the
   * last dot can start a match, because everything after the dot must be
   * free of dots; the match succeeds when at least one character follows
   * that dot and none of them is a slash.
   */
  function CleanFilename(name: string): (r: string)
    ensures |r| <= |name| && r == name[..|r|]
    ensures HasExtension(name) ==> ExtensionAt(name, |r|)
    ensures !HasExtension(name) ==> r == name
  {
    var dot := JsString.LastIndexOf(name, '.');
    var slash := JsString.LastIndexOf(name, '/');
    LastDotDecides(name);
    if 0 <= dot && dot + 1 < |name| && slash < dot then name[..dot] else name
  }

  /** A match can only start at the last dot, and it does exactly when the guard in `CleanFilename` holds. */
  lemma LastDotDecides(name: string)
    ensures forall k :: ExtensionAt(name, k) ==> k == JsString.LastIndexOf(name, '.')
    ensures var dot := JsString.LastIndexOf(name, '.');
            HasExtension(name) <==>
            0 <= dot && dot + 1 < |name| && JsString.LastIndexOf(name, '/') < dot
  {
    var dot := JsString.LastIndexOf(name, '.');
    forall k | ExtensionAt(name, k) ensures k == dot {
      MatchOnlyAtLastDot(name, k);
    }
    if HasExtension(name) {
      var k :| 0 <= k < |name| && ExtensionAt(name, k);
      MatchOnlyAtLastDot(name, k);
    }
    if 0 <= dot && dot + 1 < |name| && JsString.LastIndexOf(name, '/') < dot {
      GuardGivesMatch(name);
    }
  }

  lemma MatchOnlyAtLastDot(name: string, k: int)
    requires ExtensionAt(name, k)
    ensures k == JsString.LastIndexOf(name, '.')
    ensures k + 1 < |name| && JsString.LastIndexOf(name, '/') < k
  {
    var dot := JsString.LastIndexOf(name, '.');
    var slash := JsString.LastIndexOf(name, '/');
    if k < dot {
      assert false;
    }
    if slash > k {
      assert false;
    }
  }

  lemma GuardGivesMatch(name: string)
    requires var dot := JsString.LastIndexOf(name, '.');
             0 <= dot && dot + 1 < |name| && JsString.LastIndexOf(name, '/') < dot
    ensures ExtensionAt(name, JsString.LastIndexOf(name, '.'))
  {
    var dot := JsString.LastIndexOf(name, '.');
    var slash := JsString.LastIndexOf(name, '/');
    var ext := name[dot + 1..];
    forall j | 0 <= j < |ext| ensures IsExtChar(ext[j]) {
      assert ext[j] == name[dot + 1 + j];
    }
  }

  /**
   * The regex engine's own search: try each start position from `k`
   * onwards and report the first at which the pattern matches, or -1.
   */
  function FirstMatchFrom(name: string, k: nat): (m: int)
    ensures m == -1 || (k <= m < |name| && ExtensionAt(name, m))
    ensures m < 0 ==> forall j :: k <= j < |name| ==> !ExtensionAt(name, j)
    ensures m >= 0 ==> forall j :: k <= j < m ==> !ExtensionAt(name, j)
    decreases |name| - k
  {
    if k >= |name| then -1
    else if ExtensionAt(name, k) then k
    else FirstMatchFrom(name, k + 1)
  }

  /**
   * `String.prototype.replace` with a non-global regex: the leftmost match,
   * which runs to the end of the name because of `$`, is replaced by "".
   */
  function RegexReplace(name: string): (r: string)
    ensures r <= name
    ensures |r| < |name| ==> ExtensionAt(name, |r|) && forall j :: 0 <= j < |r| ==> !ExtensionAt(name, j)
    ensures |r| == |name| ==> forall j :: 0 <= j < |name| ==> !ExtensionAt(name, j)
  {
    var m := FirstMatchFrom(name, 0);
    if m < 0 then name
    else
      assert name[..m] + name[|name|..] == name[..m];
      name[..m] + name[|name|..]
  }

  /** The last-dot restatement agrees with the regex replace on every name. */
  lemma CleanFilenameIsRegexReplace(name: string)
    ensures CleanFilename(name) == RegexReplace(name)
  {
    LastDotDecides(name);
  }

  /**
   * The name comes back unchanged exactly in the three cases: it has no
   * dot, it ends in a dot, or a slash follows its last dot.
   */
  lemma UnchangedCases(name: string)
    ensures var dot := JsString.LastIndexOf(name, '.');
            CleanFilename(name) == name <==>
            (dot < 0
             || name[|name| - 1] == '.'
             || (exists j :: dot < j < |name| && name[j] == '/'))
  {
    var dot := JsString.LastIndexOf(name, '.');
    LastDotDecides(name);
    var slash := JsString.LastIndexOf(name, '/');
    if slash > dot {
      assert dot < slash < |name| && name[slash] == '/';
    }
  }

  /**
   * When something is removed, it is at least two characters long, starts
   * at a dot, and holds no further dot or slash.
   */
  lemma RemovedSuffixShape(name: string)
    ensures var r := CleanFilename(name);
            r != name ==>
            |name| - |r| >= 2 && name[|r|] == '.' && IsExtension(name[|r| + 1..])
  {
  }

  /** Appending an extension and cleaning gives back the base, whatever the base holds. */
  lemma StripAppendedExtension(base: string, ext: string)
    requires IsExtension(ext)
    ensures CleanFilename(base + ['.'] + ext) == base
  {
    var name := base + ['.'] + ext;
    assert name[|base| + 1..] == ext;
    assert ExtensionAt(name, |base|);
    LastDotDecides(name);
  }

  /** A name that is only a dot-extension, such as ".bashrc", becomes the empty string. */
  lemma DotfileBecomesEmpty(ext: string)
    requires IsExtension(ext)
    ensures CleanFilename(['.'] + ext) == []
  {
    StripAppendedExtension([], ext);
    assert [] + ['.'] + ext == ['.'] + ext;
  }

  /** One call strips one extension only, so cleaning is not idempotent. */
  lemma {:induction false} OneExtensionPerCall(base: string, e1: string, e2: string)
    requires IsExtension(e1) && IsExtension(e2)
    ensures CleanFilename(base + ['.'] + e1 + ['.'] + e2) == base + ['.'] + e1
    ensures CleanFilename(CleanFilename(base + ['.'] + e1 + ['.'] + e2)) == base
  {
    StripAppendedExtension(base + ['.'] + e1, e2);
    StripAppendedExtension(base, e1);
  }

  lemma StrippedExamples()
    ensures CleanFilename("alice.jpg") == "alice"
    ensures CleanFilename("a.b.c.png") == "a.b.c"
  {
    assert IsExtension("jpg") && IsExtension("png");
    assert "alice.jpg" == "alice" + ['.'] + "jpg";
    StripAppendedExtension("alice", "jpg");
    assert "a.b.c.png" == "a.b.c" + ['.'] + "png";
    StripAppendedExtension("a.b.c", "png");
  }

  lemma DotfileExample()
    ensures CleanFilename(".bashrc") == ""
  {
    assert IsExtension("bashrc");
    assert ".bashrc" == ['.'] + "bashrc";
    DotfileBecomesEmpty("bashrc");
  }

  lemma NotIdempotentExample()
    ensures CleanFilename("a.b.c") == "a.b"
    ensures CleanFilename(CleanFilename("a.b.c")) == "a"
  {
    assert IsExtension("b") && IsExtension("c");
    assert "a.b.c" == "a" + ['.'] + "b" + ['.'] + "c";
    assert "a.b" == "a" + ['.'] + "b";
    OneExtensionPerCall("a", "b", "c");
  }

  lemma UnchangedExamples()
    ensures CleanFilename("bob_2024") == "bob_2024"
    ensures CleanFilename("foo.") == "foo."
    ensures CleanFilename("a.b/c") == "a.b/c"
  {
    UnchangedCases("bob_2024");
    UnchangedCases("foo.");
    UnchangedCases("a.b/c");
    assert "a.b/c"[3] == '/';
  }

  /** `getFileType`: a case-sensitive prefix test on the MIME type, image first. */
  function GetFileType(file: File): (kind: MediaKind)
    ensures kind == Image <==> "image/" <= file.mime
    ensures kind == Video <==> "video/" <= file.mime
    ensures kind == Unknown <==> !("image/" <= file.mime) && !("video/" <= file.mime)
  {
    if JsString.StartsWith(file.mime, "image/") then Image
    else if JsString.StartsWith(file.mime, "video/") then Video
    else Unknown
  }

  lemma GetFileTypeExamples()
    ensures GetFileType(File("a.png", "image/png", 1)).Image?
    ensures GetFileType(File("a.mp4", "video/mp4", 1)).Video?
    ensures GetFileType(File("a.pdf", "application/pdf", 1)).Unknown?
    ensures GetFileType(File("a.png", "IMAGE/png", 1)).Unknown?
  {
    assert "image/png"[..6] == "image/";
    assert "video/mp4"[..6] == "video/";
    assert "application/pdf"[0] != "image/"[0] && "application/pdf"[0] != "video/"[0];
    assert "IMAGE/png"[0] != "image/"[0] && "IMAGE/png"[0] != "video/"[0];
  }
}
