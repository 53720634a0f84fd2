/** The rules the image-upload route applies to a file before the image
    search sees it: the accept test on extension and MIME type, the size
    limit and the name the file is stored under. */
module UploadRules {
  import opened Text

  /** The alternatives of /jpeg|jpg|png|gif|webp/. */
  const AllowedTypes: seq<string> := ["jpeg", "jpg", "png", "gif", "webp"]

  /** The upload limit: five mebibytes. */
  const MaxFileSize: nat := 5 * 1024 * 1024

  const RejectMessage: string := "Chỉ cho phép upload hình ảnh (JPEG, PNG, GIF, WebP)"

  const StoredPrefix: string := "image-"

  datatype Verdict = Accept | Reject(message: string)

  // ---------------------------------------------------------------------
  // path.extname, POSIX flavour

  /** The position of the last c in s. */
  function LastIndexOf(s: string, c: char): (r: Option<nat>)
    ensures r.None? <==> c !in s
    ensures r.Some? ==> r.value < |s| && s[r.value] == c && c !in s[r.value + 1..]
  {
    if s == [] then None
    else if s[|s| - 1] == c then Some(|s| - 1)
    else
      var r := LastIndexOf(s[..|s| - 1], c);
      assert s == s[..|s| - 1] + [s[|s| - 1]];
      if r.Some? then
        assert s[r.value + 1..] == s[..|s| - 1][r.value + 1..] + [s[|s| - 1]];
        r
      else r
  }

  lemma {:induction false} LastIndexOfIs(s: string, c: char, i: nat)
    requires i < |s| && s[i] == c && c !in s[i + 1..]
    ensures LastIndexOf(s, c) == Some(i)
    decreases |s|
  {
    if i < |s| - 1 {
      assert s[|s| - 1] == s[i + 1..][|s| - 2 - i];
      assert s[..|s| - 1][i + 1..] == s[i + 1..][..|s| - 2 - i];
      LastIndexOfIs(s[..|s| - 1], c, i);
    }
  }

  /** The path without its trailing slashes: only '/' characters are
      removed, and only from the end. */
  function TrimSlashes(s: string): (r: string)
    ensures |r| <= |s| && r == s[..|r|]
    ensures r == [] || r[|r| - 1] != '/'
    ensures forall k :: |r| <= k < |s| ==> s[k] == '/'
    ensures s != [] && s[|s| - 1] != '/' ==> r == s
  {
    if s != [] && s[|s| - 1] == '/' then
      var r := TrimSlashes(s[..|s| - 1]);
      assert forall k :: |r| <= k < |s| - 1 ==> s[k] == s[..|s| - 1][k];
      r
    else s
  }

  /** The last component of a path without trailing slashes: what follows
      its last '/', or the whole path when it has none. */
  function BaseName(s: string): (r: string)
    ensures '/' !in r && |r| <= |s| && r == s[|s| - |r|..]
    ensures |r| < |s| ==> s[|s| - |r| - 1] == '/'
    ensures '/' !in s ==> r == s
  {
    match LastIndexOf(s, '/')
    case None => s
    case Some(i) => s[i + 1..]
  }

  /** path.extname: from the last '.' of the last component to its end;
      empty when that component has no '.', when its only '.' leads it
      (a dot file) and when the component is "..". */
  function ExtName(path: string): (r: string)
    ensures r == [] || (r[0] == '.' && '.' !in r[1..] && '/' !in r)
  {
    var base := BaseName(TrimSlashes(path));
    if base == ".." then ""
    else
      match LastIndexOf(base, '.')
      case None => ""
      case Some(d) =>
        if d == 0 then ""
        else
          assert '/' !in base[d..] by {
            forall k | 0 <= k < |base[d..]| ensures base[d..][k] != '/' {
              assert base[d..][k] == base[d + k];
            }
          }
          base[d..]
  }

  /** A name made of a stem and an extension without '.' or '/' has that
      extension, unless the stem is empty (a dot file) or "." (the name ".."). */
  lemma ExtNameOf(stem: string, e: string)
    requires stem != [] && stem != "." && '/' !in stem
    requires '.' !in e && '/' !in e
    ensures ExtName(stem + "." + e) == "." + e
  {
    var p := stem + "." + e;
    NameWithoutSlash(stem, e);
    NameAroundDot(stem, e);
    LastIndexOfIs(p, '.', |stem|);
    ExtNameAtDot(p, |stem|);
  }

  /** Where the pieces of stem + "." + e sit. */
  lemma NameAroundDot(stem: string, e: string)
    requires stem != [] && stem != "."
    ensures var p := stem + "." + e;
      |stem| < |p| && p[|stem|] == '.' && p[|stem| + 1..] == e && p[|stem|..] == "." + e && p != ".."
  {
    var p := stem + "." + e;
    assert p[|stem| + 1..] == e;
    assert p[|stem|..] == "." + e;
    if |p| == 2 {
      assert |stem| == 1 && p[0] == stem[0];
    }
  }

  /** stem + "." + e has no '/' when neither part has one. */
  lemma NameWithoutSlash(stem: string, e: string)
    requires '/' !in stem && '/' !in e
    ensures '/' !in stem + "." + e
  {
    var p := stem + "." + e;
    forall k | 0 <= k < |p| ensures p[k] != '/' {
      if k < |stem| {
        assert p[k] == stem[k];
      } else if k > |stem| {
        assert p[k] == e[k - |stem| - 1];
      }
    }
  }

  /** A name without '/', other than "..", whose last '.' is at d > 0 has
      the extension that starts there. */
  lemma ExtNameAtDot(p: string, d: nat)
    requires '/' !in p && p != [] && p != ".." && 0 < d < |p| && LastIndexOf(p, '.') == Some(d)
    ensures ExtName(p) == p[d..]
  {
    assert TrimSlashes(p) == p;
    assert BaseName(p) == p;
  }

  /** Without a '.' anywhere, a name has no extension. */
  lemma NoDotNoExtension(path: string)
    requires '.' !in path
    ensures ExtName(path) == ""
  {
    var t := TrimSlashes(path);
    var base := BaseName(t);
    assert '.' !in base by {
      forall k | 0 <= k < |base| ensures base[k] != '.' {
        assert base[k] == t[|t| - |base| + k] == path[|t| - |base| + k];
      }
    }
  }

  // ---------------------------------------------------------------------
  // The accept test

  /** allowedTypes.test(path.extname(originalname).toLowerCase()). */
  predicate ExtensionAllowed(originalname: string) {
    ContainsAny(Lower(ExtName(originalname)), AllowedTypes)
  }

  /** allowedTypes.test(mimetype): the MIME type is not lower-cased. */
  predicate MimeAllowed(mimetype: string) {
    ContainsAny(mimetype, AllowedTypes)
  }

  /** The multer file filter: accept when both tests pass, otherwise reject
      with the fixed message. A name without an extension never passes. */
  function FileFilter(originalname: string, mimetype: string): (v: Verdict)
    ensures v.Accept? <==>
      (exists k {:trigger Contains(Lower(ExtName(originalname)), AllowedTypes[k])} ::
        0 <= k < |AllowedTypes| && Contains(Lower(ExtName(originalname)), AllowedTypes[k]))
      && (exists j {:trigger Contains(mimetype, AllowedTypes[j])} :: 0 <= j < |AllowedTypes| && Contains(mimetype, AllowedTypes[j]))
    ensures v.Reject? ==> v.message == RejectMessage
    ensures v.Accept? ==> ExtName(originalname) != []
  {
    if MimeAllowed(mimetype) && ExtensionAllowed(originalname) then Accept else Reject(RejectMessage)
  }

  /** Whether the size is within multer's fileSize limit. */
  predicate WithinSizeLimit(size: nat) {
    size <= MaxFileSize
  }

  lemma SizeLimitIsFiveMebibytes(size: nat)
    ensures WithinSizeLimit(size) <==> size <= 5242880
  {
  }

  // ---------------------------------------------------------------------
  // The stored name

  /** 'image-' + uniqueSuffix + path.extname(originalname); the suffix
      comes from the clock and a random number, and is a parameter here. */
  function StoredFilename(suffix: string, originalname: string): string {
    StoredPrefix + suffix + ExtName(originalname)
  }

  /** The stored name before its extension has no '.' and no '/'. */
  lemma StemIsPlain(suffix: string)
    requires '.' !in suffix && '/' !in suffix
    ensures var stem := StoredPrefix + suffix;
      stem != [] && stem != "." && '/' !in stem && '.' !in stem
  {
    var stem := StoredPrefix + suffix;
    assert stem[0] == 'i';
    forall k | 0 <= k < |stem| ensures stem[k] != '/' && stem[k] != '.' {
      if k >= |StoredPrefix| {
        assert stem[k] == suffix[k - |StoredPrefix|];
      }
    }
  }

  /** The stored name of an upload with an extension has that extension. */
  lemma StemThenExtension(stem: string, ext: string)
    requires stem != [] && stem != "." && '/' !in stem
    requires ext != [] && ext[0] == '.' && '.' !in ext[1..] && '/' !in ext
    ensures ExtName(stem + ext) == ext
  {
    assert ext == "." + ext[1..];
    assert stem + ext == stem + "." + ext[1..];
    ExtNameOf(stem, ext[1..]);
  }

  /** A suffix without '.' or '/' (the route's is digits and a dash): the
      stored file has the same extension as the uploaded one, so it passes
      the extension test exactly when the upload did. */
  lemma StoredNameKeepsExtension(suffix: string, originalname: string)
    requires '.' !in suffix && '/' !in suffix
    ensures ExtName(StoredFilename(suffix, originalname)) == ExtName(originalname)
    ensures ExtensionAllowed(StoredFilename(suffix, originalname)) == ExtensionAllowed(originalname)
  {
    var stem := StoredPrefix + suffix;
    StemIsPlain(suffix);
    var ext := ExtName(originalname);
    assert StoredFilename(suffix, originalname) == stem + ext;
    if ext == [] {
      assert stem + ext == stem;
      NoDotNoExtension(stem);
    } else {
      StemThenExtension(stem, ext);
    }
  }

  // ---------------------------------------------------------------------
  // How the accept test treats case, substrings and missing extensions

  /** A name without a '.' is rejected whatever its MIME type. */
  lemma NoExtensionRejected(originalname: string, mimetype: string)
    requires '.' !in originalname
    ensures FileFilter(originalname, mimetype) == Reject(RejectMessage)
  {
    NoDotNoExtension(originalname);
  }

  /** A dot file such as ".png" (one leading '.', nothing after it but
      other characters than '.' and '/') has no extension, and neither has
      "..": both are rejected whatever their MIME type. */
  lemma DotFileRejected(e: string, mimetype: string)
    requires '.' !in e && '/' !in e
    ensures ExtName("." + e) == "" && ExtName("..") == ""
    ensures FileFilter("." + e, mimetype) == Reject(RejectMessage)
    ensures FileFilter("..", mimetype) == Reject(RejectMessage)
  {
    var p := "." + e;
    assert p[1..] == e;
    assert '/' !in p;
    assert TrimSlashes(p) == p;
    assert BaseName(p) == p;
    LastIndexOfIs(p, '.', 0);
    assert TrimSlashes("..") == "..";
    assert BaseName("..") == "..";
  }

  /** "." + e lower-cased holds a word of ps when the lower-cased e holds
      ps[k] from position i. */
  lemma LoweredDotHolds(e: string, ps: seq<string>, k: nat, i: nat)
    requires k < |ps| && StartsAt(Lower(e), i, ps[k])
    ensures ContainsAny(Lower("." + e), ps)
  {
    LowerConcat(".", e);
    assert Lower(".") == ".";
    StartsAtAfter(".", Lower(e), i, ps[k]);
    ContainsAnyAt("." + Lower(e), ps, k, i + 1);
  }

  /** The lower-cased extension of stem + "." + e holds a word of ps when
      the lower-cased e holds ps[k] from position i. */
  lemma LoweredExtensionHolds(stem: string, e: string, ps: seq<string>, k: nat, i: nat)
    requires stem != [] && stem != "." && '/' !in stem
    requires '.' !in e && '/' !in e
    requires k < |ps| && StartsAt(Lower(e), i, ps[k])
    ensures ContainsAny(Lower(ExtName(stem + "." + e)), ps)
  {
    ExtNameOf(stem, e);
    LoweredDotHolds(e, ps, k, i);
  }

  /** The extension is lower-cased before the test, so an extension "PNG"
      passes it. */
  lemma UpperCaseExtensionPasses(stem: string, e: string)
    requires stem != [] && stem != "." && '/' !in stem && e == "PNG"
    ensures ExtensionAllowed(stem + "." + e)
  {
    assert Lower(e) == "png" && Lower(e)[0..3] == AllowedTypes[2];
    LoweredExtensionHolds(stem, e, AllowedTypes, 2, 0);
  }

  lemma ImagePngAllowed(mimetype: string)
    requires mimetype == "image/png"
    ensures MimeAllowed(mimetype)
  {
    assert mimetype[6..9] == AllowedTypes[2];
    ContainsAnyAt(mimetype, AllowedTypes, 2, 6);
  }

  /** "photo.PNG" sent as "image/png" is accepted. */
  lemma UpperCaseExtensionAccepted(stem: string, e: string, mimetype: string)
    requires stem == "photo" && e == "PNG" && mimetype == "image/png"
    ensures FileFilter(stem + "." + e, mimetype) == Accept
  {
    UpperCaseExtensionPasses(stem, e);
    ImagePngAllowed(mimetype);
  }

  /** The MIME type is tested as it is: "IMAGE/PNG" is rejected. */
  lemma UpperCaseMimeRejected(originalname: string, mimetype: string)
    requires mimetype == "IMAGE/PNG"
    ensures FileFilter(originalname, mimetype) == Reject(RejectMessage)
  {
    NoneContained(mimetype, AllowedTypes, "jjpgw");
  }

  /** The test is not anchored: the extension ".jpgx" passes, as "jpg" is a
      substring of it. */
  lemma LongerExtensionAccepted(originalname: string)
    requires originalname == "a.jpgx"
    ensures ExtensionAllowed(originalname)
  {
    var stem, e := originalname[..1], originalname[2..];
    assert stem == "a" && e == "jpgx" && originalname == stem + "." + e;
    assert Lower(e) == "jpgx" && Lower(e)[0..3] == AllowedTypes[1];
    LoweredExtensionHolds(stem, e, AllowedTypes, 1, 0);
  }

  /** Likewise the MIME type "application/x-png" passes. */
  lemma NonImageMimeAccepted(mimetype: string)
    requires mimetype == "application/x-png"
    ensures MimeAllowed(mimetype)
  {
    assert mimetype[14..17] == AllowedTypes[2];
    ContainsAnyAt(mimetype, AllowedTypes, 2, 14);
  }

  lemma UnanchoredTestAccepts(originalname: string, mimetype: string)
    requires originalname == "a.jpgx" && mimetype == "application/x-png"
    ensures FileFilter(originalname, mimetype) == Accept
  {
    LongerExtensionAccepted(originalname);
    NonImageMimeAccepted(mimetype);
  }
}
