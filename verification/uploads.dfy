/**
 * The upload helpers: the image-type filter, the size check, the stored
 * file's name, its public URL and the summary returned to the client. The
 * clock and the random source that make a name unique are parameters.
 */
module Uploads {
  import opened Wrappers
  import opened Text

  /** A file as the multipart parser describes it. */
  datatype UploadedFile = UploadedFile(
    fieldname: string, originalname: string, filename: string, size: int, mimetype: string, path: string)

  // ---------------------------------------------------------------------
  // Type filter

  const AllowedTypes: seq<string> := ["image/jpeg", "image/jpg", "image/png", "image/gif", "image/webp"]

  const TypeError := "Only image files are allowed (JPEG, PNG, GIF, WebP)"

  datatype FilterVerdict = Accept | Reject(message: string)

  /** `fileFilter`: the five image types pass; anything else is refused with the one message. */
  function FileFilter(file: UploadedFile): (v: FilterVerdict)
    ensures v == Accept <==> file.mimetype in AllowedTypes
    ensures v.Reject? ==> v.message == TypeError
  {
    if file.mimetype in AllowedTypes then Accept else Reject(TypeError)
  }

  /** Only `image/` types pass the filter; `image/svg+xml` does not. */
  lemma FilterAcceptsOnlyImages(file: UploadedFile)
    ensures FileFilter(file) == Accept ==> |file.mimetype| > 6 && file.mimetype[..6] == "image/"
    ensures file.mimetype == "image/svg+xml" ==> FileFilter(file).Reject?
  {
    if FileFilter(file) == Accept {
      var i :| 0 <= i < |AllowedTypes| && AllowedTypes[i] == file.mimetype;
      assert AllowedTypes[i][..6] == "image/";
    }
  }

  // ---------------------------------------------------------------------
  // Size check

  /** The upload limit given to the multipart parser, in bytes. */
  const ParserLimitBytes := 5 * 1024 * 1024

  /** `validateFileSize(file, maxSizeMB)`, the limit defaulting to 5 MB. */
  function ValidateFileSize(file: UploadedFile, maxSizeMB: Option<int>): (ok: bool)
    ensures ok <==> file.size <= maxSizeMB.GetOr(5) * 1048576
  {
    file.size <= maxSizeMB.GetOr(5) * 1024 * 1024
  }

  /**
   * With the default the check admits exactly what the parser's limit
   * admits: a file of exactly 5 MB passes, one byte more does not, and a
   * file that passes makes every smaller file pass.
   */
  lemma DefaultSizeMatchesParserLimit(file: UploadedFile, smaller: UploadedFile)
    ensures ValidateFileSize(file, None) <==> file.size <= ParserLimitBytes
    ensures file.size == 5242880 ==> ValidateFileSize(file, None)
    ensures file.size == 5242881 ==> !ValidateFileSize(file, None)
    ensures ValidateFileSize(file, None) && smaller.size <= file.size ==> ValidateFileSize(smaller, None)
  {
  }

  // ---------------------------------------------------------------------
  // Stored name

  /** The index of the last `c` in `s`, if any. */
  function LastIndex(s: string, c: char): (r: Option<nat>)
    ensures r.Some? ==> r.value < |s| && s[r.value] == c && forall j :: r.value < j < |s| ==> s[j] != c
    ensures r.None? ==> forall j :: 0 <= j < |s| ==> s[j] != c
  {
    if s == [] then None
    else if s[|s| - 1] == c then Some(|s| - 1)
    else LastIndex(s[..|s| - 1], c)
  }

  /** The last path segment: what follows the last `/`. */
  function BaseName(s: string): (b: string)
    ensures |b| <= |s| && b == s[|s| - |b|..]
    ensures forall j :: 0 <= j < |b| ==> b[j] != '/'
  {
    match LastIndex(s, '/')
    case None => s
    case Some(i) => s[i + 1..]
  }

  /**
   * `path.extname(name)`: from the last `.` of the last segment to its end;
   * empty when that segment has no `.`, starts with its only `.`, or is `..`.
   */
  function ExtName(name: string): (e: string)
    ensures e == [] || (e[0] == '.' && forall j :: 1 <= j < |e| ==> e[j] != '.')
    ensures |e| <= |name| && e == name[|name| - |e|..]
    ensures forall j :: 0 <= j < |e| ==> e[j] != '/'
  {
    var b := BaseName(name);
    if b == ".." then []
    else match LastIndex(b, '.')
      case None => []
      case Some(i) => if i == 0 then [] else b[i..]
  }

  /**
   * The stored name: the form field, the clock reading and a random number
   * from 0 to 10^9 inclusive, joined by `-`, then the original extension.
   */
  function StoredName(fieldname: string, now: nat, random: nat, originalname: string): (n: string)
    ensures |n| >= |fieldname| + 1 && n[..|fieldname| + 1] == fieldname + "-"
    ensures |n| >= |ExtName(originalname)| && n[|n| - |ExtName(originalname)|..] == ExtName(originalname)
    ensures |n| >= |fieldname| + 1 + |ExtName(originalname)|
    ensures n[|fieldname| + 1..|n| - |ExtName(originalname)|] == NatToString(now) + "-" + NatToString(random)
  {
    var stamp := NatToString(now) + "-" + NatToString(random);
    assert fieldname + "-" + NatToString(now) + "-" + NatToString(random) + ExtName(originalname)
      == (fieldname + "-") + stamp + ExtName(originalname);
    fieldname + "-" + NatToString(now) + "-" + NatToString(random) + ExtName(originalname)
  }

  /**
   * Two uploads through the same field of files with the same extension get
   * distinct names unless both the timestamp and the random number agree.
   */
  lemma StoredNameDistinct(fieldname: string, originalname: string, now: nat, random: nat, now': nat, random': nat)
    requires StoredName(fieldname, now, random, originalname) == StoredName(fieldname, now', random', originalname)
    ensures now == now' && random == random'
  {
    var a, b := NatToString(now), NatToString(random);
    var c, d := NatToString(now'), NatToString(random');
    assert a + "-" + b == c + "-" + d;
    SplitAtDash(a, b, c, d);
    NatToStringInjective(now, now');
    NatToStringInjective(random, random');
  }

  /** In a run of digits, `-` and a rest, the first `-` stands right after the digits. */
  lemma FirstDashAfterDigits(a: string, b: string)
    requires AllDigits(a)
    ensures (a + "-" + b)[|a|] == '-'
    ensures forall i :: 0 <= i < |a| ==> (a + "-" + b)[i] != '-'
  {
  }

  /** A run of digits followed by `-` ends where the first `-` stands. */
  lemma SplitAtDash(a: string, b: string, c: string, d: string)
    requires AllDigits(a) && AllDigits(c) && a + "-" + b == c + "-" + d
    ensures a == c && b == d
  {
    var s := a + "-" + b;
    FirstDashAfterDigits(a, b);
    FirstDashAfterDigits(c, d);
    assert |a| == |c|;
    assert a == s[..|a|] && c == (c + "-" + d)[..|c|];
    assert b == s[|a| + 1..] && d == (c + "-" + d)[|c| + 1..];
  }

  /**
   * A stored file keeps the original's extension, so its type can still be
   * read from its name, as long as the form field holds no `.` or `/`.
   */
  lemma StoredNameKeepsExtension(fieldname: string, now: nat, random: nat, originalname: string)
    requires Free(fieldname, '.') && Free(fieldname, '/')
    ensures ExtName(StoredName(fieldname, now, random, originalname)) == ExtName(originalname)
  {
    var stem := fieldname + "-" + NatToString(now) + "-" + NatToString(random);
    StemFree(fieldname, NatToString(now), NatToString(random), '.');
    StemFree(fieldname, NatToString(now), NatToString(random), '/');
    ExtensionAfterStem(stem, ExtName(originalname));
    assert StoredName(fieldname, now, random, originalname) == stem + ExtName(originalname);
  }

  /** The stem of a stored name holds no character that the form field and the digits lack. */
  lemma StemFree(fieldname: string, a: string, b: string, c: char)
    requires Free(fieldname, c) && AllDigits(a) && AllDigits(b) && !IsDigit(c) && c != '-'
    ensures Free(fieldname + "-" + a + "-" + b, c)
  {
    var p := fieldname + "-" + a + "-" + b;
    forall j | 0 <= j < |p|
      ensures p[j] != c
    {
      var k := |fieldname| + 1 + |a| + 1;
      if j < |fieldname| {
        assert p[j] == fieldname[j];
      } else if |fieldname| < j < k - 1 {
        assert p[j] == a[j - |fieldname| - 1];
      } else if j >= k {
        assert p[j] == b[j - k];
      }
    }
  }

  /** A non-empty stem free of `.` and `/` leaves the extension that follows it as the name's extension. */
  lemma ExtensionAfterStem(stem: string, e: string)
    requires |stem| > 0 && Free(stem, '.') && Free(stem, '/') && Free(e, '/')
    requires e == [] || (e[0] == '.' && forall j :: 1 <= j < |e| ==> e[j] != '.')
    ensures ExtName(stem + e) == e
  {
    var n := stem + e;
    assert forall j :: 0 <= j < |n| ==> n[j] != '/' by {
      forall j | 0 <= j < |n|
        ensures n[j] != '/'
      {
        if j >= |stem| {
          assert n[j] == e[j - |stem|];
        }
      }
    }
    assert BaseName(n) == n;
    if e == [] {
      assert n == stem;
    } else {
      LastIndexIs(n, '.', |stem|);
      assert n[0] == stem[0];
      assert n[|stem|..] == e;
    }
  }

  lemma LastIndexIs(s: string, c: char, i: nat)
    requires i < |s| && s[i] == c && forall j :: i < j < |s| ==> s[j] != c
    ensures LastIndex(s, c) == Some(i)
  {
  }

  // ---------------------------------------------------------------------
  // Public URL and summary

  /**
   * `getFileUrl`: the forwarded protocol header when it is set and not
   * empty, else the connection's protocol; then the host and the file under
   * `/uploads/`.
   */
  function FileUrl(forwardedProto: Option<string>, protocol: string, host: string, filename: string): (url: string)
    ensures var proto := if forwardedProto.Some? && forwardedProto.value != "" then forwardedProto.value else protocol;
      |url| >= |proto| + 3 && url[..|proto| + 3] == proto + "://"
    ensures |url| >= |filename| + 9 && url[|url| - |filename| - 9..] == "/uploads/" + filename
    ensures var proto := if forwardedProto.Some? && forwardedProto.value != "" then forwardedProto.value else protocol;
      |url| == |proto| + |host| + |filename| + 12 && url[|proto| + 3..|proto| + 3 + |host|] == host
  {
    var proto := if forwardedProto.Some? && forwardedProto.value != "" then forwardedProto.value else protocol;
    proto + "://" + host + "/uploads/" + filename
  }

  /** A file name without `/` is the URL's last segment, so the URL leads back to the file. */
  lemma FileUrlEndsInName(forwardedProto: Option<string>, protocol: string, host: string, filename: string)
    requires Free(filename, '/')
    ensures BaseName(FileUrl(forwardedProto, protocol, host, filename)) == filename
  {
    var url := FileUrl(forwardedProto, protocol, host, filename);
    var k := |url| - |filename| - 1;
    assert url[k] == '/';
    assert url[k + 1..] == filename;
    LastIndexIs(url, '/', k);
  }

  /** The summary `getFileInfo` returns. */
  datatype FileInfo = FileInfo(originalName: string, filename: string, size: int, mimetype: string, path: string)

  /** `getFileInfo`: five of the parser's fields, copied unchanged (the form field is dropped). */
  function GetFileInfo(file: UploadedFile): (info: FileInfo)
    ensures info.originalName == file.originalname && info.filename == file.filename
    ensures info.size == file.size && info.mimetype == file.mimetype && info.path == file.path
  {
    FileInfo(file.originalname, file.filename, file.size, file.mimetype, file.path)
  }

  /** Two files with the same summary differ at most in their form field. */
  lemma FileInfoDeterminesFile(a: UploadedFile, b: UploadedFile)
    requires GetFileInfo(a) == GetFileInfo(b) && a.fieldname == b.fieldname
    ensures a == b
  {
  }
}
