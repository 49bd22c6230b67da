/** Where an uploaded file is stored: multer's `destination` picks a folder
    from the MIME type, `filename` builds `<prefix>_<timestamp><extension>`,
    the extension being Node's POSIX `path.extname` of the original name. */
module Upload {
  import opened Wrappers
  import Text

  /** The four places an upload can go, chosen by MIME prefix. */
  datatype Placement = AudioFile | ImageFile | VideoFile | OtherFile

  /** `audio/` is tested first, then `image/`, then `video/`; anything
      else is a generic file. */
  function PlacementOf(mimetype: string): (p: Placement)
    ensures p == AudioFile <==> Text.StartsWith(mimetype, "audio/")
    ensures p == ImageFile <==> Text.StartsWith(mimetype, "image/") && !Text.StartsWith(mimetype, "audio/")
    ensures p == VideoFile <==>
              Text.StartsWith(mimetype, "video/")
              && !Text.StartsWith(mimetype, "audio/") && !Text.StartsWith(mimetype, "image/")
  {
    if Text.StartsWith(mimetype, "audio/") then AudioFile
    else if Text.StartsWith(mimetype, "image/") then ImageFile
    else if Text.StartsWith(mimetype, "video/") then VideoFile
    else OtherFile
  }

  /** Each placement's folder lies under `public/` and ends in a slash. */
  function Folder(p: Placement): (f: string)
    ensures |f| > 7 && f[..7] == "public/" && f[|f| - 1] == '/'
  {
    match p
    case AudioFile => "public/audios/"
    case ImageFile => "public/imagenes/"
    case VideoFile => "public/videos/"
    case OtherFile => "public/archivos/"
  }

  /** The file-name prefix of a placement: at least five characters, with
      no dot, no slash and no underscore. */
  function Prefix(p: Placement): (r: string)
    ensures |r| >= 5 && '.' !in r && '/' !in r && '_' !in r
  {
    match p
    case AudioFile => "audio"
    case ImageFile => "imagen"
    case VideoFile => "video"
    case OtherFile => "archivo"
  }

  // -----------------------------------------------------------------------
  // `path.extname` (POSIX)
  // -----------------------------------------------------------------------

  /** The path without its trailing slashes. */
  function StripTrailingSlashes(path: string): (r: string)
    ensures |r| <= |path| && r == path[..|r|]
    ensures r == [] || r[|r| - 1] != '/'
  {
    if path != [] && path[|path| - 1] == '/' then StripTrailingSlashes(path[..|path| - 1])
    else path
  }

  /** What follows the last slash. */
  function LastComponent(s: string): (r: string)
    ensures '/' !in r
    ensures |r| <= |s| && r == s[|s| - |r|..]
  {
    if s == [] || s[|s| - 1] == '/' then []
    else LastComponent(s[..|s| - 1]) + [s[|s| - 1]]
  }

  function Basename(path: string): string {
    LastComponent(StripTrailingSlashes(path))
  }

  /** Index of the last `.` of `s`, if any. */
  function LastDot(s: string): (r: Option<nat>)
    ensures r.None? <==> '.' !in s
    ensures r.Some? ==> r.value < |s| && s[r.value] == '.' && '.' !in s[r.value + 1..]
  {
    if s == [] then None
    else if s[|s| - 1] == '.' then Some(|s| - 1)
    else
      var r := LastDot(s[..|s| - 1]);
      assert forall c :: c in s ==> c in s[..|s| - 1] || c == s[|s| - 1] by {
        assert s == s[..|s| - 1] + [s[|s| - 1]];
      }
      if r.Some? then
        assert s[r.value + 1..] == s[..|s| - 1][r.value + 1..] + [s[|s| - 1]];
        r
      else r
  }

  /** The extension of a base name: from its last dot, unless there is no
      dot, the dot opens the name (`.bashrc`), or the name is `..`. */
  function ExtOfBase(base: string): string {
    match LastDot(base)
    case None => ""
    case Some(d) => if d == 0 || base == ".." then "" else base[d..]
  }

  /** `path.extname(path)`: the extension of the last path component,
      trailing slashes ignored; it is empty or one dot followed by
      neither dots nor slashes. */
  function ExtName(path: string): (ext: string)
    ensures ext == [] || (ext[0] == '.' && '.' !in ext[1..] && '/' !in ext)
  {
    var b := Basename(path);
    ExtShape(b);
    ExtOfBase(b)
  }

  lemma ExtShape(b: string)
    requires '/' !in b
    ensures var ext := ExtOfBase(b);
      ext == [] || (ext[0] == '.' && '.' !in ext[1..] && '/' !in ext)
  {
    match LastDot(b)
    case None =>
    case Some(d) =>
      if d != 0 && b != ".." {
        assert b[d..][1..] == b[d + 1..];
        assert forall c | c in b[d..] :: c in b;
      }
  }

  /** `${prefix}_${timestamp}${extension}`: a name without slashes that
      opens with the placement's prefix and an underscore, ends with the
      uploaded name's extension, and holds the timestamp's decimal digits
      in between. */
  function StoredName(mimetype: string, originalname: string, timestamp: nat): (name: string)
    ensures name != [] && '/' !in name
    ensures ExtOfBase(name) == ExtName(originalname)
    ensures Text.StartsWith(name, Prefix(PlacementOf(mimetype)) + "_")
    ensures var i, j := |Prefix(PlacementOf(mimetype))| + 1, |name| - |ExtName(originalname)|;
      i <= j && Text.AllDigits(name[i..j]) && Text.ParseNat(name[i..j]) == timestamp
  {
    var prefix := Prefix(PlacementOf(mimetype));
    var digits := Text.NatToString(timestamp);
    var stem := prefix + "_" + digits;
    var e := ExtName(originalname);
    StemHasNoDotOrSlash(mimetype, timestamp);
    ExtOfStem(stem, e);
    assert forall c | c in stem + e :: c in stem || c in e;
    NameParts(prefix, digits, e);
    Text.ParseNatToString(timestamp);
    stem + e
  }

  /** The parts of `<prefix>_<digits><extension>` can be cut back out. */
  lemma NameParts(prefix: string, digits: string, e: string)
    ensures var name := prefix + "_" + digits + e;
      Text.StartsWith(name, prefix + "_") && name[|prefix| + 1..|name| - |e|] == digits
  {
    var name := prefix + "_" + digits + e;
    assert name[..|prefix| + 1] == prefix + "_";
  }

  /** Uploads stored at different timestamps get different names, whatever
      their MIME types and original names. */
  lemma DistinctTimestampsDistinctNames(m1: string, o1: string, t1: nat, m2: string, o2: string, t2: nat)
    ensures t1 != t2 ==> StoredName(m1, o1, t1) != StoredName(m2, o2, t2)
  {
    var n1, n2 := StoredName(m1, o1, t1), StoredName(m2, o2, t2);
    if n1 == n2 {
      var p1, p2 := Prefix(PlacementOf(m1)), Prefix(PlacementOf(m2));
      SamePrefixLength(n1, p1, p2);
      assert ExtName(o1) == ExtOfBase(n1) == ExtName(o2);
    }
  }

  /** Two underscore-free prefixes that both open `name` followed by an
      underscore have the same length. */
  lemma SamePrefixLength(name: string, p1: string, p2: string)
    requires Text.StartsWith(name, p1 + "_") && Text.StartsWith(name, p2 + "_")
    requires '_' !in p1 && '_' !in p2
    ensures |p1| == |p2|
  {
    if |p1| < |p2| {
      UnderscoreInLonger(name, p1, p2);
      assert false;
    } else if |p2| < |p1| {
      UnderscoreInLonger(name, p2, p1);
      assert false;
    }
  }

  /** If `name` opens with both `p1 + "_"` and a longer `p2`, then `p2`
      holds that underscore. */
  lemma UnderscoreInLonger(name: string, p1: string, p2: string)
    requires Text.StartsWith(name, p1 + "_") && Text.StartsWith(name, p2)
    requires |p1| < |p2|
    ensures '_' in p2
  {
    assert name[..|p1| + 1][|p1|] == '_';
    assert name[..|p2|][|p1|] == p2[|p1|];
  }

  /** The relative path multer writes the upload to: the stored name
      directly inside the placement's folder. */
  function StoredPath(mimetype: string, originalname: string, timestamp: nat): (path: string)
    ensures Text.StartsWith(path, Folder(PlacementOf(mimetype)))
    ensures Basename(path) == StoredName(mimetype, originalname, timestamp)
  {
    var folder := Folder(PlacementOf(mimetype));
    var name := StoredName(mimetype, originalname, timestamp);
    BasenameUnderFolder(folder, name);
    folder + name
  }

  /** Dots and slashes appear nowhere in a stored name before its
      extension. */
  lemma StemHasNoDotOrSlash(mimetype: string, timestamp: nat)
    ensures var stem := Prefix(PlacementOf(mimetype)) + "_" + Text.NatToString(timestamp);
      '.' !in stem && '/' !in stem && |stem| >= 7
  {
    var digits := Text.NatToString(timestamp);
    assert forall c | c in digits :: Text.IsDigit(c);
  }

  /** The last component of `a + n` is that of `a` extended by `n` when
      `n` has no slash. */
  lemma {:induction false} LastComponentAppend(a: string, n: string)
    requires '/' !in n
    ensures LastComponent(a + n) == LastComponent(a) + n
  {
    if n != [] {
      var init := n[..|n| - 1];
      assert a + n == (a + init) + [n[|n| - 1]];
      assert (a + n)[..|a + n| - 1] == a + init;
      assert n[|n| - 1] in n;
      LastComponentAppend(a, init);
      assert n == init + [n[|n| - 1]];
    } else {
      assert a + n == a;
    }
  }

  /** The dot that opens a one-dot suffix is the last dot of the whole. */
  lemma LastDotBeforeSuffix(x: string, e: string)
    requires '.' !in x && e != [] && e[0] == '.' && '.' !in e[1..]
    ensures LastDot(x + e) == Some(|x|)
  {
    var s := x + e;
    assert s[|x|] == '.';
    var r := LastDot(s);
    assert r.Some?;
  }

  /** Under a folder path ending in a slash, a name without slashes is
      its own base name. */
  lemma BasenameUnderFolder(folder: string, name: string)
    requires folder != [] && folder[|folder| - 1] == '/'
    requires name != [] && '/' !in name
    ensures Basename(folder + name) == name
  {
    var path := folder + name;
    assert path[|path| - 1] == name[|name| - 1];
    assert name[|name| - 1] in name;
    assert StripTrailingSlashes(path) == path;
    LastComponentAppend(folder, name);
  }

  /** A dotless stem followed by an extension has that extension. */
  lemma ExtOfStem(stem: string, e: string)
    requires '.' !in stem && |stem| >= 3
    requires e == [] || (e[0] == '.' && '.' !in e[1..])
    ensures ExtOfBase(stem + e) == e
  {
    if e == [] {
      assert stem + e == stem;
    } else {
      LastDotBeforeSuffix(stem, e);
      assert (stem + e)[|stem|..] == e;
    }
  }

  /** The stored file keeps the extension of the uploaded file's name:
      this is what the contact import later reads back with
      `path.extname(req.file.path)`. */
  lemma StoredPathKeepsExtension(mimetype: string, originalname: string, timestamp: nat)
    ensures ExtName(StoredPath(mimetype, originalname, timestamp)) == ExtName(originalname)
  {
    var path := StoredPath(mimetype, originalname, timestamp);
    assert Basename(path) == StoredName(mimetype, originalname, timestamp);
  }
}
