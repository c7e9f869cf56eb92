/**
 * How a remote URL becomes a local disk name and a persistence key.
 *
 * Three derivations coexist in the library:
 *  - SADownloadItem: a random token plus the text after the last '.' of the whole URL;
 *  - SAFileItem: the last '/'-segment of the URI path, used verbatim;
 *  - SASequentialFileDownloader: a random token plus a caller-supplied extension,
 *    with the token itself later recovered as the key.
 * The random number `new Random().nextInt(DiskNameBound)` is a parameter here.
 */
module Naming {
  import opened JavaLang

  /** Exclusive bound of the random token in disk names. */
  const DiskNameBound: nat := 65548

  /** Every generated disk name starts with this. */
  const DiskNamePrefix: string := "samov_"

  /** `SA_KEY_PREFIX + "_"`: every persistence key starts with this. */
  const KeyPrefix: string := "sasdkkey_" + "_"

  // ---------------------------------------------------------------------------
  // SADownloadItem

  /**
   * `getFileExt`: the text after the last '.' of the whole name (all of it when
   * there is no '.'), or null for a null or empty name.
   */
  function FileExt(fileName: Option<string>): (r: Option<string>)
    ensures r == None <==> fileName == None || fileName == Some("")
    ensures r.Some? ==> '.' !in r.value
    ensures r.Some? ==> |r.value| <= |fileName.value| &&
                        r.value == fileName.value[|fileName.value| - |r.value|..]
    ensures r.Some? && '.' !in fileName.value ==> r.value == fileName.value
  {
    match fileName
    case None => None
    case Some(s) =>
      if s == "" then None
      else
        var cut := LastIndexOf(s, '.');
        Some(s[cut + 1..])
  }

  /** The extension is empty exactly when the name ends with '.'. */
  lemma FileExtEmptyIffTrailingDot(s: string)
    requires s != ""
    ensures FileExt(Some(s)) == Some("") <==> s[|s| - 1] == '.'
  {
  }

  /**
   * `getNewDiskName`: "samov_" + n + "." + extension, or null when the URL is
   * null or empty or its extension is empty.
   */
  function NewDiskName(url: Option<string>, n: nat): (r: Option<string>)
    requires n < DiskNameBound
  {
    if url == None || url == Some("") then None
    else
      var ext := FileExt(url);
      if ext == None || ext == Some("") then None
      else Some(DiskNamePrefix + Decimal(n) + "." + ext.value)
  }

  /**
   * A URL gets a disk name exactly when it is non-empty and does not end with
   * '.', and the name is the random token followed by the URL's extension.
   */
  lemma NewDiskNameShape(url: Option<string>, n: nat)
    requires n < DiskNameBound
    ensures NewDiskName(url, n).Some? <==> url.Some? && url.value != "" && url.value[|url.value| - 1] != '.'
    ensures NewDiskName(url, n).Some? ==>
      NewDiskName(url, n).value == DiskNamePrefix + Decimal(n) + "." + FileExt(url).value
  {
    if url.Some? && url.value != "" {
      FileExtEmptyIffTrailingDot(url.value);
    }
  }

  /** `getKeyForDiskName`: the key prefix plus the disk name, or null for a null or empty name. */
  function KeyForDiskName(diskName: Option<string>): (r: Option<string>)
    ensures r.Some? <==> diskName.Some? && diskName.value != ""
  {
    if diskName == None || diskName == Some("") then None
    else Some(KeyPrefix + diskName.value)
  }

  /** The disk name a persistence key was made from. */
  function DiskNameOfKey(key: string): string {
    if |key| < |KeyPrefix| then "" else key[|KeyPrefix|..]
  }

  /** A key gives back its disk name, so two distinct disk names never share a key. */
  lemma KeyForDiskNameRoundTrip(diskName: string)
    requires diskName != ""
    ensures KeyForDiskName(Some(diskName)).Some?
    ensures KeyForDiskName(Some(diskName)).value[..|KeyPrefix|] == KeyPrefix
    ensures DiskNameOfKey(KeyForDiskName(Some(diskName)).value) == diskName
  {
    var k := KeyPrefix + diskName;
    assert k[|KeyPrefix|..] == diskName;
    assert k[..|KeyPrefix|] == KeyPrefix;
  }

  // ---------------------------------------------------------------------------
  // SAFileItem

  /**
   * `fileNameOf`: the last element of the URI path split on '/', or null when
   * the URI could not be parsed, has no path, or the split is empty (a path
   * made only of '/').
   */
  function FileNameOf(path: Option<string>): (r: Option<string>)
    ensures r.Some? ==> '/' !in r.value
  {
    match path
    case None => None
    case Some(p) =>
      var segments := JavaSplit(p, '/');
      if segments == [] then None else Some(segments[|segments| - 1])
  }

  lemma {:induction false} TokensAllEmptyIffAllSeparators(s: string, sep: char)
    ensures (forall k :: 0 <= k < |Tokens(s, sep)| ==> Tokens(s, sep)[k] == "") <==>
            (forall i :: 0 <= i < |s| ==> s[i] == sep)
  {
    if s != [] {
      TokensAllEmptyIffAllSeparators(s[1..], sep);
      var t := Tokens(s[1..], sep);
      if s[0] == sep {
        assert Tokens(s, sep) == [""] + t;
        assert (forall k :: 0 <= k < |Tokens(s, sep)| ==> Tokens(s, sep)[k] == "") <==>
               (forall k :: 0 <= k < |t| ==> t[k] == "") by {
          if forall k :: 0 <= k < |t| ==> t[k] == "" {
            forall k | 0 <= k < |Tokens(s, sep)| ensures Tokens(s, sep)[k] == "" {
              if k > 0 { assert Tokens(s, sep)[k] == t[k - 1]; }
            }
          }
          if forall k :: 0 <= k < |Tokens(s, sep)| ==> Tokens(s, sep)[k] == "" {
            forall k | 0 <= k < |t| ensures t[k] == "" {
              assert Tokens(s, sep)[k + 1] == t[k];
            }
          }
        }
        assert (forall i :: 0 <= i < |s| ==> s[i] == sep) <==>
               (forall i :: 0 <= i < |s[1..]| ==> s[1..][i] == sep) by {
          if forall i :: 0 <= i < |s[1..]| ==> s[1..][i] == sep {
            forall i | 0 <= i < |s| ensures s[i] == sep {
              if i > 0 { assert s[i] == s[1..][i - 1]; }
            }
          }
        }
      } else {
        assert Tokens(s, sep)[0] != "";
      }
    }
  }

  /** There is no file name exactly when the path is missing or made only of '/'. */
  lemma FileNameMissingIffOnlySlashes(path: Option<string>)
    ensures FileNameOf(path) == None <==>
      path == None || (path.value != "" && forall i :: 0 <= i < |path.value| ==> path.value[i] == '/')
  {
    if path.Some? {
      var p := path.value;
      TokensAllEmptyIffAllSeparators(p, '/');
      var t := Tokens(p, '/');
      if '/' in p {
        var d := DropTrailingEmpty(t);
        assert d == [] <==> forall k :: 0 <= k < |t| ==> t[k] == "";
      } else if p != "" {
        assert p[0] != '/';
      }
    }
  }

  /** The file name of ".../dir/name" is "name". */
  lemma FileNameOfLastSegment(dir: string, name: string)
    requires name != "" && '/' !in name
    ensures FileNameOf(Some(dir + "/" + name)) == Some(name)
  {
    var p := dir + "/" + name;
    assert p == dir + ['/'] + name;
    TokensAround(dir, '/', name);
    TokensOfPlain(name, '/');
    assert p[|dir|] == '/';
  }

  /** A trailing '/' does not change the file name (Java's split drops the empty last piece). */
  lemma FileNameIgnoresTrailingSlash(p: string)
    requires p != ""
    ensures FileNameOf(Some(p + "/")) == FileNameOf(Some(p))
  {
    var q := p + "/";
    assert q == p + ['/'] + "";
    TokensAround(p, '/', "");
    assert q[|p|] == '/';
    var t := Tokens(p, '/');
    assert Tokens(q, '/') == t + [""];
    assert (t + [""])[..|t|] == t;
    if '/' !in p {
      TokensOfPlain(p, '/');
    }
  }

  // ---------------------------------------------------------------------------
  // SASequentialFileDownloader

  /** `getDiskLocation(extension)`: "samov_" + n + "." + extension (a null extension prints as "null"). */
  function DiskLocation(n: nat, ext: Option<string>): (r: string)
    requires n < DiskNameBound
    ensures |r| > |DiskNamePrefix| && r[..|DiskNamePrefix|] == DiskNamePrefix
  {
    DiskNamePrefix + Decimal(n) + "." + Str(ext)
  }

  /**
   * The key the sequential downloader takes from a disk location: the second
   * '_'-piece `key1`, then the first piece of `key1.split("." + ext)`. The
   * separator is a regular expression whose '.' matches any character. `None`
   * is the ArrayIndexOutOfBoundsException of either array access: no second
   * '_'-piece, or a regular-expression split that leaves no piece at all.
   */
  function KeyOfDiskLocation(diskUrl: string, ext: Option<string>): Option<string> {
    var pieces := JavaSplit(diskUrl, '_');
    if |pieces| < 2 then None
    else
      var c2 := DotSplit(pieces[1], Str(ext));
      if c2 == [] then None else Some(c2[0])
  }

  /**
   * An extension the key read-back handles as meant: not empty, without '_',
   * and starting with neither a digit nor '.', so that "." + extension cannot
   * match inside the token.
   */
  predicate PlainExt(ext: Option<string>) {
    var e := Str(ext);
    e != "" && '_' !in e && !IsDigit(e[0]) && e[0] != '.'
  }

  /**
   * For a plain extension, the key recovered from a fresh disk location is
   * the random token, and reading it as a number gives the token back.
   */
  lemma SequentialKeyIsToken(n: nat, ext: Option<string>)
    requires n < DiskNameBound && PlainExt(ext)
    ensures KeyOfDiskLocation(DiskLocation(n, ext), ext) == Some(Decimal(n))
    ensures DecimalValue(KeyOfDiskLocation(DiskLocation(n, ext), ext).value) == n
  {
    DiskLocationPieces(n, ext);
    SplitOfTokenPiece(Decimal(n), Str(ext));
    DecimalRoundTrip(n);
  }

  /** Some digits, '.', then an extension led by neither a digit nor '.': "." + extension first matches at that '.', leaving the digits. */
  lemma SplitOfTokenPiece(d: string, e: string)
    requires d != "" && forall k :: 0 <= k < |d| ==> IsDigit(d[k])
    requires e != "" && !IsDigit(e[0]) && e[0] != '.'
    ensures DotSplit(d + "." + e, e) == [d]
  {
    var key1 := d + "." + e;
    NoEarlyMatch(d, e);
    assert key1[|d|] == '.' && key1[|d| + 1..|d| + 1 + |e|] == e;
    FirstDotMatchAt(key1, e, |d|);
    assert key1[..|d|] == d && key1[|d| + 1 + |e|..] == "";
    assert DotPieces("", e) == [""];
    assert DotPieces(key1, e) == [key1[..|d|]] + DotPieces(key1[|d| + 1 + |e|..], e);
    assert DropTrailingEmpty([d, ""]) == [d] by {
      assert [d, ""][..1] == [d];
    }
  }

  /** Within the digits "." + extension cannot match: the character after each position is a digit or '.'. */
  lemma NoEarlyMatch(d: string, e: string)
    requires forall k :: 0 <= k < |d| ==> IsDigit(d[k])
    requires e != "" && !IsDigit(e[0]) && e[0] != '.'
    ensures forall j :: 0 <= j < |d| ==> !DotMatchAt(d + "." + e, e, j)
  {
    var key1 := d + "." + e;
    forall j | 0 <= j < |d| ensures !DotMatchAt(key1, e, j) {
      assert key1[j + 1] == '.' || IsDigit(key1[j + 1]) by {
        if j + 1 < |d| { assert key1[j + 1] == d[j + 1]; }
      }
      if j + 1 + |e| <= |key1| {
        assert key1[j + 1..j + 1 + |e|][0] == key1[j + 1];
      }
    }
  }

  /** As written, an empty extension makes every character a match: the split leaves no piece, and reading the key throws. */
  lemma EmptyExtensionThrows(n: nat)
    requires n < DiskNameBound
    ensures KeyOfDiskLocation(DiskLocation(n, Some("")), Some("")) == None
  {
    var d := Decimal(n);
    var key1 := d + ".";
    DiskLocationPieces(n, Some(""));
    assert JavaSplit(DiskLocation(n, Some("")), '_')[1] == key1;
    forall k | 0 <= k < |key1| ensures AnyChar(key1[k]) {
      if k < |d| { assert IsDigit(d[k]); }
    }
    assert DotMatchAt(key1, "", 0);
    DotPiecesOfEmptyLiteral(key1);
    DropAllEmpty(DotPieces(key1, ""));
  }

  /** As written, the extension "3" after the token 1234 matches at "23", and the key read back is "1". */
  lemma DigitExtensionMisreadsKey()
    ensures KeyOfDiskLocation(DiskLocation(1234, Some("3")), Some("3")) == Some("1")
  {
    DecimalOf1234();
    DiskLocationPieces(1234, Some("3"));
    var pieces := JavaSplit(DiskLocation(1234, Some("3")), '_');
    assert pieces[1] == "1234.3";
    SplitOfDigitExtension();
  }

  lemma DecimalOf1234()
    ensures Decimal(1234) == "1234"
  {
    assert Decimal(1) == "1";
    assert Decimal(12) == "12";
    assert Decimal(123) == "123";
  }

  /** "1234.3".split(".3") cuts at "23" and at ".3". */
  lemma SplitOfDigitExtension()
    ensures DotSplit("1234.3", "3") == ["1", "4"]
  {
    var key1, rest := "1234.3", "4.3";
    FirstMatchInToken();
    FirstMatchInRest();
    assert key1[..1] == "1" && key1[3..] == rest;
    assert rest[..1] == "4" && rest[3..] == "";
    assert DotPieces("", "3") == [""];
    assert DotPieces(rest, "3") == ["4", ""];
    assert DotPieces(key1, "3") == ["1", "4", ""];
    assert ["1", "4", ""][..2] == ["1", "4"];
  }

  lemma FirstMatchInToken()
    ensures FindDotMatch("1234.3", "3", 0) == Some(1)
  {
    var key1 := "1234.3";
    assert key1[1..2] == "2" && key1[2..3] == "3";
    assert !DotMatchAt(key1, "3", 0) && DotMatchAt(key1, "3", 1);
    FirstDotMatchAt(key1, "3", 1);
  }

  lemma FirstMatchInRest()
    ensures FindDotMatch("4.3", "3", 0) == Some(1)
  {
    var rest := "4.3";
    assert rest[1..2] == "." && rest[2..3] == "3";
    assert !DotMatchAt(rest, "3", 0) && DotMatchAt(rest, "3", 1);
    FirstDotMatchAt(rest, "3", 1);
  }

  /** The evident intent: the text of the second '_'-piece before the literal "." + extension. */
  function LiteralKeyOfDiskLocation(diskUrl: string, ext: Option<string>): Option<string> {
    var pieces := JavaSplit(diskUrl, '_');
    if |pieces| < 2 then None else Some(TakeBefore(pieces[1], "." + Str(ext)))
  }

  /** Cut at the literal "." + extension, the key of a fresh disk location is the token for every extension without '_'. */
  lemma LiteralKeyIsToken(n: nat, ext: Option<string>)
    requires n < DiskNameBound
    requires '_' !in Str(ext)
    ensures LiteralKeyOfDiskLocation(DiskLocation(n, ext), ext) == Some(Decimal(n))
    ensures DecimalValue(LiteralKeyOfDiskLocation(DiskLocation(n, ext), ext).value) == n
  {
    var d, e := Decimal(n), Str(ext);
    DiskLocationPieces(n, ext);
    NoDotInDecimal(n);
    TakeBeforeStopsAtSeparator(d, "." + e, "");
    assert d + ("." + e) + "" == d + "." + e;
    DecimalRoundTrip(n);
  }

  lemma NoDotInDecimal(n: nat)
    ensures '.' !in Decimal(n) && '_' !in Decimal(n)
  {
    var d := Decimal(n);
    forall i | 0 <= i < |d| ensures d[i] != '.' && d[i] != '_' { assert IsDigit(d[i]); }
  }

  /** Split on '_', a fresh disk location is "samov" and the rest. */
  lemma DiskLocationPieces(n: nat, ext: Option<string>)
    requires n < DiskNameBound
    requires '_' !in Str(ext)
    ensures JavaSplit(DiskLocation(n, ext), '_') == ["samov", Decimal(n) + "." + Str(ext)]
  {
    var d, e := Decimal(n), Str(ext);
    var rest := d + "." + e;
    var s := DiskLocation(n, ext);
    assert s == "samov" + ['_'] + rest;
    NoDotInDecimal(n);
    assert '_' !in rest by {
      forall i | 0 <= i < |rest| ensures rest[i] != '_' {
        if i < |d| { assert rest[i] == d[i]; }
        else if i > |d| { assert rest[i] == e[i - |d| - 1]; }
      }
    }
    TokensAround("samov", '_', rest);
    TokensOfPlain("samov", '_');
    TokensOfPlain(rest, '_');
    assert s[5] == '_';
    var t := Tokens(s, '_');
    assert t == ["samov", rest];
    assert DropTrailingEmpty(t) == t;
  }

  /**
   * Whatever the extension, a fresh disk location split on '_' has "samov"
   * and a second piece, so `c1[1]` never throws: only the split on
   * "." + extension can make the key read-back throw.
   */
  lemma DiskLocationHasTokenPiece(n: nat, ext: Option<string>)
    requires n < DiskNameBound
    ensures |JavaSplit(DiskLocation(n, ext), '_')| >= 2 && JavaSplit(DiskLocation(n, ext), '_')[0] == "samov"
  {
    var d := Decimal(n);
    var rest := d + "." + Str(ext);
    var s := DiskLocation(n, ext);
    assert s == "samov" + ['_'] + rest;
    assert s[5] == '_';
    TokensAround("samov", '_', rest);
    TokensOfPlain("samov", '_');
    NoDotInDecimal(n);
    assert rest[0] == d[0] && d[0] != '_' by { assert d[0] in d; }
    var t := Tokens(s, '_');
    assert t[0] == "samov" && t[1] == Tokens(rest, '_')[0] != "";
    var r := DropTrailingEmpty(t);
    assert |r| >= 2;
  }
}
