/**
 * The small part of Java's string semantics the download manager relies on:
 * nullable references, string concatenation of a possibly-null string,
 * decimal rendering of an `int`, `lastIndexOf`, `String.split` on a
 * one-character separator (which drops trailing empty strings) and on the
 * regular expression "." + text, and `replace`.
 */
module JavaLang {

  /** A nullable Java reference: `None` is `null`. */
  datatype Option<+T> = None | Some(value: T) {
    function GetOr(default: T): T {
      match this
      case Some(v) => v
      case None => default
    }
  }

  /** What `"" + s` yields in Java: the text itself, or "null" for a null reference. */
  function Str(s: Option<string>): string {
    match s
    case Some(t) => t
    case None => "null"
  }

  // ---------------------------------------------------------------------------
  // Decimal rendering of a non-negative int, as `"" + n` prints it.

  predicate IsDigit(c: char) {
    '0' <= c <= '9'
  }

  function DigitChar(d: nat): (c: char)
    requires d < 10
    ensures IsDigit(c)
  {
    "0123456789"[d]
  }

  function DigitValue(c: char): (d: nat)
    requires IsDigit(c)
    ensures d < 10
  {
    (c as int - '0' as int) as nat
  }

  /** `Integer.toString(n)` for n >= 0: at least one character, all digits. */
  function Decimal(n: nat): (r: string)
    ensures |r| >= 1
    ensures forall i :: 0 <= i < |r| ==> IsDigit(r[i])
  {
    if n < 10 then [DigitChar(n)] else Decimal(n / 10) + [DigitChar(n % 10)]
  }

  /** The value of a string of decimal digits (`Integer.parseInt` without sign or overflow). */
  function DecimalValue(s: string): nat
    requires forall i :: 0 <= i < |s| ==> IsDigit(s[i])
  {
    if s == [] then 0 else 10 * DecimalValue(s[..|s| - 1]) + DigitValue(s[|s| - 1])
  }

  /** Reading back the rendering of n gives n: the rendering loses nothing. */
  lemma {:induction false} DecimalRoundTrip(n: nat)
    ensures DecimalValue(Decimal(n)) == n
  {
    var r := Decimal(n);
    if n < 10 {
      assert r[..0] == [];
      assert DigitValue(DigitChar(n)) == n by {
        assert "0123456789"[n] as int - '0' as int == n;
      }
    } else {
      DecimalRoundTrip(n / 10);
      assert r[..|r| - 1] == Decimal(n / 10);
      assert DigitValue(DigitChar(n % 10)) == n % 10 by {
        assert "0123456789"[n % 10] as int - '0' as int == n % 10;
      }
    }
  }

  /** Two different numbers never render to the same text. */
  lemma DecimalInjective(m: nat, n: nat)
    requires Decimal(m) == Decimal(n)
    ensures m == n
  {
    DecimalRoundTrip(m);
    DecimalRoundTrip(n);
  }

  // ---------------------------------------------------------------------------
  // lastIndexOf

  /** `s.lastIndexOf(c)`: the last position holding c, or -1. */
  function LastIndexOf(s: string, c: char): (r: int)
    ensures -1 <= r < |s|
    ensures r >= 0 ==> s[r] == c
    ensures forall j :: r < j < |s| ==> s[j] != c
  {
    if s == [] then -1
    else if s[|s| - 1] == c then |s| - 1
    else LastIndexOf(s[..|s| - 1], c)
  }

  // ---------------------------------------------------------------------------
  // String.split on a one-character separator

  /**
   * The pieces of s between occurrences of sep, keeping every empty piece
   * (there is always one more piece than there are separators).
   */
  function Tokens(s: string, sep: char): (r: seq<string>)
    ensures |r| >= 1
    ensures forall k :: 0 <= k < |r| ==> sep !in r[k]
  {
    if s == [] then [""]
    else if s[0] == sep then [""] + Tokens(s[1..], sep)
    else
      var t := Tokens(s[1..], sep);
      [[s[0]] + t[0]] + t[1..]
  }

  /** Drops the empty strings at the end of a list of pieces. */
  function DropTrailingEmpty(t: seq<string>): (r: seq<string>)
    ensures |r| <= |t| && r == t[..|r|]
    ensures r != [] ==> r[|r| - 1] != ""
    ensures forall k :: |r| <= k < |t| ==> t[k] == ""
  {
    if t == [] then []
    else if t[|t| - 1] == "" then DropTrailingEmpty(t[..|t| - 1])
    else t
  }

  /**
   * Java's `s.split(String.valueOf(sep))`: a string without the separator
   * comes back as itself; otherwise the pieces, minus trailing empty ones.
   */
  function JavaSplit(s: string, sep: char): seq<string> {
    if sep !in s then [s] else DropTrailingEmpty(Tokens(s, sep))
  }

  lemma {:induction false} TokensOfPlain(s: string, sep: char)
    requires sep !in s
    ensures Tokens(s, sep) == [s]
  {
    if s != [] {
      assert s[0] != sep by { assert s[0] in s; }
      TokensOfPlain(s[1..], sep);
      assert [s[0]] + s[1..] == s;
    }
  }

  /** Splitting at one separator splits the pieces on each side independently. */
  lemma {:induction false} TokensAround(a: string, sep: char, b: string)
    ensures Tokens(a + [sep] + b, sep) == Tokens(a, sep) + Tokens(b, sep)
  {
    var s := a + [sep] + b;
    if a == [] {
      assert s == [sep] + b && s[1..] == b;
    } else {
      TokensAround(a[1..], sep, b);
      TokensAroundStep(a, sep, b);
    }
  }

  /** The inductive step of `TokensAround`: one more leading character on the left. */
  lemma TokensAroundStep(a: string, sep: char, b: string)
    requires a != []
    requires Tokens(a[1..] + [sep] + b, sep) == Tokens(a[1..], sep) + Tokens(b, sep)
    ensures Tokens(a + [sep] + b, sep) == Tokens(a, sep) + Tokens(b, sep)
  {
    var s := a + [sep] + b;
    assert s[0] == a[0];
    assert s[1..] == a[1..] + [sep] + b;
    if a[0] == sep {
      LeadingSeparator(s, sep, Tokens(a[1..], sep), Tokens(b, sep));
    } else {
      LeadingChar(s, sep, Tokens(a[1..], sep), Tokens(b, sep));
    }
  }

  lemma LeadingSeparator(s: string, sep: char, t1: seq<string>, t2: seq<string>)
    requires s != [] && s[0] == sep && Tokens(s[1..], sep) == t1 + t2
    ensures Tokens(s, sep) == ([""] + t1) + t2
  {
    assert [""] + (t1 + t2) == ([""] + t1) + t2;
  }

  lemma LeadingChar(s: string, sep: char, t1: seq<string>, t2: seq<string>)
    requires s != [] && s[0] != sep && t1 != [] && Tokens(s[1..], sep) == t1 + t2
    ensures Tokens(s, sep) == ([[s[0]] + t1[0]] + t1[1..]) + t2
  {
    var t := t1 + t2;
    assert t[0] == t1[0] && t[1..] == t1[1..] + t2;
    assert [[s[0]] + t[0]] + t[1..] == ([[s[0]] + t1[0]] + t1[1..]) + t2;
  }

  // ---------------------------------------------------------------------------
  // Substrings

  /**
   * The text of s before the first occurrence of sep (all of s when sep does
   * not occur): the first piece of a split on a literal separator.
   */
  function TakeBefore(s: string, sep: string): (r: string)
    requires sep != ""
    ensures |r| <= |s| && r == s[..|r|]
    decreases |s|
  {
    if |s| < |sep| then s
    else if s[..|sep|] == sep then ""
    else [s[0]] + TakeBefore(s[1..], sep)
  }

  /** A prefix that cannot contain the separator's first character stops right before it. */
  lemma {:induction false} TakeBeforeStopsAtSeparator(d: string, sep: string, rest: string)
    requires sep != "" && sep[0] !in d
    ensures TakeBefore(d + sep + rest, sep) == d
  {
    var s := d + sep + rest;
    if d == [] {
      assert s == sep + rest;
      assert s[..|sep|] == sep;
    } else {
      assert |s| >= |sep|;
      assert s[..|sep|] != sep by {
        assert s[0] == d[0];
        assert d[0] != sep[0] by { assert d[0] in d; }
        assert s[..|sep|][0] == s[0];
      }
      assert s[1..] == d[1..] + sep + rest;
      assert sep[0] !in d[1..] by {
        forall k | 0 <= k < |d[1..]| ensures d[1..][k] != sep[0] { assert d[1..][k] == d[k + 1]; assert d[k + 1] in d; }
      }
      TakeBeforeStopsAtSeparator(d[1..], sep, rest);
      assert [d[0]] + d[1..] == d;
    }
  }

  // ---------------------------------------------------------------------------
  // String.split on the regular expression "." + lit

  /** What the regular expression '.' matches: any character but a line terminator. */
  predicate AnyChar(c: char) {
    c != '\n' && c != '\r' && c != '\U{0085}' && c != '\U{2028}' && c != '\U{2029}'
  }

  /** The regular expression "." + lit (lit read literally) matches s at position i. */
  predicate DotMatchAt(s: string, lit: string, i: nat) {
    i + 1 + |lit| <= |s| && AnyChar(s[i]) && s[i + 1..i + 1 + |lit|] == lit
  }

  /** `Matcher.find` from position k: the leftmost match at or after k, if any. */
  function FindDotMatch(s: string, lit: string, k: nat): (r: Option<nat>)
    ensures r.Some? ==> k <= r.value && DotMatchAt(s, lit, r.value)
    ensures r.Some? ==> forall j :: k <= j < r.value ==> !DotMatchAt(s, lit, j)
    ensures r.None? ==> forall j :: k <= j ==> !DotMatchAt(s, lit, j)
    decreases |s| - k
  {
    if |s| < k + 1 + |lit| then None
    else if DotMatchAt(s, lit, k) then Some(k)
    else FindDotMatch(s, lit, k + 1)
  }

  /** The pieces of s between successive leftmost matches, the empty ones and the last one included. */
  function DotPieces(s: string, lit: string): (r: seq<string>)
    ensures |r| >= 1
    decreases |s|
  {
    match FindDotMatch(s, lit, 0)
    case None => [s]
    case Some(i) => [s[..i]] + DotPieces(s[i + 1 + |lit|..], lit)
  }

  /**
   * Java's `s.split("." + lit)`: s itself when nothing matches; otherwise the
   * pieces between the matches, minus the trailing empty ones (which may
   * leave no piece at all).
   */
  function DotSplit(s: string, lit: string): (r: seq<string>)
    ensures FindDotMatch(s, lit, 0).None? ==> r == [s]
    ensures FindDotMatch(s, lit, 0).Some? ==> r == DropTrailingEmpty(DotPieces(s, lit))
  {
    if FindDotMatch(s, lit, 0).None? then [s] else DropTrailingEmpty(DotPieces(s, lit))
  }

  /** The leftmost match is at i when "." + lit matches there and nowhere before. */
  lemma FirstDotMatchAt(s: string, lit: string, i: nat)
    requires DotMatchAt(s, lit, i) && forall j :: 0 <= j < i ==> !DotMatchAt(s, lit, j)
    ensures FindDotMatch(s, lit, 0) == Some(i)
  {
  }

  /** With an empty literal every character of text free of line terminators is a match, so every piece is empty. */
  lemma {:induction false} DotPiecesOfEmptyLiteral(s: string)
    requires forall k :: 0 <= k < |s| ==> AnyChar(s[k])
    ensures forall k :: 0 <= k < |DotPieces(s, "")| ==> DotPieces(s, "")[k] == ""
    decreases |s|
  {
    if s != [] {
      assert DotMatchAt(s, "", 0);
      FirstDotMatchAt(s, "", 0);
      assert DotPieces(s, "") == [""] + DotPieces(s[1..], "");
      DotPiecesOfEmptyLiteral(s[1..]);
    }
  }

  /** Dropping the trailing empty pieces of a list of empty pieces leaves nothing. */
  lemma DropAllEmpty(t: seq<string>)
    requires forall k :: 0 <= k < |t| ==> t[k] == ""
    ensures DropTrailingEmpty(t) == []
  {
  }

  /** `s.replace(String.valueOf(c), "")`: s with every c removed. */
  function RemoveChar(s: string, c: char): (r: string)
    ensures c !in r
    ensures |r| <= |s|
  {
    if s == [] then ""
    else if s[0] == c then RemoveChar(s[1..], c)
    else [s[0]] + RemoveChar(s[1..], c)
  }

  /** Removing a character that is not there leaves the text unchanged. */
  lemma {:induction false} RemoveAbsentChar(s: string, c: char)
    requires c !in s
    ensures RemoveChar(s, c) == s
  {
    if s != [] {
      RemoveAbsentChar(s[1..], c);
    }
  }
}
