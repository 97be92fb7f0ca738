/** The parts of the Java language and of java.lang.String that the library
    relies on, written out so that their corner cases are explicit:
    32-bit int wrap-around, truncating division, String.split with a
    one-character separator, trim, startsWith, compareTo and the decimal
    rendering of an int. */
module JavaLang {

  /** The exceptions the modelled code can throw. */
  datatype Exception =
    | NullPointer
    | IndexOutOfBounds
    | ArithmeticDivideByZero
    | IllegalArgument
    | UnsupportedOperation
    | NumberFormat
    | ClassCast
    | StringIndexOutOfBounds
    | NoSuchArray
    | NegativeArraySize
    | BufferOverflow

  /** A value, or the exception that replaced it. */
  datatype Result<T> = Ok(value: T) | Throws(exc: Exception)

  /** A Java reference that may be null. */
  datatype Option<T> = None | Some(value: T)

  // ---------------------------------------------------------------- ints

  const INT_MIN: int := -0x8000_0000
  const INT_MAX: int := 0x7FFF_FFFF
  const TWO_32: int := 0x1_0000_0000

  predicate IsInt(x: int) { INT_MIN <= x <= INT_MAX }

  type int32 = x: int | INT_MIN <= x <= INT_MAX

  /** The result of 32-bit two's-complement arithmetic whose exact value is x. */
  function Wrap32(x: int): (r: int32)
    ensures IsInt(x) ==> r == x
  {
    var m := x % TWO_32;
    if m > INT_MAX then m - TWO_32 else m
  }

  /** Java's int `/`: rounds toward zero (Dafny's `/` is Euclidean). */
  function JavaDiv(a: int, b: int): (q: int)
    requires b != 0
    ensures a >= 0 && b > 0 ==> q == a / b
    ensures (a >= 0) == (b > 0) ==> q >= 0
  {
    if a >= 0 && b > 0 then a / b
    else if a >= 0 then -(a / -b)
    else if b > 0 then -((-a) / b)
    else (-a) / (-b)
  }

  /** Math.abs on a value that is not Integer.MIN_VALUE. */
  function Abs(x: int): (r: nat)
    ensures r == x || r == -x
  {
    if x < 0 then -x else x
  }

  /** Math.abs(int) on any int: Integer.MIN_VALUE has no positive
      counterpart and comes back unchanged. */
  function JavaAbs(x: int32): (r: int32)
    ensures x != INT_MIN ==> r == Abs(x)
    ensures x == INT_MIN ==> r == INT_MIN
  {
    if x == INT_MIN then INT_MIN else if x < 0 then -x else x
  }

  /** Subtracting a from a 32-bit difference with a leaves minus the other
      operand, overflow or not. */
  lemma Wrap32Cancel(a: int, w: int)
    requires IsInt(a) && IsInt(w)
    ensures Wrap32(Wrap32(a - w) - a) == Wrap32(-w)
  {
  }

  /** String.length(): the UTF-16 code units of s. A character above
      U+FFFF is a surrogate pair and counts twice; any other counts once. */
  function Utf16Length(s: string): (n: nat)
    ensures |s| <= n <= 2 * |s|
    ensures (forall i :: 0 <= i < |s| ==> s[i] as int <= 0xFFFF) ==> n == |s|
  {
    if s == [] then 0
    else Utf16Length(s[..|s| - 1]) + (if s[|s| - 1] as int > 0xFFFF then 2 else 1)
  }

  /** A character outside the Basic Multilingual Plane counts twice. */
  lemma Utf16LengthOfPair()
    ensures Utf16Length("a\U{1F600}") == 3
  {
    assert "a\U{1F600}"[..1] == "a";
  }

  function Max(a: int, b: int): (r: int)
    ensures r >= a && r >= b && (r == a || r == b)
  {
    if a >= b then a else b
  }

  // ------------------------------------------------------------ decimal

  function DigitChar(d: nat): (c: char)
    requires d < 10
    ensures '0' <= c <= '9'
  {
    "0123456789"[d]
  }

  predicate IsDigit(c: char) { '0' <= c <= '9' }

  /** The decimal digits of n, most significant first, without leading zeros. */
  function Digits(n: nat): (s: string)
    ensures 1 <= |s|
    ensures forall i :: 0 <= i < |s| ==> IsDigit(s[i])
    ensures n < 10 <==> |s| == 1
    ensures |s| > 1 ==> s[0] != '0'
    decreases n
  {
    if n < 10 then [DigitChar(n)] else Digits(n / 10) + [DigitChar(n % 10)]
  }

  /** Integer.toString / String.valueOf(int) / StringBuilder.append(int). */
  function IntToString(n: int): (s: string)
    ensures 1 <= |s|
    ensures n >= 0 ==> s == Digits(n)
    ensures n < 0 ==> s[0] == '-' && s[1..] == Digits(-n)
  {
    if n < 0 then "-" + Digits(-n) else Digits(n)
  }

  /** Boolean.toString / StringBuilder.append(boolean). */
  function BoolToString(b: bool): (s: string)
    ensures |s| == (if b then 4 else 5)
  {
    if b then "true" else "false"
  }

  // ------------------------------------------------------------ strings

  predicate StartsWith(s: string, prefix: string)
  {
    |prefix| <= |s| && s[..|prefix|] == prefix
  }

  /** Every piece between occurrences of sep, empty pieces included
      (what a split with a negative limit returns). */
  function SplitAll(s: string, sep: char): (pieces: seq<string>)
    ensures |pieces| >= 1
    ensures forall k :: 0 <= k < |pieces| ==> sep !in pieces[k]
    decreases |s|
  {
    if s == [] then [""]
    else if s[0] == sep then [""] + SplitAll(s[1..], sep)
    else
      var rest := SplitAll(s[1..], sep);
      [[s[0]] + rest[0]] + rest[1..]
  }

  /** The pieces joined back with sep between consecutive ones. */
  function Join(pieces: seq<string>, sep: char): string
  {
    if pieces == [] then ""
    else if |pieces| == 1 then pieces[0]
    else pieces[0] + [sep] + Join(pieces[1..], sep)
  }

  /** Drops empty strings from the end: what split does with limit 0. */
  function StripTrailingEmpty(pieces: seq<string>): (r: seq<string>)
    ensures |r| <= |pieces| && r == pieces[..|r|]
    ensures r != [] ==> r[|r| - 1] != ""
    ensures forall k :: |r| <= k < |pieces| ==> pieces[k] == ""
  {
    if pieces == [] then []
    else if pieces[|pieces| - 1] == "" then StripTrailingEmpty(pieces[..|pieces| - 1])
    else pieces
  }

  /** s.split(String.valueOf(sep)) for a separator that is not a regex
      metacharacter: when sep does not occur the whole string is the only
      piece (so "" gives [""]); otherwise the pieces with trailing empty
      pieces removed. */
  function JavaSplit(s: string, sep: char): (pieces: seq<string>)
    ensures forall k :: 0 <= k < |pieces| ==> sep !in pieces[k]
  {
    if sep !in s then [s] else StripTrailingEmpty(SplitAll(s, sep))
  }

  /** String.trim: removes every character whose code is at most U+0020
      from both ends. */
  function TrimStart(s: string): (r: string)
    ensures |r| <= |s| && r == s[|s| - |r|..]
    ensures r != [] ==> r[0] > ' '
  {
    if s != [] && s[0] <= ' ' then TrimStart(s[1..]) else s
  }

  function TrimEnd(s: string): (r: string)
    ensures |r| <= |s| && r == s[..|r|]
    ensures r != [] ==> r[|r| - 1] > ' '
  {
    if s != [] && s[|s| - 1] <= ' ' then TrimEnd(s[..|s| - 1]) else s
  }

  function Trim(s: string): string
  {
    TrimEnd(TrimStart(s))
  }

  /** String.compareTo: the difference of the first differing characters,
      or else the difference of the lengths. */
  function CompareTo(a: string, b: string): int
  {
    if a == [] || b == [] then |a| - |b|
    else if a[0] != b[0] then (a[0] as int) - (b[0] as int)
    else CompareTo(a[1..], b[1..])
  }

  // ----------------------------------------------------------- lemmas

  lemma {:induction false} JoinSplitAll(s: string, sep: char)
    ensures Join(SplitAll(s, sep), sep) == s
    decreases |s|
  {
    if s == [] {
    } else if s[0] == sep {
      JoinSplitAll(s[1..], sep);
      var rest := SplitAll(s[1..], sep);
      assert SplitAll(s, sep) == [""] + rest;
      assert ([""] + rest)[1..] == rest;
    } else {
      JoinSplitAll(s[1..], sep);
      var rest := SplitAll(s[1..], sep);
      var p := [[s[0]] + rest[0]] + rest[1..];
      assert SplitAll(s, sep) == p;
      if |rest| == 1 {
        assert Join(p, sep) == [s[0]] + rest[0];
      } else {
        assert p[1..] == rest[1..];
        assert Join(rest, sep) == rest[0] + [sep] + Join(rest[1..], sep);
      }
    }
  }

  /** A string without the separator is its own only piece. */
  lemma {:induction false} SplitAllWithout(s: string, sep: char)
    requires sep !in s
    ensures SplitAll(s, sep) == [s]
    decreases |s|
  {
    if s != [] {
      assert s[0] != sep && sep !in s[1..];
      SplitAllWithout(s[1..], sep);
      assert [s[0]] + s[1..] == s;
    }
  }

  /** A first piece a, then the separator: a is the first piece and the
      rest splits on its own. */
  lemma {:induction false} SplitAllAfterPiece(a: string, sep: char, rest: string)
    requires sep !in a
    ensures SplitAll(a + [sep] + rest, sep) == [a] + SplitAll(rest, sep)
    decreases |a|
  {
    var s := a + [sep] + rest;
    if a == [] {
      assert s[0] == sep && s[1..] == rest;
    } else {
      assert s[0] == a[0] && a[0] != sep;
      assert s[1..] == a[1..] + [sep] + rest;
      SplitAllAfterPiece(a[1..], sep, rest);
      assert [a[0]] + a[1..] == a;
    }
  }

  /** key:value with neither holding the separator splits into those two
      pieces, or into the key alone when the value is empty. */
  lemma SplitKeyValue(key: string, sep: char, value: string)
    requires sep !in key && sep !in value && key != ""
    ensures value != "" ==> JavaSplit(key + [sep] + value, sep) == [key, value]
    ensures value == "" ==> JavaSplit(key + [sep] + value, sep) == [key]
  {
    var s := key + [sep] + value;
    assert s[|key|] == sep;
    SplitAllAfterPiece(key, sep, value);
    SplitAllWithout(value, sep);
    assert SplitAll(s, sep) == [key, value];
    if value == "" {
      assert [key, value][..1] == [key];
      assert StripTrailingEmpty([key, value]) == StripTrailingEmpty([key]);
    }
  }

  /** A string made only of separators, and nothing else, splits into no pieces. */
  lemma {:induction false} SplitAllOnlySeparators(s: string, sep: char)
    requires forall i :: 0 <= i < |s| ==> s[i] == sep
    ensures |SplitAll(s, sep)| == |s| + 1
    ensures forall k :: 0 <= k < |SplitAll(s, sep)| ==> SplitAll(s, sep)[k] == ""
    decreases |s|
  {
    if s != [] {
      SplitAllOnlySeparators(s[1..], sep);
    }
  }

  lemma {:induction false} StripAllEmpty(pieces: seq<string>)
    requires forall k :: 0 <= k < |pieces| ==> pieces[k] == ""
    ensures StripTrailingEmpty(pieces) == []
    decreases |pieces|
  {
    if pieces != [] {
      StripAllEmpty(pieces[..|pieces| - 1]);
    }
  }

  /** A non-empty piece survives the stripping, and so do all before it. */
  lemma {:induction false} StripKeepsNonEmpty(pieces: seq<string>, k: nat)
    requires k < |pieces| && pieces[k] != ""
    ensures k < |StripTrailingEmpty(pieces)|
    decreases |pieces|
  {
    if pieces[|pieces| - 1] == "" {
      StripKeepsNonEmpty(pieces[..|pieces| - 1], k);
    }
  }

  /** The three corner cases of split: "" gives one empty piece, a string of
      separators gives none, and a string without the separator gives itself. */
  lemma JavaSplitCorners(s: string, sep: char)
    ensures JavaSplit("", sep) == [""]
    ensures s != [] && (forall i :: 0 <= i < |s| ==> s[i] == sep) ==> JavaSplit(s, sep) == []
    ensures sep !in s ==> JavaSplit(s, sep) == [s]
  {
    if s != [] && (forall i :: 0 <= i < |s| ==> s[i] == sep) {
      assert s[0] == sep;
      SplitAllOnlySeparators(s, sep);
      StripAllEmpty(SplitAll(s, sep));
    }
  }

  /** split yields no piece exactly when the string is non-empty and made
      only of separators. */
  lemma JavaSplitEmptyIff(s: string, sep: char)
    ensures JavaSplit(s, sep) == [] <==> s != [] && forall i :: 0 <= i < |s| ==> s[i] == sep
  {
    JavaSplitCorners(s, sep);
    if JavaSplit(s, sep) == [] {
      if s == [] {
        assert false;
      }
      if i :| 0 <= i < |s| && s[i] != sep {
        assert sep in s;
        var p := SplitAll(s, sep);
        JoinSplitAll(s, sep);
        var k := NonEmptyPieceOf(p, sep, i);
        StripKeepsNonEmpty(p, k);
        assert false;
      }
    }
  }

  /** When the joined pieces have a non-separator character, some piece is non-empty. */
  lemma {:induction false} NonEmptyPieceOf(p: seq<string>, sep: char, i: nat) returns (k: nat)
    requires i < |Join(p, sep)| && Join(p, sep)[i] != sep
    ensures k < |p| && p[k] != ""
    decreases |p|
  {
    if |p| == 1 {
      k := 0;
    } else if p == [] {
      assert false;
    } else if p[0] != "" {
      k := 0;
    } else {
      assert Join(p, sep) == [sep] + Join(p[1..], sep);
      var k' := NonEmptyPieceOf(p[1..], sep, i - 1);
      k := k' + 1;
    }
  }

  /** compareTo is zero exactly on equal strings, and swapping the
      arguments negates it. */
  lemma {:induction false} CompareToProperties(a: string, b: string)
    ensures CompareTo(a, b) == 0 <==> a == b
    ensures CompareTo(b, a) == -CompareTo(a, b)
    decreases |a|
  {
    if a != [] && b != [] && a[0] == b[0] {
      CompareToProperties(a[1..], b[1..]);
      if a[1..] == b[1..] {
        assert a == [a[0]] + a[1..] && b == [b[0]] + b[1..];
      }
    }
  }

  /** compareTo orders strings transitively. */
  lemma {:induction false} CompareToTransitive(a: string, b: string, c: string)
    requires CompareTo(a, b) <= 0 && CompareTo(b, c) <= 0
    ensures CompareTo(a, c) <= 0
    decreases |a|
  {
    if a != [] && b != [] && c != [] && a[0] == b[0] && b[0] == c[0] {
      CompareToTransitive(a[1..], b[1..], c[1..]);
    }
  }
}
