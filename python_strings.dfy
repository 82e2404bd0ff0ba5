/** The Python `str` operations the deployment configuration uses:
    `replace` of one character, `split(sep)`, `strip()`, `isspace()` and
    `isalpha()`. */
module PyStrings {

  /** `c.isspace()`: the characters Python treats as whitespace. */
  predicate IsSpace(c: char)
  {
    || c == ' ' || ('\t' <= c <= '\r')
    || ('\U{1C}' <= c <= '\U{1F}')
    || c == '\U{85}' || c == '\U{A0}' || c == '\U{1680}'
    || ('\U{2000}' <= c <= '\U{200A}')
    || c == '\U{2028}' || c == '\U{2029}' || c == '\U{202F}' || c == '\U{205F}'
    || c == '\U{3000}'
  }

  /** `c.isalpha()` for the ASCII and Latin-1 letters. */
  predicate IsAlpha(c: char)
  {
    || ('A' <= c <= 'Z') || ('a' <= c <= 'z')
    || c == '\U{AA}' || c == '\U{B5}' || c == '\U{BA}'
    || ('\U{C0}' <= c <= '\U{D6}') || ('\U{D8}' <= c <= '\U{F6}')
    || ('\U{F8}' <= c <= '\U{FF}')
  }

  /** Every character of `s` is whitespace (also true of ""). */
  predicate Blank(s: string)
  {
    forall i :: 0 <= i < |s| ==> IsSpace(s[i])
  }

  /** `s.replace(from, to)` for single characters: same length, and no
      `from` is left when it differs from `to`. */
  function ReplaceChar(s: string, from: char, to: char): (r: string)
    ensures |r| == |s|
    ensures from != to ==> from !in r
  {
    seq(|s|, i requires 0 <= i < |s| => if s[i] == from then to else s[i])
  }

  /** Replacing a second time changes nothing. */
  lemma ReplaceCharIdempotent(s: string, from: char, to: char)
    ensures ReplaceChar(ReplaceChar(s, from, to), from, to) == ReplaceChar(s, from, to)
  {
    var r := ReplaceChar(s, from, to);
    assert forall i :: 0 <= i < |r| ==> ReplaceChar(r, from, to)[i] == r[i];
  }

  /** `s.split(sep)`: the pieces between occurrences of `sep`, always at
      least one. */
  function Split(s: string, sep: char): (parts: seq<string>)
    ensures |parts| >= 1
    decreases |s|
  {
    if |s| == 0 then [""]
    else
      var rest := Split(s[1..], sep);
      if s[0] == sep then [""] + rest
      else [[s[0]] + rest[0]] + rest[1..]
  }

  /** `sep.join(parts)` */
  function Join(parts: seq<string>, sep: char): string
  {
    if |parts| == 0 then ""
    else if |parts| == 1 then parts[0]
    else parts[0] + [sep] + Join(parts[1..], sep)
  }

  /** No piece of a split holds the separator. */
  lemma {:induction false} SplitPiecesFree(s: string, sep: char)
    ensures forall p :: p in Split(s, sep) ==> sep !in p
    decreases |s|
  {
    if |s| > 0 {
      SplitPiecesFree(s[1..], sep);
      var rest := Split(s[1..], sep);
      var parts := Split(s, sep);
      if s[0] == sep {
        assert parts == [""] + rest;
      } else {
        assert parts == [[s[0]] + rest[0]] + rest[1..];
        assert rest[0] in rest;
        forall p | p in parts ensures sep !in p {
          if p == [s[0]] + rest[0] {
            assert sep !in rest[0];
          } else {
            assert p in rest[1..];
          }
        }
      }
    }
  }

  /** Splitting two strings joined by the separator gives the pieces of the
      first followed by the pieces of the second. */
  lemma {:induction false} SplitSeparated(s: string, t: string, sep: char)
    ensures Split(s + [sep] + t, sep) == Split(s, sep) + Split(t, sep)
    decreases |s|
  {
    var u := s + [sep] + t;
    if |s| == 0 {
      assert u == [sep] + t;
      assert u[1..] == t;
    } else {
      assert u[0] == s[0] && u[1..] == s[1..] + [sep] + t;
      SplitSeparated(s[1..], t, sep);
      var x := Split(s[1..], sep);
      var y := Split(t, sep);
      if s[0] == sep {
        calc {
          Split(u, sep);
          [""] + (x + y);
          ([""] + x) + y;
          Split(s, sep) + y;
        }
      } else {
        PrefixFirstPiece(x, y, s[0]);
        calc {
          Split(u, sep);
          [[s[0]] + (x + y)[0]] + (x + y)[1..];
          ([[s[0]] + x[0]] + x[1..]) + y;
          Split(s, sep) + y;
        }
      }
    }
  }

  /** Putting a character in front of the first piece commutes with
      appending further pieces. */
  lemma PrefixFirstPiece(x: seq<string>, y: seq<string>, c: char)
    requires |x| >= 1
    ensures [[c] + (x + y)[0]] + (x + y)[1..] == ([[c] + x[0]] + x[1..]) + y
  {
    assert (x + y)[0] == x[0];
    assert (x + y)[1..] == x[1..] + y;
  }

  /** Joining the pieces of a split with the separator gives the input
      back. */
  lemma {:induction false} SplitJoin(s: string, sep: char)
    ensures Join(Split(s, sep), sep) == s
    decreases |s|
  {
    if |s| > 0 {
      SplitJoin(s[1..], sep);
      var rest := Split(s[1..], sep);
      if s[0] == sep {
        assert Split(s, sep) == [""] + rest;
        assert Join([""] + rest, sep) == "" + [sep] + Join(rest, sep);
      } else {
        assert Split(s, sep) == [[s[0]] + rest[0]] + rest[1..];
        JoinExtendFirst(rest, s[0], sep);
      }
      assert s == [s[0]] + s[1..];
    }
  }

  /** Putting a character in front of the first piece puts it in front of
      the joined string. */
  lemma JoinExtendFirst(parts: seq<string>, c: char, sep: char)
    requires |parts| >= 1
    ensures Join([[c] + parts[0]] + parts[1..], sep) == [c] + Join(parts, sep)
  {
    var extended := [[c] + parts[0]] + parts[1..];
    if |parts| > 1 {
      assert extended[1..] == parts[1..];
      assert extended[0] == [c] + parts[0];
    }
  }

  /** Every piece of `s.split(sep)` is blank exactly when every character
      of `s` is the separator or whitespace. */
  lemma {:induction false} SplitAllBlank(s: string, sep: char)
    requires !IsSpace(sep)
    ensures (forall p :: p in Split(s, sep) ==> Blank(p))
        <==> (forall i :: 0 <= i < |s| ==> s[i] == sep || IsSpace(s[i]))
    decreases |s|
  {
    if |s| > 0 {
      SplitAllBlank(s[1..], sep);
      var rest := Split(s[1..], sep);
      var parts := Split(s, sep);
      assert forall i :: 1 <= i < |s| ==> s[1..][i - 1] == s[i];
      if s[0] == sep {
        assert parts == [""] + rest;
        assert forall p :: p in parts <==> p == "" || p in rest;
      } else {
        assert parts == [[s[0]] + rest[0]] + rest[1..];
        assert rest[0] in rest;
        assert forall p :: p in rest <==> p == rest[0] || p in rest[1..];
        assert forall p :: p in parts <==> p == [s[0]] + rest[0] || p in rest[1..];
        var q := [s[0]] + rest[0];
        assert q[0] == s[0];
        assert forall i :: 0 <= i < |rest[0]| ==> q[i + 1] == rest[0][i];
        assert Blank(q) <==> IsSpace(s[0]) && Blank(rest[0]);
      }
    }
  }

  function TrimStart(s: string): string
    decreases |s|
  {
    if |s| > 0 && IsSpace(s[0]) then TrimStart(s[1..]) else s
  }

  function TrimEnd(s: string): string
    decreases |s|
  {
    if |s| > 0 && IsSpace(s[|s| - 1]) then TrimEnd(s[..|s| - 1]) else s
  }

  /** `s.strip()`: what is left after dropping whitespace at both ends. */
  function Strip(s: string): string
  {
    TrimEnd(TrimStart(s))
  }

  /** The stripped string is `s` less a whitespace prefix and a whitespace
      suffix, and is empty or starts and ends with a non-whitespace
      character. */
  lemma {:induction false} StripBounds(s: string)
    ensures exists i, j ::
      (0 <= i <= j <= |s| && Strip(s) == s[i..j] && Blank(s[..i]) && Blank(s[j..]))
    ensures Strip(s) != [] ==> !IsSpace(Strip(s)[0]) && !IsSpace(Strip(s)[|Strip(s)| - 1])
  {
    var i := TrimStartAt(s);
    var t := s[i..];
    var j := TrimEndAt(t);
    assert Strip(s) == s[i..i + j];
    assert s[i + j..] == t[j..];
  }

  /** `TrimStart(s)` drops a whitespace prefix of length `i`. */
  lemma {:induction false} TrimStartAt(s: string) returns (i: nat)
    ensures i <= |s| && TrimStart(s) == s[i..] && Blank(s[..i])
    ensures TrimStart(s) != [] ==> !IsSpace(TrimStart(s)[0])
    decreases |s|
  {
    if |s| > 0 && IsSpace(s[0]) {
      var k := TrimStartAt(s[1..]);
      i := k + 1;
      assert s[1..][k..] == s[i..];
      assert forall m :: 1 <= m < i ==> s[..i][m] == s[1..][..k][m - 1];
    } else {
      i := 0;
    }
  }

  /** `TrimEnd(s)` keeps a prefix of length `j` followed by whitespace only,
      and the prefix keeps the first and last characters of `TrimEnd(s)`
      non-whitespace when `s` starts with one. */
  lemma {:induction false} TrimEndAt(s: string) returns (j: nat)
    ensures j <= |s| && TrimEnd(s) == s[..j] && Blank(s[j..])
    ensures TrimEnd(s) != [] ==> !IsSpace(TrimEnd(s)[|TrimEnd(s)| - 1])
    ensures TrimEnd(s) != [] && |s| > 0 ==> TrimEnd(s)[0] == s[0]
    decreases |s|
  {
    if |s| > 0 && IsSpace(s[|s| - 1]) {
      var p := s[..|s| - 1];
      var k := TrimEndAt(p);
      j := k;
      assert p[..k] == s[..j];
      BlankSuffixGrows(s, k);
    } else {
      j := |s|;
    }
  }

  /** A blank tail of `s` less its last character stays blank when that
      character is whitespace. */
  lemma BlankSuffixGrows(s: string, k: nat)
    requires 0 < |s| && k < |s| && IsSpace(s[|s| - 1]) && Blank(s[..|s| - 1][k..])
    ensures Blank(s[k..])
  {
    var t := s[k..];
    forall i | 0 <= i < |t| ensures IsSpace(t[i]) {
      if i < |t| - 1 {
        assert t[i] == s[..|s| - 1][k..][i];
      }
    }
  }

  /** A string strips to nothing exactly when it is blank. */
  lemma StripEmptyIffBlank(s: string)
    ensures Strip(s) == [] <==> Blank(s)
  {
    StripBounds(s);
    var i, j :| 0 <= i <= j <= |s| && Strip(s) == s[i..j] && Blank(s[..i]) && Blank(s[j..]);
    if Strip(s) == [] {
      assert i == j;
      forall k | 0 <= k < |s| ensures IsSpace(s[k]) {
        if k < i { assert s[..i][k] == s[k]; } else { assert s[j..][k - j] == s[k]; }
      }
    } else {
      assert !IsSpace(s[i]) by { assert Strip(s)[0] == s[i]; }
    }
  }
}
