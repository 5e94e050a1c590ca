/** Text helpers with the meaning Python gives `str.lower`, `str.strip`,
    `str.split(sep)` and the `in` operator on strings. */
module Strings {

  /** Lower-cases one character; only ASCII letters are folded. */
  function LowerChar(c: char): (d: char)
    ensures 'A' <= c <= 'Z' ==> d as int == c as int + 32
    ensures !('A' <= c <= 'Z') ==> d == c
  {
    if 'A' <= c <= 'Z' then (c as int + 32) as char else c
  }

  /** `s.lower()`. */
  function Lower(s: string): (r: string)
    ensures |r| == |s|
    ensures forall i :: 0 <= i < |s| ==> r[i] == LowerChar(s[i])
  {
    seq(|s|, i requires 0 <= i < |s| => LowerChar(s[i]))
  }

  /** Lower-casing twice is lower-casing once, so `t.lower()` applied to an
      already lower-cased term changes nothing. */
  lemma LowerIdempotent(s: string)
    ensures Lower(Lower(s)) == Lower(s)
  {
  }

  /** The code points Python's `str.isspace` accepts. */
  predicate IsSpace(c: char)
    ensures c == ' ' || c == '\t' || c == '\n' || c == '\r' ==> IsSpace(c)
    ensures IsSpace(c) ==> c != ',' && !('a' <= c <= 'z') && !('A' <= c <= 'Z') && !('0' <= c <= '9')
  {
    var n := c as int;
    (9 <= n <= 13) || (28 <= n <= 32) || n == 0x85 || n == 0xA0 || n == 0x1680
    || (0x2000 <= n <= 0x200A) || n == 0x2028 || n == 0x2029 || n == 0x202F
    || n == 0x205F || n == 0x3000
  }

  predicate AllSpace(s: string)
  {
    forall i :: 0 <= i < |s| ==> IsSpace(s[i])
  }

  /** `s.lstrip()`: the suffix of `s` that starts at its first non-space. */
  function TrimStart(s: string): (r: string)
    ensures |r| <= |s| && r == s[|s| - |r|..] && AllSpace(s[..|s| - |r|])
    ensures r == [] || !IsSpace(r[0])
  {
    if s != [] && IsSpace(s[0]) then
      var r := TrimStart(s[1..]);
      assert s[..|s| - |r|] == [s[0]] + s[1..][..|s[1..]| - |r|];
      AllSpaceConcat([s[0]], s[1..][..|s[1..]| - |r|]);
      r
    else
      s
  }

  /** `s.rstrip()`: the prefix of `s` that ends at its last non-space. */
  function TrimEnd(s: string): (r: string)
    ensures |r| <= |s| && r == s[..|r|] && AllSpace(s[|r|..])
    ensures r == [] || !IsSpace(r[|r| - 1])
  {
    if s != [] && IsSpace(s[|s| - 1]) then
      var r := TrimEnd(s[..|s| - 1]);
      assert s[|r|..] == s[..|s| - 1][|r|..] + [s[|s| - 1]];
      r
    else
      s
  }

  /** `r` occurs in `s` at offset `i`, with only white space before and after it. */
  predicate FramedBySpace(s: string, i: int, r: string)
  {
    0 <= i && i + |r| <= |s| && r == s[i..i + |r|] && AllSpace(s[..i]) && AllSpace(s[i + |r|..])
  }

  /** `s.strip()`: removes leading and trailing white space. A string made
      only of white space strips to the empty string. */
  function Strip(s: string): (r: string)
    ensures FramedBySpace(s, |s| - |TrimStart(s)|, r)
    ensures r == [] || (!IsSpace(r[0]) && !IsSpace(r[|r| - 1]))
    ensures r == [] <==> AllSpace(s)
  {
    var t := TrimStart(s);
    var r := TrimEnd(t);
    StripIsInfix(s, t, r);
    StripEmpty(s, t, r);
    r
  }

  /** After trimming both ends nothing is left exactly when the input was
      all white space. */
  lemma StripEmpty(s: string, t: string, r: string)
    requires |t| <= |s| && t == s[|s| - |t|..] && AllSpace(s[..|s| - |t|])
    requires t == [] || !IsSpace(t[0])
    requires |r| <= |t| && r == t[..|r|] && AllSpace(t[|r|..])
    ensures r == [] <==> AllSpace(s)
  {
    var i := |s| - |t|;
    assert s == s[..i] + t;
    AllSpaceConcat(s[..i], t);
    if r == [] {
      assert t[|r|..] == t;
    }
  }

  /** Trimming a white-space prefix and then a white-space suffix leaves an
      infix of the original framed by white space. */
  lemma StripIsInfix(s: string, t: string, r: string)
    requires |t| <= |s| && t == s[|s| - |t|..] && AllSpace(s[..|s| - |t|])
    requires |r| <= |t| && r == t[..|r|] && AllSpace(t[|r|..])
    ensures FramedBySpace(s, |s| - |t|, r)
  {
    var i := |s| - |t|;
    assert s[i..i + |r|] == t[..|r|];
    assert s[i + |r|..] == t[|r|..];
  }

  lemma AllSpaceConcat(a: string, b: string)
    ensures AllSpace(a + b) <==> AllSpace(a) && AllSpace(b)
  {
    if AllSpace(a + b) {
      assert forall i :: 0 <= i < |a| ==> a[i] == (a + b)[i];
      assert forall i :: 0 <= i < |b| ==> b[i] == (a + b)[|a| + i];
    }
  }

  /** `s.split(sep)`: the pieces between occurrences of `sep`. As in Python,
      the empty string splits into one empty piece. */
  function Split(s: string, sep: char): (r: seq<string>)
    ensures |r| >= 1
    ensures forall i, j :: 0 <= i < |r| && 0 <= j < |r[i]| ==> r[i][j] != sep
  {
    if s == [] then [""]
    else if s[0] == sep then [""] + Split(s[1..], sep)
    else
      var rest := Split(s[1..], sep);
      [[s[0]] + rest[0]] + rest[1..]
  }

  /** `sep.join(pieces)`, the inverse of `Split`. */
  function Join(pieces: seq<string>, sep: char): string
    requires |pieces| >= 1
  {
    if |pieces| == 1 then pieces[0] else pieces[0] + [sep] + Join(pieces[1..], sep)
  }

  /** Splitting loses nothing: joining the pieces back gives the input. */
  lemma {:induction false} SplitJoin(s: string, sep: char)
    ensures Join(Split(s, sep), sep) == s
  {
    if s == [] {
    } else if s[0] == sep {
      SplitJoin(s[1..], sep);
      assert s == [sep] + s[1..];
    } else {
      SplitJoin(s[1..], sep);
      var rest := Split(s[1..], sep);
      assert Split(s, sep)[1..] == rest[1..];
      if |rest| > 1 {
        assert Join(Split(s, sep), sep) == [s[0]] + rest[0] + [sep] + Join(rest[1..], sep);
      }
      assert s == [s[0]] + s[1..];
    }
  }

  /** Appending the separator adds one empty piece at the end. */
  lemma {:induction false} SplitAppendSeparator(s: string, sep: char)
    ensures Split(s + [sep], sep) == Split(s, sep) + [""]
  {
    if s == [] {
      assert Split([sep], sep) == [""] + Split([], sep);
    } else {
      SplitAppendSeparator(s[1..], sep);
      assert (s + [sep])[1..] == s[1..] + [sep];
    }
  }

  /** A string that ends in the separator splits into pieces the last of
      which is empty: a trailing comma yields an empty term. */
  lemma SplitTrailingSeparator(s: string, sep: char)
    requires |s| > 0 && s[|s| - 1] == sep
    ensures Split(s, sep)[|Split(s, sep)| - 1] == ""
  {
    SplitAppendSeparator(s[..|s| - 1], sep);
    assert s == s[..|s| - 1] + [sep];
  }

  /** `t` is a prefix of `s`. */
  predicate IsPrefix(t: string, s: string)
  {
    |t| <= |s| && s[..|t|] == t
  }

  /** `t in s` for strings: `t` occurs somewhere in `s`. */
  function Contains(t: string, s: string): (b: bool)
    ensures t == [] ==> b
    ensures b ==> |t| <= |s|
  {
    IsPrefix(t, s) || (s != [] && Contains(t, s[1..]))
  }

  /** `t` occurs in `s` starting at position `i`. */
  predicate OccursAt(t: string, s: string, i: int)
  {
    0 <= i <= |s| - |t| && s[i..i + |t|] == t
  }

  /** `Contains` agrees with the positional definition of a substring. */
  lemma {:induction false} ContainsAt(t: string, s: string)
    ensures Contains(t, s) <==> exists i :: OccursAt(t, s, i)
  {
    if s == [] {
      if Contains(t, s) {
        assert OccursAt(t, s, 0);
      }
    } else {
      ContainsAt(t, s[1..]);
      if Contains(t, s) {
        if IsPrefix(t, s) {
          assert OccursAt(t, s, 0);
        } else {
          var i :| OccursAt(t, s[1..], i);
          assert s[i + 1..i + 1 + |t|] == s[1..][i..i + |t|];
          assert OccursAt(t, s, i + 1);
        }
      }
      if exists i :: OccursAt(t, s, i) {
        var i :| OccursAt(t, s, i);
        if i == 0 {
          assert IsPrefix(t, s);
        } else {
          assert s[1..][i - 1..i - 1 + |t|] == s[i..i + |t|];
          assert OccursAt(t, s[1..], i - 1);
        }
      }
    }
  }
}
