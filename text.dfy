/** The three Python string operations the core relies on: `str.strip()`,
    `str.split(sep)` with a one-character separator, and `sep.join(parts)`.
    Python strings are sequences of code points, as Dafny strings are. */
module Text {

  /** `c.isspace()` in Python 3: the characters of Unicode category Zs and
      the characters whose bidirectional class is WS, B or S. */
  predicate IsSpace(c: char) {
    ('\t' <= c <= '\r') || ('\U{1C}' <= c <= '\U{1F}') || c == ' ' ||
    c == '\U{85}' || c == '\U{A0}' || c == '\U{1680}' ||
    ('\U{2000}' <= c <= '\U{200A}') || c == '\U{2028}' || c == '\U{2029}' ||
    c == '\U{202F}' || c == '\U{205F}' || c == '\U{3000}'
  }

  /** The whitespace characters of Python 3 listed one by one: the ASCII
      controls HT, LF, VT, FF, CR and FS, GS, RS, US; the space; NEL; and the
      Unicode spaces and separators. */
  const PythonWhitespace: set<char> := {
    '\t', '\n', '\U{0B}', '\U{0C}', '\r', '\U{1C}', '\U{1D}', '\U{1E}', '\U{1F}', ' ',
    '\U{85}', '\U{A0}', '\U{1680}',
    '\U{2000}', '\U{2001}', '\U{2002}', '\U{2003}', '\U{2004}', '\U{2005}',
    '\U{2006}', '\U{2007}', '\U{2008}', '\U{2009}', '\U{200A}',
    '\U{2028}', '\U{2029}', '\U{202F}', '\U{205F}', '\U{3000}'}

  /** `IsSpace` holds for exactly the 29 listed characters. */
  lemma IsSpaceIsPythonWhitespace(c: char)
    ensures IsSpace(c) <==> c in PythonWhitespace
  {
    if '\U{2000}' <= c <= '\U{200A}' {
      assert c as int - 0x2000 in {0, 1, 2, 3, 4, 5, 6, 7, 8, 9, 10};
    }
  }

  predicate AllSpace(s: string) {
    forall i :: 0 <= i < |s| ==> IsSpace(s[i])
  }

  /** Neither begins nor ends with whitespace. */
  predicate IsStripped(s: string) {
    s == [] || (!IsSpace(s[0]) && !IsSpace(s[|s| - 1]))
  }

  /** `s.lstrip()`: the longest suffix of `s` that does not begin with whitespace. */
  function TrimStart(s: string): (r: string)
    ensures |r| <= |s| && r == s[|s| - |r|..]
    ensures r == [] || !IsSpace(r[0])
  {
    if s != [] && IsSpace(s[0]) then TrimStart(s[1..]) else s
  }

  /** `s.rstrip()`: the longest prefix of `s` that does not end with whitespace. */
  function TrimEnd(s: string): (r: string)
    ensures |r| <= |s| && r == s[..|r|]
    ensures r == [] || !IsSpace(r[|r| - 1])
  {
    if s != [] && IsSpace(s[|s| - 1]) then
      var init := s[..|s| - 1];
      var r := TrimEnd(init);
      assert r == init[..|r|] == s[..|r|];
      r
    else
      s
  }

  /** What `TrimStart` removes is whitespace. */
  lemma {:induction false} TrimStartRemovesSpace(s: string)
    ensures AllSpace(s[..|s| - |TrimStart(s)|])
  {
    if s != [] && IsSpace(s[0]) {
      var r := TrimStart(s[1..]);
      TrimStartRemovesSpace(s[1..]);
      assert s[..|s| - |r|] == [s[0]] + s[1..][..|s| - 1 - |r|];
    }
  }

  /** What `TrimEnd` removes is whitespace. */
  lemma {:induction false} TrimEndRemovesSpace(s: string)
    ensures AllSpace(s[|TrimEnd(s)|..])
  {
    if s != [] && IsSpace(s[|s| - 1]) {
      var init := s[..|s| - 1];
      var r := TrimEnd(init);
      TrimEndRemovesSpace(init);
      assert s[|r|..] == init[|r|..] + [s[|s| - 1]];
    }
  }

  /** `s.strip()`: `s` without its leading and trailing whitespace. */
  function Strip(s: string): (r: string)
    ensures IsStripped(r) && |r| <= |s|
  {
    TrimEnd(TrimStart(s))
  }

  /** What `Strip` returns is a slice of `s` with only whitespace on either
      side of it (`StripUnique` shows that these facts determine it). */
  lemma StripCutsOnlySpace(s: string)
    ensures var r := Strip(s);
            exists i :: 0 <= i <= |s| - |r| && s[i..i + |r|] == r &&
                        AllSpace(s[..i]) && AllSpace(s[i + |r|..])
  {
    var t := TrimStart(s);
    var r := TrimEnd(t);
    var i := |s| - |t|;
    TrimStartRemovesSpace(s);
    TrimEndRemovesSpace(t);
    assert t == s[i..];
    assert s[i..i + |r|] == r;
    assert s[i + |r|..] == t[|r|..];
  }

  /** `TrimStart` removes exactly the whitespace before the first other
      character. */
  lemma {:induction false} TrimStartAt(s: string, i: nat)
    requires i <= |s|
    requires forall n :: 0 <= n < i ==> IsSpace(s[n])
    requires i < |s| ==> !IsSpace(s[i])
    ensures TrimStart(s) == s[i..]
  {
    if i > 0 {
      assert IsSpace(s[0]);
      forall n | 0 <= n < i - 1 ensures IsSpace(s[1..][n]) {
        assert s[1..][n] == s[n + 1];
      }
      TrimStartAt(s[1..], i - 1);
      assert s[1..][i - 1..] == s[i..];
    }
  }

  /** `TrimEnd` removes exactly the whitespace after the last other
      character, here of the suffix `s[i..]`. */
  lemma {:induction false} TrimEndAt(s: string, i: nat, m: nat)
    requires i <= m <= |s|
    requires forall n :: m <= n < |s| ==> IsSpace(s[n])
    requires m > i ==> !IsSpace(s[m - 1])
    ensures TrimEnd(s[i..]) == s[i..m]
  {
    if m < |s| {
      var init := s[..|s| - 1];
      assert s[i..][..|s| - i - 1] == init[i..];
      assert IsSpace(s[i..][|s| - i - 1]);
      TrimEndAt(init, i, m);
      assert init[i..m] == s[i..m];
    } else {
      assert s[i..m] == s[i..];
    }
  }

  /** Whatever slice of `s` is cut out by whitespace on both sides and
      neither begins nor ends with whitespace is what `Strip` returns. */
  lemma StripUnique(s: string, i: nat, j: nat)
    requires i <= j <= |s|
    requires AllSpace(s[..i]) && AllSpace(s[j..]) && IsStripped(s[i..j])
    ensures Strip(s) == s[i..j]
  {
    SpaceBefore(s, i);
    SpaceFrom(s, j);
    if i < j {
      assert s[i] == s[i..j][0] && s[j - 1] == s[i..j][j - 1 - i];
      StripBetween(s, i, j);
    } else {
      TrimStartAt(s, |s|);
    }
  }

  /** `AllSpace` of a prefix, element by element. */
  lemma SpaceBefore(s: string, i: nat)
    requires i <= |s| && AllSpace(s[..i])
    ensures forall n :: 0 <= n < i ==> IsSpace(s[n])
  {
    forall n | 0 <= n < i ensures IsSpace(s[n]) {
      assert s[..i][n] == s[n];
    }
  }

  /** `AllSpace` of a suffix, element by element. */
  lemma SpaceFrom(s: string, j: nat)
    requires j <= |s| && AllSpace(s[j..])
    ensures forall n :: j <= n < |s| ==> IsSpace(s[n])
  {
    forall n | j <= n < |s| ensures IsSpace(s[n]) {
      assert s[j..][n - j] == s[n];
    }
  }

  /** The non-empty case of `StripUnique`, on single characters. */
  lemma StripBetween(s: string, i: nat, j: nat)
    requires i < j <= |s|
    requires forall n :: 0 <= n < i ==> IsSpace(s[n])
    requires forall n :: j <= n < |s| ==> IsSpace(s[n])
    requires !IsSpace(s[i]) && !IsSpace(s[j - 1])
    ensures Strip(s) == s[i..j]
  {
    TrimStartAt(s, i);
    TrimEndAt(s, i, j);
  }

  /** Removing whitespace that is already absent changes nothing. */
  lemma StripStripped(s: string)
    requires IsStripped(s)
    ensures Strip(s) == s
  {
    StripUnique(s, 0, |s|);
  }

  /** One leading space is removed by `Strip`. */
  lemma StripSpacePrefixed(s: string)
    requires IsStripped(s)
    ensures Strip(" " + s) == s
  {
    var t := " " + s;
    assert t[1..] == s && t[1..|t|] == s && t[|t|..] == [];
    StripUnique(t, 1, |t|);
  }

  /** Number of occurrences of `c` in `s`. */
  function Count(s: string, c: char): nat {
    if s == [] then 0 else (if s[0] == c then 1 else 0) + Count(s[1..], c)
  }

  /** `s.split(sep)` for a one-character separator: the pieces between
      consecutive separators, one more piece than there are separators,
      empty pieces included, none containing the separator. */
  function Split(s: string, sep: char): (parts: seq<string>)
    ensures |parts| == Count(s, sep) + 1
    ensures forall p :: p in parts ==> sep !in p
  {
    if s == [] then [""]
    else
      var rest := Split(s[1..], sep);
      if s[0] == sep then [""] + rest
      else [[s[0]] + rest[0]] + rest[1..]
  }

  /** `sep.join(parts)`. */
  function Join(parts: seq<string>, sep: string): (r: string)
    ensures |parts| == 0 ==> r == ""
    ensures |parts| == 1 ==> r == parts[0]
  {
    if |parts| == 0 then ""
    else if |parts| == 1 then parts[0]
    else parts[0] + sep + Join(parts[1..], sep)
  }

  /** Joining the pieces of a split with the same separator gives back the
      string: the pieces are `s` cut at every separator, in order. */
  lemma {:induction false} JoinSplit(s: string, sep: char)
    ensures Join(Split(s, sep), [sep]) == s
  {
    if s != [] {
      var rest := Split(s[1..], sep);
      JoinSplit(s[1..], sep);
      if s[0] == sep {
        assert Split(s, sep) == [""] + rest;
        assert ([""] + rest)[1..] == rest;
      } else {
        if |rest| > 1 {
          assert rest == [rest[0]] + rest[1..];
          assert Join(rest, [sep]) == rest[0] + [sep] + Join(rest[1..], [sep]);
        }
        assert s == [s[0]] + s[1..];
      }
    }
  }

  lemma {:induction false} SplitNoSeparator(s: string, sep: char)
    requires sep !in s
    ensures Split(s, sep) == [s]
  {
    if s != [] {
      assert sep !in s[1..] by { assert forall x :: x in s[1..] ==> x in s; }
      SplitNoSeparator(s[1..], sep);
      assert s == [s[0]] + s[1..];
    }
  }

  lemma {:induction false} SplitAtFirstSeparator(a: string, sep: char, b: string)
    requires sep !in a
    ensures Split(a + [sep] + b, sep) == [a] + Split(b, sep)
  {
    if a == [] {
      assert [sep] + b == a + [sep] + b;
      assert ([sep] + b)[1..] == b;
    } else {
      assert sep !in a[1..] by { assert forall x :: x in a[1..] ==> x in a; }
      SplitAtFirstSeparator(a[1..], sep, b);
      assert (a + [sep] + b)[1..] == a[1..] + [sep] + b;
      assert [a[0]] + a[1..] == a;
    }
  }

  /** Splitting a join gives back the parts, provided there is at least one
      and none contains the separator. */
  lemma {:induction false} SplitJoin(parts: seq<string>, sep: char)
    requires |parts| > 0
    requires forall p :: p in parts ==> sep !in p
    ensures Split(Join(parts, [sep]), sep) == parts
  {
    if |parts| == 1 {
      SplitNoSeparator(parts[0], sep);
    } else {
      assert forall p :: p in parts[1..] ==> p in parts;
      SplitJoin(parts[1..], sep);
      SplitAtFirstSeparator(parts[0], sep, Join(parts[1..], [sep]));
      assert parts == [parts[0]] + parts[1..];
    }
  }

  /** `Strip` applied to each element. */
  function StripEach(parts: seq<string>): (r: seq<string>)
    ensures |r| == |parts|
    ensures forall i :: 0 <= i < |r| ==> r[i] == Strip(parts[i])
  {
    seq(|parts|, i requires 0 <= i < |parts| => Strip(parts[i]))
  }

  /** Every part but the first with one space in front: what joining with
      ", " puts between commas. */
  function SpaceAfterComma(parts: seq<string>): (r: seq<string>)
    requires |parts| > 0
    ensures |r| == |parts| && r[0] == parts[0]
    ensures forall i :: 0 < i < |r| ==> r[i] == " " + parts[i]
  {
    [parts[0]] + seq(|parts| - 1, i requires 0 <= i < |parts| - 1 => " " + parts[i + 1])
  }

  lemma {:induction false} JoinCommaSpace(parts: seq<string>)
    requires |parts| > 0
    ensures Join(parts, ", ") == Join(SpaceAfterComma(parts), ",")
  {
    if |parts| > 1 {
      JoinCommaSpace(parts[1..]);
      var tail := SpaceAfterComma(parts[1..]);
      var whole := SpaceAfterComma(parts);
      assert whole[1..] == [" " + tail[0]] + tail[1..];
      assert Join(whole, ",") == parts[0] + "," + Join(whole[1..], ",");
      if |parts| == 2 {
        assert Join(whole[1..], ",") == " " + parts[1];
      } else {
        assert Join(whole[1..], ",") == " " + tail[0] + "," + Join(tail[1..], ",");
        assert Join(tail, ",") == tail[0] + "," + Join(tail[1..], ",");
      }
    }
  }

  lemma SpaceAfterCommaKeepsCommaFree(parts: seq<string>)
    requires |parts| > 0
    requires forall p :: p in parts ==> ',' !in p
    ensures forall p :: p in SpaceAfterComma(parts) ==> ',' !in p
  {
    var spaced := SpaceAfterComma(parts);
    forall k | 0 <= k < |spaced| ensures ',' !in spaced[k] {
      assert parts[k] in parts;
    }
  }

  lemma StripEachUndoesSpaceAfterComma(parts: seq<string>)
    requires |parts| > 0
    requires forall p :: p in parts ==> IsStripped(p)
    ensures StripEach(SpaceAfterComma(parts)) == parts
  {
    var spaced := SpaceAfterComma(parts);
    var r := StripEach(spaced);
    forall k | 0 <= k < |parts| ensures r[k] == parts[k] {
      assert parts[k] in parts;
      if k == 0 {
        StripStripped(parts[0]);
      } else {
        StripSpacePrefixed(parts[k]);
      }
    }
  }

  /** A list of comma-free, stripped names joined with ", " is read back by
      splitting at the commas and stripping each piece. */
  lemma SplitStripInvertsJoin(parts: seq<string>)
    requires |parts| > 0
    requires forall p :: p in parts ==> ',' !in p && IsStripped(p)
    ensures StripEach(Split(Join(parts, ", "), ',')) == parts
  {
    JoinCommaSpace(parts);
    SpaceAfterCommaKeepsCommaFree(parts);
    SplitJoin(SpaceAfterComma(parts), ',');
    StripEachUndoesSpaceAfterComma(parts);
  }
}
