/** The string operations of JavaScript that the services rely on, over
    `string` (a sequence of Unicode scalar values): case mapping, canonical
    decomposition (NFD), removal of combining marks, `trim`, `split` and
    `includes`.

    Case mapping and decomposition cover ASCII and the Latin-1 letters
    (U+00C0–U+00FF, plus U+0178), which is what Spanish role names, drug names
    and exam codes use; every other character is left unchanged by them. */
module Text {

  // ---------------------------------------------------------------------
  // Characters

  /** The characters `String.prototype.trim` removes and `\s` matches. */
  predicate IsSpace(c: char) {
    c == ' ' || c == '\t' || c == '\n' || c == '\r' || c == '\U{000B}' || c == '\U{000C}'
    || c == '\U{00A0}' || c == '\U{1680}' || ('\U{2000}' <= c <= '\U{200A}')
    || c == '\U{2028}' || c == '\U{2029}' || c == '\U{202F}' || c == '\U{205F}'
    || c == '\U{3000}' || c == '\U{FEFF}'
  }

  /** A combining diacritical mark, U+0300–U+036F. */
  predicate IsMark(c: char) {
    '\U{0300}' <= c <= '\U{036F}'
  }

  function UpperChar(c: char): char {
    if 'a' <= c <= 'z' then (c as int - 32) as char
    else if '\U{00E0}' <= c <= '\U{00FE}' && c != '\U{00F7}' then (c as int - 32) as char
    else if c == '\U{00FF}' then '\U{0178}'
    else c
  }

  function LowerChar(c: char): char {
    if 'A' <= c <= 'Z' then (c as int + 32) as char
    else if '\U{00C0}' <= c <= '\U{00DE}' && c != '\U{00D7}' then (c as int + 32) as char
    else if c == '\U{0178}' then '\U{00FF}'
    else c
  }

  const Marks6: seq<char> := ['\U{0300}', '\U{0301}', '\U{0302}', '\U{0303}', '\U{0308}', '\U{030A}']
  const Marks5: seq<char> := ['\U{0300}', '\U{0301}', '\U{0302}', '\U{0303}', '\U{0308}']
  const Marks4: seq<char> := ['\U{0300}', '\U{0301}', '\U{0302}', '\U{0308}']

  /** Canonical decomposition of an upper-case Latin-1 letter given by its
      code point `u`, or [] when it has none. */
  function DecomposeUpper(u: int): seq<char> {
    if 0xC0 <= u <= 0xC5 then ['A', Marks6[u - 0xC0]]
    else if u == 0xC7 then ['C', '\U{0327}']
    else if 0xC8 <= u <= 0xCB then ['E', Marks4[u - 0xC8]]
    else if 0xCC <= u <= 0xCF then ['I', Marks4[u - 0xCC]]
    else if u == 0xD1 then ['N', '\U{0303}']
    else if 0xD2 <= u <= 0xD6 then ['O', Marks5[u - 0xD2]]
    else if 0xD9 <= u <= 0xDC then ['U', Marks4[u - 0xD9]]
    else if u == 0xDD then ['Y', '\U{0301}']
    else if u == 0x178 then ['Y', '\U{0308}']
    else []
  }

  /** The NFD form of one character: a base letter followed by its mark, or
      the character itself. */
  function Decompose(c: char): (d: seq<char>)
    ensures 1 <= |d| <= 2
  {
    var lower := ('\U{00E0}' <= c <= '\U{00FE}') || c == '\U{00FF}';
    var u := if c == '\U{00FF}' then 0x178 else if lower then c as int - 32 else c as int;
    var d := DecomposeUpper(u);
    if d == [] then [c]
    else if lower then [LowerChar(d[0]), d[1]]
    else d
  }

  // ---------------------------------------------------------------------
  // Strings

  function Upper(s: string): (r: string)
    ensures |r| == |s|
    ensures forall i :: 0 <= i < |s| ==> r[i] == UpperChar(s[i])
  {
    if s == [] then [] else [UpperChar(s[0])] + Upper(s[1..])
  }

  lemma UpperCharIdempotent(c: char)
    ensures UpperChar(UpperChar(c)) == UpperChar(c)
  {
  }

  /** Upper-casing twice is upper-casing once. */
  lemma UpperIdempotent(s: string)
    ensures Upper(Upper(s)) == Upper(s)
  {
    forall i | 0 <= i < |s| ensures Upper(Upper(s))[i] == Upper(s)[i] {
      UpperCharIdempotent(s[i]);
    }
  }

  /** Upper-casing works character by character. */
  lemma UpperAppend(a: string, b: string)
    ensures Upper(a + b) == Upper(a) + Upper(b)
  {
    assert forall i :: 0 <= i < |a + b| ==> Upper(a + b)[i] == (Upper(a) + Upper(b))[i];
  }

  function Lower(s: string): (r: string)
    ensures |r| == |s|
    ensures forall i :: 0 <= i < |s| ==> r[i] == LowerChar(s[i])
  {
    if s == [] then [] else [LowerChar(s[0])] + Lower(s[1..])
  }

  /** `s.normalize('NFD')`, for the characters `Decompose` covers. */
  function Nfd(s: string): string {
    if s == [] then [] else Decompose(s[0]) + Nfd(s[1..])
  }

  /** `s.replace(/[\u0300-\u036f]/g, '')`: drops every combining mark. */
  function StripMarks(s: string): (r: string)
    ensures |r| <= |s|
    ensures forall i :: 0 <= i < |r| ==> !IsMark(r[i])
  {
    if s == [] then []
    else if IsMark(s[0]) then StripMarks(s[1..])
    else [s[0]] + StripMarks(s[1..])
  }

  function TrimStart(s: string): (r: string)
    ensures |r| <= |s|
    ensures r == [] || !IsSpace(r[0])
  {
    if |s| > 0 && IsSpace(s[0]) then TrimStart(s[1..]) else s
  }

  function TrimEnd(s: string): (r: string)
    ensures |r| <= |s|
    ensures r == [] || !IsSpace(r[|r| - 1])
  {
    if |s| > 0 && IsSpace(s[|s| - 1]) then TrimEnd(s[..|s| - 1]) else s
  }

  /** `TrimStart` drops a prefix. */
  lemma {:induction false} TrimStartIsSuffix(s: string)
    ensures TrimStart(s) == s[|s| - |TrimStart(s)|..]
  {
    if |s| > 0 && IsSpace(s[0]) {
      TrimStartIsSuffix(s[1..]);
    }
  }

  /** `TrimEnd` drops a suffix. */
  lemma {:induction false} TrimEndIsPrefix(s: string)
    ensures TrimEnd(s) == s[..|TrimEnd(s)|]
  {
    if |s| > 0 && IsSpace(s[|s| - 1]) {
      TrimEndIsPrefix(s[..|s| - 1]);
    }
  }

  /** Neither the first nor the last character is whitespace. */
  predicate IsTrimmed(s: string) {
    s == [] || (!IsSpace(s[0]) && !IsSpace(s[|s| - 1]))
  }

  /** `s.trim()`: the longest infix of `s` that neither starts nor ends
      with whitespace, obtained by dropping whitespace at both ends. */
  function Trim(s: string): (r: string)
    ensures |r| <= |s|
    ensures IsTrimmed(r)
  {
    TrimEndIsPrefix(TrimStart(s));
    TrimEnd(TrimStart(s))
  }

  /** Trimming only removes characters. */
  lemma TrimKeepsChars(s: string)
    ensures forall i :: 0 <= i < |Trim(s)| ==> Trim(s)[i] in s
  {
    var t := TrimStart(s);
    var r := TrimEnd(t);
    TrimStartIsSuffix(s);
    TrimEndIsPrefix(t);
    forall i | 0 <= i < |r| ensures r[i] in s {
      assert r[i] == t[i] == s[|s| - |t| + i];
    }
  }

  /** Removing marks only removes characters. */
  lemma {:induction false} StripMarksKeepsChars(s: string)
    ensures forall i :: 0 <= i < |StripMarks(s)| ==> StripMarks(s)[i] in s
  {
    if s != [] {
      StripMarksKeepsChars(s[1..]);
      var r := StripMarks(s);
      forall i | 0 <= i < |r| ensures r[i] in s {
        if !IsMark(s[0]) && i == 0 {
          assert r[0] == s[0];
        } else {
          var k := if IsMark(s[0]) then i else i - 1;
          assert r[i] == StripMarks(s[1..])[k];
          assert StripMarks(s[1..])[k] in s[1..];
        }
      }
    }
  }

  lemma TrimOfTrimmed(s: string)
    requires IsTrimmed(s)
    ensures Trim(s) == s
  {
  }

  /** Trimming twice is trimming once. */
  lemma TrimIdempotent(s: string)
    ensures Trim(Trim(s)) == Trim(s)
  {
    TrimOfTrimmed(Trim(s));
  }

  /** A blank appended to text keeps its first non-blank character. */
  lemma {:induction false} TrimStartAppendBlank(x: string)
    ensures TrimStart(x + " ") == if TrimStart(x) == [] then [] else TrimStart(x) + " "
  {
    if x == [] {
      assert x + " " == " " && " "[1..] == [];
    } else {
      assert (x + " ")[0] == x[0] && (x + " ")[1..] == x[1..] + " ";
      if IsSpace(x[0]) {
        TrimStartAppendBlank(x[1..]);
      }
    }
  }

  /** One blank on each side does not survive `trim`. */
  lemma TrimIgnoresPadding(x: string)
    ensures Trim(" " + x + " ") == Trim(x)
  {
    var y := x + " ";
    assert " " + x + " " == " " + y;
    assert (" " + y)[0] == ' ' && (" " + y)[1..] == y;
    assert TrimStart(" " + y) == TrimStart(y);
    TrimStartAppendBlank(x);
    var z := TrimStart(x);
    if z != [] {
      assert (z + " ")[|z + " "| - 1] == ' ' && (z + " ")[..|z|] == z;
      assert TrimEnd(z + " ") == TrimEnd(z);
    }
  }

  /** Decomposition works character by character. */
  lemma {:induction false} NfdAppend(a: string, b: string)
    ensures Nfd(a + b) == Nfd(a) + Nfd(b)
  {
    if a != [] {
      assert (a + b)[0] == a[0] && (a + b)[1..] == a[1..] + b;
      NfdAppend(a[1..], b);
    } else {
      assert a + b == b;
    }
  }

  /** Mark removal works character by character. */
  lemma {:induction false} StripMarksAppend(a: string, b: string)
    ensures StripMarks(a + b) == StripMarks(a) + StripMarks(b)
  {
    if a != [] {
      assert (a + b)[0] == a[0] && (a + b)[1..] == a[1..] + b;
      StripMarksAppend(a[1..], b);
    } else {
      assert a + b == b;
    }
  }

  /** `s.split(sep)` where `sep` matches any one character of `seps`:
      the pieces between separators, in order, possibly empty. */
  function Split(s: string, seps: set<char>): (parts: seq<string>)
    ensures |parts| >= 1
  {
    if s == [] then [[]]
    else
      var rest := Split(s[1..], seps);
      if s[0] in seps then [[]] + rest else [[s[0]] + rest[0]] + rest[1..]
  }

  predicate NoneOf(s: string, seps: set<char>) {
    forall i :: 0 <= i < |s| ==> s[i] !in seps
  }

  lemma {:induction false} SplitWithoutSeparator(a: string, seps: set<char>)
    requires NoneOf(a, seps)
    ensures Split(a, seps) == [a]
  {
    if a != [] {
      assert a[0] !in seps;
      SplitWithoutSeparator(a[1..], seps);
      assert [a[0]] + a[1..] == a;
    }
  }

  /** The first piece ends at the first separator. */
  lemma {:induction false} SplitAtSeparator(a: string, c: char, b: string, seps: set<char>)
    requires NoneOf(a, seps) && c in seps
    ensures Split(a + [c] + b, seps) == [a] + Split(b, seps)
  {
    if a == [] {
      assert a + [c] + b == [c] + b;
      assert ([c] + b)[1..] == b;
    } else {
      assert (a + [c] + b)[0] == a[0] && a[0] !in seps;
      assert (a + [c] + b)[1..] == a[1..] + [c] + b;
      SplitAtSeparator(a[1..], c, b, seps);
      assert [a[0]] + a[1..] == a;
    }
  }

  predicate StartsWith(s: string, k: string) {
    |k| <= |s| && s[..|k|] == k
  }

  /** `s.includes(k)`. */
  predicate Contains(s: string, k: string)
    decreases |s|
  {
    StartsWith(s, k) || (|s| > 0 && Contains(s[1..], k))
  }

  /** `k` occurs in `s` at index `i`. */
  predicate OccursAt(s: string, k: string, i: int) {
    0 <= i <= |s| - |k| && s[i..i + |k|] == k
  }

  lemma {:induction false} ContainsIffOccurs(s: string, k: string)
    ensures Contains(s, k) <==> exists i :: OccursAt(s, k, i)
    decreases |s|
  {
    if StartsWith(s, k) {
      assert OccursAt(s, k, 0);
    }
    if |s| > 0 {
      ContainsIffOccurs(s[1..], k);
      if exists i :: OccursAt(s, k, i) {
        var i :| OccursAt(s, k, i);
        if i > 0 {
          assert s[1..][i - 1..i - 1 + |k|] == s[i..i + |k|];
          assert OccursAt(s[1..], k, i - 1);
        } else {
          assert StartsWith(s, k);
        }
      }
      if exists i :: OccursAt(s[1..], k, i) {
        var i :| OccursAt(s[1..], k, i);
        assert s[i + 1..i + 1 + |k|] == s[1..][i..i + |k|];
        assert OccursAt(s, k, i + 1);
      }
    } else if exists i :: OccursAt(s, k, i) {
      var i :| OccursAt(s, k, i);
      assert k == [];
      assert StartsWith(s, k);
    }
  }

  /** A text contains any keyword of a list. */
  predicate ContainsAny(s: string, keywords: seq<string>) {
    exists i :: 0 <= i < |keywords| && Contains(s, keywords[i])
  }
}
