/**
 * The JavaScript string operations the pages rely on, with ECMAScript
 * semantics: truthiness, the `\s` class and `trim()`, `split(" ")`,
 * `split(/\s+/)`, `join`, `startsWith`, `includes`, `slice(0, n)`, ASCII
 * `toLowerCase`, and the decimal rendering of a non-negative number.
 */
module JsText {
  import opened Wrappers

  /** JavaScript truthiness of an optional string: present and non-empty. */
  predicate Truthy(o: Option<string>) {
    o.Some? && |o.value| > 0
  }

  /** `o || default` for an optional string. */
  function OrElse(o: Option<string>, default: string): string {
    if Truthy(o) then o.value else default
  }

  /** How a template literal prints an optional string: the text itself, or
      the word JavaScript prints for the missing value. */
  function Slot(o: Option<string>, missing: string): (t: string)
    ensures o.Some? ==> t == o.value
    ensures o.None? ==> t == missing
  {
    match o
    case Some(v) => v
    case None => missing
  }

  /** `${base}${value}` for a nullable value: always starts with the base,
      and a `null` value prints as "null". */
  function Interpolate(base: string, value: Option<string>): (url: string)
    ensures base <= url
    ensures value.Some? ==> url == base + value.value
    ensures value.None? ==> url == base + "null"
  {
    base + Slot(value, "null")
  }

  /** `value ? `${base}${value}` : null`: a URL exactly when the value is
      truthy. */
  function PrefixIfTruthy(base: string, value: Option<string>): (url: Option<string>)
    ensures url.None? <==> !Truthy(value)
    ensures url.Some? ==> url.value == base + value.value
  {
    if Truthy(value) then Some(base + value.value) else None
  }

  /** ECMAScript WhiteSpace and LineTerminator code points: the `\s` class,
      and what `trim()` removes. */
  predicate IsSpace(c: char) {
    || c == '\t' || c == '\n' || c == '\U{B}' || c == '\U{C}' || c == '\r' || c == ' '
    || c == '\U{A0}' || c == '\U{1680}' || ('\U{2000}' <= c <= '\U{200A}')
    || c == '\U{2028}' || c == '\U{2029}' || c == '\U{202F}' || c == '\U{205F}'
    || c == '\U{3000}' || c == '\U{FEFF}'
  }

  /** True when every character of `s` is white space (vacuously for ""). */
  predicate Blank(s: string) {
    forall i :: 0 <= i < |s| ==> IsSpace(s[i])
  }

  /** Removes leading white space: the result is a suffix of `s`. */
  function TrimStart(s: string): (r: string)
    ensures |r| <= |s| && r == s[|s| - |r|..]
    ensures Blank(s[..|s| - |r|])
    ensures |r| > 0 ==> !IsSpace(r[0])
  {
    if |s| > 0 && IsSpace(s[0]) then TrimStart(s[1..]) else s
  }

  /** Removes trailing white space: the result is a prefix of `s`. */
  function TrimEnd(s: string): (r: string)
    ensures |r| <= |s| && r == s[..|r|]
    ensures Blank(s[|r|..])
    ensures |r| > 0 ==> !IsSpace(r[|r| - 1])
  {
    if |s| > 0 && IsSpace(s[|s| - 1]) then TrimEnd(s[..|s| - 1]) else s
  }

  /** `s.trim()`: the middle slice of `s` left once the white space at both
      ends is removed (`TrimCutsOnlyBlanks`); empty exactly when `s` is blank. */
  function Trim(s: string): (r: string)
    ensures |r| <= |s|
    ensures exists i :: OccursAt(s, r, i)
    ensures |r| > 0 ==> !IsSpace(r[0]) && !IsSpace(r[|r| - 1])
    ensures r == "" <==> Blank(s)
  {
    var t := TrimStart(s);
    var r := TrimEnd(t);
    TrimSlices(s, t, r);
    r
  }

  /** If `t` is `s` less a blank head and `r` is `t` less a blank tail, then
      `r` sits in `s` between two blank runs, and `r` is empty exactly when
      `s` is blank (given that a non-empty `r` does not start with a space). */
  lemma TrimSlices(s: string, t: string, r: string)
    requires |t| <= |s| && t == s[|s| - |t|..] && Blank(s[..|s| - |t|])
    requires |r| <= |t| && r == t[..|r|] && Blank(t[|r|..])
    requires |r| > 0 ==> !IsSpace(r[0])
    ensures OccursAt(s, r, |s| - |t|)
    ensures Blank(s[..|s| - |t|]) && Blank(s[|s| - |t| + |r|..])
    ensures r == "" <==> Blank(s)
  {
    var k := |s| - |t|;
    assert s[k + |r|..] == t[|r|..];
    if r == "" {
      forall i | 0 <= i < |s|
        ensures IsSpace(s[i])
      {
        if i < k {
          assert s[i] == s[..k][i];
        } else {
          assert s[i] == t[i - k];
        }
      }
    } else {
      assert s[k] == r[0];
    }
  }

  /** `trim()` removes only white space: what it cuts off at each end of `s`
      is blank. */
  lemma TrimCutsOnlyBlanks(s: string)
    ensures var i := LeadingBlanks(s); OccursAt(s, Trim(s), i) && Blank(s[..i]) && Blank(s[i + |Trim(s)|..])
  {
    var t := TrimStart(s);
    var r := TrimEnd(t);
    TrimSlices(s, t, r);
    assert OccursAt(s, r, |s| - |t|) && Blank(s[..|s| - |t|]) && Blank(s[|s| - |t| + |r|..]);
  }

  /** Trim is pinned by its contract: a slice of `s` between two blank runs
      that neither starts nor ends with white space is `s.trim()`. */
  lemma TrimUnique(s: string, r: string, i: int)
    requires OccursAt(s, r, i) && Blank(s[..i]) && Blank(s[i + |r|..])
    requires |r| > 0 ==> !IsSpace(r[0]) && !IsSpace(r[|r| - 1])
    ensures r == Trim(s)
  {
    TrimCutsOnlyBlanks(s);
    FramedAgree(s, r, i, Trim(s), LeadingBlanks(s));
  }

  /** Of two slices of `s` framed by blank runs, with no white space at
      either end, the second empty exactly when `s` is blank, the first is
      the second. */
  lemma FramedAgree(s: string, r: string, i: int, u: string, j: int)
    requires OccursAt(s, r, i) && Blank(s[..i]) && Blank(s[i + |r|..])
    requires |r| > 0 ==> !IsSpace(r[0]) && !IsSpace(r[|r| - 1])
    requires OccursAt(s, u, j) && Blank(s[..j]) && Blank(s[j + |u|..])
    requires |u| > 0 ==> !IsSpace(u[0]) && !IsSpace(u[|u| - 1])
    requires u == "" <==> Blank(s)
    ensures r == u
  {
    if r == "" {
      FramedEmptyIsBlank(s, i);
    } else {
      FramedSlicesAgree(s, r, i, u, j);
    }
  }

  /** Two blank runs meeting at `i` make all of `s` blank. */
  lemma FramedEmptyIsBlank(s: string, i: int)
    requires 0 <= i <= |s| && Blank(s[..i]) && Blank(s[i..])
    ensures Blank(s)
  {
    forall k | 0 <= k < |s|
      ensures IsSpace(s[k])
    {
      if k < i {
        assert s[k] == s[..i][k];
      } else {
        assert s[k] == s[i..][k - i];
      }
    }
  }

  /** Two non-empty slices of `s`, each framed by blank runs and each
      starting and ending with a non-space character, are the same slice. */
  lemma FramedSlicesAgree(s: string, r: string, i: int, u: string, j: int)
    requires OccursAt(s, r, i) && Blank(s[..i]) && Blank(s[i + |r|..])
    requires OccursAt(s, u, j) && Blank(s[..j]) && Blank(s[j + |u|..])
    requires |r| > 0 && !IsSpace(r[0]) && !IsSpace(r[|r| - 1])
    requires |u| > 0 && !IsSpace(u[0]) && !IsSpace(u[|u| - 1])
    ensures r == u
  {
  }

  /** The number of white-space characters at the start of `s`. */
  function LeadingBlanks(s: string): (k: nat)
    ensures k <= |s|
    ensures Blank(s[..k]) && (k < |s| ==> !IsSpace(s[k]))
  {
    |s| - |TrimStart(s)|
  }

  /** Trimming an already trimmed string changes nothing. */
  lemma TrimIdempotent(s: string)
    ensures Trim(Trim(s)) == Trim(s)
  {
    var t := Trim(s);
    if |t| > 0 {
      assert TrimStart(t) == t;
      assert TrimEnd(t) == t;
    }
  }

  /** `s.startsWith(p)` */
  predicate StartsWith(s: string, p: string) {
    |p| <= |s| && s[..|p|] == p
  }

  /** `sub` occurs in `s` starting at position `i`. */
  predicate OccursAt(s: string, sub: string, i: int) {
    0 <= i <= |s| - |sub| && s[i..i + |sub|] == sub
  }

  /** `s.includes(sub)`: `sub` occurs at some position of `s`. */
  predicate Includes(s: string, sub: string) {
    exists i :: 0 <= i <= |s| - |sub| && OccursAt(s, sub, i)
  }

  /** Every string includes the empty string. */
  lemma IncludesEmpty(s: string)
    ensures Includes(s, "")
  {
    assert OccursAt(s, "", 0);
  }

  function Min(a: int, b: int): int {
    if a < b then a else b
  }

  /** Concatenation regroups freely. */
  lemma AppendAssoc(x: string, y: string, z: string)
    ensures x + (y + z) == x + y + z
  {
  }

  /** `s.slice(0, n)` (and `s.substring(0, n)`) for a non-negative `n`. */
  function Prefix(s: string, n: nat): (r: string)
    ensures |r| == if n < |s| then n else |s|
    ensures r <= s
    ensures r == s[..Min(n, |s|)]
  {
    if n < |s| then s[..n] else s
  }

  /** ASCII lower-casing of one character. */
  function LowerChar(c: char): (d: char)
    ensures 'A' <= c <= 'Z' ==> 'a' <= d <= 'z' && d as int == c as int + 32
    ensures !('A' <= c <= 'Z') ==> d == c
  {
    if 'A' <= c <= 'Z' then (c as int + 32) as char else c
  }

  /** `s.toLowerCase()` restricted to ASCII letters. */
  function Lower(s: string): (r: string)
    ensures |r| == |s|
    ensures forall i :: 0 <= i < |s| ==> r[i] == LowerChar(s[i])
    ensures forall i :: 0 <= i < |s| && 'A' <= s[i] <= 'Z' ==> r[i] as int == s[i] as int + 32
    ensures forall i :: 0 <= i < |s| && !('A' <= s[i] <= 'Z') ==> r[i] == s[i]
  {
    seq(|s|, i requires 0 <= i < |s| => LowerChar(s[i]))
  }

  // ---------------------------------------------------------------------
  // split(" ") and join(" ")

  /** `s.split(sep)` for a one-character separator: the maximal runs between
      separators, including empty ones; never an empty list. */
  function SplitOn(s: string, sep: char): (parts: seq<string>)
    ensures |parts| >= 1
    ensures forall i :: 0 <= i < |parts| ==> sep !in parts[i]
    decreases |s|
  {
    if |s| == 0 then [""]
    else
      var rest := SplitOn(s[1..], sep);
      if s[0] == sep then [""] + rest
      else [[s[0]] + rest[0]] + rest[1..]
  }

  /** `parts.join(sep)` */
  function Join(parts: seq<string>, sep: char): string
    decreases |parts|
  {
    if |parts| == 0 then ""
    else if |parts| == 1 then parts[0]
    else parts[0] + [sep] + Join(parts[1..], sep)
  }

  /** Splitting and joining on the same separator gives back the string. */
  lemma {:induction false} JoinSplit(s: string, sep: char)
    ensures Join(SplitOn(s, sep), sep) == s
    decreases |s|
  {
    if |s| > 0 {
      var rest := SplitOn(s[1..], sep);
      JoinSplit(s[1..], sep);
      if s[0] == sep {
        assert SplitOn(s, sep) == [""] + rest;
        assert ([""] + rest)[1..] == rest;
        assert s == [sep] + s[1..];
      } else {
        var parts := [[s[0]] + rest[0]] + rest[1..];
        if |rest| == 1 {
          assert Join(rest, sep) == rest[0];
        } else {
          assert Join(rest, sep) == rest[0] + [sep] + Join(rest[1..], sep);
          assert parts[1..] == rest[1..];
        }
        assert s == [s[0]] + s[1..];
      }
    }
  }

  /** The first field of `s.split(sep)` is the prefix of `s` up to the first
      separator: it is a prefix of `s`, and it is all of `s` or is followed
      by `sep`. */
  lemma {:induction false} FirstFieldIsPrefix(s: string, sep: char)
    ensures SplitOn(s, sep)[0] <= s
    ensures var f := SplitOn(s, sep)[0]; |f| == |s| || s[|f|] == sep
    decreases |s|
  {
    if |s| > 0 && s[0] != sep {
      FirstFieldIsPrefix(s[1..], sep);
    }
  }

  /** A string without the separator splits into itself alone. */
  lemma {:induction false} SplitWithoutSeparator(s: string, sep: char)
    requires sep !in s
    ensures SplitOn(s, sep) == [s]
    decreases |s|
  {
    if |s| > 0 {
      SplitWithoutSeparator(s[1..], sep);
      assert s == [s[0]] + s[1..];
    }
  }

  /** The number of occurrences of `c` in `s`. */
  function CountChar(s: string, c: char): nat {
    if |s| == 0 then 0 else (if s[0] == c then 1 else 0) + CountChar(s[1..], c)
  }

  /** Occurrences add up over a concatenation. */
  lemma {:induction false} CountCharAppend(a: string, b: string, c: char)
    ensures CountChar(a + b, c) == CountChar(a, c) + CountChar(b, c)
    decreases |a|
  {
    if |a| == 0 {
      assert a + b == b;
    } else {
      assert (a + b)[1..] == a[1..] + b;
      CountCharAppend(a[1..], b, c);
    }
  }

  /** A string without `c` has no occurrence of it. */
  lemma {:induction false} CountCharAbsent(s: string, c: char)
    requires c !in s
    ensures CountChar(s, c) == 0
    decreases |s|
  {
    if |s| > 0 {
      assert c !in s[1..];
      CountCharAbsent(s[1..], c);
    }
  }

  /** Joining fields that do not contain the separator puts exactly one
      separator between neighbours. */
  lemma {:induction false} CountCharJoin(parts: seq<string>, sep: char)
    requires |parts| >= 1
    requires forall i :: 0 <= i < |parts| ==> sep !in parts[i]
    ensures CountChar(Join(parts, sep), sep) == |parts| - 1
    decreases |parts|
  {
    CountCharAbsent(parts[0], sep);
    if |parts| > 1 {
      assert forall i :: 0 <= i < |parts| - 1 ==> parts[1..][i] == parts[i + 1];
      CountCharJoin(parts[1..], sep);
      CountCharAppend(parts[0], [sep], sep);
      CountCharAppend(parts[0] + [sep], Join(parts[1..], sep), sep);
    }
  }

  /** When fields are left out, the kept ones are followed by a separator. */
  lemma {:induction false} JoinPrefixThenSeparator(parts: seq<string>, k: nat, sep: char)
    requires 0 < k < |parts|
    ensures Join(parts[..k], sep) + [sep] <= Join(parts, sep)
    decreases |parts|
  {
    var rest := Join(parts[1..], sep);
    assert Join(parts, sep) == parts[0] + [sep] + rest;
    if k == 1 {
      assert parts[..1] == [parts[0]];
    } else {
      JoinPrefixThenSeparator(parts[1..], k - 1, sep);
      assert parts[..k][1..] == parts[1..][..k - 1];
      var front := Join(parts[1..][..k - 1], sep);
      assert Join(parts[..k], sep) == parts[0] + [sep] + front;
      AppendAssoc(parts[0] + [sep], front, [sep]);
    }
  }

  /** `s.split(sep)` has one field more than `s` has separators. */
  lemma {:induction false} SplitOnCount(s: string, sep: char)
    ensures |SplitOn(s, sep)| == 1 + CountChar(s, sep)
    decreases |s|
  {
    if |s| > 0 {
      SplitOnCount(s[1..], sep);
    }
  }

  /** Joining the first `k` fields gives a prefix of joining them all. */
  lemma {:induction false} JoinPrefix(parts: seq<string>, k: nat, sep: char)
    requires k <= |parts|
    ensures Join(parts[..k], sep) <= Join(parts, sep)
    decreases |parts|
  {
    if 0 < k && |parts| > 1 {
      if k == 1 {
        assert parts[..1] == [parts[0]];
      } else {
        JoinPrefix(parts[1..], k - 1, sep);
        assert parts[..k][1..] == parts[1..][..k - 1];
      }
    }
  }

  /** The first field, then the separator and the rest joined, when there is
      more than one field. */
  lemma JoinCons(parts: seq<string>, sep: char)
    requires |parts| >= 2
    ensures Join(parts, sep) == parts[0] + [sep] + Join(parts[1..], sep)
  {
  }

  // ---------------------------------------------------------------------
  // split(/\s+/)

  /** Drops the white-space run at the front of `s`. */
  function DropSpaces(s: string): (r: string)
    ensures |r| <= |s| && r == s[|s| - |r|..]
    ensures |r| > 0 ==> !IsSpace(r[0])
  {
    if |s| > 0 && IsSpace(s[0]) then DropSpaces(s[1..]) else s
  }

  /** `s.split(/\s+/)`: the fields between maximal white-space runs. No field
      holds white space; there is always at least one field. */
  function SplitWs(s: string): (parts: seq<string>)
    ensures |parts| >= 1
    ensures forall i, j :: 0 <= i < |parts| && 0 <= j < |parts[i]| ==> !IsSpace(parts[i][j])
    decreases |s|
  {
    if |s| == 0 then [""]
    else if IsSpace(s[0]) then [""] + SplitWs(DropSpaces(s))
    else
      var rest := SplitWs(s[1..]);
      [[s[0]] + rest[0]] + rest[1..]
  }

  /** A string that neither starts nor ends with white space splits into
      non-empty words only. */
  lemma {:induction false} SplitWsWords(s: string)
    requires |s| > 0 && !IsSpace(s[0]) && !IsSpace(s[|s| - 1])
    ensures forall i :: 0 <= i < |SplitWs(s)| ==> |SplitWs(s)[i]| > 0
    decreases |s|
  {
    var rest := SplitWs(s[1..]);
    if |s| == 1 {
      assert rest == [""];
    } else if IsSpace(s[1]) {
      var d := DropSpaces(s[1..]);
      assert s[1..][0] == s[1];
      assert rest == [""] + SplitWs(d);
      assert |d| > 0 by {
        if |d| == 0 {
          BlankWhenDropsAll(s[1..]);
        }
      }
      assert d[|d| - 1] == s[|s| - 1];
      SplitWsWords(d);
    } else {
      assert s[1..][0] == s[1];
      assert s[1..][|s| - 2] == s[|s| - 1];
      SplitWsWords(s[1..]);
    }
  }

  /** When `DropSpaces` removes everything, the string was blank. */
  lemma {:induction false} BlankWhenDropsAll(s: string)
    requires DropSpaces(s) == ""
    ensures Blank(s)
    decreases |s|
  {
    if |s| > 0 {
      BlankWhenDropsAll(s[1..]);
    }
  }

  /** The number of words of `s`: the positions holding a non-space
      character that is first or follows white space. `afterSpace` says
      whether the character before `s` was white space (or absent). */
  function CountStarts(s: string, afterSpace: bool): nat
    decreases |s|
  {
    if |s| == 0 then 0
    else (if !IsSpace(s[0]) && afterSpace then 1 else 0) + CountStarts(s[1..], IsSpace(s[0]))
  }

  /** The words of `s`, counted from its start. */
  function WordsIn(s: string): nat {
    CountStarts(s, true)
  }

  /** Counting words of a concatenation: the second part continues from the
      last character of the first. */
  lemma {:induction false} CountStartsAppend(a: string, b: string, afterSpace: bool)
    ensures CountStarts(a + b, afterSpace)
         == CountStarts(a, afterSpace) + CountStarts(b, if |a| == 0 then afterSpace else IsSpace(a[|a| - 1]))
    decreases |a|
  {
    if |a| == 0 {
      assert a + b == b;
    } else {
      assert (a + b)[1..] == a[1..] + b;
      CountStartsAppend(a[1..], b, IsSpace(a[0]));
    }
  }

  /** White space holds no word. */
  lemma {:induction false} CountStartsBlank(s: string, afterSpace: bool)
    requires Blank(s)
    ensures CountStarts(s, afterSpace) == 0
    decreases |s|
  {
    if |s| > 0 {
      CountStartsBlank(s[1..], IsSpace(s[0]));
    }
  }

  /** A leading white-space run only sets the "after space" flag. */
  lemma {:induction false} CountStartsDropSpaces(s: string, afterSpace: bool)
    requires |s| > 0 && IsSpace(s[0])
    ensures CountStarts(s, afterSpace) == CountStarts(DropSpaces(s), true)
    decreases |s|
  {
    if |s| > 1 && IsSpace(s[1]) {
      CountStartsDropSpaces(s[1..], true);
    }
  }

  /** `split(/\s+/)` of a string with no trailing white space has one field
      more than the words that follow its first character. */
  lemma {:induction false} SplitWsCount(s: string)
    requires |s| == 0 || !IsSpace(s[|s| - 1])
    ensures |SplitWs(s)| == 1 + CountStarts(s, false)
    decreases |s|
  {
    if |s| > 0 {
      if IsSpace(s[0]) {
        var d := DropSpaces(s);
        assert |d| > 0 by {
          if |d| == 0 {
            BlankWhenDropsAll(s);
          }
        }
        assert d[|d| - 1] == s[|s| - 1];
        SplitWsCount(d);
        CountStartsDropSpaces(s, false);
      } else {
        assert s[1..] == [] || s[1..][|s[1..]| - 1] == s[|s| - 1];
        SplitWsCount(s[1..]);
      }
    }
  }

  /** Leading white space adds no word. */
  lemma StartTrimKeepsWords(s: string)
    ensures WordsIn(TrimStart(s)) == WordsIn(s)
  {
    var t := TrimStart(s);
    var pre := s[..|s| - |t|];
    assert s == pre + t;
    CountStartsAppend(pre, t, true);
    CountStartsBlank(pre, true);
    assert |pre| == 0 || IsSpace(pre[|pre| - 1]);
  }

  /** Trailing white space adds no word. */
  lemma EndTrimKeepsWords(t: string)
    ensures WordsIn(TrimEnd(t)) == WordsIn(t)
  {
    var r := TrimEnd(t);
    var suf := t[|r|..];
    assert t == r + suf;
    CountStartsAppend(r, suf, true);
    CountStartsBlank(suf, if |r| == 0 then true else IsSpace(r[|r| - 1]));
  }

  /** Trimming removes white space only, so it keeps every word. */
  lemma WordsSurviveTrim(s: string)
    ensures WordsIn(Trim(s)) == WordsIn(s)
  {
    StartTrimKeepsWords(s);
    EndTrimKeepsWords(TrimStart(s));
  }

  /** A string without white space at either end splits into as many fields
      as it has words. */
  lemma SplitWsOfTrimmed(r: string)
    requires |r| > 0 && !IsSpace(r[0]) && !IsSpace(r[|r| - 1])
    ensures |SplitWs(r)| == WordsIn(r)
  {
    SplitWsCount(r);
    assert CountStarts(r, true) == 1 + CountStarts(r[1..], false);
  }

  /** `s.trim().split(/\s+/).length` of a string with some non-space
      character is its number of words. */
  lemma WordCountOfTrim(s: string)
    requires !Blank(s)
    ensures |SplitWs(Trim(s))| == WordsIn(s)
  {
    WordsSurviveTrim(s);
    SplitWsOfTrimmed(Trim(s));
  }

  // ---------------------------------------------------------------------
  // Number to string

  function DigitChar(d: nat): (c: char)
    requires d < 10
    ensures '0' <= c <= '9' && c as int - '0' as int == d
  {
    ('0' as int + d) as char
  }

  predicate AllDigits(s: string) {
    forall i :: 0 <= i < |s| ==> '0' <= s[i] <= '9'
  }

  /** The decimal rendering of a non-negative integer (`String(n)`). */
  function Decimal(n: nat): (s: string)
    ensures |s| >= 1 && AllDigits(s)
    ensures |s| > 1 ==> s[0] != '0'
  {
    if n < 10 then [DigitChar(n)] else Decimal(n / 10) + [DigitChar(n % 10)]
  }

  /** Reads a string of decimal digits back as a number. */
  function ParseDecimal(s: string): nat
    requires AllDigits(s)
  {
    if |s| == 0 then 0
    else ParseDecimal(s[..|s| - 1]) * 10 + (s[|s| - 1] as int - '0' as int)
  }

  /** Rendering a number in decimal loses nothing: parsing gives it back. */
  lemma {:induction false} DecimalRoundTrip(n: nat)
    ensures ParseDecimal(Decimal(n)) == n
  {
    if n >= 10 {
      DecimalRoundTrip(n / 10);
      var s := Decimal(n);
      assert s[..|s| - 1] == Decimal(n / 10);
    }
  }
}
