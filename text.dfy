/**
 * Python string operations used by the importers and helpers, on `seq<char>`.
 * Case mapping is the ASCII part of Python's `str.upper` / `str.lower`.
 */
module Text {

  import opened Common

  /** The characters Python's `str.isspace` (and `\s` in a `re` pattern) accepts. */
  predicate IsSpace(c: char)
  {
    c == ' ' || c == '\t' || c == '\n' || c == '\r' || c == '\U{000B}' || c == '\U{000C}'
    || ('\U{001C}' <= c <= '\U{001F}') || c == '\U{0085}' || c == '\U{00A0}' || c == '\U{1680}'
    || ('\U{2000}' <= c <= '\U{200A}') || c == '\U{2028}' || c == '\U{2029}' || c == '\U{202F}'
    || c == '\U{205F}' || c == '\U{3000}'
  }

  predicate NotSpace(c: char) { !IsSpace(c) }

  predicate IsDigit(c: char) { '0' <= c <= '9' }
  predicate IsUpperAscii(c: char) { 'A' <= c <= 'Z' }
  predicate IsLowerAscii(c: char) { 'a' <= c <= 'z' }
  predicate IsLowerAlnum(c: char) { IsLowerAscii(c) || IsDigit(c) }
  predicate IsUpperAlnum(c: char) { IsUpperAscii(c) || IsDigit(c) }
  predicate IsHexDigit(c: char) { IsDigit(c) || ('a' <= c <= 'f') || ('A' <= c <= 'F') }

  predicate AllDigits(s: string) { forall i :: 0 <= i < |s| ==> IsDigit(s[i]) }

  function UpperChar(c: char): char
  {
    if IsLowerAscii(c) then (c as int - 32) as char else c
  }

  function LowerChar(c: char): char
  {
    if IsUpperAscii(c) then (c as int + 32) as char else c
  }

  function Upper(s: string): (r: string)
    ensures |r| == |s|
    ensures forall i :: 0 <= i < |s| ==> r[i] == UpperChar(s[i])
  {
    if s == [] then [] else [UpperChar(s[0])] + Upper(s[1..])
  }

  function Lower(s: string): (r: string)
    ensures |r| == |s|
    ensures forall i :: 0 <= i < |s| ==> r[i] == LowerChar(s[i])
  {
    if s == [] then [] else [LowerChar(s[0])] + Lower(s[1..])
  }

  /** The characters `str.title` treats as cased, in its ASCII part. */
  predicate IsAsciiLetter(c: char) { IsUpperAscii(c) || IsLowerAscii(c) }

  /**
   * Python's `s.title()` on ASCII letters: a letter right after a letter is
   * lowered, any other letter is raised, and other characters stay.
   */
  function Title(s: string): (r: string)
    ensures |r| == |s|
    ensures forall i :: 0 <= i < |s| ==> (IsAsciiLetter(r[i]) <==> IsAsciiLetter(s[i])) && LowerChar(r[i]) == LowerChar(s[i])
    ensures forall i :: 0 < i < |s| && IsAsciiLetter(s[i - 1]) ==> !IsUpperAscii(r[i])
    ensures forall i :: 0 <= i < |s| && (i == 0 || !IsAsciiLetter(s[i - 1])) ==> !IsLowerAscii(r[i])
  {
    seq(|s|, i requires 0 <= i < |s| => if i > 0 && IsAsciiLetter(s[i - 1]) then LowerChar(s[i]) else UpperChar(s[i]))
  }

  /** Title-casing twice is title-casing once. */
  lemma TitleIdempotent(s: string)
    ensures Title(Title(s)) == Title(s)
  {
    var t := Title(s);
    forall i | 0 <= i < |s|
      ensures Title(t)[i] == t[i]
    {
      if i > 0 && IsAsciiLetter(s[i - 1]) {
        assert IsAsciiLetter(t[i - 1]);
        assert !IsUpperAscii(t[i]);
      } else {
        assert !IsLowerAscii(t[i]);
      }
    }
  }

  /** Drops leading whitespace. */
  function TrimLeftSpace(s: string): string
  {
    if s != [] && IsSpace(s[0]) then TrimLeftSpace(s[1..]) else s
  }

  /** Drops trailing whitespace. */
  function TrimRightSpace(s: string): string
  {
    if s != [] && IsSpace(s[|s| - 1]) then TrimRightSpace(s[..|s| - 1]) else s
  }

  /** Python's `s.strip()`. */
  function Strip(s: string): string
  {
    TrimRightSpace(TrimLeftSpace(s))
  }

  function TrimLeftChar(s: string, c: char): string
  {
    if s != [] && s[0] == c then TrimLeftChar(s[1..], c) else s
  }

  function TrimRightChar(s: string, c: char): string
  {
    if s != [] && s[|s| - 1] == c then TrimRightChar(s[..|s| - 1], c) else s
  }

  /** Python's `s.strip(c)` for a single character `c`. */
  function StripChar(s: string, c: char): string
  {
    TrimRightChar(TrimLeftChar(s, c), c)
  }

  lemma {:induction false} TrimLeftSpaceShape(s: string) returns (i: nat)
    ensures i <= |s| && TrimLeftSpace(s) == s[i..]
    ensures TrimLeftSpace(s) == [] || !IsSpace(TrimLeftSpace(s)[0])
    decreases |s|
  {
    if s != [] && IsSpace(s[0]) {
      var j := TrimLeftSpaceShape(s[1..]);
      i := j + 1;
      assert s[1..][j..] == s[i..];
    } else {
      i := 0;
    }
  }

  lemma {:induction false} TrimRightSpaceShape(s: string) returns (j: nat)
    ensures j <= |s| && TrimRightSpace(s) == s[..j]
    ensures TrimRightSpace(s) == [] || !IsSpace(TrimRightSpace(s)[|TrimRightSpace(s)| - 1])
    decreases |s|
  {
    if s != [] && IsSpace(s[|s| - 1]) {
      j := TrimRightSpaceShape(s[..|s| - 1]);
      assert s[..|s| - 1][..j] == s[..j];
    } else {
      j := |s|;
    }
  }

  /** `strip()` returns a slice of its input with no whitespace at either end. */
  lemma StripShape(s: string) returns (i: nat, j: nat)
    ensures i <= j <= |s| && Strip(s) == s[i..j]
    ensures Strip(s) == [] || (!IsSpace(Strip(s)[0]) && !IsSpace(Strip(s)[|Strip(s)| - 1]))
  {
    var l := TrimLeftSpace(s);
    i := TrimLeftSpaceShape(s);
    var k := TrimRightSpaceShape(l);
    j := i + k;
    assert s[i..][..k] == s[i..j];
    var r := Strip(s);
    if r != [] {
      assert r[0] == l[0];
    }
  }

  /** `strip()` leaves a string with no whitespace at either end unchanged. */
  lemma StripNoop(s: string)
    requires s == [] || (!IsSpace(s[0]) && !IsSpace(s[|s| - 1]))
    ensures Strip(s) == s
  {
  }

  lemma {:induction false} TrimLeftSpaceUpper(s: string)
    ensures TrimLeftSpace(Upper(s)) == Upper(TrimLeftSpace(s))
    decreases |s|
  {
    if s != [] {
      assert Upper(s)[1..] == Upper(s[1..]);
      if IsSpace(s[0]) {
        TrimLeftSpaceUpper(s[1..]);
      }
    }
  }

  lemma {:induction false} TrimRightSpaceUpper(s: string)
    ensures TrimRightSpace(Upper(s)) == Upper(TrimRightSpace(s))
    decreases |s|
  {
    if s != [] {
      assert Upper(s)[..|s| - 1] == Upper(s[..|s| - 1]);
      if IsSpace(s[|s| - 1]) {
        TrimRightSpaceUpper(s[..|s| - 1]);
      }
    }
  }

  /** Upper-casing does not move the whitespace `strip()` removes. */
  lemma StripUpper(s: string)
    ensures Strip(Upper(s)) == Upper(Strip(s))
  {
    TrimLeftSpaceUpper(s);
    TrimRightSpaceUpper(TrimLeftSpace(s));
  }

  /** Lower-casing forgets an earlier upper-casing. */
  lemma LowerUpper(s: string)
    ensures Lower(Upper(s)) == Lower(s)
  {
  }

  /** A word of ASCII capitals is its own `strip().upper()`. */
  lemma CapitalsClean(s: string)
    requires forall i :: 0 <= i < |s| ==> IsUpperAscii(s[i])
    ensures Upper(Strip(s)) == s
  {
    StripNoop(s);
    assert Upper(s) == s;
  }

  /** `strip()` is idempotent. */
  lemma StripIdempotent(s: string)
    ensures Strip(Strip(s)) == Strip(s)
  {
    var _, _ := StripShape(s);
    StripNoop(Strip(s));
  }

  lemma {:induction false} TrimLeftCharShape(s: string, c: char) returns (i: nat)
    ensures i <= |s| && TrimLeftChar(s, c) == s[i..]
    ensures TrimLeftChar(s, c) == [] || TrimLeftChar(s, c)[0] != c
    decreases |s|
  {
    if s != [] && s[0] == c {
      var j := TrimLeftCharShape(s[1..], c);
      i := j + 1;
      assert s[1..][j..] == s[i..];
    } else {
      i := 0;
    }
  }

  lemma {:induction false} TrimRightCharShape(s: string, c: char) returns (j: nat)
    ensures j <= |s| && TrimRightChar(s, c) == s[..j]
    ensures TrimRightChar(s, c) == [] || TrimRightChar(s, c)[|TrimRightChar(s, c)| - 1] != c
    decreases |s|
  {
    if s != [] && s[|s| - 1] == c {
      j := TrimRightCharShape(s[..|s| - 1], c);
      assert s[..|s| - 1][..j] == s[..j];
    } else {
      j := |s|;
    }
  }

  /** `strip(c)` returns a slice of its input with no `c` at either end. */
  lemma StripCharShape(s: string, c: char) returns (i: nat, j: nat)
    ensures i <= j <= |s| && StripChar(s, c) == s[i..j]
    ensures StripChar(s, c) == [] || (StripChar(s, c)[0] != c && StripChar(s, c)[|StripChar(s, c)| - 1] != c)
  {
    var l := TrimLeftChar(s, c);
    i := TrimLeftCharShape(s, c);
    var k := TrimRightCharShape(l, c);
    j := i + k;
    assert s[i..][..k] == s[i..j];
    var r := StripChar(s, c);
    if r != [] {
      assert r[0] == l[0];
    }
  }

  lemma StripCharNoop(s: string, c: char)
    requires s == [] || (s[0] != c && s[|s| - 1] != c)
    ensures StripChar(s, c) == s
  {
  }

  /** Is `sub` a substring of `s` (Python's `sub in s`)? */
  predicate Contains(s: string, sub: string)
    decreases |s|
  {
    if |sub| > |s| then false
    else if s[..|sub|] == sub then true
    else Contains(s[1..], sub)
  }

  lemma {:induction false} ContainsAt(s: string, sub: string, i: nat)
    requires i + |sub| <= |s| && s[i..i + |sub|] == sub
    ensures Contains(s, sub)
    decreases i
  {
    if s[..|sub|] != sub {
      assert i > 0;
      assert s[1..][i - 1..i - 1 + |sub|] == sub;
      ContainsAt(s[1..], sub, i - 1);
    }
  }

  lemma {:induction false} ContainsWitness(s: string, sub: string) returns (i: nat)
    requires Contains(s, sub)
    ensures i + |sub| <= |s| && s[i..i + |sub|] == sub
    decreases |s|
  {
    if s[..|sub|] == sub {
      i := 0;
    } else {
      var j := ContainsWitness(s[1..], sub);
      i := j + 1;
      assert s[i..i + |sub|] == s[1..][j..j + |sub|];
    }
  }

  predicate StartsWith(s: string, prefix: string)
  {
    |prefix| <= |s| && s[..|prefix|] == prefix
  }

  predicate EndsWith(s: string, suffix: string)
  {
    |suffix| <= |s| && s[|s| - |suffix|..] == suffix
  }

  /** Python's `s.replace(c, rep)` for a single character `c`. */
  function ReplaceChar(s: string, c: char, rep: string): (r: string)
    ensures c !in rep ==> c !in r
    ensures c !in s ==> r == s
  {
    if s == [] then []
    else (if s[0] == c then rep else [s[0]]) + ReplaceChar(s[1..], c, rep)
  }

  /** Removes every character satisfying `p` (`re.sub("[...]", "", s)`). */
  function RemoveWhere(s: string, p: char -> bool): (r: string)
    ensures |r| <= |s|
    ensures forall i :: 0 <= i < |r| ==> !p(r[i])
  {
    if s == [] then []
    else if p(s[0]) then RemoveWhere(s[1..], p)
    else [s[0]] + RemoveWhere(s[1..], p)
  }

  lemma {:induction false} RemoveWhereNoop(s: string, p: char -> bool)
    requires forall i :: 0 <= i < |s| ==> !p(s[i])
    ensures RemoveWhere(s, p) == s
  {
    if s != [] {
      RemoveWhereNoop(s[1..], p);
    }
  }

  lemma {:induction false} RemoveWhereConcat(a: string, b: string, p: char -> bool)
    ensures RemoveWhere(a + b, p) == RemoveWhere(a, p) + RemoveWhere(b, p)
    decreases |a|
  {
    if a != [] {
      assert (a + b)[1..] == a[1..] + b;
      RemoveWhereConcat(a[1..], b, p);
    } else {
      assert a + b == b;
    }
  }

  /** Drops the leading characters that do not satisfy `keep`. */
  function SkipRun(s: string, keep: char -> bool): (r: string)
    ensures |r| <= |s|
    ensures r == [] || keep(r[0])
  {
    if s != [] && !keep(s[0]) then SkipRun(s[1..], keep) else s
  }

  /** What `SkipRun` leaves is a suffix of its input. */
  lemma {:induction false} SkipRunSuffix(s: string, keep: char -> bool)
    ensures SkipRun(s, keep) == s[|s| - |SkipRun(s, keep)|..]
    decreases |s|
  {
    if s != [] && !keep(s[0]) {
      SkipRunSuffix(s[1..], keep);
      assert s[1..][|s[1..]| - |SkipRun(s[1..], keep)|..] == s[|s| - |SkipRun(s[1..], keep)|..];
    }
  }

  /**
   * `re.sub("[^K]+", rep, s)`: every maximal run of characters outside the
   * class `keep` is replaced by one copy of `rep`.
   */
  function SubRuns(s: string, keep: char -> bool, rep: string): string
    decreases |s|
  {
    if s == [] then []
    else if keep(s[0]) then [s[0]] + SubRuns(s[1..], keep, rep)
    else rep + SubRuns(SkipRun(s[1..], keep), keep, rep)
  }

  /** The output of `SubRuns` with a one-character separator `sep` outside `keep`. */
  predicate SeparatedBy(r: string, keep: char -> bool, sep: char)
  {
    && (forall i :: 0 <= i < |r| ==> keep(r[i]) || r[i] == sep)
    && (forall i :: 0 <= i < |r| - 1 ==> r[i] == sep ==> r[i + 1] != sep)
  }

  lemma {:induction false} SubRunsSeparated(s: string, keep: char -> bool, sep: char)
    requires !keep(sep)
    ensures SeparatedBy(SubRuns(s, keep, [sep]), keep, sep)
    ensures s != [] && keep(s[0]) ==> SubRuns(s, keep, [sep])[0] == s[0]
    ensures s != [] && !keep(s[0]) ==> SubRuns(s, keep, [sep])[0] == sep
    ensures s == [] <==> SubRuns(s, keep, [sep]) == []
    decreases |s|
  {
    if s == [] {
    } else if keep(s[0]) {
      SubRunsSeparated(s[1..], keep, sep);
    } else {
      var t := SkipRun(s[1..], keep);
      SubRunsSeparated(t, keep, sep);
    }
  }

  /** A string already in `SubRuns` form is left unchanged by it. */
  lemma {:induction false} SubRunsNoop(s: string, keep: char -> bool, sep: char)
    requires !keep(sep)
    requires SeparatedBy(s, keep, sep)
    ensures SubRuns(s, keep, [sep]) == s
    decreases |s|
  {
    if s == [] {
    } else if keep(s[0]) {
      SubRunsNoop(s[1..], keep, sep);
    } else {
      assert s[0] == sep;
      if |s| > 1 {
        assert keep(s[1]);
      }
      assert SkipRun(s[1..], keep) == s[1..];
      SubRunsNoop(s[1..], keep, sep);
    }
  }

  /**
   * A property of characters that every kept character of `s` and every
   * character of `rep` has, every character `SubRuns` emits has.
   */
  lemma {:induction false} SubRunsWithin(s: string, keep: char -> bool, rep: string, ok: char -> bool)
    requires forall i :: 0 <= i < |s| ==> keep(s[i]) ==> ok(s[i])
    requires forall i :: 0 <= i < |rep| ==> ok(rep[i])
    ensures forall i :: 0 <= i < |SubRuns(s, keep, rep)| ==> ok(SubRuns(s, keep, rep)[i])
    decreases |s|
  {
    if s != [] {
      if keep(s[0]) {
        SubRunsWithin(s[1..], keep, rep, ok);
      } else {
        var t := SkipRun(s[1..], keep);
        SkipRunSuffix(s[1..], keep);
        assert forall i :: 0 <= i < |t| ==> t[i] == s[1 + |s[1..]| - |t| + i];
        SubRunsWithin(t, keep, rep, ok);
      }
    }
  }

  /** A string made only of kept characters passes through `SubRuns` unchanged. */
  lemma {:induction false} SubRunsKeepAll(s: string, keep: char -> bool, rep: string)
    requires forall i :: 0 <= i < |s| ==> keep(s[i])
    ensures SubRuns(s, keep, rep) == s
    decreases |s|
  {
    if s != [] {
      SubRunsKeepAll(s[1..], keep, rep);
    }
  }

  /** `re.sub("[^K]+", sep, s).strip(sep)`: runs of kept characters joined by single separators. */
  lemma SubRunsStripped(s: string, keep: char -> bool, sep: char)
    requires !keep(sep)
    ensures WordsBy(StripChar(SubRuns(s, keep, [sep]), sep), keep, sep)
  {
    var joined := SubRuns(s, keep, [sep]);
    var r := StripChar(joined, sep);
    SubRunsSeparated(s, keep, sep);
    var i, j := StripCharShape(joined, sep);
    forall k | 0 <= k < |r| ensures keep(r[k]) || r[k] == sep {
      assert r[k] == joined[i + k];
    }
    forall k | 0 <= k < |r| - 1 && r[k] == sep ensures r[k + 1] != sep {
      assert r[k] == joined[i + k] && r[k + 1] == joined[i + k + 1];
    }
  }

  /** A run of kept characters, one dropped character, and a kept one after it: the gap becomes `rep`. */
  lemma SubRunsWordGap(a: string, c: char, b: string, keep: char -> bool, rep: string)
    requires AllKept(a, keep) && !keep(c) && b != [] && keep(b[0])
    ensures SubRuns(a + [c] + b, keep, rep) == a + rep + SubRuns(b, keep, rep)
  {
    SubRunsKeptPrefix(a, [c] + b, keep, rep);
    SubRunsDroppedHead(c, b, keep, rep);
    assert a + [c] + b == a + ([c] + b);
    assert a + (rep + SubRuns(b, keep, rep)) == a + rep + SubRuns(b, keep, rep);
  }

  /** A prefix of kept characters passes through unchanged. */
  lemma {:induction false} SubRunsKeptPrefix(a: string, t: string, keep: char -> bool, rep: string)
    requires AllKept(a, keep)
    ensures SubRuns(a + t, keep, rep) == a + SubRuns(t, keep, rep)
    decreases |a|
  {
    if a == [] {
      assert a + t == t;
    } else {
      var x := a[0];
      var rest := a[1..];
      assert a + t == [x] + (rest + t);
      SubRunsKeptPrefix(rest, t, keep, rep);
      SubRunsKeptHead(x, rest + t, keep, rep);
      assert [x] + (rest + SubRuns(t, keep, rep)) == a + SubRuns(t, keep, rep);
    }
  }

  lemma SubRunsKeptHead(x: char, rest: string, keep: char -> bool, rep: string)
    requires keep(x)
    ensures SubRuns([x] + rest, keep, rep) == [x] + SubRuns(rest, keep, rep)
  {
    assert ([x] + rest)[1..] == rest;
  }

  lemma SubRunsDroppedHead(c: char, b: string, keep: char -> bool, rep: string)
    requires !keep(c) && b != [] && keep(b[0])
    ensures SubRuns([c] + b, keep, rep) == rep + SubRuns(b, keep, rep)
  {
    assert ([c] + b)[1..] == b;
    assert SkipRun(b, keep) == b;
  }

  /** Python's `sep.join(parts)`. */
  function Join(parts: seq<string>, sep: string): string
  {
    if parts == [] then []
    else if |parts| == 1 then parts[0]
    else parts[0] + sep + Join(parts[1..], sep)
  }

  /** Python's `s.split(c)` for a single separator character. */
  function SplitOn(s: string, c: char): (r: seq<string>)
    ensures |r| >= 1
    ensures forall i :: 0 <= i < |r| ==> c !in r[i]
    decreases |s|
  {
    if c !in s then [s]
    else
      var k := IndexOf(s, c);
      [s[..k]] + SplitOn(s[k + 1..], c)
  }

  function IndexOf(s: string, c: char): (k: nat)
    requires c in s
    ensures k < |s| && s[k] == c && c !in s[..k]
  {
    if s[0] == c then 0 else 1 + IndexOf(s[1..], c)
  }

  lemma IndexOfFirst(s: string, c: char, k: nat)
    requires k < |s| && s[k] == c && c !in s[..k]
    ensures IndexOf(s, c) == k
  {
  }

  /** Splitting `a + [c] + b`, where `a` holds no `c`, peels off `a`. */
  lemma SplitOnFirst(a: string, c: char, b: string)
    requires c !in a
    ensures SplitOn(a + [c] + b, c) == [a] + SplitOn(b, c)
  {
    var s := a + [c] + b;
    assert s[..|a|] == a;
    IndexOfFirst(s, c, |a|);
    assert s[|a| + 1..] == b;
  }

  /** `sep.join(s.split(sep))` gives `s` back. */
  lemma {:induction false} JoinSplitOn(s: string, c: char)
    ensures Join(SplitOn(s, c), [c]) == s
    decreases |s|
  {
    if c in s {
      var k := IndexOf(s, c);
      JoinSplitOn(s[k + 1..], c);
      assert s == s[..k] + [c] + s[k + 1..];
    }
  }

  /** Splitting a join of pieces free of the separator gives the pieces back. */
  lemma {:induction false} SplitOnJoin(parts: seq<string>, c: char)
    requires parts != []
    requires forall i :: 0 <= i < |parts| ==> c !in parts[i]
    ensures SplitOn(Join(parts, [c]), c) == parts
    decreases |parts|
  {
    if |parts| > 1 {
      var p, rest := parts[0], parts[1..];
      assert c !in p;
      SplitOnJoin(rest, c);
      var tail := Join(rest, [c]);
      assert Join(parts, [c]) == p + [c] + tail;
      SplitOnFirst(p, c, tail);
      assert parts == [p] + rest;
    }
  }

  /** Every character of `s` satisfies `keep`. */
  predicate AllKept(s: string, keep: char -> bool)
  {
    forall j :: 0 <= j < |s| ==> keep(s[j])
  }

  /** Non-empty runs of kept characters joined by single separators. */
  predicate WordsBy(s: string, keep: char -> bool, sep: char)
  {
    SeparatedBy(s, keep, sep) && (s == [] || (s[0] != sep && s[|s| - 1] != sep))
  }

  /** Splitting a non-empty `WordsBy` string gives non-empty runs of kept characters. */
  lemma {:induction false} WordsByParts(s: string, keep: char -> bool, c: char)
    requires !keep(c) && WordsBy(s, keep, c) && s != []
    ensures forall i :: 0 <= i < |SplitOn(s, c)| ==> SplitOn(s, c)[i] != [] && AllKept(SplitOn(s, c)[i], keep)
    decreases |s|
  {
    if c in s {
      var k := IndexOf(s, c);
      var rest := s[k + 1..];
      assert k + 1 < |s| && s[k + 1] != c;
      assert forall i :: 0 <= i < |rest| ==> rest[i] == s[k + 1 + i];
      WordsByParts(rest, keep, c);
      assert s[0] != c;
      assert forall j :: 0 <= j < k ==> s[..k][j] == s[j];
    }
  }

  /** The pieces of a string, empty ones dropped (`[p for p in parts if p]`). */
  function NonEmpty(parts: seq<string>): (r: seq<string>)
    ensures |r| <= |parts|
    ensures forall i :: 0 <= i < |r| ==> r[i] != [] && r[i] in parts
  {
    if parts == [] then []
    else (if parts[0] == [] then [] else [parts[0]]) + NonEmpty(parts[1..])
  }

  lemma {:induction false} NonEmptyNoop(parts: seq<string>)
    requires forall i :: 0 <= i < |parts| ==> parts[i] != []
    ensures NonEmpty(parts) == parts
  {
    if parts != [] {
      NonEmptyNoop(parts[1..]);
    }
  }

  /** `SkipRun` stops at the last character when that one is kept. */
  lemma {:induction false} SkipRunLast(s: string, keep: char -> bool)
    requires s != [] && keep(s[|s| - 1])
    ensures SkipRun(s, keep) != []
    decreases |s|
  {
    if !keep(s[0]) {
      SkipRunLast(s[1..], keep);
    }
  }

  /** A kept last character is the last character `SubRuns` emits. */
  lemma {:induction false} SubRunsLast(s: string, keep: char -> bool, rep: string)
    requires s != [] && keep(s[|s| - 1])
    ensures SubRuns(s, keep, rep) != [] && SubRuns(s, keep, rep)[|SubRuns(s, keep, rep)| - 1] == s[|s| - 1]
    decreases |s|
  {
    if keep(s[0]) {
      if |s| > 1 {
        SubRunsLast(s[1..], keep, rep);
        LastOfAppend([s[0]], SubRuns(s[1..], keep, rep));
      }
    } else {
      var t := SkipRun(s[1..], keep);
      SkipRunLast(s[1..], keep);
      SkipRunSuffix(s[1..], keep);
      assert t[|t| - 1] == s[|s| - 1];
      SubRunsLast(t, keep, rep);
      LastOfAppend(rep, SubRuns(t, keep, rep));
    }
  }

  lemma LastOfAppend(a: string, u: string)
    requires u != []
    ensures a + u != [] && (a + u)[|a + u| - 1] == u[|u| - 1]
  {
  }

  /** Upper-casing a join upper-cases each piece. */
  lemma {:induction false} UpperJoin(parts: seq<string>, ups: seq<string>, sep: string)
    requires |ups| == |parts| && Upper(sep) == sep
    requires forall i :: 0 <= i < |parts| ==> Upper(parts[i]) == ups[i]
    ensures Upper(Join(parts, sep)) == Join(ups, sep)
    decreases |parts|
  {
    if |parts| > 1 {
      UpperJoin(parts[1..], ups[1..], sep);
      UpperConcat(parts[0], sep);
      UpperConcat(parts[0] + sep, Join(parts[1..], sep));
    }
  }

  lemma UpperConcat(a: string, b: string)
    ensures Upper(a + b) == Upper(a) + Upper(b)
  {
  }

  lemma LowerConcat(a: string, b: string)
    ensures Lower(a + b) == Lower(a) + Lower(b)
  {
  }

  // ----- ordering -------------------------------------------------------

  /**
   * Python's `<` on strings, which is also SQLite's binary collation on
   * their UTF-8 bytes: the first differing character decides, and a proper
   * prefix is smaller.
   */
  predicate LexLess(a: string, b: string)
  {
    if a == [] then b != []
    else if b == [] then false
    else if a[0] != b[0] then a[0] < b[0]
    else LexLess(a[1..], b[1..])
  }

  predicate LexLessEq(a: string, b: string) { a == b || LexLess(a, b) }

  /** Of two different strings one is smaller. */
  lemma {:induction false} LexTotal(a: string, b: string)
    ensures a == b || LexLess(a, b) || LexLess(b, a)
    decreases |a|
  {
    if a != [] && b != [] && a[0] == b[0] {
      LexTotal(a[1..], b[1..]);
      if a[1..] == b[1..] {
        assert a == [a[0]] + a[1..] && b == [b[0]] + b[1..];
      }
    }
  }

  lemma {:induction false} LexLessIrreflexive(a: string)
    ensures !LexLess(a, a)
    decreases |a|
  {
    if a != [] {
      LexLessIrreflexive(a[1..]);
    }
  }

  /** Comparing two strings whose first parts have equal length compares those parts first. */
  lemma {:induction false} LexLessAppend(a1: string, b1: string, a2: string, b2: string)
    requires |a1| == |b1|
    ensures LexLess(a1 + a2, b1 + b2) <==> LexLess(a1, b1) || (a1 == b1 && LexLess(a2, b2))
    decreases |a1|
  {
    if a1 == [] {
      assert a1 + a2 == a2 && b1 + b2 == b2;
    } else {
      assert (a1 + a2)[1..] == a1[1..] + a2;
      assert (b1 + b2)[1..] == b1[1..] + b2;
      LexLessAppend(a1[1..], b1[1..], a2, b2);
      if a1[0] == b1[0] {
        assert a1 == b1 <==> a1[1..] == b1[1..] by {
          if a1[1..] == b1[1..] {
            assert a1 == [a1[0]] + a1[1..] && b1 == [b1[0]] + b1[1..];
          }
        }
      }
    }
  }

  /** The arithmetic step of `DigitsValueFront`. */
  lemma FrontArith(whole: int, init: int, tail: int, mid: int, d0: int, p: int, p10: int, last: int)
    requires whole == init * 10 + last && init == d0 * p + mid
    requires tail == mid * 10 + last && p10 == 10 * p
    ensures whole == d0 * p10 + tail
  {
    assert (d0 * p) * 10 == d0 * (10 * p);
  }

  /** A digit string's value, read from its first digit. */
  lemma {:induction false} DigitsValueFront(s: string)
    requires AllDigits(s) && s != []
    ensures DigitsValue(s) == DigitValue(s[0]) * Pow10(|s| - 1) + DigitsValue(s[1..])
    decreases |s|
  {
    if |s| > 1 {
      var t := s[..|s| - 1];
      var u := s[1..];
      DigitsValueFront(t);
      assert t[1..] == u[..|u| - 1] && u[|u| - 1] == s[|s| - 1];
      FrontArith(DigitsValue(s), DigitsValue(t), DigitsValue(u), DigitsValue(t[1..]),
                 DigitValue(s[0]), Pow10(|s| - 2), Pow10(|s| - 1), DigitValue(s[|s| - 1]));
    } else {
      assert s[1..] == [];
      assert s[..0] == [];
    }
  }

  lemma {:induction false} DigitsValueBound(s: string)
    requires AllDigits(s)
    ensures DigitsValue(s) < Pow10(|s|)
    decreases |s|
  {
    if s != [] {
      DigitsValueBound(s[..|s| - 1]);
    }
  }

  lemma LeadingDigitDecides(x: nat, y: nat, p: nat, ra: nat, rb: nat)
    requires x < y && ra < p && rb < p
    ensures x * p + ra < y * p + rb
  {
    assert (x + 1) * p <= y * p;
  }

  /** For digit strings of one length, string order is numeric order. */
  lemma {:induction false} DigitsLexLess(a: string, b: string)
    requires AllDigits(a) && AllDigits(b) && |a| == |b|
    ensures LexLess(a, b) <==> DigitsValue(a) < DigitsValue(b)
    decreases |a|
  {
    if a != [] {
      var p := Pow10(|a| - 1);
      DigitsValueFront(a);
      DigitsValueFront(b);
      DigitsValueBound(a[1..]);
      DigitsValueBound(b[1..]);
      var x, y := DigitValue(a[0]), DigitValue(b[0]);
      if a[0] == b[0] {
        DigitsLexLess(a[1..], b[1..]);
      } else if a[0] < b[0] {
        LeadingDigitDecides(x, y, p, DigitsValue(a[1..]), DigitsValue(b[1..]));
      } else {
        LeadingDigitDecides(y, x, p, DigitsValue(b[1..]), DigitsValue(a[1..]));
      }
    }
  }

  // ----- decimal digits -------------------------------------------------

  function DigitValue(c: char): nat requires IsDigit(c) { c as int - '0' as int }

  function DigitChar(d: nat): (c: char)
    requires d < 10
    ensures IsDigit(c) && DigitValue(c) == d
  {
    ('0' as int + d) as char
  }

  /** The value of a string of decimal digits, most significant first. */
  function DigitsValue(s: string): nat
    requires AllDigits(s)
  {
    if s == [] then 0 else DigitsValue(s[..|s| - 1]) * 10 + DigitValue(s[|s| - 1])
  }

  /** Digits written after others shift them up by the length of the tail. */
  lemma {:induction false} DigitsValueConcat(a: string, b: string)
    requires AllDigits(a) && AllDigits(b)
    ensures AllDigits(a + b) && DigitsValue(a + b) == DigitsValue(a) * Pow10(|b|) + DigitsValue(b)
    decreases |b|
  {
    var ab := a + b;
    assert AllDigits(ab) by {
      forall i | 0 <= i < |ab| ensures IsDigit(ab[i]) {
        if i >= |a| {
          assert ab[i] == b[i - |a|];
        }
      }
    }
    if b == [] {
      assert ab == a;
    } else {
      var b' := b[..|b| - 1];
      assert ab[..|ab| - 1] == a + b';
      assert ab[|ab| - 1] == b[|b| - 1];
      DigitsValueConcat(a, b');
      ConcatArith(DigitsValue(ab), DigitsValue(a + b'), DigitsValue(a), DigitsValue(b'), Pow10(|b'|),
        DigitValue(b[|b| - 1]), DigitsValue(b), Pow10(|b|));
    }
  }

  lemma ConcatArith(whole: int, front: int, x: int, y: int, p: int, last: int, tail: int, pb: int)
    requires whole == front * 10 + last && front == x * p + y
    requires tail == y * 10 + last && pb == 10 * p
    ensures whole == x * pb + tail
  {
    assert (x * p + y) * 10 == x * (10 * p) + y * 10;
  }

  /** Python's `str(n)` for a non-negative integer. */
  function NatToString(n: nat): (s: string)
    ensures |s| >= 1 && AllDigits(s)
    decreases n
  {
    if n < 10 then [DigitChar(n)] else NatToString(n / 10) + [DigitChar(n % 10)]
  }

  lemma {:induction false} DigitsValueOfNatToString(n: nat)
    ensures DigitsValue(NatToString(n)) == n
    decreases n
  {
    if n >= 10 {
      var s := NatToString(n);
      assert s[..|s| - 1] == NatToString(n / 10);
      DigitsValueOfNatToString(n / 10);
    }
  }

  lemma NatToStringInjective(a: nat, b: nat)
    requires NatToString(a) == NatToString(b)
    ensures a == b
  {
    DigitsValueOfNatToString(a);
    DigitsValueOfNatToString(b);
  }

  /** Python's `str(n)` for any integer. */
  function IntToString(n: int): string
  {
    if n < 0 then "-" + NatToString(-n) else NatToString(n)
  }

  function Zeros(k: nat): (s: string)
    ensures |s| == k && forall i :: 0 <= i < k ==> s[i] == '0'
  {
    if k == 0 then [] else Zeros(k - 1) + "0"
  }

  /** Python's `f"{n:0{width}d}"`: zero-padded to `width` characters, sign first. */
  function PadInt(n: int, width: nat): string
  {
    if n < 0 then
      var digits := NatToString(-n);
      "-" + (if |digits| + 1 < width then Zeros(width - 1 - |digits|) else []) + digits
    else
      var digits := NatToString(n);
      (if |digits| < width then Zeros(width - |digits|) else []) + digits
  }

  lemma {:induction false} DigitsValueLeadingZeros(k: nat, s: string)
    requires AllDigits(s)
    ensures AllDigits(Zeros(k) + s) && DigitsValue(Zeros(k) + s) == DigitsValue(s)
    decreases |s|
  {
    if s == [] {
      assert Zeros(k) + s == Zeros(k);
      ZerosValue(k);
    } else {
      var t := Zeros(k) + s;
      assert t[..|t| - 1] == Zeros(k) + s[..|s| - 1];
      DigitsValueLeadingZeros(k, s[..|s| - 1]);
    }
  }

  lemma {:induction false} ZerosValue(k: nat)
    ensures DigitsValue(Zeros(k)) == 0
  {
    if k > 0 {
      assert Zeros(k)[..k - 1] == Zeros(k - 1);
      ZerosValue(k - 1);
    }
  }

  /** Zero padding a small non-negative number gives exactly `width` digits that read back as it. */
  lemma PadIntDigits(n: nat, width: nat)
    requires |NatToString(n)| <= width
    ensures var s := PadInt(n, width); |s| == width && AllDigits(s) && DigitsValue(s) == n
  {
    var digits := NatToString(n);
    DigitsValueOfNatToString(n);
    if |digits| < width {
      DigitsValueLeadingZeros(width - |digits|, digits);
    } else {
      assert PadInt(n, width) == digits;
    }
  }

  /** Decimal digit count bound: numbers below 10^k print in at most k digits. */
  lemma {:induction false} NatToStringLength(n: nat, k: nat)
    requires n < Pow10(k)
    ensures |NatToString(n)| <= k || (n == 0 && k == 0)
    decreases n
  {
    if n >= 10 {
      assert k >= 1;
      assert n / 10 < Pow10(k - 1);
      NatToStringLength(n / 10, k - 1);
    }
  }

  function Pow10(k: nat): (p: nat)
    ensures p >= 1
  {
    if k == 0 then 1 else 10 * Pow10(k - 1)
  }

  /** Python's `int(s)` on an ASCII sign-and-digits string (surrounding whitespace allowed). */
  function ParseInt(s: string): (r: Option<int>)
    ensures r.Some? ==> Strip(s) != []
  {
    var t := Strip(s);
    if |t| > 0 && (t[0] == '+' || t[0] == '-') then
      var body := t[1..];
      if body != [] && AllDigits(body) then
        Some(if t[0] == '-' then -(DigitsValue(body) as int) else DigitsValue(body))
      else None
    else if t != [] && AllDigits(t) then Some(DigitsValue(t))
    else None
  }

  lemma ParseIntOfNat(n: nat)
    ensures ParseInt(NatToString(n)) == Some(n)
  {
    var s := NatToString(n);
    DigitsValueOfNatToString(n);
    assert !IsSpace(s[0]) && !IsSpace(s[|s| - 1]);
    StripNoop(s);
  }

  // ----- hexadecimal digits ---------------------------------------------

  function HexValue(c: char): (v: nat)
    requires IsHexDigit(c)
    ensures v < 16
  {
    if IsDigit(c) then c as int - '0' as int
    else if 'a' <= c <= 'f' then c as int - 'a' as int + 10
    else c as int - 'A' as int + 10
  }

  /** Python's lower-case hex digit for 0..15. */
  function HexChar(d: nat): (c: char)
    requires d < 16
    ensures IsHexDigit(c) && HexValue(c) == d
  {
    if d < 10 then ('0' as int + d) as char else ('a' as int + d - 10) as char
  }

  /** Python's `f"{v:02x}"` for 0 <= v < 256. */
  function Hex2(v: nat): (s: string)
    requires v < 256
    ensures |s| == 2 && IsHexDigit(s[0]) && IsHexDigit(s[1])
    ensures HexValue(s[0]) * 16 + HexValue(s[1]) == v
  {
    [HexChar(v / 16), HexChar(v % 16)]
  }
}
