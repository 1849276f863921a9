/**
 * The JavaScript string operations the ingestion core relies on, over
 * `seq<char>`: `trim`, ASCII case mapping, `includes`, `startsWith`,
 * `replace` (first occurrence), `split`/`join` on one character,
 * code-unit ordering for `toSorted`, and `Number(...)` / `String(...)`
 * on integers.
 */
module Strings {
  import opened Wrappers

  /** The characters `String.prototype.trim` removes (WhiteSpace and LineTerminator). */
  predicate IsWhitespace(c: char)
  {
    c == ' ' || c == '\t' || c == '\n' || c == '\r' || c == '\U{000B}' || c == '\U{000C}'
    || c == '\U{00A0}' || c == '\U{1680}' || ('\U{2000}' <= c <= '\U{200A}')
    || c == '\U{2028}' || c == '\U{2029}' || c == '\U{202F}' || c == '\U{205F}'
    || c == '\U{3000}' || c == '\U{FEFF}'
  }

  function TrimStart(s: string): (r: string)
    ensures |r| <= |s| && r == s[|s| - |r|..]
    ensures forall k :: 0 <= k < |s| - |r| ==> IsWhitespace(s[k])
    ensures r == [] || !IsWhitespace(r[0])
  {
    if |s| > 0 && IsWhitespace(s[0]) then TrimStart(s[1..]) else s
  }

  function TrimEnd(s: string): (r: string)
    ensures |r| <= |s| && r == s[..|r|]
    ensures forall k :: |r| <= k < |s| ==> IsWhitespace(s[k])
    ensures r == [] || !IsWhitespace(r[|r| - 1])
  {
    if |s| > 0 && IsWhitespace(s[|s| - 1]) then TrimEnd(s[..|s| - 1]) else s
  }

  /** `s.trim()`: neither end of the result is whitespace, and only whitespace was cut. */
  function Trim(s: string): (r: string)
    ensures |r| <= |s|
    ensures r == [] || (!IsWhitespace(r[0]) && !IsWhitespace(r[|r| - 1]))
  {
    TrimEnd(TrimStart(s))
  }

  /** A string whose ends are not whitespace is left alone by `trim`. */
  lemma TrimKeeps(s: string)
    requires s == [] || (!IsWhitespace(s[0]) && !IsWhitespace(s[|s| - 1]))
    ensures Trim(s) == s
  {
  }

  /** Trimming twice is trimming once. */
  lemma TrimIdempotent(s: string)
    ensures Trim(Trim(s)) == Trim(s)
  {
    TrimKeeps(Trim(s));
  }

  /** A string made only of whitespace trims to the empty string. */
  lemma {:induction false} TrimBlank(s: string)
    requires forall k :: 0 <= k < |s| ==> IsWhitespace(s[k])
    ensures Trim(s) == ""
  {
    if |s| > 0 {
      TrimBlank(s[1..]);
    }
  }

  function LowerChar(c: char): char
  {
    if 'A' <= c <= 'Z' then (c as int + 32) as char else c
  }

  function UpperChar(c: char): char
  {
    if 'a' <= c <= 'z' then (c as int - 32) as char else c
  }

  /** `toLowerCase()` on the ASCII letters. */
  function ToLower(s: string): (r: string)
    ensures |r| == |s|
    ensures forall k :: 0 <= k < |s| ==> r[k] == LowerChar(s[k])
  {
    seq(|s|, k requires 0 <= k < |s| => LowerChar(s[k]))
  }

  /** `toUpperCase()` on the ASCII letters. */
  function ToUpper(s: string): (r: string)
    ensures |r| == |s|
    ensures forall k :: 0 <= k < |s| ==> r[k] == UpperChar(s[k])
  {
    seq(|s|, k requires 0 <= k < |s| => UpperChar(s[k]))
  }

  /** `s.startsWith(p)`. */
  predicate IsPrefix(p: string, s: string)
  {
    |p| <= |s| && s[..|p|] == p
  }

  /** `s.includes(sub)`: `sub` occurs at some position of `s`. */
  predicate Contains(s: string, sub: string)
  {
    exists i :: 0 <= i <= |s| && IsPrefix(sub, s[i..])
  }

  /** A string contains itself at position 0 and anything it starts with. */
  lemma ContainsPrefix(s: string, p: string)
    requires IsPrefix(p, s)
    ensures Contains(s, p)
  {
    assert s[0..] == s;
  }

  /** Extending a string on either side keeps what it contains. */
  lemma ContainsWithin(a: string, s: string, b: string, sub: string)
    requires Contains(s, sub)
    ensures Contains(a + s + b, sub)
  {
    var i :| 0 <= i <= |s| && IsPrefix(sub, s[i..]);
    var t := a + s + b;
    assert t[|a| + i..][..|sub|] == s[i..][..|sub|];
    assert IsPrefix(sub, t[|a| + i..]);
  }

  /** The first position where `pat` occurs in `s`, or -1 (`s.indexOf(pat)`). */
  function IndexOf(s: string, pat: string): (r: int)
    ensures -1 <= r <= |s|
    ensures r == -1 <==> !Contains(s, pat)
    ensures r >= 0 ==> IsPrefix(pat, s[r..])
    ensures r >= 0 ==> forall k :: 0 <= k < r ==> !IsPrefix(pat, s[k..])
  {
    if IsPrefix(pat, s) then
      assert s[0..] == s;
      0
    else if |s| == 0 then
      assert forall i :: 0 <= i <= |s| ==> s[i..] == s;
      -1
    else
      var r := IndexOf(s[1..], pat);
      assert forall k :: 1 <= k <= |s| ==> s[k..] == s[1..][k - 1..];
      if r < 0 then
        assert forall i :: 0 < i <= |s| ==> !IsPrefix(pat, s[i..]) by {
          forall i | 0 < i <= |s| ensures !IsPrefix(pat, s[i..]) {
            assert s[i..] == s[1..][i - 1..];
          }
        }
        -1
      else
        r + 1
  }

  /** `s.replace(pat, rep)` with a string pattern: only the first occurrence is replaced. */
  function ReplaceFirst(s: string, pat: string, rep: string): (r: string)
    ensures !Contains(s, pat) ==> r == s
    ensures Contains(s, pat) ==>
      var i := IndexOf(s, pat);
      r == s[..i] + rep + s[i + |pat|..]
  {
    var i := IndexOf(s, pat);
    if i < 0 then s else s[..i] + rep + s[i + |pat|..]
  }

  /** When `s` starts with `pat`, `replace` just strips it. */
  lemma ReplaceLeading(pat: string, rest: string, rep: string)
    ensures ReplaceFirst(pat + rest, pat, rep) == rep + rest
  {
    var s := pat + rest;
    assert IsPrefix(pat, s[0..]);
    assert IndexOf(s, pat) == 0;
    assert s[|pat|..] == rest;
  }

  // ---------------------------------------------------------------------
  // split / join on one separator character

  /** `s.split(c)`: the maximal pieces between occurrences of `c`, at least one. */
  function Split(s: string, c: char): (r: seq<string>)
    ensures |r| >= 1
    ensures forall k :: 0 <= k < |r| ==> c !in r[k]
  {
    if |s| == 0 then [""]
    else
      var rest := Split(s[..|s| - 1], c);
      var last := s[|s| - 1];
      if last == c then rest + [""]
      else rest[..|rest| - 1] + [rest[|rest| - 1] + [last]]
  }

  /** `parts.join(c)`. */
  function Join(parts: seq<string>, c: char): string
  {
    if |parts| == 0 then ""
    else if |parts| == 1 then parts[0]
    else Join(parts[..|parts| - 1], c) + [c] + parts[|parts| - 1]
  }

  /** `parts.join(sep)` with a separator of any length. */
  function JoinWith(parts: seq<string>, sep: string): string
  {
    if |parts| == 0 then ""
    else if |parts| == 1 then parts[0]
    else JoinWith(parts[..|parts| - 1], sep) + sep + parts[|parts| - 1]
  }

  /** Every part occurs in the joined text. */
  lemma {:induction false} JoinWithContains(parts: seq<string>, sep: string, i: nat)
    requires i < |parts|
    ensures Contains(JoinWith(parts, sep), parts[i])
  {
    var last := parts[|parts| - 1];
    if i == |parts| - 1 {
      assert IsPrefix(last, last);
      ContainsPrefix(last, last);
      if |parts| > 1 {
        ContainsWithin(JoinWith(parts[..|parts| - 1], sep) + sep, last, "", last);
        assert JoinWith(parts[..|parts| - 1], sep) + sep + last + "" == JoinWith(parts, sep);
      }
    } else {
      JoinWithContains(parts[..|parts| - 1], sep, i);
      ContainsWithin("", JoinWith(parts[..|parts| - 1], sep), sep + last, parts[i]);
      assert "" + JoinWith(parts[..|parts| - 1], sep) + (sep + last) == JoinWith(parts, sep);
    }
  }

  lemma JoinAppendToLast(parts: seq<string>, c: char, x: char)
    requires |parts| >= 1
    ensures Join(parts[..|parts| - 1] + [parts[|parts| - 1] + [x]], c) == Join(parts, c) + [x]
  {
    var ps := parts[..|parts| - 1] + [parts[|parts| - 1] + [x]];
    assert ps[..|ps| - 1] == parts[..|parts| - 1];
  }

  /** Joining what was split gives the string back. */
  lemma {:induction false} JoinSplit(s: string, c: char)
    ensures Join(Split(s, c), c) == s
  {
    if |s| > 0 {
      var init := s[..|s| - 1];
      var rest := Split(init, c);
      JoinSplit(init, c);
      if s[|s| - 1] == c {
        var ps := rest + [""];
        assert ps[..|ps| - 1] == rest;
      } else {
        JoinAppendToLast(rest, c, s[|s| - 1]);
      }
      assert s == init + [s[|s| - 1]];
    }
  }

  /** Splitting a join of separator-free parts gives the parts back. */
  lemma {:induction false} SplitJoin(parts: seq<string>, c: char)
    requires |parts| >= 1
    requires forall k :: 0 <= k < |parts| ==> c !in parts[k]
    ensures Split(Join(parts, c), c) == parts
  {
    if |parts| == 1 {
      SplitFree(parts[0], c);
    } else {
      var init := parts[..|parts| - 1];
      var p := parts[|parts| - 1];
      SplitJoin(init, c);
      SplitAfter(Join(init, c), p, c);
      assert init + [p] == parts;
    }
  }

  /** A piece holds only characters of the split text. */
  lemma {:induction false} SplitPieceChars(s: string, c: char, k: nat)
    requires k < |Split(s, c)|
    ensures forall ch :: ch in Split(s, c)[k] ==> ch in s
  {
    if |s| > 0 {
      var init := s[..|s| - 1];
      var rest := Split(init, c);
      if k < |rest| {
        SplitPieceChars(init, c, k);
      }
      if s[|s| - 1] != c && k == |rest| - 1 {
        forall ch | ch in Split(s, c)[k] ensures ch in s {
          assert Split(s, c)[k] == rest[k] + [s[|s| - 1]];
          if ch != s[|s| - 1] {
            assert ch in rest[k];
            assert ch in init;
          }
        }
      } else if k < |rest| {
        forall ch | ch in Split(s, c)[k] ensures ch in s {
          assert ch in init;
        }
      }
    }
  }

  /** A string without the separator splits into itself. */
  lemma {:induction false} SplitFree(s: string, c: char)
    requires c !in s
    ensures Split(s, c) == [s]
  {
    if |s| > 0 {
      SplitFree(s[..|s| - 1], c);
      assert s[..|s| - 1] + [s[|s| - 1]] == s;
    }
  }

  /** Splitting `t + [c] + p` with `p` separator-free appends `p` as a piece. */
  lemma {:induction false} SplitAfter(t: string, p: string, c: char)
    requires c !in p
    ensures Split(t + [c] + p, c) == Split(t, c) + [p]
  {
    var s := t + [c] + p;
    if |p| == 0 {
      assert s[..|s| - 1] == t;
    } else {
      var p' := p[..|p| - 1];
      SplitAfter(t, p', c);
      assert s[..|s| - 1] == t + [c] + p';
      assert p' + [p[|p| - 1]] == p;
    }
  }

  /** The index just after the last `c` in `s`, or 0: where the last piece of `Split` starts. */
  function LastPieceStart(s: string, c: char): (r: nat)
    ensures r <= |s|
    ensures c !in s[r..]
    ensures r > 0 ==> s[r - 1] == c
  {
    if |s| == 0 then 0
    else if s[|s| - 1] == c then |s|
    else
      var r := LastPieceStart(s[..|s| - 1], c);
      assert s[r..] == s[..|s| - 1][r..] + [s[|s| - 1]];
      r
  }

  /** The last piece of `Split(s, c)` is the suffix after the last separator. */
  lemma {:induction false} LastPiece(s: string, c: char)
    ensures var ps := Split(s, c); ps[|ps| - 1] == s[LastPieceStart(s, c)..]
  {
    if |s| > 0 && s[|s| - 1] != c {
      LastPiece(s[..|s| - 1], c);
      assert s[LastPieceStart(s, c)..] == s[..|s| - 1][LastPieceStart(s, c)..] + [s[|s| - 1]];
    }
  }

  /**
   * Splitting on `c`, replacing the last piece by `x` and joining again
   * rewrites only what follows the last separator.
   */
  lemma {:induction false} ReplaceLastPiece(s: string, c: char, x: string)
    ensures var ps := Split(s, c);
      Join(ps[..|ps| - 1] + [x], c) == s[..LastPieceStart(s, c)] + x
  {
    if |s| > 0 {
      if s[|s| - 1] == c {
        ReplaceAfterSeparator(s, c, x);
      } else {
        var init := s[..|s| - 1];
        ReplaceLastPiece(init, c, x);
        ReplaceInsidePiece(s, c, x);
      }
    }
  }

  lemma ReplaceAfterSeparator(s: string, c: char, x: string)
    requires |s| > 0 && s[|s| - 1] == c
    ensures var ps := Split(s, c);
      Join(ps[..|ps| - 1] + [x], c) == s[..LastPieceStart(s, c)] + x
  {
    var init := s[..|s| - 1];
    var rest := Split(init, c);
    var ps := Split(s, c);
    assert ps == rest + [""];
    assert ps[..|ps| - 1] == rest;
    var qs := rest + [x];
    assert |qs| >= 2 && qs[..|qs| - 1] == rest && qs[|qs| - 1] == x;
    assert Join(qs, c) == Join(rest, c) + [c] + x;
    JoinSplit(init, c);
    assert LastPieceStart(s, c) == |s|;
    assert s[..|s|] == init + [c];
  }

  lemma ReplaceInsidePiece(s: string, c: char, x: string)
    requires |s| > 0 && s[|s| - 1] != c
    requires var ps := Split(s[..|s| - 1], c);
      Join(ps[..|ps| - 1] + [x], c) == s[..|s| - 1][..LastPieceStart(s[..|s| - 1], c)] + x
    ensures var ps := Split(s, c);
      Join(ps[..|ps| - 1] + [x], c) == s[..LastPieceStart(s, c)] + x
  {
    var init := s[..|s| - 1];
    var rest := Split(init, c);
    var ps := Split(s, c);
    assert ps == rest[..|rest| - 1] + [rest[|rest| - 1] + [s[|s| - 1]]];
    assert ps[..|ps| - 1] == rest[..|rest| - 1];
    assert LastPieceStart(s, c) == LastPieceStart(init, c);
    assert s[..LastPieceStart(s, c)] == init[..LastPieceStart(init, c)];
  }

  // ---------------------------------------------------------------------
  // code-unit ordering and sorting (`toSorted()` on strings)

  /** The default `sort` comparison: lexicographic by character code. */
  predicate LessEq(a: string, b: string)
  {
    if |a| == 0 then true
    else if |b| == 0 then false
    else if a[0] != b[0] then a[0] < b[0]
    else LessEq(a[1..], b[1..])
  }

  lemma {:induction false} LessEqTotal(a: string, b: string)
    ensures LessEq(a, b) || LessEq(b, a)
  {
    if |a| > 0 && |b| > 0 && a[0] == b[0] {
      LessEqTotal(a[1..], b[1..]);
    }
  }

  lemma {:induction false} LessEqTransitive(a: string, b: string, c: string)
    requires LessEq(a, b) && LessEq(b, c)
    ensures LessEq(a, c)
  {
    if |a| > 0 && |b| > 0 && |c| > 0 && a[0] == b[0] && b[0] == c[0] {
      LessEqTransitive(a[1..], b[1..], c[1..]);
    }
  }

  predicate Sorted(s: seq<string>)
  {
    forall i, j :: 0 <= i < j < |s| ==> LessEq(s[i], s[j])
  }

  function Insert(x: string, s: seq<string>): (r: seq<string>)
    requires Sorted(s)
    ensures Sorted(r)
    ensures multiset(r) == multiset(s) + multiset{x}
  {
    if |s| == 0 then [x]
    else if LessEq(x, s[0]) then
      assert forall j :: 0 <= j < |s| ==> LessEq(s[0], s[j]) by {
        forall j | 0 < j < |s| ensures LessEq(s[0], s[j]) { }
        if |s| > 0 { LessEqReflexive(s[0]); }
      }
      InsertFrontSorted(x, s);
      [x] + s
    else
      LessEqTotal(x, s[0]);
      var t := Insert(x, s[1..]);
      assert s == [s[0]] + s[1..];
      LowerBound(s[0], x, s[1..], t);
      [s[0]] + t
  }

  /** A lower bound of `u` and of `x` bounds every element of a `t` holding `u` and `x`. */
  lemma LowerBound(a: string, x: string, u: seq<string>, t: seq<string>)
    requires multiset(t) == multiset(u) + multiset{x}
    requires LessEq(a, x) && forall j :: 0 <= j < |u| ==> LessEq(a, u[j])
    ensures forall j :: 0 <= j < |t| ==> LessEq(a, t[j])
  {
    forall j | 0 <= j < |t| ensures LessEq(a, t[j]) {
      assert t[j] in multiset(t);
      if t[j] != x {
        assert t[j] in multiset(u);
        var m :| 0 <= m < |u| && u[m] == t[j];
      }
    }
  }

  lemma {:induction false} LessEqReflexive(a: string)
    ensures LessEq(a, a)
  {
    if |a| > 0 { LessEqReflexive(a[1..]); }
  }

  lemma InsertFrontSorted(x: string, s: seq<string>)
    requires Sorted(s)
    requires forall j :: 0 <= j < |s| ==> LessEq(x, s[j]) || LessEq(s[0], s[j])
    requires |s| > 0 ==> LessEq(x, s[0])
    ensures Sorted([x] + s)
  {
    forall j | 0 <= j < |s| ensures LessEq(x, s[j]) {
      if j > 0 { LessEqTransitive(x, s[0], s[j]); }
    }
  }

  /** `toSorted()`: an ascending permutation of the input. */
  function Sort(s: seq<string>): (r: seq<string>)
    ensures Sorted(r)
    ensures multiset(r) == multiset(s)
    ensures |r| == |s|
  {
    if |s| == 0 then []
    else
      assert s == [s[0]] + s[1..];
      var r := Insert(s[0], Sort(s[1..]));
      assert |r| == |multiset(r)|;
      r
  }

  /** The first element of a sorted permutation is a least element of the input. */
  lemma SortedHeadIsLeast(s: seq<string>)
    requires |s| > 0
    ensures Sort(s)[0] in s
    ensures forall k :: 0 <= k < |s| ==> LessEq(Sort(s)[0], s[k])
  {
    var r := Sort(s);
    assert r[0] in multiset(r);
    forall k | 0 <= k < |s| ensures LessEq(r[0], s[k]) {
      assert s[k] in multiset(s);
      var m :| 0 <= m < |r| && r[m] == s[k];
      if m == 0 { LessEqReflexive(r[0]); }
    }
  }

  /** The second element of a sorted sequence is a least element of the rest once the first is taken out. */
  lemma SortedSecondLeast(r: seq<string>)
    requires Sorted(r) && |r| >= 2
    ensures r[1] in multiset(r) - multiset{r[0]}
    ensures forall x :: x in multiset(r) - multiset{r[0]} ==> LessEq(r[1], x)
  {
    var rest := r[1..];
    assert r == [r[0]] + rest;
    assert multiset(rest) == multiset(r) - multiset{r[0]};
    assert rest[0] == r[1];
    forall x | x in multiset(r) - multiset{r[0]}
      ensures LessEq(r[1], x)
    {
      assert x in multiset(rest);
      var m :| 0 <= m < |rest| && rest[m] == x;
      if m == 0 {
        LessEqReflexive(x);
      } else {
        assert rest[m] == r[m + 1];
      }
    }
  }

  // ---------------------------------------------------------------------
  // `Number(text)` and `String(n)` on integers

  predicate IsDigit(c: char) { '0' <= c <= '9' }

  predicate AllDigits(s: string)
  {
    forall k :: 0 <= k < |s| ==> IsDigit(s[k])
  }

  function DigitValue(c: char): nat
    requires IsDigit(c)
  {
    c as int - '0' as int
  }

  /** The value of a decimal digit string, most significant digit first. */
  function DigitsValue(s: string): nat
    requires AllDigits(s)
  {
    if |s| == 0 then 0 else DigitsValue(s[..|s| - 1]) * 10 + DigitValue(s[|s| - 1])
  }

  /**
   * `Number(text)` where it yields an integer: the trimmed text is empty
   * (0) or an optional sign followed by decimal digits. Every other text
   * is `None`, which stands for NaN.
   */
  function JsNumber(text: string): (r: Option<int>)
    ensures r.Some? && Trim(text) != "" ==> IsDigit(Trim(text)[|Trim(text)| - 1])
  {
    var t := Trim(text);
    if t == "" then Some(0)
    else if t[0] == '-' || t[0] == '+' then
      var ds := t[1..];
      if |ds| > 0 && AllDigits(ds) then
        var v: int := DigitsValue(ds);
        Some(if t[0] == '-' then -v else v)
      else None
    else if AllDigits(t) then Some(DigitsValue(t))
    else None
  }

  function DigitChar(d: nat): (c: char)
    requires d < 10
    ensures IsDigit(c) && DigitValue(c) == d
  {
    ('0' as int + d) as char
  }

  /** The decimal digits of `n`, without leading zeros. */
  function NatToString(n: nat): (r: string)
    ensures |r| > 0 && AllDigits(r)
    ensures DigitsValue(r) == n
    ensures |r| > 1 ==> r[0] != '0'
  {
    if n < 10 then [DigitChar(n)]
    else
      var r := NatToString(n / 10) + [DigitChar(n % 10)];
      assert r[..|r| - 1] == NatToString(n / 10);
      r
  }

  /** `String(n)` for an integer. */
  function NumberToString(n: int): (r: string)
  {
    if n < 0 then "-" + NatToString(-n) else NatToString(n)
  }

  /** `Number(String(n)) === n`: the decimal rendering of an integer reads back as that integer. */
  lemma NumberRoundTrip(n: int)
    ensures JsNumber(NumberToString(n)) == Some(n)
  {
    var s := NumberToString(n);
    TrimKeeps(s);
    if n < 0 {
      assert s[1..] == NatToString(-n);
    }
  }

  /** Distinct integers render to distinct strings. */
  lemma NumberToStringInjective(a: int, b: int)
    requires NumberToString(a) == NumberToString(b)
    ensures a == b
  {
    NumberRoundTrip(a);
    NumberRoundTrip(b);
  }
}
