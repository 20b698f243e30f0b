/** String helpers with JavaScript's meaning: `startsWith`, `includes`, `trim`,
    `split`, `join`, `toLowerCase`, `replace`. Strings are sequences of characters. */
module Strings {

  /** JavaScript's whitespace and line terminators (the class `\s` and what `trim` removes). */
  predicate IsSpace(c: char) {
    || c == ' ' || c == '\t' || c == '\n' || c == '\r' || c == '\U{000B}' || c == '\U{000C}'
    || c == '\U{00A0}' || c == '\U{1680}' || ('\U{2000}' <= c <= '\U{200A}')
    || c == '\U{2028}' || c == '\U{2029}' || c == '\U{202F}' || c == '\U{205F}'
    || c == '\U{3000}' || c == '\U{FEFF}'
  }

  predicate AllSpace(s: string) {
    forall i :: 0 <= i < |s| ==> IsSpace(s[i])
  }

  predicate StartsWith(s: string, prefix: string) {
    |prefix| <= |s| && s[..|prefix|] == prefix
  }

  predicate EndsWith(s: string, suffix: string) {
    |suffix| <= |s| && s[|s| - |suffix|..] == suffix
  }

  /** Two strings whose first characters differ do not start one another. */
  lemma FirstCharMismatch(s: string, prefix: string)
    requires s != [] && prefix != [] && s[0] != prefix[0]
    ensures !StartsWith(s, prefix)
  {
  }

  /** `s.includes(sub)`. */
  predicate Contains(s: string, sub: string)
    decreases |s|
  {
    StartsWith(s, sub) || (|s| > 0 && Contains(s[1..], sub))
  }

  lemma {:induction false} ContainsAt(s: string, sub: string, i: nat)
    requires i + |sub| <= |s| && s[i..i + |sub|] == sub
    ensures Contains(s, sub)
    decreases i
  {
    if i > 0 {
      assert s[1..][i - 1..i - 1 + |sub|] == s[i..i + |sub|];
      ContainsAt(s[1..], sub, i - 1);
    }
  }

  lemma {:induction false} ContainsSuffix(s: string, t: string, sub: string)
    requires Contains(t, sub)
    ensures Contains(s + t, sub)
    decreases |s|
  {
    if s == [] {
      assert s + t == t;
    } else {
      assert (s + t)[1..] == s[1..] + t;
      ContainsSuffix(s[1..], t, sub);
    }
  }

  lemma ContainsPrefix(s: string, t: string)
    ensures Contains(s + t, s)
  {
    assert (s + t)[..|s|] == s;
  }

  /** `s.trimStart()`: drops exactly the leading whitespace. */
  function TrimStart(s: string): (r: string)
    ensures |r| <= |s|
  {
    if |s| > 0 && IsSpace(s[0]) then TrimStart(s[1..]) else s
  }

  /** What `trimStart` keeps is a suffix of the text. */
  lemma {:induction false} TrimStartSuffix(s: string)
    ensures TrimStart(s) == s[|s| - |TrimStart(s)|..]
  {
    if |s| > 0 && IsSpace(s[0]) {
      var r := TrimStart(s[1..]);
      TrimStartSuffix(s[1..]);
      assert s[|s| - |r|..] == s[1..][|s| - 1 - |r|..];
    }
  }

  /** What `trimStart` removes is whitespace, and what it keeps starts with none. */
  lemma {:induction false} TrimStartSpec(s: string)
    ensures var r := TrimStart(s);
      AllSpace(s[..|s| - |r|]) && (r == [] || !IsSpace(r[0]))
  {
    if |s| > 0 && IsSpace(s[0]) {
      var r := TrimStart(s[1..]);
      TrimStartSpec(s[1..]);
      assert s[..|s| - |r|] == [s[0]] + s[1..][..|s| - 1 - |r|];
    }
  }

  /** `s.trimEnd()`: drops exactly the trailing whitespace. */
  function TrimEnd(s: string): (r: string)
    ensures |r| <= |s|
  {
    if |s| > 0 && IsSpace(s[|s| - 1]) then TrimEnd(s[..|s| - 1]) else s
  }

  /** What `trimEnd` keeps is a prefix of the text. */
  lemma {:induction false} TrimEndPrefix(s: string)
    ensures TrimEnd(s) == s[..|TrimEnd(s)|]
  {
    if |s| > 0 && IsSpace(s[|s| - 1]) {
      var r := TrimEnd(s[..|s| - 1]);
      TrimEndPrefix(s[..|s| - 1]);
      assert s[..|r|] == s[..|s| - 1][..|r|];
    }
  }

  /** What `trimEnd` removes is whitespace, and what it keeps ends with none. */
  lemma {:induction false} TrimEndSpec(s: string)
    ensures var r := TrimEnd(s);
      AllSpace(s[|r|..]) && (r == [] || !IsSpace(r[|r| - 1]))
  {
    if |s| > 0 && IsSpace(s[|s| - 1]) {
      var r := TrimEnd(s[..|s| - 1]);
      TrimEndSpec(s[..|s| - 1]);
      assert s[|r|..] == s[..|s| - 1][|r|..] + [s[|s| - 1]];
    }
  }

  /** `s.trim()`. */
  function Trim(s: string): (r: string)
    ensures |r| <= |s|
  {
    TrimEnd(TrimStart(s))
  }

  /** The trimmed string is a piece of `s` with no whitespace at either end, and it is
      empty exactly when `s` is all whitespace. */
  lemma TrimSpec(s: string)
    ensures var r := Trim(s);
      && (r == [] || (!IsSpace(r[0]) && !IsSpace(r[|r| - 1])))
      && (r == [] <==> AllSpace(s))
  {
    var t := TrimStart(s);
    var r := TrimEnd(t);
    TrimStartSpec(s);
    TrimEndSpec(t);
    TrimStartSuffix(s);
    TrimEndPrefix(t);
    var n := |s| - |t|;
    if r != [] {
      assert r[0] == t[0] == s[n];
    } else {
      assert t[|r|..] == t;
      assert t == [];
      forall i | 0 <= i < |s| ensures IsSpace(s[i]) {
        assert s[i] == s[..n][i];
      }
    }
  }

  /** Trimming only removes characters. */
  lemma TrimKeepsOut(s: string, c: char)
    requires c !in s
    ensures c !in Trim(s)
  {
    var t := TrimStart(s);
    TrimStartSuffix(s);
    TrimEndPrefix(t);
    NotInSlice(s, c, |s| - |t|, |s|);
    NotInSlice(t, c, 0, |TrimEnd(t)|);
  }

  lemma NotInSlice<T>(s: seq<T>, x: T, a: nat, b: nat)
    requires a <= b <= |s| && x !in s
    ensures x !in s[a..b]
  {
    forall i | a <= i < b ensures s[i] != x {
      assert s[i] in s;
    }
  }

  /** Trimming a trimmed string changes nothing. */
  lemma TrimIdempotent(s: string)
    ensures Trim(Trim(s)) == Trim(s)
  {
    TrimSpec(s);
    TrimmedIsTrimFixpoint(Trim(s));
  }

  lemma TrimmedIsTrimFixpoint(s: string)
    requires s == [] || (!IsSpace(s[0]) && !IsSpace(s[|s| - 1]))
    ensures Trim(s) == s
  {
    assert TrimStart(s) == s;
    assert TrimEnd(s) == s;
  }

  function ToLowerChar(c: char): char {
    if 'A' <= c <= 'Z' then (c as int + 32) as char else c
  }

  /** `s.toLowerCase()`, for the ASCII letters. */
  function ToLower(s: string): (r: string)
    ensures |r| == |s|
  {
    if s == [] then [] else [ToLowerChar(s[0])] + ToLower(s[1..])
  }

  /** Lower-casing maps each character on its own. */
  lemma {:induction false} ToLowerPointwise(s: string)
    ensures forall i :: 0 <= i < |s| ==> ToLower(s)[i] == ToLowerChar(s[i])
  {
    if s != [] {
      ToLowerPointwise(s[1..]);
    }
  }

  lemma ToLowerIdempotent(s: string)
    ensures ToLower(ToLower(s)) == ToLower(s)
  {
    ToLowerPointwise(s);
    ToLowerPointwise(ToLower(s));
  }

  /** `s.split(sep)` for a one-character separator. */
  function Split(s: string, sep: char): (r: seq<string>)
    ensures |r| >= 1
    ensures forall i :: 0 <= i < |r| ==> sep !in r[i]
  {
    if s == [] then [""]
    else
      var rest := Split(s[1..], sep);
      if s[0] == sep then [""] + rest else [[s[0]] + rest[0]] + rest[1..]
  }

  /** `parts.join(sep)`. */
  function Join(parts: seq<string>, sep: string): string
  {
    if parts == [] then ""
    else if |parts| == 1 then parts[0]
    else parts[0] + sep + Join(parts[1..], sep)
  }

  /** Splitting and joining again with the same separator gives back the string. */
  lemma {:induction false} JoinSplit(s: string, sep: char)
    ensures Join(Split(s, sep), [sep]) == s
  {
    if s != [] {
      JoinSplit(s[1..], sep);
      var rest := Split(s[1..], sep);
      if s[0] == sep {
        assert Split(s, sep) == [""] + rest;
        assert s == [sep] + s[1..];
      } else {
        var r := Split(s, sep);
        assert r[1..] == rest[1..];
        if |rest| == 1 {
          assert s == [s[0]] + rest[0];
        } else {
          assert Join(r, [sep]) == r[0] + [sep] + Join(rest[1..], [sep]);
          assert s[1..] == rest[0] + [sep] + Join(rest[1..], [sep]);
          assert s == [s[0]] + s[1..];
        }
      }
    }
  }

  /** The text before the first `sep`: `s.split(sep)[0]`. */
  function BeforeFirst(s: string, sep: char): (r: string)
    ensures |r| <= |s|
  {
    if s == [] then []
    else if s[0] == sep then []
    else [s[0]] + BeforeFirst(s[1..], sep)
  }

  /** The text before the first `sep` is a prefix without `sep`, followed by `sep`
      or by the end of the string. */
  lemma {:induction false} BeforeFirstSpec(s: string, sep: char)
    ensures var r := BeforeFirst(s, sep);
      && sep !in r && StartsWith(s, r)
      && (|r| < |s| ==> s[|r|] == sep)
      && (sep !in s ==> r == s)
  {
    if s != [] && s[0] != sep {
      BeforeFirstSpec(s[1..], sep);
      assert s == [s[0]] + s[1..];
    }
  }

  lemma {:induction false} SplitHead(s: string, sep: char)
    ensures Split(s, sep)[0] == BeforeFirst(s, sep)
  {
    if s != [] && s[0] != sep {
      SplitHead(s[1..], sep);
    }
  }

  /** `s.replace(/\s+/g, ' ')`: every maximal run of whitespace becomes one space. */
  function CollapseSpace(s: string): (r: string)
    ensures |r| <= |s|
    decreases |s|
  {
    if s == [] then []
    else if IsSpace(s[0]) then
      assert TrimStart(s) == TrimStart(s[1..]);
      [' '] + CollapseSpace(TrimStart(s))
    else [s[0]] + CollapseSpace(s[1..])
  }

  /** Every whitespace character left is a plain space, and no two are adjacent. */
  lemma {:induction false} CollapseSpaceSpec(s: string)
    ensures var r := CollapseSpace(s);
      && (forall i :: 0 <= i < |r| ==> (IsSpace(r[i]) ==> r[i] == ' '))
      && (forall i :: 0 <= i < |r| - 1 ==> !(IsSpace(r[i]) && IsSpace(r[i + 1])))
      && ((s == []) == (r == []))
      && (s != [] ==> (IsSpace(r[0]) <==> IsSpace(s[0])))
    decreases |s|
  {
    if s != [] {
      if IsSpace(s[0]) {
        var t := TrimStart(s);
        assert t == TrimStart(s[1..]);
        TrimStartSpec(s);
        CollapseSpaceSpec(t);
      } else {
        CollapseSpaceSpec(s[1..]);
      }
    }
  }

  /** `s.replace(pattern, replacement)` for a non-empty string pattern: only the
      first occurrence, wherever it is, is replaced. */
  function ReplaceFirst(s: string, pattern: string, replacement: string): (r: string)
    requires pattern != []
    ensures !Contains(s, pattern) ==> r == s
    decreases |s|
  {
    if StartsWith(s, pattern) then replacement + s[|pattern|..]
    else if s == [] then s
    else [s[0]] + ReplaceFirst(s[1..], pattern, replacement)
  }

  /** Removes every character of the given set: `s.replace(/[...]/g, '')`. */
  function RemoveChars(s: string, drop: set<char>): (r: string)
    ensures |r| <= |s|
  {
    if s == [] then []
    else if s[0] in drop then RemoveChars(s[1..], drop)
    else [s[0]] + RemoveChars(s[1..], drop)
  }

  /** No dropped character is left, and every other character is kept as often. */
  lemma {:induction false} RemoveCharsSpec(s: string, drop: set<char>)
    ensures var r := RemoveChars(s, drop);
      && (forall i :: 0 <= i < |r| ==> r[i] !in drop)
      && (forall c :: c !in drop ==> multiset(r)[c] == multiset(s)[c])
  {
    if s != [] {
      RemoveCharsSpec(s[1..], drop);
      assert s == [s[0]] + s[1..];
    }
  }

  function DigitChar(d: nat): char
    requires d < 10
  {
    "0123456789"[d]
  }

  /** Decimal numeral of a natural number, as `String(n)` writes it. */
  function NatToString(n: nat): (r: string)
    ensures |r| >= 1
    ensures forall i :: 0 <= i < |r| ==> '0' <= r[i] <= '9'
    ensures n > 0 ==> r[0] != '0'
  {
    if n < 10 then [DigitChar(n)] else NatToString(n / 10) + [DigitChar(n % 10)]
  }

  function IntToString(n: int): (r: string)
    ensures |r| >= 1
  {
    if n < 0 then "-" + NatToString(-n) else NatToString(n)
  }

  /** `.filter(Boolean)` on strings. */
  function NonEmpty(parts: seq<string>): (r: seq<string>)
    ensures forall i :: 0 <= i < |r| ==> r[i] != ""
  {
    if parts == [] then []
    else
      var init := NonEmpty(parts[..|parts| - 1]);
      if parts[|parts| - 1] != "" then init + [parts[|parts| - 1]] else init
  }

  /** A character absent from the text is absent from every piece of its split. */
  lemma {:induction false} SplitKeepsOut(s: string, sep: char, c: char)
    requires c !in s
    ensures forall i :: 0 <= i < |Split(s, sep)| ==> c !in Split(s, sep)[i]
  {
    if s != [] {
      NotInSlice(s, c, 1, |s|);
      SplitKeepsOut(s[1..], sep, c);
      var rest := Split(s[1..], sep);
      if s[0] != sep {
        assert c !in [s[0]] + rest[0];
        assert Split(s, sep)[1..] == rest[1..];
      }
    }
  }

  /** Dropping the empty parts keeps only parts that were there. */
  lemma {:induction false} NonEmptyKeepsOut(parts: seq<string>, c: char)
    requires forall i :: 0 <= i < |parts| ==> c !in parts[i]
    ensures forall i :: 0 <= i < |NonEmpty(parts)| ==> c !in NonEmpty(parts)[i]
  {
    if parts != [] {
      NonEmptyKeepsOut(parts[..|parts| - 1], c);
    }
  }

  /** Joining parts without `c` by a separator without `c` gives a text without `c`. */
  lemma {:induction false} JoinKeepsOut(parts: seq<string>, sep: string, c: char)
    requires c !in sep
    requires forall i :: 0 <= i < |parts| ==> c !in parts[i]
    ensures c !in Join(parts, sep)
  {
    if |parts| > 1 {
      JoinKeepsOut(parts[1..], sep, c);
    }
  }

  // ---------------------------------------------------------------- lines

  /** `s.split(sep)` is the text before the first `sep`, then the split of what follows it. */
  lemma {:induction false} SplitFirst(s: string, sep: char)
    ensures var line := BeforeFirst(s, sep);
      Split(s, sep) == [line] + (if |line| < |s| then Split(s[|line| + 1..], sep) else [])
  {
    if s != [] && s[0] != sep {
      SplitFirst(s[1..], sep);
      var n := |BeforeFirst(s[1..], sep)|;
      if n < |s| - 1 {
        assert s[1..][n + 1..] == s[n + 2..];
      }
    }
  }

  /** The text before the first `sep` of `a + b`, when `a` has none and `b` starts with one. */
  lemma {:induction false} BeforeFirstConcat(a: string, b: string, sep: char)
    requires sep !in a
    requires b == [] || b[0] == sep
    ensures BeforeFirst(a + b, sep) == a
  {
    if a != [] {
      assert (a + b)[1..] == a[1..] + b;
      BeforeFirstConcat(a[1..], b, sep);
      assert a == [a[0]] + a[1..];
    }
  }

  /** Splitting what `join` wrote gives back the parts, when no part holds the separator. */
  lemma {:induction false} SplitJoin(parts: seq<string>, sep: char)
    requires |parts| >= 1
    requires forall i :: 0 <= i < |parts| ==> sep !in parts[i]
    ensures Split(Join(parts, [sep]), sep) == parts
  {
    var s := Join(parts, [sep]);
    SplitFirst(s, sep);
    if |parts| == 1 {
      BeforeFirstConcat(parts[0], [], sep);
      assert parts[0] + [] == parts[0];
    } else {
      var rest := Join(parts[1..], [sep]);
      assert s == parts[0] + ([sep] + rest);
      BeforeFirstConcat(parts[0], [sep] + rest, sep);
      assert s[|parts[0]| + 1..] == rest;
      SplitJoin(parts[1..], sep);
      assert parts == [parts[0]] + parts[1..];
    }
  }

  /** A prefix without `sep` starts the text exactly when it starts the text's first piece. */
  lemma StartsWithFirstPiece(s: string, prefix: string, sep: char)
    requires sep !in prefix
    ensures StartsWith(s, prefix) <==> StartsWith(BeforeFirst(s, sep), prefix)
  {
    var line := BeforeFirst(s, sep);
    BeforeFirstSpec(s, sep);
    if StartsWith(line, prefix) {
      assert s[..|prefix|] == line[..|prefix|];
    }
  }

  /** Dropping characters of the first piece. */
  lemma {:induction false} BeforeFirstDrop(s: string, n: nat, sep: char)
    requires n <= |BeforeFirst(s, sep)|
    ensures BeforeFirst(s[n..], sep) == BeforeFirst(s, sep)[n..]
  {
    if n > 0 {
      BeforeFirstDrop(s[1..], n - 1, sep);
      assert s[1..][n - 1..] == s[n..];
    }
  }

  /** `trimStart` stops at the first character that is not whitespace. */
  lemma {:induction false} TrimStartAt(s: string, m: nat)
    requires m < |s| && AllSpace(s[..m]) && !IsSpace(s[m])
    ensures TrimStart(s) == s[m..]
  {
    if m > 0 {
      assert s[0] == s[..m][0];
      assert s[1..][..m - 1] == s[..m][1..];
      TrimStartAt(s[1..], m - 1);
      assert s[1..][m - 1..] == s[m..];
    }
  }

  /** Trimming a text that has a non-blank character before its first `sep`: the leading
      blanks, the first piece and the trim can be taken in any order. */
  lemma TrimFirstPiece(s: string, sep: char)
    requires !AllSpace(BeforeFirst(s, sep))
    ensures TrimStart(s) != []
    ensures Trim(BeforeFirst(TrimStart(s), sep)) == Trim(BeforeFirst(s, sep))
  {
    var line := BeforeFirst(s, sep);
    var u := TrimStart(line);
    TrimStartSpec(line);
    TrimStartSuffix(line);
    var m := |line| - |u|;
    BeforeFirstSpec(s, sep);
    assert s[..m] == line[..m];
    TrimStartAt(s, m);
    BeforeFirstDrop(s, m, sep);
    assert TrimStart(line[m..]) == line[m..];
  }
}
