/** The JavaScript string built-ins the handlers rely on, written out:
    whitespace and `trim()`, `.length` in UTF-16 code units, ASCII
    `toLowerCase()`, single-character `replace`, regular-expression
    substring tests, `split(' ')`, `join`, `replace(/\s+/g, ...)`, the decimal
    form of a natural number and `parseInt(s, 10)`. */
module JsText {
  import opened Common

  /** LineTerminator of ECMAScript; the regular-expression `.` matches anything else. */
  predicate IsLineTerminator(c: char) {
    c == '\n' || c == '\r' || c == '\U{2028}' || c == '\U{2029}'
  }

  /** WhiteSpace or LineTerminator of ECMAScript: what `trim()` removes and `\s` matches. */
  predicate IsWhitespace(c: char) {
    || c == '\t' || c == '\U{000B}' || c == '\U{000C}' || c == ' '
    || c == '\U{00A0}' || c == '\U{FEFF}' || c == '\U{1680}'
    || ('\U{2000}' <= c <= '\U{200A}')
    || c == '\U{202F}' || c == '\U{205F}' || c == '\U{3000}'
    || IsLineTerminator(c)
  }

  /** Code units a character takes in UTF-16: two outside the Basic Multilingual Plane. */
  function Utf16Units(c: char): nat {
    if c as int >= 0x10000 then 2 else 1
  }

  /** JavaScript's `s.length`, which counts UTF-16 code units. */
  function Utf16Length(s: string): (n: nat)
    ensures |s| <= n <= 2 * |s|
    ensures n == |s| <==> forall i :: 0 <= i < |s| ==> s[i] as int < 0x10000
  {
    if s == [] then 0 else Utf16Units(s[0]) + Utf16Length(s[1..])
  }

  /** Drops leading whitespace: what is left is a suffix of `s` that starts
      with a non-whitespace character, and everything dropped is whitespace. */
  function TrimStart(s: string): (r: string)
    ensures |r| <= |s| && r == s[|s| - |r|..]
    ensures forall i :: 0 <= i < |s| - |r| ==> IsWhitespace(s[i])
    ensures r != [] ==> !IsWhitespace(r[0])
  {
    if s != [] && IsWhitespace(s[0]) then TrimStart(s[1..]) else s
  }

  /** Drops trailing whitespace, symmetrically to TrimStart. */
  function TrimEnd(s: string): (r: string)
    ensures |r| <= |s| && r == s[..|r|]
    ensures forall i :: |r| <= i < |s| ==> IsWhitespace(s[i])
    ensures r != [] ==> !IsWhitespace(r[|r| - 1])
  {
    if s != [] && IsWhitespace(s[|s| - 1]) then TrimEnd(s[..|s| - 1]) else s
  }

  /** `r` is `s` from position `k` on with only whitespace taken off either end. */
  predicate IsTrimmedSlice(s: string, r: string, k: nat) {
    && k + |r| <= |s| && r == s[k..k + |r|]
    && (forall i :: 0 <= i < k ==> IsWhitespace(s[i]))
    && (forall i :: k + |r| <= i < |s| ==> IsWhitespace(s[i]))
  }

  /** `String.prototype.trim()`: the slice of `s` between its leading and its
      trailing whitespace. It is empty exactly when `s` is all whitespace. */
  function Trim(s: string): (r: string)
    ensures exists k: nat :: IsTrimmedSlice(s, r, k)
    ensures r != [] ==> !IsWhitespace(r[0]) && !IsWhitespace(r[|r| - 1])
    ensures r == [] <==> forall i :: 0 <= i < |s| ==> IsWhitespace(s[i])
  {
    TrimIsSlice(s);
    TrimEmptyIff(s);
    TrimEnd(TrimStart(s))
  }

  lemma TrimIsSlice(s: string)
    ensures IsTrimmedSlice(s, TrimEnd(TrimStart(s)), |s| - |TrimStart(s)|)
  {
    TrimmedSliceOf(s, TrimStart(s), TrimEnd(TrimStart(s)));
  }

  /** A suffix `t` of `s` after leading whitespace, and a prefix `r` of `t`
      before trailing whitespace, make `r` a trimmed slice of `s`. */
  lemma TrimmedSliceOf(s: string, t: string, r: string)
    requires |t| <= |s| && t == s[|s| - |t|..]
    requires forall i :: 0 <= i < |s| - |t| ==> IsWhitespace(s[i])
    requires |r| <= |t| && r == t[..|r|]
    requires forall i :: |r| <= i < |t| ==> IsWhitespace(t[i])
    ensures IsTrimmedSlice(s, r, |s| - |t|)
  {
    var k := |s| - |t|;
    assert r == s[k..k + |r|];
    forall i | k + |r| <= i < |s| ensures IsWhitespace(s[i]) {
      assert s[i] == t[i - k];
    }
  }

  lemma TrimEmptyIff(s: string)
    ensures TrimEnd(TrimStart(s)) == [] <==> forall i :: 0 <= i < |s| ==> IsWhitespace(s[i])
  {
    TrimIsSlice(s);
  }

  /** Trimming twice is trimming once. */
  lemma TrimIdempotent(s: string)
    ensures Trim(Trim(s)) == Trim(s)
  {
    var r := Trim(s);
    if r != [] {
      assert TrimStart(r) == r;
      assert TrimEnd(r) == r;
    }
  }

  /** Applies `f` to every character, keeping positions. */
  function MapChars(s: string, f: char -> char): (r: string)
    ensures |r| == |s|
    ensures forall i :: 0 <= i < |s| ==> r[i] == f(s[i])
  {
    if s == [] then [] else [f(s[0])] + MapChars(s[1..], f)
  }

  function LowerAscii(c: char): char {
    if 'A' <= c <= 'Z' then (c as int + 32) as char else c
  }

  /** `toLowerCase()` on the ASCII letters. */
  function ToLowerAscii(s: string): (r: string)
    ensures |r| == |s|
    ensures forall i :: 0 <= i < |s| ==> r[i] == LowerAscii(s[i])
    ensures forall i :: 0 <= i < |s| ==> !('A' <= r[i] <= 'Z')
  {
    MapChars(s, LowerAscii)
  }

  /** The two texts agree once their ASCII letters are lower-cased. */
  predicate SameIgnoringCase(a: string, b: string) {
    |a| == |b| && forall i :: 0 <= i < |a| ==> LowerAscii(a[i]) == LowerAscii(b[i])
  }

  lemma SameIgnoringCaseIffLowerEqual(a: string, b: string)
    ensures SameIgnoringCase(a, b) <==> ToLowerAscii(a) == ToLowerAscii(b)
  {
    if ToLowerAscii(a) == ToLowerAscii(b) {
      forall i | 0 <= i < |a| ensures LowerAscii(a[i]) == LowerAscii(b[i]) {
        assert ToLowerAscii(a)[i] == ToLowerAscii(b)[i];
      }
    }
  }

  /** Text without upper-case ASCII letters is its own lower case. */
  lemma ToLowerAsciiOfLower(s: string)
    requires forall i :: 0 <= i < |s| ==> !('A' <= s[i] <= 'Z')
    ensures ToLowerAscii(s) == s
  {
  }

  /** `s.replace(/x/g, y)` for single characters `x` and `y`: every `x` becomes
      `y`, every other character stays, and no `x` is left when `x != y`. */
  function ReplaceAll(s: string, x: char, y: char): (r: string)
    ensures |r| == |s|
    ensures forall i :: 0 <= i < |s| ==> r[i] == (if s[i] == x then y else s[i])
    ensures x != y ==> x !in r
  {
    MapChars(s, c => if c == x then y else c)
  }

  predicate StartsWith(s: string, prefix: string) {
    |prefix| <= |s| && s[..|prefix|] == prefix
  }

  predicate OccursAt(s: string, t: string, i: nat) {
    i + |t| <= |s| && s[i..i + |t|] == t
  }

  /** Whether `t` occurs in `s` at some position: the unanchored regular
      expression `/t/` for a literal `t`. */
  function Contains(s: string, t: string): (b: bool)
    ensures b <==> exists i: nat :: OccursAt(s, t, i)
    decreases |s|
  {
    if |t| > |s| then false
    else if s[..|t|] == t then (assert OccursAt(s, t, 0); true)
    else
      var b := Contains(s[1..], t);
      assert forall i: nat :: OccursAt(s[1..], t, i) ==> OccursAt(s, t, i + 1);
      assert forall i: nat :: OccursAt(s, t, i) && i > 0 ==> OccursAt(s[1..], t, i - 1);
      b
  }

  /** `/a1|a2|...|an/.test(s)`: some alternative occurs in `s`. */
  predicate ContainsAny(s: string, alternatives: seq<string>) {
    exists k :: 0 <= k < |alternatives| && Contains(s, alternatives[k])
  }

  /** `s.split(c)` for a one-character separator. */
  function Split(s: string, c: char): (fields: seq<string>)
    ensures |fields| >= 1
    ensures forall k :: 0 <= k < |fields| ==> c !in fields[k]
  {
    if s == [] then [""]
    else
      var rest := Split(s[1..], c);
      if s[0] == c then [""] + rest else [[s[0]] + rest[0]] + rest[1..]
  }

  /** `xs.join(sep)`. */
  function Join(xs: seq<string>, sep: string): string {
    if xs == [] then ""
    else if |xs| == 1 then xs[0]
    else xs[0] + sep + Join(xs[1..], sep)
  }

  /** Joining the fields of a split with the separator gives the string back. */
  lemma {:induction false} JoinSplit(s: string, c: char)
    ensures Join(Split(s, c), [c]) == s
  {
    if s != [] {
      var rest := Split(s[1..], c);
      JoinSplit(s[1..], c);
      if s[0] == c {
        assert ([""] + rest)[1..] == rest;
      } else if |rest| > 1 {
        var xs := [[s[0]] + rest[0]] + rest[1..];
        assert xs[1..] == rest[1..];
        assert Join(rest, [c]) == rest[0] + [c] + Join(rest[1..], [c]);
      }
    }
  }

  /** `s.replace(/\s+/g, sub)`: every maximal run of whitespace becomes `sub`. */
  function ReplaceWhitespaceRuns(s: string, sub: string): (r: string)
    decreases |s|
  {
    if s == [] then []
    else if IsWhitespace(s[0]) then
      var rest := TrimStart(s);
      sub + ReplaceWhitespaceRuns(rest, sub)
    else [s[0]] + ReplaceWhitespaceRuns(s[1..], sub)
  }

  predicate NoWhitespace(s: string) {
    forall i :: 0 <= i < |s| ==> !IsWhitespace(s[i])
  }

  /** Replacing the runs by a whitespace-free text leaves no whitespace. */
  lemma {:induction false} ReplaceWhitespaceRunsClean(s: string, sub: string)
    requires NoWhitespace(sub)
    ensures NoWhitespace(ReplaceWhitespaceRuns(s, sub))
    decreases |s|
  {
    if s != [] {
      if IsWhitespace(s[0]) {
        var rest := TrimStart(s);
        ReplaceWhitespaceRunsClean(rest, sub);
      } else {
        ReplaceWhitespaceRunsClean(s[1..], sub);
      }
    }
  }

  /** Replacing the runs introduces no character that neither the text nor
      the replacement has. */
  lemma {:induction false} ReplaceWhitespaceRunsAvoids(s: string, sub: string, c: char)
    requires c !in s && c !in sub
    ensures c !in ReplaceWhitespaceRuns(s, sub)
    decreases |s|
  {
    if s != [] {
      if IsWhitespace(s[0]) {
        var rest := TrimStart(s);
        assert c !in rest by {
          forall i | 0 <= i < |rest| ensures rest[i] != c { assert rest[i] == s[|s| - |rest| + i]; }
        }
        ReplaceWhitespaceRunsAvoids(rest, sub, c);
      } else {
        assert c !in s[1..] by {
          forall i | 0 <= i < |s[1..]| ensures s[1..][i] != c { assert s[1..][i] == s[i + 1]; }
        }
        assert s[0] != c by { assert s[0] in s; }
        ReplaceWhitespaceRunsAvoids(s[1..], sub, c);
      }
    }
  }

  /** A whitespace-free text is left as it is. */
  lemma {:induction false} ReplaceWhitespaceRunsIdentity(s: string, sub: string)
    requires NoWhitespace(s)
    ensures ReplaceWhitespaceRuns(s, sub) == s
  {
    if s != [] {
      assert NoWhitespace(s[1..]) by {
        forall i | 0 <= i < |s[1..]| ensures !IsWhitespace(s[1..][i]) {
          assert s[1..][i] == s[i + 1];
        }
      }
      ReplaceWhitespaceRunsIdentity(s[1..], sub);
    }
  }

  predicate AllWhitespace(w: string) {
    forall i :: 0 <= i < |w| ==> IsWhitespace(w[i])
  }

  /** A maximal whitespace run becomes one `sub`, whatever its length: the
      text before it (empty or ending in non-whitespace) and the text after
      it (empty or starting with non-whitespace) are replaced on their own. */
  lemma {:induction false} ReplaceWhitespaceRunsSplit(a: string, w: string, b: string, sub: string)
    requires a == [] || !IsWhitespace(a[|a| - 1])
    requires w != [] && AllWhitespace(w)
    requires b == [] || !IsWhitespace(b[0])
    ensures ReplaceWhitespaceRuns(a + w + b, sub) == ReplaceWhitespaceRuns(a, sub) + sub + ReplaceWhitespaceRuns(b, sub)
    decreases |a|, 1
  {
    if a == [] {
      SplitAtRun(a, w, b, sub);
    } else if IsWhitespace(a[0]) {
      SplitAfterLeadingRun(a, w, b, sub);
    } else {
      SplitAfterLetter(a, w, b, sub);
    }
  }

  lemma SplitAtRun(a: string, w: string, b: string, sub: string)
    requires a == []
    requires w != [] && AllWhitespace(w)
    requires b == [] || !IsWhitespace(b[0])
    ensures ReplaceWhitespaceRuns(a + w + b, sub) == ReplaceWhitespaceRuns(a, sub) + sub + ReplaceWhitespaceRuns(b, sub)
  {
    DropEmpty(a, w, b);
    DropEmpty(ReplaceWhitespaceRuns(a, sub), sub, ReplaceWhitespaceRuns(b, sub));
    Reassociate(w, b, []);
    TrimStartRun(w, b);
    UnfoldRun(w + b, sub);
  }

  lemma DropEmpty(a: string, x: string, y: string)
    requires a == []
    ensures a + x + y == x + y
  {
  }

  lemma {:induction false} SplitAfterLeadingRun(a: string, w: string, b: string, sub: string)
    requires a != [] && IsWhitespace(a[0]) && !IsWhitespace(a[|a| - 1])
    requires w != [] && AllWhitespace(w)
    requires b == [] || !IsWhitespace(b[0])
    ensures ReplaceWhitespaceRuns(a + w + b, sub) == ReplaceWhitespaceRuns(a, sub) + sub + ReplaceWhitespaceRuns(b, sub)
    decreases |a|, 0
  {
    RunStep(a, w, b, sub);
    ReplaceWhitespaceRunsSplit(TrimStart(a), w, b, sub);
    Regroup(sub, ReplaceWhitespaceRuns(TrimStart(a), sub), sub, ReplaceWhitespaceRuns(b, sub));
  }

  lemma {:induction false} SplitAfterLetter(a: string, w: string, b: string, sub: string)
    requires a != [] && !IsWhitespace(a[0]) && !IsWhitespace(a[|a| - 1])
    requires w != [] && AllWhitespace(w)
    requires b == [] || !IsWhitespace(b[0])
    ensures ReplaceWhitespaceRuns(a + w + b, sub) == ReplaceWhitespaceRuns(a, sub) + sub + ReplaceWhitespaceRuns(b, sub)
    decreases |a|, 0
  {
    LetterStep(a, w, b, sub);
    ReplaceWhitespaceRunsSplit(a[1..], w, b, sub);
    Regroup([a[0]], ReplaceWhitespaceRuns(a[1..], sub), sub, ReplaceWhitespaceRuns(b, sub));
  }

  lemma Regroup(x: string, y: string, z: string, u: string)
    ensures x + (y + z + u) == (x + y) + z + u
  {
  }

  /** A leading run of `a`, which ends in non-whitespace, is replaced the
      same way whatever follows `a`. */
  lemma RunStep(a: string, w: string, b: string, sub: string)
    requires a != [] && IsWhitespace(a[0]) && !IsWhitespace(a[|a| - 1])
    ensures TrimStart(a) != [] && TrimStart(a)[|TrimStart(a)| - 1] == a[|a| - 1]
    ensures |TrimStart(a)| < |a|
    ensures ReplaceWhitespaceRuns(a + w + b, sub) == sub + ReplaceWhitespaceRuns(TrimStart(a) + w + b, sub)
    ensures ReplaceWhitespaceRuns(a, sub) == sub + ReplaceWhitespaceRuns(TrimStart(a), sub)
  {
    TrimStartKeepsLast(a);
    TrimStartAppend(a, w + b);
    Reassociate(a, w, b);
    Reassociate(TrimStart(a), w, b);
    UnfoldRun(a + w + b, sub);
  }

  lemma Reassociate(x: string, y: string, z: string)
    ensures x + y + z == x + (y + z)
    ensures x != [] ==> (x + y + z)[0] == x[0]
  {
  }

  lemma TrimStartKeepsLast(a: string)
    requires a != [] && IsWhitespace(a[0]) && !IsWhitespace(a[|a| - 1])
    ensures TrimStart(a) != [] && TrimStart(a)[|TrimStart(a)| - 1] == a[|a| - 1]
    ensures |TrimStart(a)| < |a|
  {
  }

  /** One step of the replacement at a leading whitespace run. */
  lemma UnfoldRun(s: string, sub: string)
    requires s != [] && IsWhitespace(s[0])
    ensures ReplaceWhitespaceRuns(s, sub) == sub + ReplaceWhitespaceRuns(TrimStart(s), sub)
  {
  }

  /** A leading non-whitespace character of `a` is kept whatever follows `a`. */
  lemma LetterStep(a: string, w: string, b: string, sub: string)
    requires a != [] && !IsWhitespace(a[0])
    ensures ReplaceWhitespaceRuns(a + w + b, sub) == [a[0]] + ReplaceWhitespaceRuns(a[1..] + w + b, sub)
    ensures ReplaceWhitespaceRuns(a, sub) == [a[0]] + ReplaceWhitespaceRuns(a[1..], sub)
  {
    assert (a + w + b)[0] == a[0] && (a + w + b)[1..] == a[1..] + w + b;
  }

  /** Leading whitespace stops at the first non-whitespace character. */
  lemma {:induction false} TrimStartRun(w: string, b: string)
    requires AllWhitespace(w)
    requires b == [] || !IsWhitespace(b[0])
    ensures TrimStart(w + b) == b
  {
    if w == [] {
      assert w + b == b;
    } else {
      assert (w + b)[1..] == w[1..] + b;
      assert AllWhitespace(w[1..]) by {
        forall i | 0 <= i < |w[1..]| ensures IsWhitespace(w[1..][i]) { assert w[1..][i] == w[i + 1]; }
      }
      TrimStartRun(w[1..], b);
    }
  }

  /** Trimming the start of a text that ends in non-whitespace is unaffected
      by what follows it. */
  lemma {:induction false} TrimStartAppend(a: string, t: string)
    requires a != [] && !IsWhitespace(a[|a| - 1])
    ensures TrimStart(a + t) == TrimStart(a) + t
  {
    if IsWhitespace(a[0]) {
      assert (a + t)[1..] == a[1..] + t;
      TrimStartAppend(a[1..], t);
    }
  }

  /** `s` with the characters satisfying `drop` taken out. */
  function Erase(s: string, drop: char -> bool): (r: string)
    ensures |r| <= |s|
    ensures forall i :: 0 <= i < |r| ==> !drop(r[i])
  {
    if s == [] then [] else (if drop(s[0]) then [] else [s[0]]) + Erase(s[1..], drop)
  }

  lemma {:induction false} EraseAppend(a: string, b: string, drop: char -> bool)
    ensures Erase(a + b, drop) == Erase(a, drop) + Erase(b, drop)
  {
    if a == [] {
      assert a + b == b;
    } else {
      assert (a + b)[0] == a[0];
      assert (a + b)[1..] == a[1..] + b;
      EraseAppend(a[1..], b, drop);
      var head := if drop(a[0]) then [] else [a[0]];
      assert Erase(a + b, drop) == head + Erase(a[1..] + b, drop);
    }
  }

  lemma {:induction false} EraseAllDropped(s: string, drop: char -> bool)
    requires forall i :: 0 <= i < |s| ==> drop(s[i])
    ensures Erase(s, drop) == []
  {
    if s != [] { EraseAllDropped(s[1..], drop); }
  }

  predicate IsUnderscore(c: char) { c == '_' }
  predicate IsWhitespaceOrUnderscore(c: char) { IsWhitespace(c) || c == '_' }

  /** Replacing whitespace runs by "_" keeps every other character in order:
      with the underscores taken out of the result, and whitespace and
      underscores taken out of the input, both are the same. */
  lemma {:induction false} ReplaceWhitespaceRunsKeepsText(s: string)
    ensures Erase(ReplaceWhitespaceRuns(s, "_"), IsUnderscore)
         == Erase(s, IsWhitespaceOrUnderscore)
    decreases |s|
  {
    if s != [] {
      if IsWhitespace(s[0]) {
        var rest := TrimStart(s);
        var k := |s| - |rest|;
        ReplaceWhitespaceRunsKeepsText(rest);
        EraseAppend("_", ReplaceWhitespaceRuns(rest, "_"), IsUnderscore);
        assert s == s[..k] + rest;
        EraseAppend(s[..k], rest, IsWhitespaceOrUnderscore);
        EraseAllDropped(s[..k], IsWhitespaceOrUnderscore);
      } else {
        ReplaceWhitespaceRunsKeepsText(s[1..]);
        EraseAppend([s[0]], ReplaceWhitespaceRuns(s[1..], "_"), IsUnderscore);
        assert s == [s[0]] + s[1..];
        EraseAppend([s[0]], s[1..], IsWhitespaceOrUnderscore);
      }
    }
  }

  predicate IsDigit(c: char) { '0' <= c <= '9' }

  predicate AllDigits(s: string) {
    forall i :: 0 <= i < |s| ==> IsDigit(s[i])
  }

  function DigitChar(d: nat): (c: char)
    requires d < 10
    ensures IsDigit(c)
  {
    ('0' as int + d) as char
  }

  function DigitValue(c: char): nat
    requires IsDigit(c)
  {
    c as int - '0' as int
  }

  /** The decimal form JavaScript gives a natural number in a template string. */
  function NatToDecimal(n: nat): (r: string)
    ensures r != [] && AllDigits(r)
    decreases n
  {
    if n < 10 then [DigitChar(n)] else NatToDecimal(n / 10) + [DigitChar(n % 10)]
  }

  /** The value of a decimal digit string, most significant digit first. */
  function DigitsValue(ds: string): nat
    requires AllDigits(ds)
  {
    if ds == [] then 0 else DigitsValue(ds[..|ds| - 1]) * 10 + DigitValue(ds[|ds| - 1])
  }

  lemma {:induction false} DigitsValueOfDecimal(n: nat)
    ensures DigitsValue(NatToDecimal(n)) == n
    decreases n
  {
    if n >= 10 {
      var ds := NatToDecimal(n);
      DigitsValueOfDecimal(n / 10);
      assert ds[..|ds| - 1] == NatToDecimal(n / 10);
    }
  }

  /** The longest prefix of decimal digits. */
  function LeadingDigits(s: string): (ds: string)
    ensures AllDigits(ds) && StartsWith(s, ds)
    ensures |ds| < |s| ==> !IsDigit(s[|ds|])
  {
    if s != [] && IsDigit(s[0]) then [s[0]] + LeadingDigits(s[1..]) else []
  }

  /** `parseInt(s, 10)`; None stands for NaN. Leading whitespace is skipped,
      one sign is read, then the longest run of digits; no digits is NaN. */
  function ParseInt10(s: string): Option<int> {
    var t := TrimStart(s);
    var negative := t != [] && t[0] == '-';
    var u := if t != [] && (t[0] == '+' || t[0] == '-') then t[1..] else t;
    var ds := LeadingDigits(u);
    if ds == [] then None
    else Some(if negative then -(DigitsValue(ds) as int) else DigitsValue(ds))
  }

  lemma {:induction false} LeadingDigitsOfDigits(s: string)
    requires AllDigits(s)
    ensures LeadingDigits(s) == s
  {
    if s != [] { LeadingDigitsOfDigits(s[1..]); }
  }

  /** `parseInt` reads back the decimal form of every natural number. */
  lemma ParseIntOfDecimal(n: nat)
    ensures ParseInt10(NatToDecimal(n)) == Some(n)
  {
    var ds := NatToDecimal(n);
    assert !IsWhitespace(ds[0]);
    assert TrimStart(ds) == ds;
    LeadingDigitsOfDigits(ds);
    DigitsValueOfDecimal(n);
  }
}
