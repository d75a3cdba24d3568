// String operations the components rely on, as JavaScript defines them:
// ASCII `toLowerCase`, `trim`, `includes`, `padStart`, `slice` and number-to-string.

module Text {
  import opened Types

  // ---------------------------------------------------------------- case

  function LowerChar(c: char): char
  {
    if 'A' <= c <= 'Z' then (c as int + 32) as char else c
  }

  /** `toLowerCase`, for the ASCII letters only. */
  function Lower(s: string): (r: string)
    ensures |r| == |s|
  {
    seq(|s|, i requires 0 <= i < |s| => LowerChar(s[i]))
  }

  predicate NoCapitals(s: string)
  {
    forall i :: 0 <= i < |s| ==> !('A' <= s[i] <= 'Z')
  }

  /** A string with no capital ASCII letter is its own lowercase. */
  lemma LowerKeepsLowercase(s: string)
    requires NoCapitals(s)
    ensures Lower(s) == s
  {
  }

  // ---------------------------------------------------------------- trim

  /** The characters `String.prototype.trim` removes: WhiteSpace and LineTerminator. */
  predicate IsJsSpace(c: char)
  {
    var u := c as int;
    (0x09 <= u <= 0x0D) || u == 0x20 || u == 0xA0 || u == 0x1680 || (0x2000 <= u <= 0x200A) ||
    u == 0x2028 || u == 0x2029 || u == 0x202F || u == 0x205F || u == 0x3000 || u == 0xFEFF
  }

  predicate AllSpace(s: string)
  {
    forall i :: 0 <= i < |s| ==> IsJsSpace(s[i])
  }

  /** `trimStart`: drop the whitespace at the front (TrimStartShape says what remains). */
  function TrimStart(s: string): string
  {
    if s != [] && IsJsSpace(s[0]) then TrimStart(s[1..]) else s
  }

  /** `trimEnd`: drop the whitespace at the back (TrimEndShape says what remains). */
  function TrimEnd(s: string): string
  {
    if s != [] && IsJsSpace(s[|s| - 1]) then TrimEnd(s[..|s| - 1]) else s
  }

  /** `trimStart` returns a suffix of its input; what it cut is all whitespace, and what it
      returns does not start with whitespace. */
  lemma {:induction false} TrimStartShape(s: string)
    ensures |TrimStart(s)| <= |s| && TrimStart(s) == s[|s| - |TrimStart(s)|..]
    ensures AllSpace(s[..|s| - |TrimStart(s)|])
    ensures TrimStart(s) != [] ==> !IsJsSpace(TrimStart(s)[0])
  {
    if s != [] && IsJsSpace(s[0]) {
      TrimStartShape(s[1..]);
      var r := TrimStart(s[1..]);
      assert s[..|s| - |r|] == [s[0]] + s[1..][..|s| - 1 - |r|];
    }
  }

  /** `trimEnd` returns a prefix of its input; what it cut is all whitespace, and what it
      returns does not end with whitespace. */
  lemma {:induction false} TrimEndShape(s: string)
    ensures |TrimEnd(s)| <= |s| && TrimEnd(s) == s[..|TrimEnd(s)|]
    ensures AllSpace(s[|TrimEnd(s)|..])
    ensures TrimEnd(s) != [] ==> !IsJsSpace(TrimEnd(s)[|TrimEnd(s)| - 1])
  {
    if s != [] && IsJsSpace(s[|s| - 1]) {
      TrimEndShape(s[..|s| - 1]);
      var r := TrimEnd(s[..|s| - 1]);
      assert s[|r|..] == s[..|s| - 1][|r|..] + [s[|s| - 1]];
    }
  }

  /** `trim()`: s is blank padding, then the result, then blank padding. */
  function Trim(s: string): (r: string)
  {
    TrimEnd(TrimStart(s))
  }

  /** The result of `trim` is a piece of the input framed by whitespace only,
      and it neither starts nor ends with whitespace. */
  lemma TrimShape(s: string)
    ensures exists a, b :: 0 <= a <= b <= |s| && Trim(s) == s[a..b] && AllSpace(s[..a]) && AllSpace(s[b..])
    ensures Trim(s) != [] ==> !IsJsSpace(Trim(s)[0]) && !IsJsSpace(Trim(s)[|Trim(s)| - 1])
  {
    var t := TrimStart(s);
    var r := TrimEnd(t);
    var a := |s| - |t|;
    TrimStartShape(s);
    TrimEndShape(t);
    SliceOfSuffix(s, t, r, a);
    if r != [] {
      assert r[0] == t[0];
    }
  }

  /** A prefix r of the suffix t = s[a..] is the slice of s that starts at a. */
  lemma SliceOfSuffix(s: string, t: string, r: string, a: nat)
    requires a <= |s| && t == s[a..] && |r| <= |t| && r == t[..|r|]
    ensures r == s[a..a + |r|] && s[a + |r|..] == t[|r|..]
  {
  }

  /** `!s.trim()` holds for the strings made of white space only (see TrimEmptyIffBlank). */
  predicate Blank(s: string)
  {
    AllSpace(s)
  }

  /** s neither starts nor ends with whitespace. */
  predicate IsTrimmed(s: string)
  {
    s != [] ==> !IsJsSpace(s[0]) && !IsJsSpace(s[|s| - 1])
  }

  /** A string that neither starts nor ends with whitespace is its own trim. */
  lemma TrimKeepsTrimmed(s: string)
    requires IsTrimmed(s)
    ensures Trim(s) == s
  {
  }

  /** `!s.trim()` holds exactly for the strings made of whitespace only. */
  lemma TrimEmptyIffBlank(s: string)
    ensures Trim(s) == [] <==> Blank(s)
  {
    var t := TrimStart(s);
    var n := |s| - |t|;
    TrimStartShape(s);
    TrimEndShape(t);
    if Trim(s) == [] {
      assert t[0..] == t;
      assert s[..n] == s;
    }
  }

  /** Lowercasing maps whitespace to whitespace and nothing else to whitespace, so it can be
      done before or after trimming. */
  lemma LowerCharSpace(c: char)
    ensures IsJsSpace(LowerChar(c)) == IsJsSpace(c)
  {
  }

  lemma LowerTail(s: string)
    requires s != []
    ensures Lower(s)[0] == LowerChar(s[0]) && Lower(s)[1..] == Lower(s[1..])
    ensures Lower(s)[|s| - 1] == LowerChar(s[|s| - 1]) && Lower(s)[..|s| - 1] == Lower(s[..|s| - 1])
  {
  }

  lemma {:induction false} LowerTrimStart(s: string)
    ensures Lower(TrimStart(s)) == TrimStart(Lower(s))
  {
    if s != [] {
      LowerTail(s);
      LowerCharSpace(s[0]);
      if IsJsSpace(s[0]) {
        LowerTrimStart(s[1..]);
      }
    }
  }

  lemma {:induction false} LowerTrimEnd(s: string)
    ensures Lower(TrimEnd(s)) == TrimEnd(Lower(s))
  {
    if s != [] {
      LowerTail(s);
      LowerCharSpace(s[|s| - 1]);
      if IsJsSpace(s[|s| - 1]) {
        LowerTrimEnd(s[..|s| - 1]);
      }
    }
  }

  lemma LowerTrim(s: string)
    ensures Lower(Trim(s)) == Trim(Lower(s))
  {
    LowerTrimEnd(TrimStart(s));
    LowerTrimStart(s);
  }

  lemma LowerIdempotent(s: string)
    ensures Lower(Lower(s)) == Lower(s)
  {
  }

  // ---------------------------------------------------------------- includes

  /** k occurs in s at position i, comparing from the j-th character of k on. */
  predicate MatchAt(s: string, k: string, i: nat, j: nat)
    requires i + |k| <= |s| && j <= |k|
    decreases |k| - j
  {
    j == |k| || (s[i + j] == k[j] && MatchAt(s, k, i, j + 1))
  }

  predicate ContainsFrom(s: string, k: string, i: nat)
    decreases |s| - i
  {
    i + |k| <= |s| && (MatchAt(s, k, i, 0) || ContainsFrom(s, k, i + 1))
  }

  /** `s.includes(k)`. */
  predicate Contains(s: string, k: string)
  {
    ContainsFrom(s, k, 0)
  }

  lemma {:induction false} MatchAtMeans(s: string, k: string, i: nat, j: nat)
    requires i + |k| <= |s| && j <= |k|
    decreases |k| - j
    ensures MatchAt(s, k, i, j) <==> s[i + j..i + |k|] == k[j..]
  {
    if j < |k| {
      MatchAtMeans(s, k, i, j + 1);
      assert s[i + j..i + |k|] == [s[i + j]] + s[i + j + 1..i + |k|];
      assert k[j..] == [k[j]] + k[j + 1..];
    }
  }

  /** k occurs in s starting at position p. */
  predicate OccursAt(s: string, k: string, p: nat)
  {
    p + |k| <= |s| && s[p..p + |k|] == k
  }

  lemma {:induction false} ContainsFromMeans(s: string, k: string, i: nat)
    decreases |s| - i
    ensures ContainsFrom(s, k, i) <==> exists p: nat :: i <= p && OccursAt(s, k, p)
  {
    if i + |k| <= |s| {
      MatchAtMeans(s, k, i, 0);
      ContainsFromMeans(s, k, i + 1);
      assert k[0..] == k;
      if MatchAt(s, k, i, 0) {
        assert OccursAt(s, k, i);
      }
      if exists p: nat :: i <= p && OccursAt(s, k, p) {
        var p: nat :| i <= p && OccursAt(s, k, p);
        if p > i {
          assert i + 1 <= p && OccursAt(s, k, p);
        } else {
          assert s[i..i + |k|] == k;
        }
      }
    }
  }

  /** The recursive search agrees with the textbook meaning of "k is a substring of s". */
  lemma ContainsMeans(s: string, k: string)
    ensures Contains(s, k) <==> exists p: nat :: OccursAt(s, k, p)
  {
    ContainsFromMeans(s, k, 0);
  }

  /** A string containing a character that s lacks cannot occur in s. */
  lemma AbsentCharExcludes(s: string, k: string, c: char)
    requires c in k && c !in s
    ensures !Contains(s, k)
  {
    ContainsMeans(s, k);

  }

  /** Every piece of a string that occurs in s occurs in s too. */
  lemma ContainsSlice(s: string, k: string, a: nat, b: nat)
    requires Contains(s, k) && a <= b <= |k|
    ensures Contains(s, k[a..b])
  {
    ContainsMeans(s, k);
    var p: nat :| OccursAt(s, k, p);
    forall i | 0 <= i < b - a
      ensures s[p + a..p + b][i] == k[a..b][i]
    {
      assert s[p..p + |k|][a + i] == k[a + i];
    }
    assert OccursAt(s, k[a..b], p + a);
    ContainsMeans(s, k[a..b]);
  }

  /** The `a || b || ...` chains of `includes` tests. */
  predicate ContainsAny(s: string, keys: seq<string>)
  {
    exists k :: k in keys && Contains(s, k)
  }

  /** None of the keys occurs in s when each has a character (its mark) that s lacks. */
  lemma KeysNeedAbsentChars(s: string, keys: seq<string>, marks: seq<char>)
    requires |marks| == |keys|
    requires forall i :: 0 <= i < |keys| ==> marks[i] in keys[i] && marks[i] !in s
    ensures !ContainsAny(s, keys)
  {
    forall k | k in keys
      ensures !Contains(s, k)
    {
      var i :| 0 <= i < |keys| && keys[i] == k;
      AbsentCharExcludes(s, k, marks[i]);
    }
  }

  // ---------------------------------------------------------------- ordered rules

  /** One `if (...) return outcome;` step of an ordered substring classifier. */
  datatype Rule<L> = Rule(keys: seq<string>, outcome: L)

  /** No key of the first n rules occurs in s. */
  predicate NoneMatch<L>(s: string, rules: seq<Rule<L>>, n: nat)
  {
    forall j :: 0 <= j < n && j < |rules| ==> !ContainsAny(s, rules[j].keys)
  }

  /** The index of the first rule one of whose keys occurs in s. */
  function FirstRule<L>(s: string, rules: seq<Rule<L>>): (r: Option<nat>)
    ensures r.Some? ==> r.value < |rules| && ContainsAny(s, rules[r.value].keys)
    ensures r.Some? ==> NoneMatch(s, rules, r.value)
    ensures r.None? <==> NoneMatch(s, rules, |rules|)
  {
    if rules == [] then None
    else if ContainsAny(s, rules[0].keys) then Some(0)
    else match FirstRule(s, rules[1..])
         case Some(i) => Some(i + 1)
         case None => None
  }

  /** Run the rules in order; the first that matches decides, otherwise the fallback. */
  function Classify<L>(s: string, rules: seq<Rule<L>>, fallback: L): L
  {
    match FirstRule(s, rules)
    case Some(i) => rules[i].outcome
    case None => fallback
  }

  /** When no rule has the fallback as its outcome, the fallback is chosen exactly when no
      rule matches. */
  lemma ClassifyFallback<L>(s: string, rules: seq<Rule<L>>, fallback: L)
    requires forall i :: 0 <= i < |rules| ==> rules[i].outcome != fallback
    ensures Classify(s, rules, fallback) == fallback <==> NoneMatch(s, rules, |rules|)
  {
  }

  /** The first matching rule is unique: a rule decides exactly when it matches and no
      earlier rule does. */
  lemma FirstRuleExactly<L>(s: string, rules: seq<Rule<L>>, i: nat)
    requires i < |rules|
    ensures FirstRule(s, rules) == Some(i) <==>
            ContainsAny(s, rules[i].keys) && NoneMatch(s, rules, i)
  {
    var r := FirstRule(s, rules);
    if ContainsAny(s, rules[i].keys) && NoneMatch(s, rules, i) {
      assert r.Some?;
      assert !(r.value < i);
      assert !(r.value > i);
    }
  }

  // ---------------------------------------------------------------- numbers as text

  function DigitChar(d: nat): char
    requires d < 10
  {
    ('0' as int + d) as char
  }

  predicate IsDigit(c: char)
  {
    '0' <= c <= '9'
  }

  /** `n.toString()` for a non-negative integer. */
  function NatToString(n: nat): (r: string)
    ensures |r| >= 1
    ensures forall i :: 0 <= i < |r| ==> IsDigit(r[i])
    ensures r[0] == '0' ==> n == 0
  {
    if n < 10 then [DigitChar(n)] else NatToString(n / 10) + [DigitChar(n % 10)]
  }

  /** The number a string of decimal digits denotes. */
  function DigitsValue(s: string): nat
    requires forall i :: 0 <= i < |s| ==> IsDigit(s[i])
  {
    if s == [] then 0 else DigitsValue(s[..|s| - 1]) * 10 + DigitOf(s[|s| - 1])
  }

  function DigitOf(c: char): nat
    requires IsDigit(c)
  {
    c as int - '0' as int
  }

  lemma {:induction false} NatToStringRoundTrip(n: nat)
    ensures DigitsValue(NatToString(n)) == n
  {
    if n >= 10 {
      NatToStringRoundTrip(n / 10);
      var s := NatToString(n);
      assert s[..|s| - 1] == NatToString(n / 10);
    }
  }

  function Repeat(c: char, n: nat): (r: string)
    ensures |r| == n && forall i :: 0 <= i < n ==> r[i] == c
  {
    if n == 0 then [] else [c] + Repeat(c, n - 1)
  }

  /** `s.padStart(width, fill)` with a one-character fill. */
  function PadStart(s: string, width: nat, fill: char): (r: string)
  {
    if |s| >= width then s else Repeat(fill, width - |s|) + s
  }

  lemma PadStartShape(s: string, width: nat, fill: char)
    ensures |PadStart(s, width, fill)| == if |s| >= width then |s| else width
    ensures PadStart(s, width, fill)[|PadStart(s, width, fill)| - |s|..] == s
    ensures forall i :: 0 <= i < |PadStart(s, width, fill)| - |s| ==> PadStart(s, width, fill)[i] == fill
  {
  }

  lemma {:induction false} LeadingZerosKeepValue(z: nat, s: string)
    requires forall i :: 0 <= i < |s| ==> IsDigit(s[i])
    ensures forall i :: 0 <= i < |Repeat('0', z) + s| ==> IsDigit((Repeat('0', z) + s)[i])
    ensures DigitsValue(Repeat('0', z) + s) == DigitsValue(s)
    decreases |s|
  {
    var t := Repeat('0', z) + s;
    if s == [] {
      assert t == Repeat('0', z);
      ZerosHaveValueZero(z);
    } else {
      LeadingZerosKeepValue(z, s[..|s| - 1]);
      assert t[..|t| - 1] == Repeat('0', z) + s[..|s| - 1];
    }
  }

  lemma {:induction false} ZerosHaveValueZero(z: nat)
    ensures DigitsValue(Repeat('0', z)) == 0
  {
    if z > 0 {
      var t := Repeat('0', z);
      assert t[..|t| - 1] == Repeat('0', z - 1);
      ZerosHaveValueZero(z - 1);
    }
  }

  /** `n.toString().padStart(width, '0')`. */
  function ZeroPadded(n: nat, width: nat): string
  {
    PadStart(NatToString(n), width, '0')
  }

  /** A zero-padded counter has at least `width` digits and still denotes n. */
  lemma ZeroPaddedKeepsValue(n: nat, width: nat)
    ensures |ZeroPadded(n, width)| == if |NatToString(n)| >= width then |NatToString(n)| else width
    ensures forall i :: 0 <= i < |ZeroPadded(n, width)| ==> IsDigit(ZeroPadded(n, width)[i])
    ensures DigitsValue(ZeroPadded(n, width)) == n
  {
    var s := NatToString(n);
    NatToStringRoundTrip(n);
    PadStartShape(s, width, '0');
    if |s| < width { LeadingZerosKeepValue(width - |s|, s); }
  }

  /** Numbers that already have `width` digits are left as they are. */
  lemma ZeroPaddedWide(n: nat, width: nat)
    requires |NatToString(n)| >= width
    ensures ZeroPadded(n, width) == NatToString(n)
  {
  }

  // ---------------------------------------------------------------- slicing

  /** `s.slice(0, n)`. */
  function Take<T>(s: seq<T>, n: nat): (r: seq<T>)
    ensures |r| == if n < |s| then n else |s|
    ensures r == s[..|r|]
  {
    if n < |s| then s[..n] else s
  }
}
