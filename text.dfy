/**
 * Python string operations the modelled code relies on: `startswith`, `in`,
 * `replace`, `strip`, `split`, `str(int)`, `isdigit` and the code-point order
 * that `sorted` uses on strings.
 */
module Text {
  import opened Wrappers

  predicate StartsWith(s: string, p: string)
  {
    |p| <= |s| && s[..|p|] == p
  }

  predicate EndsWith(s: string, p: string)
  {
    |p| <= |s| && s[|s| - |p|..] == p
  }

  /** `key.startswith(prefix) and key[len(prefix):] == f` is `key == prefix + f`. */
  lemma PrefixKey(key: string, prefix: string, f: string)
    ensures StartsWith(key, prefix) && key[|prefix|..] == f <==> key == prefix + f
  {
    if key == prefix + f {
      assert key[..|prefix|] == prefix;
    }
    if StartsWith(key, prefix) && key[|prefix|..] == f {
      assert key == key[..|prefix|] + key[|prefix|..];
    }
  }

  /** Python's `p in s` for strings. */
  predicate Contains(s: string, p: string)
    decreases |s|
  {
    StartsWith(s, p) || (|s| > 0 && Contains(s[1..], p))
  }

  lemma {:induction false} ContainsAt(s: string, p: string, i: nat)
    requires i + |p| <= |s| && s[i..i + |p|] == p
    ensures Contains(s, p)
  {
    if i > 0 {
      assert s[1..][i - 1..i - 1 + |p|] == s[i..i + |p|];
      ContainsAt(s[1..], p, i - 1);
    } else {
      assert s[..|p|] == p;
    }
  }

  lemma {:induction false} ContainsWitness(s: string, p: string) returns (i: nat)
    requires Contains(s, p)
    ensures i + |p| <= |s| && s[i..i + |p|] == p
    decreases |s|
  {
    if StartsWith(s, p) {
      i := 0;
    } else {
      var j := ContainsWitness(s[1..], p);
      assert s[1..][j..j + |p|] == s[j + 1..j + 1 + |p|];
      i := j + 1;
    }
  }

  /** A single character occurs in `s`. */
  lemma ContainsChar(s: string, c: char)
    ensures Contains(s, [c]) <==> c in s
  {
    if Contains(s, [c]) {
      var i := ContainsWitness(s, [c]);
      assert s[i] == c;
    }
    if c in s {
      var i :| 0 <= i < |s| && s[i] == c;
      assert s[i..i + 1] == [c];
      ContainsAt(s, [c], i);
    }
  }

  /** `s.replace("", rep)`: `rep` before every character and at the end. */
  function InsertEverywhere(s: string, rep: string): string
  {
    if s == "" then rep else rep + [s[0]] + InsertEverywhere(s[1..], rep)
  }

  /** Python's `s.replace(pat, rep)`: every non-overlapping occurrence, scanning left to right. */
  function ReplaceAll(s: string, pat: string, rep: string): string
    decreases |s|
  {
    if pat == "" then InsertEverywhere(s, rep)
    else if StartsWith(s, pat) then rep + ReplaceAll(s[|pat|..], pat, rep)
    else if s == "" then ""
    else [s[0]] + ReplaceAll(s[1..], pat, rep)
  }

  lemma {:induction false} ReplaceAbsent(s: string, pat: string, rep: string)
    requires pat != "" && !Contains(s, pat)
    ensures ReplaceAll(s, pat, rep) == s
    decreases |s|
  {
    if s != "" {
      ReplaceAbsent(s[1..], pat, rep);
    }
  }

  /** Removing a single character leaves no occurrence of it. */
  lemma {:induction false} ReplaceCharRemoves(s: string, c: char)
    ensures c !in ReplaceAll(s, [c], "")
    ensures forall d :: d in ReplaceAll(s, [c], "") ==> d in s
    decreases |s|
  {
    if s != "" {
      ReplaceCharRemoves(s[1..], c);
    }
  }

  lemma {:induction false} ReplaceCharIdentity(s: string, c: char)
    requires c !in s
    ensures ReplaceAll(s, [c], "") == s
    decreases |s|
  {
    if s != "" {
      ReplaceCharIdentity(s[1..], c);
    }
  }

  /** The characters `str.isspace` accepts. */
  predicate IsSpace(c: char)
  {
    c == ' ' || ('\t' <= c <= '\r') || ('\U{1c}' <= c <= '\U{1f}') || c == '\U{85}' || c == '\U{a0}'
    || c == '\U{1680}' || ('\U{2000}' <= c <= '\U{200a}') || c == '\U{2028}' || c == '\U{2029}'
    || c == '\U{202f}' || c == '\U{205f}' || c == '\U{3000}'
  }

  function LStrip(s: string): (r: string)
    ensures |r| <= |s| && (r == "" || !IsSpace(r[0]))
    ensures r == s[|s| - |r|..]
  {
    if |s| > 0 && IsSpace(s[0]) then LStrip(s[1..]) else s
  }

  function RStrip(s: string): (r: string)
    ensures |r| <= |s| && (r == "" || !IsSpace(r[|r| - 1]))
    ensures r == s[..|r|]
  {
    if |s| > 0 && IsSpace(s[|s| - 1]) then RStrip(s[..|s| - 1]) else s
  }

  /** Python's `s.strip()`. */
  function Strip(s: string): string
  {
    RStrip(LStrip(s))
  }

  lemma StripEnds(s: string)
    ensures Strip(s) == "" || (!IsSpace(Strip(s)[0]) && !IsSpace(Strip(s)[|Strip(s)| - 1]))
  {
    var l := LStrip(s);
    var r := RStrip(l);
    if r != "" {
      assert r == l[..|r|];
      assert r[0] == l[0];
    }
  }

  lemma StripIdempotent(s: string)
    ensures Strip(Strip(s)) == Strip(s)
  {
    var t := Strip(s);
    StripEnds(s);
    LStripNoop(t);
    RStripNoop(t);
  }

  lemma LStripNoop(t: string)
    requires t == "" || !IsSpace(t[0])
    ensures LStrip(t) == t
  {
  }

  lemma RStripNoop(t: string)
    requires t == "" || !IsSpace(t[|t| - 1])
    ensures RStrip(t) == t
  {
  }

  /** Python's `s.split(sep)` for a one-character separator. */
  function Split(s: string, sep: char): (r: seq<string>)
    ensures |r| >= 1
  {
    if s == "" then [""]
    else if s[0] == sep then [""] + Split(s[1..], sep)
    else
      var rest := Split(s[1..], sep);
      [[s[0]] + rest[0]] + rest[1..]
  }

  function Join(parts: seq<string>, sep: char): string
  {
    if |parts| == 0 then ""
    else if |parts| == 1 then parts[0]
    else parts[0] + [sep] + Join(parts[1..], sep)
  }

  lemma SplitJoin(s: string, sep: char)
    ensures Join(Split(s, sep), sep) == s
    ensures forall i :: 0 <= i < |Split(s, sep)| ==> sep !in Split(s, sep)[i]
  {
    JoinSplit(s, sep);
    SplitNoSep(s, sep);
  }

  lemma {:induction false} JoinSplit(s: string, sep: char)
    ensures Join(Split(s, sep), sep) == s
  {
    if s != "" {
      JoinSplit(s[1..], sep);
      var rest := Split(s[1..], sep);
      var r := Split(s, sep);
      if s[0] != sep {
        assert r[1..] == rest[1..];
        if |rest| > 1 {
          assert Join(rest, sep) == rest[0] + [sep] + Join(rest[1..], sep);
          assert Join(r, sep) == ([s[0]] + rest[0]) + [sep] + Join(rest[1..], sep);
        }
      } else {
        assert r[1..] == rest;
      }
    }
  }

  lemma {:induction false} SplitNoSep(s: string, sep: char)
    ensures forall i :: 0 <= i < |Split(s, sep)| ==> sep !in Split(s, sep)[i]
  {
    if s != "" {
      SplitNoSep(s[1..], sep);
      var rest := Split(s[1..], sep);
      var r := Split(s, sep);
      if s[0] != sep {
        assert r[0] == [s[0]] + rest[0];
        assert forall i :: 1 <= i < |r| ==> r[i] == rest[i];
      } else {
        assert forall i :: 1 <= i < |r| ==> r[i] == rest[i - 1];
      }
    }
  }

  function IndexOf(s: string, c: char): (r: nat)
    requires c in s
    ensures r < |s| && s[r] == c && c !in s[..r]
  {
    if s[0] == c then 0 else 1 + IndexOf(s[1..], c)
  }

  /** Length of the run of non-space characters at the front of `s`. */
  function WordLength(s: string): (n: nat)
    ensures n <= |s|
    ensures forall i :: 0 <= i < n ==> !IsSpace(s[i])
    ensures n == |s| || IsSpace(s[n])
  {
    if s == "" || IsSpace(s[0]) then 0 else 1 + WordLength(s[1..])
  }

  /** Python's `s.split()` with no argument: the non-empty runs of non-space characters. */
  function Words(s: string): seq<string>
    decreases |s|
  {
    var t := LStrip(s);
    if t == "" then []
    else
      var n := WordLength(t);
      [t[..n]] + Words(t[n..])
  }

  /** Every word `split()` returns is non-empty and holds no whitespace. */
  lemma {:induction false} WordsAreWords(s: string)
    ensures forall i :: 0 <= i < |Words(s)| ==> IsWord(Words(s)[i])
    decreases |s|
  {
    var t := LStrip(s);
    if t != "" {
      var n := WordLength(t);
      var w, rest := t[..n], Words(t[n..]);
      WordsAreWords(t[n..]);
      assert IsWord(w);
      assert Words(s) == [w] + rest;
      forall i | 0 <= i < |Words(s)| ensures IsWord(Words(s)[i]) {
        if i > 0 {
          assert Words(s)[i] == rest[i - 1];
        }
      }
    }
  }

  /** A non-empty run of non-space characters. */
  predicate IsWord(w: string)
  {
    w != "" && forall j :: 0 <= j < |w| ==> !IsSpace(w[j])
  }

  function DigitChar(d: nat): char
    requires d < 10
  {
    "0123456789"[d]
  }

  function NatToString(n: nat): (r: string)
    ensures |r| >= 1
  {
    if n < 10 then [DigitChar(n)] else NatToString(n / 10) + [DigitChar(n % 10)]
  }

  lemma DigitCharValue(d: nat)
    requires d < 10
    ensures IsDigit(DigitChar(d)) && DigitChar(d) as int - '0' as int == d
  {
    if d == 0 {} else if d == 1 {} else if d == 2 {} else if d == 3 {} else if d == 4 {}
    else if d == 5 {} else if d == 6 {} else if d == 7 {} else if d == 8 {} else {}
  }

  /** `int(str(n)) == n`: the decimal form reads back as the number, so different numbers print differently. */
  lemma {:induction false} NatToStringRoundTrip(n: nat)
    ensures forall i :: 0 <= i < |NatToString(n)| ==> IsDigit(NatToString(n)[i])
    ensures DigitsValue(NatToString(n)) == n
  {
    var r := NatToString(n);
    if n < 10 {
      DigitCharValue(n);
      assert r[..0] == [];
    } else {
      NatToStringRoundTrip(n / 10);
      DigitCharValue(n % 10);
      assert r[..|r| - 1] == NatToString(n / 10);
    }
  }

  /** Python's `str(i)` for an integer. */
  function IntToString(i: int): string
  {
    if i < 0 then "-" + NatToString(-i) else NatToString(i)
  }

  predicate IsDigit(c: char)
  {
    '0' <= c <= '9'
  }

  /** Python's `s.isdigit()` over ASCII digits: non-empty and digits only. */
  predicate IsDigits(s: string)
  {
    |s| > 0 && forall i :: 0 <= i < |s| ==> IsDigit(s[i])
  }

  function DigitsValue(s: string): nat
    requires forall i :: 0 <= i < |s| ==> IsDigit(s[i])
  {
    if s == "" then 0
    else
      assert IsDigit(s[|s| - 1]);
      DigitsValue(s[..|s| - 1]) * 10 + (s[|s| - 1] as int - '0' as int)
  }

  /** `str()` of the `ValueError` that `int(s)` raises for a text it cannot read. */
  function InvalidLiteral(s: string): string
  {
    "invalid literal for int() with base 10: '" + s + "'"
  }

  /** Python's `int(s)` for the decimal form: optional surrounding spaces and an optional sign. */
  function ParseInt(s: string): Option<int>
  {
    var t := Strip(s);
    if |t| > 0 && (t[0] == '-' || t[0] == '+') && IsDigits(t[1..]) then
      var v: int := DigitsValue(t[1..]);
      Some(if t[0] == '-' then -v else v)
    else if IsDigits(t) then Some(DigitsValue(t))
    else None
  }

  /** Python's `a < b` on strings: code-point lexicographic order. */
  predicate Less(a: string, b: string)
  {
    if |a| == 0 then |b| > 0
    else if |b| == 0 then false
    else if a[0] != b[0] then a[0] < b[0]
    else Less(a[1..], b[1..])
  }

  lemma {:induction false} LessIrreflexive(a: string)
    ensures !Less(a, a)
  {
    if |a| > 0 {
      LessIrreflexive(a[1..]);
    }
  }

  lemma {:induction false} LessAsymmetric(a: string, b: string)
    requires Less(a, b)
    ensures !Less(b, a)
  {
    if |a| > 0 && |b| > 0 && a[0] == b[0] {
      LessAsymmetric(a[1..], b[1..]);
    }
  }

  lemma {:induction false} LessTransitive(a: string, b: string, c: string)
    requires Less(a, b) && Less(b, c)
    ensures Less(a, c)
  {
    if |a| > 0 && |b| > 0 && |c| > 0 && a[0] == b[0] && b[0] == c[0] {
      LessTransitive(a[1..], b[1..], c[1..]);
    }
  }

  lemma {:induction false} LessTotal(a: string, b: string)
    requires a != b
    ensures Less(a, b) || Less(b, a)
  {
    if |a| > 0 && |b| > 0 && a[0] == b[0] {
      assert a == [a[0]] + a[1..] && b == [b[0]] + b[1..];
      LessTotal(a[1..], b[1..]);
    }
  }

  /** Insert a string before the first one that sorts below it. */
  function InsertDescending(x: string, s: seq<string>): (r: seq<string>)
    ensures |r| == |s| + 1
    ensures multiset(r) == multiset(s) + multiset{x}
  {
    if s == [] || Less(s[0], x) then [x] + s
    else
      assert s == [s[0]] + s[1..];
      [s[0]] + InsertDescending(x, s[1..])
  }

  /** Python's `sorted(s, reverse=True)` on strings; on distinct strings the order is strict. */
  function SortDescending(s: seq<string>): (r: seq<string>)
    ensures |r| == |s|
    ensures multiset(r) == multiset(s)
  {
    if s == [] then []
    else
      assert s == [s[0]] + s[1..];
      InsertDescending(s[0], SortDescending(s[1..]))
  }

  predicate StrictlyDescending(s: seq<string>)
  {
    forall i, j :: 0 <= i < j < |s| ==> Less(s[j], s[i])
  }

  lemma {:induction false} InsertDescendingFacts(x: string, s: seq<string>)
    requires StrictlyDescending(s) && x !in s
    ensures StrictlyDescending(InsertDescending(x, s))
  {
    if s != [] {
      if Less(s[0], x) {
        var r := InsertDescending(x, s);
        forall i, j | 0 <= i < j < |r| ensures Less(r[j], r[i]) {
          if i == 0 {
            if j > 1 {
              LessTransitive(r[j], s[0], x);
            }
          }
        }
      } else {
        LessTotal(s[0], x);
        InsertDescendingFacts(x, s[1..]);
        var r := InsertDescending(x, s);
        forall j | 1 <= j < |r| ensures Less(r[j], r[0]) {
          assert r[j] in multiset(InsertDescending(x, s[1..]));
          if r[j] != x {
            assert r[j] in s[1..];
            var k :| 0 <= k < |s[1..]| && s[1..][k] == r[j];
            assert s[k + 1] == r[j];
          }
        }
      }
    }
  }

  /** The dates come out once each, latest first. */
  lemma {:induction false} SortDescendingFacts(s: seq<string>)
    requires forall i, j :: 0 <= i < j < |s| ==> s[i] != s[j]
    ensures StrictlyDescending(SortDescending(s))
  {
    if s != [] {
      var t := s[1..];
      assert forall i, j :: 0 <= i < j < |t| ==> t[i] != t[j] by {
        forall i, j | 0 <= i < j < |t| ensures t[i] != t[j] {
          assert t[i] == s[i + 1] && t[j] == s[j + 1];
        }
      }
      SortDescendingFacts(t);
      assert s[0] !in SortDescending(t) by {
        forall k | 0 <= k < |t| ensures t[k] != s[0] {
          assert t[k] == s[k + 1];
        }
        assert s[0] !in multiset(t);
      }
      InsertDescendingFacts(s[0], SortDescending(t));
    }
  }
}
