/**
 The JavaScript string built-ins the adapters rely on, as pure functions:
 `String.prototype.split` with a one-character separator, `parseInt`
 restricted to strings of decimal digits, and `Number.prototype.toString`
 restricted to natural numbers.
 */
module StringOps {
  import opened Wrappers

  /** Glues the parts back together with `sep` between consecutive parts (`Array.prototype.join`). */
  function Join(parts: seq<string>, sep: char): string
    requires |parts| >= 1
  {
    if |parts| == 1 then parts[0] else parts[0] + [sep] + Join(parts[1..], sep)
  }

  /** True iff no part contains the separator. */
  predicate SeparatorFree(parts: seq<string>, sep: char)
  {
    forall i :: 0 <= i < |parts| ==> sep !in parts[i]
  }

  /**
   `s.split(sep)`: the maximal separator-free runs of `s`, in order. There is always at
   least one part (`"".split(" ")` is `[""]`), and two adjacent separators give an empty part.
   */
  function Split(s: string, sep: char): (parts: seq<string>)
    ensures |parts| >= 1
    ensures SeparatorFree(parts, sep)
    ensures Join(parts, sep) == s
    decreases |s|
  {
    if |s| == 0 then [""]
    else
      var rest := Split(s[1..], sep);
      if s[0] == sep then
        assert Join([""] + rest, sep) == [sep] + Join(rest, sep) by {
          assert ([""] + rest)[1..] == rest;
        }
        [""] + rest
      else
        var parts := [[s[0]] + rest[0]] + rest[1..];
        assert parts[1..] == rest[1..];
        assert Join(parts, sep) == [s[0]] + Join(rest, sep);
        parts
  }

  /** Splitting is the inverse of joining separator-free parts: the parts of `s` are unique. */
  lemma {:induction false} SplitUnique(s: string, sep: char, parts: seq<string>)
    requires |parts| >= 1 && SeparatorFree(parts, sep) && Join(parts, sep) == s
    ensures Split(s, sep) == parts
    decreases |s|
  {
    if |s| == 0 {
      assert |parts| == 1;
    } else if s[0] == sep {
      assert |parts[0]| == 0 && |parts| > 1;
      assert s == [sep] + Join(parts[1..], sep);
      assert s[1..] == Join(parts[1..], sep);
      SplitUnique(s[1..], sep, parts[1..]);
      assert parts == [""] + parts[1..];
    } else {
      assert |parts[0]| > 0;
      var tail := [parts[0][1..]] + parts[1..];
      assert SeparatorFree(tail, sep) by {
        forall i | 0 <= i < |tail| ensures sep !in tail[i] {
          if i == 0 {
            assert forall c :: c in parts[0][1..] ==> c in parts[0];
          } else {
            assert tail[i] == parts[i];
          }
        }
      }
      assert tail[1..] == parts[1..];
      assert Join(parts, sep) == [parts[0][0]] + Join(tail, sep);
      assert s[1..] == Join(tail, sep);
      SplitUnique(s[1..], sep, tail);
      assert [s[0]] + parts[0][1..] == parts[0];
    }
  }

  /** A string without the separator splits into itself alone. */
  lemma SplitWithoutSeparator(s: string, sep: char)
    requires sep !in s
    ensures Split(s, sep) == [s]
  {
  }

  /** Splitting `a + sep + b` with a separator-free `a` gives `a` followed by the parts of `b`. */
  lemma SplitAtFirstSeparator(a: string, sep: char, b: string)
    requires sep !in a
    ensures Split(a + [sep] + b, sep) == [a] + Split(b, sep)
  {
    var parts := [a] + Split(b, sep);
    assert parts[1..] == Split(b, sep);
    assert SeparatorFree(parts, sep) by {
      forall i | 0 <= i < |parts| ensures sep !in parts[i] {
        if i > 0 { assert parts[i] == Split(b, sep)[i - 1]; }
      }
    }
    SplitUnique(a + [sep] + b, sep, parts);
  }

  /**
   Where the first part sits in the joined string: it is a prefix, and it is followed
   by the separator exactly when there are further parts.
   */
  lemma JoinHead(parts: seq<string>, sep: char)
    requires |parts| >= 1
    ensures parts[0] <= Join(parts, sep)
    ensures |parts| == 1 ==> Join(parts, sep) == parts[0]
    ensures |parts| > 1 ==> |parts[0]| < |Join(parts, sep)| && Join(parts, sep)[|parts[0]|] == sep
    ensures |parts| > 1 ==> Join(parts, sep)[|parts[0]| + 1..] == Join(parts[1..], sep)
  {
  }

  /** `s.startsWith(prefix)`, compared character by character from the front. */
  function StartsWith(s: string, prefix: string): (r: bool)
    ensures r <==> |prefix| <= |s| && s == prefix + s[|prefix|..]
    decreases |prefix|
  {
    if |prefix| == 0 then
      assert s == prefix + s[|prefix|..];
      true
    else if |s| == 0 || s[0] != prefix[0] then
      false
    else
      var r := StartsWith(s[1..], prefix[1..]);
      assert r ==> s == prefix + s[|prefix|..] by {
        if r {
          assert s == [s[0]] + s[1..];
          assert prefix == [prefix[0]] + prefix[1..];
          assert s[1..][|prefix| - 1..] == s[|prefix|..];
        }
      }
      assert |prefix| <= |s| && s == prefix + s[|prefix|..] ==> r by {
        if |prefix| <= |s| && s == prefix + s[|prefix|..] {
          assert s[1..] == prefix[1..] + s[1..][|prefix[1..]|..];
        }
      }
      r
  }

  predicate IsDigit(c: char)
  {
    '0' <= c <= '9'
  }

  /** A non-empty string of decimal digits: the inputs on which `parseInt` is modelled. */
  predicate IsDecimal(s: string)
  {
    |s| > 0 && forall i :: 0 <= i < |s| ==> IsDigit(s[i])
  }

  function DigitValue(c: char): (d: nat)
    requires IsDigit(c)
    ensures d < 10
  {
    (c as int) - ('0' as int)
  }

  function DigitChar(d: nat): (c: char)
    requires d < 10
    ensures IsDigit(c) && DigitValue(c) == d
  {
    ('0' as int + d) as char
  }

  /** The value of a string of decimal digits, most significant digit first. */
  function ParseDecimal(s: string): nat
    requires forall i :: 0 <= i < |s| ==> IsDigit(s[i])
    decreases |s|
  {
    if |s| == 0 then 0 else 10 * ParseDecimal(s[..|s| - 1]) + DigitValue(s[|s| - 1])
  }

  /** `parseInt(s)` on the modelled inputs; `None` stands for every other outcome (`NaN` among them). */
  function ParseInt(s: string): (r: Option<nat>)
    ensures r.Some? <==> IsDecimal(s)
  {
    if IsDecimal(s) then Some(ParseDecimal(s)) else None
  }

  /** `n.toString()` for a natural number: its decimal digits without leading zeros. */
  function NatToString(n: nat): (s: string)
    ensures IsDecimal(s)
    ensures ParseDecimal(s) == n
    ensures s[0] == '0' ==> s == "0"
    decreases n
  {
    if n < 10 then [DigitChar(n)]
    else
      var prefix := NatToString(n / 10);
      var s := prefix + [DigitChar(n % 10)];
      assert s[..|s| - 1] == prefix;
      s
  }

  /** Leading zeros do not change the value `parseInt` reads. */
  lemma {:induction false} LeadingZeroIgnored(s: string)
    requires forall i :: 0 <= i < |s| ==> IsDigit(s[i])
    ensures ParseDecimal(['0'] + s) == ParseDecimal(s)
    decreases |s|
  {
    if |s| > 0 {
      var t := ['0'] + s;
      assert t[..|t| - 1] == ['0'] + s[..|s| - 1];
      LeadingZeroIgnored(s[..|s| - 1]);
    }
  }

}
