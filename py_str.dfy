/** The Python string built-ins the AI layer relies on, on `seq<char>`. */
module PyStr {

  /** `s.find(c)`: the index of the first `c` in `s`, or -1. */
  function Find(s: string, c: char): (r: int)
    ensures -1 <= r < |s|
    ensures r == -1 <==> c !in s
    ensures 0 <= r ==> s[r] == c && c !in s[..r]
  {
    if |s| == 0 then -1
    else if s[0] == c then 0
    else
      var k := Find(s[1..], c);
      assert s[1..][..k + 1] == s[1..k + 2] by { }
      if k == -1 then -1 else k + 1
  }

  /** `s.rfind(c)`: the index of the last `c` in `s`, or -1. */
  function RFind(s: string, c: char): (r: int)
    ensures -1 <= r < |s|
    ensures r == -1 <==> c !in s
    ensures 0 <= r ==> s[r] == c && c !in s[r + 1..]
  {
    if |s| == 0 then -1
    else if s[|s| - 1] == c then |s| - 1
    else RFind(s[..|s| - 1], c)
  }

  /** `sep.join(parts)`. */
  function Join(parts: seq<string>, sep: string): (r: string)
    ensures parts == [] ==> r == ""
    ensures parts != [] ==> |parts[0]| <= |r| && r[..|parts[0]|] == parts[0]
    ensures parts != [] ==> |r| == Offset(parts, sep, |parts| - 1) + |parts[|parts| - 1]|
  {
    if |parts| == 0 then ""
    else if |parts| == 1 then parts[0]
    else parts[0] + sep + Join(parts[1..], sep)
  }

  /** Where the `i`-th part starts inside `Join(parts, sep)`: the lengths of the parts before it, each with one separator. */
  function Offset(parts: seq<string>, sep: string, i: nat): nat
    requires i <= |parts|
  {
    if i == 0 then 0 else |parts[0]| + |sep| + Offset(parts[1..], sep, i - 1)
  }

  lemma SliceAfterPrefix(a: string, b: string, lo: nat, hi: nat)
    requires lo <= hi <= |b|
    ensures (a + b)[|a| + lo..|a| + hi] == b[lo..hi]
  {
  }

  lemma EmptyLeft(a: string, b: string)
    requires a == ""
    ensures a + b == b
  {
  }

  lemma EmptyRight(a: string, b: string)
    requires b == ""
    ensures a + b == a
  {
  }

  lemma PrefixOfConcat(a: string, b: string)
    ensures |a| <= |a + b| && (a + b)[..|a|] == a
  {
  }

  lemma PrefixExtends(a: string, b: string, c: string)
    requires |a| <= |b| && b[..|a|] == a
    ensures |a| <= |b + c| && (b + c)[..|a|] == a
  {
    assert (b + c)[..|a|] == b[..|a|];
  }

  lemma ConcatAssoc(a: string, b: string, c: string)
    ensures (a + b) + c == a + (b + c)
  {
  }

  /** A join of two or more parts is the first part, the separator, and the join of the rest. */
  lemma JoinUnfold(parts: seq<string>, sep: string)
    requires |parts| >= 2
    ensures Join(parts, sep) == (parts[0] + sep) + Join(parts[1..], sep)
  {
  }

  /** The joined text holds every part at its offset, so the parts appear in input order. */
  lemma {:induction false} JoinPlacesParts(parts: seq<string>, sep: string, i: nat)
    requires i < |parts|
    ensures Offset(parts, sep, i) + |parts[i]| <= |Join(parts, sep)|
    ensures Join(parts, sep)[Offset(parts, sep, i)..Offset(parts, sep, i) + |parts[i]|] == parts[i]
    ensures i + 1 == |parts| ==> |Join(parts, sep)| == Offset(parts, sep, i) + |parts[i]|
  {
    if |parts| == 1 {
    } else if i == 0 {
      JoinUnfold(parts, sep);
    } else {
      JoinUnfold(parts, sep);
      JoinPlacesParts(parts[1..], sep, i - 1);
      var o := Offset(parts[1..], sep, i - 1);
      assert parts[1..][i - 1] == parts[i];
      SliceAfterPrefix(parts[0] + sep, Join(parts[1..], sep), o, o + |parts[i]|);
    }
  }

  /** Right after every part but the last comes the separator, and the next part starts after it. */
  lemma {:induction false} JoinSeparatesParts(parts: seq<string>, sep: string, i: nat)
    requires i + 1 < |parts|
    ensures Offset(parts, sep, i + 1) == Offset(parts, sep, i) + |parts[i]| + |sep|
    ensures Offset(parts, sep, i + 1) <= |Join(parts, sep)|
    ensures Join(parts, sep)[Offset(parts, sep, i) + |parts[i]|..Offset(parts, sep, i + 1)] == sep
  {
    JoinUnfold(parts, sep);
    if i == 0 {
    } else {
      JoinSeparatesParts(parts[1..], sep, i - 1);
      var o := Offset(parts[1..], sep, i - 1);
      assert parts[1..][i - 1] == parts[i];
      SliceAfterPrefix(parts[0] + sep, Join(parts[1..], sep), o + |parts[i]|, Offset(parts[1..], sep, i));
    }
  }

  /** `str(n)` for a non-negative integer: its decimal digits. */
  function NatToString(n: nat): (r: string)
    ensures |r| > 0
    ensures forall k :: 0 <= k < |r| ==> '0' <= r[k] <= '9'
    ensures r[0] == '0' ==> n == 0
  {
    var digit := ['0' + (n % 10) as char];
    if n < 10 then digit else NatToString(n / 10) + digit
  }

  /** The number a string of decimal digits denotes, read most significant digit first. */
  function DigitsValue(s: string): nat
  {
    if s == [] then 0
    else
      var d := s[|s| - 1] as int - '0' as int;
      DigitsValue(s[..|s| - 1]) * 10 + (if 0 <= d then d else 0)
  }

  /** Reading back the decimal form of `n` gives `n`: the text that reaches the message is the status code itself. */
  lemma {:induction false} NatToStringRoundTrip(n: nat)
    ensures DigitsValue(NatToString(n)) == n
  {
    var r := NatToString(n);
    var digit := ['0' + (n % 10) as char];
    if n < 10 {
      assert r == digit && r[..0] == [];
    } else {
      assert r == NatToString(n / 10) + digit;
      assert r[..|r| - 1] == NatToString(n / 10);
      NatToStringRoundTrip(n / 10);
    }
  }

  /** Python's `lower()` on one character, for the ASCII letters. */
  function LowerChar(c: char): char
  {
    if 'A' <= c <= 'Z' then (c as int + 32) as char else c
  }

  function UpperChar(c: char): char
  {
    if 'a' <= c <= 'z' then (c as int - 32) as char else c
  }

  /** `s.lower()`, character by character. */
  function Lower(s: string): (r: string)
    ensures |r| == |s|
    ensures forall k :: 0 <= k < |s| ==> r[k] == LowerChar(s[k])
  {
    seq(|s|, k requires 0 <= k < |s| => LowerChar(s[k]))
  }

  /** Comparing `s.lower()` with a lower-case word accepts exactly the spellings of that word in any mix of cases. */
  lemma LowerMatchesEveryCasing(s: string, word: string)
    requires forall k :: 0 <= k < |word| ==> 'a' <= word[k] <= 'z'
    ensures Lower(s) == word <==>
      |s| == |word| && forall k :: 0 <= k < |s| ==> s[k] == word[k] || s[k] == UpperChar(word[k])
  {
    if Lower(s) == word {
      forall k | 0 <= k < |s| ensures s[k] == word[k] || s[k] == UpperChar(word[k]) {
        assert LowerChar(s[k]) == word[k];
      }
    }
    if |s| == |word| && forall k :: 0 <= k < |s| ==> s[k] == word[k] || s[k] == UpperChar(word[k]) {
      forall k | 0 <= k < |s| ensures Lower(s)[k] == word[k] {
        assert LowerChar(s[k]) == word[k];
      }
    }
  }
}
