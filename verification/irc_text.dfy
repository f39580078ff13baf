// The string helpers of the IRC server (irc/src/Utils.cpp) and std::atoi.

module IrcText {
  import opened Limits

  datatype Option<+T> = None | Some(value: T)

  predicate IsSpace(c: char) {
    c == ' ' || '\t' <= c <= '\r'
  }

  predicate IsDigit(c: char) {
    '0' <= c <= '9'
  }

  predicate IsAlpha(c: char) {
    'a' <= c <= 'z' || 'A' <= c <= 'Z'
  }

  function Upper(c: char): char {
    if 'a' <= c <= 'z' then c - 32 as char else c
  }

  function ToUpper(s: string): (r: string)
    ensures |r| == |s|
    ensures forall i :: 0 <= i < |s| ==> r[i] == Upper(s[i])
  {
    seq(|s|, i requires 0 <= i < |s| => Upper(s[i]))
  }

  method BuildUpper(str: string) returns (res: string)
    ensures res == ToUpper(str)
  {
    res := "";
    var i := 0;
    while i < |str|
      invariant 0 <= i <= |str| && res == ToUpper(str)[..i]
    {
      res := res + [Upper(str[i])];
      i := i + 1;
    }
  }

  /** The string without the white space at both its ends. */
  function Trim(s: string): (r: string) {
    if s == "" then ""
    else if IsSpace(s[0]) then Trim(s[1..])
    else TrimEnd(s)
  }

  function TrimEnd(s: string): (r: string) {
    if s != "" && IsSpace(s[|s| - 1]) then TrimEnd(s[..|s| - 1]) else s
  }

  lemma {:induction false} TrimStart(s: string, start: nat)
    requires start <= |s| && forall i :: 0 <= i < start ==> IsSpace(s[i])
    requires start < |s| ==> !IsSpace(s[start])
    ensures Trim(s) == TrimEnd(s[start..])
    decreases start
  {
    if start > 0 {
      TrimStart(s[1..], start - 1);
      assert s[1..][start - 1..] == s[start..];
    } else {
      assert s[0..] == s;
    }
  }

  lemma SliceShorter(s: string, i: nat, j: nat)
    requires i < j <= |s|
    ensures s[i..j][|s[i..j]| - 1] == s[j - 1] && s[i..j][..|s[i..j]| - 1] == s[i..j - 1]
  {
  }

  method BuildTrim(str: string) returns (res: string)
    ensures res == Trim(str)
  {
    var start := 0;
    while start < |str| && IsSpace(str[start])
      invariant 0 <= start <= |str| && forall i :: 0 <= i < start ==> IsSpace(str[i])
    {
      start := start + 1;
    }
    TrimStart(str, start);
    var end := |str|;
    assert str[start..end] == str[start..];
    while end > start && IsSpace(str[end - 1])
      invariant start <= end <= |str| && TrimEnd(str[start..end]) == TrimEnd(str[start..])
    {
      SliceShorter(str, start, end);
      end := end - 1;
    }
    res := str[start..end];
  }

  /** A string that neither starts nor ends with white space is its own trim. */
  lemma TrimSame(s: string)
    requires s != "" ==> !IsSpace(s[0]) && !IsSpace(s[|s| - 1])
    ensures Trim(s) == s
  {
  }

  /** The pieces between the delimiters, the first one behind current; always at least one. */
  function SplitFrom(s: string, current: string, d: char): (r: seq<string>)
    ensures |r| >= 1
  {
    if s == "" then [current]
    else if s[0] == d then [current] + SplitFrom(s[1..], "", d)
    else SplitFrom(s[1..], current + [s[0]], d)
  }

  function Split(s: string, d: char): (r: seq<string>) {
    SplitFrom(s, "", d)
  }

  function Joined(parts: seq<string>, d: char): string
    requires |parts| >= 1
  {
    if |parts| == 1 then parts[0] else parts[0] + [d] + Joined(parts[1..], d)
  }

  lemma {:induction false} JoinSplitFrom(s: string, current: string, d: char)
    requires d !in current
    ensures Joined(SplitFrom(s, current, d), d) == current + s
    ensures forall p :: p in SplitFrom(s, current, d) ==> d !in p
    decreases |s|
  {
    if s != "" {
      if s[0] == d {
        JoinSplitFrom(s[1..], "", d);
        assert SplitFrom(s, current, d)[1..] == SplitFrom(s[1..], "", d);
        assert current + [d] + ("" + s[1..]) == current + s;
      } else {
        JoinSplitFrom(s[1..], current + [s[0]], d);
        assert current + [s[0]] + s[1..] == current + s;
      }
    }
  }

  /** Joining the pieces gives the string back, and no piece holds the delimiter. */
  lemma JoinSplit(s: string, d: char)
    ensures Joined(Split(s, d), d) == s
    ensures forall p :: p in Split(s, d) ==> d !in p
  {
    JoinSplitFrom(s, "", d);
  }

  lemma {:induction false} SplitNone(s: string, current: string, d: char)
    requires d !in s
    ensures SplitFrom(s, current, d) == [current + s]
    decreases |s|
  {
    if s != "" {
      SplitNone(s[1..], current + [s[0]], d);
      assert current + [s[0]] + s[1..] == current + s;
    } else {
      assert current + s == current;
    }
  }

  lemma SplitOne(s: string, d: char)
    requires d !in s
    ensures Split(s, d) == [s]
  {
    SplitNone(s, "", d);
    assert "" + s == s;
  }

  lemma {:induction false} SplitAt(a: string, b: string, current: string, d: char)
    requires d !in a
    ensures SplitFrom(a + [d] + b, current, d) == [current + a] + Split(b, d)
    decreases |a|
  {
    var s := a + [d] + b;
    if a == "" {
      assert s[1..] == b && current + a == current;
    } else {
      assert s[1..] == a[1..] + [d] + b;
      SplitAt(a[1..], b, current + [a[0]], d);
      assert current + [a[0]] + a[1..] == current + a;
    }
  }

  lemma SplitTwo(a: string, b: string, d: char)
    requires d !in a && d !in b
    ensures Split(a + [d] + b, d) == [a, b]
  {
    SplitAt(a, b, "", d);
    SplitOne(b, d);
    assert "" + a == a;
  }

  method BuildSplit(str: string, delim: char) returns (elems: seq<string>)
    ensures elems == Split(str, delim)
  {
    elems := [];
    var current := "";
    var i := 0;
    assert str[0..] == str;
    while i < |str|
      invariant 0 <= i <= |str|
      invariant elems + SplitFrom(str[i..], current, delim) == Split(str, delim)
    {
      assert str[i..][1..] == str[i + 1..];
      if str[i] == delim {
        elems := elems + [current];
        current := "";
      } else {
        current := current + [str[i]];
      }
      i := i + 1;
    }
    elems := elems + [current];
  }

  predicate IsNickStart(c: char) {
    IsAlpha(c) || c == '_' || c == '-'
  }

  predicate IsNickChar(c: char) {
    IsAlpha(c) || IsDigit(c) || c == '_' || c == '-'
  }

  predicate IsValidNickname(nick: string) {
    1 <= |nick| <= 9 && IsNickStart(nick[0]) && forall i :: 1 <= i < |nick| ==> IsNickChar(nick[i])
  }

  predicate IsChannelName(name: string) {
    |name| > 1 && name[0] == '#'
  }

  // Numbers.

  function Digit(n: nat): (c: char)
    requires n < 10
    ensures IsDigit(c) && c as int - '0' as int == n
  {
    '0' + n as char
  }

  /** Decimal digits; itoa on the non-negative values the server prints. */
  function Itoa(n: nat): (s: string)
    ensures s != "" && forall i :: 0 <= i < |s| ==> IsDigit(s[i])
  {
    if n < 10 then [Digit(n)] else Itoa(n / 10) + [Digit(n % 10)]
  }

  /** The value of the digits s starts with, added behind acc. */
  function Digits(s: string, acc: nat): nat {
    if s == "" || !IsDigit(s[0]) then acc
    else Digits(s[1..], acc * 10 + (s[0] as int - '0' as int))
  }

  /** strtol's saturation followed by the conversion to a 32-bit int. */
  function ToInt(v: int): int {
    var long := if v > LONG_MAX then LONG_MAX else if v < LONG_MIN then LONG_MIN else v;
    (long + 0x8000_0000) % 0x1_0000_0000 - 0x8000_0000
  }

  function Atoi(s: string): int {
    if s == "" then 0
    else if IsSpace(s[0]) then Atoi(s[1..])
    else if s[0] == '-' then ToInt(-(Digits(s[1..], 0) as int))
    else if s[0] == '+' then ToInt(Digits(s[1..], 0))
    else ToInt(Digits(s, 0))
  }

  lemma {:induction false} DigitsSnoc(s: string, c: char, acc: nat)
    requires IsDigit(c) && forall i :: 0 <= i < |s| ==> IsDigit(s[i])
    ensures Digits(s + [c], acc) == Digits(s, acc) * 10 + (c as int - '0' as int)
    decreases |s|
  {
    if s == "" {
      assert (s + [c])[1..] == "";
    } else {
      assert (s + [c])[1..] == s[1..] + [c];
      DigitsSnoc(s[1..], c, acc * 10 + (s[0] as int - '0' as int));
    }
  }

  lemma {:induction false} DigitsItoa(n: nat)
    ensures Digits(Itoa(n), 0) == n
  {
    if n >= 10 {
      DigitsItoa(n / 10);
      DigitsSnoc(Itoa(n / 10), Digit(n % 10), 0);
    } else {
      assert [Digit(n)][1..] == "";
    }
  }

  /** What itoa prints, atoi reads back. */
  lemma AtoiItoa(n: nat)
    requires n <= INT_MAX
    ensures Atoi(Itoa(n)) == n
  {
    DigitsItoa(n);
    assert IsDigit(Itoa(n)[0]);
  }
}
