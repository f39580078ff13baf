// The text helpers and the tokeniser of the IRC server once more, character by character
// (irc/src/Utils.cpp, irc/src/Server.cpp:304-351): which characters count as what, numbers in
// decimal, and lines with any amount of white space in them.

module IrcLetters {
  import opened Limits
  import opened IrcText
  import opened IrcParse

  const LOWER := "abcdefghijklmnopqrstuvwxyz"
  const UPPER := "ABCDEFGHIJKLMNOPQRSTUVWXYZ"
  const DIGITS := "0123456789"

  /** Space, tab, newline, vertical tab, form feed and carriage return. */
  lemma SpaceExactly(c: char)
    ensures IsSpace(c) <==> c as int in {32, 9, 10, 11, 12, 13}
  {
  }

  lemma LowerAt(k: nat)
    requires k < 26
    ensures LOWER[k] as int == 'a' as int + k && UPPER[k] as int == 'A' as int + k
  {
    assert k == 0 || k == 1 || k == 2 || k == 3 || k == 4 || k == 5 || k == 6 || k == 7 || k == 8 || k == 9
      || k == 10 || k == 11 || k == 12 || k == 13 || k == 14 || k == 15 || k == 16 || k == 17 || k == 18 || k == 19
      || k == 20 || k == 21 || k == 22 || k == 23 || k == 24 || k == 25;
  }

  lemma DigitAt(k: nat)
    requires k < 10
    ensures DIGITS[k] as int == '0' as int + k
  {
    assert k == 0 || k == 1 || k == 2 || k == 3 || k == 4 || k == 5 || k == 6 || k == 7 || k == 8 || k == 9;
  }

  lemma InAlphabet(c: char)
    ensures c in LOWER <==> 'a' <= c <= 'z'
    ensures c in UPPER <==> 'A' <= c <= 'Z'
    ensures c in DIGITS <==> '0' <= c <= '9'
  {
    if 'a' <= c <= 'z' { LowerAt(c as int - 'a' as int); }
    if 'A' <= c <= 'Z' { LowerAt(c as int - 'A' as int); }
    if '0' <= c <= '9' { DigitAt(c as int - '0' as int); }
    forall k | 0 <= k < 26 ensures 'a' <= LOWER[k] <= 'z' && 'A' <= UPPER[k] <= 'Z' { LowerAt(k); }
    forall k | 0 <= k < 10 ensures '0' <= DIGITS[k] <= '9' { DigitAt(k); }
  }

  /** toUpper letter by letter. */
  lemma UpperExactly(s: string, i: nat)
    requires i < |s|
    ensures forall k :: 0 <= k < 26 && s[i] == LOWER[k] ==> ToUpper(s)[i] == UPPER[k]
    ensures s[i] !in LOWER ==> ToUpper(s)[i] == s[i]
  {
    InAlphabet(s[i]);
    forall k | 0 <= k < 26 && s[i] == LOWER[k] ensures ToUpper(s)[i] == UPPER[k] {
      LowerAt(k);
    }
  }

  /** One to nine characters, a letter, '_' or '-' first, and then digits as well. */
  lemma NicknameExactly(nick: string)
    ensures IsValidNickname(nick) <==>
      && 1 <= |nick| <= 9
      && nick[0] !in DIGITS
      && forall i :: 0 <= i < |nick| ==> nick[i] in LOWER + UPPER + DIGITS + "_-"
  {
    forall i | 0 <= i < |nick|
      ensures nick[i] in LOWER + UPPER + DIGITS + "_-" <==> IsNickChar(nick[i])
      ensures nick[i] in DIGITS <==> IsDigit(nick[i])
    {
      InAlphabet(nick[i]);
    }
    hide IsAlpha, IsDigit;
    if |nick| > 0 {
      StartIsChar(nick[0]);
    }
  }

  lemma StartIsChar(c: char)
    ensures IsNickStart(c) <==> IsNickChar(c) && !IsDigit(c)
  {
  }

  lemma ChannelNameExactly(name: string)
    ensures IsChannelName(name) <==> exists rest :: rest != "" && name == "#" + rest
  {
    if IsChannelName(name) {
      assert name == "#" + name[1..];
    }
  }

  // White space at the ends.

  predicate Blank(s: string) {
    forall i :: 0 <= i < |s| ==> IsSpace(s[i])
  }

  lemma {:induction false} TrimEndBlank(s: string, post: string)
    requires Blank(post)
    ensures TrimEnd(s + post) == TrimEnd(s)
    decreases |post|
  {
    if post == "" {
      assert s + post == s;
    } else {
      var n := |post| - 1;
      assert (s + post)[..|s| + n] == s + post[..n];
      assert (s + post)[|s| + n] == post[n];
      TrimEndBlank(s, post[..n]);
    }
  }

  lemma {:induction false} TrimBlankStart(pre: string, s: string)
    requires Blank(pre)
    ensures Trim(pre + s) == Trim(s)
    decreases |pre|
  {
    if pre == "" {
      assert pre + s == s;
    } else {
      assert (pre + s)[1..] == pre[1..] + s && (pre + s)[0] == pre[0];
      TrimBlankStart(pre[1..], s);
    }
  }

  /** trim takes off all the white space at both ends and nothing else. */
  lemma TrimExactly(pre: string, s: string, post: string)
    requires Blank(pre) && Blank(post) && (s != "" ==> !IsSpace(s[0]) && !IsSpace(s[|s| - 1]))
    ensures Trim(pre + (s + post)) == s
  {
    TrimBlankStart(pre, s + post);
    if s == "" {
      TrimBlankStart(post, "");
      assert s + post == post && post + "" == post;
    } else {
      TrimEndBlank(s, post);
      assert (s + post)[0] == s[0];
    }
  }

  // Numbers.

  /** Decimal, without leading zeros. */
  lemma ItoaExactly(n: nat, d: nat)
    requires d < 10
    ensures Itoa(d) == [DIGITS[d]]
    ensures n > 0 ==> Itoa(10 * n + d) == Itoa(n) + [DIGITS[d]]
  {
    DigitAt(d);
    assert (10 * n + d) / 10 == n && (10 * n + d) % 10 == d;
  }

  lemma {:induction false} DigitsStop(s: string, rest: string, acc: nat)
    requires (forall i :: 0 <= i < |s| ==> IsDigit(s[i])) && (rest != "" ==> !IsDigit(rest[0]))
    ensures Digits(s + rest, acc) == Digits(s, acc)
    decreases |s|
  {
    if s == "" {
      assert s + rest == rest;
    } else {
      assert (s + rest)[1..] == s[1..] + rest;
      DigitsStop(s[1..], rest, acc * 10 + (s[0] as int - '0' as int));
    }
  }

  lemma {:induction false} AtoiBlank(pre: string, s: string)
    requires Blank(pre)
    ensures Atoi(pre + s) == Atoi(s)
    decreases |pre|
  {
    if pre == "" {
      assert pre + s == s;
    } else {
      assert (pre + s)[1..] == pre[1..] + s;
      AtoiBlank(pre[1..], s);
    }
  }

  /** The number behind white space and one sign, up to the first character that is no digit. */
  lemma AtoiExactly(pre: string, sign: string, n: nat, rest: string)
    requires Blank(pre) && sign in {"", "+", "-"} && (rest != "" ==> rest[0] !in DIGITS)
    ensures Atoi(pre + (sign + (Itoa(n) + rest))) == ToInt(if sign == "-" then -(n as int) else n)
  {
    var number := Itoa(n) + rest;
    if rest != "" {
      InAlphabet(rest[0]);
    }
    AtoiBlank(pre, sign + number);
    DigitsStop(Itoa(n), rest, 0);
    DigitsItoa(n);
    assert IsDigit(number[0]) by { assert number[0] == Itoa(n)[0]; }
    if sign == "" {
      assert sign + number == number;
    } else {
      assert (sign + number)[1..] == number && (sign + number)[0] == sign[0];
    }
    hide Itoa, Digits, ToInt;
  }

  /** Where there is no number the value is 0. */
  lemma AtoiNone(pre: string, sign: string, rest: string)
    requires Blank(pre) && sign in {"", "+", "-"} && (rest != "" ==> rest[0] !in DIGITS)
    requires sign == "" && rest != "" ==> !IsSpace(rest[0]) && rest[0] != '+' && rest[0] != '-'
    ensures Atoi(pre + (sign + rest)) == 0
  {
    if rest != "" {
      InAlphabet(rest[0]);
    }
    AtoiBlank(pre, sign + rest);
    if sign == "" {
      assert sign + rest == rest;
    } else {
      assert (sign + rest)[1..] == rest && (sign + rest)[0] == sign[0];
    }
  }

  /** A value an int holds stays as it is; others wrap around, after saturation to a long. */
  lemma ToIntExactly(v: int)
    ensures -INT_MAX - 1 <= ToInt(v) <= INT_MAX
    ensures -INT_MAX - 1 <= v <= INT_MAX ==> ToInt(v) == v
    ensures LONG_MIN <= v <= LONG_MAX ==> exists k :: v == ToInt(v) + k * 0x1_0000_0000
    ensures v > LONG_MAX ==> ToInt(v) == -1
    ensures v < LONG_MIN ==> ToInt(v) == 0
  {
    if LONG_MIN <= v <= LONG_MAX {
      var k := (v + 0x8000_0000) / 0x1_0000_0000;
      assert v == ToInt(v) + k * 0x1_0000_0000;
    }
  }

  // Lines with any number of spaces.

  function Spaces(n: nat): (s: string)
    ensures |s| == n && forall i :: 0 <= i < n ==> s[i] == ' '
  {
    if n == 0 then "" else " " + Spaces(n - 1)
  }

  lemma {:induction false} SkipsAll(n: nat, s: string)
    requires s != "" && s[0] != ' '
    ensures SkipSpaces(Spaces(n) + s) == s
  {
    if n == 0 {
      assert Spaces(0) + s == s;
    } else {
      SkipsAll(n - 1, s);
      assert (Spaces(n) + s)[1..] == Spaces(n - 1) + s;
    }
  }

  /** Parameters with one space or more between each two; gaps counts the further ones. */
  function Gapped(words: seq<string>, gaps: seq<nat>, last: string): string
    requires |gaps| == |words|
  {
    if words == [] then last
    else words[0] + " " + (Spaces(gaps[0]) + Gapped(words[1..], gaps[1..], last))
  }

  /** The last parameter: a word, or a colon and any text that does not end in white space. */
  predicate LastParam(last: string, value: string) {
    (Word(last) && value == last) || (last == ":" + value && Trailing(value))
  }

  lemma GapStep(word: string, gap: nat, rest: string)
    requires Word(word) && Solid(rest)
    ensures ParamsOf(word + " " + (Spaces(gap) + rest)) == [word] + ParamsOf(rest)
    ensures Solid(word + " " + (Spaces(gap) + rest))
  {
    var tail := Spaces(gap) + rest;
    var all := word + " " + tail;
    FindInWord(word, tail);
    SkipsAll(gap, rest);
    assert all[..|word|] == word && all[|word| + 1..] == tail;
    assert all[|all| - 1] == rest[|rest| - 1];
    hide Spaces, SkipSpaces;
  }

  lemma LastRead(last: string, value: string)
    requires LastParam(last, value)
    ensures ParamsOf(last) == [value] && Solid(last)
  {
    if Word(last) && value == last {
      ParamsOfWord(last);
    } else {
      assert last[1..] == value;
    }
  }

  /** However many spaces lie between them, the parameters are the same. */
  lemma {:induction false} GappedParams(words: seq<string>, gaps: seq<nat>, last: string, value: string)
    requires |gaps| == |words| && (forall i :: 0 <= i < |words| ==> Word(words[i])) && LastParam(last, value)
    ensures ParamsOf(Gapped(words, gaps, last)) == words + [value] && Solid(Gapped(words, gaps, last))
    decreases |words|
  {
    hide Word, IsSpace, ParamsOf, LastParam, Solid, Spaces;
    if words == [] {
      LastRead(last, value);
      assert words + [value] == [value];
    } else {
      var rest := Gapped(words[1..], gaps[1..], last);
      GappedParams(words[1..], gaps[1..], last, value);
      GapStep(words[0], gaps[0], rest);
      assert words + [value] == [words[0]] + (words[1..] + [value]);
    }
  }

  /** The message behind an optional prefix, which is dropped with the spaces behind it. */
  function Prefixed(prefix: Option<string>, gap: nat, body: string): string {
    match prefix
    case None => body
    case Some(p) => ":" + p + " " + (Spaces(gap) + body)
  }

  lemma PrefixDropped(prefix: Option<string>, gap: nat, body: string)
    requires body != "" && body[0] != ' ' && body[0] != ':'
    requires prefix.Some? ==> forall i :: 0 <= i < |prefix.value| ==> prefix.value[i] != ' '
    ensures SkipSpaces(WithoutPrefix(Prefixed(prefix, gap, body))) == body
  {
    match prefix
    case None =>
    case Some(p) =>
      var tail := Spaces(gap) + body;
      FindInWord(":" + p, tail);
      SkipsAll(gap, body);
      assert (":" + p + " " + tail)[|":" + p| + 1..] == tail;
  }

  lemma PrefixEnds(prefix: Option<string>, gap: nat, body: string)
    requires body != "" && !IsSpace(body[0]) && !IsSpace(body[|body| - 1])
    ensures var line := Prefixed(prefix, gap, body);
      line != "" && !IsSpace(line[0]) && !IsSpace(line[|line| - 1])
  {
    var line := Prefixed(prefix, gap, body);
    assert line[|line| - 1] == body[|body| - 1];
    hide Spaces;
  }

  lemma CommandRead(line: string, command: string, params: string)
    requires Word(command) && SkipSpaces(WithoutPrefix(line)) == command + " " + params
    ensures ParseTrimmed(line) == Message(ToUpper(command), ParamsOf(params))
  {
    var body := command + " " + params;
    FindInWord(command, params);
    assert body[..|command|] == command && body[|command| + 1..] == params;
    hide WithoutPrefix, SkipSpaces, FindSpace, ParamsOf, ToUpper;
  }

  lemma BodySolid(command: string, params: string)
    requires Word(command) && Solid(params)
    ensures var body := command + " " + params;
      body != "" && !IsSpace(body[0]) && !IsSpace(body[|body| - 1]) && body[0] != ' ' && body[0] != ':'
  {
    var body := command + " " + params;
    assert body[|body| - 1] == params[|params| - 1] && body[0] == command[0];
  }

  /**
   * A whole line: white space at both ends, a prefix or none, the command in either case, and its
   * parameters with one space or more between them.
   */
  lemma LineParses(pre: string, prefix: Option<string>, gap: nat, command: string,
                   words: seq<string>, gaps: seq<nat>, last: string, value: string, post: string)
    requires Blank(pre) && Blank(post) && Word(command)
    requires prefix.Some? ==> forall i :: 0 <= i < |prefix.value| ==> prefix.value[i] != ' '
    requires |gaps| == |words| && (forall i :: 0 <= i < |words| ==> Word(words[i])) && LastParam(last, value)
    ensures var line := Prefixed(prefix, gap, command + " " + Gapped(words, gaps, last));
      Parse(pre + (line + post)) == Some(Message(ToUpper(command), words + [value]))
  {
    GappedParams(words, gaps, last, value);
    var params := Gapped(words, gaps, last);
    var line := Prefixed(prefix, gap, command + " " + params);
    hide Gapped, ParamsOf, Solid, LastParam, Word, Blank, Prefixed, WithoutPrefix, SkipSpaces, Trim, IsSpace;
    BodySolid(command, params);
    PrefixEnds(prefix, gap, command + " " + params);
    TrimExactly(pre, line, post);
    PrefixDropped(prefix, gap, command + " " + params);
    CommandRead(line, command, params);
    hide ParseTrimmed;
  }
}
