/** Deriving an emoji shortcode from a file name (`packages/shared/src/custom-emoji-shortcode.ts`).

    Lower-casing is exact on ASCII; what it makes of any other character is a parameter `fold`, over
    which everything here holds. */
module Shortcode {
  import opened JavaScriptText

  const MIN_LENGTH: nat := 2
  const MAX_LENGTH: nat := 32

  predicate IsAlnum(c: char) { 'a' <= c <= 'z' || '0' <= c <= '9' }

  predicate IsJoiner(c: char) { c == '-' || c == '_' }

  predicate IsBody(c: char) { IsAlnum(c) || IsJoiner(c) }

  predicate AllBody(s: string) { forall i | 0 <= i < |s| :: IsBody(s[i]) }

  predicate NoDoubleHyphen(s: string) {
    forall i | 0 <= i < |s| - 1 :: !(s[i] == '-' && s[i + 1] == '-')
  }

  // ---------------------------------------------------------------- the pipeline, step by step

  /** Drops a last dot and what follows it, if something does. */
  function StripExtension(s: string): string {
    if exists i :: 0 <= i < |s| - 1 && s[i] == '.' && '.' !in s[i + 1..]
    then var i :| 0 <= i < |s| - 1 && s[i] == '.' && '.' !in s[i + 1..]; s[..i]
    else s
  }

  function LowerChar(c: char, fold: char -> string): string {
    if 'A' <= c <= 'Z' then [(c as int + 32) as char] else if c < '\U{80}' then [c] else fold(c)
  }

  function ToLower(s: string, fold: char -> string): string {
    if s == [] then [] else LowerChar(s[0], fold) + ToLower(s[1..], fold)
  }

  /** Each run of white space becomes one hyphen. */
  function HyphenateSpaces(s: string): string {
    if s == [] then []
    else if !IsSpace(s[0]) then [s[0]] + HyphenateSpaces(s[1..])
    else if |s| > 1 && IsSpace(s[1]) then HyphenateSpaces(s[1..])
    else ['-'] + HyphenateSpaces(s[1..])
  }

  function KeepBody(s: string): string {
    if s == [] then [] else (if IsBody(s[0]) then [s[0]] else []) + KeepBody(s[1..])
  }

  /** Each run of hyphens becomes one. */
  function CollapseHyphens(s: string): string {
    if s == [] then []
    else if |s| > 1 && s[0] == '-' && s[1] == '-' then CollapseHyphens(s[1..])
    else [s[0]] + CollapseHyphens(s[1..])
  }

  function TrimLeft(s: string): string {
    if s != [] && IsJoiner(s[0]) then TrimLeft(s[1..]) else s
  }

  function TrimRight(s: string): string {
    if s != [] && IsJoiner(s[|s| - 1]) then TrimRight(s[..|s| - 1]) else s
  }

  function Take(s: string, n: nat): string { if |s| <= n then s else s[..n] }

  /** The text just before it is cut to the greatest length. */
  function Uncut(filename: string, fold: char -> string): string {
    TrimRight(TrimLeft(CollapseHyphens(Cleaned(filename, fold))))
  }

  function Cleaned(filename: string, fold: char -> string): string {
    KeepBody(HyphenateSpaces(ToLower(StripExtension(filename), fold)))
  }

  function FilenameToShortcode(filename: string, fold: char -> string): string {
    var sanitised := Take(Uncut(filename, fold), MAX_LENGTH);
    if |sanitised| >= MIN_LENGTH then sanitised else ""
  }

  // ---------------------------------------------------------------- what each step does, on the characters

  predicate AllSpace(s: string) { forall i | 0 <= i < |s| :: IsSpace(s[i]) }

  predicate NoneSpace(s: string) { forall i | 0 <= i < |s| :: !IsSpace(s[i]) }

  predicate NoneBody(s: string) { forall i | 0 <= i < |s| :: !IsBody(s[i]) }

  predicate AllJoiner(s: string) { forall i | 0 <= i < |s| :: IsJoiner(s[i]) }

  predicate AllHyphen(s: string) { forall i | 0 <= i < |s| :: s[i] == '-' }

  /** A last dot goes with what follows it. */
  lemma ExtensionIsDropped(name: string, extension: string)
    requires extension != "" && '.' !in extension
    ensures StripExtension(name + "." + extension) == name
  {
    var s := name + "." + extension;
    var at := |name|;
    assert s[at] == '.' && s[at + 1..] == extension;
    assert s[..at] == name;
    forall i | 0 <= i < at && s[i] == '.' ensures '.' in s[i + 1..] { assert s[i + 1..][at - i - 1] == '.'; }
    assert forall i | at < i < |s| :: s[i] == extension[i - at - 1] != '.';
  }

  /** Text without a dot, or with nothing after its last one, keeps every character. */
  lemma NoExtensionToDrop(s: string)
    requires '.' !in s || s[|s| - 1] == '.'
    ensures StripExtension(s) == s
  {
    forall i | 0 <= i < |s| - 1 && s[i] == '.' ensures '.' in s[i + 1..] {
      assert s[i + 1..][|s| - i - 2] == s[|s| - 1];
    }
  }

  /** On ASCII text every capital becomes its small letter and nothing else changes. */
  lemma {:induction false} LowerIsByCharacter(s: string, fold: char -> string)
    requires forall i | 0 <= i < |s| :: s[i] < '\U{80}'
    ensures |ToLower(s, fold)| == |s|
    ensures forall i | 0 <= i < |s| ::
              ToLower(s, fold)[i] == if 'A' <= s[i] <= 'Z' then s[i] - 'A' + 'a' else s[i]
  {
    if s != [] { LowerIsByCharacter(s[1..], fold); }
  }

  /** A run of white space becomes one hyphen; the text before it stays. */
  lemma {:induction false} RunBecomesHyphen(before: string, spaces: string, rest: string)
    requires NoneSpace(before) && AllSpace(spaces) && spaces != []
    requires rest != [] ==> !IsSpace(rest[0])
    ensures HyphenateSpaces(before + spaces + rest) == before + "-" + HyphenateSpaces(rest)
    decreases |before| + |spaces|
  {
    var s := before + spaces + rest;
    if before != [] {
      assert s[1..] == before[1..] + spaces + rest;
      RunBecomesHyphen(before[1..], spaces, rest);
      assert before == [before[0]] + before[1..];
    } else if |spaces| > 1 {
      assert s[1..] == before + spaces[1..] + rest && IsSpace(s[1]);
      RunBecomesHyphen(before, spaces[1..], rest);
    } else {
      assert s[1..] == rest;
    }
  }

  /** What no shortcode may hold goes; the text before it stays. */
  lemma {:induction false} OthersAreDropped(before: string, others: string, rest: string)
    requires AllBody(before) && NoneBody(others)
    ensures KeepBody(before + others + rest) == before + KeepBody(rest)
    decreases |before| + |others|
  {
    var s := before + others + rest;
    if before != [] {
      assert s[1..] == before[1..] + others + rest;
      OthersAreDropped(before[1..], others, rest);
      assert before == [before[0]] + before[1..];
    } else if others != [] {
      assert s[1..] == before + others[1..] + rest;
      OthersAreDropped(before, others[1..], rest);
    } else {
      assert s == rest;
    }
  }

  /** A run of hyphens becomes one; the text before it stays. */
  lemma {:induction false} RunOfHyphensIsOne(before: string, hyphens: string, rest: string)
    requires '-' !in before && AllHyphen(hyphens) && hyphens != []
    requires rest != [] ==> rest[0] != '-'
    ensures CollapseHyphens(before + hyphens + rest) == before + "-" + CollapseHyphens(rest)
    decreases |before| + |hyphens|
  {
    var s := before + hyphens + rest;
    if before != [] {
      assert s[1..] == before[1..] + hyphens + rest;
      assert s[0] == before[0] != '-';
      RunOfHyphensIsOne(before[1..], hyphens, rest);
      assert before == [before[0]] + before[1..];
    } else if |hyphens| > 1 {
      assert s[1..] == before + hyphens[1..] + rest && s[1] == '-';
      RunOfHyphensIsOne(before, hyphens[1..], rest);
    } else {
      assert s[1..] == rest;
    }
  }

  /** Both trims together: the joiners at either end go, and what they enclose stays. */
  lemma {:induction false} EndsAreTrimmed(left: string, core: string, right: string)
    requires AllJoiner(left) && AllJoiner(right)
    requires core != [] && !IsJoiner(core[0]) && !IsJoiner(core[|core| - 1])
    ensures TrimRight(TrimLeft(left + core + right)) == core
    decreases |left| + |right|
  {
    var s := left + core + right;
    if left != [] {
      assert s[1..] == left[1..] + core + right;
      EndsAreTrimmed(left[1..], core, right);
    } else if right != [] {
      assert TrimLeft(s) == s && s[|s| - 1] == right[|right| - 1];
      assert s[..|s| - 1] == left + core + right[..|right| - 1];
      EndsAreTrimmed(left, core, right[..|right| - 1]);
      assert TrimLeft(s[..|s| - 1]) == s[..|s| - 1];
    } else {
      assert s == core;
    }
  }

  // ---------------------------------------------------------------- what each step leaves behind

  lemma {:induction false} KeepBodyKeeps(s: string)
    ensures AllBody(KeepBody(s))
  {
    if s != [] { KeepBodyKeeps(s[1..]); }
  }

  lemma {:induction false} CollapseLeavesNoDouble(s: string)
    requires AllBody(s)
    ensures NoDoubleHyphen(CollapseHyphens(s)) && AllBody(CollapseHyphens(s))
    ensures CollapseHyphens(s) == [] <==> s == []
    ensures s != [] ==> CollapseHyphens(s)[0] == s[0]
  {
    if s != [] {
      CollapseLeavesNoDouble(s[1..]);
      if |s| > 1 { assert s[1..][0] == s[1]; }
    }
  }

  lemma {:induction false} TrimLeftStarts(s: string)
    requires AllBody(s) && NoDoubleHyphen(s)
    ensures AllBody(TrimLeft(s)) && NoDoubleHyphen(TrimLeft(s))
    ensures TrimLeft(s) != [] ==> IsAlnum(TrimLeft(s)[0])
  {
    if s != [] && IsJoiner(s[0]) {
      assert forall i | 0 <= i < |s| - 1 :: s[1..][i] == s[i + 1];
      TrimLeftStarts(s[1..]);
    }
  }

  lemma {:induction false} TrimRightEnds(s: string)
    requires AllBody(s) && NoDoubleHyphen(s)
    ensures TrimRight(s) <= s
    ensures TrimRight(s) != [] ==> IsAlnum(TrimRight(s)[|TrimRight(s)| - 1])
    decreases |s|
  {
    if s != [] && IsJoiner(s[|s| - 1]) {
      TrimRightEnds(s[..|s| - 1]);
    }
  }

  lemma UncutIsValid(filename: string, fold: char -> string)
    ensures var t := Uncut(filename, fold);
            && AllBody(t) && NoDoubleHyphen(t)
            && (t != "" ==> IsAlnum(t[0]) && IsAlnum(t[|t| - 1]))
  {
    var cleaned := Cleaned(filename, fold);
    KeepBodyKeeps(HyphenateSpaces(ToLower(StripExtension(filename), fold)));
    CollapseLeavesNoDouble(cleaned);
    var left := TrimLeft(CollapseHyphens(cleaned));
    TrimLeftStarts(CollapseHyphens(cleaned));
    TrimRightEnds(left);
    var trimmed := TrimRight(left);
    assert trimmed == left[..|trimmed|];
  }

  /** The result is empty or a valid body of 2 to 32 characters that starts with a letter or digit and
      has no double hyphen; one shorter than 32 also ends with a letter or digit. */
  lemma ResultIsValid(filename: string, fold: char -> string)
    ensures var r := FilenameToShortcode(filename, fold);
            r != "" ==>
              && 2 <= |r| <= 32 && (forall c | c in r :: 'a' <= c <= 'z' || '0' <= c <= '9' || c == '-' || c == '_') && NoDoubleHyphen(r) && IsAlnum(r[0])
              && (|r| < MAX_LENGTH ==> IsAlnum(r[|r| - 1]))
  {
    UncutIsValid(filename, fold);
  }

  // ---------------------------------------------------------------- fixed points

  lemma {:induction false} LowerFixesBody(s: string, fold: char -> string)
    requires AllBody(s)
    ensures ToLower(s, fold) == s && HyphenateSpaces(s) == s && KeepBody(s) == s
  {
    if s != [] {
      LowerFixesBody(s[1..], fold);
      assert s == [s[0]] + s[1..];
      assert !IsSpace(s[0]);
    }
  }

  lemma {:induction false} CollapseFixes(s: string)
    requires NoDoubleHyphen(s)
    ensures CollapseHyphens(s) == s
  {
    if s != [] {
      assert forall i | 0 <= i < |s| - 1 :: s[1..][i] == s[i + 1];
      CollapseFixes(s[1..]);
      assert s == [s[0]] + s[1..];
    }
  }

  lemma BodyHasNoExtension(s: string)
    requires AllBody(s)
    ensures StripExtension(s) == s
  {
    assert forall i | 0 <= i < |s| :: s[i] != '.';
  }

  /** Text that already is a valid body is changed by nothing but the cut. */
  lemma ValidIsUncut(s: string, fold: char -> string)
    requires s != "" && AllBody(s) && NoDoubleHyphen(s) && IsAlnum(s[0])
    ensures Uncut(s, fold) == TrimRight(s)
    ensures IsAlnum(s[|s| - 1]) ==> Uncut(s, fold) == s
  {
    CleanedFixesBody(s, fold);
    CollapseFixes(s);
    TrimsFix(s);
  }

  lemma TrimsFix(s: string)
    requires s != ""
    ensures !IsJoiner(s[0]) ==> TrimLeft(s) == s
    ensures !IsJoiner(s[|s| - 1]) ==> TrimRight(s) == s
  {
  }

  lemma CleanedFixesBody(s: string, fold: char -> string)
    requires AllBody(s)
    ensures Cleaned(s, fold) == s
  {
    BodyHasNoExtension(s);
    LowerFixesBody(s, fold);
  }

  /** The result is a fixed point exactly when nothing is cut off or the last character kept is a letter
      or digit. */
  lemma {:induction false} FixedPointIff(filename: string, fold: char -> string)
    ensures var t, r := Uncut(filename, fold), FilenameToShortcode(filename, fold);
            FilenameToShortcode(r, fold) == r <==> |t| <= 32 || IsAlnum(t[31])
  {
    var t, r := Uncut(filename, fold), FilenameToShortcode(filename, fold);
    UncutIsValid(filename, fold);
    if |t| < MIN_LENGTH {
      CleanedFixesBody("", fold);
    } else {
      ResultIsValid(filename, fold);
      ValidIsUncut(r, fold);
      TrimRightEnds(r);
      assert IsAlnum(r[|r| - 1]) <==> |t| <= MAX_LENGTH || IsAlnum(t[MAX_LENGTH - 1]);
    }
  }

  predicate AllLettersOrDigits(s: string) {
    forall i | 0 <= i < |s| :: 'a' <= s[i] <= 'z' || 'A' <= s[i] <= 'Z' || '0' <= s[i] <= '9'
  }

  /** Two words with white space between them and an extension, such as "Party Parrot.gif": the words
      in small letters, joined by one hyphen. */
  lemma TwoWords(first: string, spaces: string, second: string, extension: string, fold: char -> string)
    requires first != "" && second != "" && AllLettersOrDigits(first) && AllLettersOrDigits(second)
    requires spaces != "" && forall i | 0 <= i < |spaces| :: spaces[i] == ' '
    requires extension != "" && '.' !in extension && |first| + 1 + |second| <= 32
    ensures var r := FilenameToShortcode(first + spaces + second + "." + extension, fold);
            && |r| == |first| + 1 + |second| && r[|first|] == '-'
            && (forall i | 0 <= i < |first| :: r[i] == if 'A' <= first[i] <= 'Z' then first[i] - 'A' + 'a' else first[i])
            && forall i | 0 <= i < |second| ::
                 r[|first| + 1 + i] == if 'A' <= second[i] <= 'Z' then second[i] - 'A' + 'a' else second[i]
  {
    var name := first + spaces + second;
    LowerIsByCharacter(first, fold);
    LowerIsByCharacter(second, fold);
    ExtensionIsDropped(name, extension);
    LoweredWords(name, first, spaces, second, fold);
    WordsJoined(name + "." + extension, name, ToLower(first, fold), spaces, ToLower(second, fold), fold);
  }

  predicate AllAlnum(s: string) { forall i | 0 <= i < |s| :: IsAlnum(s[i]) }

  lemma WordsJoined(filename: string, name: string, first: string, spaces: string, second: string, fold: char -> string)
    requires StripExtension(filename) == name && ToLower(name, fold) == first + spaces + second
    requires first != "" && second != "" && AllAlnum(first) && AllAlnum(second) && |first| + 1 + |second| <= 32
    requires spaces != "" && forall i | 0 <= i < |spaces| :: spaces[i] == ' '
    ensures FilenameToShortcode(filename, fold) == first + "-" + second
  {
    SpacesBetween(ToLower(name, fold), first, spaces, second);
    Assembled(filename, name, first + "-" + second, fold);
  }

  lemma LoweredWords(name: string, first: string, spaces: string, second: string, fold: char -> string)
    requires name == first + spaces + second && forall i | 0 <= i < |spaces| :: spaces[i] == ' '
    ensures ToLower(name, fold) == ToLower(first, fold) + spaces + ToLower(second, fold)
  {
    LowerOfBoth(first + spaces, second, fold);
    LowerOfBoth(first, spaces, fold);
    LowerIsByCharacter(spaces, fold);
    assert ToLower(spaces, fold) == spaces;
  }

  /** Lower-casing goes character by character. */
  lemma {:induction false} LowerOfBoth(a: string, b: string, fold: char -> string)
    ensures ToLower(a + b, fold) == ToLower(a, fold) + ToLower(b, fold)
  {
    if a == [] {
      assert a + b == b;
    } else {
      assert (a + b)[1..] == a[1..] + b;
      LowerOfBoth(a[1..], b, fold);
    }
  }

  lemma SpacesBetween(text: string, first: string, spaces: string, second: string)
    requires text == first + spaces + second && second != "" && AllBody(first) && AllBody(second)
    requires spaces != "" && forall i | 0 <= i < |spaces| :: spaces[i] == ' '
    ensures HyphenateSpaces(text) == first + "-" + second
  {
    RunBecomesHyphen(first, spaces, second);
    LowerFixesBody(second, c => [c]);
  }

  /** Text that is valid once its spaces are hyphens needs no further step. */
  lemma Assembled(filename: string, name: string, result: string, fold: char -> string)
    requires StripExtension(filename) == name && HyphenateSpaces(ToLower(name, fold)) == result
    requires 2 <= |result| <= 32 && AllBody(result) && NoDoubleHyphen(result)
    requires IsAlnum(result[0]) && IsAlnum(result[|result| - 1])
    ensures FilenameToShortcode(filename, fold) == result
  {
    LowerFixesBody(result, fold);
    CollapseFixes(result);
    TrimsFix(result);
  }

  /** A file name of 31 letters and "-b": the cut leaves the hyphen, which a second pass drops. */
  lemma CutLeavesAHyphen(filename: string, fold: char -> string)
    requires |filename| == 33 && filename[31..] == "-b" && forall i | 0 <= i < 31 :: filename[i] == 'a'
    ensures var r := FilenameToShortcode(filename, fold);
            r == filename[..32] && FilenameToShortcode(r, fold) != r
  {
    assert filename[31] == filename[31..][0] && filename[32] == filename[31..][1];
    ValidIsUncut(filename, fold);
    FixedPointIff(filename, fold);
  }
}
