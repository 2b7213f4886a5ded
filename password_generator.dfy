/**
 * A model of the password generator: the acceptance tests of its two retry
 * loops, the assembly of the character pool, the assembly of one password
 * from a sequence of random indices, and the numbered listing printed by
 * `main`. Input is a finite sequence of lines; the secure random source is an
 * index oracle.
 */
module PasswordGenerator {
  import opened Wrappers
  import opened PyText

  // The four character classes, as Python's `string` module defines them.
  const Lowercase: string := "abcdefghijklmnopqrstuvwxyz"
  const Uppercase: string := "ABCDEFGHIJKLMNOPQRSTUVWXYZ"
  const Digits: string := "0123456789"
  const Punctuation: string := "!\"#$%&'()*+,-./:;<=>?@[\\]^_`{|}~"

  // The minimums `main` passes to `ask_int`.
  const MinLength: int := 4
  const MinCount: int := 1

  /*************************************************************************
   * Character classes, stated independently of the constants above
   *************************************************************************/

  predicate IsLowerLetter(c: char) { 'a' <= c <= 'z' }
  predicate IsUpperLetter(c: char) { 'A' <= c <= 'Z' }
  predicate IsPunctuation(c: char) {
    ('!' <= c <= '/') || (':' <= c <= '@') || ('[' <= c <= '`') || ('{' <= c <= '~')
  }

  /** The position of a character's class in the pool order; 4 for no class. */
  function ClassRank(c: char): nat {
    if IsLowerLetter(c) then 0
    else if IsUpperLetter(c) then 1
    else if IsDigit(c) then 2
    else if IsPunctuation(c) then 3
    else 4
  }

  lemma LowerMembers(c: char) ensures c in Lowercase <==> IsLowerLetter(c) {}
  lemma UpperMembers(c: char) ensures c in Uppercase <==> IsUpperLetter(c) {}
  lemma DigitMembers(c: char) ensures c in Digits <==> IsDigit(c) {}
  lemma PunctuationMembers(c: char) ensures c in Punctuation <==> IsPunctuation(c) {}

  /*************************************************************************
   * ask_int: the acceptance test and the retry loop
   *************************************************************************/

  /** Why `ask_int` re-prompts: the two retry messages it prints. */
  datatype IntRejection = NotANumber | BelowMinimum

  /** The test `ask_int` applies to one line of input. */
  function AcceptInt(raw: string, minValue: int): Result<nat, IntRejection>
  {
    var text := Strip(raw);
    if !IsDigitString(text) then Err(NotANumber)
    else if DecimalValue(text) < minValue then Err(BelowMinimum)
    else Ok(DecimalValue(text))
  }

  /** A decimal numeral surrounded by whitespace is read as its value. */
  lemma AcceptIntPadded(pre: string, digits: string, post: string, minValue: int)
    requires AllSpace(pre) && AllSpace(post) && IsDigitString(digits)
    ensures AcceptInt(pre + digits + post, minValue)
         == if DecimalValue(digits) >= minValue then Ok(DecimalValue(digits)) else Err(BelowMinimum)
  {
    StripPadded(pre, digits, post);
  }

  /** A line holding any character that is neither a digit nor whitespace is not a number. */
  lemma AcceptIntNonDigit(raw: string, minValue: int, k: nat)
    requires k < |raw| && !IsDigit(raw[k]) && !IsSpace(raw[k])
    ensures AcceptInt(raw, minValue) == Err(NotANumber)
  {
    var text := Strip(raw);
    var pre, post := StripSplits(raw);
    assert text[k - |pre|] == raw[k];
  }

  /** A blank line (empty or whitespace only) is not a number. */
  lemma AcceptIntBlank(raw: string, minValue: int)
    requires AllSpace(raw)
    ensures AcceptInt(raw, minValue) == Err(NotANumber)
  {
    StripPadded(raw, [], []);
    assert raw + [] + [] == raw;
  }

  /**
   * The converse of AcceptIntPadded: a line gets past the `isdigit()` test
   * exactly when it is a digit string with whitespace on either side.
   */
  lemma AcceptIntShape(raw: string, minValue: int)
    ensures AcceptInt(raw, minValue) != Err(NotANumber) <==>
      exists pre, digits, post :: raw == pre + digits + post
        && AllSpace(pre) && AllSpace(post) && IsDigitString(digits)
  {
    var pre, post := StripSplits(raw);
    if AcceptInt(raw, minValue) != Err(NotANumber) {
      assert raw == pre + Strip(raw) + post && IsDigitString(Strip(raw));
    }
    if exists pre, digits, post :: raw == pre + digits + post
         && AllSpace(pre) && AllSpace(post) && IsDigitString(digits) {
      var pre', digits, post' :| raw == pre' + digits + post'
        && AllSpace(pre') && AllSpace(post') && IsDigitString(digits);
      AcceptIntPadded(pre', digits, post', minValue);
    }
  }

  /** Whitespace between two digits makes a line not a number: "1 2" and "12\t3" are refused. */
  lemma AcceptIntInternalSpace(raw: string, minValue: int, i: nat, j: nat, k: nat)
    requires i < j < k < |raw|
    requires IsDigit(raw[i]) && IsSpace(raw[j]) && IsDigit(raw[k])
    ensures AcceptInt(raw, minValue) == Err(NotANumber)
  {
    var text := Strip(raw);
    var pre, post := StripSplits(raw);
    assert |pre| <= i && k < |pre| + |text|;
    assert text[j - |pre|] == raw[j];
  }

  /** The numeral `str(n)` is accepted as n when n reaches the minimum. */
  lemma AcceptIntNumeral(n: nat, minValue: int)
    requires n >= minValue
    ensures AcceptInt(NatToString(n), minValue) == Ok(n)
  {
    AcceptIntPadded([], NatToString(n), [], minValue);
    assert [] + NatToString(n) + [] == NatToString(n);
    DecimalOfNatToString(n);
  }

  /** Lines `ask_int` answers with "Please enter a valid number", worked out. */
  lemma AcceptIntNotANumberExamples()
    ensures AcceptInt("", MinLength) == Err(NotANumber)
    ensures AcceptInt("-5", MinLength) == Err(NotANumber)
    ensures AcceptInt("+5", MinLength) == Err(NotANumber)
    ensures AcceptInt("4a", MinLength) == Err(NotANumber)
    ensures AcceptInt("1 2", MinCount) == Err(NotANumber)
  {
    AcceptIntBlank("", MinLength);
    AcceptIntNonDigit("-5", MinLength, 0);
    AcceptIntNonDigit("+5", MinLength, 0);
    AcceptIntNonDigit("4a", MinLength, 1);
    StripPadded([], "1 2", []);
    assert [] + "1 2" + [] == "1 2";
  }

  /** Numbers `ask_int` answers with "Please enter a number >= min_value", worked out. */
  lemma AcceptIntBelowMinimumExamples()
    ensures AcceptInt("3", MinLength) == Err(BelowMinimum)
    ensures AcceptInt("0", MinCount) == Err(BelowMinimum)
  {
    AcceptIntPadded([], "3", [], MinLength);
    assert [] + "3" + [] == "3";
    AcceptIntPadded([], "0", [], MinCount);
    assert [] + "0" + [] == "0";
  }

  /** Leading zeros are accepted and do not count: "0007" is read as 7. */
  lemma AcceptIntLeadingZerosExample()
    ensures AcceptInt("0007", MinLength) == Ok(7)
  {
    AcceptIntPadded([], "0007", [], MinLength);
    assert [] + "0007" + [] == "0007";
    assert DecimalValue("0007") == 7 by {
      LeadingZero("007");
      LeadingZero("07");
      LeadingZero("7");
      assert ['0'] + "007" == "0007";
      assert ['0'] + "07" == "007";
      assert ['0'] + "7" == "07";
    }
  }

  /** Surrounding whitespace is stripped before the test: "  12\t" is read as 12. */
  lemma AcceptIntPaddedExample()
    ensures AcceptInt("  12\t", MinLength) == Ok(12)
  {
    AcceptIntPadded("  ", "12", "\t", MinLength);
    assert "  " + "12" + "\t" == "  12\t";
    assert DecimalValue("12") == 12 by {
      assert "12"[..1] == "1";
    }
  }

  /** An accepted answer and the number of input lines read to obtain it. */
  datatype Reply<T> = Reply(answer: T, used: nat)

  /**
   * The first accepted line: its value and how many lines were read up to and
   * including it, rejected ones too; None when every line is rejected.
   */
  function ReadInt(lines: seq<string>, minValue: int): (r: Option<Reply<nat>>)
    ensures r.Some? ==>
      r.value.answer >= minValue
      && 0 < r.value.used <= |lines| && AcceptInt(lines[r.value.used - 1], minValue) == Ok(r.value.answer)
      && forall k :: 0 <= k < r.value.used - 1 ==> AcceptInt(lines[k], minValue).Err?
    ensures r.None? ==> forall k :: 0 <= k < |lines| ==> AcceptInt(lines[k], minValue).Err?
    decreases |lines|
  {
    if lines == [] then None
    else match AcceptInt(lines[0], minValue)
      case Ok(value) => Some(Reply(value, 1))
      case Err(_) =>
        match ReadInt(lines[1..], minValue)
        case None => None
        case Some(reply) => Some(Reply(reply.answer, reply.used + 1))
  }

  /**
   * `ask_int`: read lines until one is accepted. `complaints` lists the retry
   * message printed for each rejected line, in order.
   */
  method AskInt(lines: seq<string>, minValue: int)
    returns (answer: Option<nat>, used: nat, complaints: seq<IntRejection>)
    ensures used <= |lines|
    ensures ReadInt(lines, minValue) == if answer.Some? then Some(Reply(answer.value, used)) else None
    ensures answer.None? ==> used == |lines|
    ensures |complaints| == if answer.Some? then used - 1 else used
    ensures forall k :: 0 <= k < |complaints| ==> AcceptInt(lines[k], minValue) == Err(complaints[k])
  {
    used, complaints := 0, [];
    while used < |lines|
      invariant used <= |lines| && |complaints| == used
      invariant forall k :: 0 <= k < used ==> AcceptInt(lines[k], minValue) == Err(complaints[k])
    {
      var raw := lines[used];
      used := used + 1;
      match AcceptInt(raw, minValue)
      case Err(why) =>
        complaints := complaints + [why];
      case Ok(value) =>
        answer := Some(value);
        return;
    }
    answer := None;
  }

  /*************************************************************************
   * ask_yes_no: the acceptance test and the retry loop
   *************************************************************************/

  /** The test `ask_yes_no` applies to one line of input. */
  function ClassifyYesNo(raw: string): Option<bool> {
    var choice := LowerString(Strip(raw));
    if choice == "y" || choice == "yes" then Some(true)
    else if choice == "n" || choice == "no" then Some(false)
    else None
  }

  /** Every spelling of the accepted answers, in any mix of cases. */
  const YesSpellings: set<string> := {"y", "Y", "yes", "yeS", "yEs", "yES", "Yes", "YeS", "YEs", "YES"}
  const NoSpellings: set<string> := {"n", "N", "no", "nO", "No", "NO"}

  lemma LowerIsLetter(c: char, w: char)
    requires 'a' <= w <= 'z'
    ensures ToLower(c) == w <==> c == w || c as int == w as int - 32
  {
  }

  /** `ask_yes_no` answers yes exactly for the yes spellings and no exactly for the no spellings. */
  lemma YesNoAnswers(raw: string)
    ensures ClassifyYesNo(raw) == Some(true) <==> Strip(raw) in YesSpellings
    ensures ClassifyYesNo(raw) == Some(false) <==> Strip(raw) in NoSpellings
    ensures ClassifyYesNo(raw) == None <==> Strip(raw) !in YesSpellings + NoSpellings
  {
    var text := Strip(raw);
    var choice := LowerString(text);
    if |text| == 1 {
      var a := text[0];
      assert text == [a] && choice == [ToLower(a)];
      LowerIsLetter(a, 'y');
      LowerIsLetter(a, 'n');
    } else if |text| == 2 {
      var a, b := text[0], text[1];
      assert text == [a, b] && choice == [ToLower(a), ToLower(b)];
      LowerIsLetter(a, 'n');
      LowerIsLetter(b, 'o');
    } else if |text| == 3 {
      var a, b, c := text[0], text[1], text[2];
      assert text == [a, b, c] && choice == [ToLower(a), ToLower(b), ToLower(c)];
      LowerIsLetter(a, 'y');
      LowerIsLetter(b, 'e');
      LowerIsLetter(c, 's');
    }
  }

  /** Padded and mixed-case spellings of yes and no are accepted. */
  lemma YesNoAcceptExamples()
    ensures ClassifyYesNo(" YES ") == Some(true)
    ensures ClassifyYesNo("No") == Some(false)
  {
    StripPadded(" ", "YES", " ");
    assert " " + "YES" + " " == " YES ";
    YesNoAnswers(" YES ");
    StripPadded([], "No", []);
    assert [] + "No" + [] == "No";
    YesNoAnswers("No");
  }

  /** Answers that are neither spelling of yes or no are refused, the empty line too. */
  lemma YesNoRejectExamples()
    ensures ClassifyYesNo("yeah") == None
    ensures ClassifyYesNo("") == None
  {
    StripPadded([], "yeah", []);
    assert [] + "yeah" + [] == "yeah";
    YesNoAnswers("yeah");
    StripPadded([], [], []);
    YesNoAnswers("");
  }

  /** The first line `ask_yes_no` accepts, as for ReadInt. */
  function ReadYesNo(lines: seq<string>): (r: Option<Reply<bool>>)
    ensures r.Some? ==>
      0 < r.value.used <= |lines| && ClassifyYesNo(lines[r.value.used - 1]) == Some(r.value.answer)
      && forall k :: 0 <= k < r.value.used - 1 ==> ClassifyYesNo(lines[k]).None?
    ensures r.None? ==> forall k :: 0 <= k < |lines| ==> ClassifyYesNo(lines[k]).None?
    decreases |lines|
  {
    if lines == [] then None
    else match ClassifyYesNo(lines[0])
      case Some(answer) => Some(Reply(answer, 1))
      case None =>
        match ReadYesNo(lines[1..])
        case None => None
        case Some(reply) => Some(Reply(reply.answer, reply.used + 1))
  }

  /** `ask_yes_no`: read lines until one is a yes or a no. */
  method AskYesNo(lines: seq<string>) returns (answer: Option<bool>, used: nat)
    ensures used <= |lines|
    ensures ReadYesNo(lines) == if answer.Some? then Some(Reply(answer.value, used)) else None
    ensures answer.None? ==> used == |lines|
  {
    used := 0;
    while used < |lines|
      invariant used <= |lines|
      invariant forall k :: 0 <= k < used ==> ClassifyYesNo(lines[k]).None?
    {
      var choice := ClassifyYesNo(lines[used]);
      used := used + 1;
      if choice.Some? {
        answer := choice;
        return;
      }
    }
    answer := None;
  }

  /*************************************************************************
   * build_charset
   *************************************************************************/

  /** The four answers, in the order `build_charset` asks for them. */
  datatype Choices = Choices(lower: bool, upper: bool, digits: bool, symbols: bool)

  /** The pool: the selected classes concatenated in the fixed order. */
  function Pool(c: Choices): string {
    Selected(c.lower, Lowercase) + Selected(c.upper, Uppercase)
    + Selected(c.digits, Digits) + Selected(c.symbols, Punctuation)
  }

  /** A class if it was selected, and nothing otherwise. */
  function Selected(b: bool, members: string): string {
    if b then members else ""
  }

  function Count(b: bool): nat { if b then 1 else 0 }

  lemma PoolLength(c: Choices)
    ensures |Pool(c)| == 26 * Count(c.lower) + 26 * Count(c.upper) + 10 * Count(c.digits) + 32 * Count(c.symbols)
  {
  }

  /** The pool is empty exactly when no class is selected. */
  lemma PoolEmpty(c: Choices)
    ensures Pool(c) == "" <==> !c.lower && !c.upper && !c.digits && !c.symbols
  {
    PoolLength(c);
  }

  /** A character is in the pool exactly when it belongs to a selected class. */
  lemma PoolMembers(c: Choices, ch: char)
    ensures ch in Pool(c) <==>
      (c.lower && IsLowerLetter(ch)) || (c.upper && IsUpperLetter(ch))
      || (c.digits && IsDigit(ch)) || (c.symbols && IsPunctuation(ch))
  {
    LowerMembers(ch);
    UpperMembers(ch);
    DigitMembers(ch);
    PunctuationMembers(ch);
  }

  predicate RanksBetween(s: string, lo: nat, hi: nat) {
    forall i :: 0 <= i < |s| ==> lo <= ClassRank(s[i]) <= hi
  }

  /** The classes of the characters of s never decrease from left to right. */
  predicate InClassOrder(s: string) {
    forall i, j :: 0 <= i < j < |s| ==> ClassRank(s[i]) <= ClassRank(s[j])
  }

  lemma InClassOrderAppend(s: string, t: string, lo: nat, mid: nat, hi: nat)
    requires lo <= mid <= hi
    requires InClassOrder(s) && InClassOrder(t) && RanksBetween(s, lo, mid) && RanksBetween(t, mid, hi)
    ensures InClassOrder(s + t) && RanksBetween(s + t, lo, hi)
  {
    forall i, j | 0 <= i < j < |s + t| ensures ClassRank((s + t)[i]) <= ClassRank((s + t)[j]) {
      if j < |s| {
      } else if i >= |s| {
        assert (s + t)[i] == t[i - |s|] && (s + t)[j] == t[j - |s|];
      } else {
        assert ClassRank(s[i]) <= mid <= ClassRank(t[j - |s|]);
      }
    }
  }

  /** A selected class, or nothing: its characters all have rank r. */
  lemma Section(selected: bool, members: string, r: nat, lo: nat, hi: nat)
    requires lo <= r <= hi
    requires forall i :: 0 <= i < |members| ==> ClassRank(members[i]) == r
    ensures InClassOrder(Selected(selected, members)) && RanksBetween(Selected(selected, members), lo, hi)
  {
  }

  /** Each class on its own: every character of it has that class's rank. */
  lemma ClassRanks()
    ensures forall i :: 0 <= i < |Lowercase| ==> ClassRank(Lowercase[i]) == 0
    ensures forall i :: 0 <= i < |Uppercase| ==> ClassRank(Uppercase[i]) == 1
    ensures forall i :: 0 <= i < |Digits| ==> ClassRank(Digits[i]) == 2
    ensures forall i :: 0 <= i < |Punctuation| ==> ClassRank(Punctuation[i]) == 3
  {
    forall i | 0 <= i < |Lowercase| ensures ClassRank(Lowercase[i]) == 0 {
      LowerMembers(Lowercase[i]);
    }
    forall i | 0 <= i < |Uppercase| ensures ClassRank(Uppercase[i]) == 1 {
      UpperMembers(Uppercase[i]);
    }
    forall i | 0 <= i < |Digits| ensures ClassRank(Digits[i]) == 2 {
      DigitMembers(Digits[i]);
    }
    forall i | 0 <= i < |Punctuation| ensures ClassRank(Punctuation[i]) == 3 {
      PunctuationMembers(Punctuation[i]);
    }
  }

  /** The pool lists its characters class by class, in the order lowercase, uppercase, digits, punctuation. */
  lemma PoolInClassOrder(c: Choices)
    ensures InClassOrder(Pool(c)) && RanksBetween(Pool(c), 0, 3)
  {
    ClassRanks();
    var lower := Selected(c.lower, Lowercase);
    var upper := Selected(c.upper, Uppercase);
    var digits := Selected(c.digits, Digits);
    var symbols := Selected(c.symbols, Punctuation);
    Section(c.lower, Lowercase, 0, 0, 0);
    Section(c.upper, Uppercase, 1, 0, 1);
    InClassOrderAppend(lower, upper, 0, 0, 1);
    Section(c.digits, Digits, 2, 1, 2);
    InClassOrderAppend(lower + upper, digits, 0, 1, 2);
    Section(c.symbols, Punctuation, 3, 2, 3);
    InClassOrderAppend(lower + upper + digits, symbols, 0, 2, 3);
  }

  /** Each character of s comes after the one before it in character order. */
  predicate Ascending(s: string) {
    forall i :: 0 <= i < |s| - 1 ==> s[i] < s[i + 1]
  }

  lemma LowercaseAscending() ensures Ascending(Lowercase) {}
  lemma UppercaseAscending() ensures Ascending(Uppercase) {}
  lemma DigitsAscending() ensures Ascending(Digits) {}
  lemma PunctuationAscending() ensures Ascending(Punctuation) {}

  lemma {:induction false} AscendingApart(s: string, i: nat, j: nat)
    requires Ascending(s) && i < j < |s|
    ensures s[i] < s[j]
    decreases j - i
  {
    if j > i + 1 {
      AscendingApart(s, i, j - 1);
    }
  }

  predicate Distinct(s: string) {
    forall i, j :: 0 <= i < j < |s| ==> s[i] != s[j]
  }

  lemma DistinctAppend(s: string, t: string, r: nat, hi: nat)
    requires r < hi
    requires Distinct(s) && Distinct(t) && RanksBetween(s, 0, r) && RanksBetween(t, r + 1, hi)
    ensures Distinct(s + t) && RanksBetween(s + t, 0, hi)
  {
    forall i, j | 0 <= i < j < |s + t| ensures (s + t)[i] != (s + t)[j] {
      if j < |s| {
      } else if i >= |s| {
        assert (s + t)[i] == t[i - |s|] && (s + t)[j] == t[j - |s|];
      } else {
        assert ClassRank(s[i]) <= r < ClassRank(t[j - |s|]);
      }
    }
  }

  /** A selected class, or nothing: no repeated character, and every rank equal to r. */
  lemma SelectedDistinct(selected: bool, members: string, r: nat)
    requires Ascending(members)
    requires forall i :: 0 <= i < |members| ==> ClassRank(members[i]) == r
    ensures Distinct(Selected(selected, members)) && RanksBetween(Selected(selected, members), r, r)
  {
    forall i, j | 0 <= i < j < |members| ensures members[i] != members[j] {
      AscendingApart(members, i, j);
    }
  }

  /** Each of the four parts of the pool has no repeated character and holds one class. */
  lemma PoolSections(c: Choices)
    ensures Distinct(Selected(c.lower, Lowercase)) && RanksBetween(Selected(c.lower, Lowercase), 0, 0)
    ensures Distinct(Selected(c.upper, Uppercase)) && RanksBetween(Selected(c.upper, Uppercase), 1, 1)
    ensures Distinct(Selected(c.digits, Digits)) && RanksBetween(Selected(c.digits, Digits), 2, 2)
    ensures Distinct(Selected(c.symbols, Punctuation)) && RanksBetween(Selected(c.symbols, Punctuation), 3, 3)
  {
    ClassRanks();
    LowercaseAscending();
    UppercaseAscending();
    DigitsAscending();
    PunctuationAscending();
    SelectedDistinct(c.lower, Lowercase, 0);
    SelectedDistinct(c.upper, Uppercase, 1);
    SelectedDistinct(c.digits, Digits, 2);
    SelectedDistinct(c.symbols, Punctuation, 3);
  }

  /** No character occurs twice in the pool. */
  lemma PoolDistinct(c: Choices)
    ensures Distinct(Pool(c))
  {
    PoolSections(c);
    SectionsDistinct(Selected(c.lower, Lowercase), Selected(c.upper, Uppercase),
                     Selected(c.digits, Digits), Selected(c.symbols, Punctuation));
  }

  lemma SectionsDistinct(a: string, b: string, c: string, d: string)
    requires Distinct(a) && RanksBetween(a, 0, 0) && Distinct(b) && RanksBetween(b, 1, 1)
    requires Distinct(c) && RanksBetween(c, 2, 2) && Distinct(d) && RanksBetween(d, 3, 3)
    ensures Distinct(a + b + c + d)
  {
    DistinctAppend(a, b, 0, 1);
    DistinctAppend(a + b, c, 1, 2);
    DistinctAppend(a + b + c, d, 2, 3);
  }

  /** With only digits selected, every password over the pool is made of '0'..'9'. */
  lemma DigitsOnlyPool(pwd: string)
    requires OverPool(pwd, Pool(Choices(false, false, true, false)))
    ensures forall k :: 0 <= k < |pwd| ==> IsDigit(pwd[k])
  {
    forall k | 0 <= k < |pwd| ensures IsDigit(pwd[k]) {
      PoolMembers(Choices(false, false, true, false), pwd[k]);
    }
  }

  /** The four answers read as `build_charset` reads them, and the lines they took. */
  function ReadChoices(lines: seq<string>): (r: Option<Reply<Choices>>)
    ensures r.Some? ==> r.value.used <= |lines|
  {
    match ReadYesNo(lines)
    case None => None
    case Some(Reply(lower, n1)) =>
      var rest1 := lines[n1..];
      match ReadYesNo(rest1)
      case None => None
      case Some(Reply(upper, n2)) =>
        var rest2 := rest1[n2..];
        match ReadYesNo(rest2)
        case None => None
        case Some(Reply(digits, n3)) =>
          var rest3 := rest2[n3..];
          match ReadYesNo(rest3)
          case None => None
          case Some(Reply(symbols, n4)) =>
            Some(Reply(Choices(lower, upper, digits, symbols), n1 + n2 + n3 + n4))
  }

  /** The four questions at the start of `build_charset`. None when the input ends first. */
  method AskChoices(lines: seq<string>) returns (choices: Option<Choices>, used: nat)
    ensures used <= |lines|
    ensures match ReadChoices(lines)
      case None => choices == None
      case Some(reply) => choices == Some(reply.answer) && used == reply.used
  {
    var rest := lines;
    var useLower, n1 := AskYesNo(rest);
    if useLower.None? { return None, |lines|; }
    rest := rest[n1..];
    var useUpper, n2 := AskYesNo(rest);
    if useUpper.None? { return None, |lines|; }
    rest := rest[n2..];
    var useDigits, n3 := AskYesNo(rest);
    if useDigits.None? { return None, |lines|; }
    rest := rest[n3..];
    var useSymbols, n4 := AskYesNo(rest);
    if useSymbols.None? { return None, |lines|; }
    choices := Some(Choices(useLower.value, useUpper.value, useDigits.value, useSymbols.value));
    used := n1 + n2 + n3 + n4;
  }

  /** The concatenation in `build_charset`: append each selected class in turn. */
  method AssemblePool(c: Choices) returns (pool: string)
    ensures pool == Pool(c)
  {
    pool := "";
    if c.lower { pool := pool + Lowercase; }
    assert pool == Selected(c.lower, Lowercase);
    ghost var sofar := pool;
    if c.upper { pool := pool + Uppercase; }
    assert pool == sofar + Selected(c.upper, Uppercase);
    sofar := pool;
    if c.digits { pool := pool + Digits; }
    assert pool == sofar + Selected(c.digits, Digits);
    sofar := pool;
    if c.symbols { pool := pool + Punctuation; }
    assert pool == sofar + Selected(c.symbols, Punctuation);
  }

  /**
   * `build_charset`: ask the four questions, then append the selected classes
   * one by one. None when the input ends before the fourth answer.
   */
  method BuildCharset(lines: seq<string>) returns (charset: Option<string>, used: nat)
    ensures used <= |lines|
    ensures match ReadChoices(lines)
      case None => charset == None
      case Some(reply) => charset == Some(Pool(reply.answer)) && used == reply.used
  {
    var choices;
    choices, used := AskChoices(lines);
    if choices.None? { return None, used; }
    var pool := AssemblePool(choices.value);
    if pool == "" {
      // `build_charset` reports that no class was selected and returns "".
      return Some(""), used;
    }
    charset := Some(pool);
  }

  /*************************************************************************
   * generate_password
   *************************************************************************/

  /** The k-th call `secrets.choice(s)` with |s| == n returns s[pick(k, n)]. */
  ghost predicate IsIndexOracle(pick: (nat, nat) -> nat) {
    forall k: nat, n: nat :: 0 < n ==> pick(k, n) < n
  }

  /** The indices drawn by `count` consecutive calls, starting with call number `first`. */
  function Draws(pick: (nat, nat) -> nat, first: nat, count: nat, n: nat): (r: seq<nat>)
    ensures |r| == count
    ensures IsIndexOracle(pick) && 0 < n ==> forall j :: 0 <= j < count ==> r[j] < n
  {
    seq(count, j requires 0 <= j < count => pick(first + j, n))
  }

  predicate OverPool(pwd: string, charset: string) {
    forall k :: 0 <= k < |pwd| ==> pwd[k] in charset
  }

  /** `generate_password`: one character of the pool per drawn index. */
  function GeneratePassword(length: nat, charset: string, indices: seq<nat>): (pwd: string)
    requires |charset| > 0
    requires |indices| == length && forall k :: 0 <= k < |indices| ==> indices[k] < |charset|
    ensures |pwd| == length && OverPool(pwd, charset)
    ensures forall k :: 0 <= k < length ==> pwd[k] == charset[indices[k]]
  {
    seq(length, k requires 0 <= k < length => charset[indices[k]])
  }

  /** Position of the first occurrence of c in s. */
  function IndexOf(s: string, c: char): (i: nat)
    requires c in s
    ensures i < |s| && s[i] == c
    ensures forall j :: 0 <= j < i ==> s[j] != c
  {
    if s[0] == c then 0 else 1 + IndexOf(s[1..], c)
  }

  /** Every password over the pool is the one some sequence of draws produces. */
  lemma GeneratePasswordCovers(charset: string, pwd: string)
    requires |charset| > 0 && OverPool(pwd, charset)
    ensures var indices := seq(|pwd|, k requires 0 <= k < |pwd| => IndexOf(charset, pwd[k]));
            (forall k :: 0 <= k < |indices| ==> indices[k] < |charset|)
            && GeneratePassword(|pwd|, charset, indices) == pwd
  {
  }

  /*************************************************************************
   * main
   *************************************************************************/

  /** `f"{i:>2}"`. */
  function FormatIndex(i: nat): string {
    RightAlign(NatToString(i), 2)
  }

  /** One line of the listing `main` prints: `f"{i:>2}. {pwd}"`. */
  function FormatLine(i: nat, pwd: string): string {
    FormatIndex(i) + ". " + pwd
  }

  /** The printed index is at least two wide; only one-digit indices get a leading space. */
  lemma FormatIndexWidth(i: nat)
    ensures |FormatIndex(i)| == if |NatToString(i)| < 2 then 2 else |NatToString(i)|
    ensures |FormatIndex(i)| >= 2
    ensures FormatIndex(i)[0] == ' ' <==> i < 10
  {
    var digits := NatToString(i);
    if i >= 10 {
      assert FormatIndex(i) == digits;
      assert IsDigit(digits[0]);
    }
  }

  /** Stripping the printed index leaves its numeral. */
  lemma FormatIndexStrips(i: nat)
    ensures Strip(FormatIndex(i)) == NatToString(i)
  {
    var digits := NatToString(i);
    var pad := RightAlignSplits(digits, 2);
    NumeralStrips(pad, digits);
  }

  /** The printed index, read as `ask_int` reads a line, gives the index back. */
  lemma FormatIndexReadsBack(i: nat)
    requires i >= 1
    ensures AcceptInt(FormatIndex(i), 1) == Ok(i)
  {
    FormatIndexStrips(i);
    DecimalOfNatToString(i);
  }

  /** What `main` reads: the length, the count and the four class answers. */
  datatype Request = Request(length: nat, count: nat, choices: Choices)

  function ReadRequest(lines: seq<string>): (r: Option<Request>)
    ensures r.Some? ==> r.value.length >= MinLength && r.value.count >= MinCount

  {
    match ReadInt(lines, MinLength)
    case None => None
    case Some(Reply(length, n1)) =>
      var rest1 := lines[n1..];
      match ReadInt(rest1, MinCount)
      case None => None
      case Some(Reply(count, n2)) =>
        match ReadChoices(rest1[n2..])
        case None => None
        case Some(reply) => Some(Request(length, count, reply.answer))
  }

  /**
   * The `k`-th password (counting from 0) printed by `main`: each call of
   * `generate_password` draws `length` indices, so the `k`-th call starts at
   * draw `k * length`.
   */
  function NthPassword(length: nat, pool: string, pick: (nat, nat) -> nat, k: nat): (pwd: string)
    requires |pool| > 0 && IsIndexOracle(pick)
    ensures |pwd| == length && OverPool(pwd, pool)
  {
    GeneratePassword(length, pool, Draws(pick, k * length, length, |pool|))
  }

  /**
   * The listing printed for `count` passwords: line i (from 0) is password
   * number i + 1, drawn with calls i * length to (i + 1) * length - 1 of the oracle.
   */
  ghost predicate IsListing(passwords: seq<string>, listing: seq<string>,
                            length: nat, count: nat, pool: string, pick: (nat, nat) -> nat)
    requires |pool| > 0 && IsIndexOracle(pick)
  {
    && |passwords| == count && |listing| == count
    && (forall i :: 0 <= i < count ==>
          |passwords[i]| == length && OverPool(passwords[i], pool)
          && listing[i] == FormatLine(i + 1, passwords[i]))
    && (forall i :: 0 <= i < count ==> passwords[i] == NthPassword(length, pool, pick, i))
  }

  /**
   * The listing numbers its lines 1, 2, ..., `count` in order: the part of
   * line `i` before ". " reads back as `i + 1`, and the rest is password `i`.
   */
  lemma ListingNumbered(passwords: seq<string>, listing: seq<string>,
                        length: nat, count: nat, pool: string, pick: (nat, nat) -> nat, i: nat)
    requires |pool| > 0 && IsIndexOracle(pick)
    requires IsListing(passwords, listing, length, count, pool, pick)
    requires i < count
    ensures var w := |FormatIndex(i + 1)|;
      && |listing[i]| == w + 2 + length
      && AcceptInt(listing[i][..w], 1) == Ok(i + 1)
      && listing[i][w..w + 2] == ". "
      && listing[i][w + 2..] == passwords[i]
  {
    var w := |FormatIndex(i + 1)|;
    assert listing[i] == FormatIndex(i + 1) + ". " + passwords[i];
    assert listing[i][..w] == FormatIndex(i + 1);
    FormatIndexReadsBack(i + 1);
  }

  /**
   * Two passwords of length 4 over the lowercase letters: the lines read
   * " 1. xxxx" and " 2. yyyy" with only lowercase letters in the passwords.
   */
  lemma ListingExample(passwords: seq<string>, listing: seq<string>, pick: (nat, nat) -> nat)
    requires IsIndexOracle(pick)
    requires IsListing(passwords, listing, 4, 2, Pool(Choices(true, false, false, false)), pick)
    ensures listing[0] == " 1. " + passwords[0] && listing[1] == " 2. " + passwords[1]
    ensures forall i, k :: 0 <= i < 2 && 0 <= k < 4 ==> IsLowerLetter(passwords[i][k])
  {
    assert FormatIndex(1) == " 1" by {
      assert NatToString(1) == "1";
    }
    assert FormatIndex(2) == " 2" by {
      assert NatToString(2) == "2";
    }
    forall i, k | 0 <= i < 2 && 0 <= k < 4 ensures IsLowerLetter(passwords[i][k]) {
      PoolMembers(Choices(true, false, false, false), passwords[i][k]);
    }
  }

  /** The loop of `main`: generate and number `count` passwords. */
  method GenerateListing(length: nat, count: nat, pool: string, pick: (nat, nat) -> nat)
    returns (passwords: seq<string>, listing: seq<string>)
    requires |pool| > 0 && IsIndexOracle(pick)
    ensures IsListing(passwords, listing, length, count, pool, pick)
  {
    passwords, listing := [], [];
    for i := 1 to count + 1
      invariant |passwords| == |listing| == i - 1
      invariant forall k :: 0 <= k < i - 1 ==>
        passwords[k] == NthPassword(length, pool, pick, k)
        && listing[k] == FormatLine(k + 1, passwords[k])
    {
      var pwd := NthPassword(length, pool, pick, i - 1);
      passwords := passwords + [pwd];
      listing := listing + [FormatLine(i, pwd)];
    }
  }

  /** How a run ends. */
  datatype Outcome =
    | InputEnded      // the input ran out before every question was answered
    | NoCharset       // no class selected: nothing is generated
    | Printed(passwords: seq<string>, listing: seq<string>)

  /**
   * `main`: read the request, build the pool, stop on an empty pool, and
   * otherwise generate `count` passwords and number them from 1.
   */
  method Run(lines: seq<string>, pick: (nat, nat) -> nat) returns (out: Outcome)
    requires IsIndexOracle(pick)
    ensures match ReadRequest(lines)
      case None => out == InputEnded
      case Some(req) =>
        if Pool(req.choices) == "" then out == NoCharset
        else (out.Printed?
              && IsListing(out.passwords, out.listing, req.length, req.count, Pool(req.choices), pick))
  {
    var length, n1, _ := AskInt(lines, MinLength);
    if length.None? { return InputEnded; }
    var rest := lines[n1..];
    var count, n2, _ := AskInt(rest, MinCount);
    if count.None? { return InputEnded; }
    rest := rest[n2..];
    var charset, _ := BuildCharset(rest);
    if charset.None? { return InputEnded; }
    var pool := charset.value;
    if pool == "" {
      // No class was selected: `main` stops before generating anything.
      return NoCharset;
    }
    var passwords, listing := GenerateListing(length.value, count.value, pool, pick);
    out := Printed(passwords, listing);
  }
}
