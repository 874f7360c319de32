/** Display labels of folders (generate_evidence_doc.py, to_chinese_num and
    convert_folder_name): a top-level folder named "<digits>.<rest>" is shown
    as a Chinese numeral, the enumeration comma 、 and the stripped rest; every
    other folder keeps its name. */
module Labels {
  import opened NaturalKey
  import opened Wrappers

  /** The table 零 一 二 三 四 五 六 七 八 九 十 of to_chinese_num. */
  const Numerals: seq<char> := [
    '\U{96F6}', '\U{4E00}', '\U{4E8C}', '\U{4E09}', '\U{56DB}', '\U{4E94}',
    '\U{516D}', '\U{4E03}', '\U{516B}', '\U{4E5D}', '\U{5341}']

  /** 十, the prefix of the numerals eleven to nineteen. */
  const Ten: char := '\U{5341}'

  /** 、, the enumeration comma that ends every numeral label. */
  const Comma: char := '\U{3001}'

  /** to_chinese_num: a table numeral up to ten, 十 and a table numeral up to
      nineteen, and the decimal digits from twenty on; always followed by 、. */
  function ToChineseNum(n: nat): (r: string)
    ensures |r| >= 2 && r[|r| - 1] == Comma && Comma !in r[..|r| - 1]
    ensures n < 20 <==> NoDigits(r)
    ensures n >= 20 ==> r[..|r| - 1] == Decimal(n) && DigitsValue(r[..|r| - 1]) == n
  {
    if n <= 10 then [Numerals[n], Comma]
    else if n < 20 then [Ten, Numerals[n - 10], Comma]
    else
      DecimalRoundTrip(n);
      var r := Decimal(n) + [Comma];
      assert r[..|r| - 1] == Decimal(n);
      r
  }

  /** Different numbers get different labels. */
  lemma ToChineseNumInjective(a: nat, b: nat)
    requires ToChineseNum(a) == ToChineseNum(b)
    ensures a == b
  {
    var r := ToChineseNum(a);
    if a >= 20 || b >= 20 {
    } else if a <= 10 && b <= 10 {
      assert Numerals[a] == r[0] == Numerals[b];
    } else if a > 10 && b > 10 {
      assert Numerals[a - 10] == r[1] == Numerals[b - 10];
    }
  }

  /** Python's str.isspace(): the characters str.strip() removes. */
  predicate IsSpace(c: char) {
    || c == ' ' || '\t' <= c <= '\r' || '\U{1C}' <= c <= '\U{1F}'
    || c == '\U{85}' || c == '\U{A0}' || c == '\U{1680}'
    || '\U{2000}' <= c <= '\U{200A}' || c == '\U{2028}' || c == '\U{2029}'
    || c == '\U{202F}' || c == '\U{205F}' || c == '\U{3000}'
  }

  predicate AllSpace(s: string) { forall i :: 0 <= i < |s| ==> IsSpace(s[i]) }

  /** Number of whitespace characters at the start of s. */
  function LeadingSpace(s: string): (n: nat)
    ensures n <= |s| && forall i :: 0 <= i < n ==> IsSpace(s[i])
    ensures n < |s| ==> !IsSpace(s[n])
  {
    if s != [] && IsSpace(s[0]) then 1 + LeadingSpace(s[1..]) else 0
  }

  /** Number of whitespace characters at the end of s. */
  function TrailingSpace(s: string): (n: nat)
    ensures n <= |s| && forall i :: |s| - n <= i < |s| ==> IsSpace(s[i])
    ensures n < |s| ==> !IsSpace(s[|s| - 1 - n])
  {
    if s != [] && IsSpace(s[|s| - 1]) then 1 + TrailingSpace(s[..|s| - 1]) else 0
  }

  /** str.strip(): s without its leading and trailing whitespace. */
  function Strip(s: string): (r: string)
    ensures r == [] || (!IsSpace(r[0]) && !IsSpace(r[|r| - 1]))
    ensures exists i :: 0 <= i <= |s| - |r| && r == s[i..i + |r|]
                        && AllSpace(s[..i]) && AllSpace(s[i + |r|..])
  {
    var l := LeadingSpace(s);
    if l == |s| then
      assert AllSpace(s[..l]) && s[l..] == [];
      []
    else
      var t := TrailingSpace(s);
      assert l < |s| - t;
      var r := s[l..|s| - t];
      assert AllSpace(s[..l]);
      assert AllSpace(s[|s| - t..]) by {
        var trailing := s[|s| - t..];
        forall j | 0 <= j < |trailing| ensures IsSpace(trailing[j]) {
          assert trailing[j] == s[|s| - t + j];
        }
      }
      assert r[0] == s[l] && r[|r| - 1] == s[|s| - 1 - t];
      r
  }

  /** The text that `.*` matches: everything up to the first line break. */
  function UpToNewline(s: string): (r: string)
    ensures |r| <= |s| && r == s[..|r|] && '\n' !in r
    ensures |r| < |s| ==> s[|r|] == '\n'
  {
    if s == [] || s[0] == '\n' then [] else [s[0]] + UpToNewline(s[1..])
  }

  /** The name starts with the digit run name[..k] followed by a period. */
  predicate NumberedAt(name: string, k: int) {
    0 < k < |name| && AllDigits(name[..k]) && name[k] == '.'
  }

  datatype Numbered = Numbered(number: nat, rest: string)

  /** re.match(r'(\d+)\.(.*)', name): the value of the leading digit run and
      the rest of the line after the period, when the name has that form. */
  function MatchNumbered(name: string): (m: Option<Numbered>)
    ensures m.Some? <==> exists k :: NumberedAt(name, k)
    ensures forall k :: NumberedAt(name, k) ==>
              m == Some(Numbered(DigitsValue(name[..k]), UpToNewline(name[k + 1..])))
  {
    var d := DigitRun(name);
    forall k | NumberedAt(name, k) ensures k == d {
      DigitRunOf(name[..k], name[k..]);
      assert name[..k] + name[k..] == name;
    }
    if d == 0 || d == |name| || name[d] != '.' then None
    else
      assert NumberedAt(name, d);
      Some(Numbered(DigitsValue(name[..d]), UpToNewline(name[d + 1..])))
  }

  /** convert_folder_name: at level 1 a name "<digits>.<rest>" becomes the
      numeral of the digits followed by the stripped rest; any other name, and
      any name at another level, is returned unchanged. */
  function ConvertFolderName(name: string, level: int): (r: string)
    ensures level != 1 ==> r == name
  {
    match MatchNumbered(name)
    case None => name
    case Some(Numbered(n, rest)) =>
      if level == 1 then ToChineseNum(n) + Strip(rest) else name
  }

  /** The label in terms of the name's shape: unchanged unless the name
      starts with "<digits>." and the level is 1; then the numeral of the
      digits and the stripped first line of what follows the period. */
  lemma ConvertFolderNameCases(name: string, level: int)
    ensures (forall k :: !NumberedAt(name, k)) ==> ConvertFolderName(name, level) == name
    ensures forall k :: level == 1 && NumberedAt(name, k) ==>
              ConvertFolderName(name, level)
              == ToChineseNum(DigitsValue(name[..k])) + Strip(UpToNewline(name[k + 1..]))
  {
    var m := MatchNumbered(name);
    if m.Some? {
      var k :| NumberedAt(name, k);
      assert m == Some(Numbered(DigitsValue(name[..k]), UpToNewline(name[k + 1..])));
    }
  }

  /** A level-1 label never starts with "<digits>.", so converting it again
      changes nothing. */
  lemma ConvertIdempotent(name: string)
    ensures ConvertFolderName(ConvertFolderName(name, 1), 1) == ConvertFolderName(name, 1)
  {
    var m := MatchNumbered(name);
    if m.Some? {
      var c := ToChineseNum(m.value.number);
      LabelNotNumbered(c, Strip(m.value.rest));
    }
  }

  /** A numeral label followed by any text has no "<digits>." prefix. */
  lemma LabelNotNumbered(c: string, s: string)
    requires |c| >= 2 && c[|c| - 1] == Comma
    requires NoDigits(c) || AllDigits(c[..|c| - 1])
    ensures MatchNumbered(c + s) == None
  {
    var r := c + s;
    if NoDigits(c) {
      assert r[0] == c[0];
    } else {
      var digits := c[..|c| - 1];
      assert r == digits + ([Comma] + s);
      DigitRunOf(digits, [Comma] + s);
      assert r[|digits|] == Comma;
    }
  }

  /** A top-level name "<digits>.<rest>" on one line becomes the numeral of
      the whole digit run and the stripped rest, whatever the rest holds
      (further periods and digits included: the match takes the digits up to
      the first period). */
  lemma ConvertNumbered(digits: string, rest: string)
    requires digits != [] && AllDigits(digits) && '\n' !in rest
    ensures ConvertFolderName(digits + "." + rest, 1) == ToChineseNum(DigitsValue(digits)) + Strip(rest)
  {
    var name := digits + "." + rest;
    var k := |digits|;
    assert name[..k] == digits && name[k] == '.' && name[k + 1..] == rest;
    assert NumberedAt(name, k);
    ConvertFolderNameCases(name, 1);
    UpToNewlinePlain(rest);
  }

  /** Leading zeros do not change the label: "01.x" and "1.x" both become
      一、x. */
  lemma ConvertLeadingZero(digits: string, rest: string)
    requires digits != [] && AllDigits(digits) && '\n' !in rest
    ensures ConvertFolderName("0" + digits + "." + rest, 1) == ConvertFolderName(digits + "." + rest, 1)
  {
    LeadingZeroValue(digits);
    ConvertNumbered("0" + digits, rest);
    ConvertNumbered(digits, rest);
  }

  /** From twenty on the label carries the decimal digits of the value. */
  lemma ConvertFromTwenty(n: nat, rest: string)
    requires n >= 20 && '\n' !in rest
    ensures ConvertFolderName(Decimal(n) + "." + rest, 1) == Decimal(n) + [Comma] + Strip(rest)
  {
    DecimalRoundTrip(n);
    ConvertNumbered(Decimal(n), rest);
    assert ToChineseNum(n) == Decimal(n) + [Comma];
  }

  lemma {:induction false} UpToNewlinePlain(s: string)
    requires '\n' !in s
    ensures UpToNewline(s) == s
  {
    if s != [] {
      UpToNewlinePlain(s[1..]);
    }
  }

  /** Stripping twice is stripping once. */
  lemma StripIdempotent(s: string)
    ensures Strip(Strip(s)) == Strip(s)
  {
    var r := Strip(s);
    if r != [] {
      StripPlain(r);
    }
  }

  lemma StripPlain(s: string)
    requires s != [] && !IsSpace(s[0]) && !IsSpace(s[|s| - 1])
    ensures Strip(s) == s
  {
    assert s[0..] == s;
  }
}
