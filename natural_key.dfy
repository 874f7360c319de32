/** The natural-sort key of a file or folder name (generate_evidence_doc.py,
    natural_sort_key) and the order in which Python compares two such keys.

    A name is split into alternating runs of non-digits and digits. Text runs
    are lower-cased, digit runs become their integer value, so a key always
    starts and ends with a text part. Digits are the ASCII digits and
    lower-casing maps only the ASCII capitals. */
module NaturalKey {

  predicate IsDigit(c: char) { '0' <= c <= '9' }

  predicate IsUpper(c: char) { 'A' <= c <= 'Z' }

  function Lower(c: char): (r: char)
    ensures !IsUpper(r)
    ensures IsDigit(r) <==> IsDigit(c)
    ensures !IsUpper(c) ==> r == c
  {
    if IsUpper(c) then (c as int + 32) as char else c
  }

  /** Python's str.lower(), restricted to ASCII capitals. */
  function LowerStr(s: string): string {
    seq(|s|, i requires 0 <= i < |s| => Lower(s[i]))
  }

  predicate AllDigits(s: string) { forall i :: 0 <= i < |s| ==> IsDigit(s[i]) }

  predicate NoDigits(s: string) { forall i :: 0 <= i < |s| ==> !IsDigit(s[i]) }

  /** Length of the longest prefix of s made of digits. */
  function DigitRun(s: string): (n: nat)
    ensures n <= |s| && AllDigits(s[..n])
    ensures n < |s| ==> !IsDigit(s[n])
  {
    if s != [] && IsDigit(s[0]) then 1 + DigitRun(s[1..]) else 0
  }

  /** Length of the longest prefix of s that holds no digit. */
  function TextRun(s: string): (n: nat)
    ensures n <= |s| && NoDigits(s[..n])
    ensures n < |s| ==> IsDigit(s[n])
  {
    if s != [] && !IsDigit(s[0]) then 1 + TextRun(s[1..]) else 0
  }

  /** Python's int() of a run of decimal digits, most significant first. */
  function DigitsValue(d: string): nat
    requires AllDigits(d)
  {
    if d == [] then 0 else 10 * DigitsValue(d[..|d| - 1]) + (d[|d| - 1] as int - '0' as int)
  }

  /** The decimal representation of n, without leading zeros (Python's str(n)). */
  function Decimal(n: nat): (r: string)
    ensures |r| >= 1 && AllDigits(r)
    ensures |r| > 1 ==> r[0] != '0'
  {
    if n < 10 then ['0' + n as char] else Decimal(n / 10) + ['0' + (n % 10) as char]
  }

  lemma {:induction false} DecimalRoundTrip(n: nat)
    ensures DigitsValue(Decimal(n)) == n
  {
    if n >= 10 {
      var d := Decimal(n);
      assert d[..|d| - 1] == Decimal(n / 10);
      DecimalRoundTrip(n / 10);
    }
  }

  /** A leading zero does not change the value of a digit run. */
  lemma {:induction false} LeadingZeroValue(d: string)
    requires AllDigits(d)
    ensures AllDigits("0" + d) && DigitsValue("0" + d) == DigitsValue(d)
  {
    if d != [] {
      var z := "0" + d;
      assert z[..|z| - 1] == "0" + d[..|d| - 1];
      LeadingZeroValue(d[..|d| - 1]);
    }
  }

  datatype KeyPart = Text(text: string) | Num(value: nat)

  /** A lower-cased text run: no digit and no capital. */
  predicate PlainText(t: string) {
    forall i :: 0 <= i < |t| ==> !IsDigit(t[i]) && !IsUpper(t[i])
  }

  /** The shape of every key: odd length, text parts at even positions and
      numbers at odd positions. */
  predicate WellFormedKey(k: seq<KeyPart>) {
    && |k| % 2 == 1
    && (forall i :: 0 <= i < |k| ==> (k[i].Text? <==> i % 2 == 0))
    && (forall i :: 0 <= i < |k| && k[i].Text? ==> PlainText(k[i].text))
  }

  /** natural_sort_key: re.split(r'(\d+)', s) with digit runs turned into
      integers and text runs lower-cased. */
  function NaturalSortKey(s: string): seq<KeyPart>
    decreases |s|
  {
    var t := TextRun(s);
    if t == |s| then [Text(LowerStr(s))]
    else
      var rest := s[t..];
      var d := DigitRun(rest);
      [Text(LowerStr(s[..t])), Num(DigitsValue(rest[..d]))] + NaturalSortKey(rest[d..])
  }

  /** Every key has the shape re.split gives: text, number, text, ..., text,
      with the text parts lower-cased and free of digits. */
  lemma {:induction false} KeyWellFormed(s: string)
    ensures WellFormedKey(NaturalSortKey(s))
    decreases |s|
  {
    var t := TextRun(s);
    if t == |s| {
      LowerIsPlain(s);
    } else {
      var rest := s[t..];
      var d := DigitRun(rest);
      KeyWellFormed(rest[d..]);
      LowerIsPlain(s[..t]);
      WellFormedCons(LowerStr(s[..t]), DigitsValue(rest[..d]), NaturalSortKey(rest[d..]));
    }
  }

  lemma LowerIsPlain(t: string)
    requires NoDigits(t)
    ensures PlainText(LowerStr(t))
  {
  }

  lemma WellFormedCons(t: string, n: nat, k: seq<KeyPart>)
    requires PlainText(t) && WellFormedKey(k)
    ensures WellFormedKey([Text(t), Num(n)] + k)
  {
    var r := [Text(t), Num(n)] + k;
    forall i | 2 <= i < |r| ensures r[i] == k[i - 2] { }
  }

  /** Two names whose keys differ only in the case of their letters have
      equal keys: "A1" and "a1" sort as equals. */
  lemma {:induction false} KeyIgnoresCase(s: string)
    ensures NaturalSortKey(LowerStr(s)) == NaturalSortKey(s)
    decreases |s|
  {
    var l := LowerStr(s);
    var t := TextRun(s);
    TextRunLower(s);
    if t < |s| {
      var rest := s[t..];
      var d := DigitRun(rest);
      LowerSuffix(s, t);
      var lrest := l[t..];
      assert lrest == LowerStr(rest);
      DigitRunLower(rest);
      LowerPrefix(s, t);
      LowerTwice(s[..t]);
      assert LowerStr(l[..t]) == LowerStr(s[..t]);
      LowerPrefix(rest, d);
      LowerDigits(rest[..d]);
      assert lrest[..d] == rest[..d];
      LowerSuffix(rest, d);
      assert lrest[d..] == LowerStr(rest[d..]);
      KeyIgnoresCase(rest[d..]);
    } else {
      LowerTwice(s);
    }
  }

  lemma LowerPrefix(s: string, i: nat)
    requires i <= |s|
    ensures LowerStr(s)[..i] == LowerStr(s[..i])
  {
  }

  lemma LowerSuffix(s: string, i: nat)
    requires i <= |s|
    ensures LowerStr(s)[i..] == LowerStr(s[i..])
  {
  }

  lemma LowerDigits(d: string)
    requires AllDigits(d)
    ensures LowerStr(d) == d
  {
  }

  lemma LowerTwice(s: string)
    ensures LowerStr(LowerStr(s)) == LowerStr(s)
  {
  }

  lemma {:induction false} TextRunLower(s: string)
    ensures TextRun(LowerStr(s)) == TextRun(s)
  {
    if s != [] {
      assert LowerStr(s)[1..] == LowerStr(s[1..]);
      TextRunLower(s[1..]);
    }
  }

  lemma {:induction false} DigitRunLower(s: string)
    ensures DigitRun(LowerStr(s)) == DigitRun(s)
  {
    if s != [] {
      assert LowerStr(s)[1..] == LowerStr(s[1..]);
      DigitRunLower(s[1..]);
    }
  }

  /** The text run of t + u is exactly t when t has no digit and u starts with one. */
  lemma {:induction false} TextRunOf(t: string, u: string)
    requires NoDigits(t)
    requires u == [] || IsDigit(u[0])
    ensures TextRun(t + u) == |t|
  {
    if t != [] {
      assert (t + u)[1..] == t[1..] + u;
      TextRunOf(t[1..], u);
    } else {
      assert t + u == u;
    }
  }

  /** The digit run of d + u is exactly d when d is all digits and u does not
      start with one. */
  lemma {:induction false} DigitRunOf(d: string, u: string)
    requires AllDigits(d)
    requires u == [] || !IsDigit(u[0])
    ensures DigitRun(d + u) == |d|
  {
    if d != [] {
      assert (d + u)[1..] == d[1..] + u;
      DigitRunOf(d[1..], u);
    } else {
      assert d + u == u;
    }
  }

  /** The key of a name made of a digit-free text, a digit run and a tail that
      does not start with a digit. */
  lemma KeyOfParts(t: string, d: string, u: string)
    requires NoDigits(t) && AllDigits(d) && d != []
    requires u == [] || !IsDigit(u[0])
    ensures NaturalSortKey(t + d + u) == [Text(LowerStr(t)), Num(DigitsValue(d))] + NaturalSortKey(u)
  {
    var s := t + d + u;
    assert s == t + (d + u);
    TextRunOf(t, d + u);
    assert s[..|t|] == t;
    var rest := s[|t|..];
    assert rest == d + u;
    DigitRunOf(d, u);
    assert rest[..|d|] == d && rest[|d|..] == u;
  }

  /** Splitting a name where a digit run starts splits its key: the key of
      t + w is the key of t followed by the key of w without w's empty
      leading text part, provided t does not end inside a digit run. */
  lemma {:induction false} KeyAppend(t: string, w: string)
    requires t == [] || !IsDigit(t[|t| - 1])
    requires w != [] && IsDigit(w[0])
    ensures NaturalSortKey(t + w) == NaturalSortKey(t) + NaturalSortKey(w)[1..]
    decreases |t|
  {
    var tr := TextRun(t);
    if tr == |t| {
      assert t[..tr] == t;
      KeyAppendText(t, w);
    } else {
      var rest := t[tr..];
      var d := DigitRun(rest);
      assert !IsDigit(rest[|rest| - 1]) by { assert rest[|rest| - 1] == t[|t| - 1]; }
      assert d < |rest|;
      var tail := rest[d..];
      assert t == t[..tr] + rest[..d] + tail;
      assert tail[|tail| - 1] == t[|t| - 1];
      KeyAppend(tail, w);
      KeyAppendRun(t, t[..tr], rest[..d], tail, w);
    }
  }

  /** KeyAppend for a digit-free t. */
  lemma KeyAppendText(t: string, w: string)
    requires NoDigits(t)
    requires w != [] && IsDigit(w[0])
    ensures NaturalSortKey(t + w) == NaturalSortKey(t) + NaturalSortKey(w)[1..]
  {
    var dw := DigitRun(w);
    var digits, u := w[..dw], w[dw..];
    assert w == "" + digits + u && t + w == t + digits + u;
    KeyOfParts("", digits, u);
    KeyOfParts(t, digits, u);
    KeyOfText(t);
  }

  lemma KeyOfText(t: string)
    requires NoDigits(t)
    ensures NaturalSortKey(t) == [Text(LowerStr(t))]
  {
    TextRunOf(t, []);
    assert t + [] == t;
  }

  /** KeyAppend for t made of a digit-free a, a digit run d and a tail that
      does not start with a digit, given KeyAppend for the tail. */
  lemma KeyAppendRun(t: string, a: string, d: string, tail: string, w: string)
    requires t == a + d + tail
    requires NoDigits(a) && AllDigits(d) && d != []
    requires tail != [] && !IsDigit(tail[0])
    requires NaturalSortKey(tail + w) == NaturalSortKey(tail) + NaturalSortKey(w)[1..]
    ensures NaturalSortKey(t + w) == NaturalSortKey(t) + NaturalSortKey(w)[1..]
  {
    Regroup(a + d, tail, w);
    KeyOfParts(a, d, tail);
    KeyOfParts(a, d, tail + w);
    Regroup([Text(LowerStr(a)), Num(DigitsValue(d))], NaturalSortKey(tail), NaturalSortKey(w)[1..]);
  }

  lemma Regroup<T>(x: seq<T>, y: seq<T>, z: seq<T>)
    ensures (x + y) + z == x + (y + z)
  {
  }

  /** A leading zero in any digit run does not change the key: "a01" and
      "a1" sort as equals, and so do "x1y01" and "x1y1". */
  lemma KeyIgnoresLeadingZero(t: string, d: string, u: string)
    requires t == [] || !IsDigit(t[|t| - 1])
    requires AllDigits(d) && d != []
    requires u == [] || !IsDigit(u[0])
    ensures NaturalSortKey(t + "0" + d + u) == NaturalSortKey(t + d + u)
  {
    LeadingZeroValue(d);
    Regroup(t, "0", d);
    KeyWithNumber(t, "0" + d, u);
    KeyWithNumber(t, d, u);
  }

  /** The key of a name with a digit run d between a text t that does not
      end in a digit and a tail u that does not start with one. */
  lemma KeyWithNumber(t: string, d: string, u: string)
    requires t == [] || !IsDigit(t[|t| - 1])
    requires AllDigits(d) && d != []
    requires u == [] || !IsDigit(u[0])
    ensures NaturalSortKey(t + d + u) == NaturalSortKey(t) + ([Num(DigitsValue(d))] + NaturalSortKey(u))
  {
    Regroup(t, d, u);
    StartsWithDigit(d, u);
    KeyAppend(t, d + u);
    KeyOfRun(d, u);
    DropFirst(Text([]), Num(DigitsValue(d)), NaturalSortKey(u));
  }

  lemma StartsWithDigit(d: string, u: string)
    requires AllDigits(d) && d != []
    ensures d + u != [] && IsDigit((d + u)[0])
  {
  }

  lemma DropFirst<T>(x: T, y: T, k: seq<T>)
    ensures ([x, y] + k)[1..] == [y] + k
  {
  }

  /** The key of a name that starts with a digit run: an empty text part,
      the run's value, then the key of the rest. */
  lemma KeyOfRun(d: string, u: string)
    requires AllDigits(d) && d != []
    requires u == [] || !IsDigit(u[0])
    ensures NaturalSortKey(d + u) == [Text([]), Num(DigitsValue(d))] + NaturalSortKey(u)
  {
    assert "" + d + u == d + u;
    KeyOfParts("", d, u);
  }


  // ---------- comparing keys, as Python compares lists ----------

  /** Python's str `<`: lexicographic by code point. */
  function StrLt(a: string, b: string): bool {
    if a == [] then b != []
    else if b == [] then false
    else if a[0] == b[0] then StrLt(a[1..], b[1..])
    else a[0] < b[0]
  }

  /** `<` on key parts. Keys alternate text and numbers in the same rhythm,
      so a text part is only ever compared with a text part (KeyPartsAlign);
      the order between the two kinds is a placeholder that makes the
      relation total. */
  function PartLt(x: KeyPart, y: KeyPart): bool {
    match (x, y)
    case (Text(a), Text(b)) => StrLt(a, b)
    case (Num(m), Num(n)) => m < n
    case (Num(_), Text(_)) => true
    case (Text(_), Num(_)) => false
  }

  /** Python's list `<`: the first differing part decides, and a proper
      prefix is smaller. */
  function KeyLt(a: seq<KeyPart>, b: seq<KeyPart>): bool {
    if a == [] then b != []
    else if b == [] then false
    else if a[0] == b[0] then KeyLt(a[1..], b[1..])
    else PartLt(a[0], b[0])
  }

  /** "Not greater": the relation sorted() leaves between neighbours. */
  predicate KeyLe(a: seq<KeyPart>, b: seq<KeyPart>) { !KeyLt(b, a) }

  /** Whenever two natural-sort keys are compared, the parts at the same
      position are of the same kind, so Python never compares a number with a
      string here. */
  lemma KeyPartsAlign(s: string, u: string, i: nat)
    requires i < |NaturalSortKey(s)| && i < |NaturalSortKey(u)|
    ensures NaturalSortKey(s)[i].Text? == NaturalSortKey(u)[i].Text?
  {
    KeyWellFormed(s);
    KeyWellFormed(u);
  }

  lemma {:induction false} StrLtIrreflexive(a: string)
    ensures !StrLt(a, a)
  {
    if a != [] { StrLtIrreflexive(a[1..]); }
  }

  lemma {:induction false} StrLtTransitive(a: string, b: string, c: string)
    requires StrLt(a, b) && StrLt(b, c)
    ensures StrLt(a, c)
  {
    if a != [] && b != [] && c != [] && a[0] == b[0] && b[0] == c[0] {
      StrLtTransitive(a[1..], b[1..], c[1..]);
    }
  }

  lemma {:induction false} StrLtTotal(a: string, b: string)
    requires a != b
    ensures StrLt(a, b) || StrLt(b, a)
  {
    if a != [] && b != [] && a[0] == b[0] {
      assert a == [a[0]] + a[1..] && b == [b[0]] + b[1..];
      StrLtTotal(a[1..], b[1..]);
    }
  }

  lemma PartLtIrreflexive(x: KeyPart)
    ensures !PartLt(x, x)
  {
    if x.Text? { StrLtIrreflexive(x.text); }
  }

  lemma PartLtTransitive(x: KeyPart, y: KeyPart, z: KeyPart)
    requires PartLt(x, y) && PartLt(y, z)
    ensures PartLt(x, z)
  {
    if x.Text? && y.Text? && z.Text? { StrLtTransitive(x.text, y.text, z.text); }
  }

  lemma PartLtTotal(x: KeyPart, y: KeyPart)
    requires x != y
    ensures PartLt(x, y) || PartLt(y, x)
  {
    if x.Text? && y.Text? { StrLtTotal(x.text, y.text); }
  }

  lemma {:induction false} KeyLtIrreflexive(a: seq<KeyPart>)
    ensures !KeyLt(a, a)
  {
    if a != [] { KeyLtIrreflexive(a[1..]); }
  }

  lemma {:induction false} KeyLtTransitive(a: seq<KeyPart>, b: seq<KeyPart>, c: seq<KeyPart>)
    requires KeyLt(a, b) && KeyLt(b, c)
    ensures KeyLt(a, c)
  {
    if a != [] && b != [] && c != [] {
      if a[0] == b[0] && b[0] == c[0] {
        KeyLtTransitive(a[1..], b[1..], c[1..]);
      } else if a[0] == b[0] || b[0] == c[0] {
      } else {
        PartLtTransitive(a[0], b[0], c[0]);
        if a[0] == c[0] { PartLtIrreflexive(a[0]); }
      }
    }
  }

  lemma {:induction false} KeyLtTotal(a: seq<KeyPart>, b: seq<KeyPart>)
    requires a != b
    ensures KeyLt(a, b) || KeyLt(b, a)
  {
    if a != [] && b != [] {
      if a[0] == b[0] {
        assert a == [a[0]] + a[1..] && b == [b[0]] + b[1..];
        KeyLtTotal(a[1..], b[1..]);
      } else {
        PartLtTotal(a[0], b[0]);
      }
    }
  }

  /** KeyLe is a total preorder: sorted() is well defined on natural-sort keys. */
  lemma KeyLeTotal(a: seq<KeyPart>, b: seq<KeyPart>)
    ensures KeyLe(a, b) || KeyLe(b, a)
  {
    if a == b { KeyLtIrreflexive(a); } else { KeyLtTotal(a, b); }
    if KeyLt(a, b) && KeyLt(b, a) { KeyLtTransitive(a, b, a); KeyLtIrreflexive(a); }
  }

  lemma KeyLeTransitive(a: seq<KeyPart>, b: seq<KeyPart>, c: seq<KeyPart>)
    requires KeyLe(a, b) && KeyLe(b, c)
    ensures KeyLe(a, c)
  {
    if KeyLt(c, a) {
      if a == b {
      } else {
        KeyLtTotal(a, b);
        KeyLtTransitive(c, a, b);
      }
    }
  }

  lemma KeyLtAsymmetric(a: seq<KeyPart>, b: seq<KeyPart>)
    requires KeyLt(a, b)
    ensures !KeyLt(b, a)
  {
    if KeyLt(b, a) { KeyLtTransitive(a, b, a); KeyLtIrreflexive(a); }
  }

  /** Digit runs compare by value, not character by character: with the
      same text before them (ending outside a digit run) and the same tail
      after, a smaller number sorts first ("2" before "10", "a1b2" before
      "a1b10"). */
  lemma NumbersCompareByValue(t: string, m: nat, n: nat, u: string)
    requires t == [] || !IsDigit(t[|t| - 1])
    requires u == [] || !IsDigit(u[0])
    requires m < n
    ensures KeyLt(NaturalSortKey(t + Decimal(m) + u), NaturalSortKey(t + Decimal(n) + u))
  {
    KeyWithNumber(t, Decimal(m), u);
    KeyWithNumber(t, Decimal(n), u);
    DecimalRoundTrip(m);
    DecimalRoundTrip(n);
    KeyLtAfter(NaturalSortKey(t), Num(m), Num(n), NaturalSortKey(u));
  }

  /** Keys that agree up to one part are ordered by that part. */
  lemma {:induction false} KeyLtAfter(p: seq<KeyPart>, x: KeyPart, y: KeyPart, k: seq<KeyPart>)
    requires PartLt(x, y)
    ensures KeyLt(p + ([x] + k), p + ([y] + k))
    decreases |p|
  {
    var a, b := p + ([x] + k), p + ([y] + k);
    if p == [] {
      assert a == [x] + k && b == [y] + k;
      PartLtIrreflexive(x);
    } else {
      assert a[0] == b[0] && a[1..] == p[1..] + ([x] + k) && b[1..] == p[1..] + ([y] + k);
      KeyLtAfter(p[1..], x, y, k);
    }
  }
}
