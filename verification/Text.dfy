/**
 Strings as the configuration loader handles them: trimming, lines, and decimal numbers as iostreams
 write them and strtoll reads them.
 */
module Text {
  import opened Wrappers

  /** trim's character set. */
  predicate IsBlank(c: char) {
    c == ' ' || c == '\t' || c == '\r' || c == '\n'
  }

  function TrimLeft(s: string): string {
    if s != [] && IsBlank(s[0]) then TrimLeft(s[1..]) else s
  }

  function TrimRight(s: string): string {
    if s != [] && IsBlank(s[|s| - 1]) then TrimRight(s[..|s| - 1]) else s
  }

  function Trim(s: string): string {
    TrimRight(TrimLeft(s))
  }

  predicate IsTrimmed(s: string) {
    s == [] || (!IsBlank(s[0]) && !IsBlank(s[|s| - 1]))
  }

  predicate AllBlank(s: string) {
    forall i | 0 <= i < |s| :: IsBlank(s[i])
  }

  lemma {:induction false} TrimLeftSpec(s: string) returns (n: nat)
    ensures n <= |s| && TrimLeft(s) == s[n..] && AllBlank(s[..n])
    ensures TrimLeft(s) != [] ==> !IsBlank(TrimLeft(s)[0])
  {
    if s != [] && IsBlank(s[0]) {
      var m := TrimLeftSpec(s[1..]);
      n := m + 1;
      assert s[1..][m..] == s[n..];
      assert s[..n] == [s[0]] + s[1..][..m];
    } else {
      n := 0;
    }
  }

  lemma {:induction false} TrimRightSpec(s: string) returns (n: nat)
    ensures n <= |s| && TrimRight(s) == s[..n] && AllBlank(s[n..])
    ensures n > 0 ==> !IsBlank(s[n - 1])
  {
    if s != [] && IsBlank(s[|s| - 1]) {
      n := TrimRightSpec(s[..|s| - 1]);
      assert s[n..] == s[..|s| - 1][n..] + [s[|s| - 1]];
    } else {
      n := |s|;
    }
  }

  lemma {:induction false} TrimLeftAway(pad: string, s: string)
    requires AllBlank(pad) && (s != [] ==> !IsBlank(s[0]))
    ensures TrimLeft(pad + s) == s
  {
    if pad != [] {
      assert (pad + s)[1..] == pad[1..] + s;
      TrimLeftAway(pad[1..], s);
    } else {
      assert pad + s == s;
    }
  }

  lemma {:induction false} TrimRightAway(s: string, pad: string)
    requires AllBlank(pad) && (s != [] ==> !IsBlank(s[|s| - 1]))
    ensures TrimRight(s + pad) == s
  {
    if pad != [] {
      assert (s + pad)[..|s + pad| - 1] == s + pad[..|pad| - 1];
      TrimRightAway(s, pad[..|pad| - 1]);
    } else {
      assert s + pad == s;
    }
  }

  /** Trimming removes the blanks around a trimmed string and nothing else. */
  lemma TrimAway(left: string, s: string, right: string)
    requires AllBlank(left) && AllBlank(right) && IsTrimmed(s)
    ensures Trim(left + s + right) == s
  {
    if s == [] {
      assert left + s + right == left + right + [];
      assert AllBlank(left + right);
      TrimLeftAway(left + right, []);
    } else {
      assert left + s + right == left + (s + right);
      TrimLeftAway(left, s + right);
      TrimRightAway(s, right);
    }
  }

  /** What is left neither starts nor ends with a blank, and only blanks are gone. */
  lemma TrimSpec(s: string) returns (from: nat, to: nat)
    ensures from <= to <= |s| && Trim(s) == s[from..to] && IsTrimmed(Trim(s))
    ensures from < to ==> s[from] !in " \t\r\n" && s[to - 1] !in " \t\r\n"
    ensures forall i | 0 <= i < from || to <= i < |s| :: s[i] in " \t\r\n"
  {
    var n := TrimLeftSpec(s);
    var m := TrimRightSpec(TrimLeft(s));
    from := n;
    to := n + m;
    assert s[n..][..m] == s[from..to] && s[n..][m..] == s[to..];
    assert from < to ==> Trim(s)[0] == s[from] && Trim(s)[to - from - 1] == s[to - 1];
    forall i | 0 <= i < from || to <= i < |s|
      ensures IsBlank(s[i])
    {
      assert i < from ==> s[..from][i] == s[i];
      assert i >= to ==> s[to..][i - to] == s[i];
    }
  }

  // ----- lines -----

  /** The index of the first c, or the length. */
  function IndexOf(s: string, c: char): (k: nat)
    ensures k <= |s| && (k < |s| ==> s[k] == c) && forall i | 0 <= i < k :: s[i] != c
  {
    if s == [] || s[0] == c then 0 else 1 + IndexOf(s[1..], c)
  }

  /** Repeated getline: a last line without its newline counts, an empty rest does not. */
  function Lines(text: string): seq<string>
    decreases |text|
  {
    if text == [] then []
    else
      var k := IndexOf(text, '\n');
      [text[..k]] + if k < |text| then Lines(text[k + 1..]) else []
  }

  function Unlines(lines: seq<string>): string {
    if lines == [] then "" else lines[0] + "\n" + Unlines(lines[1..])
  }

  lemma IndexOfFirst(a: string, c: char, b: string)
    requires c !in a
    ensures IndexOf(a + [c] + b, c) == |a|
  {
    var s := a + [c] + b;
    assert s[|a|] == c;
    assert forall k | 0 <= k < |a| :: s[k] == a[k];
  }

  lemma {:induction false} LinesUnlines(lines: seq<string>)
    requires forall l | l in lines :: '\n' !in l
    ensures Lines(Unlines(lines)) == lines
  {
    if lines != [] {
      var rest := Unlines(lines[1..]);
      assert "\n" == ['\n'];
      IndexOfFirst(lines[0], '\n', rest);
      LinesUnlines(lines[1..]);
      var text := lines[0] + ['\n'] + rest;
      assert text == Unlines(lines);
      assert text[..|lines[0]|] == lines[0] && text[|lines[0]| + 1..] == rest;
    }
  }

  lemma FirstLine(line: string, rest: string)
    requires '\n' !in line
    ensures Lines(line + "\n" + rest) == [line] + Lines(rest)
  {
    assert "\n" == ['\n'];
    IndexOfFirst(line, '\n', rest);
    var text := line + ['\n'] + rest;
    assert text[..|line|] == line && text[|line| + 1..] == rest;
  }

  lemma OnlyLine(line: string)
    requires '\n' !in line && line != []
    ensures Lines(line) == [line]
  {
    assert IndexOf(line, '\n') == |line| && line[..|line|] == line;
  }

  /** A last line without its newline is a line too. */
  lemma {:induction false} LastLine(lines: seq<string>, last: string)
    requires (forall l | l in lines :: '\n' !in l) && '\n' !in last && last != []
    ensures Lines(Unlines(lines) + last) == lines + [last]
  {
    hide Lines;
    if lines == [] {
      OnlyLine(last);
      assert Unlines(lines) + last == last && lines + [last] == [last];
    } else {
      var rest := Unlines(lines[1..]) + last;
      FirstLine(lines[0], rest);
      LastLine(lines[1..], last);
      assert lines[0] + "\n" + rest == Unlines(lines) + last;
      assert lines + [last] == [lines[0]] + (lines[1..] + [last]);
    }
  }

  // ----- numbers -----

  predicate IsDigit(c: char) {
    '0' <= c <= '9'
  }

  function DigitValue(c: char): (d: nat)
    requires IsDigit(c)
    ensures d < 10
  {
    (c as int) - ('0' as int)
  }

  function DigitChar(d: nat): (c: char)
    requires d < 10
    ensures IsDigit(c) && DigitValue(c) == d
  {
    ('0' as int + d) as char
  }

  predicate AllDigits(s: string) {
    forall i | 0 <= i < |s| :: IsDigit(s[i])
  }

  function Show(n: nat): (s: string)
    ensures s != [] && AllDigits(s)
  {
    if n < 10 then [DigitChar(n)] else Show(n / 10) + [DigitChar(n % 10)]
  }

  function ShowInt(i: int): (s: string)
    ensures s != [] && (i >= 0 ==> s == Show(i)) && (i < 0 ==> s == ['-'] + Show(-i))
  {
    if i < 0 then ['-'] + Show(-i) else Show(i)
  }

  function Value(digits: string): nat
    requires AllDigits(digits)
  {
    if digits == [] then 0 else 10 * Value(digits[..|digits| - 1]) + DigitValue(digits[|digits| - 1])
  }

  /** How many digits the string starts with. */
  function LeadingDigits(s: string): (n: nat)
    ensures n <= |s| && forall i | 0 <= i < n :: IsDigit(s[i])
  {
    if s == [] || !IsDigit(s[0]) then 0 else 1 + LeadingDigits(s[1..])
  }

  predicate IsSpace(c: char) {
    c == ' ' || '\t' <= c <= '\r'
  }

  function SkipSpace(s: string): string {
    if s != [] && IsSpace(s[0]) then SkipSpace(s[1..]) else s
  }

  /** strtoll in base 10: leading space, one sign, as many digits as there are; the rest is ignored. */
  function ReadInt(s: string): Option<int> {
    var t := SkipSpace(s);
    var negative := t != [] && t[0] == '-';
    var signed := t != [] && (t[0] == '-' || t[0] == '+');
    var u := if signed then t[1..] else t;
    var n := LeadingDigits(u);
    var magnitude: int := Value(u[..n]);
    if n == 0 then None else Some(if negative then -magnitude else magnitude)
  }

  lemma {:induction false} ValueShow(n: nat)
    ensures Value(Show(n)) == n
  {
    var s := Show(n);
    if n >= 10 {
      assert s[..|s| - 1] == Show(n / 10);
      ValueShow(n / 10);
    } else {
      assert s[..|s| - 1] == [];
    }
  }

  lemma {:induction false} LeadingAll(s: string)
    requires AllDigits(s)
    ensures LeadingDigits(s) == |s|
  {
    if s != [] {
      LeadingAll(s[1..]);
    }
  }

  /** A printed number is read back. */
  lemma ReadShown(i: int)
    ensures ReadInt(ShowInt(i)) == Some(i)
  {
    var s := ShowInt(i);
    var digits := Show(if i < 0 then -i else i);
    LeadingAll(digits);
    ValueShow(if i < 0 then -i else i);
    assert digits[..|digits|] == digits;
    assert SkipSpace(s) == s;
    if i < 0 {
      assert s[1..] == digits;
    }
  }

  lemma {:induction false} SkipsSpace(spaces: string, s: string)
    requires (forall i | 0 <= i < |spaces| :: IsSpace(spaces[i])) && (s != [] ==> !IsSpace(s[0]))
    ensures SkipSpace(spaces + s) == s
  {
    if spaces == [] {
      assert spaces + s == s;
    } else {
      assert (spaces + s)[1..] == spaces[1..] + s;
      SkipsSpace(spaces[1..], s);
    }
  }

  lemma {:induction false} LeadingOf(digits: string, rest: string)
    requires AllDigits(digits) && (rest != [] ==> !IsDigit(rest[0]))
    ensures LeadingDigits(digits + rest) == |digits|
  {
    if digits == [] {
      assert digits + rest == rest;
    } else {
      assert (digits + rest)[1..] == digits[1..] + rest;
      LeadingOf(digits[1..], rest);
    }
  }

  /** What a value starts with decides: space, a sign, digits, then anything; without a digit there is no number. */
  lemma {:induction false} ReadIntSpec(spaces: string, sign: string, digits: string, rest: string)
    requires forall i | 0 <= i < |spaces| :: IsSpace(spaces[i])
    requires sign == "" || sign == "+" || sign == "-"
    requires AllDigits(digits) && (rest != [] ==> !IsDigit(rest[0]))
    requires sign == "" && digits == [] && rest != [] ==> !IsSpace(rest[0]) && rest[0] != '-' && rest[0] != '+'
    ensures ReadInt(spaces + (sign + (digits + rest)))
            == if digits == [] then None else var v: int := Value(digits); Some(if sign == "-" then -v else v)
  {
    hide Value;
    var u := digits + rest;
    var t := sign + u;
    assert digits != [] ==> u[0] == digits[0];
    assert sign != "" ==> t[0] == sign[0] && t[1..] == u;
    assert sign == "" ==> t == u;
    SkipsSpace(spaces, t);
    LeadingOf(digits, rest);
    assert u[..|digits|] == digits;
  }

  /** Numbers are printed in decimal, the highest digit first. */
  lemma ShownInDecimal(n: nat)
    ensures var s := Show(n);
            s[|s| - 1] == "0123456789"[n % 10] && s[..|s| - 1] == if n < 10 then "" else Show(n / 10)
  {
    DecimalDigit(n % 10);
  }

  lemma DecimalDigit(d: nat)
    requires d < 10
    ensures DigitChar(d) == "0123456789"[d]
  {
  }

  /** And read so. */
  lemma ReadInDecimal(s: string, d: nat)
    requires AllDigits(s) && d < 10
    ensures var t := s + ["0123456789"[d]];
            AllDigits(t) && Value(t) == 10 * Value(s) + d && Value("") == 0
  {
    DecimalDigit(d);
    var t := s + [DigitChar(d)];
    assert t[..|t| - 1] == s;
  }

  lemma ShownIsPlain(i: int)
    ensures IsTrimmed(ShowInt(i)) && '\n' !in ShowInt(i)
  {
    var s := ShowInt(i);
    var digits := Show(if i < 0 then -i else i);
    assert IsDigit(digits[0]) && IsDigit(digits[|digits| - 1]);
    forall k | 0 <= k < |s|
      ensures s[k] == '-' || IsDigit(s[k])
    {
      if i < 0 && k > 0 {
        assert s[k] == digits[k - 1];
      }
    }
  }
}
