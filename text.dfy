/** String helpers shared by the model: decimal rendering and parsing,
    `str::lines`, `str::split_once`, `str::split` and ASCII lower-casing. */
module Text {
  import opened Wrappers

  // ---------------------------------------------------------------- decimals

  predicate IsDigit(c: char) { '0' <= c <= '9' }

  predicate IsDigits(s: string) { forall i :: 0 <= i < |s| ==> IsDigit(s[i]) }

  function DigitChar(d: nat): (c: char)
    requires d < 10
    ensures IsDigit(c)
  {
    (d + '0' as int) as char
  }

  function DigitValue(c: char): (d: nat)
    requires IsDigit(c)
    ensures d < 10
  {
    c as int - '0' as int
  }

  /** The decimal rendering of `n`, as `format!("{}", n)` writes it. */
  function Digits(n: nat): (s: string)
    ensures |s| >= 1 && IsDigits(s)
    ensures n < 10 <==> |s| == 1
  {
    if n < 10 then [DigitChar(n)] else Digits(n / 10) + [DigitChar(n % 10)]
  }

  /** The number a non-empty or empty string of decimal digits denotes. */
  function DigitsValue(s: string): nat
    requires IsDigits(s)
  {
    if s == [] then 0 else DigitsValue(s[..|s| - 1]) * 10 + DigitValue(s[|s| - 1])
  }

  lemma {:induction false} DigitsRoundTrip(n: nat)
    ensures DigitsValue(Digits(n)) == n
  {
    if n >= 10 {
      var s := Digits(n);
      assert s[..|s| - 1] == Digits(n / 10);
      DigitsRoundTrip(n / 10);
    }
  }

  lemma DigitsBelow100(n: nat)
    requires n < 100
    ensures |Digits(n)| <= 2
  {
    if n >= 10 {
      assert |Digits(n / 10)| == 1;
    }
  }

  lemma DigitsBelow1000(n: nat)
    requires n < 1000
    ensures |Digits(n)| <= 3
  {
    if n >= 10 {
      DigitsBelow100(n / 10);
    }
  }

  function Zeros(k: nat): (s: string)
    ensures |s| == k && IsDigits(s)
  {
    seq(k, _ => '0')
  }

  /** `n` zero-padded to at least `width` digits, as `{:0width}` writes it. */
  function Pad(n: nat, width: nat): (s: string)
    ensures IsDigits(s)
    ensures |s| == if |Digits(n)| < width then width else |Digits(n)|
  {
    var ds := Digits(n);
    if |ds| < width then Zeros(width - |ds|) + ds else ds
  }

  lemma {:induction false} LeadingZero(s: string)
    requires IsDigits(s)
    ensures DigitsValue(['0'] + s) == DigitsValue(s)
  {
    if s != [] {
      assert (['0'] + s)[..|s|] == ['0'] + s[..|s| - 1];
      LeadingZero(s[..|s| - 1]);
    }
  }

  lemma {:induction false} LeadingZeros(k: nat, s: string)
    requires IsDigits(s)
    ensures DigitsValue(Zeros(k) + s) == DigitsValue(s)
  {
    if k > 0 {
      var rest := Zeros(k - 1) + s;
      assert Zeros(k) == ['0'] + Zeros(k - 1);
      assert Zeros(k) + s == ['0'] + rest;
      assert IsDigits(rest);
      LeadingZeros(k - 1, s);
      LeadingZero(rest);
    } else {
      assert Zeros(k) + s == s;
    }
  }

  /** Padding never changes the value a rendering denotes. */
  lemma PadRoundTrip(n: nat, width: nat)
    ensures DigitsValue(Pad(n, width)) == n
  {
    var ds := Digits(n);
    var k := if |ds| < width then width - |ds| else 0;
    assert Pad(n, width) == Zeros(k) + ds by {
      if k == 0 {
        assert Zeros(k) + ds == ds;
      }
    }
    DigitsRoundTrip(n);
    hide Pad, Digits, Zeros, DigitsValue;
    LeadingZeros(k, ds);
  }

  // ---------------------------------------------------------------- searching

  /** Index of the first `c` in `s`, or `|s|` when there is none. */
  function IndexOf(s: string, c: char): (i: nat)
    ensures i <= |s|
    ensures forall j :: 0 <= j < i ==> s[j] != c
    ensures i < |s| ==> s[i] == c
  {
    if s == [] then 0 else if s[0] == c then 0 else 1 + IndexOf(s[1..], c)
  }

  lemma IndexOfAfter(a: string, c: char, b: string)
    requires c !in a
    ensures IndexOf(a + [c] + b, c) == |a|
  {
    var s := a + [c] + b;
    assert s[|a|] == c;
    assert forall j :: 0 <= j < |a| ==> s[j] == a[j];
  }

  /** `s.split_once(c)`: the text before and after the first `c`. */
  function SplitOnce(s: string, c: char): (r: Option<(string, string)>)
    ensures r.Some? <==> c in s
    ensures r.Some? ==> s == r.value.0 + [c] + r.value.1 && c !in r.value.0
  {
    var i := IndexOf(s, c);
    if i == |s| then None
    else
      assert s == s[..i] + [c] + s[i + 1..];
      Some((s[..i], s[i + 1..]))
  }

  /** The pieces put back together with `c` between each two. */
  function Join(pieces: seq<string>, c: char): string
  {
    if pieces == [] then []
    else if |pieces| == 1 then pieces[0]
    else pieces[0] + [c] + Join(pieces[1..], c)
  }

  /** `s.split(c)`: every piece between occurrences of `c`, empty pieces
      kept. Pieces free of `c` that join back into `s` are exactly these. */
  function Split(s: string, c: char): (r: seq<string>)
    ensures |r| >= 1
    ensures forall k :: 0 <= k < |r| ==> c !in r[k]
    ensures Join(r, c) == s
    ensures |r| == 1 <==> c !in s
    decreases |s|
  {
    var i := IndexOf(s, c);
    if i == |s| then [s]
    else
      var rest := Split(s[i + 1..], c);
      assert ([s[..i]] + rest)[1..] == rest;
      assert s == s[..i] + [c] + s[i + 1..];
      [s[..i]] + rest
  }

  lemma SplitNone(s: string, c: char)
    requires c !in s
    ensures Split(s, c) == [s]
  {
  }

  /** One step of `Split` at the first `c`. */
  lemma SplitStep(s: string, c: char)
    requires c in s
    ensures IndexOf(s, c) < |s|
    ensures Split(s, c) == [s[..IndexOf(s, c)]] + Split(s[IndexOf(s, c) + 1..], c)
  {
  }

  /** Splitting off a last piece free of `c` adds that piece at the end. */
  lemma {:induction false} SplitLast(a: string, c: char, b: string)
    requires c !in b
    ensures Split(a + [c] + b, c) == Split(a, c) + [b]
    decreases |a|
  {
    hide Split, Join, IndexOf;
    if c !in a {
      SplitLastBase(a, c, b);
    } else {
      var i := IndexOf(a, c);
      SplitLast(a[i + 1..], c, b);
      SplitLastStep(a, c, b);
    }
  }

  /** The induction step of `SplitLast`: the first piece of `a` is split off
      first on both sides. */
  lemma SplitLastStep(a: string, c: char, b: string)
    requires c in a && c !in b
    requires IndexOf(a, c) < |a|
    requires Split(a[IndexOf(a, c) + 1..] + [c] + b, c) == Split(a[IndexOf(a, c) + 1..], c) + [b]
    ensures Split(a + [c] + b, c) == Split(a, c) + [b]
  {
    hide Split, Join;
    var i := IndexOf(a, c);
    SplitPrefixStep(a, c, b);
    SplitStep(a, c);
    var head, rest := a[..i], Split(a[i + 1..], c);
    assert Split(a + [c] + b, c) == [head] + (rest + [b]);
    assert Split(a, c) == [head] + rest;
  }

  lemma SplitLastBase(a: string, c: char, b: string)
    requires c !in a && c !in b
    ensures Split(a + [c] + b, c) == Split(a, c) + [b]
  {
    var s := a + [c] + b;
    IndexOfAfter(a, c, b);
    assert s[..|a|] == a && s[|a| + 1..] == b;
    hide Split, IndexOf;
    SplitStep(s, c);
    SplitNone(a, c);
    SplitNone(b, c);
  }

  /** The first `c` of `a` is the first of `a + [c] + b` too. */
  lemma SplitPrefixStep(a: string, c: char, b: string)
    requires c in a
    ensures IndexOf(a, c) < |a|
    ensures Split(a + [c] + b, c)
            == [a[..IndexOf(a, c)]] + Split(a[IndexOf(a, c) + 1..] + [c] + b, c)
  {
    var s := a + [c] + b;
    var i := IndexOf(a, c);
    IndexOfPrefix(a, [c] + b, c);
    assert s == a + ([c] + b);
    assert s[..i] == a[..i] && s[i + 1..] == a[i + 1..] + [c] + b;
    hide Split, IndexOf;
    SplitStep(s, c);
  }

  // ---------------------------------------------------------------- lines

  /** Drops one trailing carriage return. */
  function StripCR(line: string): string
  {
    if |line| > 0 && line[|line| - 1] == '\r' then line[..|line| - 1] else line
  }

  /** `s.lines()`: pieces ended by `\n` (a `\r` before it dropped too); the
      last piece needs no `\n`, and an empty string has no lines. */
  function Lines(s: string): (r: seq<string>)
    ensures forall k :: 0 <= k < |r| ==> '\n' !in r[k]
    ensures s == [] <==> r == []
    decreases |s|
  {
    if s == [] then []
    else
      var i := IndexOf(s, '\n');
      if i == |s| then [s] else [StripCR(s[..i])] + Lines(s[i + 1..])
  }

  lemma LinesCons(line: string, rest: string)
    requires '\n' !in line
    ensures Lines(line + "\n" + rest) == [StripCR(line)] + Lines(rest)
  {
    var s := line + "\n" + rest;
    IndexOfAfter(line, '\n', rest);
    assert s[..|line|] == line;
    assert s[|line| + 1..] == rest;
  }

  lemma IndexOfPrefix(a: string, b: string, c: char)
    requires c in a
    ensures IndexOf(a, c) < |a|
    ensures IndexOf(a + b, c) == IndexOf(a, c)
  {
    assert forall x :: 0 <= x < |a| ==> (a + b)[x] == a[x];
  }

  /** One step of `Lines` on text holding a line break. */
  lemma LinesStep(s: string)
    requires '\n' in s
    ensures IndexOf(s, '\n') < |s|
    ensures Lines(s) == [StripCR(s[..IndexOf(s, '\n')])] + Lines(s[IndexOf(s, '\n') + 1..])
  {
    IndexOfPrefix(s, [], '\n');
  }

  /** Text that ends a line can be split off before reading lines. */
  lemma {:induction false} LinesAppend(a: string, b: string)
    requires a == [] || a[|a| - 1] == '\n'
    ensures Lines(a + b) == Lines(a) + Lines(b)
    decreases |a|
  {
    if a != [] {
      assert '\n' in a;
      IndexOfPrefix(a, b, '\n');
      var i := IndexOf(a, '\n');
      assert (a + b)[..i] == a[..i];
      assert (a + b)[i + 1..] == a[i + 1..] + b;
      LinesStep(a);
      LinesStep(a + b);
      hide Lines;
      LinesAppend(a[i + 1..], b);
    } else {
      assert a + b == b;
    }
  }

  /** Text that reads back as exactly itself, one line. */
  predicate SingleLine(s: string)
  {
    '\n' !in s && (s == [] || s[|s| - 1] != '\r')
  }

  /** Two single lines put side by side are still one line. */
  lemma SingleLineJoin(a: string, b: string)
    requires SingleLine(a) && SingleLine(b)
    ensures SingleLine(a + b)
  {
    if b == [] {
      assert a + b == a;
    } else {
      assert (a + b)[|a + b| - 1] == b[|b| - 1];
    }
  }

  lemma LinesKeep(line: string, rest: string)
    requires SingleLine(line)
    ensures Lines(line + "\n" + rest) == [line] + Lines(rest)
  {
    LinesCons(line, rest);
  }

  lemma LinesOne(line: string)
    requires SingleLine(line)
    ensures Lines(line + "\n") == [line]
  {
    LinesKeep(line, "");
    assert line + "\n" + "" == line + "\n";
  }

  lemma EmptyLine()
    ensures Lines("\n") == [""]
  {
    LinesOne("");
  }

  /** A line followed by a blank line. */
  lemma LinesThenBlank(line: string)
    requires SingleLine(line)
    ensures Lines(line + "\n\n") == [line, ""]
  {
    LinesKeep(line, "\n");
    EmptyLine();
    assert line + "\n" + "\n" == line + "\n\n";
  }

  /** A line and a blank line in front of more text. */
  lemma LinesAfterBlank(line: string, rest: string)
    requires SingleLine(line)
    ensures Lines(line + "\n\n" + rest) == [line, ""] + Lines(rest)
  {
    var tail := "" + "\n" + rest;
    assert line + "\n\n" + rest == line + "\n" + tail;
    LinesKeep(line, tail);
    LinesKeep("", rest);
  }

  // ---------------------------------------------------------------- case

  function LowerChar(c: char): char
  {
    if 'A' <= c <= 'Z' then (c as int + 32) as char else c
  }

  /** `to_lowercase()` restricted to ASCII letters. */
  function ToLower(s: string): (r: string)
    ensures |r| == |s|
    ensures forall i :: 0 <= i < |s| ==> r[i] == LowerChar(s[i])
  {
    seq(|s|, i requires 0 <= i < |s| => LowerChar(s[i]))
  }
}
