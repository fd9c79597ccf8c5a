/**
 * The handful of Ruby String and Integer operations the countdown core is
 * built from, with Ruby's own semantics written out: IO#gets line splitting,
 * String#start_with?, String#chomp, String#split with a one-character
 * separator, String#to_i and Integer#to_s (both in base 10).
 */
module RubyText {

  predicate IsDigit(c: char) { '0' <= c <= '9' }

  /** The characters String#to_i skips before the number (C's isspace). */
  predicate IsSpace(c: char)
  {
    c == ' ' || c == '\t' || c == '\n' || c == '\r' || c as int == 11 || c as int == 12
  }

  predicate AllDigits(s: string)
  {
    forall i :: 0 <= i < |s| ==> IsDigit(s[i])
  }

  /** String#start_with? */
  predicate StartsWith(s: string, prefix: string)
  {
    |prefix| <= |s| && s[..|prefix|] == prefix
  }

  /** String#chomp with the default separator: drops one trailing "\r\n", "\n" or "\r". */
  function Chomp(s: string): (r: string)
    ensures |r| <= |s| && r == s[..|r|]
    ensures s[|r|..] in {"", "\n", "\r", "\r\n"}
    ensures |s| >= 2 && s[|s| - 2..] == "\r\n" ==> r == s[..|s| - 2]
    ensures |s| >= 1 && (s[|s| - 1] == '\n' || s[|s| - 1] == '\r') && !(|s| >= 2 && s[|s| - 2..] == "\r\n")
      ==> r == s[..|s| - 1]
    ensures |s| > 0 && s[|s| - 1] != '\n' && s[|s| - 1] != '\r' ==> r == s
    ensures s != [] && (s[|s| - 1] == '\n' || s[|s| - 1] == '\r') ==> |r| < |s|
  {
    if |s| >= 2 && s[|s| - 2..] == "\r\n" then s[..|s| - 2]
    else if |s| >= 1 && (s[|s| - 1] == '\n' || s[|s| - 1] == '\r') then
      assert s[|s| - 1..] == [s[|s| - 1]];
      s[..|s| - 1]
    else
      assert s[|s|..] == "";
      s
  }

  /** Chomp undoes the "\n" that ends a line read by IO#gets, so the text
      before it comes back, unless that text itself ends in "\r". */
  lemma ChompLine(body: string)
    requires body == [] || body[|body| - 1] != '\r'
    ensures Chomp(body + "\n") == body
  {
    var s := body + "\n";
    assert s[..|s| - 1] == body;
    assert |s| >= 2 ==> s[|s| - 2] == body[|body| - 1];
  }

  // ---------------------------------------------------------------------
  // Lines, as successive calls of IO#gets return them
  // ---------------------------------------------------------------------

  function Concat(ls: seq<string>): string
  {
    if ls == [] then "" else ls[0] + Concat(ls[1..])
  }

  /** A line as IO#gets returns it: not empty, "\n" only at its end, and
      ending in "\n" unless it is the last line of the file. */
  predicate IsLine(l: string, last: bool)
  {
    l != [] && (forall j :: 0 <= j < |l| - 1 ==> l[j] != '\n') && (!last ==> l[|l| - 1] == '\n')
  }

  predicate LinesShaped(ls: seq<string>)
  {
    forall i :: 0 <= i < |ls| ==> IsLine(ls[i], i == |ls| - 1)
  }

  /** The lines that `while (line = file.gets)` visits for a file holding `text`. */
  function Lines(text: string): seq<string>
    decreases |text|
  {
    if text == [] then []
    else
      var rest := Lines(text[1..]);
      if text[0] == '\n' then ["\n"] + rest
      else if rest == [] then [text[..1]]
      else [[text[0]] + rest[0]] + rest[1..]
  }

  lemma {:induction false} LinesConcat(text: string)
    ensures Concat(Lines(text)) == text
    decreases |text|
  {
    if text != [] {
      var rest := Lines(text[1..]);
      LinesConcat(text[1..]);
      var ls := Lines(text);
      assert [text[0]] + text[1..] == text;
      if text[0] == '\n' {
        assert ls[1..] == rest;
      } else if rest == [] {
        assert text == text[..1];
      } else {
        assert ls[1..] == rest[1..];
        assert Concat(rest) == rest[0] + Concat(rest[1..]);
        assert Concat(ls) == [text[0]] + rest[0] + Concat(rest[1..]);
      }
    }
  }

  lemma {:induction false} LinesShapedText(text: string)
    ensures LinesShaped(Lines(text))
    decreases |text|
  {
    if text != [] {
      var rest := Lines(text[1..]);
      LinesShapedText(text[1..]);
      var ls := Lines(text);
      if text[0] == '\n' {
        assert ls[1..] == rest;
        forall i | 0 <= i < |ls| ensures IsLine(ls[i], i == |ls| - 1) {
          if i > 0 { assert ls[i] == rest[i - 1]; }
        }
      } else if rest != [] {
        assert ls[1..] == rest[1..];
        assert forall j :: 1 <= j < |ls[0]| ==> ls[0][j] == rest[0][j - 1];
        forall i | 0 <= i < |ls| ensures IsLine(ls[i], i == |ls| - 1) {
          if i > 0 { assert ls[i] == rest[i]; }
          else { assert IsLine(rest[0], 0 == |rest| - 1); }
        }
      }
    }
  }

  /** Reading a text line by line loses nothing and yields well-shaped lines. */
  lemma LinesSplitText(text: string)
    ensures Concat(Lines(text)) == text
    ensures LinesShaped(Lines(text))
  {
    LinesConcat(text);
    LinesShapedText(text);
  }

  /** Every line but the last ends in "\n". */
  lemma LineEndsInNewline(text: string, i: nat)
    requires i < |Lines(text)| - 1
    ensures Lines(text)[i] != [] && Lines(text)[i][|Lines(text)[i]| - 1] == '\n'
  {
    LinesSplitText(text);
    assert IsLine(Lines(text)[i], false);
  }

  /** A line followed by more text is read back as that line first. */
  lemma {:induction false} LinesPrepend(l: string, rest: string)
    requires IsLine(l, rest == [])
    ensures Lines(l + rest) == [l] + Lines(rest)
    decreases |l|
  {
    if |l| == 1 {
      assert (l + rest)[1..] == rest;
      if l[0] == '\n' {
        assert l == "\n";
      } else {
        assert l + rest == l;
        assert Lines(l[1..]) == [];
        assert l[..1] == l;
      }
    } else {
      assert (l + rest)[1..] == l[1..] + rest;
      assert IsLine(l[1..], rest == []) by {
        assert forall j :: 0 <= j < |l| - 2 ==> l[1..][j] == l[j + 1];
      }
      LinesPrepend(l[1..], rest);
      assert [l[0]] + l[1..] == l;
    }
  }

  /** Splitting the concatenation of well-shaped lines gives those lines back. */
  lemma {:induction false} LinesOfConcat(ls: seq<string>)
    requires LinesShaped(ls)
    ensures Lines(Concat(ls)) == ls
    decreases |ls|
  {
    if ls != [] {
      assert IsLine(ls[0], 0 == |ls| - 1);
      if |ls| == 1 {
        assert Concat(ls[1..]) == [];
      }
      assert LinesShaped(ls[1..]) by {
        forall i | 0 <= i < |ls[1..]| ensures IsLine(ls[1..][i], i == |ls[1..]| - 1) {
          assert IsLine(ls[i + 1], i + 1 == |ls| - 1);
        }
      }
      LinesPrepend(ls[0], Concat(ls[1..]));
      LinesOfConcat(ls[1..]);
    }
  }

  // ---------------------------------------------------------------------
  // String#split with a one-character separator
  // ---------------------------------------------------------------------

  /** Every field between separators, empty ones included. */
  function Fields(s: string, sep: char): seq<string>
    ensures |Fields(s, sep)| > 0
    decreases |s|
  {
    if s == [] then [""]
    else
      var rest := Fields(s[1..], sep);
      if s[0] == sep then [""] + rest else [[s[0]] + rest[0]] + rest[1..]
  }

  function Join(fs: seq<string>, sep: char): string
    requires |fs| > 0
    decreases |fs|
  {
    if |fs| == 1 then fs[0] else fs[0] + [sep] + Join(fs[1..], sep)
  }

  /** The fields hold no separator and joining them with it restores the text. */
  lemma {:induction false} FieldsJoin(s: string, sep: char)
    ensures Join(Fields(s, sep), sep) == s
    ensures forall i :: 0 <= i < |Fields(s, sep)| ==> sep !in Fields(s, sep)[i]
    decreases |s|
  {
    if s != [] {
      FieldsJoin(s[1..], sep);
      var rest := Fields(s[1..], sep);
      var fs := Fields(s, sep);
      if s[0] == sep {
        assert fs[1..] == rest;
        forall i | 0 <= i < |fs| ensures sep !in fs[i] {
          if i > 0 { assert fs[i] == rest[i - 1]; }
        }
      } else {
        assert [s[0]] + s[1..] == s;
        if |rest| == 1 {
          assert fs == [[s[0]] + rest[0]];
        } else {
          assert fs[1..] == rest[1..];
          assert Join(rest, sep) == rest[0] + [sep] + Join(rest[1..], sep);
        }
        forall i | 0 <= i < |fs| ensures sep !in fs[i] {
          if i > 0 { assert fs[i] == rest[i]; }
        }
      }
    }
  }

  /** A sequence of fields with its trailing empty fields removed. */
  function DropTrailingEmpty(fs: seq<string>): (r: seq<string>)
    ensures r <= fs
    ensures r == [] || r[|r| - 1] != ""
    ensures forall i :: |r| <= i < |fs| ==> fs[i] == ""
    decreases |fs|
  {
    if |fs| > 0 && fs[|fs| - 1] == "" then DropTrailingEmpty(fs[..|fs| - 1]) else fs
  }

  /** `s.split(sep)`: the fields between separators, trailing empty fields removed
      (so an empty text, or one made only of separators, splits into nothing). */
  function Split(s: string, sep: char): seq<string>
  {
    DropTrailingEmpty(Fields(s, sep))
  }

  /** A text that does not end in the separator has a last field that is not
      empty. */
  lemma {:induction false} FieldsLastNonEmpty(s: string, sep: char)
    requires s != [] && s[|s| - 1] != sep
    ensures |Fields(s, sep)[|Fields(s, sep)| - 1]| > 0
    decreases |s|
  {
    var fs := Fields(s, sep);
    var rest := Fields(s[1..], sep);
    if s[0] != sep {
      if |s| == 1 {
        assert s[1..] == [] && rest == [""];
        assert fs == [[s[0]] + rest[0]];
      } else {
        assert s[1..][|s[1..]| - 1] == s[|s| - 1];
        FieldsLastNonEmpty(s[1..], sep);
        if |rest| == 1 {
          assert fs == [[s[0]] + rest[0]];
        } else {
          assert fs == [[s[0]] + rest[0]] + rest[1..];
          assert fs[|fs| - 1] == rest[|rest| - 1];
        }
      }
    } else {
      assert |s| > 1;
      assert s[1..][|s[1..]| - 1] == s[|s| - 1];
      FieldsLastNonEmpty(s[1..], sep);
      assert fs == [""] + rest;
    }
  }

  /** Hence String#split drops no field of such a text. */
  lemma FieldsLast(s: string, sep: char)
    requires s != [] && s[|s| - 1] != sep
    ensures Split(s, sep) == Fields(s, sep)
  {
    FieldsLastNonEmpty(s, sep);
  }

  lemma {:induction false} FieldsNoSeparator(s: string, sep: char)
    requires sep !in s
    ensures Fields(s, sep) == [s]
    decreases |s|
  {
    if s != [] {
      assert s[0] in s;
      FieldsNoSeparator(s[1..], sep);
      assert [s[0]] + s[1..] == s;
    }
  }

  lemma {:induction false} FieldsAfterKey(k: string, sep: char, rest: string)
    requires sep !in k
    ensures Fields(k + [sep] + rest, sep) == [k] + Fields(rest, sep)
    decreases |k|
  {
    if k == [] {
      assert k + [sep] + rest == [sep] + rest;
      assert ([sep] + rest)[1..] == rest;
    } else {
      assert k[0] in k;
      assert (k + [sep] + rest)[1..] == k[1..] + [sep] + rest;
      FieldsAfterKey(k[1..], sep, rest);
      assert [k[0]] + k[1..] == k;
    }
  }

  /** `"key=value".split("=")` is `[key, value]` when neither holds a separator. */
  lemma SplitKeyValue(k: string, sep: char, v: string)
    requires sep !in k && sep !in v && v != ""
    ensures Split(k + [sep] + v, sep) == [k, v]
  {
    FieldsAfterKey(k, sep, v);
    FieldsNoSeparator(v, sep);
  }

  // ---------------------------------------------------------------------
  // Integer#to_s and String#to_i in base 10
  // ---------------------------------------------------------------------

  function DigitChar(d: int): (c: char)
    requires 0 <= d < 10
    ensures IsDigit(c)
  {
    (('0' as int) + d) as char
  }

  function DigitValue(c: char): (d: nat)
    requires IsDigit(c)
    ensures d < 10
  {
    (c as int) - ('0' as int)
  }

  /** The decimal digits of a natural number, most significant first, without leading zeros. */
  function NatToS(n: nat): (s: string)
    ensures |s| > 0 && AllDigits(s)
    ensures s[0] != '0' || n == 0
    decreases n
  {
    if n < 10 then [DigitChar(n)] else NatToS(n / 10) + [DigitChar(n % 10)]
  }

  /** Integer#to_s */
  function IntToS(n: int): (s: string)
    ensures s != [] && '\n' !in s
  {
    if n < 0 then "-" + NatToS(-n) else NatToS(n)
  }

  /** The number a string of decimal digits denotes. */
  function DecimalValue(ds: string): nat
    requires AllDigits(ds)
    decreases |ds|
  {
    if ds == [] then 0 else 10 * DecimalValue(ds[..|ds| - 1]) + DigitValue(ds[|ds| - 1])
  }

  /** The digits of the leading digit run, where one underscore between two
      digits is allowed and dropped ("1_000" gives "1000", "1__0" gives "1"). */
  function LeadingDigits(t: string): (ds: string)
    ensures AllDigits(ds)
    ensures |ds| <= |t|
    ensures ds == [] <==> t == [] || !IsDigit(t[0])
    decreases |t|
  {
    if t == [] || !IsDigit(t[0]) then []
    else if |t| >= 3 && t[1] == '_' && IsDigit(t[2]) then [t[0]] + LeadingDigits(t[2..])
    else [t[0]] + LeadingDigits(t[1..])
  }

  function SkipSpace(s: string): (t: string)
    ensures t <= s || (|t| <= |s| && t == s[|s| - |t|..])
    ensures t == [] || !IsSpace(t[0])
    decreases |s|
  {
    if s != [] && IsSpace(s[0]) then SkipSpace(s[1..]) else s
  }

  /** String#to_i: leading white space, an optional sign, then the leading
      digit run; 0 when there is no digit there. */
  function ToI(s: string): int
  {
    var t := SkipSpace(s);
    if t != [] && t[0] == '-' then -(DecimalValue(LeadingDigits(t[1..])) as int)
    else if t != [] && t[0] == '+' then DecimalValue(LeadingDigits(t[1..]))
    else DecimalValue(LeadingDigits(t))
  }

  /** `to_i` is 0 when no digit follows the white space and the optional
      sign. */
  lemma ToIWithoutDigits(s: string)
    requires var t := SkipSpace(s);
      var u := if t != [] && (t[0] == '-' || t[0] == '+') then t[1..] else t;
      u == [] || !IsDigit(u[0])
    ensures ToI(s) == 0
  {
  }

  /** Leading white space does not change what `to_i` reads. */
  lemma ToISkipsSpace(c: char, s: string)
    requires IsSpace(c)
    ensures ToI([c] + s) == ToI(s)
  {
    assert ([c] + s)[1..] == s;
  }

  /** A "-" before digits negates the number read; a "+" leaves it. */
  lemma ToISign(t: string)
    requires t != [] && IsDigit(t[0])
    ensures ToI("-" + t) == -ToI(t)
    ensures ToI("+" + t) == ToI(t)
  {
    assert ("-" + t)[1..] == t && ("+" + t)[1..] == t;
    assert SkipSpace(t) == t;
  }

  lemma {:induction false} DecimalValueOfNatToS(n: nat)
    ensures DecimalValue(NatToS(n)) == n
    decreases n
  {
    var s := NatToS(n);
    if n >= 10 {
      DecimalValueOfNatToS(n / 10);
      assert s[..|s| - 1] == NatToS(n / 10);
    }
  }

  lemma {:induction false} LeadingDigitsOfDigits(d: string, rest: string)
    requires AllDigits(d)
    requires rest == [] || (!IsDigit(rest[0]) && rest[0] != '_')
    ensures LeadingDigits(d + rest) == d
    decreases |d|
  {
    if d == [] {
      assert d + rest == rest;
    } else {
      var t := d + rest;
      assert t[1..] == d[1..] + rest;
      assert |t| >= 2 ==> t[1] != '_';
      LeadingDigitsOfDigits(d[1..], rest);
      assert [d[0]] + d[1..] == d;
    }
  }

  /** Digits followed by a digit are read through: the run goes on. */
  lemma {:induction false} LeadingDigitsDigitPrefix(d: string, tail: string)
    requires AllDigits(d)
    requires tail != [] && IsDigit(tail[0])
    ensures LeadingDigits(d + tail) == d + LeadingDigits(tail)
    decreases |d|
  {
    if d == [] {
      assert d + tail == tail;
    } else {
      var t := d + tail;
      assert t[1] == if |d| > 1 then d[1] else tail[0];
      assert t[1..] == d[1..] + tail;
      LeadingDigitsDigitPrefix(d[1..], tail);
      assert [d[0]] + (d[1..] + LeadingDigits(tail)) == d + LeadingDigits(tail);
    }
  }

  lemma LeadingDigitsUnderscoreStep(c: char, u: string)
    requires IsDigit(c) && u != [] && IsDigit(u[0])
    ensures LeadingDigits([c, '_'] + u) == [c] + LeadingDigits(u)
  {
    assert ([c, '_'] + u)[2..] == u;
  }

  /** One underscore between two digit runs is dropped and the run goes on:
      "1_000" reads as "1000". */
  lemma {:induction false} LeadingDigitsJoinsUnderscore(d1: string, d2: string, rest: string)
    requires AllDigits(d1) && d1 != [] && AllDigits(d2) && d2 != []
    requires rest == [] || (!IsDigit(rest[0]) && rest[0] != '_')
    ensures LeadingDigits(d1 + "_" + d2 + rest) == d1 + d2
  {
    var c := d1[|d1| - 1];
    var p := d1[..|d1| - 1];
    var u := [c, '_'] + (d2 + rest);
    assert d1 == p + [c];
    calc {
      LeadingDigits(d1 + "_" + d2 + rest);
      { assert d1 + "_" + d2 + rest == p + u; }
      LeadingDigits(p + u);
      { LeadingDigitsDigitPrefix(p, u); }
      p + LeadingDigits(u);
      { LeadingDigitsUnderscoreStep(c, d2 + rest); LeadingDigitsOfDigits(d2, rest); }
      p + ([c] + d2);
      d1 + d2;
    }
  }

  /** An underscore that no digit follows ends the run and is not part of
      it: "1_", "1__0" and "1_x" all read as "1". */
  lemma {:induction false} LeadingDigitsStopsAtUnderscore(d: string, rest: string)
    requires AllDigits(d) && d != []
    requires rest == [] || !IsDigit(rest[0])
    ensures LeadingDigits(d + "_" + rest) == d
    decreases |d|
  {
    var t := d + "_" + rest;
    if |d| == 1 {
      assert t[1] == '_';
      assert |t| >= 3 ==> t[2] == rest[0];
      assert t[1..] == "_" + rest;
      assert LeadingDigits(t[1..]) == [];
    } else {
      assert t[1] == d[1];
      assert t[1..] == d[1..] + "_" + rest;
      LeadingDigitsStopsAtUnderscore(d[1..], rest);
      assert [d[0]] + d[1..] == d;
    }
  }

  lemma ToIOfNatToS(n: nat, rest: string)
    requires rest == [] || (!IsDigit(rest[0]) && rest[0] != '_')
    ensures ToI(NatToS(n) + rest) == n
  {
    var s := NatToS(n) + rest;
    LeadingDigitsOfDigits(NatToS(n), rest);
    DecimalValueOfNatToS(n);
    assert IsDigit(s[0]);
    assert SkipSpace(s) == s;
  }

  lemma ToIOfMinusNatToS(m: nat, rest: string)
    requires rest == [] || (!IsDigit(rest[0]) && rest[0] != '_')
    ensures ToI("-" + NatToS(m) + rest) == -(m as int)
  {
    var digits := NatToS(m);
    var s := "-" + digits + rest;
    assert s[0] == '-';
    assert SkipSpace(s) == s;
    assert s[1..] == digits + rest;
    LeadingDigitsOfDigits(digits, rest);
    DecimalValueOfNatToS(m);
  }

  /** `n.to_s.to_i == n`, also when the number is followed by text that does
      not continue it (a "\n" in a file, say). */
  lemma ToIOfIntToS(n: int, rest: string)
    requires rest == [] || (!IsDigit(rest[0]) && rest[0] != '_')
    ensures ToI(IntToS(n) + rest) == n
  {
    if n < 0 {
      assert IntToS(n) == "-" + NatToS(-n);
      ToIOfMinusNatToS(-n, rest);
    } else {
      ToIOfNatToS(n, rest);
    }
  }

  /** A number written to a file is read back by IO#gets as one line. */
  lemma LinesOfIntToS(n: int)
    ensures Lines(IntToS(n)) == [IntToS(n)]
  {
    var s := IntToS(n);
    assert forall j :: 0 <= j < |s| ==> s[j] in s;
    LinesPrepend(s, "");
    assert s + "" == s;
  }
}
