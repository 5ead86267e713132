/**
  Text helpers the diff package takes from Go's strings and fmt packages: splitting at
  newlines, CRLF normalisation, and decimal numbers.
 */
module Text {

  predicate OneLine(s: string) {
    '\n' !in s
  }

  predicate AllOneLine(lines: seq<string>) {
    forall i :: 0 <= i < |lines| ==> OneLine(lines[i])
  }

  /** strings.Split(s, "\n"). */
  function Split(s: string): (r: seq<string>)
    ensures |r| >= 1
  {
    if s == "" then [""]
    else
      var r := Split(s[1..]);
      if s[0] == '\n' then [""] + r else [[s[0]] + r[0]] + r[1..]
  }

  /** Every line followed by a newline, in order. */
  function Unlines(lines: seq<string>): string {
    if lines == [] then "" else lines[0] + "\n" + Unlines(lines[1..])
  }

  /** strings.ReplaceAll(s, "\r\n", "\n"). */
  function Normalize(s: string): string {
    if s == "" then ""
    else if |s| >= 2 && s[0] == '\r' && s[1] == '\n' then "\n" + Normalize(s[2..])
    else [s[0]] + Normalize(s[1..])
  }

  /** strings.TrimSuffix(s, "\n"). */
  function TrimNewline(s: string): string {
    if s != "" && s[|s| - 1] == '\n' then s[..|s| - 1] else s
  }

  /** diff.splitLines. */
  function SplitLines(s: string): seq<string> {
    var n := Normalize(s);
    if n == "" then []
    else
      var t := TrimNewline(n);
      if t == "" then [""] else Split(t)
  }

  /** A text with its last line terminated; the empty text has no line to terminate. */
  function Terminated(s: string): string {
    if s == "" || s[|s| - 1] == '\n' then s else s + "\n"
  }

  lemma Regrouped<T>(a: seq<T>, b: seq<T>, c: seq<T>)
    ensures (a + b) + c == a + (b + c)
  {
  }

  lemma {:induction false} UnlinesCons(line: string, rest: seq<string>)
    ensures Unlines([line] + rest) == line + "\n" + Unlines(rest)
  {
    assert ([line] + rest)[1..] == rest;
  }

  /** One more character at the front of the first line. */
  lemma {:induction false} UnlinesGrows(c: char, lines: seq<string>)
    requires lines != []
    ensures Unlines([[c] + lines[0]] + lines[1..]) == [c] + Unlines(lines)
  {
    UnlinesCons([c] + lines[0], lines[1..]);
    Regrouped([c], lines[0], "\n");
    Regrouped([c], lines[0] + "\n", Unlines(lines[1..]));
  }

  lemma {:induction false} UnlinesSplit(s: string)
    ensures Unlines(Split(s)) == s + "\n"
  {
    if s == "" {
      UnlinesCons("", []);
    } else {
      UnlinesSplit(s[1..]);
      assert s == [s[0]] + s[1..];
      if s[0] == '\n' {
        UnlinesCons("", Split(s[1..]));
      } else {
        UnlinesGrows(s[0], Split(s[1..]));
      }
    }
  }

  lemma {:induction false} SplitOneLine(s: string)
    ensures AllOneLine(Split(s))
  {
    if s != "" {
      SplitOneLine(s[1..]);
    }
  }

  /** A newline-free line in front of a newline is the first element of the split. */
  lemma {:induction false} SplitFirst(line: string, rest: string)
    requires OneLine(line)
    ensures Split(line + "\n" + rest) == [line] + Split(rest)
  {
    var s := line + "\n" + rest;
    if line == "" {
      assert s[1..] == rest;
    } else {
      SplitFirst(line[1..], rest);
      assert s[1..] == line[1..] + "\n" + rest;
      assert [line[0]] + line[1..] == line;
    }
  }

  /** Reading the lines of a terminated text back, plus the empty piece after the last newline. */
  lemma {:induction false} SplitUnlines(lines: seq<string>)
    requires AllOneLine(lines)
    ensures Split(Unlines(lines)) == lines + [""]
  {
    if lines != [] {
      SplitUnlines(lines[1..]);
      SplitFirst(lines[0], Unlines(lines[1..]));
      assert [lines[0]] + (lines[1..] + [""]) == lines + [""];
    }
  }

  lemma SplitLinesOneLine(s: string)
    ensures AllOneLine(SplitLines(s))
  {
    SplitOneLine(TrimNewline(Normalize(s)));
  }

  /** splitLines loses nothing but the line endings and a missing final newline. */
  lemma {:induction false} SplitLinesKeepsText(s: string)
    ensures Unlines(SplitLines(s)) == Terminated(Normalize(s))
  {
    var n := Normalize(s);
    if n != "" {
      UnlinesSplit(TrimNewline(n));
      if n[|n| - 1] == '\n' {
        assert n == n[..|n| - 1] + "\n";
      }
      assert Split("") == [""];
    }
  }

  /** Two texts split into the same lines exactly when they agree after normalisation. */
  lemma {:induction false} SameLinesIff(s: string, t: string)
    ensures SplitLines(s) == SplitLines(t) <==> Terminated(Normalize(s)) == Terminated(Normalize(t))
  {
    SplitLinesKeepsText(s);
    SplitLinesKeepsText(t);
    SplitLinesOneLine(s);
    SplitLinesOneLine(t);
    SplitUnlines(SplitLines(s));
    SplitUnlines(SplitLines(t));
    var ls, lt := SplitLines(s), SplitLines(t);
    if Unlines(ls) == Unlines(lt) {
      assert ls == (ls + [""])[..|ls + [""]| - 1];
      assert lt == (lt + [""])[..|lt + [""]| - 1];
    }
  }

  // ---- carriage returns ----

  /** Each CRLF becomes one newline, whatever stands around it. */
  lemma {:induction false} NormalizeCrlf(x: string, y: string)
    ensures Normalize(x + "\r\n" + y) == Normalize(x) + "\n" + Normalize(y)
  {
    var s := x + "\r\n" + y;
    if x == "" {
      assert s[2..] == y;
    } else if |x| >= 2 && x[0] == '\r' && x[1] == '\n' {
      assert s[2..] == x[2..] + "\r\n" + y;
      NormalizeCrlf(x[2..], y);
    } else {
      assert s[1..] == x[1..] + "\r\n" + y;
      NormalizeCrlf(x[1..], y);
    }
  }

  predicate NoCrlf(s: string) {
    forall i :: 0 < i < |s| ==> !(s[i - 1] == '\r' && s[i] == '\n')
  }

  /** A text without CRLF is kept as it is. */
  lemma {:induction false} NormalizeKeeps(s: string)
    requires NoCrlf(s)
    ensures Normalize(s) == s
  {
    if s != "" {
      assert |s| >= 2 ==> !(s[1 - 1] == '\r' && s[1] == '\n');
      forall i | 0 < i < |s[1..]| ensures !(s[1..][i - 1] == '\r' && s[1..][i] == '\n') {
        assert s[1..][i - 1] == s[(i + 1) - 1] && s[1..][i] == s[i + 1];
      }
      NormalizeKeeps(s[1..]);
    }
  }

  /** Its lines joined again are the text itself, with its last line terminated. */
  lemma PlainLinesKeepText(s: string)
    requires NoCrlf(s)
    ensures Unlines(SplitLines(s)) == if s == "" || s[|s| - 1] == '\n' then s else s + "\n"
  {
    NormalizeKeeps(s);
    SplitLinesKeepsText(s);
  }

  predicate EndsInReturn(s: string) {
    s != "" && s[|s| - 1] == '\r'
  }

  /** A newline that no carriage return precedes stays as it is. */
  lemma {:induction false} NormalizeNewline(x: string, y: string)
    requires !EndsInReturn(x)
    ensures Normalize(x + "\n" + y) == Normalize(x) + "\n" + Normalize(y)
  {
    var s := x + "\n" + y;
    if x == "" {
      assert s[1..] == y;
    } else if |x| >= 2 && x[0] == '\r' && x[1] == '\n' {
      assert s[2..] == x[2..] + "\n" + y;
      NormalizeNewline(x[2..], y);
    } else {
      assert s[1..] == x[1..] + "\n" + y;
      NormalizeNewline(x[1..], y);
    }
  }

  /** A carriage return at the very end stays as it is. */
  lemma {:induction false} NormalizeReturn(x: string)
    ensures Normalize(x + "\r") == Normalize(x) + "\r"
  {
    var s := x + "\r";
    if x == "" {
      assert s[1..] == "";
    } else if |x| >= 2 && x[0] == '\r' && x[1] == '\n' {
      assert s[2..] == x[2..] + "\r";
      NormalizeReturn(x[2..]);
    } else {
      assert s[1..] == x[1..] + "\r";
      NormalizeReturn(x[1..]);
    }
  }

  lemma LongerTerminated(s: string, t: string)
    requires t != "" && |s| == |t| + 1 && s[|s| - 1] == t[|t| - 1]
    ensures Terminated(s) != Terminated(t)
  {
  }

  lemma {:induction false} ReturnStays(z: string, y: string)
    ensures Terminated(Normalize(z + "\r" + "\r\n" + y)) != Terminated(Normalize(z + "\r\n" + y))
  {
    var m, n := Normalize(z), Normalize(y);
    NormalizeCrlf(z + "\r", y);
    NormalizeReturn(z);
    NormalizeCrlf(z, y);
    LongerTerminated(m + "\r" + "\n" + n, m + "\n" + n);
  }

  lemma {:induction false} ReturnSeen(x: string, y: string)
    requires EndsInReturn(x)
    ensures Terminated(Normalize(x + "\r\n" + y)) != Terminated(Normalize(x + "\n" + y))
  {
    var z := x[..|x| - 1];
    assert x == z + "\r";
    assert x + "\n" + y == z + "\r\n" + y;
    ReturnStays(z, y);
  }

  lemma {:induction false} ReturnUnseen(x: string, y: string)
    requires !EndsInReturn(x)
    ensures Normalize(x + "\r\n" + y) == Normalize(x + "\n" + y)
  {
    NormalizeCrlf(x, y);
    NormalizeNewline(x, y);
  }

  /** Writing one line ending as CRLF makes a difference to the lines exactly after another carriage return. */
  lemma CrlfUnseenIff(x: string, y: string)
    ensures SplitLines(x + "\r\n" + y) == SplitLines(x + "\n" + y) <==> x == "" || x[|x| - 1] != '\r'
  {
    SameLinesIff(x + "\r\n" + y, x + "\n" + y);
    if EndsInReturn(x) {
      ReturnSeen(x, y);
    } else {
      ReturnUnseen(x, y);
    }
  }

  // ---- decimal numbers ----

  predicate IsDigit(c: char) {
    '0' <= c <= '9'
  }

  function Digit(n: nat): char
    requires n < 10
  {
    '0' + n as char
  }

  function DigitValue(c: char): nat
    requires IsDigit(c)
  {
    c as int - '0' as int
  }

  /** fmt's %d for a non-negative number. */
  function ShowNat(n: nat): string {
    if n < 10 then [Digit(n)] else ShowNat(n / 10) + [Digit(n % 10)]
  }

  /** Reads the longest run of digits in front of s, continuing the number acc. */
  function ReadDigits(s: string, acc: nat): (r: (nat, string))
    ensures |r.1| <= |s|
  {
    if s != "" && IsDigit(s[0]) then ReadDigits(s[1..], 10 * acc + DigitValue(s[0])) else (acc, s)
  }

  lemma {:induction false} ReadShown(n: nat, rest: string)
    ensures ReadDigits(ShowNat(n) + rest, 0) == ReadDigits(rest, n)
  {
    var s := ShowNat(n) + rest;
    if n < 10 {
      assert s[1..] == rest;
    } else {
      var d := [Digit(n % 10)];
      assert s == ShowNat(n / 10) + (d + rest);
      ReadShown(n / 10, d + rest);
      assert (d + rest)[1..] == rest;
      assert 10 * (n / 10) + n % 10 == n;
    }
  }

  lemma {:induction false} ShowNatDigits(n: nat)
    ensures |ShowNat(n)| >= 1
    ensures forall i :: 0 <= i < |ShowNat(n)| ==> IsDigit(ShowNat(n)[i])
  {
    if n >= 10 {
      ShowNatDigits(n / 10);
    }
  }
}
