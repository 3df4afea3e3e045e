/** Text as the Rust standard library cuts it: `split('\n')`, `lines()`, `join("\n")`
    and the decimal numbers of `format!` and `parse::<usize>()`. */
module Text {

  datatype Option<+T> = None | Some(value: T)

  lemma Assoc<T>(x: seq<T>, y: seq<T>, z: seq<T>)
    ensures (x + y) + z == x + (y + z)
  {
  }

  /** No line feed in the line. */
  predicate OneLine(line: string) {
    '\n' !in line
  }

  predicate AllOneLine(lines: seq<string>) {
    forall i :: 0 <= i < |lines| ==> OneLine(lines[i])
  }

  /** `str::split('\n')`: always at least one piece, a phantom empty one after a final line feed. */
  function Split(s: string): (r: seq<string>)
    ensures |r| > 0 && AllOneLine(r)
  {
    if s == "" then [""]
    else
      var rest := Split(s[1..]);
      if s[0] == '\n' then [""] + rest else [[s[0]] + rest[0]] + rest[1..]
  }

  /** `join("\n")`. */
  function Join(lines: seq<string>): string {
    if lines == [] then ""
    else if |lines| == 1 then lines[0]
    else lines[0] + "\n" + Join(lines[1..])
  }

  /** Every line followed by a line feed. */
  function Terminated(lines: seq<string>): string {
    if lines == [] then "" else lines[0] + "\n" + Terminated(lines[1..])
  }

  /** `strip_suffix('\r').unwrap_or(s)`. */
  function StripCr(line: string): (r: string)
    ensures OneLine(line) ==> OneLine(r)
  {
    if |line| > 0 && line[|line| - 1] == '\r' then line[..|line| - 1] else line
  }

  function StripAll(lines: seq<string>): (r: seq<string>)
    ensures |r| == |lines| && forall i :: 0 <= i < |lines| ==> r[i] == StripCr(lines[i])
  {
    seq(|lines|, i requires 0 <= i < |lines| => StripCr(lines[i]))
  }

  /** `str::lines()`: only a line that ends in a line feed loses its carriage return. */
  function Lines(s: string): (r: seq<string>)
    ensures AllOneLine(r)
  {
    var pieces := Split(s);
    var last := pieces[|pieces| - 1];
    StripAll(pieces[..|pieces| - 1]) + (if last == "" then [] else [last])
  }

  lemma {:induction false} SplitLine(line: string, tail: string)
    requires OneLine(line)
    ensures Split(line + "\n" + tail) == [line] + Split(tail)
  {
    if line == "" {
      assert line + "\n" + tail == "\n" + tail;
    } else {
      SplitLine(line[1..], tail);
      assert (line + "\n" + tail)[1..] == line[1..] + "\n" + tail;
      assert [line[0]] + line[1..] == line;
    }
  }

  lemma {:induction false} SplitTerminated(lines: seq<string>)
    requires AllOneLine(lines)
    ensures Split(Terminated(lines)) == lines + [""]
  {
    if lines != [] {
      SplitTerminated(lines[1..]);
      SplitLine(lines[0], Terminated(lines[1..]));
    }
  }

  lemma {:induction false} TerminatedIsJoin(lines: seq<string>)
    requires lines != []
    ensures Terminated(lines) == Join(lines) + "\n"
  {
    if |lines| > 1 { TerminatedIsJoin(lines[1..]); }
  }

  predicate NoCr(lines: seq<string>) {
    forall i :: 0 <= i < |lines| ==> StripCr(lines[i]) == lines[i]
  }

  lemma {:induction false} SplitOpen(lines: seq<string>, last: string)
    requires AllOneLine(lines) && OneLine(last)
    ensures Split(Terminated(lines) + last) == lines + [last]
  {
    if lines == [] {
      assert Terminated(lines) + last == last;
      SplitOneLine(last);
    } else {
      SplitOpen(lines[1..], last);
      SplitLine(lines[0], Terminated(lines[1..]) + last);
      Assoc(lines[0] + "\n", Terminated(lines[1..]), last);
    }
  }

  lemma {:induction false} SplitOneLine(line: string)
    requires OneLine(line)
    ensures Split(line) == [line]
  {
    if line != "" {
      SplitOneLine(line[1..]);
      assert line == [line[0]] + line[1..];
    }
  }

  /** `lines()` takes a carriage return off every line that ends in a line feed, but not off a
      last line without one. */
  lemma LinesExactly(lines: seq<string>, last: string)
    requires AllOneLine(lines) && OneLine(last)
    ensures Lines(Terminated(lines) + last) == StripAll(lines) + if last == "" then [] else [last]
  {
    SplitOpen(lines, last);
    assert (lines + [last])[..|lines|] == lines;
  }

  lemma LinesTerminated(lines: seq<string>)
    requires AllOneLine(lines) && NoCr(lines)
    ensures Lines(Terminated(lines)) == lines
  {
    SplitTerminated(lines);
  }

  // ---------------------------------------------------------------- decimals

  predicate IsDigit(c: char) { '0' <= c <= '9' }

  predicate AllDigits(s: string) { forall i :: 0 <= i < |s| ==> IsDigit(s[i]) }

  function Digit(d: nat): (c: char)
    requires d < 10
    ensures IsDigit(c) && c as int - '0' as int == d
  {
    '0' + d as char
  }

  /** `format!("{n}")`. */
  function Decimal(n: nat): (s: string)
    ensures |s| > 0 && AllDigits(s)
  {
    if n < 10 then [Digit(n)] else Decimal(n / 10) + [Digit(n % 10)]
  }

  function Value(s: string): nat
    requires AllDigits(s)
  {
    if s == "" then 0
    else Value(s[..|s| - 1]) * 10 + (s[|s| - 1] as int - '0' as int)
  }

  lemma {:induction false} ValueOfDecimal(n: nat)
    ensures Value(Decimal(n)) == n
  {
    if n >= 10 {
      ValueOfDecimal(n / 10);
      var s := Decimal(n);
      assert s[..|s| - 1] == Decimal(n / 10);
    } else {
      assert Decimal(n)[..0] == "";
    }
  }

  /** `split(c).next()`: everything before the first `c`. */
  function UpTo(s: string, c: char): string {
    if s == "" || s[0] == c then "" else [s[0]] + UpTo(s[1..], c)
  }

  lemma {:induction false} UpToDelimiter(digits: string, c: char, rest: string)
    requires AllDigits(digits) && !IsDigit(c)
    ensures UpTo(digits + ([c] + rest), c) == digits
  {
    var s := digits + ([c] + rest);
    if digits != "" {
      UpToDelimiter(digits[1..], c, rest);
      assert s[1..] == digits[1..] + ([c] + rest);
      assert s[0] == digits[0] && IsDigit(s[0]);
      assert digits == [digits[0]] + digits[1..];
    } else {
      assert s[0] == c;
    }
  }
}
