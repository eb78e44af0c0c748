/** The file by which a running settings server is found: src/settings/sidecar.cpp. What is printed is
    read back, exactly when it can be. */
module Sidecar {
  import opened Options
  import opened Ctype

  const INT_MAX: int := 0x7FFF_FFFF

  predicate IsInt(n: int) { -INT_MAX - 1 <= n <= INT_MAX }

  datatype SidecarContents = SidecarContents(pid: int, port: int, canonicalPath: string, token: string)

  // ---------------------------------------------------------------- numbers

  function Digit(d: int): char
    requires 0 <= d < 10
  {
    '0' + d as char
  }

  function DigitValue(c: char): int
    requires IsDigit(c)
  {
    c as int - '0' as int
  }

  function Decimal(n: nat): string {
    if n < 10 then [Digit(n)] else Decimal(n / 10) + [Digit(n % 10)]
  }

  /** How a stream prints an int. */
  function ToString(n: int): string { if n < 0 then "-" + Decimal(-n) else Decimal(n) }

  predicate AllDigits(s: string) { forall i :: 0 <= i < |s| ==> IsDigit(s[i]) }

  /** The value of the leading digits; what follows them is ignored. */
  function LeadingDigits(s: string, acc: nat): nat {
    if s == "" || !IsDigit(s[0]) then acc else LeadingDigits(s[1..], acc * 10 + DigitValue(s[0]))
  }

  function FromDigits(s: string, sign: int): Option<int> {
    if s == "" || !IsDigit(s[0]) then None
    else
      var n := sign * LeadingDigits(s, 0);
      if IsInt(n) then Some(n) else None
  }

  /** `std::stoi`: white space, a sign, digits, anything. None stands for its exceptions. */
  function Stoi(text: string): Option<int> {
    var s := SkipSpaces(text);
    if s != "" && s[0] == '-' then FromDigits(s[1..], -1)
    else if s != "" && s[0] == '+' then FromDigits(s[1..], 1)
    else FromDigits(s, 1)
  }

  lemma {:induction false} DecimalDigits(n: nat)
    ensures Decimal(n) != "" && AllDigits(Decimal(n))
  {
    if n >= 10 { DecimalDigits(n / 10); }
  }

  lemma {:induction false} LeadingSnoc(s: string, c: char, acc: nat)
    requires AllDigits(s) && IsDigit(c)
    ensures LeadingDigits(s + [c], acc) == LeadingDigits(s, acc) * 10 + DigitValue(c)
  {
    if s == "" {
      assert s + [c] == [c] && [c][1..] == "";
    } else {
      assert (s + [c])[1..] == s[1..] + [c];
      LeadingSnoc(s[1..], c, acc * 10 + DigitValue(s[0]));
    }
  }

  lemma {:induction false} DecimalReads(n: nat)
    ensures LeadingDigits(Decimal(n), 0) == n
  {
    if n < 10 {
      assert Decimal(n)[1..] == "";
    } else {
      DecimalReads(n / 10);
      DecimalDigits(n / 10);
      LeadingSnoc(Decimal(n / 10), Digit(n % 10), 0);
    }
  }

  /** A printed int is read back. */
  lemma StoiReads(n: int)
    requires IsInt(n)
    ensures Stoi(ToString(n)) == Some(n) && '\n' !in ToString(n)
  {
    var d := if n < 0 then -n else n;
    DecimalDigits(d);
    DecimalReads(d);
    assert IsDigit(Decimal(d)[0]);
    if n < 0 { assert ("-" + Decimal(d))[1..] == Decimal(d); }
  }

  // ---------------------------------------------------------------- lines

  /** A line taken from a stream, and what is left of the stream. */
  datatype Taken = Taken(line: string, rest: string)

  function LineOf(s: string): string {
    if s == "" || s[0] == '\n' then "" else [s[0]] + LineOf(s[1..])
  }

  /** Where the line ends, its newline included if it has one. */
  function LineEnd(s: string): (n: nat)
    ensures n <= |s|
  {
    if s == "" then 0 else if s[0] == '\n' then 1 else 1 + LineEnd(s[1..])
  }

  /** `std::getline`; it fails when the stream is exhausted. */
  function GetLine(stream: string): Option<Taken> {
    if stream == "" then None else Some(Taken(LineOf(stream), stream[LineEnd(stream)..]))
  }

  lemma {:induction false} LineOfFirst(line: string, rest: string)
    requires '\n' !in line
    ensures LineOf(line + "\n" + rest) == line && LineEnd(line + "\n" + rest) == |line| + 1
  {
    var s := line + "\n" + rest;
    if line != "" {
      assert s[1..] == line[1..] + "\n" + rest;
      LineOfFirst(line[1..], rest);
      assert line == [line[0]] + line[1..];
    }
  }

  lemma GetsLine(line: string, rest: string)
    requires '\n' !in line
    ensures GetLine(line + "\n" + rest) == Some(Taken(line, rest))
  {
    LineOfFirst(line, rest);
    assert (line + "\n" + rest)[|line| + 1..] == rest;
  }

  lemma {:induction false} LineHasNoBreak(s: string)
    ensures '\n' !in LineOf(s)
  {
    if s != "" && s[0] != '\n' { LineHasNoBreak(s[1..]); }
  }

  // ---------------------------------------------------------------- the file

  function FormatSidecar(c: SidecarContents): string {
    ToString(c.pid) + "\n" + (ToString(c.port) + "\n" + (c.canonicalPath + "\n" + (c.token + "\n" + "")))
  }

  function Rest(t: Option<Taken>): string { if t.Some? then t.value.rest else "" }

  function Parsed(raw: string): Option<SidecarContents> {
    var pidLine := GetLine(raw);
    var portLine := GetLine(Rest(pidLine));
    var pathLine := GetLine(Rest(portLine));
    var tokenLine := GetLine(Rest(pathLine));
    if pidLine.None? || portLine.None? || pathLine.None? then None
    else
      var pid, port := Stoi(pidLine.value.line), Stoi(portLine.value.line);
      if pid.None? || port.None? || pid.value <= 0 || port.value <= 0 || port.value > 65535 then None
      else Some(SidecarContents(pid.value, port.value, pathLine.value.line,
                                if tokenLine.Some? then tokenLine.value.line else ""))
  }

  method ParseSidecar(raw: string) returns (r: Option<SidecarContents>)
    ensures r == Parsed(raw)
  {
    hide Stoi;
    var stream := raw;
    if stream == "" { return None; }
    var pidLine := GetLine(stream);
    if pidLine.None? { return None; }
    stream := pidLine.value.rest;
    var portLine := GetLine(stream);
    if portLine.None? { return None; }
    stream := portLine.value.rest;
    var pathLine := GetLine(stream);
    if pathLine.None? { return None; }
    stream := pathLine.value.rest;
    var pid, port := Stoi(pidLine.value.line), Stoi(portLine.value.line);
    if pid.None? || port.None? { return None; }
    if pid.value <= 0 || port.value <= 0 || port.value > 65535 { return None; }
    var c := SidecarContents(pid.value, port.value, pathLine.value.line, "");
    var tokenLine := GetLine(stream);
    if tokenLine.Some? { c := c.(token := tokenLine.value.line); }
    r := Some(c);
  }

  /** What can be printed and read back: a live process, a port, and no line break inside a field. */
  predicate Printable(c: SidecarContents) {
    c.pid > 0 && 0 < c.port <= 65535 && '\n' !in c.canonicalPath && '\n' !in c.token
  }

  lemma LineLost(stream: string, field: string)
    requires '\n' in field
    ensures GetLine(stream).Some? ==> GetLine(stream).value.line != field
  {
    LineHasNoBreak(stream);
  }

  /** Printing and reading is a round trip for exactly these contents. */
  lemma RoundTrip(c: SidecarContents)
    requires IsInt(c.pid) && IsInt(c.port)
    ensures Parsed(FormatSidecar(c)) == Some(c) <==> Printable(c)
  {
    hide Stoi, ToString, GetLine, IsInt;
    var afterPath := c.token + "\n" + "";
    var afterPort := c.canonicalPath + "\n" + afterPath;
    StoiReads(c.pid);
    StoiReads(c.port);
    GetsLine(ToString(c.pid), ToString(c.port) + "\n" + afterPort);
    GetsLine(ToString(c.port), afterPort);
    if '\n' in c.canonicalPath {
      LineLost(afterPort, c.canonicalPath);
    } else {
      GetsLine(c.canonicalPath, afterPath);
      if '\n' in c.token { LineLost(afterPath, c.token); } else { GetsLine(c.token, ""); }
    }
  }
}
