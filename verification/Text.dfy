/** Decimal numbers and comma-separated lists as Go's `fmt`, `strings` and `strconv` treat them. */
module Text {
  import opened Types

  // ------------------------------------------------------------ printing

  function Digit(d: nat): (c: char)
    requires d < 10
    ensures '0' <= c <= '9' && DigitValue(c) == d
  {
    '0' + d as char
  }

  function DigitValue(c: char): int {
    c as int - '0' as int
  }

  predicate IsDigit(c: char) {
    '0' <= c <= '9'
  }

  function PrintNat(n: nat): (s: string)
    ensures |s| > 0 && forall i | 0 <= i < |s| :: IsDigit(s[i])
  {
    if n < 10 then [Digit(n)] else PrintNat(n / 10) + [Digit(n % 10)]
  }

  function PrintInt(i: int): (s: string)
    ensures |s| > 0
    ensures forall k | 0 <= k < |s| :: IsDigit(s[k]) || s[k] == '-'
  {
    if i < 0 then "-" + PrintNat(-i) else PrintNat(i)
  }

  // ------------------------------------------------------------ parsing

  function ParseNat(s: string): (r: Option<nat>)
    ensures r.Some? <==> s != "" && forall i | 0 <= i < |s| :: IsDigit(s[i])
  {
    if s == "" then None else
    var front, last := s[..|s| - 1], s[|s| - 1];
    if !IsDigit(last) then None
    else if front == "" then Some(DigitValue(last))
    else match ParseNat(front)
         case None => None
         case Some(n) => Some(n * 10 + DigitValue(last))
  }

  /** Signed decimal with an optional sign, rejected outside [-limit, limit). */
  function ParseInt(s: string, limit: int): (r: Option<int>)
    requires limit > 0
    ensures r.Some? ==> -limit <= r.value < limit
  {
    if s == "" then None else
    var negative := s[0] == '-';
    var digits := if negative || s[0] == '+' then s[1..] else s;
    match ParseNat(digits)
    case None => None
    case Some(n) =>
      if negative then (if n <= limit then Some(0 - n) else None)
      else if n < limit then Some(n) else None
  }

  lemma {:induction false} ParsePrintNat(n: nat)
    ensures ParseNat(PrintNat(n)) == Some(n)
  {
    if n >= 10 {
      ParsePrintNat(n / 10);
      assert PrintNat(n)[..|PrintNat(n)| - 1] == PrintNat(n / 10);
    }
  }

  lemma ParseUnsigned(digits: string, n: nat, limit: int)
    requires limit > 0 && digits != "" && IsDigit(digits[0]) && ParseNat(digits) == Some(n)
    ensures ParseInt(digits, limit) == if n < limit then Some(n) else None
    ensures ParseInt("+" + digits, limit) == if n < limit then Some(n) else None
    ensures ParseInt("-" + digits, limit) == if n <= limit then Some(0 - n) else None
  {
    assert ("+" + digits)[1..] == digits && ("-" + digits)[1..] == digits;
  }

  /** Numbers in range survive printing and parsing, all others are rejected; a plus sign makes no difference. */
  lemma ParsePrintInt(i: int, limit: int)
    requires limit > 0
    ensures ParseInt(PrintInt(i), limit) == if -limit <= i < limit then Some(i) else None
    ensures i >= 0 ==> ParseInt("+" + PrintInt(i), limit) == ParseInt(PrintInt(i), limit)
  {
    var n: nat := if i < 0 then -i else i;
    ParsePrintNat(n);
    assert IsDigit(PrintNat(n)[0]);
    ParseUnsigned(PrintNat(n), n, limit);
  }

  // ------------------------------------------------------------ white space

  /** Unicode white space. */
  predicate IsSpace(c: char) {
    || '\t' <= c <= '\r' || c == ' ' || c == '\U{0085}' || c == '\U{00A0}' || c == '\U{1680}'
    || '\U{2000}' <= c <= '\U{200A}' || c == '\U{2028}' || c == '\U{2029}' || c == '\U{202F}'
    || c == '\U{205F}' || c == '\U{3000}'
  }

  function TrimLeft(s: string): string {
    if s != "" && IsSpace(s[0]) then TrimLeft(s[1..]) else s
  }

  function TrimRight(s: string): string {
    if s != "" && IsSpace(s[|s| - 1]) then TrimRight(s[..|s| - 1]) else s
  }

  function TrimSpace(s: string): string {
    TrimRight(TrimLeft(s))
  }

  ghost predicate AllSpace(s: string) {
    forall i | 0 <= i < |s| :: IsSpace(s[i])
  }

  lemma {:induction false} TrimLeftPadded(pad: string, s: string)
    requires AllSpace(pad)
    ensures TrimLeft(pad + s) == TrimLeft(s)
  {
    if pad == "" {
      assert pad + s == s;
    } else {
      assert (pad + s)[1..] == pad[1..] + s;
      TrimLeftPadded(pad[1..], s);
    }
  }

  lemma {:induction false} TrimRightPadded(s: string, pad: string)
    requires AllSpace(pad)
    ensures TrimRight(s + pad) == TrimRight(s)
  {
    if pad == "" {
      assert s + pad == s;
    } else {
      assert (s + pad)[..|s + pad| - 1] == s + pad[..|pad| - 1];
      TrimRightPadded(s, pad[..|pad| - 1]);
    }
  }

  lemma {:induction false} TrimLeftBefore(s: string, pad: string)
    requires AllSpace(pad)
    ensures TrimLeft(s + pad) == if TrimLeft(s) == "" then "" else TrimLeft(s) + pad
  {
    if s == "" {
      TrimLeftPadded(pad, "");
      assert s + pad == pad && pad + "" == pad;
    } else if IsSpace(s[0]) {
      assert (s + pad)[1..] == s[1..] + pad;
      TrimLeftBefore(s[1..], pad);
    }
  }

  /** White space around a text makes no difference. */
  lemma TrimSpacePadded(before: string, s: string, after: string)
    requires AllSpace(before) && AllSpace(after)
    ensures TrimSpace(before + s + after) == TrimSpace(s)
  {
    assert before + s + after == before + (s + after);
    TrimLeftPadded(before, s + after);
    TrimLeftBefore(s, after);
    TrimRightPadded(TrimLeft(s), after);
  }

  lemma PrintedIsTrimmed(i: int)
    ensures TrimSpace(PrintInt(i)) == PrintInt(i)
  {
    var s := PrintInt(i);
    assert !IsSpace(s[0]) && !IsSpace(s[|s| - 1]);
  }

  // ------------------------------------------------------------ comma-separated lists

  function Join(parts: seq<string>): string {
    if parts == [] then "" else if |parts| == 1 then parts[0] else parts[0] + "," + Join(parts[1..])
  }

  function Split(s: string): (parts: seq<string>)
    ensures |parts| > 0
  {
    if s == "" then [""] else
    var rest := Split(s[1..]);
    if s[0] == ',' then [""] + rest else [[s[0]] + rest[0]] + rest[1..]
  }

  lemma {:induction false} SplitWhole(a: string)
    requires ',' !in a
    ensures Split(a) == [a]
  {
    if a != "" {
      SplitWhole(a[1..]);
      assert a == [a[0]] + a[1..];
    }
  }

  lemma {:induction false} SplitFirst(a: string, b: string)
    requires ',' !in a
    ensures Split(a + "," + b) == [a] + Split(b)
  {
    var s := a + "," + b;
    if a == "" {
      assert s[1..] == b;
    } else {
      assert s[0] == a[0] && s[1..] == a[1..] + "," + b;
      SplitFirst(a[1..], b);
      assert a == [a[0]] + a[1..];
    }
  }

  lemma {:induction false} SplitJoin(parts: seq<string>)
    requires |parts| > 0 && forall i | 0 <= i < |parts| :: ',' !in parts[i]
    ensures Split(Join(parts)) == parts
  {
    if |parts| == 1 {
      SplitWhole(parts[0]);
    } else {
      SplitJoin(parts[1..]);
      SplitFirst(parts[0], Join(parts[1..]));
      assert parts == [parts[0]] + parts[1..];
    }
  }

  /** The separator is a comma. */
  lemma CommaSeparates()
    ensures Join(["80", "443"]) == "80,443" && Split("80,443") == ["80", "443"] && Split("80;443") == ["80;443"]
  {
    assert Join(["443"]) == "443";
    SplitJoin(["80", "443"]);
    SplitWhole("80;443");
  }

  // ------------------------------------------------------------ lists of ports

  function PrintAll(ports: seq<Int32>): (parts: seq<string>)
    ensures |parts| == |ports| && forall i | 0 <= i < |ports| :: parts[i] == PrintInt(ports[i])
  {
    seq(|ports|, i requires 0 <= i < |ports| => PrintInt(ports[i]))
  }

  /** One part, with white space around it. */
  function ParsePort(part: string): (r: Option<Int32>) {
    ParseInt(TrimSpace(part), 0x8000_0000)
  }

  lemma ParsePrintPort(p: Int32)
    ensures ParsePort(PrintInt(p)) == Some(p)
  {
    ParsePrintInt(p, 0x8000_0000);
    PrintedIsTrimmed(p);
  }

  /** A number with white space around it is read if it has 32 bits, and rejected otherwise. */
  lemma PaddedPort(before: string, i: int, after: string)
    requires AllSpace(before) && AllSpace(after)
    ensures ParsePort(before + PrintInt(i) + after) == if -0x8000_0000 <= i < 0x8000_0000 then Some(i) else None
  {
    TrimSpacePadded(before, PrintInt(i), after);
    PrintedIsTrimmed(i);
    ParsePrintInt(i, 0x8000_0000);
  }

  /** Every part, or nothing when one of them is not a 32-bit number. */
  function ParseAll(parts: seq<string>): (r: Option<seq<Int32>>) {
    if parts == [] then Some([]) else
    match ParsePort(parts[0])
    case None => None
    case Some(p) =>
      match ParseAll(parts[1..])
      case None => None
      case Some(rest) => Some([p] + rest)
  }

  lemma ParseAllCons(part: string, parts: seq<string>, p: Int32, ports: seq<Int32>)
    requires ParsePort(part) == Some(p) && ParseAll(parts) == Some(ports)
    ensures ParseAll([part] + parts) == Some([p] + ports)
  {
    assert ([part] + parts)[1..] == parts;
  }

  /** Parsing the printed list gives the list back, in order. */
  lemma {:induction false} ParseAllPrinted(ports: seq<Int32>)
    ensures ParseAll(PrintAll(ports)) == Some(ports)
  {
    if ports != [] {
      var p, rest := ports[0], ports[1..];
      ParsePrintPort(p);
      ParseAllPrinted(rest);
      ParseAllCons(PrintInt(p), PrintAll(rest), p, rest);
      assert PrintAll(ports) == [PrintInt(p)] + PrintAll(rest);
      assert ports == [p] + rest;
    }
  }

  lemma {:induction false} JoinNonempty(parts: seq<string>)
    requires |parts| > 0 && parts[0] != ""
    ensures Join(parts) != ""
  {
  }

  lemma PortListRoundTrip(ports: seq<Int32>)
    requires ports != []
    ensures Join(PrintAll(ports)) != ""
    ensures ParseAll(Split(Join(PrintAll(ports)))) == Some(ports)
  {
    forall i | 0 <= i < |ports|
      ensures ',' !in PrintAll(ports)[i]
    {
      assert forall k | 0 <= k < |PrintInt(ports[i])| :: PrintInt(ports[i])[k] != ',';
    }
    SplitJoin(PrintAll(ports));
    ParseAllPrinted(ports);
    JoinNonempty(PrintAll(ports));
  }
}
