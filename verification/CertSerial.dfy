/**
 Certificate serial numbers: their text form, the parser of that form, and the blacklist that is
 keyed by bytes but must agree with the numbers. Text is a string of one-byte characters.
 */
module CertSerial {
  import opened Text
  import opened WhiteSpace
  import opened Wrappers

  type Byte = b: int | 0 <= b < 256

  datatype ParseError = BadHexDigit | MissingColon | Incomplete

  datatype Parsed = Ok(bytes: seq<Byte>) | Err(error: ParseError)

  // ---- The text form ----

  const HEX_DIGITS: string := "0123456789abcdef"

  function HexDigit(n: int): char
    requires 0 <= n < 16
  {
    HEX_DIGITS[n]
  }

  /** The value of a hexadecimal digit of either case, or -1. */
  function HexValue(c: char): int {
    if '0' <= c <= '9' then c as int - '0' as int
    else if 'a' <= c <= 'f' then c as int - 'a' as int + 10
    else if 'A' <= c <= 'F' then c as int - 'A' as int + 10
    else -1
  }

  function HexPair(b: Byte): (s: string)
    ensures |s| == 2
  {
    [HexDigit(b / 16), HexDigit(b % 16)]
  }

  /** Hexadecimal pairs separated by colons. */
  function Joined(bytes: seq<Byte>): string {
    if |bytes| == 0 then ""
    else if |bytes| == 1 then HexPair(bytes[0])
    else HexPair(bytes[0]) + ":" + Joined(bytes[1..])
  }

  /** Hexadecimal pairs each followed by a colon. */
  function Terminated(bytes: seq<Byte>): (s: string)
    ensures |s| == 3 * |bytes|
  {
    if bytes == [] then "" else Terminated(bytes[..|bytes| - 1]) + HexPair(bytes[|bytes| - 1]) + ":"
  }

  lemma {:induction false} TerminatedFromFront(bytes: seq<Byte>)
    requires bytes != []
    ensures Terminated(bytes) == HexPair(bytes[0]) + ":" + Terminated(bytes[1..])
  {
    if |bytes| > 1 {
      var earlier := bytes[..|bytes| - 1];
      TerminatedFromFront(earlier);
      assert bytes[1..][..|bytes| - 2] == earlier[1..];
    }
  }

  lemma {:induction false} JoinedIsTerminatedWithoutLastColon(bytes: seq<Byte>)
    requires bytes != []
    ensures Terminated(bytes) == Joined(bytes) + ":"
  {
    TerminatedFromFront(bytes);
    if |bytes| > 1 {
      JoinedIsTerminatedWithoutLastColon(bytes[1..]);
    }
  }

  /**
   Formats a serial number given by its sign and its bytes, none for zero. The digits are put at
   the end of the buffer that the text is then built in from the front.
   For zero the text has no last colon to cut off, and slicing it panics: `None`.
   */
  method FormatSerial(negative: bool, bytes: seq<Byte>) returns (text: Option<string>)
    ensures text == if bytes == [] then None else Some((if negative then "(Negative)" else "") + Joined(bytes))
  {
    hide HexDigit, Joined, Terminated, HexPair, HoldsPair;
    var n := |bytes|;
    var buf := new char[3 * n];
    HexEncode(buf, n, bytes);
    var len := 0;
    assert bytes[..0] == [];
    TerminatedEmpty();
    for k := 0 to n
      invariant len == 3 * k
      invariant buf[..3 * k] == Terminated(bytes[..k])
      invariant forall j :: k <= j < n ==> HoldsPair(buf[..], n + 2 * j, bytes[j])
    {
      PairIsHeld(buf[..], n + 2 * k, bytes[k]);
      var (high, low) := (buf[n + 2 * k], buf[n + 2 * k + 1]);
      ghost var text, old' := buf[..3 * k], buf[..];
      buf[len], buf[len + 1], buf[len + 2] := high, low, ':';
      len := len + 3;
      assert buf[..3 * (k + 1)] == text + [high, low] + ":";
      TerminatedGrows(bytes, k);
      PairsStay(old', buf[..], n, bytes, k + 1);
    }
    if len == 0 {
      return None;
    }
    assert bytes[..n] == bytes;
    JoinedIsTerminatedWithoutLastColon(bytes);
    assert buf[..3 * n][..3 * n - 1] == buf[..3 * n - 1];
    text := Some((if negative then "(Negative)" else "") + buf[..len - 1]);
  }

  lemma PairIsHeld(buf: string, at: nat, b: Byte)
    requires HoldsPair(buf, at, b)
    ensures at + 1 < |buf| && buf[at] == HexDigit(b / 16) && buf[at + 1] == HexDigit(b % 16)
  {
  }

  /** Writing in front of the digits still to be read leaves them. */
  lemma PairsStay(before: string, after: string, n: nat, bytes: seq<Byte>, k: nat)
    requires k <= n == |bytes| && |before| == |after| && forall i :: 3 * k <= i < |before| ==> after[i] == before[i]
    requires forall j :: k <= j < n ==> HoldsPair(before, n + 2 * j, bytes[j])
    ensures forall j :: k <= j < n ==> HoldsPair(after, n + 2 * j, bytes[j])
  {
    forall j | k <= j < n ensures HoldsPair(after, n + 2 * j, bytes[j]) {
      assert HoldsPair(before, n + 2 * j, bytes[j]);
    }
  }

  lemma TerminatedEmpty()
    ensures Terminated([]) == ""
  {
  }

  lemma TerminatedGrows(bytes: seq<Byte>, k: nat)
    requires k < |bytes|
    ensures Terminated(bytes[..k + 1]) == Terminated(bytes[..k]) + [HexDigit(bytes[k] / 16), HexDigit(bytes[k] % 16)] + ":"
  {
    assert bytes[..k + 1][..k] == bytes[..k];
  }

  predicate HoldsPair(buf: string, at: nat, b: Byte) {
    at + 1 < |buf| && buf[at] == HexDigit(b / 16) && buf[at + 1] == HexDigit(b % 16)
  }

  method HexEncode(buf: array<char>, offset: nat, bytes: seq<Byte>)
    requires offset + 2 * |bytes| == buf.Length
    modifies buf
    ensures forall j :: 0 <= j < |bytes| ==> HoldsPair(buf[..], offset + 2 * j, bytes[j])
  {
    for i := 0 to |bytes|
      invariant forall j :: 0 <= j < i ==> HoldsPair(buf[..], offset + 2 * j, bytes[j])
    {
      buf[offset + 2 * i] := HexDigit(bytes[i] / 16);
      buf[offset + 2 * i + 1] := HexDigit(bytes[i] % 16);
    }
  }

  // ---- Parsing ----

  /** The bytes a text denotes: pairs of hexadecimal digits, a colon after each but perhaps the
      last. The first fault from the left decides the error. */
  function Parse(s: string): Parsed {
    if s == "" then Ok([])
    else if |s| == 1 then Err(Incomplete)
    else if HexValue(s[0]) < 0 || HexValue(s[1]) < 0 then Err(BadHexDigit)
    else
      var b: Byte := 16 * HexValue(s[0]) + HexValue(s[1]);
      if |s| == 2 then Ok([b])
      else if s[2] != ':' then Err(MissingColon)
      else Preceded([b], Parse(s[3..]))
  }

  function Preceded(first: seq<Byte>, rest: Parsed): Parsed {
    match rest
    case Ok(bytes) => Ok(first + bytes)
    case Err(_) => rest
  }

  function RestFrom(s: string, i: nat): string {
    if 3 * i <= |s| then s[3 * i..] else ""
  }

  /** A fault in the next two or three characters decides the parse. */
  lemma FaultDecides(s: string, i: nat, before: seq<Byte>)
    requires 3 * i + 1 < |s| && Parse(s) == Preceded(before, Parse(RestFrom(s, i)))
    ensures var (high, low) := (HexValue(s[3 * i]), HexValue(s[3 * i + 1]));
      && (high < 0 || low < 0 ==> Parse(s) == Err(BadHexDigit))
      && (high >= 0 && low >= 0 && 3 * i + 2 < |s| && s[3 * i + 2] != ':' ==> Parse(s) == Err(MissingColon))
  {
    hide HexValue;
    HexValueIsSmall(s[3 * i]);
    HexValueIsSmall(s[3 * i + 1]);
    assert RestFrom(s, i)[0] == s[3 * i] && RestFrom(s, i)[1] == s[3 * i + 1];
  }

  /** The parse of what begins with a whole pair goes on after it. */
  lemma PairGoesOn(rest: string)
    requires |rest| > 1 && HexValue(rest[0]) >= 0 && HexValue(rest[1]) >= 0 && (|rest| > 2 ==> rest[2] == ':')
    ensures HexValue(rest[0]) < 16 && HexValue(rest[1]) < 16
    ensures Parse(rest) == Preceded([16 * HexValue(rest[0]) + HexValue(rest[1])], Parse(if |rest| > 2 then rest[3..] else ""))
  {
    hide HexValue;
    HexValueIsSmall(rest[0]);
    HexValueIsSmall(rest[1]);
  }

  lemma PrecededTwice(first: seq<Byte>, second: seq<Byte>, rest: Parsed)
    ensures Preceded(first, Preceded(second, rest)) == Preceded(first + second, rest)
  {
    if rest.Ok? {
      assert first + (second + rest.bytes) == (first + second) + rest.bytes;
    }
  }

  /** A pair, with its colon if more follows, adds its byte to the parse. */
  lemma PairParses(s: string, i: nat, before: seq<Byte>)
    requires 3 * i + 1 < |s| && Parse(s) == Preceded(before, Parse(RestFrom(s, i)))
    requires HexValue(s[3 * i]) >= 0 && HexValue(s[3 * i + 1]) >= 0 && (3 * i + 2 < |s| ==> s[3 * i + 2] == ':')
    ensures HexValue(s[3 * i]) < 16 && HexValue(s[3 * i + 1]) < 16
    ensures Parse(s) == Preceded(before + [16 * HexValue(s[3 * i]) + HexValue(s[3 * i + 1])], Parse(RestFrom(s, i + 1)))
  {
    hide HexValue, Parse, Preceded;
    var (rest, next) := (RestFrom(s, i), RestFrom(s, i + 1));
    assert rest[0] == s[3 * i] && rest[1] == s[3 * i + 1] && |rest| == |s| - 3 * i && (|rest| > 2 ==> rest[2] == s[3 * i + 2]);
    PairGoesOn(rest);
    assert (if |rest| > 2 then rest[3..] else "") == next;
    PrecededTwice(before, [16 * HexValue(rest[0]) + HexValue(rest[1])], Parse(next));
  }

  lemma ParseStarts(s: string)
    ensures Parse(s) == Preceded([], Parse(RestFrom(s, 0)))
  {
  }

  lemma ParseEnds(s: string, i: nat)
    ensures 3 * i + 1 == |s| ==> Parse(RestFrom(s, i)) == Err(Incomplete)
    ensures 3 * i >= |s| ==> Parse(RestFrom(s, i)) == Ok([])
  {
  }

  lemma HexValueIsSmall(c: char)
    ensures -1 <= HexValue(c) < 16
  {
  }

  method ParseSerialBytes(serial: string) returns (r: Parsed)
    ensures r == Parse(serial)
  {
    hide Parse, HexValue, RestFrom;
    var res := new Byte[(|serial| + 2) / 3];
    var i := 0;
    ParseStarts(serial);
    while i < res.Length && i * 3 + 1 < |serial|
      invariant 0 <= i <= res.Length
      invariant Parse(serial) == Preceded(res[..i], Parse(RestFrom(serial, i)))
    {
      FaultDecides(serial, i, res[..i]);
      HexValueIsSmall(serial[i * 3]);
      HexValueIsSmall(serial[i * 3 + 1]);
      var (high, low) := (HexValue(serial[i * 3]), HexValue(serial[i * 3 + 1]));
      if high < 0 || low < 0 {
        return Err(BadHexDigit);
      }
      if !(i * 3 + 2 < |serial| && serial[i * 3 + 2] != ':') {
        PairParses(serial, i, res[..i]);
      }
      res[i] := 16 * high + low;
      if i * 3 + 2 < |serial| && serial[i * 3 + 2] != ':' {
        return Err(MissingColon);
      }
      i := i + 1;
    }
    ParseEnds(serial, i);
    if i < res.Length {
      return Err(Incomplete);
    }
    assert res[..i] == res[..];
    r := Ok(res[..]);
  }

  /** The digits of a byte are read back as that byte, in either case, and no other pair is. */
  lemma {:induction false} PairIsRead(high: char, low: char, b: Byte)
    ensures (HexValue(high) >= 0 && HexValue(low) >= 0 && 16 * HexValue(high) + HexValue(low) == b)
      <==> [LowerChar(high), LowerChar(low)] == HexPair(b)
  {
    DigitIsRead(high, b / 16);
    DigitIsRead(low, b % 16);
    assert [LowerChar(high), LowerChar(low)] == HexPair(b)
      <==> LowerChar(high) == HexDigit(b / 16) && LowerChar(low) == HexDigit(b % 16);
  }

  lemma DigitIsRead(c: char, n: int)
    requires 0 <= n < 16
    ensures HexValue(c) == n <==> LowerChar(c) == HexDigit(n)
  {
  }

  /** The text is the bytes joined by colons, up to the case of the digits, with or without one
      more colon at the end. */
  predicate Writes(s: string, bytes: seq<Byte>) {
    Lower(s) == Joined(bytes) || (bytes != [] && Lower(s) == Joined(bytes) + ":")
  }

  /** The parser reads `bytes` from exactly the texts that write them. */
  lemma {:induction false} ParsesExactlyJoined(s: string, bytes: seq<Byte>)
    ensures Parse(s) == Ok(bytes) <==> Writes(s, bytes)
    decreases |bytes|
  {
    hide Lower, Joined, Writes, HexPair, HexValue;
    ShortWrites(s, bytes);
    if bytes != [] && |s| >= 2 {
      PairIsRead(s[0], s[1], bytes[0]);
      if |s| > 2 {
        LongWrites(s, bytes);
        ParsesExactlyJoined(s[3..], bytes[1..]);
        PairThenRest(s, bytes);
      }
    }
  }

  lemma ShortWrites(s: string, bytes: seq<Byte>)
    ensures bytes == [] ==> (Writes(s, bytes) <==> s == "")
    ensures bytes != [] && |s| < 2 ==> !Writes(s, bytes)
    ensures bytes != [] && |s| == 2 ==>
      (Writes(s, bytes) <==> |bytes| == 1 && [LowerChar(s[0]), LowerChar(s[1])] == HexPair(bytes[0]))
  {
  }

  lemma LongWrites(s: string, bytes: seq<Byte>)
    requires |s| > 2 && bytes != []
    ensures Writes(s, bytes)
      <==> [LowerChar(s[0]), LowerChar(s[1])] == HexPair(bytes[0]) && s[2] == ':' && Writes(s[3..], bytes[1..])
  {
    hide HexPair;
    var (pair, rest) := (HexPair(bytes[0]), bytes[1..]);
    var front := [LowerChar(s[0]), LowerChar(s[1])] + [LowerChar(s[2])];
    assert Lower(s) == front + Lower(s[3..]);
    JoinedLength(rest);
    if rest == [] {
      assert Joined(bytes) + ":" == pair + ":" + "";
      SameParts(front, pair + ":", Lower(s[3..]), "");
    } else {
      assert Joined(bytes) == pair + ":" + Joined(rest);
      assert Joined(bytes) + ":" == pair + ":" + (Joined(rest) + ":");
      SameParts(front, pair + ":", Lower(s[3..]), Joined(rest));
      SameParts(front, pair + ":", Lower(s[3..]), Joined(rest) + ":");
    }
    assert front == pair + ":" <==> front[..2] == pair && front[2] == ':';
  }

  lemma SameParts(a: string, b: string, s: string, t: string)
    requires |a| == |b|
    ensures a + s == b + t <==> a == b && s == t
  {
    if a + s == b + t {
      assert (a + s)[..|a|] == a && (b + t)[..|a|] == b;
      assert (a + s)[|a|..] == s && (b + t)[|a|..] == t;
    }
  }

  /** A parse that gets past the first pair and colon is the pair and the parse of the rest. */
  lemma PairThenRest(s: string, bytes: seq<Byte>)
    requires |s| > 2 && bytes != []
    ensures Parse(s) == Ok(bytes)
      <==> HexValue(s[0]) >= 0 && HexValue(s[1]) >= 0 && 16 * HexValue(s[0]) + HexValue(s[1]) == bytes[0]
           && s[2] == ':' && Parse(s[3..]) == Ok(bytes[1..])
  {
  }

  lemma {:induction false} JoinedLength(bytes: seq<Byte>)
    ensures |Joined(bytes)| == if bytes == [] then 0 else 3 * |bytes| - 1
  {
    if |bytes| > 1 {
      JoinedLength(bytes[1..]);
    }
  }

  /** Formatting a number that is not zero and parsing the text gives its bytes back. */
  lemma {:induction false} FormatThenParse(bytes: seq<Byte>)
    ensures Parse(Joined(bytes)) == Ok(bytes)
  {
    JoinedIsLower(bytes);
    ParsesExactlyJoined(Joined(bytes), bytes);
  }

  lemma {:induction false} JoinedIsLower(bytes: seq<Byte>)
    ensures Lower(Joined(bytes)) == Joined(bytes)
  {
    hide HexPair;
    if bytes != [] {
      PairIsLower(bytes[0]);
      if |bytes| > 1 {
        JoinedIsLower(bytes[1..]);
        assert Joined(bytes) == HexPair(bytes[0]) + (":" + Joined(bytes[1..]));
      }
    }
  }

  lemma PairIsLower(b: Byte)
    ensures forall i :: 0 <= i < 2 ==> LowerChar(HexPair(b)[i]) == HexPair(b)[i]
  {
  }

  // ---- Numbers ----

  /** The number the bytes denote in base 256, most significant byte first. */
  function Value(bytes: seq<Byte>): nat {
    if bytes == [] then 0 else 256 * Value(bytes[..|bytes| - 1]) + bytes[|bytes| - 1]
  }

  /** The bytes of a number, without leading zeros; none for zero. */
  function BytesOf(n: nat): seq<Byte> {
    if n == 0 then [] else BytesOf(n / 256) + [n % 256]
  }

  lemma {:induction false} BytesOfRoundTrip(n: nat)
    ensures Value(BytesOf(n)) == n
    ensures n != 0 ==> BytesOf(n)[0] != 0
  {
    if n != 0 {
      BytesOfRoundTrip(n / 256);
      assert BytesOf(n)[..|BytesOf(n)| - 1] == BytesOf(n / 256);
    }
  }

  function CutZeroes(b: seq<Byte>): seq<Byte> {
    if b != [] && b[0] == 0 then CutZeroes(b[1..]) else b
  }

  method CutLeadingZeroes(bytes: seq<Byte>) returns (b: seq<Byte>)
    ensures b == CutZeroes(bytes)
  {
    b := bytes;
    while |b| > 0 && b[0] == 0
      invariant CutZeroes(b) == CutZeroes(bytes)
      decreases |b|
    {
      b := b[1..];
    }
  }

  lemma {:induction false} LeadingZeroAddsNothing(b: seq<Byte>)
    requires b != [] && b[0] == 0
    ensures Value(b) == Value(b[1..])
  {
    if |b| > 1 {
      LeadingZeroAddsNothing(b[..|b| - 1]);
      assert b[1..][..|b| - 2] == b[..|b| - 1][1..];
    }
  }

  lemma {:induction false} NoLeadingZeroIsCanonical(b: seq<Byte>)
    requires b != [] ==> b[0] != 0
    ensures b == BytesOf(Value(b)) && (b != [] ==> Value(b) > 0)
  {
    if b != [] {
      var earlier := b[..|b| - 1];
      if earlier != [] {
        NoLeadingZeroIsCanonical(earlier);
      }
      LastDigit(Value(earlier), b[|b| - 1]);
    }
  }

  lemma LastDigit(n: nat, d: Byte)
    ensures (256 * n + d) / 256 == n && (256 * n + d) % 256 == d
  {
  }

  /** Without its leading zeros a byte string is the one canonical string of its number. */
  lemma {:induction false} CutIsCanonical(b: seq<Byte>)
    ensures CutZeroes(b) == BytesOf(Value(b))
  {
    if b != [] && b[0] == 0 {
      LeadingZeroAddsNothing(b);
      CutIsCanonical(b[1..]);
    } else {
      NoLeadingZeroIsCanonical(b);
    }
  }

  /** The key of the blacklist agrees with numeric equality. */
  lemma {:induction false} SameKeyIsSameNumber(a: seq<Byte>, b: seq<Byte>)
    ensures CutZeroes(a) == CutZeroes(b) <==> Value(a) == Value(b)
  {
    CutIsCanonical(a);
    CutIsCanonical(b);
    BytesOfRoundTrip(Value(a));
    BytesOfRoundTrip(Value(b));
  }

  // ---- The blacklist ----

  function BeforeHash(s: string): string {
    if s == "" || s[0] == '#' then "" else [s[0]] + BeforeHash(s[1..])
  }

  /** A line without its comment and the white space around the rest. */
  function Content(line: string): string {
    TrimRight(TrimLeft(BeforeHash(line)))
  }

  /** The line says a serial number, this one. */
  predicate Lists(line: string, n: nat) {
    Content(line) != "" && Parse(Content(line)).Ok? && Value(Parse(Content(line)).bytes) == n
  }

  predicate IsBad(line: string) {
    Content(line) != "" && Parse(Content(line)).Err?
  }

  function BadLines(lines: seq<string>): seq<string> {
    if lines == [] then []
    else
      var (earlier, line) := (lines[..|lines| - 1], lines[|lines| - 1]);
      BadLines(earlier) + if IsBad(line) then [Content(line)] else []
  }

  /** A set of serial numbers by their bytes without leading zeros; it may never have been loaded. */
  datatype SerialNumberSet = Missing | Loaded(sns: set<seq<Byte>>)

  /** `serial` has a sign that does not matter. */
  method Has(s: SerialNumberSet, serial: int) returns (found: bool)
    ensures s.Missing? ==> !found
    ensures s.Loaded? ==> (found <==> BytesOf(Magnitude(serial)) in s.sns)
  {
    var key := CutLeadingZeroes(BytesOf(Magnitude(serial)));
    CutIsCanonical(BytesOf(Magnitude(serial)));
    BytesOfRoundTrip(Magnitude(serial));
    if s.Missing? {
      return false;
    }
    found := key in s.sns;
  }

  function Magnitude(n: int): nat {
    if n < 0 then -n else n
  }

  /** The set the lines of a file make, and the lines reported as bad. A reader that fails makes
      no set. */
  ghost predicate SetOf(lines: seq<string>, s: SerialNumberSet) {
    s.Loaded? && forall n: nat :: BytesOf(n) in s.sns <==> exists i :: 0 <= i < |lines| && Lists(lines[i], n)
  }

  method NewSerialNumberSetFromReader(lines: seq<string>, readFails: bool)
    returns (s: Option<SerialNumberSet>, bad: seq<string>)
    ensures readFails <==> s == None
    ensures s != None ==> SetOf(lines, s.value)
    ensures bad == BadLines(lines)
  {
    var sns: set<seq<Byte>> := {};
    bad := [];
    for i := 0 to |lines|
      invariant SetOf(lines[..i], Loaded(sns))
      invariant bad == BadLines(lines[..i])
    {
      var line := Content(lines[i]);
      ghost var before := sns;
      assert lines[..i + 1][..i] == lines[..i];
      hide Content, Parse;
      if |line| != 0 {
        var serial := ParseSerialBytes(line);
        match serial
        case Err(_) => bad := bad + [line];
        case Ok(bytes) =>
          var key := CutLeadingZeroes(bytes);
          sns := sns + {key};
          CutIsCanonical(bytes);
      }
      OneMoreLine(lines[..i + 1], before, sns);
    }
    assert lines[..|lines|] == lines;
    s := if readFails then None else Some(Loaded(sns));
  }

  lemma OneMoreLine(lines: seq<string>, before: set<seq<Byte>>, after: set<seq<Byte>>)
    requires lines != [] && SetOf(lines[..|lines| - 1], Loaded(before))
    requires var line := lines[|lines| - 1];
      if Content(line) != "" && Parse(Content(line)).Ok?
      then after == before + {BytesOf(Value(Parse(Content(line)).bytes))} else after == before
    ensures SetOf(lines, Loaded(after))
  {
    hide Content, Parse;
    var (earlier, line) := (lines[..|lines| - 1], lines[|lines| - 1]);
    forall n: nat ensures BytesOf(n) in after <==> exists i :: 0 <= i < |lines| && Lists(lines[i], n) {
      BytesOfRoundTrip(n);
      if Lists(line, n) {
        assert Lists(lines[|lines| - 1], n);
      } else if Parse(Content(line)).Ok? {
        BytesOfRoundTrip(Value(Parse(Content(line)).bytes));
      }
      if i: nat :| i < |earlier| && Lists(earlier[i], n) {
        assert Lists(lines[i], n);
      }
      if i: nat :| i < |lines| && Lists(lines[i], n) && i < |earlier| {
        assert Lists(earlier[i], n);
      }
    }
  }

  /** A serial number is found exactly when some line of the file that parses denotes its
      magnitude, whatever zeros lead it there. */
  method Blacklisted(lines: seq<string>, serial: int) returns (found: bool)
    ensures found <==> exists i :: 0 <= i < |lines| && Lists(lines[i], Magnitude(serial))
  {
    var s, _ := NewSerialNumberSetFromReader(lines, false);
    found := Has(s.value, serial);
  }

  /** What comes before the first `#`, or all of the line. */
  lemma {:induction false} BeforeHashCuts(s: string)
    ensures BeforeHash(s) <= s && '#' !in BeforeHash(s)
    ensures |BeforeHash(s)| < |s| ==> s[|BeforeHash(s)|] == '#'
  {
    if s != "" && s[0] != '#' {
      BeforeHashCuts(s[1..]);
    }
  }

  lemma {:induction false} CommentIsCut(s: string, comment: string)
    requires '#' !in s
    ensures BeforeHash(s + "#" + comment) == s
  {
    var line := s + "#" + comment;
    if s != "" {
      assert line[1..] == s[1..] + "#" + comment && line[0] == s[0] && s[0] in s;
      CommentIsCut(s[1..], comment);
    }
  }

  lemma {:induction false} JoinedIsPlain(bytes: seq<Byte>)
    ensures forall c :: c in Joined(bytes) ==> IsPlain(c)
  {
    if bytes != [] {
      var pair := HexPair(bytes[0]);
      assert forall n :: 0 <= n < 16 ==> IsPlain(HexDigit(n));
      if |bytes| > 1 {
        JoinedIsPlain(bytes[1..]);
      }
    }
  }

  lemma {:induction false} PlainIsContent(s: string)
    requires forall c :: c in s ==> IsPlain(c)
    ensures Content(s) == s
  {
    NoHash(s);
    PlainHasNoSpace(s);
    hide LeadingSpace, TrailingSpace;
  }

  lemma {:induction false} NoHash(s: string)
    requires '#' !in s
    ensures BeforeHash(s) == s
  {
    if s != "" {
      NoHash(s[1..]);
    }
  }

  lemma NoHashTogether(s: string, r: string)
    requires '#' !in s && '#' !in r
    ensures '#' !in s + r
  {
  }

  lemma PlainHasNoHash(text: string)
    requires forall c :: c in text ==> IsPlain(c)
    ensures '#' !in text
  {
  }

  /** Nothing but what is around plain text is trimmed. */
  lemma TrimmedIsText(text: string, before: string, after: string)
    requires text != "" && (forall c :: c in text ==> IsPlain(c)) && AllSpace(before) && AllSpace(after)
    ensures TrimRight(TrimLeft(before + text + after)) == text
  {
    hide *;
    PlainHasNoSpace(text);
    LeadingSpaceGoesOn(text, after);
    assert before + text + after == before + (text + after);
    SpaceIsCutOnLeft(before, text + after);
    SpaceIsCutOnRight(text, after);
  }

  /** White space and a comment around plain text are cut off. */
  lemma ContentIsText(text: string, before: string, after: string, comment: string)
    requires text != "" && (forall c :: c in text ==> IsPlain(c)) && AllSpace(before) && AllSpace(after)
    ensures Content(before + text + after + "#" + comment) == text
  {
    hide AllSpace, TrimLeft, TrimRight, BeforeHash, IsPlain;
    PlainHasNoHash(text);
    SpaceHasNoHash(before);
    SpaceHasNoHash(after);
    NoHashTogether(before, text);
    NoHashTogether(before + text, after);
    CommentIsCut(before + text + after, comment);
    TrimmedIsText(text, before, after);
  }

  /** A line with a serial number in its text form, white space around it, and a comment lists that
      number and no other. */
  lemma {:induction false} CommentedLineLists(n: nat, m: nat, before: string, after: string, comment: string)
    requires n > 0 && AllSpace(before) && AllSpace(after)
    ensures Lists(before + Joined(BytesOf(n)) + after + "#" + comment, m) <==> m == n
  {
    var text := Joined(BytesOf(n));
    BytesOfRoundTrip(n);
    JoinedIsPlain(BytesOf(n));
    JoinedLength(BytesOf(n));
    FormatThenParse(BytesOf(n));
    hide Joined, Parse, AllSpace, Content, IsPlain, Value;
    ContentIsText(text, before, after, comment);
  }

  /** The text the proxy prints for a certificate, put into the blacklist as a line, lists that
      certificate's number and no other. */
  lemma {:induction false} FormattedLineListsItself(n: nat, m: nat)
    requires n > 0
    ensures Lists(Joined(BytesOf(n)), m) <==> m == n
  {
    var bytes := BytesOf(n);
    BytesOfRoundTrip(n);
    JoinedIsPlain(bytes);
    PlainIsContent(Joined(bytes));
    JoinedLength(bytes);
    FormatThenParse(bytes);
  }

  /** The sign of a serial number does not matter. */
  lemma MagnitudeIgnoresSign(n: int)
    ensures Magnitude(n) == Magnitude(-n) && (Magnitude(n) == n || Magnitude(n) == -n)
  {
  }

  /** Every line is blank, bad, or lists one number, and no two of these; a line of white space and a
      comment is blank. */
  lemma {:induction false} LineIsReadOneWay(line: string, n: nat, m: nat)
    ensures Content(line) == "" ==> !IsBad(line) && !Lists(line, n)
    ensures Lists(line, n) ==> !IsBad(line) && (Lists(line, m) ==> m == n)
    ensures Content(line) != "" && !IsBad(line) ==> exists k: nat :: Lists(line, k)
  {
    if Content(line) != "" && !IsBad(line) {
      assert Lists(line, Value(Parse(Content(line)).bytes));
    }
  }

  lemma {:induction false} CommentedBlankIsBlank(space: string, comment: string)
    requires AllSpace(space)
    ensures Content(space + "#" + comment) == ""
  {
    SpaceHasNoHash(space);
    CommentIsCut(space, comment);
    assert space + "" == space;
    hide AllSpace, TrimLeft, BeforeHash;
    SpaceIsCutOnLeft(space, "");
  }

  /** The bad lines are reported without their comments, in the order of the file. */
  lemma {:induction false} BadLinesAreInOrder(lines: seq<string>, line: string, more: seq<string>)
    ensures BadLines(lines + [line] + more)
      == BadLines(lines) + (if Content(line) != "" && Parse(Content(line)).Err? then [Content(line)] else []) + BadLines(more)
  {
    hide Content, Parse;
    var all := lines + [line] + more;
    if more == [] {
      assert all[..|all| - 1] == lines;
    } else {
      assert all[..|all| - 1] == lines + [line] + more[..|more| - 1];
      BadLinesAreInOrder(lines, line, more[..|more| - 1]);
    }
  }
}
