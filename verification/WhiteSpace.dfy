/**
 White space around text, in UTF-8 with a string of one-byte characters: what is trimmed is white
 space and all of it.
 */
module WhiteSpace {

  predicate IsSpace(c: char) {
    c == ' ' || '\t' as int <= c as int <= '\r' as int
  }

  /** The text is one white-space character in UTF-8. */
  predicate IsSpaceEncoding(s: string) {
    if |s| == 1 then IsSpace(s[0])
    else if |s| == 2 then s[0] as int == 0xc2 && (s[1] as int == 0x85 || s[1] as int == 0xa0)
    else
      && |s| == 3
      && var (a, b, c) := (s[0] as int, s[1] as int, s[2] as int);
         || (a == 0xe1 && b == 0x9a && c == 0x80)
         || (a == 0xe2 && b == 0x80 && (0x80 <= c <= 0x8a || c == 0xa8 || c == 0xa9 || c == 0xaf))
         || (a == 0xe2 && b == 0x81 && c == 0x9f)
         || (a == 0xe3 && b == 0x80 && c == 0x80)
  }

  /** The width of the white-space character the text begins with, or zero. */
  function LeadingSpace(s: string): (k: nat)
    ensures k <= |s| && (k > 0 ==> IsSpaceEncoding(s[..k]))
  {
    if |s| >= 1 && IsSpaceEncoding(s[..1]) then 1
    else if |s| >= 2 && IsSpaceEncoding(s[..2]) then 2
    else if |s| >= 3 && IsSpaceEncoding(s[..3]) then 3
    else 0
  }

  /** The width of the white-space character the text ends with, or zero. */
  function TrailingSpace(s: string): (k: nat)
    ensures k <= |s| && (k > 0 ==> IsSpaceEncoding(s[|s| - k..]))
  {
    if |s| >= 1 && IsSpaceEncoding(s[|s| - 1..]) then 1
    else if |s| >= 2 && IsSpaceEncoding(s[|s| - 2..]) then 2
    else if |s| >= 3 && IsSpaceEncoding(s[|s| - 3..]) then 3
    else 0
  }

  function TrimLeft(s: string): string {
    var k := LeadingSpace(s);
    if k == 0 then s else TrimLeft(s[k..])
  }

  function TrimRight(s: string): string {
    var k := TrailingSpace(s);
    if k == 0 then s else TrimRight(s[..|s| - k])
  }

  predicate IsPlain(c: char) {
    !IsSpace(c) && c != '#' && c as int < 0x80
  }

  /** Text that is nothing but white-space characters. */
  predicate AllSpace(s: string) {
    s == "" || (LeadingSpace(s) > 0 && AllSpace(s[LeadingSpace(s)..]))
  }

  /** Only white space is cut off on the left, and all of it. */
  lemma {:induction false} TrimLeftCutsSpace(s: string)
    ensures |TrimLeft(s)| <= |s| && s[|s| - |TrimLeft(s)|..] == TrimLeft(s)
    ensures AllSpace(s[..|s| - |TrimLeft(s)|]) && LeadingSpace(TrimLeft(s)) == 0
  {
    hide LeadingSpace, IsSpaceEncoding;
    var k := LeadingSpace(s);
    if k > 0 {
      TrimLeftCutsSpace(s[k..]);
      var cut := |s| - |TrimLeft(s)|;
      LeadingSpaceIsEncoded(s, cut);
      assert s[..cut][k..] == s[k..][..cut - k];
    } else {
      assert s[..0] == "" && s[0..] == s;
    }
  }

  /** White space at the front is seen whatever follows it. */
  lemma LeadingSpaceIsEncoded(s: string, n: nat)
    requires LeadingSpace(s) <= n <= |s|
    ensures LeadingSpace(s) > 0 ==> LeadingSpace(s[..n]) == LeadingSpace(s)
  {
    assert n >= 1 ==> s[..n][..1] == s[..1];
    assert n >= 2 ==> s[..n][..2] == s[..2];
    assert n >= 3 ==> s[..n][..3] == s[..3];
    hide IsSpaceEncoding;
  }

  lemma {:induction false} SpaceOnTheRight(space: string, last: string)
    requires AllSpace(space) && AllSpace(last)
    ensures AllSpace(space + last)
  {
    hide IsSpaceEncoding, LeadingSpace;
    var k := LeadingSpace(space);
    if space == "" {
      assert space + last == last;
    } else {
      SpaceOnTheRight(space[k..], last);
      assert (space + last)[..|space|] == space;
      assert (space + last)[k..] == space[k..] + last;
      LeadingSpaceGrows(space, last);
    }
  }

  lemma LeadingSpaceGrows(space: string, rest: string)
    requires LeadingSpace(space) > 0
    ensures LeadingSpace(space + rest) == LeadingSpace(space)
  {
    var s := space + rest;
    assert s[..1] == space[..1];
    assert |space| >= 2 ==> s[..2] == space[..2];
    assert |space| >= 3 ==> s[..3] == space[..3];
    hide IsSpaceEncoding;
  }

  /** One white-space character is all space. */
  lemma TrailingIsSpace(s: string)
    ensures var k := TrailingSpace(s);
      k > 0 ==> AllSpace(s[|s| - k..])
  {
    var k := TrailingSpace(s);
    if k > 0 {
      var last := s[|s| - k..];
      assert last[..k] == last && IsSpaceEncoding(last);
      EncodingLeads(last);
      assert last[|last|..] == "";
    }
  }

  lemma EncodingLeads(e: string)
    requires IsSpaceEncoding(e)
    ensures LeadingSpace(e) == |e|
  {
    assert e[..|e|] == e;
    if |e| > 1 {
      assert e[..1][0] == e[0] && !IsSpaceEncoding(e[..1]);
    }
    if |e| > 2 {
      assert e[..2][0] == e[0] && !IsSpaceEncoding(e[..2]);
    }
  }

  /** Only white space is cut off on the right, and all of it. */
  lemma {:induction false} TrimRightCutsSpace(s: string)
    ensures |TrimRight(s)| <= |s| && s[..|TrimRight(s)|] == TrimRight(s)
    ensures AllSpace(s[|TrimRight(s)|..]) && TrailingSpace(TrimRight(s)) == 0
  {
    TrailingIsSpace(s);
    hide IsSpaceEncoding, TrailingSpace, LeadingSpace;
    var k := TrailingSpace(s);
    if k > 0 {
      TrimRightCutsSpace(s[..|s| - k]);
      var keep := |TrimRight(s)|;
      hide AllSpace;
      SpaceOnTheRight(s[..|s| - k][keep..], s[|s| - k..]);
      assert s[keep..] == s[..|s| - k][keep..] + s[|s| - k..];
    } else {
      assert s[|s|..] == "";
    }
  }

  lemma {:induction false} SpaceIsCutOnLeft(space: string, rest: string)
    requires AllSpace(space) && LeadingSpace(rest) == 0
    ensures TrimLeft(space + rest) == rest
  {
    hide IsSpaceEncoding, LeadingSpace;
    var k := LeadingSpace(space);
    if space == "" {
      assert space + rest == rest;
    } else {
      LeadingSpaceGrows(space, rest);
      assert (space + rest)[k..] == space[k..] + rest;
      SpaceIsCutOnLeft(space[k..], rest);
    }
  }

  /** White space ends with a white-space character, and with no other. */
  lemma {:induction false} LastSpace(space: string) returns (k: nat)
    requires AllSpace(space) && space != ""
    ensures 0 < k <= |space| && IsSpaceEncoding(space[|space| - k..]) && AllSpace(space[..|space| - k])
  {
    hide IsSpaceEncoding, LeadingSpace;
    var n := LeadingSpace(space);
    if n == |space| {
      k := n;
      assert space[|space| - k..] == space[..n];
    } else {
      k := LastSpace(space[n..]);
      assert space[n..][|space| - n - k..] == space[|space| - k..];
      assert space[n..][..|space| - n - k] == space[..|space| - k][n..];
      LeadingSpaceIsEncoded(space, |space| - k);
    }
  }

  lemma EncodingTrails(s: string, k: nat)
    requires 0 < k <= |s| && IsSpaceEncoding(s[|s| - k..])
    ensures TrailingSpace(s) == k
  {
    var e := s[|s| - k..];
    if k > 1 {
      assert s[|s| - 1..][0] == e[k - 1] && !IsSpaceEncoding(s[|s| - 1..]);
    }
    if k > 2 {
      assert s[|s| - 2..][0] == e[k - 2] && !IsSpaceEncoding(s[|s| - 2..]);
    }
  }

  lemma {:induction false} SpaceIsCutOnRight(rest: string, space: string)
    requires AllSpace(space) && TrailingSpace(rest) == 0
    ensures TrimRight(rest + space) == rest
    decreases |space|
  {
    hide IsSpaceEncoding, LeadingSpace, TrailingSpace, AllSpace;
    if space == "" {
      assert rest + space == rest;
    } else {
      var k := LastSpace(space);
      var s := rest + space;
      assert s[|s| - k..] == space[|space| - k..];
      assert s[..|s| - k] == rest + space[..|space| - k];
      EncodingTrails(s, k);
      SpaceIsCutOnRight(rest, space[..|space| - k]);
    }
  }

  lemma {:induction false} SpaceHasNoHash(space: string)
    requires AllSpace(space)
    ensures '#' !in space
  {
    if space != "" {
      hide LeadingSpace, IsSpaceEncoding;
      var k := LeadingSpace(space);
      SpaceHasNoHash(space[k..]);
      EncodingHasNoHash(space[..k]);
      assert space == space[..k] + space[k..];
    }
  }

  lemma EncodingHasNoHash(e: string)
    ensures IsSpaceEncoding(e) ==> '#' !in e
  {
  }

  lemma PlainIsNoSpace(s: string)
    requires s != "" && IsPlain(s[0])
    ensures !IsSpaceEncoding(s)
  {
  }

  lemma PlainHasNoSpace(s: string)
    requires forall c :: c in s ==> IsPlain(c)
    ensures LeadingSpace(s) == 0 && TrailingSpace(s) == 0
  {
    hide IsPlain, IsSpaceEncoding;
    forall i, j | 0 <= i < j <= |s| ensures !IsSpaceEncoding(s[i..j]) {
      assert s[i..j][0] == s[i] && s[i] in s;
      PlainIsNoSpace(s[i..j]);
    }
    assert forall j :: 0 <= j <= |s| ==> s[..j] == s[0..j];
    assert forall i :: 0 <= i <= |s| ==> s[i..] == s[i..|s|];
  }

  lemma LeadingSpaceGoesOn(text: string, rest: string)
    requires text != "" && forall c :: c in text ==> IsPlain(c)
    ensures LeadingSpace(text + rest) == 0
  {
    var s := text + rest;
    assert s[0] == text[0] && text[0] in text;
    hide IsPlain, IsSpaceEncoding;
    PlainIsNoSpace(s[..1]);
    if |s| >= 2 {
      PlainIsNoSpace(s[..2]);
    }
    if |s| >= 3 {
      PlainIsNoSpace(s[..3]);
    }
  }

  // ---- Which characters these are ----

  /** The code points with the Unicode property White_Space. */
  predicate IsWhiteSpace(r: nat) {
    || 0x09 <= r <= 0x0d || r == 0x20 || r == 0x85 || r == 0xa0 || r == 0x1680 || 0x2000 <= r <= 0x200a
    || r == 0x2028 || r == 0x2029 || r == 0x202f || r == 0x205f || r == 0x3000
  }

  /** The bytes of a code point in UTF-8: section 3 of RFC 3629. */
  function Utf8(r: nat): seq<int>
    requires r < 0x1_0000
  {
    if r < 0x80 then [r]
    else if r < 0x800 then [0xc0 + r / 64, 0x80 + r % 64]
    else [0xe0 + r / 4096, 0x80 + r / 64 % 64, 0x80 + r % 64]
  }

  function Bytes(s: string): seq<int> {
    seq(|s|, i requires 0 <= i < |s| => s[i] as int)
  }

  /** What is trimmed are the encodings of exactly these code points. */
  lemma {:induction false} SpacesAreUnicode(s: string)
    ensures IsSpaceEncoding(s) <==> exists r: nat :: r < 0x1_0000 && IsWhiteSpace(r) && Bytes(s) == Utf8(r)
  {
    if IsSpaceEncoding(s) {
      var r := CodePoint(s);
    }
    forall r: nat | r < 0x1_0000 && IsWhiteSpace(r) && Bytes(s) == Utf8(r) ensures IsSpaceEncoding(s) {
      WhiteSpaceIsSpace(s, r);
    }
  }

  lemma CodePoint(s: string) returns (r: nat)
    requires IsSpaceEncoding(s)
    ensures r < 0x1_0000 && IsWhiteSpace(r) && Bytes(s) == Utf8(r)
  {
    r := if |s| == 1 then s[0] as int
      else if |s| == 2 then s[1] as int
      else (s[0] as int - 0xe0) * 4096 + (s[1] as int - 0x80) * 64 + (s[2] as int - 0x80);
  }

  lemma WhiteSpaceIsSpace(s: string, r: nat)
    requires r < 0x1_0000 && IsWhiteSpace(r) && Bytes(s) == Utf8(r)
    ensures IsSpaceEncoding(s)
  {
    assert |s| == |Utf8(r)|;
    assert forall i :: 0 <= i < |s| ==> s[i] as int == Utf8(r)[i];
  }
}
