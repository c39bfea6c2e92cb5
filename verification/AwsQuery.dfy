/** Percent-encoding and the canonical query string of request signing
    (internal/platform/storage/s3.go). A string is its bytes: characters below 256. */
module AwsQuery {
  import opened Wrappers

  predicate IsBytes(s: string) {
    forall i :: 0 <= i < |s| ==> s[i] as int < 256
  }

  /** The unreserved characters of section 2.3 of RFC 3986. */
  predicate Unreserved(c: char) {
    'a' <= c <= 'z' || 'A' <= c <= 'Z' || '0' <= c <= '9' || c == '-' || c == '_' || c == '.' || c == '~'
  }

  function HexDigit(n: nat): (c: char)
    requires n < 16
    ensures '0' <= c <= '9' || 'A' <= c <= 'F'
  {
    if n < 10 then ('0' as int + n) as char else ('A' as int + n - 10) as char
  }

  function HexValue(c: char): Option<nat> {
    if '0' <= c <= '9' then Some(c as int - '0' as int)
    else if 'A' <= c <= 'F' then Some(c as int - 'A' as int + 10)
    else if 'a' <= c <= 'f' then Some(c as int - 'a' as int + 10)
    else None
  }

  /** Section 2.1 of RFC 3986, upper case. */
  function Percent(c: char): (s: string)
    requires c as int < 256
    ensures |s| == 3 && s[0] == '%'
  {
    ['%', HexDigit(c as int / 16), HexDigit(c as int % 16)]
  }

  // ---- What the program computes ------------------------------------------------

  function Escape(c: char): string
    requires c as int < 256
  {
    if Unreserved(c) then [c] else if c == ' ' then "+" else Percent(c)
  }

  /** url.QueryEscape. */
  function QueryEscape(s: string): string
    requires IsBytes(s)
  {
    if s == "" then "" else Escape(s[0]) + QueryEscape(s[1..])
  }

  /** strings.ReplaceAll for a non-empty pattern. */
  function ReplaceAll(s: string, old0: string, new0: string): string
    requires old0 != ""
    decreases |s|
  {
    if |s| < |old0| then s
    else if s[..|old0|] == old0 then new0 + ReplaceAll(s[|old0|..], old0, new0)
    else [s[0]] + ReplaceAll(s[1..], old0, new0)
  }

  function AwsEncode(s: string): string
    requires IsBytes(s)
  {
    ReplaceAll(ReplaceAll(ReplaceAll(QueryEscape(s), "+", "%20"), "*", "%2A"), "%7E", "~")
  }

  // ---- What it is meant to be ------------------------------------------------------

  function EncodeChar(c: char): string
    requires c as int < 256
  {
    if Unreserved(c) then [c] else Percent(c)
  }

  /** Byte-wise percent-encoding that leaves only the unreserved characters. */
  function PercentEncode(s: string): string
    requires IsBytes(s)
  {
    if s == "" then "" else EncodeChar(s[0]) + PercentEncode(s[1..])
  }

  function PercentDecode(s: string): Option<string> {
    if s == "" then Some("")
    else if s[0] != '%' then Prepend(s[0], PercentDecode(s[1..]))
    else if |s| >= 3 && HexValue(s[1]).Some? && HexValue(s[2]).Some? then
      Prepend((HexValue(s[1]).value * 16 + HexValue(s[2]).value) as char, PercentDecode(s[3..]))
    else None
  }

  function Prepend(c: char, s: Option<string>): Option<string> {
    if s.Some? then Some([c] + s.value) else None
  }

  /** What an encoded string is made of. */
  predicate Plain(c: char) {
    Unreserved(c) || c == '%'
  }

  ghost predicate AllPlain(s: string) {
    forall i :: 0 <= i < |s| ==> Plain(s[i])
  }

  // ---- The chained replacements are the encoding --------------------------------------

  /** The first replacement turns the escape of one character into its encoding. */
  lemma {:induction false} PlusReplaced(s: string)
    requires IsBytes(s)
    ensures ReplaceAll(QueryEscape(s), "+", "%20") == PercentEncode(s)
  {
    if s != "" {
      var rest := QueryEscape(s[1..]);
      PlusReplaced(s[1..]);
      if Unreserved(s[0]) {
        SkipsOne(s[0], rest, "+", "%20");
      } else if s[0] == ' ' {
        assert ("+" + rest)[..1] == "+" && ("+" + rest)[1..] == rest;
        assert Percent(' ') == "%20";
      } else {
        SkipsPercent(s[0], rest, "+", "%20");
      }
    }
  }

  /** A character at which the pattern does not start is copied. */
  lemma SkipsHead(c: char, rest: string, old0: string, new0: string)
    requires old0 != "" && !(old0 <= [c] + rest)
    ensures ReplaceAll([c] + rest, old0, new0) == [c] + ReplaceAll(rest, old0, new0)
  {}

  lemma SkipsOne(c: char, rest: string, old0: string, new0: string)
    requires old0 != "" && c != old0[0]
    ensures ReplaceAll([c] + rest, old0, new0) == [c] + ReplaceAll(rest, old0, new0)
  {}

  lemma ThreeThen(a: char, b: char, c: char, rest: string)
    ensures [a, b, c] + rest == [a] + ([b] + ([c] + rest))
  {}

  /** A pattern that neither starts inside nor is the encoded byte skips over it. */
  lemma SkipsPercent(c: char, rest: string, old0: string, new0: string)
    requires c as int < 256 && old0 != ""
    requires !('0' <= old0[0] <= '9') && !('A' <= old0[0] <= 'F')
    requires old0[0] == '%' ==> |old0| == 3 && old0 != Percent(c)
    ensures ReplaceAll(Percent(c) + rest, old0, new0) == Percent(c) + ReplaceAll(rest, old0, new0)
  {
    var h, l := HexDigit(c as int / 16), HexDigit(c as int % 16);
    SkipsOne(l, rest, old0, new0);
    SkipsOne(h, [l] + rest, old0, new0);
    ThreeThen('%', h, l, rest);
    ThreeThen('%', h, l, ReplaceAll(rest, old0, new0));
    assert ([h] + ([l] + rest))[..2] == [h, l];
    assert |old0| == 3 ==> old0 == [old0[0], old0[1], old0[2]];
    SkipsHead('%', [h] + ([l] + rest), old0, new0);
  }

  /** The other two replacements find nothing. */
  lemma {:induction false} NothingLeftToReplace(s: string, old0: string, new0: string)
    requires IsBytes(s) && old0 != "" && !Unreserved(old0[0])
    requires old0[0] == '%' ==> |old0| == 3 && forall c: char :: c as int < 256 && !Unreserved(c) ==> old0 != Percent(c)
    ensures ReplaceAll(PercentEncode(s), old0, new0) == PercentEncode(s)
  {
    if s != "" {
      NothingLeftToReplace(s[1..], old0, new0);
      if Unreserved(s[0]) {
        SkipsOne(s[0], PercentEncode(s[1..]), old0, new0);
      } else {
        SkipsPercent(s[0], PercentEncode(s[1..]), old0, new0);
      }
    }
  }

  lemma OnlyTildeIs7E(c: char)
    requires c as int < 256 && Percent(c) == "%7E"
    ensures c == '~'
  {}

  /** awsEncode is byte-wise percent-encoding with only the unreserved characters left alone. */
  lemma AwsEncodeIsPercentEncode(s: string)
    requires IsBytes(s)
    ensures AwsEncode(s) == PercentEncode(s)
  {
    PlusReplaced(s);
    NothingLeftToReplace(s, "*", "%2A");
    forall c: char | c as int < 256 && !Unreserved(c) ensures "%7E" != Percent(c) {
      if "%7E" == Percent(c) {
        OnlyTildeIs7E(c);
      }
    }
    NothingLeftToReplace(s, "%7E", "~");
  }

  // ---- Decoding ---------------------------------------------------------------------------

  lemma DecodeOne(c: char, rest: string)
    requires c as int < 256
    ensures PercentDecode(EncodeChar(c) + rest) == Prepend(c, PercentDecode(rest))
  {}

  /** Percent-decoding undoes the encoding. */
  lemma {:induction false} DecodeEncode(s: string)
    requires IsBytes(s)
    ensures PercentDecode(PercentEncode(s)) == Some(s)
  {
    if s != "" {
      DecodeOne(s[0], PercentEncode(s[1..]));
      DecodeEncode(s[1..]);
      assert s == [s[0]] + s[1..];
    }
  }

  /** awsEncode can be undone, so different strings have different encodings. */
  lemma AwsEncodeInjective(a: string, b: string)
    requires IsBytes(a) && IsBytes(b)
    ensures PercentDecode(AwsEncode(a)) == Some(a)
    ensures AwsEncode(a) == AwsEncode(b) <==> a == b
  {
    AwsEncodeIsPercentEncode(a);
    AwsEncodeIsPercentEncode(b);
    DecodeEncode(a);
    DecodeEncode(b);
  }

  lemma {:induction false} EncodedIsPlain(s: string)
    requires IsBytes(s)
    ensures AllPlain(PercentEncode(s))
  {
    if s != "" {
      EncodedIsPlain(s[1..]);
    }
  }
}
