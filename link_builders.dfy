/** The computed tracking-link builder: the affiliate click URL assembled from
    the advertiser id, the publisher id and the percent-encoded destination,
    with the optional click reference. */
module LinkBuilders {
  import opened Models
  import opened Text

  newtype byte = x: int | 0 <= x < 256

  // ---------------------------------------------------------------------
  // Uri.EscapeDataString: UTF-8, then every byte outside the unreserved set
  // of RFC 3986 (section 2.3) written as '%' and two upper-case hex digits.

  predicate IsUnreserved(c: char) {
    ('A' <= c <= 'Z') || ('a' <= c <= 'z') || ('0' <= c <= '9') || c == '-' || c == '_' || c == '.' || c == '~'
  }

  /** UTF-8 encoding of one Unicode scalar value (RFC 3629, section 3). */
  function Utf8(c: char): (bs: seq<byte>)
    ensures 1 <= |bs| <= 4
  {
    var cp := c as int;
    if cp < 0x80 then [cp as byte]
    else if cp < 0x800 then [(0xC0 + cp / 0x40) as byte, (0x80 + cp % 0x40) as byte]
    else if cp < 0x10000 then
      [(0xE0 + cp / 0x1000) as byte, (0x80 + cp / 0x40 % 0x40) as byte, (0x80 + cp % 0x40) as byte]
    else
      [(0xF0 + cp / 0x40000) as byte, (0x80 + cp / 0x1000 % 0x40) as byte,
       (0x80 + cp / 0x40 % 0x40) as byte, (0x80 + cp % 0x40) as byte]
  }

  function Utf8Encode(s: string): seq<byte> {
    if s == [] then [] else Utf8(s[0]) + Utf8Encode(s[1..])
  }

  /** An upper-case hex digit. */
  function HexDigit(n: int): (c: char)
    requires 0 <= n < 16
    ensures IsUnreserved(c) && IsHexDigit(c) && HexValue(c) == n
  {
    if n < 10 then ('0' as int + n) as char else ('A' as int + n - 10) as char
  }

  predicate IsHexDigit(c: char) {
    ('0' <= c <= '9') || ('A' <= c <= 'F') || ('a' <= c <= 'f')
  }

  function HexValue(c: char): (n: int)
    requires IsHexDigit(c)
    ensures 0 <= n < 16
  {
    if '0' <= c <= '9' then c as int - '0' as int
    else if 'A' <= c <= 'F' then c as int - 'A' as int + 10
    else c as int - 'a' as int + 10
  }

  /** Each byte as '%' and two hex digits. */
  function Percents(bs: seq<byte>): string {
    if bs == [] then []
    else ['%', HexDigit(bs[0] as int / 16), HexDigit(bs[0] as int % 16)] + Percents(bs[1..])
  }

  function EscapeChar(c: char): string {
    if IsUnreserved(c) then [c] else Percents(Utf8(c))
  }

  function EscapeDataString(s: string): string {
    if s == [] then [] else EscapeChar(s[0]) + EscapeDataString(s[1..])
  }

  /** The characters an escaped text is made of. */
  predicate EscapedAlphabet(s: string) {
    forall i :: 0 <= i < |s| ==> IsUnreserved(s[i]) || s[i] == '%'
  }

  /** Percent-decoding to bytes: the inverse the escaping is measured against. */
  function Unescape(s: string): Option<seq<byte>>
    decreases |s|
  {
    if s == [] then Some([])
    else if s[0] == '%' then
      if |s| >= 3 && IsHexDigit(s[1]) && IsHexDigit(s[2])
      then Prepend([(HexValue(s[1]) * 16 + HexValue(s[2])) as byte], Unescape(s[3..]))
      else None
    else if IsUnreserved(s[0]) then Prepend([s[0] as int as byte], Unescape(s[1..]))
    else None
  }

  function Prepend(bs: seq<byte>, o: Option<seq<byte>>): Option<seq<byte>> {
    match o
    case Some(rest) => Some(bs + rest)
    case None => None
  }

  lemma {:induction false} PercentsAlphabet(bs: seq<byte>)
    ensures EscapedAlphabet(Percents(bs))
    ensures |Percents(bs)| == 3 * |bs|
  {
    if bs != [] {
      PercentsAlphabet(bs[1..]);
    }
  }

  lemma EscapedAlphabetConcat(a: string, b: string)
    requires EscapedAlphabet(a) && EscapedAlphabet(b)
    ensures EscapedAlphabet(a + b)
  {
    forall i | 0 <= i < |a + b| ensures IsUnreserved((a + b)[i]) || (a + b)[i] == '%' {
      if i >= |a| {
        assert (a + b)[i] == b[i - |a|];
      }
    }
  }

  /** Escaped text holds only unreserved characters, '%' and hex digits, so
      none of the delimiters of a query string. */
  lemma {:induction false} EscapeDataStringAlphabet(s: string)
    ensures EscapedAlphabet(EscapeDataString(s))
    ensures '&' !in EscapeDataString(s) && '=' !in EscapeDataString(s)
    ensures '#' !in EscapeDataString(s) && '?' !in EscapeDataString(s)
  {
    if s != [] {
      EscapeDataStringAlphabet(s[1..]);
      PercentsAlphabet(Utf8(s[0]));
      EscapedAlphabetConcat(EscapeChar(s[0]), EscapeDataString(s[1..]));
    }
    var r := EscapeDataString(s);
    assert forall i :: 0 <= i < |r| ==> IsUnreserved(r[i]) || r[i] == '%';
  }

  lemma HexRoundTrip(b: byte)
    ensures IsHexDigit(HexDigit(b as int / 16)) && IsHexDigit(HexDigit(b as int % 16))
    ensures (HexValue(HexDigit(b as int / 16)) * 16 + HexValue(HexDigit(b as int % 16))) as byte == b
  {
    var hi, lo := b as int / 16, b as int % 16;
    assert HexValue(HexDigit(hi)) == hi;
    assert HexValue(HexDigit(lo)) == lo;
  }

  lemma {:induction false} UnescapePercents(bs: seq<byte>, rest: string)
    ensures Unescape(Percents(bs) + rest) == Prepend(bs, Unescape(rest))
    decreases |bs|
  {
    if bs == [] {
      assert Percents(bs) + rest == rest;
      match Unescape(rest) {
        case Some(x) => assert bs + x == x;
        case None =>
      }
    } else {
      var t := Percents(bs) + rest;
      HexRoundTrip(bs[0]);
      assert t[3..] == Percents(bs[1..]) + rest;
      UnescapePercents(bs[1..], rest);
      match Unescape(rest) {
        case Some(x) => assert [bs[0]] + (bs[1..] + x) == bs + x;
        case None =>
      }
    }
  }

  /** Percent-decoding an escaped text gives back the UTF-8 bytes of the original. */
  lemma {:induction false} EscapeDataStringRoundTrip(s: string)
    ensures Unescape(EscapeDataString(s)) == Some(Utf8Encode(s))
  {
    if s != [] {
      var c, tail := s[0], s[1..];
      EscapeDataStringRoundTrip(tail);
      if IsUnreserved(c) {
        assert EscapeDataString(s) == [c] + EscapeDataString(tail);
        assert ([c] + EscapeDataString(tail))[1..] == EscapeDataString(tail);
      } else {
        UnescapePercents(Utf8(c), EscapeDataString(tail));
      }
    }
  }

  // ---------------------------------------------------------------------
  // Query strings

  const CreadBase := "https://www.awin1.com/cread.php?"

  /** The query split at '&'. */
  function SplitAmp(s: string): seq<string>
    decreases |s|
  {
    var i := FirstIndex(s, '&');
    if i == |s| then [s] else [s[..i]] + SplitAmp(s[i + 1..])
  }

  function JoinAmp(segs: seq<string>): string
    requires |segs| >= 1
  {
    if |segs| == 1 then segs[0] else segs[0] + "&" + JoinAmp(segs[1..])
  }

  lemma JoinAmp3(a: string, b: string, c: string)
    ensures JoinAmp([a, b, c]) == a + "&" + (b + "&" + c)
  {
    assert [a, b, c][1..] == [b, c] && [b, c][1..] == [c];
    assert JoinAmp([b, c]) == b + "&" + c;
  }

  lemma JoinAmp4(a: string, b: string, c: string, d: string)
    ensures JoinAmp([a, b, c, d]) == a + "&" + (b + "&" + (c + "&" + d))
  {
    assert [a, b, c, d][1..] == [b, c, d];
    JoinAmp3(b, c, d);
  }

  /** Regrouping a left-nested chain of three name/value parameters. */
  lemma Rebracket3(base: string, k1: string, v1: string, k2: string, v2: string, k3: string, v3: string)
    ensures base + k1 + v1 + "&" + k2 + v2 + "&" + k3 + v3 == base + ((k1 + v1) + "&" + ((k2 + v2) + "&" + (k3 + v3)))
  {
  }

  lemma Rebracket4(base: string, k1: string, v1: string, k2: string, v2: string, k3: string, v3: string,
                   k4: string, v4: string)
    ensures base + k1 + v1 + "&" + k2 + v2 + "&" + k3 + v3 + "&" + k4 + v4
            == base + ((k1 + v1) + "&" + ((k2 + v2) + "&" + ((k3 + v3) + "&" + (k4 + v4))))
  {
    Rebracket3(base, k1, v1, k2, v2, k3, v3);
  }

  /** Splitting undoes joining when no segment holds '&'. */
  lemma {:induction false} SplitJoinAmp(segs: seq<string>)
    requires |segs| >= 1
    requires forall k :: 0 <= k < |segs| ==> '&' !in segs[k]
    ensures SplitAmp(JoinAmp(segs)) == segs
  {
    if |segs| > 1 {
      var rest := JoinAmp(segs[1..]);
      FirstIndexAfterPrefix(segs[0], '&', rest);
      var s := segs[0] + "&" + rest;
      assert s == segs[0] + ['&'] + rest;
      assert s[..|segs[0]|] == segs[0];
      assert s[|segs[0]| + 1..] == rest;
      SplitJoinAmp(segs[1..]);
      assert [segs[0]] + segs[1..] == segs;
    } else {
      assert FirstIndex(segs[0], '&') == |segs[0]|;
    }
  }

  // ---------------------------------------------------------------------
  // The builder

  datatype ComputedLinkBuilder = ComputedLinkBuilder(publisherId: string)
  {
    /** The tracking link: advertiser, publisher and escaped destination, and an
        escaped click reference when one is given. */
    function BuildTrackingLink(advertiserId: int, destinationUrl: string, clickRef: Option<string>): string {
      var link := CreadBase + "awinmid=" + IntToString(advertiserId) + "&" + "awinaffid=" + publisherId
                  + "&" + "ued=" + EscapeDataString(destinationUrl);
      if !IsNullOrEmpty(clickRef) then link + "&" + "clickref=" + EscapeDataString(clickRef.value) else link
    }

    /** The query parameters of the link as a caller reads them back. */
    function Parameters(advertiserId: int, destinationUrl: string, clickRef: Option<string>): seq<string> {
      ["awinmid=" + IntToString(advertiserId), "awinaffid=" + publisherId, "ued=" + EscapeDataString(destinationUrl)]
      + if IsNullOrEmpty(clickRef) then [] else ["clickref=" + EscapeDataString(clickRef.value)]
    }

    /** The link is the cread endpoint followed by its parameters joined with '&'. */
    lemma TrackingLinkIsJoin(advertiserId: int, destinationUrl: string, clickRef: Option<string>)
      ensures BuildTrackingLink(advertiserId, destinationUrl, clickRef) ==
                CreadBase + JoinAmp(Parameters(advertiserId, destinationUrl, clickRef))
    {
      var v1, v3 := IntToString(advertiserId), EscapeDataString(destinationUrl);
      var p1, p2, p3 := "awinmid=" + v1, "awinaffid=" + publisherId, "ued=" + v3;
      Rebracket3(CreadBase, "awinmid=", v1, "awinaffid=", publisherId, "ued=", v3);
      if IsNullOrEmpty(clickRef) {
        assert Parameters(advertiserId, destinationUrl, clickRef) == [p1, p2, p3];
        JoinAmp3(p1, p2, p3);
      } else {
        var v4 := EscapeDataString(clickRef.value);
        assert Parameters(advertiserId, destinationUrl, clickRef) == [p1, p2, p3, "clickref=" + v4];
        Rebracket4(CreadBase, "awinmid=", v1, "awinaffid=", publisherId, "ued=", v3, "clickref=", v4);
        JoinAmp4(p1, p2, p3, "clickref=" + v4);
      }
    }

    /** The link is the cread endpoint followed by exactly the four (or three)
        parameters, in order; the destination parameter decodes to the
        destination's bytes. Holds when the configured publisher id has no '&'. */
    lemma TrackingLinkParameters(advertiserId: int, destinationUrl: string, clickRef: Option<string>)
      requires '&' !in publisherId
      ensures var link := BuildTrackingLink(advertiserId, destinationUrl, clickRef);
        && |link| >= |CreadBase| && link[..|CreadBase|] == CreadBase
        && SplitAmp(link[|CreadBase|..]) == Parameters(advertiserId, destinationUrl, clickRef)
      ensures Unescape(EscapeDataString(destinationUrl)) == Some(Utf8Encode(destinationUrl))
      ensures clickRef.Some? && clickRef.value != "" ==>
                Unescape(EscapeDataString(clickRef.value)) == Some(Utf8Encode(clickRef.value))
    {
      var segs := Parameters(advertiserId, destinationUrl, clickRef);
      IntToStringIsNumeral(advertiserId);
      EscapeDataStringAlphabet(destinationUrl);
      EscapeDataStringRoundTrip(destinationUrl);
      if !IsNullOrEmpty(clickRef) {
        EscapeDataStringAlphabet(clickRef.value);
        EscapeDataStringRoundTrip(clickRef.value);
      }
      ParametersHaveNoAmp(advertiserId, destinationUrl, clickRef);
      TrackingLinkIsJoin(advertiserId, destinationUrl, clickRef);
      var link := BuildTrackingLink(advertiserId, destinationUrl, clickRef);
      assert link[..|CreadBase|] == CreadBase;
      assert link[|CreadBase|..] == JoinAmp(segs);
      SplitJoinAmp(segs);
    }

    lemma ParametersHaveNoAmp(advertiserId: int, destinationUrl: string, clickRef: Option<string>)
      requires '&' !in publisherId
      ensures var segs := Parameters(advertiserId, destinationUrl, clickRef);
        forall k :: 0 <= k < |segs| ==> '&' !in segs[k]
    {
      IntToStringIsNumeral(advertiserId);
      EscapeDataStringAlphabet(destinationUrl);
      var segs := Parameters(advertiserId, destinationUrl, clickRef);
      assert '&' !in "awinmid=" && '&' !in "awinaffid=" && '&' !in "ued=";
      if !IsNullOrEmpty(clickRef) {
        EscapeDataStringAlphabet(clickRef.value);
        assert '&' !in "clickref=";
      }
    }

    /** BuildTrackingLinksBatchAsync: one link per distinct URL, built without a
        click reference. */
    method BuildTrackingLinksBatch(advertiserId: int, destinationUrls: seq<string>) returns (result: map<string, string>)
      ensures result.Keys == set u | u in destinationUrls
      ensures forall u :: u in result ==> result[u] == BuildTrackingLink(advertiserId, u, None)
    {
      result := map[];
      for i := 0 to |destinationUrls|
        invariant result.Keys == set u | u in destinationUrls[..i]
        invariant forall u :: u in result ==> result[u] == BuildTrackingLink(advertiserId, u, None)
      {
        var url := destinationUrls[i];
        assert destinationUrls[..i + 1] == destinationUrls[..i] + [url];
        result := result[url := BuildTrackingLink(advertiserId, url, None)];
      }
      assert destinationUrls[..|destinationUrls|] == destinationUrls;
    }

    /** The name recorded as each product's tracking-URL source. */
    function GetSource(): string {
      "computed"
    }
  }

  lemma {:induction false} EscapeConcat(a: string, b: string)
    ensures EscapeDataString(a + b) == EscapeDataString(a) + EscapeDataString(b)
  {
    if a != [] {
      assert (a + b)[1..] == a[1..] + b;
      EscapeConcat(a[1..], b);
    } else {
      assert a + b == b;
    }
  }

  lemma {:induction false} EscapeKeepsUnreserved(s: string)
    requires forall i :: 0 <= i < |s| ==> IsUnreserved(s[i])
    ensures EscapeDataString(s) == s
  {
    if s != [] {
      EscapeKeepsUnreserved(s[1..]);
    }
  }

  /** The characters of the repository's example destination that are escaped:
      ':' and '/' (letters and '.' are kept, by EscapeKeepsUnreserved). */
  lemma EscapesColonAndSlash()
    ensures EscapeDataString(":") == "%3A"
    ensures EscapeDataString("/") == "%2F"
  {
    assert Utf8(':') == [0x3A];
    assert HexDigit(3) == '3' && HexDigit(10) == 'A';
    assert Utf8('/') == [0x2F];
    assert HexDigit(2) == '2' && HexDigit(15) == 'F';
  }
}
