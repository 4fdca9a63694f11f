/**
Playback tokens: fields joined with slashes, encrypted, and written in unpadded base64url (section 5 of RFC
4648).
*/
module Tokens {
  import opened Collections

  type Byte = x: int | 0 <= x < 256
  type Sextet = x: int | 0 <= x < 64

  // ---------------------------------------------------------------- base64

  /** The standard alphabet; 62 is '+' and 63 is '/'. */
  function Digit(x: Sextet): char {
    if x < 26 then 'A' + x as char
    else if x < 52 then 'a' + (x - 26) as char
    else if x < 62 then '0' + (x - 52) as char
    else if x == 62 then '+' else '/'
  }

  // The value of a character, or -1 for one that decoding skips.
  function Value(c: char): int {
    if 'A' <= c <= 'Z' then c as int - 'A' as int
    else if 'a' <= c <= 'z' then c as int - 'a' as int + 26
    else if '0' <= c <= '9' then c as int - '0' as int + 52
    else if c == '+' then 62 else if c == '/' then 63 else -1
  }

  function Sextets(b: seq<Byte>): seq<Sextet> {
    if |b| == 0 then []
    else if |b| == 1 then [b[0] / 4, b[0] % 4 * 16]
    else if |b| == 2 then [b[0] / 4, b[0] % 4 * 16 + b[1] / 16, b[1] % 16 * 4]
    else [b[0] / 4, b[0] % 4 * 16 + b[1] / 16, b[1] % 16 * 4 + b[2] / 64, b[2] % 64] + Sextets(b[3..])
  }

  function Digits(s: seq<Sextet>): (r: string)
    ensures |r| == |s| && forall i :: 0 <= i < |s| ==> r[i] == Digit(s[i])
  {
    seq(|s|, i requires 0 <= i < |s| => Digit(s[i]))
  }

  function Padding(n: nat): string { if n % 3 == 1 then "==" else if n % 3 == 2 then "=" else "" }

  function Base64Encode(b: seq<Byte>): string { Digits(Sextets(b)) + Padding(|b|) }

  /** Decoding skips what is not in the alphabet, padding included. */
  function Values(s: string): seq<Sextet> {
    if s == [] then []
    else if Value(s[0]) < 0 then Values(s[1..]) else [Value(s[0])] + Values(s[1..])
  }

  /** Four digits give three bytes; of an incomplete group only the whole bytes count. */
  function Bytes(s: seq<Sextet>): seq<Byte> {
    if |s| < 2 then []
    else if |s| == 2 then [First(s[0], s[1])]
    else if |s| == 3 then [First(s[0], s[1]), Second(s[1], s[2])]
    else [First(s[0], s[1]), Second(s[1], s[2]), Third(s[2], s[3])] + Bytes(s[4..])
  }

  function First(a: int, b: int): int { a * 4 + b / 16 }
  function Second(a: int, b: int): int { a % 16 * 16 + b / 4 }
  function Third(a: int, b: int): int { a % 4 * 64 + b }

  function Base64Decode(s: string): seq<Byte> { Bytes(Values(s)) }

  function Partner(ch: char, from: string, to: string): char
    requires |from| == |to| == 2
  {
    if ch == from[0] then to[0] else if ch == from[1] then to[1] else ch
  }

  /** strtr: every character of one list is replaced by its partner. */
  function Translated(s: string, from: string, to: string): (r: string)
    requires |from| == |to| == 2
    ensures |r| == |s|
    ensures forall i :: 0 <= i < |s| ==> r[i] == Partner(s[i], from, to)
  {
    seq(|s|, i requires 0 <= i < |s| => Partner(s[i], from, to))
  }

  function RightTrimmed(s: string, c: char): string {
    if s != [] && s[|s| - 1] == c then RightTrimmed(s[..|s| - 1], c) else s
  }

  function UrlEncode(b: seq<Byte>): string { RightTrimmed(Translated(Base64Encode(b), "+/", "-_"), '=') }

  function UrlDecode(s: string): seq<Byte> { Base64Decode(Translated(s, "-_", "+/")) }

  // ---------------------------------------------------------------- the round trip

  lemma DigitIsRead(x: Sextet)
    ensures Value(Digit(x)) == x && Digit(x) != '=' && Digit(x) != '-' && Digit(x) != '_'
  {
  }

  lemma {:induction false} SextetsAreRead(b: seq<Byte>)
    ensures Bytes(Sextets(b)) == b
  {
    if |b| >= 3 {
      SextetsAreRead(b[3..]);
      var s := Sextets(b);
      assert s[4..] == Sextets(b[3..]);
      assert b == [b[0], b[1], b[2]] + b[3..];
    }
  }

  lemma {:induction false} DigitsAreRead(s: seq<Sextet>)
    ensures Values(Digits(s)) == s
  {
    if s != [] {
      DigitIsRead(s[0]);
      assert Digits(s)[1..] == Digits(s[1..]);
      DigitsAreRead(s[1..]);
      assert s == [s[0]] + s[1..];
    }
  }

  lemma {:induction false} TrimmingDrops(s: string, n: nat)
    requires s == [] || s[|s| - 1] != '='
    ensures RightTrimmed(s + seq(n, _ => '='), '=') == s
  {
    var t := s + seq(n, _ => '=');
    if n == 0 {
      assert t == s;
    } else {
      assert t[..|t| - 1] == s + seq(n - 1, _ => '=');
      TrimmingDrops(s, n - 1);
    }
  }

  /** The encoder writes the digits with their two url-safe replacements and nothing else. */
  lemma UrlEncodeIs(b: seq<Byte>)
    ensures UrlEncode(b) == Translated(Digits(Sextets(b)), "+/", "-_")
  {
    var d := Digits(Sextets(b));
    var n := |Padding(|b|)|;
    assert Padding(|b|) == seq(n, _ => '=');
    assert Translated(Base64Encode(b), "+/", "-_") == Translated(d, "+/", "-_") + seq(n, _ => '=');
    if d != [] { DigitIsRead(Sextets(b)[|d| - 1]); }
    TrimmingDrops(Translated(d, "+/", "-_"), n);
  }

  /** Every byte string survives, and no character of the code has a meaning in a URL path or query. */
  lemma UrlRoundTrip(b: seq<Byte>)
    ensures UrlDecode(UrlEncode(b)) == b
    ensures forall c :: c in UrlEncode(b) ==> c != '/' && c != '+' && c != '='
  {
    var d := Digits(Sextets(b));
    UrlEncodeIs(b);
    forall i | 0 <= i < |d| ensures d[i] != '=' && d[i] != '-' && d[i] != '_' { DigitIsRead(Sextets(b)[i]); }
    assert Translated(Translated(d, "+/", "-_"), "-_", "+/") == d;
    DigitsAreRead(Sextets(b));
    SextetsAreRead(b);
  }

  /** The alphabet of section 4 of RFC 4648: capitals, small letters, digits, plus and slash. */
  lemma AlphabetIs(x: Sextet)
    ensures Digit(0) == 'A' && Digit(25) == 'Z' && Digit(26) == 'a' && Digit(51) == 'z'
    ensures Digit(52) == '0' && Digit(61) == '9' && Digit(62) == '+' && Digit(63) == '/'
    ensures x < 61 && x != 25 && x != 51 ==> Digit(x + 1) as int == Digit(x) as int + 1
  {
  }

  /** Padding fills up the last group of four digits, for any number of bytes. */
  lemma {:induction false} PaddingMakesFours(b: seq<Byte>)
    ensures |Base64Encode(b)| % 4 == 0 && |Padding(|b|)| <= 2
  {
    if |b| >= 3 {
      PaddingMakesFours(b[3..]);
      assert |Sextets(b)| == 4 + |Sextets(b[3..])|;
      assert Padding(|b|) == Padding(|b[3..]|);
    }
  }

  /** One, two and three bytes: the padding of section 4 of RFC 4648, and its absence in a URL. */
  lemma PaddingIs(a: Byte, b: Byte, c: Byte)
    ensures |Base64Encode([a])| == 4 && Base64Encode([a])[2..] == "=="
    ensures |Base64Encode([a, b])| == 4 && Base64Encode([a, b])[3] == '=' && Base64Encode([a, b])[2] != '='
    ensures |Base64Encode([a, b, c])| == 4 && Base64Encode([a, b, c])[3] != '='
    ensures |UrlEncode([a])| == 2 && |UrlEncode([a, b])| == 3 && |UrlEncode([a, b, c])| == 4
  {
    UrlEncodeIs([a]);
    UrlEncodeIs([a, b]);
    UrlEncodeIs([a, b, c]);
    var s := Sextets([a, b, c]);
    assert [a, b, c][3..] == [];
    assert |s| == 4;
    DigitIsRead(s[3]);
    DigitIsRead(Sextets([a, b])[2]);
  }

  // ---------------------------------------------------------------- fields

  function Joined(fields: seq<string>): string {
    if fields == [] then "" else if |fields| == 1 then fields[0] else fields[0] + "/" + Joined(fields[1..])
  }

  /** explode: the pieces between slashes, at least one. */
  function Exploded(s: string): (r: seq<string>)
    ensures r != [] && forall f :: f in r ==> '/' !in f
  {
    if s == [] then [""]
    else if s[0] == '/' then [""] + Exploded(s[1..])
    else
      var rest := Exploded(s[1..]);
      assert rest[0] in rest;
      [[s[0]] + rest[0]] + rest[1..]
  }

  predicate NoSlash(fields: seq<string>) { forall f :: f in fields ==> '/' !in f }

  lemma {:induction false} ExplodeField(f: string, rest: string)
    requires '/' !in f
    ensures Exploded(f + "/" + rest) == [f] + Exploded(rest)
    ensures Exploded(f) == [f]
  {
    if f == [] {
      assert f + "/" + rest == "/" + rest;
      assert ("/" + rest)[1..] == rest;
    } else {
      ExplodeField(f[1..], rest);
      assert (f + "/" + rest)[1..] == f[1..] + "/" + rest;
      assert [f[0]] + f[1..] == f;
    }
  }

  lemma {:induction false} ExplodeJoined(fields: seq<string>)
    requires fields != [] && NoSlash(fields)
    ensures Exploded(Joined(fields)) == fields
  {
    assert fields[0] in fields;
    if |fields| == 1 {
      ExplodeField(fields[0], "");
    } else {
      ExplodeJoined(fields[1..]);
      ExplodeField(fields[0], Joined(fields[1..]));
      assert fields == [fields[0]] + fields[1..];
    }
  }

  // ---------------------------------------------------------------- encryption, abstractly

  // A cipher under a fixed key; what is encrypted decrypts to itself.
  datatype Cipher = Cipher(encrypt: string -> seq<Byte>, decrypt: seq<Byte> -> string)

  ghost predicate Inverse(c: Cipher) { forall s :: c.decrypt(c.encrypt(s)) == s }

  function Printed(c: Cipher, fields: seq<string>): string { UrlEncode(c.encrypt(Joined(fields))) }

  function Parsed(c: Cipher, token: string): seq<string> { Exploded(c.decrypt(UrlDecode(token))) }

  lemma PrintedIsParsed(c: Cipher, fields: seq<string>)
    requires Inverse(c) && fields != []
    ensures Parsed(c, Printed(c, fields)) == Exploded(Joined(fields))
    ensures NoSlash(fields) ==> Parsed(c, Printed(c, fields)) == fields
  {
    UrlRoundTrip(c.encrypt(Joined(fields)));
    if NoSlash(fields) { ExplodeJoined(fields); }
  }

  // ---------------------------------------------------------------- segment tokens

  datatype Segment = Segment(username: string, password: string, ip: string, stream: string, segment: string,
                             uuid: string, server: string, codec: string, onDemand: string)

  datatype SegmentRequest = Rejected | Archive(fields: seq<string>) | Live(s: Segment)

  function SegmentFields(s: Segment): seq<string> {
    [s.username, s.password, s.ip, s.stream, s.segment, s.uuid, s.server, s.codec, s.onDemand]
  }

  predicate Falsy(s: string) { s == "" || s == "0" }

  function Field(t: seq<string>, i: nat): string { if i < |t| then t[i] else "" }

  /** A token of too few fields or for another server is refused; a first field TS marks an archive token. */
  function ParseSegment(t: seq<string>, self: string): SegmentRequest {
    if |t| <= 6 then Rejected
    else
      var archive := t[0] == "TS";
      if (if archive then Field(t, 8) else t[6]) != self then Rejected
      else if archive then Archive(t)
      else Live(Segment(t[0], t[1], t[2], t[3], t[4], t[5], t[6],
                        if Falsy(Field(t, 7)) then "h264" else t[7], if Falsy(Field(t, 8)) then "0" else t[8]))
  }

  /** What a reader puts in for an empty codec or on-demand flag. */
  function Filled(s: Segment): Segment {
    s.(codec := if Falsy(s.codec) then "h264" else s.codec, onDemand := if Falsy(s.onDemand) then "0" else s.onDemand)
  }

  lemma ParsedSegmentHasNoSlash(t: seq<string>, s: Segment)
    requires NoSlash(t) && ParseSegment(t, s.server) == Live(Filled(s))
    ensures NoSlash(SegmentFields(s)) && s.username != "TS"
  {
    assert t[0] in t && t[1] in t && t[2] in t && t[3] in t && t[4] in t && t[5] in t && t[6] in t;
    assert 7 < |t| ==> t[7] in t;
    assert 8 < |t| ==> t[8] in t;
    var f := SegmentFields(s);
    assert forall i :: 0 <= i < |f| ==> '/' !in f[i];
  }

  /** A segment token comes back as it was if and only if no field contains a slash and the user is not called TS. */
  lemma SegmentRoundTripIff(c: Cipher, s: Segment)
    requires Inverse(c)
    ensures ParseSegment(Parsed(c, Printed(c, SegmentFields(s))), s.server) == Live(Filled(s))
       <==> NoSlash(SegmentFields(s)) && s.username != "TS"
  {
    var f := SegmentFields(s);
    PrintedIsParsed(c, f);
    var t := Exploded(Joined(f));
    if ParseSegment(t, s.server) == Live(Filled(s)) {
      ParsedSegmentHasNoSlash(t, s);
    }
  }

  /** Every other server refuses such a token. */
  lemma OtherServersRefuse(c: Cipher, s: Segment, self: string)
    requires Inverse(c) && NoSlash(SegmentFields(s)) && s.username != "TS" && self != s.server
    ensures ParseSegment(Parsed(c, Printed(c, SegmentFields(s))), self) == Rejected
  {
    PrintedIsParsed(c, SegmentFields(s));
  }

  /** A token is refused exactly if it has fewer than seven fields or names another server, in the field of its kind. */
  lemma RefusedIff(t: seq<string>, self: string)
    ensures ParseSegment(t, self).Rejected? <==>
              || |t| < 7
              || (t[0] != "TS" && t[6] != self)
              || (t[0] == "TS" && |t| >= 9 && t[8] != self)
              || (t[0] == "TS" && |t| < 9 && self != "")
    ensures ParseSegment(t, self).Archive? ==> t[0] == "TS"
  {
  }

  /** Every field is read from its place; codec and on-demand flag are filled in if they are missing, empty or zero. */
  lemma DefaultsAre(t: seq<string>, self: string)
    requires ParseSegment(t, self).Live?
    ensures var s := ParseSegment(t, self).s;
            && s.codec == (if |t| < 8 || t[7] == "" || t[7] == "0" then "h264" else t[7])
            && s.onDemand == (if |t| < 9 || t[8] == "" then "0" else t[8])
            && s.username == t[0] && s.password == t[1] && s.ip == t[2] && s.stream == t[3] && s.segment == t[4]
            && s.uuid == t[5] && s.server == t[6]
  {
  }

  // ---------------------------------------------------------------- playlist tokens

  datatype Play = Play(kind: string, username: string, password: string, stream: string, extension: string)

  /** The extension goes into the token, or is left to the address around the token. */
  function PlayFields(p: Play, withExtension: bool): seq<string> {
    [p.kind, p.username, p.password, p.stream] + if withExtension then [p.extension] else []
  }

  // A token of hex digits is taken for an access token of a line and is never decrypted.
  datatype PlayRequest = AccessToken(token: string) | Timeshift(fields: seq<string>) | Playback(play: Play, mag: bool)

  predicate IsHexDigit(c: char) { '0' <= c <= '9' || 'a' <= c <= 'f' || 'A' <= c <= 'F' }

  /** ctype_xdigit, which does not hold of the empty string. */
  predicate AllHex(token: string) { token != "" && forall c :: c in token ==> IsHexDigit(c) }

  /** explode at "::". */
  function ColonPieces(s: string): seq<string> {
    if |s| < 2 then [s]
    else if s[0] == ':' && s[1] == ':' then [""] + ColonPieces(s[2..])
    else
      var rest := ColonPieces(s[1..]);
      if rest == [] then [s] else [[s[0]] + rest[0]] + rest[1..]
  }

  /** The extension if the token brings none: the one given beside the token, or ts. */
  function DefaultExtension(given: Option<string>): string { if given.Some? then given.value else "ts" }

  function ParsePlay(t: seq<string>, given: Option<string>): PlayRequest {
    var pieces := ColonPieces(Field(t, 0));
    var mag := |pieces| == 2;
    var kind := if mag then pieces[1] else Field(t, 0);
    if kind == "timeshift" then Timeshift(t)
    else
      var extension := if 5 <= |t| then t[4] else DefaultExtension(given);
      Playback(Play(kind, Field(t, 1), Field(t, 2), Field(t, 3), extension), mag)
  }

  /** What a request with this token, and perhaps an extension beside it, is read as. */
  function ReadPlay(c: Cipher, token: string, given: Option<string>): PlayRequest {
    if AllHex(token) then AccessToken(token) else ParsePlay(Parsed(c, token), given)
  }

  /** The kind has no device prefix and is not time-shifted. */
  predicate PlainKind(kind: string) { |ColonPieces(kind)| != 2 && kind != "timeshift" }

  /** Hex digits are these, and an empty token is not one of hex digits. */
  lemma HexDigitsAre(c: char)
    ensures IsHexDigit(c) <==> c in "0123456789abcdefABCDEF"
    ensures !AllHex("")
  {
    var digits := "0123456789abcdefABCDEF";
    assert digits == ['0', '1', '2', '3', '4', '5', '6', '7', '8', '9', 'a', 'b', 'c', 'd', 'e', 'f',
                      'A', 'B', 'C', 'D', 'E', 'F'];
  }

  lemma {:induction false} NoColons(s: string)
    requires ':' !in s
    ensures ColonPieces(s) == [s]
  {
    if |s| >= 2 {
      NoColons(s[1..]);
      assert [s[0]] + s[1..] == s;
    }
  }

  lemma {:induction false} ColonsBetween(a: string, b: string)
    requires ':' !in a && ':' !in b
    ensures ColonPieces(a + "::" + b) == [a, b]
  {
    var s := a + "::" + b;
    if a == [] {
      assert s[2..] == b;
      NoColons(b);
    } else {
      assert s[1..] == a[1..] + "::" + b;
      ColonsBetween(a[1..], b);
      assert [a[0]] + a[1..] == a;
    }
  }

  /** A device prefix is taken off the kind and marks the request. */
  lemma DevicePrefixIsRead(t: seq<string>, a: string, b: string, given: Option<string>)
    requires |t| >= 4 && t[0] == a + "::" + b && ':' !in a && ':' !in b
    ensures var extension := if |t| >= 5 then t[4] else if given.Some? then given.value else "ts";
            ParsePlay(t, given) == if b == "timeshift" then Timeshift(t)
                                   else Playback(Play(b, t[1], t[2], t[3], extension), true)
  {
    ColonsBetween(a, b);
  }

  /** Without one the request is not marked. */
  lemma PlainKindIsRead(t: seq<string>, given: Option<string>)
    requires |t| >= 4 && ':' !in t[0]
    ensures var extension := if |t| >= 5 then t[4] else if given.Some? then given.value else "ts";
            ParsePlay(t, given) == if t[0] == "timeshift" then Timeshift(t)
                                   else Playback(Play(t[0], t[1], t[2], t[3], extension), false)
  {
    NoColons(t[0]);
  }

  lemma {:induction false} PiecesOfTwo(a: string, b: string)
    ensures |Exploded(a + "/" + b)| == |Exploded(a)| + |Exploded(b)|
  {
    if a == [] {
      assert a + "/" + b == "/" + b;
      assert ("/" + b)[1..] == b;
    } else {
      PiecesOfTwo(a[1..], b);
      assert (a + "/" + b)[1..] == a[1..] + "/" + b;
    }
  }

  /** Joining and splitting never loses a piece. */
  lemma {:induction false} AtLeastAsManyPieces(fields: seq<string>)
    ensures |Exploded(Joined(fields))| >= |fields|
  {
    if |fields| > 1 {
      AtLeastAsManyPieces(fields[1..]);
      PiecesOfTwo(fields[0], Joined(fields[1..]));
    }
  }

  lemma ParsedPlayHasNoSlash(t: seq<string>, p: Play, withExtension: bool, given: Option<string>)
    requires NoSlash(t) && ParsePlay(t, given) == Playback(p, false) && (withExtension ==> |t| >= 5)
    ensures NoSlash(PlayFields(p, withExtension)) && PlainKind(p.kind)
  {
    assert '/' !in "";
    assert forall i :: 0 <= i < |t| ==> t[i] in t;
    var f := PlayFields(p, withExtension);
    assert forall i :: 0 <= i < |f| ==> '/' !in f[i];
  }

  /**
  A playlist token is read as what was printed if and only if no field contains a slash, the kind is a plain one, an
  extension left out of the token is the one given beside it or ts, and the token has a character that is no hex digit.
  */
  lemma PlayRoundTripIff(c: Cipher, p: Play, withExtension: bool, given: Option<string>)
    requires Inverse(c)
    ensures var token := Printed(c, PlayFields(p, withExtension));
            ReadPlay(c, token, given) == Playback(p, false)
            <==> NoSlash(PlayFields(p, withExtension)) && PlainKind(p.kind)
                 && (withExtension || p.extension == DefaultExtension(given)) && !AllHex(token)
  {
    var f := PlayFields(p, withExtension);
    var t := Exploded(Joined(f));
    PrintedIsParsed(c, f);
    AtLeastAsManyPieces(f);
    if ParsePlay(t, given) == Playback(p, false) {
      ParsedPlayHasNoSlash(t, p, withExtension, given);
    }
  }

  // ---------------------------------------------------------------- a token that is all hex digits

  /** A character in three bytes. */
  function CharBytes(ch: char): seq<Byte> { [ch as int / 65536, ch as int / 256 % 256, ch as int % 256] }

  function StringBytes(s: string): seq<Byte> { if s == [] then [] else CharBytes(s[0]) + StringBytes(s[1..]) }

  function CharOf(high: int, middle: int, low: int): char {
    var n := high * 65536 + middle * 256 + low;
    if 0 <= n < 0xD800 || 0xE000 <= n < 0x11_0000 then n as char else 'a'
  }

  lemma CharIsRead(ch: char)
    ensures var b := CharBytes(ch); CharOf(b[0], b[1], b[2]) == ch
  {
  }

  function StringOf(b: seq<Byte>): string {
    if |b| < 3 then [] else [CharOf(b[0], b[1], b[2])] + StringOf(b[3..])
  }

  lemma {:induction false} BytesAreRead(s: string)
    ensures StringOf(StringBytes(s)) == s
  {
    if s != [] {
      BytesAreRead(s[1..]);
      CharIsRead(s[0]);
      assert StringBytes(s)[..3] == CharBytes(s[0]) && StringBytes(s)[3..] == StringBytes(s[1..]);
      assert s == [s[0]] + s[1..];
    }
  }

  /** A cipher that encrypts one message as three zero bytes. */
  function ZeroCipher(message: string): Cipher {
    Cipher(s => if s == message then [0, 0, 0] else [1] + StringBytes(s),
           b => if b == [0, 0, 0] then message else if b == [] then "" else StringOf(b[1..]))
  }

  lemma ZeroCipherInverts(message: string)
    ensures Inverse(ZeroCipher(message))
  {
    var c := ZeroCipher(message);
    forall s ensures c.decrypt(c.encrypt(s)) == s {
      if s != message {
        BytesAreRead(s);
        assert c.encrypt(s) == [1] + StringBytes(s);
        assert c.encrypt(s)[1..] == StringBytes(s);
      }
    }
  }

  /** The ciphertext decides: whatever a token is to say, it may come out as AAAA, and then it is not even decrypted. */
  lemma HexTokenIsLost(p: Play, withExtension: bool, given: Option<string>) returns (c: Cipher)
    ensures Inverse(c) && Printed(c, PlayFields(p, withExtension)) == "AAAA"
    ensures ReadPlay(c, "AAAA", given) == AccessToken("AAAA")
  {
    c := ZeroCipher(Joined(PlayFields(p, withExtension)));
    ZeroCipherInverts(Joined(PlayFields(p, withExtension)));
    ZeroesAreLetters();
  }

  lemma ZeroesAreLetters()
    ensures UrlEncode([0, 0, 0]) == "AAAA"
  {
    var zeroes: seq<Byte> := [0, 0, 0];
    UrlEncodeIs(zeroes);
    ZeroSextets(zeroes);
    SameLetters(Digits(Sextets(zeroes)));
  }

  lemma ZeroSextets(b: seq<Byte>)
    requires b == [0, 0, 0]
    ensures Digits(Sextets(b)) == "AAAA"
  {
    assert b[3..] == [];
    assert Sextets(b) == [0, 0, 0, 0];
  }

  lemma SameLetters(s: string)
    requires forall i :: 0 <= i < |s| ==> s[i] == 'A'
    ensures Translated(s, "+/", "-_") == s
  {
  }
}
