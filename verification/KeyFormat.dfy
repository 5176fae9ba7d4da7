/** The API-key wire format `egras_<env>_<prefix>_<secret>`: framing and parsing. */
module KeyFormat {
  import opened Keyset

  datatype ParsedKey = ParsedKey(env: string, prefix: string, secret: string)

  const SCHEME := "egras_"

  predicate IsHexDigit(c: char) {
    '0' <= c <= '9' || 'a' <= c <= 'f' || 'A' <= c <= 'F'
  }

  predicate IsPrefix(p: string) {
    |p| == 8 && forall i | 0 <= i < |p| :: IsHexDigit(p[i])
  }

  function Frame(env: string, prefix: string, secret: string): string {
    SCHEME + env + "_" + prefix + "_" + secret
  }

  lemma FrameNests(env: string, prefix: string, secret: string)
    ensures Frame(env, prefix, secret) == SCHEME + (env + "_" + (prefix + "_" + secret))
  {
    assert prefix + "_" + secret == prefix + ("_" + secret);
    assert env + "_" + prefix + "_" + secret == env + "_" + (prefix + "_" + secret);
    assert Frame(env, prefix, secret) == SCHEME + (env + "_" + prefix + "_" + secret);
  }

  function IndexOf(s: string, c: char): (i: nat)
    requires c in s
    ensures i < |s| && s[i] == c && c !in s[..i]
  {
    if s[0] == c then 0
    else
      var k := IndexOf(s[1..], c);
      assert s[..k + 1] == [s[0]] + s[1..][..k];
      k + 1
  }

  /** At most `n` pieces; the last one keeps whatever separators remain. */
  function SplitN(s: string, n: nat, separator: char): seq<string>
    requires n >= 1
  {
    if n == 1 || separator !in s then [s]
    else [s[..IndexOf(s, separator)]] + SplitN(s[IndexOf(s, separator) + 1..], n - 1, separator)
  }

  function Parse(s: string): Option<ParsedKey> {
    if !(SCHEME <= s) then None
    else
      var parts := SplitN(s[|SCHEME|..], 3, '_');
      if |parts| != 3 || !IsPrefix(parts[1]) || parts[2] == "" then None
      else Some(ParsedKey(parts[0], parts[1], parts[2]))
  }

  lemma {:induction false} FirstSeparator(front: string, rest: string)
    requires '_' !in front
    ensures IndexOf(front + "_" + rest, '_') == |front|
  {
    if front != "" {
      FirstSeparator(front[1..], rest);
      assert (front + "_" + rest)[1..] == front[1..] + "_" + rest;
    }
  }

  lemma SplitAtFirst(front: string, rest: string, n: nat)
    requires n >= 2 && '_' !in front
    ensures SplitN(front + "_" + rest, n, '_') == [front] + SplitN(rest, n - 1, '_')
  {
    var s := front + "_" + rest;
    assert s[|front|] == '_' && s[..|front|] == front && s[|front| + 1..] == rest;
    FirstSeparator(front, rest);
  }

  lemma SplitOnce(s: string, n: nat)
    requires n >= 2 && |SplitN(s, n, '_')| >= 2
    ensures var p := SplitN(s, n, '_');
            var rest := s[|p[0]| + 1..];
            |s| > |p[0]| && s == p[0] + "_" + rest && '_' !in p[0] && p[1..] == SplitN(rest, n - 1, '_')
  {
    var i := IndexOf(s, '_');
    assert s == s[..i] + "_" + s[i + 1..];
  }

  /** Splitting loses nothing: the pieces rejoin, and only the last may hold a separator. */
  lemma SplitTwice(s: string)
    requires |SplitN(s, 3, '_')| == 3
    ensures var p := SplitN(s, 3, '_'); s == p[0] + "_" + (p[1] + "_" + p[2]) && '_' !in p[0]
  {
    var p := SplitN(s, 3, '_');
    SplitOnce(s, 3);
    var rest := s[|p[0]| + 1..];
    SplitOnce(rest, 2);
    assert SplitN(rest[|p[1]| + 1..], 1, '_') == [rest[|p[1]| + 1..]];
  }

  /** Any key that parses is the framing of what it parses to. */
  lemma FrameUndoesParse(s: string)
    requires Parse(s).Some?
    ensures var k := Parse(s).value;
            Frame(k.env, k.prefix, k.secret) == s && '_' !in k.env && IsPrefix(k.prefix) && k.secret != ""
  {
    var body := s[|SCHEME|..];
    var p := SplitN(body, 3, '_');
    SplitTwice(body);
    assert s == SCHEME + body;
    FrameNests(p[0], p[1], p[2]);
  }

  lemma WellFormedFrameParses(env: string, prefix: string, secret: string)
    requires '_' !in env && IsPrefix(prefix) && secret != ""
    ensures Parse(Frame(env, prefix, secret)) == Some(ParsedKey(env, prefix, secret))
  {
    var body := env + "_" + (prefix + "_" + secret);
    FrameNests(env, prefix, secret);
    assert (SCHEME + body)[|SCHEME|..] == body;
    SplitAtFirst(env, prefix + "_" + secret, 3);
    NoSeparatorIn(prefix);
    SplitAtFirst(prefix, secret, 2);
  }

  lemma PrefixMeans(prefix: string)
    ensures IsPrefix(prefix) <==> |prefix| == 8 && forall c <- prefix :: c in "0123456789abcdefABCDEF"
  {
    forall c: char ensures IsHexDigit(c) <==> c in "0123456789abcdefABCDEF" { DigitMeans(c); }
    assert forall i | 0 <= i < |prefix| :: prefix[i] in prefix;
  }

  lemma DigitMeans(c: char)
    ensures IsHexDigit(c) <==> c in "0123456789abcdefABCDEF"
  {
    var all := "0123456789abcdefABCDEF";
    if '0' <= c <= '9' {
      assert all[c as int - '0' as int] == c;
    } else if 'a' <= c <= 'f' {
      assert all[10 + c as int - 'a' as int] == c;
    } else if 'A' <= c <= 'F' {
      assert all[16 + c as int - 'A' as int] == c;
    }
  }

  lemma NoSeparatorIn(prefix: string)
    requires IsPrefix(prefix)
    ensures '_' !in prefix
  {
    forall i | 0 <= i < |prefix| ensures prefix[i] != '_' { assert IsHexDigit(prefix[i]); }
  }

  /** Parsing undoes framing exactly when the environment has no underscore, the prefix is eight hex
      digits and the secret is not empty; underscores in the secret do no harm. */
  lemma ParseUndoesFrame(env: string, prefix: string, secret: string)
    ensures Parse(Frame(env, prefix, secret)) == Some(ParsedKey(env, prefix, secret))
       <==> '_' !in env && |prefix| == 8 && (forall c <- prefix :: c in "0123456789abcdefABCDEF") && secret != ""
  {
    PrefixMeans(prefix);
    if '_' !in env && IsPrefix(prefix) && secret != "" {
      WellFormedFrameParses(env, prefix, secret);
    } else if Parse(Frame(env, prefix, secret)).Some? {
      FrameUndoesParse(Frame(env, prefix, secret));
    }
  }

  type Byte = b: int | 0 <= b < 256

  function HexDigit(n: nat): char
    requires n < 16
  {
    "0123456789abcdef"[n]
  }

  function HexEncode(bytes: seq<Byte>): string {
    if bytes == [] then "" else [HexDigit(bytes[0] / 16), HexDigit(bytes[0] % 16)] + HexEncode(bytes[1..])
  }

  predicate AllHex(s: string) {
    forall i | 0 <= i < |s| :: IsHexDigit(s[i])
  }

  lemma TwoMoreDigits(a: nat, b: nat, rest: string)
    requires a < 16 && b < 16 && AllHex(rest)
    ensures AllHex([HexDigit(a), HexDigit(b)] + rest)
  {
  }

  lemma {:induction false} HexEncodesDigits(bytes: seq<Byte>)
    ensures |HexEncode(bytes)| == 2 * |bytes| && AllHex(HexEncode(bytes))
  {
    if bytes != [] {
      HexEncodesDigits(bytes[1..]);
      TwoMoreDigits(bytes[0] / 16, bytes[0] % 16, HexEncode(bytes[1..]));
    }
  }

  function HexValue(c: char): int {
    if '0' <= c <= '9' then c as int - '0' as int
    else if 'a' <= c <= 'f' then c as int - 'a' as int + 10 else -1
  }

  /** Reading lower-case hexadecimal, two digits a byte. */
  function HexDecode(s: string): seq<int> {
    if |s| < 2 then [] else [16 * HexValue(s[0]) + HexValue(s[1])] + HexDecode(s[2..])
  }

  lemma DigitValue(n: nat)
    requires n < 16
    ensures HexValue(HexDigit(n)) == n
  {
  }

  /** Nothing of the random bytes is lost, so different bytes give different prefixes. */
  lemma {:induction false} HexDecodesBytes(bytes: seq<Byte>)
    ensures HexDecode(HexEncode(bytes)) == bytes
  {
    if bytes != [] {
      var s := HexEncode(bytes);
      HexDecodesBytes(bytes[1..]);
      DigitValue(bytes[0] / 16);
      DigitValue(bytes[0] % 16);
      assert s[2..] == HexEncode(bytes[1..]);
    }
  }

  lemma LiveFrame(prefix: string, secret: string)
    ensures Frame("live", prefix, secret) == "egras_live_" + prefix + "_" + secret
  {
    assert SCHEME + "live" + "_" == "egras_live_";
  }

  /** Every generated key parses back to its own prefix and secret, whatever the random bytes. */
  lemma GeneratedKeysParse(prefixBytes: seq<Byte>, secret: string)
    requires |prefixBytes| == 4 && secret != ""
    ensures Parse(Frame("live", HexEncode(prefixBytes), secret)) == Some(ParsedKey("live", HexEncode(prefixBytes), secret))
    ensures Frame("live", HexEncode(prefixBytes), secret) == "egras_live_" + HexEncode(prefixBytes) + "_" + secret
  {
    var prefix := HexEncode(prefixBytes);
    HexEncodesDigits(prefixBytes);
    LiveFrame(prefix, secret);
    WellFormedFrameParses("live", prefix, secret);
  }
}
