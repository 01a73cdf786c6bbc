/**
 * src/utils/pkceUtils.js: base64url encoding of a byte string and the PKCE
 * code verifier and S256 code challenge of RFC 7636.
 *
 * `btoa(String.fromCharCode(...bytes))` is the standard base64 of RFC 4648
 * section 4; `base64URLEncode` rewrites its alphabet and strips the padding.
 * The model's reference is RFC 4648 section 5 (the URL and filename safe
 * alphabet) without padding, as section 3.2 allows and as appendix A of
 * RFC 7636 describes.
 */
module PkceUtils {
  import opened Js

  newtype byte = x: int | 0 <= x < 256

  /** A letter or a digit: values 0-61 of both alphabets. */
  function AlphaNum(v: int): (c: char)
    requires 0 <= v < 62
    ensures 'A' <= c <= 'Z' || 'a' <= c <= 'z' || '0' <= c <= '9'
  {
    if v < 26 then ('A' as int + v) as char
    else if v < 52 then ('a' as int + v - 26) as char
    else ('0' as int + v - 52) as char
  }

  /** Table 1 of RFC 4648 (section 4). */
  function StdChar(v: int): char
    requires 0 <= v < 64
  {
    if v < 62 then AlphaNum(v) else if v == 62 then '+' else '/'
  }

  /** Table 2 of RFC 4648 (section 5). */
  function UrlChar(v: int): (c: char)
    requires 0 <= v < 64
    ensures IsUrlSafe(c)
  {
    if v < 62 then AlphaNum(v) else if v == 62 then '-' else '_'
  }

  /** The characters of the base64url alphabet; all are unreserved in the sense of RFC 3986. */
  predicate IsUrlSafe(c: char) {
    'A' <= c <= 'Z' || 'a' <= c <= 'z' || '0' <= c <= '9' || c == '-' || c == '_'
  }

  /** The four characters of three bytes, in either alphabet. */
  function Quad(x: byte, y: byte, z: byte, url: bool): (r: string)
    ensures |r| == 4
    ensures url ==> forall i :: 0 <= i < 4 ==> IsUrlSafe(r[i])
  {
    var a, b, c, d := x as int / 4, (x as int % 4) * 16 + y as int / 16, (y as int % 16) * 4 + z as int / 64, z as int % 64;
    if url then [UrlChar(a), UrlChar(b), UrlChar(c), UrlChar(d)] else [StdChar(a), StdChar(b), StdChar(c), StdChar(d)]
  }

  /** The two characters of a final single byte. */
  function Pair(x: byte, url: bool): (r: string)
    ensures |r| == 2
    ensures url ==> forall i :: 0 <= i < 2 ==> IsUrlSafe(r[i])
  {
    var a, b := x as int / 4, (x as int % 4) * 16;
    if url then [UrlChar(a), UrlChar(b)] else [StdChar(a), StdChar(b)]
  }

  /** The three characters of a final pair of bytes. */
  function Triple(x: byte, y: byte, url: bool): (r: string)
    ensures |r| == 3
    ensures url ==> forall i :: 0 <= i < 3 ==> IsUrlSafe(r[i])
  {
    var a, b, c := x as int / 4, (x as int % 4) * 16 + y as int / 16, (y as int % 16) * 4;
    if url then [UrlChar(a), UrlChar(b), UrlChar(c)] else [StdChar(a), StdChar(b), StdChar(c)]
  }

  /** `btoa(String.fromCharCode(...bytes))`: each 3 bytes give 4 characters; a short tail is padded with `=`. */
  function Base64(b: seq<byte>): (s: string)
    ensures |s| == 4 * ((|b| + 2) / 3)
    ensures forall i :: 0 <= i < |s| && s[i] == '=' ==> i >= |s| - 2
    decreases |b|
  {
    if |b| == 0 then ""
    else if |b| == 1 then Pair(b[0], false) + "=="
    else if |b| == 2 then Triple(b[0], b[1], false) + "="
    else Quad(b[0], b[1], b[2], false) + Base64(b[3..])
  }

  /** Base64url without padding, the form RFC 7636 uses. */
  function Base64UrlNoPad(b: seq<byte>): (s: string)
    ensures |s| == (4 * |b| + 2) / 3
    ensures forall i :: 0 <= i < |s| ==> IsUrlSafe(s[i])
    decreases |b|
  {
    if |b| == 0 then ""
    else if |b| == 1 then Pair(b[0], true)
    else if |b| == 2 then Triple(b[0], b[1], true)
    else Quad(b[0], b[1], b[2], true) + Base64UrlNoPad(b[3..])
  }

  /** `s.replace(/<from>/g, to)` for a single character. */
  function ReplaceChar(s: string, from: char, to: char): (r: string)
    ensures |r| == |s|
    ensures forall i :: 0 <= i < |s| ==> r[i] == if s[i] == from then to else s[i]
  {
    seq(|s|, i requires 0 <= i < |s| => if s[i] == from then to else s[i])
  }

  /** `s.replace(/<c>+$/, "")`: the longest run of `c` at the end is removed. */
  function StripTrailing(s: string, c: char): (r: string)
    ensures |r| <= |s| && r == s[..|r|]
    ensures r == [] || r[|r| - 1] != c
    ensures forall i :: |r| <= i < |s| ==> s[i] == c
  {
    if |s| > 0 && s[|s| - 1] == c then StripTrailing(s[..|s| - 1], c) else s
  }

  /** `base64URLEncode(buffer)` */
  function Base64UrlEncode(b: seq<byte>): string {
    StripTrailing(ReplaceChar(ReplaceChar(Base64(b), '+', '-'), '/', '_'), '=')
  }

  /** The two alphabet rewrites applied to a whole string. */
  function Rewrite(s: string): string {
    ReplaceChar(ReplaceChar(s, '+', '-'), '/', '_')
  }

  lemma RewriteAppend(a: string, b: string)
    ensures Rewrite(a + b) == Rewrite(a) + Rewrite(b)
  {
  }

  /** Stripping only reaches into `y` when `y` does not start with `c`. */
  lemma {:induction false} StripTrailingAppend(x: string, y: string, c: char)
    requires |y| > 0 && y[0] != c
    ensures StripTrailing(x + y, c) == x + StripTrailing(y, c)
    decreases |y|
  {
    var s := x + y;
    if s[|s| - 1] == c {
      assert |y| > 1;
      assert s[..|s| - 1] == x + y[..|y| - 1];
      StripTrailingAppend(x, y[..|y| - 1], c);
    }
  }

  /** Rewriting the alphabet maps each character of table 1 to the same value's character of table 2. */
  lemma RewriteStdChar(v: int)
    requires 0 <= v < 64
    ensures var c := if StdChar(v) == '+' then '-' else StdChar(v); (if c == '/' then '_' else c) == UrlChar(v)
  {
  }

  lemma RewriteQuad(x: byte, y: byte, z: byte)
    ensures Rewrite(Quad(x, y, z, false)) == Quad(x, y, z, true)
  {
    var q := Quad(x, y, z, false);
    forall i | 0 <= i < 4 ensures Rewrite(q)[i] == Quad(x, y, z, true)[i] {
      RewriteStdChar(x as int / 4);
      RewriteStdChar((x as int % 4) * 16 + y as int / 16);
      RewriteStdChar((y as int % 16) * 4 + z as int / 64);
      RewriteStdChar(z as int % 64);
    }
  }

  lemma RewritePair(x: byte)
    ensures Rewrite(Pair(x, false)) == Pair(x, true)
  {
    RewriteStdChar(x as int / 4);
    RewriteStdChar((x as int % 4) * 16);
  }

  lemma RewriteTriple(x: byte, y: byte)
    ensures Rewrite(Triple(x, y, false)) == Triple(x, y, true)
  {
    RewriteStdChar(x as int / 4);
    RewriteStdChar((x as int % 4) * 16 + y as int / 16);
    RewriteStdChar((y as int % 16) * 4);
  }

  /** Stripping the padding of a final group leaves its characters, none of which is `=`. */
  lemma StripPadding(chars: string, pad: string)
    requires 0 < |chars| && '=' !in chars && forall i :: 0 <= i < |pad| ==> pad[i] == '='
    ensures StripTrailing(chars + pad, '=') == chars
    decreases |pad|
  {
    if |pad| == 0 {
      assert chars + pad == chars;
    } else {
      assert (chars + pad)[..|chars + pad| - 1] == chars + pad[..|pad| - 1];
      StripPadding(chars, pad[..|pad| - 1]);
    }
  }

  lemma EncodeOneByte(b: seq<byte>)
    requires |b| == 1
    ensures Base64UrlEncode(b) == Base64UrlNoPad(b)
  {
    assert Base64(b) == Pair(b[0], false) + "==";
    assert Base64UrlNoPad(b) == Pair(b[0], true);
    RewriteAppend(Pair(b[0], false), "==");
    RewritePair(b[0]);
    assert Rewrite("==") == "==";
    StripPadding(Pair(b[0], true), "==");
  }

  lemma EncodeTwoBytes(b: seq<byte>)
    requires |b| == 2
    ensures Base64UrlEncode(b) == Base64UrlNoPad(b)
  {
    assert Base64(b) == Triple(b[0], b[1], false) + "=";
    assert Base64UrlNoPad(b) == Triple(b[0], b[1], true);
    RewriteAppend(Triple(b[0], b[1], false), "=");
    RewriteTriple(b[0], b[1]);
    assert Rewrite("=") == "=";
    StripPadding(Triple(b[0], b[1], true), "=");
  }

  /** A full group of three bytes: four characters followed by the encoding of the rest. */
  lemma EncodeStep(b: seq<byte>)
    requires |b| >= 3
    requires Base64UrlEncode(b[3..]) == Base64UrlNoPad(b[3..])
    ensures Base64UrlEncode(b) == Base64UrlNoPad(b)
  {
    var quad := Quad(b[0], b[1], b[2], false);
    var rest := Base64(b[3..]);
    RewriteAppend(quad, rest);
    RewriteQuad(b[0], b[1], b[2]);
    if |b| == 3 {
      assert rest == "" && Rewrite(rest) == "";
      StripPadding(Quad(b[0], b[1], b[2], true), "");
    } else {
      RestStartsWithUrlChar(b[3..]);
      StripTrailingAppend(Quad(b[0], b[1], b[2], true), Rewrite(rest), '=');
    }
  }

  /** The encoding of a non-empty string starts with a character that is not `=`. */
  lemma RestStartsWithUrlChar(b: seq<byte>)
    requires |b| > 0
    ensures |Rewrite(Base64(b))| > 0 && Rewrite(Base64(b))[0] != '='
  {
    var c := Base64(b)[0];
    assert c == StdChar(b[0] as int / 4);
    RewriteStdChar(b[0] as int / 4);
  }

  /**
   * `base64URLEncode` is base64url without padding: rewriting the alphabet
   * and stripping the trailing `=` of standard base64.
   */
  lemma {:induction false} EncodeIsBase64UrlNoPad(b: seq<byte>)
    ensures Base64UrlEncode(b) == Base64UrlNoPad(b)
    decreases |b|
  {
    if |b| == 1 {
      EncodeOneByte(b);
    } else if |b| == 2 {
      EncodeTwoBytes(b);
    } else if |b| >= 3 {
      EncodeIsBase64UrlNoPad(b[3..]);
      EncodeStep(b);
    }
  }

  /** The output uses only the URL-safe alphabet: no `+`, `/` or `=`. */
  lemma EncodeAlphabet(b: seq<byte>)
    ensures forall i :: 0 <= i < |Base64UrlEncode(b)| ==> IsUrlSafe(Base64UrlEncode(b)[i])
    ensures '+' !in Base64UrlEncode(b) && '/' !in Base64UrlEncode(b) && '=' !in Base64UrlEncode(b)
  {
    EncodeIsBase64UrlNoPad(b);
  }

  /** For `n` bytes the output has `ceil(4n / 3)` characters: at most two padding characters were removed. */
  lemma EncodeLength(b: seq<byte>)
    ensures |Base64UrlEncode(b)| == (4 * |b| + 2) / 3
    ensures |Base64(b)| - 2 <= |Base64UrlEncode(b)| <= |Base64(b)|
  {
    EncodeIsBase64UrlNoPad(b);
  }

  /** Padding only occurs at the end, so stripping the trailing run removes every `=`. */
  lemma StripRemovesEveryPad(b: seq<byte>)
    ensures Base64UrlEncode(b) == RemoveAll(Rewrite(Base64(b)), '=')
  {
    var r := Rewrite(Base64(b));
    var e := Base64UrlEncode(b);
    EncodeAlphabet(b);
    assert r == e + r[|e|..];
    RemoveAllAppend(e, r[|e|..], '=');
    RemoveAllOfOnly(r[|e|..], '=');
    RemoveAllOfNone(e, '=');
  }

  lemma {:induction false} RemoveAllOfNone(s: string, c: char)
    requires c !in s
    ensures RemoveAll(s, c) == s
    decreases |s|
  {
    if |s| > 0 {
      RemoveAllOfNone(s[1..], c);
    }
  }

  // ---------------------------------------------------------------------------
  // PKCE
  // ---------------------------------------------------------------------------

  datatype Pkce = Pkce(codeVerifier: string, codeChallenge: string)

  /** `new TextEncoder().encode(s)` for a string of ASCII characters. */
  function AsciiBytes(s: string): (b: seq<byte>)
    requires IsAscii(s)
    ensures |b| == |s|
  {
    seq(|s|, i requires 0 <= i < |s| => s[i] as int as byte)
  }

  predicate IsAscii(s: string) {
    forall i :: 0 <= i < |s| ==> s[i] as int < 128
  }

  lemma UrlSafeIsAscii(s: string)
    requires forall i :: 0 <= i < |s| ==> IsUrlSafe(s[i])
    ensures IsAscii(s)
  {
  }

  /**
   * `generatePKCE()` given the 32 bytes `crypto.getRandomValues` fills in and
   * the SHA-256 function that `crypto.subtle.digest` computes.
   */
  function GeneratePkce(random: seq<byte>, sha256: seq<byte> -> seq<byte>): (p: Pkce)
    requires |random| == 32
    requires forall m :: |sha256(m)| == 32
    ensures |p.codeVerifier| == 43 && |p.codeChallenge| == 43
    ensures forall i :: 0 <= i < 43 ==> IsUrlSafe(p.codeVerifier[i]) && IsUrlSafe(p.codeChallenge[i])
    ensures p.codeVerifier == Base64UrlNoPad(random) && IsAscii(p.codeVerifier)
    ensures p.codeChallenge == Base64UrlNoPad(sha256(AsciiBytes(p.codeVerifier)))
  {
    var verifier := Base64UrlEncode(random);
    EncodeAlphabet(random);
    EncodeLength(random);
    UrlSafeIsAscii(verifier);
    var digest := sha256(AsciiBytes(verifier));
    EncodeAlphabet(digest);
    EncodeLength(digest);
    EncodeIsBase64UrlNoPad(random);
    EncodeIsBase64UrlNoPad(digest);
    Pkce(verifier, Base64UrlEncode(digest))
  }

  /** The verifier's length lies in the 43 to 128 characters RFC 7636 section 4.1 allows. */
  lemma VerifierLengthAllowed(random: seq<byte>, sha256: seq<byte> -> seq<byte>)
    requires |random| == 32
    requires forall m :: |sha256(m)| == 32
    ensures 43 <= |GeneratePkce(random, sha256).codeVerifier| <= 128
  {
  }
}
