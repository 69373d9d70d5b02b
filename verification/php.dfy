/** The PHP string primitives the request handlers rely on, stated exactly
    (trim, substr, empty(), htmlspecialchars, implode, integer and
    number_format rendering), plus the foreign functions the model takes as
    parameters (Builtins). A `string` is a sequence of characters;
    for ASCII text `|s|` is `strlen($s)`, and the model does not track how
    a non-ASCII character is encoded in bytes. Non-ASCII literals of the
    pages are written as the characters they display. */
module Php {

  /** The functions the handlers call but whose definition is outside the
      model; every handler receives them as one value. */
  datatype Builtins = Builtins(
    sha256: string -> string,      // hash('sha256', $s): lower-case hex digest
    isValidEmail: string -> bool,  // filter_var($s, FILTER_VALIDATE_EMAIL) !== false
    stripTags: string -> string,   // strip_tags($s)
    floatToString: real -> string, // PHP's conversion of a float to a string
    formatDate: int -> string)     // date(<format>, $timestamp)

  /** PHP's empty($s) and `!$s` on a string: only "" and "0" are falsy. */
  predicate IsEmpty(s: string) {
    s == "" || s == "0"
  }

  /** The characters trim() removes by default: " \t\n\r\0\x0B". */
  predicate IsTrimmable(c: char) {
    c == ' ' || c == '\t' || c == '\n' || c == '\r' || c == '\0' || c == '\U{0B}'
  }

  function TrimLeft(s: string): (r: string)
    ensures |r| <= |s| && r == s[|s| - |r|..]
    ensures r == [] || !IsTrimmable(r[0])
    ensures forall i :: 0 <= i < |s| - |r| ==> IsTrimmable(s[i])
  {
    if s != [] && IsTrimmable(s[0]) then TrimLeft(s[1..]) else s
  }

  function TrimRight(s: string): (r: string)
    ensures |r| <= |s| && r == s[..|r|]
    ensures r == [] || !IsTrimmable(r[|r| - 1])
    ensures forall i :: |r| <= i < |s| ==> IsTrimmable(s[i])
  {
    if s != [] && IsTrimmable(s[|s| - 1]) then TrimRight(s[..|s| - 1]) else s
  }

  /** How many leading characters trim() drops. */
  function TrimOffset(s: string): nat {
    |s| - |TrimLeft(s)|
  }

  /** trim($s): the infix of `s` left when its leading and trailing
      whitespace is removed. */
  function Trim(s: string): (r: string)
    ensures |r| <= |s| - TrimOffset(s)
    ensures r == s[TrimOffset(s)..TrimOffset(s) + |r|]
    ensures r == [] || (!IsTrimmable(r[0]) && !IsTrimmable(r[|r| - 1]))
    ensures forall i :: 0 <= i < TrimOffset(s) ==> IsTrimmable(s[i])
    ensures forall i :: TrimOffset(s) + |r| <= i < |s| ==> IsTrimmable(s[i])
  {
    var l := TrimLeft(s);
    var r := TrimRight(l);
    assert l == s[TrimOffset(s)..] && r == l[..|r|];
    assert forall i :: |r| <= i < |l| ==> IsTrimmable(l[i]);
    r
  }

  /** substr($s, 0, $n) for a non-negative length. */
  function Truncate(s: string, n: nat): (r: string)
    ensures |r| == if |s| <= n then |s| else n
    ensures r == s[..|r|]
  {
    if |s| <= n then s else s[..n]
  }

  /** htmlspecialchars' treatment of the single quote under ENT_QUOTES:
      "&#039;" by default, "&apos;" when ENT_HTML5 is also given. */
  datatype QuoteStyle = Html401 | Html5

  function QuoteEntity(style: QuoteStyle): string {
    if style == Html5 then "&apos;" else "&#039;"
  }

  function Entity(c: char, style: QuoteStyle): string {
    if c == '&' then "&amp;"
    else if c == '"' then "&quot;"
    else if c == '\'' then QuoteEntity(style)
    else if c == '<' then "&lt;"
    else if c == '>' then "&gt;"
    else [c]
  }

  predicate IsHtmlSpecial(c: char) {
    c == '<' || c == '>' || c == '"' || c == '\''
  }

  /** htmlspecialchars($s, ENT_QUOTES [| ENT_HTML5]) on valid text. */
  function HtmlEscape(s: string, style: QuoteStyle): (r: string)
    ensures forall i :: 0 <= i < |r| ==> !IsHtmlSpecial(r[i])
    ensures |r| >= |s|
  {
    if s == [] then [] else Entity(s[0], style) + HtmlEscape(s[1..], style)
  }

  predicate HasPrefix(s: string, p: string) {
    |p| <= |s| && s[..|p|] == p
  }

  /** Decodes exactly the five entities HtmlEscape produces (an
      htmlspecialchars_decode restricted to them). */
  function Unescape(s: string, style: QuoteStyle): string
    decreases |s|
  {
    if s == [] then []
    else if HasPrefix(s, "&amp;") then "&" + Unescape(s[5..], style)
    else if HasPrefix(s, "&quot;") then "\"" + Unescape(s[6..], style)
    else if HasPrefix(s, QuoteEntity(style)) then "'" + Unescape(s[|QuoteEntity(style)|..], style)
    else if HasPrefix(s, "&lt;") then "<" + Unescape(s[4..], style)
    else if HasPrefix(s, "&gt;") then ">" + Unescape(s[4..], style)
    else [s[0]] + Unescape(s[1..], style)
  }

  lemma PrefixDiffers(s: string, p: string, k: nat)
    requires k < |p| && k < |s| && s[k] != p[k]
    ensures !HasPrefix(s, p)
  {
    assert |p| <= |s| ==> s[..|p|][k] == s[k];
  }

  lemma PrefixOfConcat(e: string, t: string)
    ensures HasPrefix(e + t, e) && (e + t)[|e|..] == t
  {
    assert (e + t)[..|e|] == e;
  }

  lemma UnescapeEntity(c: char, t: string, style: QuoteStyle)
    ensures Unescape(Entity(c, style) + t, style) == [c] + Unescape(t, style)
  {
    var e := Entity(c, style);
    var s := e + t;
    var q := QuoteEntity(style);
    PrefixOfConcat(e, t);
    if c == '&' {
    } else if c == '"' {
      PrefixDiffers(s, "&amp;", 1);
    } else if c == '\'' {
      PrefixDiffers(s, "&amp;", if style == Html5 then 2 else 1);
      PrefixDiffers(s, "&quot;", 1);
    } else if c == '<' {
      PrefixDiffers(s, "&amp;", 1);
      PrefixDiffers(s, "&quot;", 1);
      PrefixDiffers(s, q, 1);
    } else if c == '>' {
      PrefixDiffers(s, "&amp;", 1);
      PrefixDiffers(s, "&quot;", 1);
      PrefixDiffers(s, q, 1);
      PrefixDiffers(s, "&lt;", 1);
    } else {
      PrefixDiffers(s, "&amp;", 0);
      PrefixDiffers(s, "&quot;", 0);
      PrefixDiffers(s, q, 0);
      PrefixDiffers(s, "&lt;", 0);
      PrefixDiffers(s, "&gt;", 0);
    }
  }

  /** Escaping loses nothing: decoding the escaped text gives the text back. */
  lemma {:induction false} EscapeRoundTrip(s: string, style: QuoteStyle)
    ensures Unescape(HtmlEscape(s, style), style) == s
  {
    if s != [] {
      EscapeRoundTrip(s[1..], style);
      UnescapeEntity(s[0], HtmlEscape(s[1..], style), style);
      assert s == [s[0]] + s[1..];
    }
  }

  /** strtolower on one character: ASCII capitals move to lower case. */
  function LowerChar(c: char): char {
    if 'A' <= c <= 'Z' then (c as int + 32) as char else c
  }

  /** Lower-casing neither makes nor removes a blank. */
  lemma LowerCharKeepsBlanks(c: char)
    ensures IsTrimmable(LowerChar(c)) <==> IsTrimmable(c)
  {
  }

  /** strtolower($s) on ASCII letters. */
  function ToLower(s: string): (r: string)
    ensures |r| == |s|
    ensures forall i :: 0 <= i < |r| ==> !('A' <= r[i] <= 'Z')
    ensures forall i :: 0 <= i < |r| && !('A' <= s[i] <= 'Z') ==> r[i] == s[i]
    ensures forall i :: 0 <= i < |r| && 'A' <= s[i] <= 'Z' ==> r[i] as int == s[i] as int + 32
  {
    seq(|s|, i requires 0 <= i < |s| => LowerChar(s[i]))
  }

  /** preg_match('/[A-Z]/', $s), '/[a-z]/' and '/[0-9]/'. */
  predicate HasUpper(s: string) {
    exists i :: 0 <= i < |s| && 'A' <= s[i] <= 'Z'
  }

  predicate HasLower(s: string) {
    exists i :: 0 <= i < |s| && 'a' <= s[i] <= 'z'
  }

  predicate HasDigit(s: string) {
    exists i :: 0 <= i < |s| && '0' <= s[i] <= '9'
  }

  predicate IsDigit(c: char) {
    '0' <= c <= '9'
  }

  function DigitChar(d: nat): (c: char)
    requires d < 10
    ensures IsDigit(c)
  {
    ('0' as int + d) as char
  }

  /** The decimal digits of `n`, as "$n" renders a non-negative integer. */
  function NatToString(n: nat): (r: string)
    ensures |r| >= 1
    ensures forall i :: 0 <= i < |r| ==> IsDigit(r[i])
  {
    if n < 10 then [DigitChar(n)] else NatToString(n / 10) + [DigitChar(n % 10)]
  }

  /** "$n" for any integer. */
  function IntToString(n: int): (r: string)
    ensures |r| >= 1
  {
    if n < 0 then "-" + NatToString(-n) else NatToString(n)
  }

  function DigitsValue(s: string): nat
    requires forall i :: 0 <= i < |s| ==> IsDigit(s[i])
  {
    if s == [] then 0
    else
      var last := s[|s| - 1];
      assert IsDigit(last);
      DigitsValue(s[..|s| - 1]) * 10 + (last as int - '0' as int)
  }

  /** Reads back what IntToString writes. */
  function ParseInt(s: string): int {
    if |s| >= 1 && s[0] == '-' && (forall i :: 1 <= i < |s| ==> IsDigit(s[i])) then -(DigitsValue(s[1..]) as int)
    else if forall i :: 0 <= i < |s| ==> IsDigit(s[i]) then DigitsValue(s)
    else 0
  }

  lemma {:induction false} NatToStringRoundTrip(n: nat)
    ensures DigitsValue(NatToString(n)) == n
  {
    if n >= 10 {
      var s := NatToString(n);
      assert s[..|s| - 1] == NatToString(n / 10);
      NatToStringRoundTrip(n / 10);
    }
  }

  /** Integer rendering is invertible, so different integers render differently. */
  lemma IntToStringRoundTrip(n: int)
    ensures ParseInt(IntToString(n)) == n
  {
    var s := IntToString(n);
    if n < 0 {
      assert s[1..] == NatToString(-n);
      NatToStringRoundTrip(-n);
    } else {
      assert s[0] != '-';
      NatToStringRoundTrip(n);
    }
  }

  /** Exactly three digits, with leading zeros. */
  function Pad3(n: nat): string
    requires n < 1000
  {
    [DigitChar(n / 100), DigitChar(n / 10 % 10), DigitChar(n % 10)]
  }

  /** The integer part of number_format: groups of three separated by ",". */
  function GroupThousands(n: nat): string {
    if n < 1000 then NatToString(n) else GroupThousands(n / 1000) + "," + Pad3(n % 1000)
  }

  /** number_format($x, 2): rounded half away from zero to cents, thousands
      separated by ",", decimal point "."; no "-0.00". */
  function NumberFormat2(x: real): string {
    var magnitude := if x < 0.0 then -x else x;
    var cents: int := (magnitude * 100.0 + 0.5).Floor;
    assert cents >= 0;
    var sign := if x < 0.0 && cents > 0 then "-" else "";
    sign + GroupThousands(cents / 100) + "." + [DigitChar(cents % 100 / 10), DigitChar(cents % 10)]
  }

  /** implode($sep, $parts). */
  function Implode(sep: string, parts: seq<string>): string {
    if |parts| == 0 then ""
    else if |parts| == 1 then parts[0]
    else parts[0] + sep + Implode(sep, parts[1..])
  }

  /** Joining two non-empty lists is joining their joins. */
  lemma {:induction false} ImplodeAppend(sep: string, a: seq<string>, b: seq<string>)
    requires |a| >= 1 && |b| >= 1
    ensures Implode(sep, a + b) == Implode(sep, a) + sep + Implode(sep, b)
  {
    if |a| == 1 {
      assert (a + b)[1..] == b;
    } else {
      assert (a + b)[1..] == a[1..] + b;
      ImplodeAppend(sep, a[1..], b);
    }
  }
}
