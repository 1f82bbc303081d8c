/** The few PHP string and value semantics the plugin relies on:
    truthiness of option values, `rtrim`/`ltrim`/`trim` with a character list,
    `trailingslashit`, `basename` and `str_contains`-style search. */
module Php {

  /** A value read back from the WordPress option store: `get_option` yields
      `false` for a missing option, otherwise the stored string. */
  datatype OptVal = Missing | Str(s: string)

  /** An optional value. */
  datatype Option<T> = None | Some(value: T)

  /** PHP truthiness of a string: only "" and "0" are falsy. */
  predicate TruthyString(s: string) {
    s != "" && s != "0"
  }

  /** PHP truthiness of an option value (`false` is falsy). `empty(x)` is its negation. */
  predicate Truthy(v: OptVal) {
    v.Str? && TruthyString(v.s)
  }

  /** The string PHP produces when an option value is used as a string
      (`false` becomes ""). */
  function AsString(v: OptVal): string {
    if v.Str? then v.s else ""
  }

  /** `rtrim($s, $chars)`: drops the longest suffix made only of `chars`. */
  function RTrim(s: string, chars: set<char>): (r: string)
    ensures r <= s
    ensures r == [] || r[|r| - 1] !in chars
    ensures forall i :: |r| <= i < |s| ==> s[i] in chars
    decreases |s|
  {
    if s == [] then []
    else if s[|s| - 1] in chars then RTrim(s[..|s| - 1], chars)
    else s
  }

  /** `ltrim($s, $chars)`: drops the longest prefix made only of `chars`. */
  function LTrim(s: string, chars: set<char>): (r: string)
    ensures |r| <= |s| && r == s[|s| - |r|..]
    ensures r == [] || r[0] !in chars
    ensures forall i :: 0 <= i < |s| - |r| ==> s[i] in chars
    decreases |s|
  {
    if s == [] then []
    else if s[0] in chars then LTrim(s[1..], chars)
    else s
  }

  /** The characters PHP's `trim` removes by default. */
  const Whitespace: set<char> := {' ', '\t', '\n', '\r', '\0', '\U{B}'}

  /** `trim($s)` with the default character list. */
  function Trim(s: string): string {
    RTrim(LTrim(s, Whitespace), Whitespace)
  }

  /** WordPress `trailingslashit`: removes trailing forward and back slashes,
      then appends exactly one forward slash. */
  function TrailingSlashIt(s: string): (r: string)
    ensures |r| > 0 && r[|r| - 1] == '/'
    ensures |r| == 1 || r[|r| - 2] !in {'/', '\\'}
    ensures r[..|r| - 1] <= s
  {
    RTrim(s, {'/', '\\'}) + "/"
  }

  /** The part of `s` after its last '/' (all of `s` when it has none). */
  function AfterLastSlash(s: string): (r: string)
    ensures '/' !in r
    ensures |r| <= |s| && r == s[|s| - |r|..]
    ensures |r| < |s| ==> s[|s| - |r| - 1] == '/'
    decreases |s|
  {
    if s == [] || s[|s| - 1] == '/' then []
    else
      var init := s[..|s| - 1];
      var r' := AfterLastSlash(init);
      assert init[|init| - |r'|..] + [s[|s| - 1]] == s[|s| - |r'| - 1..];
      r' + [s[|s| - 1]]
  }

  /** PHP `basename` for '/'-separated paths without a suffix argument:
      trailing slashes are ignored and the last component is returned. */
  function Basename(path: string): string {
    AfterLastSlash(RTrim(path, {'/'}))
  }

  /** `basename` of a path built from a directory and a plain file name is
      that file name. */
  lemma {:induction false} BasenameOfChild(dir: string, name: string)
    requires name != [] && '/' !in name
    ensures Basename(dir + "/" + name) == name
  {
    var p := dir + "/" + name;
    assert p[|p| - 1] == name[|name| - 1];
    assert RTrim(p, {'/'}) == p;
    AfterLastSlashOfSuffix(dir + "/", name);
  }

  lemma {:induction false} AfterLastSlashOfSuffix(pre: string, name: string)
    requires pre != [] && pre[|pre| - 1] == '/'
    requires '/' !in name
    ensures AfterLastSlash(pre + name) == name
    decreases |name|
  {
    if name == [] {
      assert pre + name == pre;
    } else {
      var s := pre + name;
      assert s[..|s| - 1] == pre + name[..|name| - 1];
      AfterLastSlashOfSuffix(pre, name[..|name| - 1]);
      assert name == name[..|name| - 1] + [name[|name| - 1]];
    }
  }

  /** JavaScript `String.prototype.includes` / PHP `str_contains`. */
  predicate Contains(s: string, sub: string)
    decreases |s|
  {
    sub <= s || (s != [] && Contains(s[1..], sub))
  }

  /** `Contains` holds exactly when `sub` occurs at some index of `s`. */
  lemma {:induction false} ContainsAt(s: string, sub: string, k: nat)
    requires k + |sub| <= |s| && s[k..k + |sub|] == sub
    ensures Contains(s, sub)
    decreases k
  {
    if k > 0 {
      assert s[1..][k - 1..k - 1 + |sub|] == s[k..k + |sub|];
      ContainsAt(s[1..], sub, k - 1);
    }
  }

  /** A string found inside the middle part of a concatenation is found in the whole. */
  lemma ContainsInMiddle(a: string, sub: string, c: string)
    ensures Contains(a + sub + c, sub)
  {
    var s := a + sub + c;
    assert s[|a|..|a| + |sub|] == sub;
    ContainsAt(s, sub, |a|);
  }

  /** If a string does not contain `sub` anywhere, no index of it starts `sub`. */
  lemma {:induction false} NotContainsNowhere(s: string, sub: string, k: nat)
    requires !Contains(s, sub)
    requires k + |sub| <= |s|
    ensures s[k..k + |sub|] != sub
  {
    if s[k..k + |sub|] == sub {
      ContainsAt(s, sub, k);
    }
  }

  /** The decimal digit for `d`. */
  function Digit(d: nat): (c: char)
    requires d < 10
    ensures '0' <= c <= '9' && c as int - '0' as int == d
  {
    (d + '0' as int) as char
  }

  /** PHP's conversion of a non-negative integer to a string: its decimal digits. */
  function NatToString(n: nat): (s: string)
    ensures |s| >= 1
    ensures forall i :: 0 <= i < |s| ==> '0' <= s[i] <= '9'
    ensures s[0] == '0' ==> s == "0"
    decreases n
  {
    if n < 10 then [Digit(n)] else NatToString(n / 10) + [Digit(n % 10)]
  }

  /** The value of a string of decimal digits. */
  function DigitsValue(s: string): nat
    requires forall i :: 0 <= i < |s| ==> '0' <= s[i] <= '9'
  {
    if s == [] then 0 else 10 * DigitsValue(s[..|s| - 1]) + (s[|s| - 1] as int - '0' as int)
  }

  /** Reading the digits back gives the number: the conversion loses nothing. */
  lemma {:induction false} NatToStringValue(n: nat)
    ensures DigitsValue(NatToString(n)) == n
    decreases n
  {
    if n >= 10 {
      NatToStringValue(n / 10);
      var s := NatToString(n);
      assert s[..|s| - 1] == NatToString(n / 10);
    }
  }

  /** Different numbers have different decimal strings. */
  lemma NatToStringInjective(m: nat, n: nat)
    ensures NatToString(m) == NatToString(n) ==> m == n
  {
    NatToStringValue(m);
    NatToStringValue(n);
  }

  /** `s` ends with `suffix`. */
  predicate EndsWith(s: string, suffix: string) {
    |suffix| <= |s| && s[|s| - |suffix|..] == suffix
  }

  /** The whitespace PHP skips before a number in a string. */
  const NumericSpace: set<char> := {' ', '\t', '\n', '\r', '\U{B}', '\U{C}'}

  /** The bounds of PHP's 64-bit integers. */
  const IntMin: int := -0x8000_0000_0000_0000
  const IntMax: int := 0x7FFF_FFFF_FFFF_FFFF

  /** The longest prefix of `s` made of decimal digits. */
  function LeadingDigits(s: string): (d: string)
    ensures d <= s
    ensures forall i :: 0 <= i < |d| ==> '0' <= d[i] <= '9'
    ensures |d| < |s| ==> !('0' <= s[|d|] <= '9')
    decreases |s|
  {
    if s != [] && '0' <= s[0] <= '9' then [s[0]] + LeadingDigits(s[1..]) else []
  }

  /** `intval($s)` of a string: leading whitespace, an optional sign, then
      the leading decimal digits; no digits gives 0, and values beyond the
      64-bit range saturate. */
  function IntVal(s: string): (n: int)
    ensures IntMin <= n <= IntMax
  {
    var t := LTrim(s, NumericSpace);
    if t != [] && (t[0] == '-' || t[0] == '+') then
      var v: int := DigitsValue(LeadingDigits(t[1..]));
      if t[0] == '-' then (if -v < IntMin then IntMin else -v)
      else (if v > IntMax then IntMax else v)
    else
      var v := DigitsValue(LeadingDigits(t));
      if v > IntMax then IntMax else v
  }

  /** A string of digits is its own leading digits. */
  lemma {:induction false} AllLeadingDigits(s: string)
    requires forall i :: 0 <= i < |s| ==> '0' <= s[i] <= '9'
    ensures LeadingDigits(s) == s
    decreases |s|
  {
    if s != [] {
      AllLeadingDigits(s[1..]);
    }
  }

  /** `intval` reads back what PHP prints for an integer in range. */
  lemma IntValOfNat(n: nat)
    requires n <= IntMax
    ensures IntVal(NatToString(n)) == n
  {
    var s := NatToString(n);
    AllLeadingDigits(s);
    NatToStringValue(n);
    assert LTrim(s, NumericSpace) == s;
  }

  /** A string holding no decimal digit, the empty one included, reads as 0. */
  lemma IntValNoDigits(s: string)
    requires forall i :: 0 <= i < |s| ==> !('0' <= s[i] <= '9')
    ensures IntVal(s) == 0
  {
  }

  /** ... and with a minus sign, its negation. */
  lemma IntValOfNegated(n: nat)
    requires n <= IntMax
    ensures IntVal("-" + NatToString(n)) == -(n as int)
  {
    var s := NatToString(n);
    AllLeadingDigits(s);
    NatToStringValue(n);
    var m := "-" + s;
    assert m[1..] == s;
    assert LTrim(m, NumericSpace) == m;
  }
}
