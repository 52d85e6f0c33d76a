/** Escaping an id for a CSS selector, and decoding it by the rules of CSS Syntax Level 3. */
module CssIdentifier {
  import opened Wrappers
  import opened Text

  // ---------- the program ----------

  /** On ASCII the Unicode tables have the letters A to Z and a to z and the digits 0 to 9. */
  ghost predicate AsciiTables(u: Unicode) {
    forall c :: c < 0x80 as char ==>
      (c in u.letters <==> 'a' <= c <= 'z' || 'A' <= c <= 'Z') && (c in u.digits <==> '0' <= c <= '9')
  }

  /** isSafeCSSIdentifierRune */
  predicate IsSafe(u: Unicode, c: char) {
    c == '-' || c == '_' || c in u.letters || c in u.digits
  }

  function HexDigit(d: nat): char
    requires d < 16
  {
    if d < 10 then '0' + d as char else 'A' + (d - 10) as char
  }

  /** The %X form of a number. */
  function Hex(n: nat): (s: string)
    ensures s != ""
  {
    if n < 16 then [HexDigit(n)] else Hex(n / 16) + [HexDigit(n % 16)]
  }

  /** What cssIdentifier writes for one rune; `first` says whether it is the first of the id. */
  function EscapeRune(u: Unicode, c: char, first: bool): string {
    if IsSafe(u, c) && !(first && c in u.digits) then [c] else "\\" + Hex(c as nat) + " "
  }

  function Escape(u: Unicode, value: string, first: bool): string {
    if value == "" then "" else EscapeRune(u, value[0], first) + Escape(u, value[1..], false)
  }

  function Identifier(u: Unicode, value: string): string {
    Escape(u, value, true)
  }

  /** cssIdentifier, with its builder. */
  method BuildIdentifier(u: Unicode, value: string) returns (b: string)
    ensures b == Identifier(u, value)
  {
    b := "";
    for i := 0 to |value|
      invariant b + Escape(u, value[i..], i == 0) == Identifier(u, value)
    {
      assert value[i..][1..] == value[i + 1..];
      b := b + EscapeRune(u, value[i], i == 0);
    }
  }

  // ---------- reading an identifier: CSS Syntax Level 3, sections 4.2, 4.3.7, 4.3.9 and 4.3.11 ----------

  predicate IsIdentStart(c: char) {
    'a' <= c <= 'z' || 'A' <= c <= 'Z' || c == '_' || c >= 0x80 as char
  }

  predicate IsIdent(c: char) {
    IsIdentStart(c) || '0' <= c <= '9' || c == '-'
  }

  predicate IsHex(c: char) {
    '0' <= c <= '9' || 'a' <= c <= 'f' || 'A' <= c <= 'F'
  }

  function HexValue(c: char): (d: nat)
    requires IsHex(c)
    ensures d < 16
  {
    if '0' <= c <= '9' then (c - '0') as nat
    else if 'a' <= c <= 'f' then (c - 'a') as nat + 10
    else (c - 'A') as nat + 10
  }

  predicate IsCssSpace(c: char) {
    c == '\n' || c == '\t' || c == ' '
  }

  /** A backslash and something other than a newline. */
  predicate ValidEscape(s: string) {
    |s| >= 2 && s[0] == '\\' && s[1] != '\n'
  }

  /** The next three code points would start an identifier. */
  predicate StartsIdent(s: string) {
    if s == "" then false
    else if s[0] == '-' then |s| >= 2 && (IsIdentStart(s[1]) || s[1] == '-' || ValidEscape(s[1..]))
    else IsIdentStart(s[0]) || ValidEscape(s)
  }

  /** Up to `k` hex digits: their value on top of `acc`, and the rest. */
  function TakeHex(s: string, k: nat, acc: nat): (r: (nat, string))
    ensures |r.1| <= |s|
  {
    if k > 0 && s != "" && IsHex(s[0]) then TakeHex(s[1..], k - 1, acc * 16 + HexValue(s[0])) else (acc, s)
  }

  const REPLACEMENT := 0xFFFD as char

  /** The character with a code point, or the replacement character for zero, surrogates and numbers
      beyond Unicode. */
  function ToChar(n: nat): char {
    if n == 0 || 0xD800 <= n <= 0xDFFF || n > 0x10FFFF then REPLACEMENT else n as char
  }

  /** Consume an escaped code point, after the backslash. */
  function TakeEscape(s: string): (r: (char, string))
    requires s != ""
    ensures |r.1| < |s|
  {
    if IsHex(s[0]) then
      var (n, rest) := TakeHex(s[1..], 5, HexValue(s[0]));
      (ToChar(n), if rest != "" && IsCssSpace(rest[0]) then rest[1..] else rest)
    else (s[0], s[1..])
  }

  /** Consume an ident sequence: the name and what follows it. */
  function TakeName(s: string): (r: (string, string))
    ensures |r.1| <= |s|
    decreases |s|
  {
    if s != "" && IsIdent(s[0]) then
      var (name, rest) := TakeName(s[1..]);
      ([s[0]] + name, rest)
    else if ValidEscape(s) then
      var (c, after) := TakeEscape(s[1..]);
      var (name, rest) := TakeName(after);
      ([c] + name, rest)
    else ("", s)
  }

  /** The identifier that `s` consists of. */
  function Decode(s: string): Option<string> {
    if StartsIdent(s) && TakeName(s).1 == "" then Some(TakeName(s).0) else None
  }

  // ---------- decoding undoes escaping ----------

  function FoldHex(digits: string, acc: nat): nat
    requires forall i :: 0 <= i < |digits| ==> IsHex(digits[i])
  {
    if digits == "" then acc else FoldHex(digits[1..], acc * 16 + HexValue(digits[0]))
  }

  lemma {:induction false} FoldSnoc(digits: string, d: char, acc: nat)
    requires IsHex(d) && forall i :: 0 <= i < |digits| ==> IsHex(digits[i])
    ensures FoldHex(digits + [d], acc) == FoldHex(digits, acc) * 16 + HexValue(d)
    decreases |digits|
  {
    if digits == "" {
      assert (digits + [d])[1..] == "";
    } else {
      assert (digits + [d])[1..] == digits[1..] + [d];
      FoldSnoc(digits[1..], d, acc * 16 + HexValue(digits[0]));
    }
  }

  lemma {:induction false} TakeAll(digits: string, tail: string, k: nat, acc: nat)
    requires forall i :: 0 <= i < |digits| ==> IsHex(digits[i])
    requires |digits| <= k && tail != "" && !IsHex(tail[0])
    ensures TakeHex(digits + tail, k, acc) == (FoldHex(digits, acc), tail)
    decreases |digits|
  {
    if digits == "" {
      assert digits + tail == tail;
    } else {
      assert (digits + tail)[1..] == digits[1..] + tail;
      TakeAll(digits[1..], tail, k - 1, acc * 16 + HexValue(digits[0]));
    }
  }

  function Pow16(k: nat): nat {
    if k == 0 then 1 else 16 * Pow16(k - 1)
  }

  /** The hex form of a number below 16^k has at most k digits, and reads back as the number. */
  lemma {:induction false} HexReads(n: nat, k: nat)
    requires k > 0 && n < Pow16(k)
    ensures |Hex(n)| <= k && (forall i :: 0 <= i < |Hex(n)| ==> IsHex(Hex(n)[i])) && FoldHex(Hex(n), 0) == n
    decreases n
  {
    if n < 16 {
      assert Hex(n)[1..] == "";
    } else {
      HexReads(n / 16, k - 1);
      FoldSnoc(Hex(n / 16), HexDigit(n % 16), 0);
    }
  }

  lemma EscapeReads(c: char, rest: string)
    ensures TakeEscape(Hex(c as nat) + " " + rest) == (ToChar(c as nat), rest)
  {
    var n := c as nat;
    assert Pow16(6) == 0x1000000;
    HexReads(n, 6);
    var digits := Hex(n);
    var s := digits + " " + rest;
    assert s[1..] == digits[1..] + (" " + rest);
    TakeAll(digits[1..], " " + rest, 5, HexValue(digits[0]));
    assert (" " + rest)[1..] == rest;
  }

  /** Reading back what was written for one rune. */
  lemma RuneReads(u: Unicode, c: char, first: bool, rest: string)
    requires AsciiTables(u)
    ensures var (name, tail) := TakeName(rest);
            TakeName(EscapeRune(u, c, first) + rest) == ([if c as nat == 0 then REPLACEMENT else c] + name, tail)
  {
    var e := EscapeRune(u, c, first);
    if IsSafe(u, c) && !(first && c in u.digits) {
      assert IsIdent(c);
      assert (e + rest)[1..] == rest;
    } else {
      EscapeReads(c, rest);
      assert (e + rest)[1..] == Hex(c as nat) + " " + rest;
      HexReads(c as nat, 6) by { assert Pow16(6) == 0x1000000; }
      assert IsHex(Hex(c as nat)[0]);
    }
  }

  function WithoutNul(value: string): string {
    if value == "" then "" else [if value[0] as nat == 0 then REPLACEMENT else value[0]] + WithoutNul(value[1..])
  }

  /** Text that does not go on with the identifier before it. */
  predicate EndsName(rest: string) {
    rest == "" || (!IsIdent(rest[0]) && rest[0] != '\\')
  }

  lemma NoName(rest: string)
    requires EndsName(rest)
    ensures TakeName(rest) == ("", rest)
  {
  }

  /** A name is no longer than what it was read from, and as long only when nothing in it was escaped. */
  lemma {:induction false} NameLength(s: string)
    ensures var (name, rest) := TakeName(s);
            |name| + |rest| <= |s| &&
            (|name| + |rest| == |s| ==> s == name + rest && forall i :: 0 <= i < |name| ==> IsIdent(name[i]))
    decreases |s|
  {
    if s != "" && IsIdent(s[0]) {
      NameLength(s[1..]);
      var (name, rest) := TakeName(s[1..]);
      assert |name| + |rest| == |s[1..]| ==> s == [s[0]] + name + rest;
    } else if ValidEscape(s) {
      NameLength(TakeEscape(s[1..]).1);
    }
  }

  lemma {:induction false} NameReads(u: Unicode, value: string, first: bool, rest: string)
    requires AsciiTables(u) && EndsName(rest)
    ensures TakeName(Escape(u, value, first) + rest) == (WithoutNul(value), rest)
  {
    hide TakeName, EscapeRune, EndsName;
    if value == "" {
      assert "" + rest == rest;
      NoName(rest);
    } else {
      var e, more := EscapeRune(u, value[0], first), Escape(u, value[1..], false);
      NameReads(u, value[1..], false, rest);
      RuneReads(u, value[0], first, more + rest);
      assert e + more + rest == e + (more + rest);
    }
  }

  lemma {:induction false} NulIsLost(value: string)
    ensures WithoutNul(value) == value <==> 0 as char !in value
  {
    if value != "" {
      NulIsLost(value[1..]);
      assert value == [value[0]] + value[1..];
    }
  }

  predicate IsAsciiDigit(c: char) {
    '0' <= c <= '9'
  }

  /** An id that begins like an identifier once escaped: not empty, not a lone hyphen, and no hyphen
      followed by a digit. */
  predicate Writable(value: string) {
    value != "" && value != "-" && !(|value| >= 2 && value[0] == '-' && IsAsciiDigit(value[1]))
  }

  lemma EscapeStart(u: Unicode, value: string, rest: string)
    requires AsciiTables(u) && EndsName(rest)
    ensures StartsIdent(Identifier(u, value) + rest) <==> Writable(value)
  {
    if value == "" {
      assert Identifier(u, value) + rest == rest;
    } else {
      var more := Escape(u, value[1..], false) + rest;
      var e := EscapeRune(u, value[0], true);
      assert Identifier(u, value) + rest == e + more;
      if e == [value[0]] {
        assert value[0] != '\\';
        if value[0] == '-' {
          if |value| >= 2 {
            SecondRune(u, value, rest);
          } else {
            assert Escape(u, value[1..], false) == "" && more == rest;
          }
        }
      } else {
        HexNotNewline(value[0]);
      }
    }
  }

  lemma HexNotNewline(c: char)
    ensures Hex(c as nat)[0] != '\n'
  {
    assert Pow16(6) == 0x1000000;
    HexReads(c as nat, 6);
    assert IsHex(Hex(c as nat)[0]);
  }

  lemma SecondRune(u: Unicode, value: string, tail: string)
    requires AsciiTables(u) && |value| >= 2 && value[0] == '-'
    ensures StartsIdent(Identifier(u, value) + tail) <==> !IsAsciiDigit(value[1])
  {
    var s := Identifier(u, value) + tail;
    var e := EscapeRune(u, value[1], false);
    var rest := Escape(u, value[2..], false) + tail;
    assert value[1..][1..] == value[2..];
    assert '-' !in u.digits;
    assert EscapeRune(u, value[0], true) == ['-'];
    assert Escape(u, value[1..], false) + tail == e + rest;
    assert s == ['-'] + (e + rest);
    assert s[1..] == e + rest;
    if e != [value[1]] { HexNotNewline(value[1]); }
  }

  /** Decoding gives the id back exactly for ids without NUL that are writable. */
  lemma DecodeUndoesEscape(u: Unicode, value: string)
    requires AsciiTables(u)
    ensures Decode(Identifier(u, value)) == Some(value) <==> Writable(value) && 0 as char !in value
  {
    assert Identifier(u, value) + "" == Identifier(u, value);
    NameReads(u, value, true, "");
    NulIsLost(value);
    EscapeStart(u, value, "");
  }
}
