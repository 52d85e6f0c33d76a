/** The string operations of the standard library that the modelled code calls. */
module Text {

  /** What the program asks the Unicode tables: which characters are letters, which are digits, and the
      lower-case form of those that have another one. */
  datatype Unicode = Unicode(letters: set<char>, digits: set<char>, lower: map<char, char>)

  /** unicode.IsSpace */
  predicate IsSpace(c: char) {
    || c == '\t' || c == '\n' || c == 11 as char || c == 12 as char || c == '\r' || c == ' '
    || c == 0x85 as char || c == 0xA0 as char || c == 0x1680 as char
    || 0x2000 as char <= c <= 0x200A as char
    || c == 0x2028 as char || c == 0x2029 as char || c == 0x202F as char || c == 0x205F as char || c == 0x3000 as char
  }

  function ToLower(u: Unicode, s: string): (r: string)
    ensures |r| == |s|
  {
    seq(|s|, i requires 0 <= i < |s| => if s[i] in u.lower then u.lower[s[i]] else s[i])
  }

  function TrimLeft(s: string): string {
    if s != "" && IsSpace(s[0]) then TrimLeft(s[1..]) else s
  }

  function TrimRight(s: string): string {
    if s != "" && IsSpace(s[|s| - 1]) then TrimRight(s[..|s| - 1]) else s
  }

  /** strings.TrimSpace */
  function TrimSpace(s: string): string {
    TrimRight(TrimLeft(s))
  }

  /** Text that TrimSpace leaves alone. */
  predicate Trimmed(s: string) {
    s != "" ==> !IsSpace(s[0]) && !IsSpace(s[|s| - 1])
  }

  /** Text that is all blanks. */
  predicate AllSpace(s: string) {
    forall i :: 0 <= i < |s| ==> IsSpace(s[i])
  }

  predicate HasPrefix(s: string, prefix: string) {
    |prefix| <= |s| && s[..|prefix|] == prefix
  }

  predicate HasSuffix(s: string, suffix: string) {
    |suffix| <= |s| && s[|s| - |suffix|..] == suffix
  }

  /** strings.Contains */
  predicate Contains(s: string, t: string) {
    exists i :: 0 <= i <= |s| - |t| && HasPrefix(s[i..], t)
  }

  /** The first place where `t` occurs, or -1: strings.Index. */
  function Index(s: string, t: string): (i: int)
    ensures -1 <= i <= |s| - |t| || i == -1
    ensures i >= 0 ==> HasPrefix(s[i..], t)
  {
    if HasPrefix(s, t) then 0
    else if s == "" then -1
    else
      var i := Index(s[1..], t);
      if i == -1 then -1 else i + 1
  }

  function Join(parts: seq<string>, separator: string): string {
    if parts == [] then "" else if |parts| == 1 then parts[0] else parts[0] + separator + Join(parts[1..], separator)
  }

  /** strings.FieldsFunc with `keep` for the characters of a field; `current` is the field being read. */
  function FieldsFrom(keep: char -> bool, s: string, current: string): seq<string> {
    if s == [] then if current == [] then [] else [current]
    else if keep(s[0]) then FieldsFrom(keep, s[1..], current + [s[0]])
    else (if current == [] then [] else [current]) + FieldsFrom(keep, s[1..], [])
  }

  /** strings.Fields */
  function Fields(s: string): seq<string> {
    FieldsFrom(c => !IsSpace(c), s, "")
  }

  function NormalizeSpace(s: string): string {
    Join(Fields(s), " ")
  }

  /** The length in bytes of the UTF-8 form. */
  function ByteLength(s: string): (n: nat)
    ensures n >= |s|
  {
    if s == "" then 0
    else
      ByteLength(s[1..]) +
      if s[0] < 0x80 as char then 1
      else if s[0] < 0x800 as char then 2
      else if s[0] < 0x10000 as char then 3
      else 4
  }

  /** The %d form of a number. */
  function Decimal(n: nat): (s: string)
    ensures s != ""
  {
    if n < 10 then ['0' + n as char] else Decimal(n / 10) + ['0' + (n % 10) as char]
  }

  lemma TrimmedStays(s: string)
    requires Trimmed(s)
    ensures TrimSpace(s) == s
  {
  }

  lemma {:induction false} LeftBlanksGo(blanks: string, s: string)
    requires AllSpace(blanks)
    ensures TrimLeft(blanks + s) == TrimLeft(s)
  {
    if blanks == "" {
      assert blanks + s == s;
    } else {
      assert (blanks + s)[1..] == blanks[1..] + s;
      LeftBlanksGo(blanks[1..], s);
    }
  }

  lemma {:induction false} RightBlanksGo(s: string, blanks: string)
    requires AllSpace(blanks)
    ensures TrimRight(s + blanks) == TrimRight(s)
  {
    if blanks == "" {
      assert s + blanks == s;
    } else {
      var n := |blanks| - 1;
      assert (s + blanks)[..|s| + n] == s + blanks[..n];
      RightBlanksGo(s, blanks[..n]);
    }
  }

  /** Blanks around a text are trimmed off, and nothing else. */
  lemma PaddingTrims(before: string, s: string, after: string)
    requires AllSpace(before) && AllSpace(after) && Trimmed(s)
    ensures TrimSpace(before + s + after) == s
  {
    assert before + s + after == before + (s + after);
    LeftBlanksGo(before, s + after);
    if s == "" {
      assert s + after == after + "";
      LeftBlanksGo(after, "");
    } else {
      RightBlanksGo(s, after);
    }
  }

  lemma {:induction false} NoIndex(s: string, t: string)
    requires t != "" && !Contains(s, t)
    ensures Index(s, t) == -1
  {
    assert s[0..] == s;
    if s != "" {
      forall i | 0 <= i <= |s[1..]| - |t| ensures !HasPrefix(s[1..][i..], t) {
        assert s[1..][i..] == s[i + 1..];
      }
      NoIndex(s[1..], t);
    }
  }

  lemma {:induction false} FoundIndex(s: string, t: string)
    requires t != "" && Contains(s, t)
    ensures Index(s, t) >= 0
  {
    var i :| 0 <= i <= |s| - |t| && HasPrefix(s[i..], t);
    assert s[0..] == s;
    if i > 0 {
      assert s[1..][i - 1..] == s[i..];
      FoundIndex(s[1..], t);
    }
  }

  /** TrimSpace only takes blanks away, at the ends. */
  lemma TrimSpaceShortens(s: string)
    ensures Trimmed(TrimSpace(s)) && |TrimSpace(s)| <= |s| && (|TrimSpace(s)| == |s| ==> TrimSpace(s) == s)
  {
    TrimLeftShortens(s);
    TrimRightShortens(TrimLeft(s));
  }

  lemma {:induction false} TrimLeftShortens(s: string)
    ensures var r := TrimLeft(s); |r| <= |s| && (|r| == |s| ==> r == s) && (r != "" ==> !IsSpace(r[0]))
  {
    if s != "" && IsSpace(s[0]) { TrimLeftShortens(s[1..]); }
  }

  lemma {:induction false} TrimRightShortens(s: string)
    ensures var r := TrimRight(s); |r| <= |s| && (|r| == |s| ==> r == s)
    ensures var r := TrimRight(s); r != "" ==> r[0] == s[0] && !IsSpace(r[|r| - 1])
  {
    if s != "" && IsSpace(s[|s| - 1]) { TrimRightShortens(s[..|s| - 1]); }
  }

  /** A text whose first character does not occur before is first found there. */
  lemma {:induction false} FirstIndex(before: string, t: string, rest: string)
    requires t != "" && t[0] !in before
    ensures Index(before + t + rest, t) == |before|
  {
    var s := before + t + rest;
    if before == "" {
      assert s[..|t|] == t;
    } else {
      assert s[1..] == before[1..] + t + rest;
      assert s[..|t|][0] == before[0] || |t| > |s|;
      FirstIndex(before[1..], t, rest);
    }
  }

  /** A character that does not occur is not found. */
  lemma NotContained(s: string, t: string)
    requires t != "" && t[0] !in s
    ensures !Contains(s, t)
  {
    forall i | 0 <= i <= |s| - |t| ensures !HasPrefix(s[i..], t) {
      assert s[i..][..|t|][0] == s[i];
    }
  }
}
