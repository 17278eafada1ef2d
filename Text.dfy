/**
 * The handful of Python string built-ins the client relies on, written out
 * so that their edge cases are explicit: `str.strip()`, `str.rstrip('/')`,
 * `s.split('.')[0]`, `'%s' % n` for a status code and `str.lower()`.
 */
module Text {

  /** The characters Python 2's `str.strip()` removes when given no argument. */
  predicate IsSpace(c: char) {
    c == ' ' || c == '\t' || c == '\n' || c == '\r' || c == '\U{0B}' || c == '\U{0C}'
  }

  /** `s.lstrip()`: drops the longest all-whitespace prefix. */
  function TrimLeft(s: string): (r: string)
    ensures |r| <= |s| && r == s[|s| - |r|..]
    ensures forall i :: 0 <= i < |s| - |r| ==> IsSpace(s[i])
    ensures r == [] || !IsSpace(r[0])
  {
    if s != [] && IsSpace(s[0]) then TrimLeft(s[1..]) else s
  }

  /** `s.rstrip()`: drops the longest all-whitespace suffix. */
  function TrimRight(s: string): (r: string)
    ensures |r| <= |s| && r == s[..|r|]
    ensures forall i :: |r| <= i < |s| ==> IsSpace(s[i])
    ensures r == [] || !IsSpace(r[|r| - 1])
  {
    if s != [] && IsSpace(s[|s| - 1]) then TrimRight(s[..|s| - 1]) else s
  }

  /**
   * `s.strip()`: the middle of `s`, after its leading and before its
   * trailing whitespace, and with no whitespace at either end.
   */
  function Strip(s: string): (r: string)
    ensures r == [] || (!IsSpace(r[0]) && !IsSpace(r[|r| - 1]))
    ensures var i := |s| - |TrimLeft(s)|;
      && i + |r| <= |s| && r == s[i..i + |r|]
      && (forall k :: 0 <= k < i ==> IsSpace(s[k]))
      && (forall k :: i + |r| <= k < |s| ==> IsSpace(s[k]))
  {
    var t := TrimLeft(s);
    var r := TrimRight(t);
    PrefixOfSuffix(s, |s| - |t|, |r|);
    r
  }

  /** A prefix of a suffix is a middle slice, and what follows it lines up. */
  lemma PrefixOfSuffix(s: string, i: nat, m: nat)
    requires i + m <= |s|
    ensures s[i..][..m] == s[i..i + m]
    ensures forall k :: i + m <= k < |s| ==> s[i..][k - i] == s[k]
  {
  }

  /** Stripping a string that has no whitespace at either end gives it back. */
  lemma StripUntrimmed(s: string)
    requires s == [] || (!IsSpace(s[0]) && !IsSpace(s[|s| - 1]))
    ensures Strip(s) == s
  {
  }

  /** `s.rstrip(c)`: drops the longest suffix made only of `c`. */
  function TrimRightChar(s: string, c: char): (r: string)
    ensures |r| <= |s| && r == s[..|r|]
    ensures forall i :: |r| <= i < |s| ==> s[i] == c
    ensures r == [] || r[|r| - 1] != c
  {
    if s != [] && s[|s| - 1] == c then TrimRightChar(s[..|s| - 1], c) else s
  }

  /**
   * `s.split('.')[0]`: the part of `s` before its first dot, or all of `s`
   * when it has none.
   */
  function BeforeFirstDot(s: string): (r: string)
    ensures |r| <= |s| && r == s[..|r|]
    ensures '.' !in r
    ensures |r| < |s| ==> s[|r|] == '.'
    ensures '.' !in s ==> r == s
  {
    if s == [] || s[0] == '.' then [] else [s[0]] + BeforeFirstDot(s[1..])
  }

  function DigitChar(d: nat): (c: char)
    requires d < 10
  {
    "0123456789"[d]
  }

  predicate IsDigit(c: char) {
    '0' <= c <= '9'
  }

  function DigitValue(c: char): nat
    requires IsDigit(c)
  {
    (c as int - '0' as int) as nat
  }

  /** The value of a string of decimal digits (the reader that undoes `NatToDecimal`). */
  function DecimalValue(s: string): nat
    requires forall i :: 0 <= i < |s| ==> IsDigit(s[i])
  {
    if s == [] then 0 else DecimalValue(s[..|s| - 1]) * 10 + DigitValue(s[|s| - 1])
  }

  /**
   * `'%s' % n` for a non-negative integer: its decimal digits, without
   * leading zeros, which read back to `n`.
   */
  function NatToDecimal(n: nat): (r: string)
    ensures |r| >= 1
    ensures forall i :: 0 <= i < |r| ==> IsDigit(r[i])
    ensures r[0] == '0' ==> n == 0 && r == "0"
    ensures DecimalValue(r) == n
  {
    if n < 10 then [DigitChar(n)]
    else
      var front := NatToDecimal(n / 10);
      var r := front + [DigitChar(n % 10)];
      assert r[..|r| - 1] == front;
      r
  }

  /** Python 2 `str.lower()` on one character: ASCII letters only. */
  function LowerChar(c: char): (r: char)
    ensures 'A' <= c <= 'Z' ==> r as int == c as int + 32
    ensures !('A' <= c <= 'Z') ==> r == c
  {
    if 'A' <= c <= 'Z' then (c as int + 32) as char else c
  }

  /** `s.lower() == [c]` for a lower-case letter `c`. */
  predicate LowersTo(s: string, c: char) {
    |s| == 1 && LowerChar(s[0]) == c
  }

  /** Python 2 `'\n'.join(parts)`. */
  function JoinNewline(parts: seq<string>): string {
    if parts == [] then ""
    else if |parts| == 1 then parts[0]
    else parts[0] + "\n" + JoinNewline(parts[1..])
  }

  /**
   * `os.path.join(dir, name)` on POSIX: an absolute `name` replaces `dir`;
   * for a relative one a separator is inserted unless `dir` is empty or
   * already ends in one.
   */
  function PathJoin(dir: string, name: string): (r: string)
    ensures |name| <= |r| && r[|r| - |name|..] == name
    ensures name != "" && name[0] == '/' ==> r == name
    ensures name == "" || name[0] != '/' ==>
      && (dir == "" ==> r == name)
      && (dir != "" && dir[|dir| - 1] == '/' ==> r == dir + name)
      && (dir != "" && dir[|dir| - 1] != '/' ==> r == dir + "/" + name)
  {
    if name != "" && name[0] == '/' then name
    else
      var head := if dir == "" || dir[|dir| - 1] == '/' then dir else dir + "/";
      var r := head + name;
      assert r[|head|..] == name;
      r
  }

  /** `os.path.basename(path)` on POSIX: what follows the last `/`, all of `path` when it has none. */
  function Basename(path: string): (r: string)
    ensures |r| <= |path| && r == path[|path| - |r|..]
    ensures '/' !in r
    ensures |r| < |path| ==> path[|path| - |r| - 1] == '/'
  {
    if path == [] || path[|path| - 1] == '/' then []
    else
      var front := path[..|path| - 1];
      var r := Basename(front) + [path[|path| - 1]];
      assert path[|path| - |r|..] == path[|path| - |r|..|path| - 1] + [path[|path| - 1]];
      r
  }

  /** The basename of a joined path is the name joined on, when it holds no `/`. */
  lemma {:induction false} BasenameOfJoin(dir: string, name: string)
    requires '/' !in name
    ensures Basename(PathJoin(dir, name)) == name
  {
    var head := if dir == "" || dir[|dir| - 1] == '/' then dir else dir + "/";
    assert name != "" ==> name[0] in name;
    assert PathJoin(dir, name) == head + name;
    BasenameAfterSlash(head, name);
  }

  lemma {:induction false} BasenameAfterSlash(head: string, name: string)
    requires head == "" || head[|head| - 1] == '/'
    requires '/' !in name
    ensures Basename(head + name) == name
  {
    var p := head + name;
    if name == [] {
      assert p == head;
    } else {
      var last := name[|name| - 1];
      var front := name[..|name| - 1];
      assert last in name;
      assert p[|p| - 1] == last;
      assert p[..|p| - 1] == head + front;
      assert '/' !in front by {
        assert forall i :: 0 <= i < |front| ==> front[i] == name[i];
      }
      BasenameAfterSlash(head, front);
      assert Basename(p) == Basename(head + front) + [last];
      assert front + [last] == name;
    }
  }
}
