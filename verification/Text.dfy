/** Go's string helpers, as far as the modelled code uses them, and the decimal digits of a number. */
module Text {

  datatype Option<+T> = None | Some(value: T)

  datatype Result<+T, +E> = Ok(value: T) | Err(error: E)

  /** The Unicode White_Space characters, which `strings.TrimSpace` strips. */
  predicate IsSpace(c: char) {
    c == '\t' || c == '\n' || c == '\U{0B}' || c == '\U{0C}' || c == '\r' || c == ' ' ||
    c == '\U{85}' || c == '\U{A0}' || c == '\U{1680}' || '\U{2000}' <= c <= '\U{200A}' ||
    c == '\U{2028}' || c == '\U{2029}' || c == '\U{202F}' || c == '\U{205F}' || c == '\U{3000}'
  }

  function TrimLeftSpace(s: string): string {
    if s != "" && IsSpace(s[0]) then TrimLeftSpace(s[1..]) else s
  }

  function TrimRightSpace(s: string): string {
    if s != "" && IsSpace(s[|s| - 1]) then TrimRightSpace(s[..|s| - 1]) else s
  }

  function TrimSpace(s: string): string {
    TrimRightSpace(TrimLeftSpace(s))
  }

  function ToLowerChar(c: char): char {
    if 'A' <= c <= 'Z' then ((c as int) - ('A' as int) + ('a' as int)) as char else c
  }

  function ToLower(s: string): (r: string)
    ensures |r| == |s|
  {
    seq(|s|, i requires 0 <= i < |s| => ToLowerChar(s[i]))
  }

  function NormalizeIdentifier(name: string): string {
    ToLower(TrimSpace(name))
  }

  predicate AllSpace(s: string) {
    forall i :: 0 <= i < |s| ==> IsSpace(s[i])
  }

  lemma {:induction false} LeftTrimmed(s: string) returns (before: string)
    ensures s == before + TrimLeftSpace(s) && AllSpace(before)
    ensures TrimLeftSpace(s) == "" || !IsSpace(TrimLeftSpace(s)[0])
  {
    before := "";
    if s != "" && IsSpace(s[0]) {
      before := LeftTrimmed(s[1..]);
      before := [s[0]] + before;
    }
  }

  lemma {:induction false} RightTrimmed(s: string) returns (after: string)
    ensures s == TrimRightSpace(s) + after && AllSpace(after)
    ensures var t := TrimRightSpace(s); t == "" || !IsSpace(t[|t| - 1])
  {
    after := "";
    if s != "" && IsSpace(s[|s| - 1]) {
      after := RightTrimmed(s[..|s| - 1]);
      after := after + [s[|s| - 1]];
    }
  }

  /** An identifier loses the space around it, and nothing else but the case of its letters. */
  lemma NormalizedIdentifier(name: string) returns (before: string, core: string, after: string)
    ensures name == before + core + after && AllSpace(before) && AllSpace(after)
    ensures core == "" || (!IsSpace(core[0]) && !IsSpace(core[|core| - 1]))
    ensures |NormalizeIdentifier(name)| == |core|
    ensures forall i :: 0 <= i < |core| ==>
              var (was, now) := (core[i], NormalizeIdentifier(name)[i]);
              if 'A' <= was <= 'Z' then now as int == was as int + 32 else now == was
  {
    before := LeftTrimmed(name);
    after := RightTrimmed(TrimLeftSpace(name));
    core := TrimSpace(name);
    assert name == before + (core + after) == before + core + after;
    if core != "" { assert core[0] == TrimLeftSpace(name)[0]; }
  }

  function TrimPrefix(s: string, c: char): string {
    if s != "" && s[0] == c then s[1..] else s
  }

  function TrimLeft(s: string, c: char): string {
    if s != "" && s[0] == c then TrimLeft(s[1..], c) else s
  }

  function TrimRight(s: string, c: char): string {
    if s != "" && s[|s| - 1] == c then TrimRight(s[..|s| - 1], c) else s
  }

  function Repeat(c: char, n: nat): (r: string)
    ensures |r| == n && forall i :: 0 <= i < n ==> r[i] == c
  {
    seq(n, i => c)
  }

  /** `strings.IndexByte`: the first position of `c`, or -1. */
  function IndexOf(s: string, c: char): (i: int)
    ensures -1 <= i < |s|
    ensures i == -1 <==> c !in s
    ensures i >= 0 ==> s[i] == c && forall j :: 0 <= j < i ==> s[j] != c
  {
    if s == "" then -1
    else if s[0] == c then 0
    else
      var rest := IndexOf(s[1..], c);
      assert s == [s[0]] + s[1..];
      if rest < 0 then -1
      else
        assert forall j :: 1 <= j < rest + 1 ==> s[j] == s[1..][j - 1];
        rest + 1
  }

  /** `strings.Cut`: what stands before and after the first `c`. */
  function Cut(s: string, c: char): (string, string) {
    var i := IndexOf(s, c);
    if i < 0 then (s, "") else (s[..i], s[i + 1..])
  }

  /** `strings.Split` on a single character. */
  function Split(s: string, c: char): (parts: seq<string>)
    ensures |parts| >= 1
    decreases |s|
  {
    var i := IndexOf(s, c);
    if i < 0 then [s] else [s[..i]] + Split(s[i + 1..], c)
  }

  /** The parts with a `c` between one and the next. */
  function Join(parts: seq<string>, c: char): string
    requires parts != []
  {
    if |parts| == 1 then parts[0] else parts[0] + [c] + Join(parts[1..], c)
  }

  predicate NoneHolds(parts: seq<string>, c: char) {
    forall i :: 0 <= i < |parts| ==> c !in parts[i]
  }

  lemma JoinFirst(first: string, rest: seq<string>, c: char)
    requires rest != []
    ensures Join([first] + rest, c) == first + [c] + Join(rest, c)
    ensures NoneHolds([first] + rest, c) <==> c !in first && NoneHolds(rest, c)
  {
    var parts := [first] + rest;
    assert parts[1..] == rest && parts[0] == first;
    assert forall i :: 0 <= i < |rest| ==> rest[i] == parts[i + 1];
  }

  /** Splitting undoes joining: no part holds the separator, and the parts joined by it are the string. */
  lemma {:induction false} SplitJoins(s: string, c: char)
    ensures NoneHolds(Split(s, c), c) && Join(Split(s, c), c) == s
    decreases |s|
  {
    var i := IndexOf(s, c);
    if i >= 0 {
      SplitJoins(s[i + 1..], c);
      JoinFirst(s[..i], Split(s[i + 1..], c), c);
      CutAt(s, i);
    }
  }

  lemma CutAt(s: string, i: nat)
    requires i < |s|
    ensures s == s[..i] + [s[i]] + s[i + 1..]
  {
  }

  lemma FirstIndex(a: string, c: char, b: string)
    requires c !in a
    ensures IndexOf(a + [c] + b, c) == |a|
    ensures (a + [c] + b)[..|a|] == a && (a + [c] + b)[|a| + 1..] == b
  {
    var s := a + [c] + b;
    assert s[|a|] == c;
    forall j | 0 <= j < |a| ensures s[j] == a[j] != c {}
  }

  /** There is only one way to split a string. */
  lemma {:induction false} JoinSplits(parts: seq<string>, c: char)
    requires parts != [] && NoneHolds(parts, c)
    ensures Split(Join(parts, c), c) == parts
    decreases |parts|
  {
    if |parts| == 1 {
      assert parts == [parts[0]];
    } else {
      assert parts == [parts[0]] + parts[1..];
      JoinFirst(parts[0], parts[1..], c);
      FirstIndex(parts[0], c, Join(parts[1..], c));
      JoinSplits(parts[1..], c);
    }
  }

  predicate IsDigit(c: char) {
    '0' <= c <= '9'
  }

  predicate AllDigits(s: string) {
    forall i :: 0 <= i < |s| ==> IsDigit(s[i])
  }

  function DigitValue(c: char): (d: nat)
    requires IsDigit(c)
    ensures d < 10
  {
    (c as int) - ('0' as int)
  }

  /** The number a string of digits denotes; the empty string denotes 0. */
  function ValueOf(s: string): nat
    requires AllDigits(s)
  {
    if s == "" then 0 else 10 * ValueOf(s[..|s| - 1]) + DigitValue(s[|s| - 1])
  }

  /** The decimal digits of a number, as `strconv.Itoa` and `big.Int.String` print it. */
  function Digits(n: nat): (s: string)
    ensures |s| >= 1
  {
    if n < 10 then [(n + ('0' as int)) as char]
    else Digits(n / 10) + [(n % 10 + ('0' as int)) as char]
  }

  lemma {:induction false} DigitsDenote(n: nat)
    ensures AllDigits(Digits(n)) && ValueOf(Digits(n)) == n
    ensures Digits(n)[0] == '0' ==> n == 0
  {
    var s := Digits(n);
    if n < 10 {
      assert s[..0] == "";
    } else {
      DigitsDenote(n / 10);
      assert s[..|s| - 1] == Digits(n / 10);
    }
  }

  lemma DigitsInjective(m: nat, n: nat)
    requires Digits(m) == Digits(n)
    ensures m == n
  {
    DigitsDenote(m);
    DigitsDenote(n);
  }
}
