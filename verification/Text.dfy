/** The string operations the models share, on ASCII text: strip, lower, upper, collapsing spaces,
    splitting and decimal numbers. */
module Text {

  predicate IsSpace(c: char) {
    c == ' ' || '\t' <= c <= '\r' || '\U{1c}' <= c <= '\U{1f}'
  }

  function Strip(s: string): (r: string)
    ensures |r| <= |s| && (r != [] ==> !IsSpace(r[0]) && !IsSpace(r[|r| - 1]))
    decreases |s|
  {
    if s == [] then []
    else if IsSpace(s[0]) then Strip(s[1..])
    else if IsSpace(s[|s| - 1]) then Strip(s[..|s| - 1])
    else s
  }

  function LowerChar(c: char): char {
    if 'A' <= c <= 'Z' then c - 'A' + 'a' else c
  }

  function UpperChar(c: char): char {
    if 'a' <= c <= 'z' then c - 'a' + 'A' else c
  }

  function Lower(s: string): (r: string)
    ensures |r| == |s|
  {
    seq(|s|, i requires 0 <= i < |s| => LowerChar(s[i]))
  }

  function Upper(s: string): (r: string)
    ensures |r| == |s|
  {
    seq(|s|, i requires 0 <= i < |s| => UpperChar(s[i]))
  }

  /** Every run of spaces becomes one blank. */
  function Collapse(s: string): string {
    if s == [] then []
    else if !IsSpace(s[0]) then [s[0]] + Collapse(s[1..])
    else if |s| > 1 && IsSpace(s[1]) then Collapse(s[1..])
    else " " + Collapse(s[1..])
  }

  function Norm(s: string): string {
    Lower(Collapse(Strip(s)))
  }

  predicate Plain(s: string) {
    forall i :: 0 <= i < |s| ==> !IsSpace(s[i]) && !('A' <= s[i] <= 'Z')
  }

  lemma {:induction false} CollapsePlain(s: string)
    requires Plain(s)
    ensures Collapse(s) == s
  {
    if s != [] { CollapsePlain(s[1..]); }
  }

  const CAPITALS := "ABCDEFGHIJKLMNOPQRSTUVWXYZ"
  const SMALL := "abcdefghijklmnopqrstuvwxyz"

  /** Letters change case one by one, and nothing else changes. */
  lemma CasesPair(c: char)
    ensures forall i :: 0 <= i < 26 ==> LowerChar(CAPITALS[i]) == SMALL[i] && UpperChar(SMALL[i]) == CAPITALS[i]
    ensures c !in CAPITALS ==> LowerChar(c) == c
    ensures c !in SMALL ==> UpperChar(c) == c
  {
    if 'A' <= c <= 'Z' { assert CAPITALS[(c - 'A') as int] == c; }
    if 'a' <= c <= 'z' { assert SMALL[(c - 'a') as int] == c; }
  }

  predicate Blank(s: string) {
    forall i :: 0 <= i < |s| ==> IsSpace(s[i])
  }

  lemma SpacesAre(c: char)
    ensures IsSpace(c) <==> c in " \t\n\U{b}\U{c}\r\U{1c}\U{1d}\U{1e}\U{1f}"
  {
  }

  /** Stripping takes spaces off both ends, and nothing else. */
  lemma {:induction false} StripCuts(s: string) returns (i: nat, j: nat)
    ensures i <= j <= |s| && Strip(s) == s[i..j]
    ensures forall k :: 0 <= k < i || j <= k < |s| ==> IsSpace(s[k])
    decreases |s|
  {
    hide IsSpace;
    i, j := 0, |s|;
    if s != [] && IsSpace(s[0]) {
      var rest := s[1..];
      i, j := StripCuts(rest);
      assert forall k :: 0 < k < |s| ==> s[k] == rest[k - 1];
      i, j := i + 1, j + 1;
    } else if s != [] && IsSpace(s[|s| - 1]) {
      i, j := StripCuts(s[..|s| - 1]);
    }
  }

  predicate Solid(s: string) {
    forall i :: 0 <= i < |s| ==> !IsSpace(s[i])
  }

  /** A gap becomes one blank. */
  lemma {:induction false} GapIsBlank(gap: string, rest: string)
    requires Blank(gap) && gap != [] && (rest != [] ==> !IsSpace(rest[0]))
    ensures Collapse(gap + rest) == " " + Collapse(rest)
    decreases |gap|
  {
    hide IsSpace;
    var all := gap + rest;
    assert all[0] == gap[0] && all[1..] == gap[1..] + rest;
    if |gap| > 1 {
      assert all[1] == gap[1];
      GapIsBlank(gap[1..], rest);
    } else {
      assert gap[1..] + rest == rest;
    }
  }

  /** Text without spaces stays as it is, before whatever follows. */
  lemma {:induction false} SolidStays(s: string, rest: string)
    requires Solid(s)
    ensures Collapse(s + rest) == s + Collapse(rest) && Collapse(s) == s
    decreases |s|
  {
    hide IsSpace;
    if s == [] {
      assert s + rest == rest;
    } else {
      SolidStays(s[1..], rest);
      assert (s + rest)[1..] == s[1..] + rest && s + Collapse(rest) == [s[0]] + (s[1..] + Collapse(rest));
    }
  }

  /** Lower-case text without spaces is its own normal form. */
  lemma PlainIsNormal(s: string)
    requires Plain(s)
    ensures Norm(s) == s && Strip(s) == s
  {
    CollapsePlain(s);
  }

  // ------------------------------------------------------------- splitting

  predicate Lacks(s: string, c: char) {
    forall i :: 0 <= i < |s| ==> s[i] != c
  }

  /** s.split(sep). */
  function Split(s: string, sep: char): (parts: seq<string>)
    ensures |parts| >= 1
  {
    if s == [] then [""]
    else
      var rest := Split(s[1..], sep);
      if s[0] == sep then [""] + rest else [[s[0]] + rest[0]] + rest[1..]
  }

  function Join(parts: seq<string>, sep: char): string {
    if parts == [] then "" else if |parts| == 1 then parts[0] else parts[0] + [sep] + Join(parts[1..], sep)
  }

  lemma {:induction false} SplitJoin(parts: seq<string>, sep: char)
    requires parts != [] && forall k :: 0 <= k < |parts| ==> Lacks(parts[k], sep)
    ensures Split(Join(parts, sep), sep) == parts
    decreases |Join(parts, sep)|, |parts|
  {
    var s := Join(parts, sep);
    if parts[0] != [] {
      var shorter := parts[0 := parts[0][1..]];
      assert Join(shorter, sep) == s[1..] by { if |parts| > 1 { assert shorter[1..] == parts[1..]; } }
      SplitJoin(shorter, sep);
      assert s[0] == parts[0][0] && parts[0] == [s[0]] + shorter[0] && shorter[1..] == parts[1..];
      assert parts == [parts[0]] + parts[1..];
    } else if |parts| > 1 {
      assert s[0] == sep && s[1..] == Join(parts[1..], sep);
      SplitJoin(parts[1..], sep);
    }
  }

  lemma {:induction false} JoinSplit(s: string, sep: char)
    ensures Join(Split(s, sep), sep) == s && forall k :: 0 <= k < |Split(s, sep)| ==> Lacks(Split(s, sep)[k], sep)
  {
    if s != [] {
      JoinSplit(s[1..], sep);
      var rest := Split(s[1..], sep);
      if s[0] == sep {
        assert ([""] + rest)[1..] == rest;
      } else {
        assert ([[s[0]] + rest[0]] + rest[1..])[1..] == rest[1..];
      }
    }
  }

  // ----------------------------------------------------------------- order

  /** The order of characters, position by position. */
  predicate Precedes(a: string, b: string) {
    b != [] && (a == [] || a[0] < b[0] || (a[0] == b[0] && Precedes(a[1..], b[1..])))
  }

  lemma {:induction false} TextsOrdered(a: string, b: string, c: string)
    ensures a == b || Precedes(a, b) || Precedes(b, a)
    ensures !(Precedes(a, b) && Precedes(b, a))
    ensures Precedes(a, b) && Precedes(b, c) ==> Precedes(a, c)
    decreases |a|
  {
    if a != [] && b != [] {
      TextsOrdered(a[1..], b[1..], if c == [] then [] else c[1..]);
      if a[0] == b[0] && a[1..] == b[1..] { assert a == [a[0]] + a[1..] == [b[0]] + b[1..] == b; }
    }
  }

  /** The first position where they differ decides, else the shorter one comes first. */
  lemma {:induction false} PrecedesIff(a: string, b: string)
    ensures Precedes(a, b) <==>
      exists k :: 0 <= k <= |a| && k < |b| && a[..k] == b[..k] && (k == |a| || a[k] < b[k])
    decreases |a|
  {
    forall k | 0 < k <= |a| && k < |b| && a[..k] == b[..k] ensures a[0] == b[0] { HeadsAgree(a, b, k); }
    if a != [] && b != [] && a[0] == b[0] {
      var x, y := a[1..], b[1..];
      PrecedesIff(x, y);
      if k :| 0 <= k <= |x| && k < |y| && x[..k] == y[..k] && (k == |x| || x[k] < y[k]) {
        assert a[..k + 1] == [a[0]] + x[..k] && b[..k + 1] == [b[0]] + y[..k];
      }
      if k :| 0 <= k <= |a| && k < |b| && a[..k] == b[..k] && (k == |a| || a[k] < b[k]) {
        assert k > 0 && x[..k - 1] == a[..k][1..] && y[..k - 1] == b[..k][1..];
      }
    } else if b != [] {
      assert a[..0] == b[..0];
    }
  }

  lemma HeadsAgree(a: string, b: string, k: nat)
    requires 0 < k <= |a| && k <= |b| && a[..k] == b[..k]
    ensures a[0] == b[0]
  {
    assert a[..k][0] == b[..k][0];
  }

  // --------------------------------------------------------------- numbers

  predicate IsDigit(c: char) {
    '0' <= c <= '9'
  }

  function Digit(c: char): (n: nat)
    requires IsDigit(c)
    ensures n < 10
  {
    (c - '0') as nat
  }

  function DigitChar(n: nat): (c: char)
    requires n < 10
    ensures IsDigit(c) && Digit(c) == n
  {
    n as char + '0'
  }

  predicate AllDigits(s: string) {
    forall i :: 0 <= i < |s| ==> IsDigit(s[i])
  }

  /** str(n). */
  function Show(n: nat): (s: string)
    ensures |s| > 0 && AllDigits(s)
  {
    if n < 10 then [DigitChar(n)] else Show(n / 10) + [DigitChar(n % 10)]
  }

  /** int(s) of decimal digits. */
  function Read(s: string): nat
    requires AllDigits(s)
  {
    if s == [] then 0 else 10 * Read(s[..|s| - 1]) + Digit(s[|s| - 1])
  }

  lemma {:induction false} ReadShow(n: nat)
    ensures Read(Show(n)) == n
  {
    if n >= 10 {
      ReadShow(n / 10);
      assert Show(n)[..|Show(n)| - 1] == Show(n / 10);
    } else {
      assert Show(n)[..0] == [];
    }
  }
}
