/**
  Reading the kernel version out of `/proc/version`: the text after "Linux version " is cut to
  32 bytes, split at separators, and the first three parts are parsed as decimal `u32` numbers.

  `ParseU32` follows `std.fmt.parseInt` on parts that hold no sign, as signs are separators here.
*/
module KernelVersion {
  import opened Outcomes
  import opened Sequences

  const PREFIX: string := "Linux version "
  const SEPARATORS: string := ". -+\n"
  const SEARCH_LIMIT: nat := 256
  const WINDOW: nat := 32
  const MAX_U32: nat := 0xFFFF_FFFF

  datatype Version = Version(major: nat, minor: nat, patch: nat)

  // ----- Parsing

  predicate IsDigit(c: char) {
    '0' <= c <= '9'
  }

  /** Digits with underscores between them; fails on any other character and on overflow. */
  function ParseDigits(s: string, acc: nat): Option<nat> {
    if s == "" then Some(acc)
    else if s[0] == '_' then ParseDigits(s[1..], acc)
    else if !IsDigit(s[0]) then None
    else
      var next := acc * 10 + (s[0] as int - '0' as int);
      if next > MAX_U32 then None else ParseDigits(s[1..], next)
  }

  function ParseU32(s: string): Option<nat> {
    if s == "" || s[0] == '_' || s[|s| - 1] == '_' then None else ParseDigits(s, 0)
  }

  predicate OccursAt(s: string, pattern: string, k: nat) {
    k + |pattern| <= |s| && s[k..k + |pattern|] == pattern
  }

  /** Where the pattern first occurs, from `i` on. */
  function Find(s: string, pattern: string, i: nat): (r: Option<nat>)
    requires i <= |s|
    ensures r.Some? ==> i <= r.value && OccursAt(s, pattern, r.value)
    ensures forall k: nat :: i <= k && (r.Some? ==> k < r.value) ==> !OccursAt(s, pattern, k)
    decreases |s| - i
  {
    if OccursAt(s, pattern, i) then Some(i)
    else if i == |s| then None
    else Find(s, pattern, i + 1)
  }

  /** The stretch up to the first separator. */
  function FirstPart(s: string): (n: nat)
    ensures n <= |s| && (forall k :: 0 <= k < n ==> s[k] !in SEPARATORS) && (n < |s| ==> s[n] in SEPARATORS)
  {
    if s == "" || s[0] in SEPARATORS then 0 else 1 + FirstPart(s[1..])
  }

  /** The parts between separators, as `splitAny` yields them. */
  function Parts(s: string): (parts: seq<string>)
    ensures |parts| > 0
    decreases |s|
  {
    var n := FirstPart(s);
    if n == |s| then [s] else [s[..n]] + Parts(s[n + 1..])
  }

  function ParseWindow(text: string): Option<Version> {
    var parts := Parts(text);
    var major := ParseU32(parts[0]);
    if major.None? || |parts| < 2 then None
    else
      var minor := ParseU32(parts[1]);
      if minor.None? then None
      else
        var patch := ParseU32(if |parts| > 2 then parts[2] else "0");
        Some(Version(major.value, minor.value, if patch.Some? then patch.value else 0))
  }

  function Parse(buf: string): Option<Version> {
    var at := Find(buf[..Min(|buf|, SEARCH_LIMIT)], PREFIX, 0);
    if at.None? then None
    else
      var start := at.value + |PREFIX|;
      ParseWindow(buf[start..Min(start + WINDOW, |buf|)])
  }

  // ----- Printing

  function Digit(d: nat): char
    requires d < 10
  {
    '0' + d as char
  }

  function Decimal(n: nat): string {
    if n < 10 then [Digit(n)] else Decimal(n / 10) + [Digit(n % 10)]
  }

  function Dotted(v: Version): string {
    Decimal(v.major) + "." + Decimal(v.minor) + "." + Decimal(v.patch)
  }

  function Power10(k: nat): nat {
    if k == 0 then 1 else 10 * Power10(k - 1)
  }

  /** A number below 10^k has at most k digits, and from 10^(k-1) on exactly k. */
  lemma {:induction false} DecimalLength(n: nat, k: nat)
    requires 0 < k && n < Power10(k)
    ensures 1 <= |Decimal(n)| <= k
    ensures Power10(k - 1) <= n ==> |Decimal(n)| == k
  {
    if n >= 10 {
      assert k > 1;
      DecimalLength(n / 10, k - 1);
    } else if k > 1 {
      PowerPositive(k - 2);
    }
  }

  lemma {:induction false} PowerPositive(k: nat)
    ensures Power10(k) >= 1
  {
    if k > 0 { PowerPositive(k - 1); }
  }

  lemma TenDigits()
    ensures Power10(9) <= MAX_U32 < Power10(10)
  {
  }

  lemma {:induction false} DecimalPlain(n: nat)
    ensures forall i :: 0 <= i < |Decimal(n)| ==> IsDigit(Decimal(n)[i])
  {
    if n >= 10 { DecimalPlain(n / 10); }
  }

  lemma {:induction false} ParseConcat(s: string, c: char, acc: nat)
    requires IsDigit(c) && (forall i :: 0 <= i < |s| ==> IsDigit(s[i]))
    ensures ParseDigits(s + [c], acc) ==
            var r := ParseDigits(s, acc);
            if r.None? then None
            else var next := r.value * 10 + (c as int - '0' as int); if next > MAX_U32 then None else Some(next)
    decreases |s|
  {
    if s == "" {
      assert ("" + [c])[1..] == "";
    } else {
      assert (s + [c])[1..] == s[1..] + [c];
      var next := acc * 10 + (s[0] as int - '0' as int);
      if next <= MAX_U32 { ParseConcat(s[1..], c, next); }
    }
  }

  /** Parsing undoes printing on every `u32`, and refuses larger numbers. */
  lemma {:induction false} ParseDecimal(n: nat)
    ensures ParseDigits(Decimal(n), 0) == if n <= MAX_U32 then Some(n) else None
  {
    DecimalPlain(n / 10);
    if n < 10 {
      assert [Digit(n)][1..] == "";
    } else {
      ParseDecimal(n / 10);
      ParseConcat(Decimal(n / 10), Digit(n % 10), 0);
    }
  }

  lemma ParseU32Decimal(n: nat)
    ensures ParseU32(Decimal(n)) == if n <= MAX_U32 then Some(n) else None
  {
    ParseDecimal(n);
    DecimalPlain(n);
    assert |Decimal(n)| > 0;
  }

  // ----- The window

  lemma FirstPartIs(s: string, n: nat)
    requires n <= |s| && (forall k :: 0 <= k < n ==> s[k] !in SEPARATORS) && (n < |s| ==> s[n] in SEPARATORS)
    ensures FirstPart(s) == n
  {
  }

  predicate Unseparated(s: string) {
    forall k :: 0 <= k < |s| ==> s[k] !in SEPARATORS
  }

  lemma DecimalUnseparated(n: nat)
    ensures Unseparated(Decimal(n))
  {
  }

  lemma PartsAtDot(d: string, rest: string)
    requires Unseparated(d)
    ensures Parts(d + "." + rest) == [d] + Parts(rest)
  {
    var s := d + "." + rest;
    FirstPartIs(s, |d|);
    assert s[..|d|] == d && s[|d| + 1..] == rest;
  }

  lemma FirstOfParts(d: string, rest: string)
    requires Unseparated(d) && (rest == "" || rest[0] in SEPARATORS)
    ensures Parts(d + rest)[0] == d
  {
    var s := d + rest;
    FirstPartIs(s, |d|);
    assert s[..|d|] == d;
  }

  lemma Regroup(a: string, b: string, c: string, rest: string)
    ensures a + "." + b + "." + c + rest == a + "." + (b + "." + (c + rest))
  {
  }

  /** Three dotted pieces, then nothing or a separator, are the first three parts. */
  lemma ThreeParts(a: string, b: string, c: string, rest: string)
    requires Unseparated(a) && Unseparated(b) && Unseparated(c) && (rest == "" || rest[0] in SEPARATORS)
    ensures var parts := Parts(a + "." + b + "." + c + rest);
            |parts| >= 3 && parts[0] == a && parts[1] == b && parts[2] == c
  {
    var second, third := b + "." + (c + rest), c + rest;
    Regroup(a, b, c, rest);
    PartsAtDot(a, second);
    PartsAtDot(b, third);
    FirstOfParts(c, rest);
    assert Parts(a + "." + second) == [a] + ([b] + Parts(third));
  }

  /** The window parses to the version printed at its start. */
  lemma WindowRoundTrip(v: Version, rest: string)
    requires v.major <= MAX_U32 && v.minor <= MAX_U32 && v.patch <= MAX_U32
    requires rest == "" || rest[0] in SEPARATORS
    ensures ParseWindow(Dotted(v) + rest) == Some(v)
  {
    DecimalUnseparated(v.major);
    DecimalUnseparated(v.minor);
    DecimalUnseparated(v.patch);
    ThreeParts(Decimal(v.major), Decimal(v.minor), Decimal(v.patch), rest);
    ParseU32Decimal(v.major);
    ParseU32Decimal(v.minor);
    ParseU32Decimal(v.patch);
  }

  /** Three `u32` numbers and two dots always fit in the window, and the largest fill it exactly. */
  lemma WindowIsExact(v: Version)
    requires v.major <= MAX_U32 && v.minor <= MAX_U32 && v.patch <= MAX_U32
    ensures |Dotted(v)| <= WINDOW
    ensures |Dotted(Version(MAX_U32, MAX_U32, MAX_U32))| == WINDOW
  {
    TenDigits();
    DecimalLength(v.major, 10);
    DecimalLength(v.minor, 10);
    DecimalLength(v.patch, 10);
    DecimalLength(MAX_U32, 10);
  }

  /**
    Whatever the rest of the text, a version printed after the first "Linux version " of the
    first 256 bytes, and followed by a separator or the end, is read back exactly.
  */
  lemma ParseFindsVersion(buf: string, at: nat, v: Version, rest: string)
    requires v.major <= MAX_U32 && v.minor <= MAX_U32 && v.patch <= MAX_U32
    requires rest == "" || rest[0] in ". -+\n"
    requires var head := buf[..Min(|buf|, 256)];
             OccursAt(head, "Linux version ", at) && forall k: nat :: k < at ==> !OccursAt(head, "Linux version ", k)
    requires at + 14 <= |buf| && buf[at + 14..] == Dotted(v) + rest
    ensures Parse(buf) == Some(v)
  {
    WindowIsExact(v);
    var kept := Min(WINDOW, |Dotted(v)| + |rest|) - |Dotted(v)|;
    WindowText(buf, at + |PREFIX|, Dotted(v), rest);
    ParseIsWindow(buf, at, Dotted(v) + rest[..kept]);
    WindowRoundTrip(v, rest[..kept]);
  }

  lemma ParseIsWindow(buf: string, at: nat, text: string)
    requires Find(buf[..Min(|buf|, SEARCH_LIMIT)], PREFIX, 0) == Some(at)
    requires at + |PREFIX| <= |buf| && text == buf[at + |PREFIX|..Min(at + |PREFIX| + WINDOW, |buf|)]
    ensures Parse(buf) == ParseWindow(text)
  {
  }

  /** What the window shows of a text and what follows it. */
  lemma WindowText(buf: string, start: nat, d: string, rest: string)
    requires start <= |buf| && buf[start..] == d + rest && |d| <= WINDOW
    ensures buf[start..Min(start + WINDOW, |buf|)] == d + rest[..Min(WINDOW, |d| + |rest|) - |d|]
  {
    var kept := Min(WINDOW, |d + rest|);
    assert buf[start..Min(start + WINDOW, |buf|)] == (d + rest)[..kept];
  }

  /** The search finds the pattern wherever it stands, and no later than any place it stands at. */
  lemma FindIsFirst(before: string, pattern: string, after: string)
    ensures var s := before + pattern + after;
            var r := Find(s, pattern, 0);
            && r.Some? && r.value <= |before|
            && r.value + |pattern| <= |s| && s[r.value..r.value + |pattern|] == pattern
  {
    var s := before + pattern + after;
    assert s[|before|..|before| + |pattern|] == pattern;
    assert OccursAt(s, pattern, |before|);
  }

  /** Underscores between digits are skipped. */
  lemma {:induction false} UnderscoresAreSkipped(a: string, b: string, acc: nat)
    ensures ParseDigits(a + "_" + b, acc) == ParseDigits(a + b, acc)
    decreases |a|
  {
    if a == "" {
      assert a + "_" + b == "_" + b && ("_" + b)[1..] == b && a + b == b;
    } else {
      var s, t := a + "_" + b, a + b;
      assert s[1..] == a[1..] + "_" + b && t[1..] == a[1..] + b && s[0] == t[0] == a[0];
      if a[0] == '_' {
        UnderscoresAreSkipped(a[1..], b, acc);
      } else if IsDigit(a[0]) {
        UnderscoresAreSkipped(a[1..], b, acc * 10 + (a[0] as int - '0' as int));
      }
    }
  }

  // ----- Versions without a patch number

  /** Text with a character that is no digit and no underscore is no number. */
  lemma {:induction false} NotANumber(s: string, acc: nat, k: nat)
    requires k < |s| && !IsDigit(s[k]) && s[k] != '_'
    ensures ParseDigits(s, acc) == None
    decreases |s|
  {
    if k > 0 {
      assert s[1..][k - 1] == s[k];
      if s[0] == '_' {
        NotANumber(s[1..], acc, k - 1);
      } else if IsDigit(s[0]) {
        NotANumber(s[1..], acc * 10 + (s[0] as int - '0' as int), k - 1);
      }
    }
  }

  lemma PartsAre(p: string, rest: string)
    requires Unseparated(p) && (rest == "" || rest[0] in SEPARATORS)
    ensures Parts(p + rest) == if rest == "" then [p] else [p] + Parts(rest[1..])
  {
    FirstPartIs(p + rest, |p|);
    assert p + "" == p;
    assert rest != "" ==> (p + rest)[..|p|] == p && (p + rest)[|p| + 1..] == rest[1..];
  }

  lemma TwoParts(a: string, dot: char, b: string, rest: string)
    requires Unseparated(a) && Unseparated(b) && dot in SEPARATORS && (rest == "" || rest[0] in SEPARATORS)
    ensures Parts(a + ([dot] + (b + rest))) == [a, b] + if rest == "" then [] else Parts(rest[1..])
  {
    PartsAre(a, [dot] + (b + rest));
    assert ([dot] + (b + rest))[1..] == b + rest;
    PartsAre(b, rest);
  }

  lemma Numbered(parts: seq<string>, major: nat, minor: nat, text: string)
    requires major <= MAX_U32 && minor <= MAX_U32 && parts == Parts(text) && |parts| >= 2
    requires parts[0] == Decimal(major) && parts[1] == Decimal(minor)
    requires |parts| == 2 || ParseU32(parts[2]) == None
    ensures ParseWindow(text) == Some(Version(major, minor, 0))
  {
    ParseU32Decimal(major);
    ParseU32Decimal(minor);
    ZeroIsANumber();
  }

  /** Major and minor alone have patch 0. */
  lemma NoPatch(major: nat, dot: char, minor: nat)
    requires major <= MAX_U32 && minor <= MAX_U32 && dot in SEPARATORS
    ensures ParseWindow(Decimal(major) + ([dot] + Decimal(minor))) == Some(Version(major, minor, 0))
  {
    DecimalUnseparated(major);
    DecimalUnseparated(minor);
    TwoParts(Decimal(major), dot, Decimal(minor), "");
    assert Decimal(minor) + "" == Decimal(minor);
    var text := Decimal(major) + ([dot] + Decimal(minor));
    Numbered(Parts(text), major, minor, text);
  }

  lemma TaggedParts(a: string, dot: char, b: string, dash: char, tag: string, rest: string)
    requires Unseparated(a) && Unseparated(b) && Unseparated(tag) && dot in SEPARATORS && dash in SEPARATORS
    requires rest == "" || rest[0] in SEPARATORS
    ensures var parts := Parts(a + ([dot] + (b + ([dash] + (tag + rest)))));
            |parts| > 2 && parts[0] == a && parts[1] == b && parts[2] == tag
  {
    var tail := [dash] + (tag + rest);
    TwoParts(a, dot, b, tail);
    assert tail[1..] == tag + rest;
    PartsAre(tag, rest);
  }

  /** So have major and minor followed by a separator and something that is no number, like a release tag. */
  lemma PatchIsNoNumber(major: nat, dot: char, minor: nat, dash: char, tag: string, rest: string)
    requires major <= MAX_U32 && minor <= MAX_U32 && dot in SEPARATORS && dash in SEPARATORS
    requires Unseparated(tag) && (rest == "" || rest[0] in SEPARATORS)
    requires tag == "" || exists k :: 0 <= k < |tag| && !IsDigit(tag[k]) && tag[k] != '_'
    ensures ParseWindow(Decimal(major) + ([dot] + (Decimal(minor) + ([dash] + (tag + rest))))) ==
            Some(Version(major, minor, 0))
  {
    DecimalUnseparated(major);
    DecimalUnseparated(minor);
    TaggedParts(Decimal(major), dot, Decimal(minor), dash, tag, rest);
    NotAPatch(tag);
    var text := Decimal(major) + ([dot] + (Decimal(minor) + ([dash] + (tag + rest))));
    Numbered(Parts(text), major, minor, text);
  }

  lemma NotAPatch(tag: string)
    requires tag == "" || exists k :: 0 <= k < |tag| && !IsDigit(tag[k]) && tag[k] != '_'
    ensures ParseU32(tag) == None
  {
    if tag != "" {
      var k :| 0 <= k < |tag| && !IsDigit(tag[k]) && tag[k] != '_';
      NotANumber(tag, 0, k);
    }
  }

  lemma ZeroIsANumber()
    ensures ParseU32("0") == Some(0)
  {
    assert "0"[1..] == "";
  }

  /** A version whose first part is not a number, or that has no second part, is refused. */
  lemma MajorAndMinorNeeded(major: string, rest: string)
    requires Unseparated(major) && (rest == "" || rest[0] in SEPARATORS)
    requires rest == "" || major == "" || exists k :: 0 <= k < |major| && !IsDigit(major[k]) && major[k] != '_'
    ensures ParseWindow(major + rest) == None
  {
    PartsAre(major, rest);
    if rest != "" { NotAPatch(major); }
  }

  // ----- The minimum version

  predicate MeetsMinimum(v: Version, minMajor: nat, minMinor: nat) {
    !(v.major < minMajor || (v.major == minMajor && v.minor < minMinor))
  }

  /** The check orders versions as the single number major * 2^32 + minor does. */
  lemma MinimumIsNumericOrder(v: Version, minMajor: nat, minMinor: nat)
    requires v.minor <= MAX_U32 && minMinor <= MAX_U32
    ensures MeetsMinimum(v, minMajor, minMinor) <==>
            v.major * (MAX_U32 + 1) + v.minor >= minMajor * (MAX_U32 + 1) + minMinor
  {
  }
}
