/** The string functions of Go and Python that K-Bench relies on: decimal printing and
    parsing, substring search, splitting at a separator. */
module Strings {

  datatype Option<+T> = None | Some(value: T) {
    function GetOr(default: T): T {
      if Some? then value else default
    }
  }

  // ---------------------------------------------------------------- decimal numbers

  const MIN_INT64: int := -0x8000_0000_0000_0000
  const MAX_INT64: int := 0x7fff_ffff_ffff_ffff

  predicate IsDigit(c: char) {
    '0' <= c <= '9'
  }

  predicate AllDigits(s: string) {
    forall i :: 0 <= i < |s| ==> IsDigit(s[i])
  }

  function Digits(n: nat): (s: string)
    ensures s != [] && AllDigits(s)
    ensures s[|s| - 1] as int == '0' as int + n % 10 && (|s| == 1 <==> n < 10)
  {
    var last := [('0' as int + n % 10) as char];
    if n < 10 then last else Digits(n / 10) + last
  }

  function DigitsValue(s: string): nat
    requires AllDigits(s)
  {
    if s == [] then 0
    else 10 * DigitsValue(s[..|s| - 1]) + (s[|s| - 1] as int - '0' as int)
  }

  /** strconv.Itoa */
  function Itoa(n: int): (s: string)
    ensures s != [] && AllDigits(s[1..])
    ensures s[0] == '-' || IsDigit(s[0])
    ensures s[0] == '-' ==> |s| > 1
  {
    if n < 0 then "-" + Digits(-n) else Digits(n)
  }

  /** An optional sign and at least one digit. */
  function ParseInt(s: string): Option<int> {
    var signed := s != [] && (s[0] == '-' || s[0] == '+');
    var body := if signed then s[1..] else s;
    if body == [] || !AllDigits(body) then None
    else Some(if signed && s[0] == '-' then -(DigitsValue(body) as int) else DigitsValue(body))
  }

  /** strconv.Atoi: None stands for an error, which a value beyond 64 bits is too. */
  function Atoi(s: string): Option<int> {
    match ParseInt(s)
    case None => None
    case Some(v) => if MIN_INT64 <= v <= MAX_INT64 then Some(v) else None
  }

  /** The number that strconv.Atoi returns beside an error that nobody looks at: zero for a text that
      is no number, the nearest 64-bit value for one that does not fit. */
  function AtoiValue(s: string): (n: int)
    ensures MIN_INT64 <= n <= MAX_INT64
    ensures Atoi(s).Some? ==> n == Atoi(s).value
  {
    match ParseInt(s)
    case None => 0
    case Some(v) => if v < MIN_INT64 then MIN_INT64 else if v > MAX_INT64 then MAX_INT64 else v
  }

  lemma {:induction false} DigitsRoundTrip(n: nat)
    ensures DigitsValue(Digits(n)) == n
  {
    if n >= 10 {
      DigitsRoundTrip(n / 10);
      var s := Digits(n);
      assert s[..|s| - 1] == Digits(n / 10);
    }
  }

  lemma {:induction false} ParseItoa(n: int)
    ensures ParseInt(Itoa(n)) == Some(n)
  {
    var s := Itoa(n);
    if n < 0 {
      DigitsRoundTrip(-n);
      assert s[0] == '-' && s[1..] == Digits(-n);
    } else {
      DigitsRoundTrip(n);
      assert s == Digits(n) && IsDigit(s[0]);
    }
  }

  lemma {:induction false} AtoiItoa(n: int)
    requires MIN_INT64 <= n <= MAX_INT64
    ensures Atoi(Itoa(n)) == Some(n) && AtoiValue(Itoa(n)) == n
  {
    ParseItoa(n);
  }

  /** A text with something else than digits behind the first character, or nothing there but a sign,
      is no number; and a number beyond 64 bits becomes the nearest within. */
  lemma {:induction false} AtoiOfOthers(s: string, n: int)
    ensures (s == "" || s == "-" || s == "+" || exists k :: 1 <= k < |s| && !IsDigit(s[k])) ==> AtoiValue(s) == 0
    ensures AtoiValue(Itoa(n)) == if n < MIN_INT64 then MIN_INT64 else if n > MAX_INT64 then MAX_INT64 else n
  {
    ParseItoa(n);
    NoNumber(s);
  }

  lemma {:induction false} NoNumber(s: string)
    ensures (s == "" || s == "-" || s == "+" || exists k :: 1 <= k < |s| && !IsDigit(s[k])) ==> ParseInt(s) == None
  {
    if k :| 1 <= k < |s| && !IsDigit(s[k]) {
      assert s[1..][k - 1] == s[k];
    }
  }

  lemma {:induction false} ItoaInjective(a: int, b: int)
    requires Itoa(a) == Itoa(b)
    ensures a == b
  {
    ParseItoa(a);
    ParseItoa(b);
  }

  // ---------------------------------------------------------------- substrings

  predicate OccursAt(s: string, pat: string, i: int) {
    0 <= i && i + |pat| <= |s| && s[i..i + |pat|] == pat
  }

  ghost predicate Occurs(s: string, pat: string) {
    exists i :: OccursAt(s, pat, i)
  }

  /** strings.Index, searching from position i on; -1 when there is no occurrence. */
  function IndexFrom(s: string, pat: string, i: nat): (r: int)
    ensures r == -1 || (i <= r && OccursAt(s, pat, r))
    ensures forall j :: i <= j && (r == -1 || j < r) ==> !OccursAt(s, pat, j)
    decreases |s| - i
  {
    if OccursAt(s, pat, i) then i
    else if i + |pat| >= |s| then -1
    else IndexFrom(s, pat, i + 1)
  }

  /** strings.Contains */
  predicate Contains(s: string, pat: string)
    ensures Contains(s, pat) <==> Occurs(s, pat)
  {
    IndexFrom(s, pat, 0) != -1
  }

  function LastIndexTo(s: string, pat: string, i: int): (r: int)
    requires i >= -1
    ensures r == -1 || (r <= i && OccursAt(s, pat, r))
    ensures -1 <= r && forall j :: r < j <= i ==> !OccursAt(s, pat, j)
    decreases i
  {
    if i == -1 || OccursAt(s, pat, i) then i else LastIndexTo(s, pat, i - 1)
  }

  /** strings.LastIndex */
  function LastIndex(s: string, pat: string): (r: int)
    ensures r == -1 || OccursAt(s, pat, r)
    ensures -1 <= r && forall j :: r < j ==> !OccursAt(s, pat, j)
  {
    LastIndexTo(s, pat, |s|)
  }

  // ---------------------------------------------------------------- splitting

  function Join(parts: seq<string>, sep: char): string
    requires parts != []
  {
    if |parts| == 1 then parts[0] else parts[0] + [sep] + Join(parts[1..], sep)
  }

  /** strings.Split (Go) and str.split (Python) at a one-character separator. */
  function Split(s: string, sep: char): (parts: seq<string>)
    ensures parts != []
    ensures forall i :: 0 <= i < |parts| ==> sep !in parts[i]
    ensures Join(parts, sep) == s
  {
    if s == [] then [""]
    else
      var rest := Split(s[1..], sep);
      if s[0] == sep then
        assert ([""] + rest)[1..] == rest;
        [""] + rest
      else
        var parts := [[s[0]] + rest[0]] + rest[1..];
        assert parts[1..] == rest[1..];
        parts
  }

  lemma {:induction false} SplitSeparatorFree(s: string, sep: char)
    requires sep !in s
    ensures Split(s, sep) == [s]
  {
    if s != [] {
      SplitSeparatorFree(s[1..], sep);
    }
  }

  lemma {:induction false} SplitAtFirst(head: string, tail: string, sep: char)
    requires sep !in head
    ensures Split(head + [sep] + tail, sep) == [head] + Split(tail, sep)
  {
    var s := head + [sep] + tail;
    if head == [] {
      assert s[1..] == tail;
    } else {
      assert s[1..] == head[1..] + [sep] + tail;
      SplitAtFirst(head[1..], tail, sep);
      var rest := Split(s[1..], sep);
      assert rest[0] == head[1..] && rest[1..] == Split(tail, sep);
      assert [s[0]] + rest[0] == head;
    }
  }

  /** Splitting undoes joining when no part holds the separator. */
  lemma {:induction false} SplitJoin(parts: seq<string>, sep: char)
    requires parts != []
    requires forall i :: 0 <= i < |parts| ==> sep !in parts[i]
    ensures Split(Join(parts, sep), sep) == parts
  {
    if |parts| == 1 {
      SplitSeparatorFree(parts[0], sep);
    } else {
      SplitAtFirst(parts[0], Join(parts[1..], sep), sep);
      SplitJoin(parts[1..], sep);
    }
  }

  // ---------------------------------------------------------------- letter case

  function LowerChar(c: char): char {
    if 'A' <= c <= 'Z' then (c as int + 32) as char else c
  }

  function UpperChar(c: char): char {
    if 'a' <= c <= 'z' then (c as int - 32) as char else c
  }

  function ToLower(s: string): (r: string)
    ensures |r| == |s|
    ensures forall i :: 0 <= i < |s| ==> r[i] == if 'A' <= s[i] <= 'Z' then 'a' + (s[i] - 'A') else s[i]
  {
    seq(|s|, i requires 0 <= i < |s| => LowerChar(s[i]))
  }

  function ToUpper(s: string): (r: string)
    ensures |r| == |s|
    ensures forall i :: 0 <= i < |s| ==> r[i] == if 'a' <= s[i] <= 'z' then 'A' + (s[i] - 'a') else s[i]
  {
    seq(|s|, i requires 0 <= i < |s| => UpperChar(s[i]))
  }
}
