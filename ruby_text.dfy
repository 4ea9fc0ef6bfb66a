/**
 * The parts of Ruby's String behaviour that the debugger core depends on:
 * `strip`, `split(' ', 2)`, `to_i`, `Integer#to_s`, `downcase`, `chomp`,
 * `ljust`, `start_with?`, `end_with?`, `include?` and `join`.
 * Strings are sequences of characters; only the ASCII behaviour is modelled.
 */
module RubyText {

  /** Whitespace as Ruby's awk-style `split(' ')` and `String#to_i` see it. */
  predicate IsSpace(c: char) {
    c == ' ' || c == '\t' || c == '\n' || c == '\U{0B}' || c == '\U{0C}' || c == '\r'
  }

  /** `String#strip` removes NUL as well as whitespace. */
  predicate IsStripChar(c: char) {
    IsSpace(c) || c == '\0'
  }

  predicate IsDigit(c: char) {
    '0' <= c <= '9'
  }

  predicate IsUpper(c: char) {
    'A' <= c <= 'Z'
  }

  predicate NoSpace(s: string) {
    forall i :: 0 <= i < |s| ==> !IsSpace(s[i])
  }

  predicate AllDigits(s: string) {
    forall i :: 0 <= i < |s| ==> IsDigit(s[i])
  }

  /** `s.start_with?(prefix)` */
  predicate StartsWith(s: string, prefix: string) {
    |prefix| <= |s| && s[..|prefix|] == prefix
  }

  /** `s.end_with?(suffix)` */
  predicate EndsWith(s: string, suffix: string) {
    |suffix| <= |s| && s[|s| - |suffix|..] == suffix
  }

  // ---------------------------------------------------------------------------
  // strip

  /** `s.lstrip` */
  function LStrip(s: string): (r: string)
    ensures |r| <= |s|
    ensures r == [] || !IsStripChar(r[0])
    ensures forall i :: 0 <= i < |s| - |r| ==> IsStripChar(s[i])
  {
    if s != [] && IsStripChar(s[0]) then LStrip(s[1..]) else s
  }

  /** `s.rstrip` */
  function RStrip(s: string): (r: string)
    ensures |r| <= |s|
    ensures r == [] || !IsStripChar(r[|r| - 1])
    ensures forall i :: |r| <= i < |s| ==> IsStripChar(s[i])
  {
    if s != [] && IsStripChar(s[|s| - 1]) then RStrip(s[..|s| - 1]) else s
  }

  /** `s.strip`: the text of `s` without its leading and trailing whitespace and NULs. */
  function Strip(s: string): (r: string)
    ensures |r| <= |s|
    ensures r == [] || (!IsStripChar(r[0]) && !IsStripChar(r[|r| - 1]))
    ensures r == [] <==> forall i :: 0 <= i < |s| ==> IsStripChar(s[i])
  {
    var l := LStrip(s);
    var r := RStrip(l);
    LStripSuffix(s);
    RStripPrefix(l);
    assert r != [] ==> r[0] == l[0];
    r
  }

  /** What `lstrip` leaves is a suffix of the text. */
  lemma {:induction false} LStripSuffix(s: string)
    ensures LStrip(s) == s[|s| - |LStrip(s)|..]
  {
    if s != [] && IsStripChar(s[0]) {
      LStripSuffix(s[1..]);
    }
  }

  /** What `rstrip` leaves is a prefix of the text. */
  lemma {:induction false} RStripPrefix(s: string)
    ensures RStrip(s) == s[..|RStrip(s)|]
  {
    if s != [] && IsStripChar(s[|s| - 1]) {
      RStripPrefix(s[..|s| - 1]);
    }
  }

  /** `strip` leaves a string that has nothing to strip unchanged. */
  lemma StripUnchanged(s: string)
    requires s == [] || (!IsStripChar(s[0]) && !IsStripChar(s[|s| - 1]))
    ensures Strip(s) == s
  {
  }

  lemma StripIdempotent(s: string)
    ensures Strip(Strip(s)) == Strip(s)
  {
    StripUnchanged(Strip(s));
  }

  // ---------------------------------------------------------------------------
  // split(' ', 2)

  /** The text of `s` after its leading whitespace. */
  function SkipSpaces(s: string): (r: string)
    ensures |r| <= |s|
    ensures r == [] || !IsSpace(r[0])
    ensures forall i :: 0 <= i < |s| - |r| ==> IsSpace(s[i])
  {
    if s != [] && IsSpace(s[0]) then SkipSpaces(s[1..]) else s
  }

  /** What is left after the leading whitespace is a suffix of the text. */
  lemma {:induction false} SkipSpacesSuffix(s: string)
    ensures SkipSpaces(s) == s[|s| - |SkipSpaces(s)|..]
  {
    if s != [] && IsSpace(s[0]) {
      SkipSpacesSuffix(s[1..]);
    }
  }

  /** The index of the first whitespace character of `s`, or `|s|` when there is none. */
  function SpaceIndex(s: string): (k: nat)
    ensures k <= |s|
    ensures NoSpace(s[..k])
    ensures k < |s| ==> IsSpace(s[k])
  {
    if s == [] || IsSpace(s[0]) then 0
    else
      var k := 1 + SpaceIndex(s[1..]);
      assert s[..k] == [s[0]] + s[1..][..k - 1];
      k
  }

  /**
   * `s.split(' ', 2)`: awk-style splitting into at most two fields. Leading
   * whitespace is skipped; the first field runs to the next whitespace; the
   * second field is everything after the whitespace run that follows it.
   */
  function SplitWord(s: string): (r: seq<string>)
    ensures |r| <= 2
    ensures r == [] <==> SkipSpaces(s) == []
    ensures |r| >= 1 ==> r[0] != [] && NoSpace(r[0]) && StartsWith(SkipSpaces(s), r[0])
    ensures |r| == 1 ==> SkipSpaces(s) == r[0]
  {
    var t := SkipSpaces(s);
    if t == [] then []
    else
      var k := SpaceIndex(t);
      if k == |t| then
        assert t[..k] == t;
        [t]
      else [t[..k], SkipSpaces(t[k..])]
  }

  /**
   * When `split(' ', 2)` gives two fields, the text is the first field, a
   * non-empty run of whitespace, and the second field, which does not start
   * with whitespace.
   */
  lemma SplitWordTwoFields(s: string)
    requires |SplitWord(s)| == 2
    ensures var t, r := SkipSpaces(s), SplitWord(s);
      && |r[0]| < |t| - |r[1]|
      && StartsWith(t, r[0]) && EndsWith(t, r[1])
      && (forall i :: |r[0]| <= i < |t| - |r[1]| ==> IsSpace(t[i]))
      && (r[1] == [] || !IsSpace(r[1][0]))
  {
    var t := SkipSpaces(s);
    var k := SpaceIndex(t);
    SkipSpacesOfTail(t, k);
    assert SplitWord(s)[0] == t[..k];
    assert SplitWord(s)[1] == SkipSpaces(t[k..]);
  }

  /** What is left of `t` after its first `k` characters and the whitespace that follows. */
  lemma SkipSpacesOfTail(t: string, k: nat)
    requires k < |t| && IsSpace(t[k])
    ensures var rest := SkipSpaces(t[k..]);
      && k < |t| - |rest|
      && EndsWith(t, rest)
      && forall i :: k <= i < |t| - |rest| ==> IsSpace(t[i])
  {
    var u := t[k..];
    var rest := SkipSpaces(u);
    SkipSpacesSuffix(u);
    assert t[|t| - |rest|..] == u[|u| - |rest|..];
    forall i | k <= i < |t| - |rest| ensures IsSpace(t[i]) {
      assert t[i] == u[i - k];
    }
  }

  lemma {:induction false} SpaceIndexAfterWord(word: string, tail: string)
    requires NoSpace(word)
    requires tail != [] && IsSpace(tail[0])
    ensures SpaceIndex(word + tail) == |word|
  {
    if word != [] {
      assert (word + tail)[1..] == word[1..] + tail;
      SpaceIndexAfterWord(word[1..], tail);
    }
  }

  /** A well-separated pair of fields splits back into those fields. */
  lemma SplitWordOfPair(cmd: string, sep: string, arg: string)
    requires cmd != [] && NoSpace(cmd)
    requires sep != [] && forall i :: 0 <= i < |sep| ==> IsSpace(sep[i])
    requires arg == [] || !IsSpace(arg[0])
    ensures SplitWord(cmd + sep + arg) == [cmd, arg]
  {
    var tail := sep + arg;
    var s := cmd + tail;
    assert cmd + sep + arg == s;
    SkipSpacesOfWord(cmd, tail);
    SpaceIndexAfterWord(cmd, tail);
    SplitWordAt(s, |cmd|);
    assert s[..|cmd|] == cmd;
    assert s[|cmd|..] == tail;
    SkipSpacesOfRun(sep, arg);
  }

  lemma SkipSpacesOfWord(word: string, tail: string)
    requires word != [] && !IsSpace(word[0])
    ensures SkipSpaces(word + tail) == word + tail
  {
    assert (word + tail)[0] == word[0];
  }

  lemma SplitWordAt(s: string, k: nat)
    requires SkipSpaces(s) == s && s != [] && SpaceIndex(s) == k && k < |s|
    ensures SplitWord(s) == [s[..k], SkipSpaces(s[k..])]
  {
  }

  lemma {:induction false} SkipSpacesOfRun(sep: string, arg: string)
    requires forall i :: 0 <= i < |sep| ==> IsSpace(sep[i])
    requires arg == [] || !IsSpace(arg[0])
    ensures SkipSpaces(sep + arg) == arg
  {
    if sep != [] {
      assert (sep + arg)[1..] == sep[1..] + arg;
      SkipSpacesOfRun(sep[1..], arg);
    }
  }

  // ---------------------------------------------------------------------------
  // Index of a character (used for `include?(':')` and `split(':', 2)`)

  /** The index of the first occurrence of `c` in `s`. */
  function IndexOf(s: string, c: char): (k: nat)
    requires c in s
    ensures k < |s| && s[k] == c && c !in s[..k]
  {
    if s[0] == c then 0
    else
      var k := 1 + IndexOf(s[1..], c);
      assert s[..k] == [s[0]] + s[1..][..k - 1];
      k
  }

  lemma {:induction false} IndexOfAfter(head: string, c: char, tail: string)
    requires c !in head
    ensures IndexOf(head + [c] + tail, c) == |head|
  {
    if head != [] {
      assert (head + [c] + tail)[1..] == head[1..] + [c] + tail;
      IndexOfAfter(head[1..], c, tail);
    }
  }

  // ---------------------------------------------------------------------------
  // to_i and to_s

  function DigitValue(c: char): (d: nat)
    requires IsDigit(c)
    ensures d < 10
  {
    (c as int - '0' as int) as nat
  }

  function DigitChar(d: nat): (c: char)
    requires d < 10
    ensures IsDigit(c) && DigitValue(c) == d
  {
    ('0' as int + d) as char
  }

  /** The length of the run of decimal digits at the start of `s`. */
  function DigitRun(s: string): (k: nat)
    ensures k <= |s|
    ensures AllDigits(s[..k])
    ensures k < |s| ==> !IsDigit(s[k])
  {
    if s == [] || !IsDigit(s[0]) then 0
    else
      var k := 1 + DigitRun(s[1..]);
      assert s[..k] == [s[0]] + s[1..][..k - 1];
      k
  }

  /** The value of a string of decimal digits. */
  function DecimalValue(ds: string): nat
    requires AllDigits(ds)
  {
    if ds == [] then 0
    else DecimalValue(ds[..|ds| - 1]) * 10 + DigitValue(ds[|ds| - 1])
  }

  /** The value of the digits at the start of `s`, 0 when it starts with none. */
  function LeadingNumber(s: string): nat {
    DecimalValue(s[..DigitRun(s)])
  }

  /**
   * `s.to_i`: leading whitespace, then an optional sign, then decimal digits;
   * anything else ends the number, and a string with no digits there is 0.
   */
  function ToI(s: string): int {
    var t := SkipSpaces(s);
    if t != [] && t[0] == '-' then -(LeadingNumber(t[1..]) as int)
    else if t != [] && t[0] == '+' then LeadingNumber(t[1..])
    else LeadingNumber(t)
  }

  /** The decimal digits of `n`, most significant first, without leading zeros. */
  function NatToString(n: nat): (s: string)
    ensures s != [] && AllDigits(s)
    ensures s[0] == '0' ==> n == 0
  {
    if n < 10 then [DigitChar(n)] else NatToString(n / 10) + [DigitChar(n % 10)]
  }

  /** `n.to_s` */
  function IntToString(n: int): (s: string)
    ensures s != [] && (IsDigit(s[0]) || s[0] == '-')
    ensures forall i :: 0 <= i < |s| ==> IsDigit(s[i]) || s[i] == '-'
  {
    if n < 0 then "-" + NatToString(-n) else NatToString(n)
  }

  lemma {:induction false} DecimalValueOfNatToString(n: nat)
    ensures DecimalValue(NatToString(n)) == n
  {
    if n >= 10 {
      DecimalValueOfNatToString(n / 10);
      var s := NatToString(n);
      assert s[..|s| - 1] == NatToString(n / 10);
    }
  }

  /** The digit run of a digit string followed by a non-digit is exactly that string. */
  lemma {:induction false} DigitRunOfDigits(ds: string, rest: string)
    requires AllDigits(ds)
    requires rest == [] || !IsDigit(rest[0])
    ensures DigitRun(ds + rest) == |ds|
  {
    if ds != [] {
      assert (ds + rest)[1..] == ds[1..] + rest;
      DigitRunOfDigits(ds[1..], rest);
    }
  }

  lemma LeadingNumberOfNat(n: nat, rest: string)
    requires rest == [] || !IsDigit(rest[0])
    ensures LeadingNumber(NatToString(n) + rest) == n
  {
    var s := NatToString(n);
    DigitRunOfDigits(s, rest);
    assert (s + rest)[..|s|] == s;
    DecimalValueOfNatToString(n);
  }

  /** `to_i` reads back what `to_s` wrote, whatever non-digit text follows it. */
  lemma ToIOfIntToString(n: int, rest: string)
    requires rest == [] || !IsDigit(rest[0])
    ensures ToI(IntToString(n) + rest) == n
  {
    var s := IntToString(n) + rest;
    assert SkipSpaces(s) == s;
    if n < 0 {
      assert s[1..] == NatToString(-n) + rest;
      LeadingNumberOfNat(-n, rest);
    } else {
      LeadingNumberOfNat(n, rest);
    }
  }

  /** A string that does not start with whitespace, a sign or a digit converts to 0. */
  lemma ToINonNumeric(s: string)
    requires s == [] || !(IsSpace(s[0]) || IsDigit(s[0]) || s[0] == '-' || s[0] == '+')
    ensures ToI(s) == 0
  {
  }

  // ---------------------------------------------------------------------------
  // downcase, chomp, ljust

  function DowncaseChar(c: char): (d: char)
    ensures !IsUpper(d)
    ensures !IsUpper(c) ==> d == c
  {
    if IsUpper(c) then (c as int + ('a' as int - 'A' as int)) as char else c
  }

  /** `s.downcase`, for ASCII letters. */
  function Downcase(s: string): (r: string)
    ensures |r| == |s|
    ensures forall i :: 0 <= i < |r| ==> !IsUpper(r[i])
    ensures forall i :: 0 <= i < |r| ==> !IsUpper(s[i]) ==> r[i] == s[i]
  {
    seq(|s|, i requires 0 <= i < |s| => DowncaseChar(s[i]))
  }

  /** `s.chomp`: drop one trailing "\r\n", "\n" or "\r". */
  function Chomp(s: string): (r: string)
    ensures |r| <= |s| && r == s[..|r|]
    ensures EndsWith(s, "\r\n") ==> |r| == |s| - 2
    ensures !EndsWith(s, "\r\n") && (EndsWith(s, "\n") || EndsWith(s, "\r")) ==> |r| == |s| - 1
    ensures !EndsWith(s, "\n") && !EndsWith(s, "\r") ==> r == s
  {
    if EndsWith(s, "\r\n") then s[..|s| - 2]
    else if EndsWith(s, "\n") || EndsWith(s, "\r") then s[..|s| - 1]
    else s
  }

  /** `s.ljust(width)`: `s` padded on the right with spaces to `width` characters. */
  function Ljust(s: string, width: nat): (r: string)
    ensures |r| == if |s| < width then width else |s|
    ensures StartsWith(r, s)
    ensures forall i :: |s| <= i < |r| ==> r[i] == ' '
  {
    if |s| < width then s + seq(width - |s|, _ => ' ') else s
  }

  // ---------------------------------------------------------------------------
  // join and its inverse

  /** `lines.join(sep)` */
  function Join(lines: seq<string>, sep: char): (r: string)
    ensures lines == [] ==> r == []
    ensures |lines| == 1 ==> r == lines[0]
  {
    if lines == [] then ""
    else if |lines| == 1 then lines[0]
    else lines[0] + [sep] + Join(lines[1..], sep)
  }

  /** The pieces of `s` between occurrences of `sep`, keeping empty pieces. */
  function SplitAll(s: string, sep: char): (r: seq<string>)
    ensures r != []
    decreases |s|
  {
    if sep !in s then [s]
    else
      var k := IndexOf(s, sep);
      [s[..k]] + SplitAll(s[k + 1..], sep)
  }

  /** Splitting a join at its separator gives back the joined pieces. */
  lemma {:induction false} SplitAllOfJoin(lines: seq<string>, sep: char)
    requires lines != []
    requires forall i :: 0 <= i < |lines| ==> sep !in lines[i]
    ensures SplitAll(Join(lines, sep), sep) == lines
  {
    if |lines| > 1 {
      var s := Join(lines, sep);
      var head := lines[0];
      assert s == head + [sep] + Join(lines[1..], sep);
      assert s[|head|] == sep;
      assert s[..|head|] == head;
      assert sep in s;
      IndexOfAfter(head, sep, Join(lines[1..], sep));
      assert s[|head| + 1..] == Join(lines[1..], sep);
      SplitAllOfJoin(lines[1..], sep);
    }
  }
}
