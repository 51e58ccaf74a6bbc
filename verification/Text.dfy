/** The pieces of std::string and std::getline that the configuration parser relies on. */
module Text {

  datatype Option<+T> = None | Some(value: T)

  const WHITESPACE: set<char> := {' ', '\t', '\r', '\n'}
  const BLANKS: set<char> := {' ', '\t'}
  const TRIMMED: set<char> := {' ', '\t', '"'}

  predicate Only(s: string, cs: set<char>) {
    forall i | 0 <= i < |s| :: s[i] in cs
  }

  /** std::string::find(c); the length of s stands for npos. */
  function IndexOf(s: string, c: char): (i: nat)
    ensures i <= |s|
  {
    if s == [] || s[0] == c then 0 else 1 + IndexOf(s[1..], c)
  }

  /** std::string::find_first_not_of(cs); the length of s stands for npos. */
  function FirstNotOf(s: string, cs: set<char>): (i: nat)
    ensures i <= |s|
  {
    if s == [] || s[0] !in cs then 0 else 1 + FirstNotOf(s[1..], cs)
  }

  /** One past std::string::find_last_not_of(cs); 0 stands for npos. */
  function EndLastNotOf(s: string, cs: set<char>): (e: nat)
    ensures e <= |s|
  {
    if s == [] || s[|s| - 1] !in cs then |s| else EndLastNotOf(s[..|s| - 1], cs)
  }

  lemma FirstFound(s: string, cs: set<char>)
    ensures forall j | 0 <= j < FirstNotOf(s, cs) :: s[j] in cs
    ensures FirstNotOf(s, cs) < |s| ==> s[FirstNotOf(s, cs)] !in cs
  {
  }

  lemma EndFound(s: string, cs: set<char>)
    ensures forall j | EndLastNotOf(s, cs) <= j < |s| :: s[j] in cs
    ensures EndLastNotOf(s, cs) > 0 ==> s[EndLastNotOf(s, cs) - 1] !in cs
  {
  }

  lemma FirstBeforeEnd(s: string, cs: set<char>)
    ensures FirstNotOf(s, cs) < |s| ==> FirstNotOf(s, cs) < EndLastNotOf(s, cs)
  {
    FirstFound(s, cs);
    EndFound(s, cs);
  }

  /** What is left of s when characters of cs are cut off both its ends. */
  function Strip(s: string, cs: set<char>): string {
    var i := FirstNotOf(s, cs);
    FirstBeforeEnd(s, cs);
    if i == |s| then "" else s[i..EndLastNotOf(s, cs)]
  }

  /** A string with nothing to cut off: empty, or with both end characters outside cs. */
  predicate Bare(s: string, cs: set<char>) {
    s == "" || (s[0] !in cs && s[|s| - 1] !in cs)
  }

  /** Stripping undoes padding: the core is what remains between two runs of cs. */
  lemma StripPadded(a: string, core: string, b: string, cs: set<char>)
    requires Only(a, cs) && Only(b, cs) && Bare(core, cs)
    ensures Strip(a + core + b, cs) == core
  {
    if core == "" {
      assert a + core + b == a + b;
      Prefixed(a, b, cs);
      FirstFound(b, cs);
    } else {
      CoreBounds(a, core, b, cs);
      assert (a + core + b)[|a|..|a| + |core|] == core;
    }
  }

  lemma CoreBounds(a: string, core: string, b: string, cs: set<char>)
    requires Only(a, cs) && Only(b, cs) && Bare(core, cs) && core != ""
    ensures FirstNotOf(a + core + b, cs) == |a| < |a + core + b|
    ensures EndLastNotOf(a + core + b, cs) == |a| + |core|
  {
    Prefixed(a, core + b, cs);
    assert a + core + b == a + (core + b);
    assert (core + b)[0] == core[0];
    Suffixed(a + core, b, cs);
    assert (a + core)[|a + core| - 1] == core[|core| - 1];
  }

  lemma IndexAfter(a: string, c: char, b: string)
    requires c !in a
    ensures IndexOf(a + [c] + b, c) == |a|
  {
    var s := a + [c] + b;
    if a != "" {
      assert s[0] == a[0] && s[1..] == a[1..] + [c] + b;
      IndexAfter(a[1..], c, b);
    }
  }

  /** What is found is the first occurrence. */
  lemma {:induction false} IndexBefore(s: string, c: char)
    ensures c !in s[..IndexOf(s, c)]
    ensures c !in s ==> IndexOf(s, c) == |s|
  {
    if s != "" && s[0] != c {
      var k := IndexOf(s[1..], c);
      IndexBefore(s[1..], c);
      assert s[..1 + k] == [s[0]] + s[1..][..k];
    }
  }

  lemma Prefixed(a: string, s: string, cs: set<char>)
    requires Only(a, cs)
    ensures FirstNotOf(a + s, cs) == |a| + FirstNotOf(s, cs)
  {
    if a == "" {
      assert a + s == s;
    } else {
      assert (a + s)[1..] == a[1..] + s;
      Prefixed(a[1..], s, cs);
    }
  }

  lemma Suffixed(s: string, b: string, cs: set<char>)
    requires Only(b, cs)
    ensures EndLastNotOf(s + b, cs) == EndLastNotOf(s, cs)
  {
    if b == "" {
      assert s + b == s;
    } else {
      assert (s + b)[..|s + b| - 1] == s + b[..|b| - 1];
      Suffixed(s, b[..|b| - 1], cs);
    }
  }

  /** Stripping never leaves a strippable character at either end. */
  lemma StripBare(s: string, cs: set<char>)
    ensures Bare(Strip(s, cs), cs)
    ensures Bare(s, cs) ==> Strip(s, cs) == s
  {
    FirstFound(s, cs);
    EndFound(s, cs);
  }

  /** Padding in cs around a string makes no difference to what is left of it. */
  lemma StripInner(a: string, s: string, b: string, cs: set<char>)
    requires Only(a, cs) && Only(b, cs)
    ensures Strip(a + s + b, cs) == Strip(s, cs)
  {
    FirstFound(s, cs);
    EndFound(s, cs);
    FirstBeforeEnd(s, cs);
    var core, i := Strip(s, cs), FirstNotOf(s, cs);
    var x, y := s[..i], if core == "" then "" else s[EndLastNotOf(s, cs)..];
    assert a + s + b == (a + x) + core + (y + b);
    StripPadded(a + x, core, y + b, cs);
  }

  function Spaces(n: nat): (s: string)
    ensures |s| == n && Only(s, {' '})
  {
    seq(n, i => ' ')
  }

  /** std::to_string on an int. */
  function IntToString(n: int): string {
    if n < 0 then "-" + NatToString(-n) else NatToString(n)
  }

  function NatToString(n: nat): string {
    var digit := ['0', '1', '2', '3', '4', '5', '6', '7', '8', '9'][n % 10];
    if n < 10 then [digit] else NatToString(n / 10) + [digit]
  }

  predicate Digits(s: string) {
    forall i | 0 <= i < |s| :: '0' <= s[i] <= '9'
  }

  /** The number that a numeral stands for. */
  function ReadNumeral(s: string): nat
    requires Digits(s)
    decreases |s|
  {
    if s == "" then 0 else 10 * ReadNumeral(s[..|s| - 1]) + (s[|s| - 1] as int - '0' as int)
  }

  lemma OneDigit(d: nat)
    requires d < 10
    ensures var digit := ['0', '1', '2', '3', '4', '5', '6', '7', '8', '9'][d];
      '0' <= digit <= '9' && digit as int - '0' as int == d
  {
  }

  /** A numeral reads back as its number. */
  lemma {:induction false} NumeralReadsBack(n: nat)
    ensures Digits(NatToString(n)) && ReadNumeral(NatToString(n)) == n
  {
    var s := NatToString(n);
    OneDigit(n % 10);
    if n >= 10 {
      NumeralReadsBack(n / 10);
      assert s[..|s| - 1] == NatToString(n / 10);
    } else {
      assert s[..|s| - 1] == "";
    }
  }

  lemma {:induction false} NumeralStart(n: nat)
    ensures NatToString(n) != "" && (n > 0 ==> NatToString(n)[0] != '0')
  {
    if n >= 10 {
      NumeralStart(n / 10);
    }
  }

  /** The lines std::getline yields: the last one needs no newline, and none follows a final newline. */
  function Lines(text: string): seq<string>
    decreases |text|
  {
    if text == "" then []
    else
      var i := IndexOf(text, '\n');
      if i == |text| then [text] else [text[..i]] + Lines(text[i + 1..])
  }

  function Unlines(lines: seq<string>): string {
    if lines == [] then "" else lines[0] + "\n" + Unlines(lines[1..])
  }

  lemma {:induction false} LinesOfUnlines(lines: seq<string>)
    requires forall l | l in lines :: '\n' !in l
    ensures Lines(Unlines(lines)) == lines
  {
    if lines != [] {
      var text, l := Unlines(lines), lines[0];
      IndexAfter(l, '\n', Unlines(lines[1..]));
      assert text == l + ['\n'] + Unlines(lines[1..]) && text[..|l|] == l;
      assert text[|l| + 1..] == Unlines(lines[1..]);
      LinesOfUnlines(lines[1..]);
    }
  }
}
