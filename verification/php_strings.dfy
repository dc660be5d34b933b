/** The PHP string primitives the replicator relies on, over `seq<char>`.
    PHP's case mappings (strtolower, strtoupper, ucwords) and its
    case-insensitive search functions (stripos, str_ireplace) act on ASCII
    letters only; every other character is left as it is. */
module PhpStrings {

  /** PHP's `empty()` applied to a string; a null string is written "". */
  predicate Empty(s: string) {
    s == "" || s == "0"
  }

  predicate IsUpper(c: char) { 'A' <= c <= 'Z' }
  predicate IsLower(c: char) { 'a' <= c <= 'z' }
  predicate IsDigit(c: char) { '0' <= c <= '9' }

  function LowerChar(c: char): char {
    if IsUpper(c) then (c as int + 32) as char else c
  }

  function UpperChar(c: char): char {
    if IsLower(c) then (c as int - 32) as char else c
  }

  /** strtolower */
  function ToLower(s: string): string {
    seq(|s|, i requires 0 <= i < |s| => LowerChar(s[i]))
  }

  /** strtoupper */
  function ToUpper(s: string): string {
    seq(|s|, i requires 0 <= i < |s| => UpperChar(s[i]))
  }

  /** Equality as stripos and str_ireplace see it. */
  predicate EqualCI(a: string, b: string) {
    ToLower(a) == ToLower(b)
  }

  /** `false !== stripos(s, pat)` */
  predicate ContainsCI(s: string, pat: string)
    decreases |s|
  {
    if pat == [] then true
    else if |s| < |pat| then false
    else if EqualCI(s[..|pat|], pat) then true
    else ContainsCI(s[1..], pat)
  }

  /** `false !== strpos(s, pat)` (case-sensitive) */
  predicate Contains(s: string, pat: string)
    decreases |s|
  {
    if pat == [] then true
    else if |s| < |pat| then false
    else if s[..|pat|] == pat then true
    else Contains(s[1..], pat)
  }

  /** `str_ireplace(pat, rep, s)`: one left-to-right pass that replaces every
      non-overlapping case-insensitive occurrence of `pat`; the replacement
      text is not searched again. An empty `pat` leaves `s` unchanged. */
  function ReplaceCI(s: string, pat: string, rep: string): string
    decreases |s|
  {
    if pat == [] || |s| < |pat| then s
    else if EqualCI(s[..|pat|], pat) then rep + ReplaceCI(s[|pat|..], pat, rep)
    else [s[0]] + ReplaceCI(s[1..], pat, rep)
  }

  /** The string with every `from` turned into `to`, character by character. */
  function MapChar(s: string, from: char, to: char): string {
    seq(|s|, i requires 0 <= i < |s| => if s[i] == from then to else s[i])
  }

  /** The default word delimiters of ucwords: space, \t, \r, \n, \f and \v. */
  const WordDelimiters: set<char> := {' ', '\t', '\r', '\n', '\U{000C}', '\U{000B}'}

  /** `ucwords(s, delimiters)`: upper-cases the first character and every
      character that follows a delimiter; nothing is lower-cased. */
  function Ucwords(s: string, delimiters: set<char>): string {
    seq(|s|, i requires 0 <= i < |s| =>
      if i == 0 || s[i - 1] in delimiters then UpperChar(s[i]) else s[i])
  }

  /** `rtrim(s, chars)`: removes every trailing character that belongs to `chars`. */
  function Rtrim(s: string, chars: set<char>): string
    decreases |s|
  {
    if |s| > 0 && s[|s| - 1] in chars then Rtrim(s[..|s| - 1], chars) else s
  }

  /** rtrim keeps a prefix, removes only characters of `chars`, and leaves
      none of them at the end. */
  lemma {:induction false} RtrimSpec(s: string, chars: set<char>)
    ensures Rtrim(s, chars) <= s
    ensures Rtrim(s, chars) == [] || Rtrim(s, chars)[|Rtrim(s, chars)| - 1] !in chars
    ensures forall i :: |Rtrim(s, chars)| <= i < |s| ==> s[i] in chars
    decreases |s|
  {
    if |s| > 0 && s[|s| - 1] in chars {
      RtrimSpec(s[..|s| - 1], chars);
    }
  }

  /** `trailingslashit` of WP_CLI\Utils: strips trailing '/' and '\' and appends one '/'. */
  function TrailingSlashIt(s: string): string {
    Rtrim(s, {'/', '\\'}) + "/"
  }

  /** `array_pop(explode(sep, s))`: the text after the last occurrence of
      `sep` found by explode's left-to-right scan, or all of `s` when `sep`
      does not occur. (An empty `sep` is an error in PHP; here it gives `s`.) */
  function AfterLast(s: string, sep: string): string
    decreases |s|
  {
    if sep == [] || |s| < |sep| then s
    else if s[..|sep|] == sep then AfterLast(s[|sep|..], sep)
    else if Contains(s[1..], sep) then AfterLast(s[1..], sep)
    else s
  }

  /** What array_pop(explode(...)) returns is a suffix of the string. */
  lemma {:induction false} AfterLastSuffix(s: string, sep: string)
    ensures var r := AfterLast(s, sep); |r| <= |s| && r == s[|s| - |r|..]
    decreases |s|
  {
    if sep != [] && |s| >= |sep| {
      var rest := if s[..|sep|] == sep then s[|sep|..] else s[1..];
      if s[..|sep|] == sep || Contains(s[1..], sep) {
        AfterLastSuffix(rest, sep);
        var r := AfterLast(rest, sep);
        assert rest[|rest| - |r|..] == s[|s| - |r|..];
      }
    }
  }

  /** The characters that survive `preg_replace('/[^\da-z- ]/i', '', s)`. */
  predicate SlugSourceChar(c: char) {
    IsDigit(c) || IsLower(c) || IsUpper(c) || c == '-' || c == ' '
  }

  /** `preg_replace('/[^\da-z- ]/i', '', s)` */
  function KeepSlugSourceChars(s: string): (r: string)
    ensures forall i :: 0 <= i < |r| ==> SlugSourceChar(r[i])
    ensures |r| <= |s|
  {
    if s == [] then []
    else (if SlugSourceChar(s[0]) then [s[0]] else []) + KeepSlugSourceChars(s[1..])
  }

  function CountChar(s: string, c: char): nat {
    if s == [] then 0 else (if s[0] == c then 1 else 0) + CountChar(s[1..], c)
  }

  // ---------------------------------------------------------------------
  // Facts about the primitives

  /** For a character that is not a letter, case-insensitive equality with a
      one-character string is plain equality. */
  lemma EqualCISingle(x: char, a: char)
    requires !IsUpper(a) && !IsLower(a)
    ensures EqualCI([x], [a]) <==> x == a
  {
    assert ToLower([x]) == [LowerChar(x)];
    assert ToLower([a]) == [a];
  }

  /** A name followed by `pat` contains `pat`. */
  lemma {:induction false} ContainsCIAtEnd(s: string, pat: string)
    ensures ContainsCI(s + pat, pat)
    decreases |s|
  {
    if pat == [] {
    } else if s == [] {
      assert (s + pat)[..|pat|] == pat;
    } else if !EqualCI((s + pat)[..|pat|], pat) {
      assert (s + pat)[1..] == s[1..] + pat;
      ContainsCIAtEnd(s[1..], pat);
    }
  }

  /** str_ireplace of a single non-letter character by another character is a
      character map. */
  lemma {:induction false} ReplaceCISingleIsMap(s: string, a: char, b: char)
    requires !IsUpper(a) && !IsLower(a)
    ensures ReplaceCI(s, [a], [b]) == MapChar(s, a, b)
    decreases |s|
  {
    if s != [] {
      EqualCISingle(s[0], a);
      assert s[..1] == [s[0]];
      ReplaceCISingleIsMap(s[1..], a, b);
      assert MapChar(s, a, b) == MapChar([s[0]], a, b) + MapChar(s[1..], a, b);
    }
  }

  /** A string that does not contain `pat` is left unchanged by str_ireplace. */
  lemma {:induction false} ReplaceCIAbsent(s: string, pat: string, rep: string)
    requires !ContainsCI(s, pat)
    ensures ReplaceCI(s, pat, rep) == s
    decreases |s|
  {
    if pat != [] && |s| >= |pat| {
      ReplaceCIAbsent(s[1..], pat, rep);
      assert s == [s[0]] + s[1..];
    }
  }

  /** When `s` starts with `pat`, str_ireplace's result starts with `rep`. */
  lemma ReplaceCIAtStart(s: string, pat: string, rep: string)
    requires pat != [] && pat <= s
    ensures rep <= ReplaceCI(s, pat, rep)
  {
    assert s[..|pat|] == pat;
  }

  /** Replacing each backslash by two adds one character per backslash. */
  lemma {:induction false} ReplaceBackslashLength(s: string)
    ensures |ReplaceCI(s, "\\", "\\\\")| == |s| + CountChar(s, '\\')
    decreases |s|
  {
    if s != [] {
      EqualCISingle(s[0], '\\');
      assert s[..1] == [s[0]];
      ReplaceBackslashLength(s[1..]);
    }
  }

  lemma {:induction false} CountCharAbsent(s: string, c: char)
    requires forall i :: 0 <= i < |s| ==> s[i] != c
    ensures CountChar(s, c) == 0
    decreases |s|
  {
    if s != [] {
      CountCharAbsent(s[1..], c);
    }
  }
}
