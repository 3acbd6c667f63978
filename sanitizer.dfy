/** The filename sanitiser of the upload endpoint (`sanitize_filename`):
    transliterate to ASCII, turn every space into an underscore, then drop
    every character outside [a-zA-Z0-9_.]. */
module Sanitizer {

  /** The characters a sanitised filename may keep: [a-zA-Z0-9_.] */
  predicate Allowed(c: char) {
    || ('a' <= c <= 'z')
    || ('A' <= c <= 'Z')
    || ('0' <= c <= '9')
    || c == '_'
    || c == '.'
  }

  predicate IsAscii(c: char) {
    (c as int) < 128
  }

  predicate AllAscii(s: string) {
    forall i :: 0 <= i < |s| ==> IsAscii(s[i])
  }

  predicate AllAllowed(s: string) {
    forall i :: 0 <= i < |s| ==> Allowed(s[i])
  }

  /** The transliteration table of unidecode: the replacement text of one
      non-ASCII character. The library's tables are not modelled; every
      lemma below holds for any table. */
  type Table = char -> string

  /** The table yields ASCII text only, as unidecode promises. */
  ghost predicate AsciiValued(table: Table) {
    forall c :: AllAscii(table(c))
  }

  /** unidecode: an ASCII character is kept as it is, any other character is
      replaced by its table entry, left to right. */
  function Unidecode(table: Table, s: string): (r: string)
    ensures AllAscii(s) ==> r == s
  {
    if s == [] then []
    else (if IsAscii(s[0]) then [s[0]] else table(s[0])) + Unidecode(table, s[1..])
  }

  /** With an ASCII-valued table, the transliteration is ASCII. */
  lemma {:induction false} UnidecodeIsAscii(table: Table, s: string)
    requires AsciiValued(table)
    ensures AllAscii(Unidecode(table, s))
  {
    if s != [] {
      UnidecodeIsAscii(table, s[1..]);
      var head := if IsAscii(s[0]) then [s[0]] else table(s[0]);
      assert AllAscii(head);
      var r := head + Unidecode(table, s[1..]);
      assert forall i :: 0 <= i < |r| ==> IsAscii(r[i]) by {
        forall i | 0 <= i < |r| ensures IsAscii(r[i]) {
          if i < |head| { assert r[i] == head[i]; }
          else { assert r[i] == Unidecode(table, s[1..])[i - |head|]; }
        }
      }
    }
  }

  /** `str.replace(' ', '_')`: the same characters, spaces turned into underscores. */
  function ReplaceSpaces(s: string): (r: string)
    ensures |r| == |s|
    ensures forall i :: 0 <= i < |s| ==> r[i] == (if s[i] == ' ' then '_' else s[i])
  {
    if s == [] then [] else [if s[0] == ' ' then '_' else s[0]] + ReplaceSpaces(s[1..])
  }

  /** `re.sub(r'[^a-zA-Z0-9_.]', '', s)`: every allowed character stays, with
      its multiplicity, and nothing else does. */
  function KeepAllowed(s: string): (r: string)
    ensures |r| <= |s|
    ensures AllAllowed(r)
    ensures forall c :: Allowed(c) ==> multiset(r)[c] == multiset(s)[c]
  {
    if s == [] then []
    else
      assert s == [s[0]] + s[1..];
      (if Allowed(s[0]) then [s[0]] else []) + KeepAllowed(s[1..])
  }

  /** Filtering distributes over concatenation, so it keeps the order of the
      characters it keeps. */
  lemma {:induction false} KeepAllowedConcat(a: string, b: string)
    ensures KeepAllowed(a + b) == KeepAllowed(a) + KeepAllowed(b)
  {
    if a == [] {
      assert a + b == b;
    } else {
      assert (a + b)[0] == a[0];
      assert (a + b)[1..] == a[1..] + b;
      KeepAllowedConcat(a[1..], b);
    }
  }

  /** A string made of allowed characters only passes the filter unchanged. */
  lemma {:induction false} KeepAllowedFixes(s: string)
    requires AllAllowed(s)
    ensures KeepAllowed(s) == s
  {
    if s != [] {
      assert AllAllowed(s[1..]) by {
        forall i | 0 <= i < |s[1..]| ensures Allowed(s[1..][i]) { assert s[1..][i] == s[i + 1]; }
      }
      KeepAllowedFixes(s[1..]);
      assert [s[0]] + s[1..] == s;
    }
  }

  /** Replacing spaces distributes over concatenation. */
  lemma ReplaceSpacesConcat(a: string, b: string)
    ensures ReplaceSpaces(a + b) == ReplaceSpaces(a) + ReplaceSpaces(b)
  {
    var l, r := ReplaceSpaces(a + b), ReplaceSpaces(a) + ReplaceSpaces(b);
    assert |l| == |r|;
    forall i | 0 <= i < |l| ensures l[i] == r[i] {
      if i < |a| { assert (a + b)[i] == a[i]; } else { assert (a + b)[i] == b[i - |a|]; }
    }
  }

  /** Every underscore of the result comes from an underscore or a space of the
      input: spaces are turned into underscores before the filter runs. */
  lemma {:induction false} ReplaceSpacesCounts(s: string)
    ensures multiset(ReplaceSpaces(s))['_'] == multiset(s)['_'] + multiset(s)[' ']
    ensures multiset(ReplaceSpaces(s))[' '] == 0
  {
    if s != [] {
      ReplaceSpacesCounts(s[1..]);
      assert s == [s[0]] + s[1..];
      assert ReplaceSpaces(s) == [if s[0] == ' ' then '_' else s[0]] + ReplaceSpaces(s[1..]);
    }
  }

  /** The part of `sanitize_filename` after transliteration: a map
      (space to underscore) followed by a filter ([a-zA-Z0-9_.]). */
  function Sanitize(unidecoded: string): (r: string)
    ensures AllAllowed(r) && AllAscii(r)
    ensures forall i :: 0 <= i < |r| ==> r[i] != ' '
    ensures |r| <= |unidecoded|
  {
    KeepAllowed(ReplaceSpaces(unidecoded))
  }

  /** `sanitize_filename`: transliteration, then Sanitize. */
  function SanitizeFilename(table: Table, filename: string): (r: string)
    ensures AllAllowed(r)
    ensures forall i :: 0 <= i < |r| ==> r[i] != ' '
    ensures |r| <= |Unidecode(table, filename)|
  {
    Sanitize(Unidecode(table, filename))
  }

  /** Sanitising works one character at a time: a space becomes "_", an
      allowed character stays, anything else vanishes. */
  lemma SanitizeChar(c: char)
    ensures Sanitize([c]) == if c == ' ' then "_" else if Allowed(c) then [c] else ""
  {
    assert ReplaceSpaces([c]) == [if c == ' ' then '_' else c];
    assert [if c == ' ' then '_' else c][1..] == [];
  }

  lemma SanitizeConcat(a: string, b: string)
    ensures Sanitize(a + b) == Sanitize(a) + Sanitize(b)
  {
    ReplaceSpacesConcat(a, b);
    KeepAllowedConcat(ReplaceSpaces(a), ReplaceSpaces(b));
  }

  /** Underscores in the output are exactly the underscores and spaces of the
      input; had the filter run first, the spaces would have been dropped. */
  lemma SanitizeUnderscores(u: string)
    ensures multiset(Sanitize(u))['_'] == multiset(u)['_'] + multiset(u)[' ']
  {
    ReplaceSpacesCounts(u);
  }

  /** Sanitising an already sanitised string changes nothing. */
  lemma SanitizeIdempotent(u: string)
    ensures Sanitize(Sanitize(u)) == Sanitize(u)
  {
    var r := Sanitize(u);
    assert ReplaceSpaces(r) == r;
    KeepAllowedFixes(r);
  }

  /** The whole of `sanitize_filename` is idempotent: its output is ASCII, so
      the second transliteration leaves it alone. */
  lemma SanitizeFilenameIdempotent(table: Table, filename: string)
    ensures SanitizeFilename(table, SanitizeFilename(table, filename)) == SanitizeFilename(table, filename)
  {
    SanitizeIdempotent(Unidecode(table, filename));
  }

  /** An ASCII suffix made of allowed characters survives sanitising, so the
      stored name ends in the extension that the raw name was checked for. */
  lemma SanitizeKeepsSuffix(table: Table, stem: string, suffix: string)
    requires AllAllowed(suffix)
    ensures SanitizeFilename(table, stem + suffix) == SanitizeFilename(table, stem) + suffix
  {
    UnidecodeConcat(table, stem, suffix);
    assert AllAscii(suffix);
    SanitizeConcat(Unidecode(table, stem), suffix);
    assert ReplaceSpaces(suffix) == suffix;
    KeepAllowedFixes(suffix);
  }

  lemma {:induction false} UnidecodeConcat(table: Table, a: string, b: string)
    ensures Unidecode(table, a + b) == Unidecode(table, a) + Unidecode(table, b)
  {
    if a == [] {
      assert a + b == b;
    } else {
      assert (a + b)[0] == a[0];
      assert (a + b)[1..] == a[1..] + b;
      UnidecodeConcat(table, a[1..], b);
    }
  }

  /** A table entry for the two accented letters of the example name. */
  function ExampleTable(c: char): string {
    if c == '\U{00F3}' then "o" else if c == '\U{00E7}' then "c" else ""
  }

  lemma UnidecodeChar(table: Table, c: char)
    ensures Unidecode(table, [c]) == if IsAscii(c) then [c] else table(c)
  {
    assert [c][1..] == [];
  }

  /** Transliteration replaces the non-ASCII characters of a name and keeps
      the ASCII runs between them. */
  lemma UnidecodeTwoReplaced(table: Table, p: string, o: char, q: string, c: char, r: string)
    requires AllAscii(p) && AllAscii(q) && AllAscii(r) && !IsAscii(o) && !IsAscii(c)
    ensures Unidecode(table, p + [o] + q + [c] + r) == p + table(o) + q + table(c) + r
  {
    UnidecodeChar(table, o);
    UnidecodeChar(table, c);
    UnidecodeConcat(table, p, [o]);
    UnidecodeConcat(table, p + [o], q);
    UnidecodeConcat(table, p + [o] + q, [c]);
    UnidecodeConcat(table, p + [o] + q + [c], r);
  }

  /** "relatório março.csv" is transliterated to "relatorio marco.csv". */
  lemma UnidecodeExample(name: string)
    requires name == "relat\U{00F3}rio mar\U{00E7}o.csv"
    ensures Unidecode(ExampleTable, name) == "relatorio marco.csv"
  {
    var p, q, r := "relat", "rio mar", "o.csv";
    var o, c := '\U{00F3}', '\U{00E7}';
    assert AllAscii(p);
    assert AllAscii(q);
    assert AllAscii(r);
    assert name == p + [o] + q + [c] + r;
    UnidecodeTwoReplaced(ExampleTable, p, o, q, c, r);
    assert ExampleTable(o) == "o" && ExampleTable(c) == "c";
    ExampleSpelling(p, q, r);
  }

  lemma ExampleSpelling(p: string, q: string, r: string)
    requires p == "relat" && q == "rio mar" && r == "o.csv"
    ensures p + "o" + q + "c" + r == "relatorio marco.csv"
  {
  }

  /** A string of allowed characters without spaces is its own sanitised form. */
  lemma SanitizeFixes(s: string)
    requires AllAllowed(s)
    ensures Sanitize(s) == s
  {
    assert ReplaceSpaces(s) == s;
    KeepAllowedFixes(s);
  }

  /** "relatorio marco.csv" is sanitised to "relatorio_marco.csv". */
  lemma SanitizeExample(u: string)
    requires u == "relatorio marco.csv"
    ensures Sanitize(u) == "relatorio_marco.csv"
  {
    var stem, ext := "relatorio", "marco.csv";
    assert AllAllowed(stem);
    assert AllAllowed(ext);
    SanitizedSpelling(stem, ext);
    SanitizeConcat(stem + " ", ext);
    SanitizeConcat(stem, " ");
    SanitizeChar(' ');
    SanitizeFixes(stem);
    SanitizeFixes(ext);
    assert Sanitize(u) == stem + "_" + ext;
  }

  lemma SanitizedSpelling(stem: string, ext: string)
    requires stem == "relatorio" && ext == "marco.csv"
    ensures stem + " " + ext == "relatorio marco.csv"
    ensures stem + "_" + ext == "relatorio_marco.csv"
  {
  }

  /** The whole of `sanitize_filename` on the example name. */
  lemma SanitizeFilenameExample(name: string)
    requires name == "relat\U{00F3}rio mar\U{00E7}o.csv"
    ensures SanitizeFilename(ExampleTable, name) == "relatorio_marco.csv"
  {
    UnidecodeExample(name);
    SanitizeExample(Unidecode(ExampleTable, name));
  }
}
