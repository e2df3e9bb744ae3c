/** String and option helpers shared by the Visual Studio bootstrapper model.
    They stand for the few Java library calls the core relies on:
    String.startsWith/endsWith/contains/indexOf/replace/toLowerCase,
    String.split, commons-lang StringUtils.split and Guava's
    Splitter.on(c).omitEmptyStrings(). */
module Text {

  datatype Option<+T> = None | Some(value: T)

  datatype Result<+R, +E> = Ok(value: R) | Err(error: E)

  /** Guava Strings.nullToEmpty. */
  function NullToEmpty(s: Option<string>): string {
    if s.Some? then s.value else ""
  }

  predicate StartsWith(s: string, prefix: string) {
    |prefix| <= |s| && s[..|prefix|] == prefix
  }

  predicate EndsWith(s: string, suffix: string) {
    |suffix| <= |s| && s[|s| - |suffix|..] == suffix
  }

  /** String.contains: `t` occurs in `s` at some offset. */
  predicate Contains(s: string, t: string) {
    exists i :: 0 <= i <= |s| - |t| && StartsWith(s[i..], t)
  }

  /** Character.toLowerCase, restricted to ASCII letters. */
  function LowerChar(c: char): char {
    if 'A' <= c <= 'Z' then (c as int + 32) as char else c
  }

  /** String.toLowerCase, restricted to ASCII letters. */
  function Lower(s: string): (r: string)
    ensures |r| == |s|
    ensures forall i :: 0 <= i < |s| ==> r[i] == LowerChar(s[i])
  {
    seq(|s|, i requires 0 <= i < |s| => LowerChar(s[i]))
  }

  /** String.replace(char, char). */
  function ReplaceChar(s: string, from: char, to: char): (r: string)
    ensures |r| == |s|
    ensures forall i :: 0 <= i < |s| ==> r[i] == (if s[i] == from then to else s[i])
  {
    seq(|s|, i requires 0 <= i < |s| => if s[i] == from then to else s[i])
  }

  /** String.indexOf(char) for a character that occurs: the first occurrence. */
  function IndexOf(s: string, c: char): (r: nat)
    requires c in s
    ensures r < |s| && s[r] == c
    ensures c !in s[..r]
  {
    if s[0] == c then 0 else 1 + IndexOf(s[1..], c)
  }

  /** String.lastIndexOf(char) for a character that occurs. */
  function LastIndexOf(s: string, c: char): (r: nat)
    requires c in s
    ensures r < |s| && s[r] == c
    ensures c !in s[r + 1..]
  {
    if s[|s| - 1] == c then |s| - 1 else LastIndexOf(s[..|s| - 1], c)
  }

  /** Every piece between separators, empty pieces included
      (String.split with a negative limit). */
  function Fields(s: string, sep: char): (r: seq<string>)
    ensures r != []
    ensures forall k :: 0 <= k < |r| ==> sep !in r[k]
    decreases |s|
  {
    if sep !in s then [s]
    else
      var i := IndexOf(s, sep);
      [s[..i]] + Fields(s[i + 1..], sep)
  }

  /** The pieces joined back with the separator. */
  function Join(xs: seq<string>, sep: char): string
    requires xs != []
  {
    if |xs| == 1 then xs[0] else xs[0] + [sep] + Join(xs[1..], sep)
  }

  /** The non-empty elements, in order. */
  function NonEmpty(xs: seq<string>): (r: seq<string>)
    ensures forall k :: 0 <= k < |r| ==> r[k] != [] && r[k] in xs
    ensures forall x :: x in xs && x != [] ==> x in r
  {
    if xs == [] then []
    else if xs[0] == [] then NonEmpty(xs[1..])
    else [xs[0]] + NonEmpty(xs[1..])
  }

  /** The non-empty pieces between separators: commons-lang
      StringUtils.split(s, "c") and Guava Splitter.on(c).omitEmptyStrings(). */
  function Tokens(s: string, sep: char): seq<string> {
    NonEmpty(Fields(s, sep))
  }

  /** The list with its trailing empty strings removed. */
  function DropTrailingEmpty(xs: seq<string>): (r: seq<string>)
    ensures |r| <= |xs| && r == xs[..|r|]
    ensures r == [] || r[|r| - 1] != []
    ensures forall k :: |r| <= k < |xs| ==> xs[k] == []
  {
    if xs == [] || xs[|xs| - 1] != [] then xs
    else DropTrailingEmpty(xs[..|xs| - 1])
  }

  /** String.split(regex) for a one-character regex: when the separator
      occurs, the pieces with the trailing empty ones removed; otherwise the
      whole input. */
  function JavaSplit(s: string, sep: char): seq<string> {
    if sep !in s then [s] else DropTrailingEmpty(Fields(s, sep))
  }

  /** Splitting a joined list gives the list back, provided no element
      contains the separator. */
  lemma {:induction false} FieldsOfJoin(xs: seq<string>, sep: char)
    requires xs != []
    requires forall k :: 0 <= k < |xs| ==> sep !in xs[k]
    ensures Fields(Join(xs, sep), sep) == xs
  {
    if |xs| > 1 {
      var s := Join(xs, sep);
      assert s == xs[0] + [sep] + Join(xs[1..], sep);
      assert sep in s by { assert s[|xs[0]|] == sep; }
      var i := IndexOf(s, sep);
      assert i == |xs[0]|;
      assert s[..i] == xs[0];
      assert s[i + 1..] == Join(xs[1..], sep);
      FieldsOfJoin(xs[1..], sep);
    } else {
      assert Join(xs, sep) == xs[0];
    }
  }

  /** Joining the pieces of a split gives the input back. */
  lemma {:induction false} JoinOfFields(s: string, sep: char)
    ensures Join(Fields(s, sep), sep) == s
    decreases |s|
  {
    if sep in s {
      var i := IndexOf(s, sep);
      JoinOfFields(s[i + 1..], sep);
      var rest := Fields(s[i + 1..], sep);
      assert Fields(s, sep) == [s[..i]] + rest;
      assert Fields(s, sep)[1..] == rest;
      assert s == s[..i] + [sep] + s[i + 1..];
    }
  }

  /** An occurrence with none before it is the one IndexOf finds. */
  lemma FirstOccurrence(s: string, c: char, i: nat)
    requires i < |s| && s[i] == c && c !in s[..i]
    ensures c in s && IndexOf(s, c) == i
  {
    assert c in s by { assert s[i] == c; }
  }

  /** Splitting two strings joined by the separator gives the pieces of the
      first followed by the pieces of the second. */
  lemma {:induction false} FieldsOfConcat(a: string, b: string, sep: char)
    ensures Fields(a + [sep] + b, sep) == Fields(a, sep) + Fields(b, sep)
    decreases |a|
  {
    var s := a + [sep] + b;
    if sep !in a {
      assert s[..|a|] == a;
      FirstOccurrence(s, sep, |a|);
      assert s[|a| + 1..] == b;
    } else {
      var j := IndexOf(a, sep);
      assert s[..j] == a[..j];
      FirstOccurrence(s, sep, j);
      assert s[j + 1..] == a[j + 1..] + [sep] + b;
      FieldsOfConcat(a[j + 1..], b, sep);
    }
  }

  /** Tokenising a joined list of non-empty, separator-free names gives the
      list back. */
  lemma TokensOfJoin(xs: seq<string>, sep: char)
    requires xs != []
    requires forall k :: 0 <= k < |xs| ==> xs[k] != [] && sep !in xs[k]
    ensures Tokens(Join(xs, sep), sep) == xs
  {
    FieldsOfJoin(xs, sep);
    NonEmptyKeeps(xs);
  }

  lemma {:induction false} NonEmptyKeeps(xs: seq<string>)
    requires forall k :: 0 <= k < |xs| ==> xs[k] != []
    ensures NonEmpty(xs) == xs
  {
    if xs != [] {
      NonEmptyKeeps(xs[1..]);
    }
  }

  /** Lower-casing twice is lower-casing once. */
  lemma LowerIdempotent(s: string)
    ensures Lower(Lower(s)) == Lower(s)
  {
  }
}
