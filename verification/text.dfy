/** The handful of JavaScript string operations the client relies on:
    `trim`, `toLowerCase`, `includes`, truthiness of optional strings,
    `filter(Boolean)` and `join`. */
module Text {
  import opened Wrappers

  /** ECMAScript WhiteSpace and LineTerminator code points: exactly what the
      regular-expression class `\s` matches and what `trim` removes. */
  predicate IsSpace(c: char) {
    || c == ' ' || c == '\t' || c == '\n' || c == '\r'
    || c == '\U{000B}' || c == '\U{000C}' || c == '\U{00A0}' || c == '\U{1680}'
    || ('\U{2000}' <= c <= '\U{200A}')
    || c == '\U{2028}' || c == '\U{2029}' || c == '\U{202F}' || c == '\U{205F}'
    || c == '\U{3000}' || c == '\U{FEFF}'
  }

  /** Drops leading white space: the result is the suffix of `s` that starts
      at its first non-space character. */
  function TrimStart(s: string): (r: string)
    ensures |r| <= |s| && r == s[|s| - |r|..]
    ensures r == [] || !IsSpace(r[0])
    ensures forall i | 0 <= i < |s| - |r| :: IsSpace(s[i])
  {
    if |s| > 0 && IsSpace(s[0]) then TrimStart(s[1..]) else s
  }

  /** Drops trailing white space: the result is the prefix of `s` that ends
      at its last non-space character. */
  function TrimEnd(s: string): (r: string)
    ensures |r| <= |s| && r == s[..|r|]
    ensures r == [] || !IsSpace(r[|r| - 1])
    ensures forall i | |r| <= i < |s| :: IsSpace(s[i])
  {
    if |s| > 0 && IsSpace(s[|s| - 1]) then TrimEnd(s[..|s| - 1]) else s
  }

  /** `String.prototype.trim`. */
  function Trim(s: string): string {
    TrimEnd(TrimStart(s))
  }

  /** `s.trim() === ""`, the test every search box uses to decide that the
      query is blank. */
  predicate IsBlank(s: string) {
    Trim(s) == ""
  }

  /** A query is blank exactly when every one of its characters is white space. */
  lemma BlankIffAllSpace(s: string)
    ensures IsBlank(s) <==> forall i | 0 <= i < |s| :: IsSpace(s[i])
  {
    var t := TrimStart(s);
    if forall i | 0 <= i < |s| :: IsSpace(s[i]) {
      assert |t| > 0 ==> t[0] == s[|s| - |t|];
    } else if t == [] {
    } else {
      assert TrimEnd(t)[0] == t[0];
    }
  }

  /** A string with a non-space character is not blank. */
  lemma NotBlank(s: string, k: nat)
    requires k < |s| && !IsSpace(s[k])
    ensures !IsBlank(s)
  {
    BlankIffAllSpace(s);
  }

  /** `String.prototype.length`: the number of UTF-16 code units, two for a
      character outside the Basic Multilingual Plane and one for any other. */
  function Utf16Length(s: string): (n: nat)
    ensures |s| <= n <= 2 * |s|
    ensures n == 0 <==> s == []
  {
    if s == [] then 0 else (if s[0] as int > 0xFFFF then 2 else 1) + Utf16Length(s[1..])
  }

  /** Only characters outside the Basic Multilingual Plane make the UTF-16
      length exceed the number of characters. */
  lemma {:induction false} Utf16LengthBmp(s: string)
    ensures Utf16Length(s) == |s| <==> forall i | 0 <= i < |s| :: s[i] as int <= 0xFFFF
  {
    if s != [] {
      Utf16LengthBmp(s[1..]);
      assert forall i | 1 <= i < |s| :: s[i] == s[1..][i - 1];
    }
  }

  /** ASCII case folding; every other character is left alone. */
  function LowerChar(c: char): (d: char)
    ensures !('A' <= d <= 'Z')
    ensures d != c ==> 'A' <= c <= 'Z' && d as int == c as int + 32
  {
    if 'A' <= c <= 'Z' then (c as int + 32) as char else c
  }

  /** `String.prototype.toLowerCase`, restricted to ASCII letters. */
  function Lower(s: string): (r: string)
    ensures |r| == |s|
    ensures forall i | 0 <= i < |s| :: r[i] == LowerChar(s[i])
  {
    seq(|s|, i requires 0 <= i < |s| => LowerChar(s[i]))
  }

  /** `hay.includes(needle)`: `needle` occurs as a contiguous block of `hay`. */
  predicate Contains(hay: string, needle: string) {
    exists i | 0 <= i <= |hay| - |needle| :: OccursAt(hay, needle, i)
  }

  /** `needle` occurs in `hay` starting at position `i`. */
  predicate OccursAt(hay: string, needle: string, i: int) {
    0 <= i && i + |needle| <= |hay| && hay[i..i + |needle|] == needle
  }

  /** A needle with a character that does not occur in the haystack is not
      contained in it. */
  lemma NotContainsMissingChar(hay: string, needle: string, k: nat)
    requires k < |needle| && needle[k] !in hay
    ensures !Contains(hay, needle)
  {
    forall i | 0 <= i <= |hay| - |needle|
      ensures !OccursAt(hay, needle, i)
    {
      assert hay[i..i + |needle|][k] == hay[i + k];
      assert hay[i + k] in hay;
    }
  }

  /** JavaScript truthiness of an optional string: present and non-empty. */
  predicate Truthy(o: Option<string>) {
    o.Some? && o.value != ""
  }

  /** The value of an optional string as a zero- or one-element list,
      depending on its truthiness. */
  function Present(o: Option<string>): (r: seq<string>)
    ensures |r| <= 1
    ensures r == [] <==> !Truthy(o)
    ensures r != [] ==> r[0] == o.value
  {
    if Truthy(o) then [o.value] else []
  }

  /** `[...].filter(Boolean)` over optional strings: the truthy values in
      their original order. */
  function Truthies(xs: seq<Option<string>>): (r: seq<string>)
    ensures |r| <= |xs|
    ensures forall i | 0 <= i < |r| :: r[i] != ""
    ensures r == [] <==> forall i | 0 <= i < |xs| :: !Truthy(xs[i])
  {
    if xs == [] then [] else Present(xs[0]) + Truthies(xs[1..])
  }

  /** Filtering a concatenation filters each half. */
  lemma {:induction false} TruthiesAppend(a: seq<Option<string>>, b: seq<Option<string>>)
    ensures Truthies(a + b) == Truthies(a) + Truthies(b)
  {
    if a == [] {
      assert a + b == b;
    } else {
      calc {
        Truthies(a + b);
        Present((a + b)[0]) + Truthies((a + b)[1..]);
        { assert (a + b)[0] == a[0];
          assert (a + b)[1..] == a[1..] + b;
          TruthiesAppend(a[1..], b); }
        Present(a[0]) + (Truthies(a[1..]) + Truthies(b));
      }
    }
  }

  /** The two- and three-element lists the forms filter. */
  lemma TruthiesSmall(x: Option<string>, y: Option<string>, z: Option<string>)
    ensures Truthies([x, y]) == Present(x) + Present(y)
    ensures Truthies([x, y, z]) == Present(x) + Present(y) + Present(z)
  {
    assert [x][1..] == [];
    assert Truthies([x]) == Present(x);
    assert Truthies([y]) == Present(y);
    assert Truthies([z]) == Present(z);
    TruthiesAppend([x], [y]);
    assert [x] + [y] == [x, y];
    TruthiesAppend([x, y], [z]);
    assert [x, y] + [z] == [x, y, z];
  }

  /** `parts.join(sep)`. */
  function Join(parts: seq<string>, sep: string): (r: string)
    ensures |parts| > 0 ==> |parts[0]| <= |r| && r[..|parts[0]|] == parts[0]
    ensures sep != "" ==> (r == "" <==> |parts| == 0 || (|parts| == 1 && parts[0] == ""))
  {
    if |parts| == 0 then ""
    else if |parts| == 1 then parts[0]
    else parts[0] + sep + Join(parts[1..], sep)
  }

  /** Joining two non-empty lists is joining each and gluing the halves with
      one more separator. */
  lemma {:induction false} JoinConcat(a: seq<string>, b: seq<string>, sep: string)
    requires a != [] && b != []
    ensures Join(a + b, sep) == Join(a, sep) + sep + Join(b, sep)
  {
    if |a| == 1 {
      assert (a + b)[1..] == b;
    } else {
      assert (a + b)[1..] == a[1..] + b;
      JoinConcat(a[1..], b, sep);
    }
  }
}
