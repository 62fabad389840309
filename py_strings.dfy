/** The few Python string operations the device manager relies on, on `string == seq<char>`. */
module PyStrings {
  import opened Wrappers

  /** A Python `dict` from `str` to `str` (a JSON object whose values are strings). */
  type StrDict = map<string, string>

  /** Python truthiness of a value that is a `str` or `None`: `None` and `""` are false. */
  predicate Truthy(o: Option<string>)
  {
    o.Some? && o.value != ""
  }

  /** Python `pat in s` for strings: `pat` occurs in `s` as a contiguous substring. */
  predicate Contains(s: string, pat: string)
  {
    exists i :: 0 <= i <= |s| - |pat| && OccursAt(s, pat, i)
  }

  /** `pat` occurs in `s` starting at index `i`. */
  predicate OccursAt(s: string, pat: string, i: int)
  {
    0 <= i && i + |pat| <= |s| && s[i..i + |pat|] == pat
  }

  /** A string containing `pat` contains every character of `pat`. */
  lemma ContainsChar(s: string, pat: string, k: nat)
    requires Contains(s, pat) && k < |pat|
    ensures pat[k] in s
  {
    var i :| 0 <= i <= |s| - |pat| && OccursAt(s, pat, i);
    assert s[i + k] == pat[k];
  }

  /** Index of the first occurrence of `c` in `s`. */
  function IndexOf(s: string, c: char): (r: nat)
    requires c in s
    ensures r < |s| && s[r] == c && c !in s[..r]
  {
    if s[0] == c then 0
    else
      var k := IndexOf(s[1..], c);
      assert s[..k + 1] == [s[0]] + s[1..][..k];
      k + 1
  }

  /** Python `sep.join(parts)` for a one-character separator. */
  function Join(parts: seq<string>, sep: char): string
  {
    if parts == [] then ""
    else if |parts| == 1 then parts[0]
    else parts[0] + [sep] + Join(parts[1..], sep)
  }

  /** Python `s.split(sep)` for a one-character separator: the pieces between separators,
      at least one of them, none holding the separator, and joining them back gives `s`. */
  function Split(s: string, sep: char): (r: seq<string>)
    ensures |r| >= 1
    ensures sep in s ==> |r| >= 2
    ensures forall k :: 0 <= k < |r| ==> sep !in r[k]
    ensures Join(r, sep) == s
    decreases |s|
  {
    if sep !in s then [s]
    else
      var i := IndexOf(s, sep);
      var rest := Split(s[i + 1..], sep);
      assert s == s[..i] + [sep] + s[i + 1..];
      [s[..i]] + rest
  }

  /** Splitting at the first separator, found at index `i`. */
  lemma SplitAt(s: string, sep: char, i: nat)
    requires i < |s| && s[i] == sep && sep !in s[..i]
    ensures Split(s, sep) == [s[..i]] + Split(s[i + 1..], sep)
  {
    assert IndexOf(s, sep) == i;
  }

  /** A field that follows a key ending in the separator: in `prefix + key + value`, with the
      separator only at the end of `key`, the key occurs after the prefix and the second piece
      of the split is `value`. */
  lemma SplitAfterKey(prefix: string, key: string, value: string, sep: char)
    requires key != [] && key[|key| - 1] == sep && sep !in key[..|key| - 1]
    requires sep !in prefix && sep !in value
    ensures OccursAt(prefix + key + value, key, |prefix|)
    ensures Split(prefix + key + value, sep)[1] == value
  {
    var line := prefix + key + value;
    var k := |prefix| + |key| - 1;
    assert line[|prefix|..|prefix| + |key|] == key;
    assert line[k] == sep;
    forall j | 0 <= j < k
      ensures line[..k][j] != sep
    {
      if j < |prefix| {
        assert line[..k][j] == prefix[j];
      } else {
        assert line[..k][j] == key[..|key| - 1][j - |prefix|];
      }
    }
    assert line[k + 1..] == value;
    SplitAt(line, sep, k);
  }

  /** The prefix of `s` before the first `c` (all of `s` when there is no `c`). */
  function TakeUntil(s: string, c: char): (r: string)
    ensures r <= s && c !in r
    ensures |r| < |s| ==> s[|r|] == c
  {
    if s == [] || s[0] == c then ""
    else [s[0]] + TakeUntil(s[1..], c)
  }

  /** Reading up to a delimiter recovers a delimiter-free field placed before it. */
  lemma {:induction false} TakeUntilField(field: string, c: char, rest: string)
    requires c !in field && rest != [] && rest[0] == c
    ensures TakeUntil(field + rest, c) == field
  {
    if field != [] {
      assert (field + rest)[1..] == field[1..] + rest;
      TakeUntilField(field[1..], c, rest);
    }
  }

  /** Reading back a text `open + a + mid + b + close` in which both fields end at the first `c`
      (`mid` and `close` start with `c`): the two fields, or None when the text has another shape. */
  function ReadTwoFields(line: string, open: string, mid: string, close: string, c: char): Option<(string, string)>
  {
    if !(open <= line) then None
    else
      var s1 := line[|open|..];
      var a := TakeUntil(s1, c);
      var s2 := s1[|a|..];
      if !(mid <= s2) then None
      else
        var s3 := s2[|mid|..];
        var b := TakeUntil(s3, c);
        if s3[|b|..] == close then Some((a, b)) else None
  }

  /** Fields free of `c` are read back exactly. */
  lemma ReadTwoFieldsRoundTrip(open: string, mid: string, close: string, a: string, b: string, c: char)
    requires c !in a && c !in b
    requires mid != [] && mid[0] == c && close != [] && close[0] == c
    ensures ReadTwoFields(open + (a + (mid + (b + close))), open, mid, close, c) == Some((a, b))
  {
    var tail2 := b + close;
    var tail1 := a + (mid + tail2);
    assert (open + tail1)[|open|..] == tail1;
    TakeUntilField(a, c, mid + tail2);
    assert tail1[|a|..] == mid + tail2;
    assert (mid + tail2)[|mid|..] == tail2;
    TakeUntilField(b, c, close);
    assert tail2[|b|..] == close;
  }
}
