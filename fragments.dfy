/** URI fragments as the parser extracts them: `uri.split('#')[1]`, the text between
    the first `#` and the next `#` (or the end of the URI). */
module Fragments {
  import opened Wrappers

  const Hash: char := '#'

  /** The pieces of `s` between occurrences of `sep`, as Python's `str.split(sep)` gives them:
      always at least one piece, and no piece contains the separator. */
  function Split(s: string, sep: char): (parts: seq<string>)
    ensures |parts| >= 1
    ensures forall k :: 0 <= k < |parts| ==> sep !in parts[k]
    decreases |s|
  {
    if |s| == 0 then [""]
    else
      var rest := Split(s[1..], sep);
      if s[0] == sep then [""] + rest
      else [[s[0]] + rest[0]] + rest[1..]
  }

  /** Python's `sep.join(parts)`. */
  function Join(parts: seq<string>, sep: char): string
  {
    if |parts| == 0 then ""
    else if |parts| == 1 then parts[0]
    else parts[0] + [sep] + Join(parts[1..], sep)
  }

  /** Splitting loses nothing: joining the pieces back gives the original string. */
  lemma {:induction false} JoinSplit(s: string, sep: char)
    ensures Join(Split(s, sep), sep) == s
  {
    if |s| > 0 {
      var rest := Split(s[1..], sep);
      JoinSplit(s[1..], sep);
      if s[0] == sep {
        assert ([""] + rest)[1..] == rest;
      } else if |rest| > 1 {
        assert ([[s[0]] + rest[0]] + rest[1..])[1..] == rest[1..];
      }
      assert s == [s[0]] + s[1..];
    }
  }

  /** There is a second piece exactly when the separator occurs in the string. */
  lemma {:induction false} SplitHasSecondPiece(s: string, sep: char)
    ensures |Split(s, sep)| >= 2 <==> sep in s
  {
    if |s| > 0 {
      SplitHasSecondPiece(s[1..], sep);
      assert s == [s[0]] + s[1..];
    }
  }

  /** A string without the separator is a single piece. */
  lemma {:induction false} SplitWithoutSeparator(s: string, sep: char)
    requires sep !in s
    ensures Split(s, sep) == [s]
  {
    if |s| > 0 {
      SplitWithoutSeparator(s[1..], sep);
      assert s == [s[0]] + s[1..];
    }
  }

  /** The text before the first separator is the first piece; the rest is split on its own. */
  lemma {:induction false} SplitAtFirstSeparator(prefix: string, sep: char, rest: string)
    requires sep !in prefix
    ensures Split(prefix + [sep] + rest, sep) == [prefix] + Split(rest, sep)
  {
    var s := prefix + [sep] + rest;
    if |prefix| > 0 {
      SplitAtFirstSeparator(prefix[1..], sep, rest);
      assert s[1..] == prefix[1..] + [sep] + rest;
      assert prefix == [prefix[0]] + prefix[1..];
    } else {
      assert s[1..] == rest;
    }
  }

  /** `uri.split('#')[1]`, or None where Python raises IndexError (no `#` in `uri`). */
  function Fragment(uri: string): (r: Option<string>)
    ensures r.Some? <==> Hash in uri
    ensures r.Some? ==> Hash !in r.value
  {
    SplitHasSecondPiece(uri, Hash);
    var parts := Split(uri, Hash);
    if |parts| >= 2 then Some(parts[1]) else None
  }

  /** Every URI with a `#` reads `prefix#fragment` or `prefix#fragment#rest` with no `#` in
      `prefix` or `fragment`; for both shapes Fragment gives back exactly `fragment`. */
  lemma FragmentOf(prefix: string, fragment: string, rest: string)
    requires Hash !in prefix && Hash !in fragment
    ensures Fragment(prefix + [Hash] + fragment) == Some(fragment)
    ensures Fragment(prefix + [Hash] + fragment + [Hash] + rest) == Some(fragment)
  {
    SplitAtFirstSeparator(prefix, Hash, fragment);
    SplitWithoutSeparator(fragment, Hash);
    SplitAtFirstSeparator(prefix, Hash, fragment + [Hash] + rest);
    SplitAtFirstSeparator(fragment, Hash, rest);
    assert prefix + [Hash] + fragment + [Hash] + rest == prefix + [Hash] + (fragment + [Hash] + rest);
  }
}
