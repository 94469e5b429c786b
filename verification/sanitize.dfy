/**
 The name sanitizer: the local file name of a sample is its display name cut
 at the first ASCII space. Strings are sequences of code points, as a Go
 `range` loop over a string visits them.
 */
module Sanitize {

  const Space: char := ' '

  /** `r` is what cutting `s` at its first space leaves: a prefix of `s`
      holding no space, that either is all of `s` or stops right at a space. */
  predicate IsCutAtFirstSpace(s: string, r: string) {
    && r <= s
    && Space !in r
    && (|r| == |s| || s[|r|] == Space)
  }

  /** The sanitized file name of a display name. */
  function CleanString(s: string): (r: string)
    ensures r <= s
    ensures Space !in r
    ensures |r| < |s| ==> s[|r|] == Space
  {
    if |s| == 0 || s[0] == Space then ""
    else [s[0]] + CleanString(s[1..])
  }

  /** The rune-by-rune loop of the source: copy runes into a builder and stop
      at the first space. */
  method CleanStringLoop(s: string) returns (b: string)
    ensures b == CleanString(s)
  {
    b := "";
    var i := 0;
    while i < |s|
      invariant 0 <= i <= |s|
      invariant b == s[..i]
      invariant Space !in b
    {
      if s[i] == Space {
        break;
      }
      b := b + [s[i]];
      i := i + 1;
    }
    CutAtFirstSpaceUnique(s, b);
  }

  /** Exactly one string is `s` cut at its first space, and it is
      `CleanString(s)`: the contract of `CleanString` holds in both directions. */
  lemma CutAtFirstSpaceUnique(s: string, r: string)
    ensures IsCutAtFirstSpace(s, r) <==> r == CleanString(s)
  {
  }

  /** A name without a space is kept whole; in particular "" stays "". */
  lemma CleanStringNoSpace(s: string)
    requires Space !in s
    ensures CleanString(s) == s
  {
  }

  /** When `s[i]` is the first space of `s`, the name is cut to `s[..i]`. */
  lemma CleanStringFirstSpace(s: string, i: nat)
    requires i < |s| && s[i] == Space
    requires forall j :: 0 <= j < i ==> s[j] != Space
    ensures CleanString(s) == s[..i]
  {
  }

  /** A space in `s` means the cut stops strictly inside `s`, at a space. */
  lemma CleanStringShortensIffSpace(s: string)
    ensures |CleanString(s)| < |s| <==> Space in s
  {
  }

  /** Sanitizing an already sanitized name changes nothing. */
  lemma CleanStringIdempotent(s: string)
    ensures CleanString(CleanString(s)) == CleanString(s)
  {
  }

  /** Text after a space never reaches the file name: once `s` holds a space,
      appending anything leaves the name as it was. Two samples whose names
      agree up to their first space therefore get the same file name. */
  lemma {:induction false} CleanStringIgnoresAfterSpace(s: string, t: string)
    requires Space in s
    ensures CleanString(s + t) == CleanString(s)
  {
    if s[0] != Space {
      assert (s + t)[1..] == s[1..] + t;
      assert Space in s[1..] by {
        var j :| 0 <= j < |s| && s[j] == Space;
        assert s[1..][j - 1] == Space;
      }
      CleanStringIgnoresAfterSpace(s[1..], t);
    }
  }

  /** A space-free head passes through whole, and the cut continues in `t`. */
  lemma {:induction false} CleanStringSpaceFreeHead(s: string, t: string)
    requires Space !in s
    ensures CleanString(s + t) == s + CleanString(t)
  {
    if |s| > 0 {
      assert s[0] in s;
      assert (s + t)[0] == s[0];
      assert (s + t)[1..] == s[1..] + t;
      assert forall c :: c in s[1..] ==> c in s;
      CleanStringSpaceFreeHead(s[1..], t);
      assert [s[0]] + (s[1..] + CleanString(t)) == s + CleanString(t);
    } else {
      assert s + t == t;
    }
  }
}
