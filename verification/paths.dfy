/**
 Where a downloaded sample is written: the normalised output directory, a
 separating slash, then the sanitized sample name.
 */
module Paths {
  import opened Sanitize
  import opened OutputDir
  import opened Manifest

  /** The path handed to file creation for one sample. The directory has
      already been normalised to end in a slash, and a second slash is still
      inserted, so the path always holds "//" at the seam. */
  function SamplePath(dir: string, sample: Malware): (p: string)
    requires |dir| > 0
    ensures |p| == |NormaliseDir(dir)| + 1 + |CleanString(sample.name)|
    ensures NormaliseDir(dir) <= p
    ensures p[|NormaliseDir(dir)|] == Slash
    ensures p[|NormaliseDir(dir)| + 1..] == CleanString(sample.name)
    ensures p[|NormaliseDir(dir)| - 1..|NormaliseDir(dir)| + 1] == [Slash, Slash]
  {
    NormaliseDir(dir) + [Slash] + CleanString(sample.name)
  }

  /** The last path component: everything after the last slash. */
  function LastSegment(p: string): (r: string)
    ensures |r| <= |p| && r == p[|p| - |r|..]
    ensures Slash !in r
    ensures |r| < |p| ==> p[|p| - |r| - 1] == Slash
  {
    if |p| == 0 || p[|p| - 1] == Slash then ""
    else LastSegment(p[..|p| - 1]) + [p[|p| - 1]]
  }

  /** Splitting off the last component undoes the join when the name holds
      no slash. */
  lemma {:induction false} LastSegmentOfJoin(a: string, b: string)
    requires Slash !in b
    ensures LastSegment(a + [Slash] + b) == b
  {
    var p := a + [Slash] + b;
    if |b| > 0 {
      assert b[|b| - 1] in b;
      var b' := b[..|b| - 1];
      assert forall c :: c in b' ==> c in b;
      assert p[..|p| - 1] == a + [Slash] + b';
      LastSegmentOfJoin(a, b');
      assert b' + [b[|b| - 1]] == b;
    }
  }

  /** When the name holds a slash, the join contributes nothing to the last
      component: it is the text after the name's own last slash. */
  lemma {:induction false} LastSegmentOfJoinWithSlash(a: string, b: string)
    requires Slash in b
    ensures LastSegment(a + [Slash] + b) == LastSegment(b)
  {
    var p := a + [Slash] + b;
    if b[|b| - 1] != Slash {
      var b' := b[..|b| - 1];
      assert Slash in b' by {
        var j :| 0 <= j < |b| && b[j] == Slash;
        assert b'[j] == Slash;
      }
      assert p[..|p| - 1] == a + [Slash] + b';
      LastSegmentOfJoinWithSlash(a, b');
    }
  }

  /** A sanitized name without a slash is exactly the last component of the
      path. A sanitized name with a slash leaves only the text after its own
      last slash as that component; where such a path points is up to the
      filesystem (a leading `..` segment, as in `../evil`, can leave the
      output directory). */
  lemma SampleFileName(dir: string, sample: Malware)
    requires |dir| > 0
    ensures Slash !in CleanString(sample.name) <==>
              LastSegment(SamplePath(dir, sample)) == CleanString(sample.name)
    ensures Slash in CleanString(sample.name) ==>
              LastSegment(SamplePath(dir, sample)) == LastSegment(CleanString(sample.name))
  {
    var c := CleanString(sample.name);
    if Slash in c {
      LastSegmentOfJoinWithSlash(NormaliseDir(dir), c);
    }
  }

  /** Two samples get the same path string exactly when their names agree up
      to the first space. Equal strings name the same file; different strings
      may still do so on the filesystem (`x` and `./x`), which is not modelled. */
  lemma SamplePathCollision(dir: string, a: Malware, b: Malware)
    requires |dir| > 0
    ensures SamplePath(dir, a) == SamplePath(dir, b) <==>
              CleanString(a.name) == CleanString(b.name)
  {
  }

  /** A display name `n + " " + rest` gets the same path string as `n` alone
      when `n` has no space. */
  lemma SamplePathDropsQualifier(dir: string, sample: Malware, rest: string)
    requires |dir| > 0
    requires Space !in sample.name
    ensures SamplePath(dir, sample.(name := sample.name + [Space] + rest)) ==
            NormaliseDir(dir) + [Slash] + sample.name
  {
    CleanStringSpaceFreeHead(sample.name, [Space] + rest);
    assert sample.name + [Space] + rest == sample.name + ([Space] + rest);
    CleanStringNoSpace(sample.name);
  }

  /** Whatever the display name, appending a space and more text to it leaves
      the path string unchanged: samples whose names differ only after a space
      collide. */
  lemma SamplePathIgnoresQualifier(dir: string, sample: Malware, rest: string)
    requires |dir| > 0
    ensures SamplePath(dir, sample.(name := sample.name + [Space] + rest)) ==
            SamplePath(dir, sample)
  {
    var n := sample.name;
    assert n + [Space] + rest == n + ([Space] + rest);
    if Space in n {
      CleanStringIgnoresAfterSpace(n, [Space] + rest);
    } else {
      CleanStringSpaceFreeHead(n, [Space] + rest);
      CleanStringNoSpace(n);
    }
  }
}
