/**
 The output directory flag and its trailing-slash normalisation, done once at
 start-up before the directory is created or any sample is written.
 */
module OutputDir {

  const Slash: char := '/'

  /** The default value of the `-outputdir` flag. */
  const DefaultDir: string := "./malware/"

  predicate EndsWithSlash(d: string) {
    |d| > 0 && d[|d| - 1] == Slash
  }

  /** Append one slash unless the directory already ends with one. The source
      reads the last byte unguarded, so an empty directory is outside its
      domain. A `/` byte can only be a whole `/` code point in UTF-8, so the
      last character decides the same way. */
  function NormaliseDir(d: string): (r: string)
    requires |d| > 0
    ensures EndsWithSlash(r)
    ensures r == d || r == d + [Slash]
    ensures r == d <==> EndsWithSlash(d)
  {
    if d[|d| - 1] != Slash then d + [Slash] else d
  }

  /** Normalising twice is normalising once. */
  lemma NormaliseDirIdempotent(d: string)
    requires |d| > 0
    ensures NormaliseDir(NormaliseDir(d)) == NormaliseDir(d)
  {
  }

  /** The normalised directory is the shortest extension of `d` that ends
      with a slash: nothing is appended that is not needed. */
  lemma NormaliseDirShortest(d: string, t: string)
    requires |d| > 0
    requires |d| <= |t| && t[..|d|] == d
    requires EndsWithSlash(t)
    ensures |NormaliseDir(d)| <= |t|
    ensures |NormaliseDir(d)| == |t| ==> NormaliseDir(d) == t
  {
  }

  /** The flag's default already ends with a slash and is used as given. */
  lemma DefaultDirUnchanged()
    ensures NormaliseDir(DefaultDir) == DefaultDir
  {
  }
}
