# ObjSeeDownloader — a Dafny model of its name and path logic

ObjSeeDownloader fetches Objective-See's JSON manifest of malware samples and
downloads each sample into a local directory. The only logic it has of its own
is deciding where each sample lands on disk:

- **name sanitizing** (`cleanString`): the file name of a sample is its
  display name cut at the first ASCII space, or the whole name when it has no
  space;
- **output-directory normalisation**: the `-outputdir` flag (default
  `./malware/`) gets one `/` appended unless it already ends with one;
- **path building**: the file is created at the normalised directory, then
  `/`, then the sanitized name.

The model has four modules:

- `Sanitize` (`sanitize.dfy`): `CleanString` as a recursive function, the
  source's rune loop with `break` as `CleanStringLoop`, an independent
  characterisation `IsCutAtFirstSpace`, and the lemmas about them.
- `OutputDir` (`output_dir.dfy`): `NormaliseDir` and its lemmas.
- `Manifest` (`manifest.dfy`): the `malware` and `samples` records, used only
  to carry a sample's name. The JSON `type` field is a pointer in Go; here it
  is an `Option`.
- `Paths` (`paths.dfy`): `SamplePath`, plus `LastSegment`. `LastSegment`
  recovers the file name from a path, so it serves as the inverse of the join.

Strings are `seq<char>` and are treated as sequences of code points, which is
what Go's `range` over a string visits. The directory check in the source reads
the last *byte* of the string. For valid UTF-8 that byte is `/` exactly when the
last code point is `/`, so the model reads the last character instead.

## Model

| member | source | states |
|---|---|---|
| Sanitize.CleanString | main.go:115-124 | The file name is a prefix of the display name and contains no space. If it is shorter than the name, the name has a space right where the file name stops. |
| Sanitize.CleanStringLoop | main.go:115-124 | The builder loop, which copies runes and breaks at the first space, returns exactly the cut-at-first-space name. |
| Sanitize.CutAtFirstSpaceUnique | main.go:117-123 | A string is the name cut at its first space if and only if it equals `CleanString` of the name. So the contract of `CleanString` determines its result completely. |
| Sanitize.CleanStringNoSpace | main.go:117-123 | A name with no space is kept whole, including the empty name. |
| Sanitize.CleanStringFirstSpace | main.go:118-119 | If index `i` holds the first space of the name, the file name is the name's first `i` characters. |
| Sanitize.CleanStringShortensIffSpace | main.go:117-121 | The file name is strictly shorter than the display name exactly when the display name contains a space. |
| Sanitize.CleanStringIdempotent | main.go:115-124 | Sanitizing an already sanitized name leaves it unchanged. |
| Sanitize.CleanStringIgnoresAfterSpace | main.go:117-121 | Once the name holds a space, text appended to it never reaches the file name. |
| Sanitize.CleanStringSpaceFreeHead | main.go:117-123 | A space-free head of the name passes through whole, and the cut then continues into the rest. |
| OutputDir.NormaliseDir | main.go:45-47 | The result ends with `/`. It is the directory itself or the directory plus one `/`, and it is the directory itself exactly when the directory already ended with `/`. |
| OutputDir.NormaliseDirIdempotent | main.go:45-47 | Normalising twice gives the same result as normalising once. |
| OutputDir.NormaliseDirShortest | main.go:45-47 | Among all extensions of the directory that end with `/`, the normalised directory is the shortest, and it is the only one of that length. |
| OutputDir.DefaultDirUnchanged | main.go:36-47 | The default `./malware/` is used as given. |
| Paths.SamplePath | main.go:84-88 | The path is the normalised directory, then one `/`, then the sanitized name, so it always contains `//` at the join. |
| Paths.LastSegmentOfJoin | main.go:88 | Taking the component after the last `/` of `dir + "/" + name` gives back `name` when `name` has no `/`. |
| Paths.LastSegmentOfJoinWithSlash | main.go:88 | If `name` contains a `/`, the component after the last `/` of `dir + "/" + name` is the text after the last `/` of `name`, and the directory contributes nothing. |
| Paths.SampleFileName | main.go:84-88 | The sanitized name is the path's last component if and only if the sanitized name has no `/`. If it has one, the last component is only the text after the name's last `/`. Where such a path points depends on the filesystem: a leading `..` segment, as in `../evil`, can leave the output directory. |
| Paths.SamplePathCollision | main.go:84-88 | Two samples get the same path string exactly when their sanitized names are equal. Only the "if" direction carries over to files: different strings such as `x` and `./x` can still name one file on disk. |
| Paths.SamplePathIgnoresQualifier | main.go:84-88 | For every display name, appending a space and any text leaves the path string unchanged, so samples whose names differ only after a space collide. |
| Paths.SamplePathDropsQualifier | main.go:84-88 | A sample named `n + " " + rest`, where `n` has no space, gets the same path string as a sample named `n`. |

## Left out

- Fetching the manifest and each sample over HTTP (main.go:66-82, 104-113): network I/O, timeouts and the user-agent header cannot be modelled without the network.
- Creating the directory and the files and copying the bytes (main.go:49-54, 88-99): these are filesystem side effects, and their error returns come from the OS. The model states which path a sample is written to, but not whether the write succeeds.
- The per-sample loop (main.go:70-100): it walks the manifest in order and skips a sample with `continue` when building the request, fetching it or creating the file fails. It also prints the sanitized name and the error messages (main.go:80, 86, 90, 96). The model states which path each sample targets, but not which samples are actually written. So it does not model which write overwrites which when two samples share a path.
- `unmarshalSamples` (main.go:15-19): it only wraps the Go JSON library. Only the record shapes are kept.
- Flag parsing and the `panic` calls on fatal errors (main.go:41-43, 52, 58, 63): these are process-level control.
- OutputDir.NormaliseDir: requires a non-empty directory. The source indexes the last byte without checking, so `-outputdir ""` makes it panic, and that panic is not modelled.
- Go replaces bytes that are not valid UTF-8 with U+FFFD when it ranges over a string (main.go:117). The model takes strings that are already sequences of code points.
