# torrentfile: a verified model of the `.torrent` metainfo codec

This project models `torrentfile.go` from the Go package `torrentfile`. The package converts a `TorrentFile` record into the bencode value tree of a `.torrent` metainfo document (BEP 3, "metainfo files"), and converts such a tree back into a record. It also computes the info-hash, sums the file sizes, packs the 20-byte SHA-1 piece digests into one blob and back, and converts file paths between a slash-separated string and a list of segments.

The model stops at the generic value tree: `BValue = BInt | BStr | BList | BDict`. The byte-level bencode library and SHA-1 are foreign code. Go strings are byte strings, so every string field is a `seq<byte>`. Dictionary keys are Dafny strings.

Files:
- `bencode.dfy`: `Wrappers` (the `Result` type and the two error kinds), and `Bencode` (the value tree, the int64/uint64 ranges, and checked accessors). Each accessor stands for one Go type assertion. Where the assertion would panic, the accessor returns `ShapeError(key)`.
- `pieces.dfy`: `PieceHashes`, the piece-digest chunker (`decodePieces` and Encode's `pieces` loop).
- `paths.dfy`: `Paths`, the path codec (`flattenPath`, `partitionPath`, and the `strings.Count`/`Split`/`TrimRight` behaviour they rely on).
- `metainfo.dfy`: `Metainfo`, the records, `TotalSize`, `Encode`, `DecodeTorrentFile`, `decodeFiles` and `InfoHash`. Each loop or step-by-step construction in torrentfile.go is a method, proved equal to a specification function.
- `properties.dfy`: `MetainfoProperties`, the lemmas about key presence, file layout, decode failures and defaults, the info-hash, and the round trip.
- `findings.dfy`: `AnnounceListFinding`, the announce-list decode as written and as evidently intended.

In these places the model does what torrentfile.go does, not what a reader of BEP 3 would expect:
- BEP 3 makes the `pieces` string a multiple of 20 bytes long. A blob of another length is not rejected here. Its partial tail is dropped (`ConcatOfChunks`).
- `InfoHash` does not fail for a record built field by field. It hashes whatever `info` the record carries. Such a record carries an empty map, which stands for Go's nil map.
- The round trip does not give back every path. Trailing `/` are trimmed (`RoundTrip`).
- The announce list is not read back (see Findings).
- The announce list is a flat list of strings in both directions, not BEP 12's list of tiers.

## Model

| member | source | states |
|---|---|---|
| Bencode.AsUint64 | torrentfile.go:143 | `uint64(x)` of an int64 has the same bits modulo 2^64, and equals x when x is non-negative |
| Bencode.Strings | torrentfile.go:185-187 | asserting `.(string)` on each list element succeeds iff every element is a string; the result keeps count and order; otherwise the error names the key |
| Bencode.StringsOfStrList | torrentfile.go:206-211 | reading a list of strings back gives the original strings |
| PieceHashes.Concat | torrentfile.go:96-100 | the `pieces` blob is 20 bytes per digest |
| PieceHashes.JoinPieces | torrentfile.go:96-100 | Encode's loop appends the digests in order, giving exactly `Concat(Pieces)` |
| PieceHashes.DecodePieces | torrentfile.go:225-239 | an n-byte string gives ⌊n/20⌋ digests; digest k is bytes [20k, 20k+20); a partial tail is dropped |
| PieceHashes.ConcatAt | torrentfile.go:96-100 | digest k occupies bytes [20k, 20k+20) of the joined blob |
| PieceHashes.ChunksOfConcat | torrentfile.go:225-239 | decodePieces of the blob Encode builds gives back the original digests |
| PieceHashes.ConcatOfChunks | torrentfile.go:225-239 | joining the decoded digests gives back the blob without its partial tail |
| Paths.Count | torrentfile.go:217 | `strings.Count(p, "/")` is zero exactly when p holds no `/` |
| Paths.CountOccurrences | torrentfile.go:217 | `strings.Count(p, "/")` is the number of occurrences of `/` in p |
| Paths.Split | torrentfile.go:216-218 | `strings.Split(p, "/")` gives `strings.Count(p, "/") + 1` segments, none containing `/` |
| Paths.TrimRight | torrentfile.go:213 | `strings.TrimRight(s, "/")` is the prefix of s that does not end in `/`; everything after it is `/` |
| Paths.FlattenPath | torrentfile.go:206-214 | succeeds iff every element is a string; then it gives the segments, each followed by `/`, with trailing `/` trimmed |
| Paths.PartitionPath | torrentfile.go:216-223 | a slice of `Count + 1` entries holding the Split segments by index, none containing `/` |
| Paths.FlattenPartition | torrentfile.go:206-223 | flattenPath(partitionPath(p)) is p with its trailing `/` trimmed |
| Paths.FlattenPartitionIdentity | torrentfile.go:206-223 | flattenPath(partitionPath(p)) == p when p does not end in `/` |
| Paths.PartitionFlatten | torrentfile.go:206-223 | partitionPath(flattenPath(l)) == l when no segment holds `/` and the last segment is not empty |
| Metainfo.TotalSize | torrentfile.go:57-65 | the accumulated size is the sum of all `Length`s modulo 2^64, and exactly the sum when that is below 2^64 |
| Metainfo.SingleFile | torrentfile.go:109-116 | single-file mode holds exactly when there is one file and its path contains no `/` |
| Metainfo.EncodeFiles | torrentfile.go:117-126 | the `files` slice filled by index is one {length, path: partitionPath(Path)} entry per file, in order |
| Metainfo.Encode | torrentfile.go:72-131 | the two dictionaries filled step by step are exactly `EncodeDict(t)`, the tree handed to the serialiser |
| Metainfo.DecodeFileList | torrentfile.go:195-204 | decodeFiles succeeds iff every entry decodes; the files keep the entries' count and order |
| Metainfo.DecodeFiles | torrentfile.go:195-204 | the loop over `info.files` returns `DecodeFileList`, and on failure the first bad entry's error |
| Metainfo.SetOptionals | torrentfile.go:148-167 | each optional entry present is type-checked and overrides its field; an absent creation date sets the epoch |
| Metainfo.DecodeAnnounceList | torrentfile.go:181-190 | without a top-level `announce-list` the list is empty; with one, it succeeds iff `info` holds a list of strings under that key, and then gives \|l\| empty strings followed by the strings in order; every failure names `announce-list` |
| Metainfo.ReadAnnounceList | torrentfile.go:181-190 | the announce-list block gives the as-written `DecodeAnnounceList` result |
| Metainfo.DecodeTorrentFile | torrentfile.go:133-193 | the field-by-field decode equals `Decode(parsed)`; a parse error passes through unchanged |
| MetainfoProperties.EncodeKeys | torrentfile.go:76-92 | `announce` and `info` are always present; `announce-list` only if non-empty; `creation date` only if > 0; `created by`, `comment` and `encoding` only if non-empty; no other top-level keys |
| MetainfoProperties.EncodeInfoKeys | torrentfile.go:94-106 | `piece length` and `pieces` are always present; `private` = 1 exactly when Private; info holds no `announce-list` |
| MetainfoProperties.EncodedPieces | torrentfile.go:96-100 | the `pieces` entry is 20·\|Pieces\| bytes, digest k at [20k, 20k+20), and decodePieces gives the digests back |
| MetainfoProperties.EncodeFileLayout | torrentfile.go:108-126 | single-file mode sets `name` to the path and sets `length`, with no `files`; otherwise `files` lists every file in order as {length, path: partitionPath(Path)} and `name` is set iff Name is non-empty |
| MetainfoProperties.DecodeParseError | torrentfile.go:133-137 | an error from the byte-level decoder is returned unchanged |
| MetainfoProperties.DecodeRequiredEntries | torrentfile.go:139-178 | no record when `info`, `announce`, `piece length` or `pieces` is absent or mis-typed, or when both `files` and `length` are absent |
| MetainfoProperties.DecodedFields | torrentfile.go:139-190 | in a decoded record each field comes from its entry, absent optionals give "", false and epoch 0, the file set follows `files` or `length`/`name`, and the decoded `info` is kept unchanged |
| MetainfoProperties.DecodedFileEntry | torrentfile.go:198-200 | a decoded `files` entry is a dictionary with an int64 `length` and a list-of-strings `path`; Path is flattenPath of it |
| Metainfo.InfoHash | torrentfile.go:67-70 | a record that carries the info dictionary its own Encode writes hashes the serialised `info` entry of that encoding |
| MetainfoProperties.InfoHashOfDecoded | torrentfile.go:67-70 | a decoded record's info-hash is SHA-1 of the serialised `info` entry it was decoded from |
| MetainfoProperties.InfoHashIgnoresTopLevel | torrentfile.go:67-70 | two documents with equal `info` entries decode to equal info-hashes, whatever else differs |
| MetainfoProperties.FileEntryRoundTrip | torrentfile.go:119-123 | one encoded file entry decodes to the same length and the path with trailing `/` trimmed |
| MetainfoProperties.FileEntriesRoundTrip | torrentfile.go:117-126 | the encoded `files` list decodes to the same files, in order, with trimmed paths |
| MetainfoProperties.HeaderRoundTrip | torrentfile.go:139-146 | the required entries of Encode's tree decode to AnnounceUrl, PieceLength, Pieces and the info dictionary |
| MetainfoProperties.OptionalsRoundTrip | torrentfile.go:148-167 | the optional entries of Encode's tree decode to the record's values; Name becomes the sole file's path in single-file mode |
| MetainfoProperties.FileSetRoundTrip | torrentfile.go:169-179 | the file set of Encode's tree decodes to the files with trimmed paths, in both modes |
| MetainfoProperties.RoundTrip | torrentfile.go:72-192 | decoding Encode's tree gives back the record (Name adjusted in single-file mode, trimmed paths, non-positive date read as 0, info kept) when the announce list is empty, and fails on `announce-list` otherwise |
| MetainfoProperties.RoundTripKeepsFields | torrentfile.go:72-192 | AnnounceUrl, PieceLength, Pieces, Files, Private, Comment, CreatedBy, Encoding and a positive CreationDate survive the round trip |
| AnnounceListFinding.AnnounceListAsWritten | torrentfile.go:181-190 | as written, any record with a non-empty announce list fails to decode from its own encoding |
| AnnounceListFinding.AnnounceListBlankPrefix | torrentfile.go:183-186 | as written, a one-tracker list is decoded with an empty string in front of the tracker |
| AnnounceListFinding.DecodeAnnounceListIntended | torrentfile.go:181-190 | reading the top-level list succeeds iff it is a list of strings, and gives those strings in order; an absent list gives none |
| AnnounceListFinding.RoundTripIntended | torrentfile.go:72-192 | with the intended announce-list reading, decoding Encode's tree also gives back AnnounceList |

## Left out

- The byte-level bencode codec is left out: `bencode.Encode` at the end of `Encode` (torrentfile.go:130), `bencode.Decode` (torrentfile.go:134), and `EncodeTorrentFile` (torrentfile.go:241-243), which only delegates to `Encode`. `Encode` returns the tree it would serialise. `DecodeTorrentFile` takes the parser's outcome as a parameter: a top-level dictionary or a parse error.
- The serialiser and SHA-1 that `InfoHash` calls are foreign code. They are parameters of `InfoHash`.
- `io.Reader` is left out, and so is `time.Time`. The creation date is an int64 of Unix seconds. Go's zero `time.Time`, whose `Unix()` is negative, is not modelled.
- Go's run-time types inside the tree are not modelled. Encode stores `uint64`, `int64` and `int`, and decode asserts `int64`. In the tree all of them are `BInt`. An integer outside the int64 range fails the `.(int64)` assertion, because the byte-level decoder only yields int64 values.
- A Go panic from a failed type assertion becomes `Err(ShapeError(key))`. The model assumes the struct literal at torrentfile.go:141-146 evaluates its fields left to right; that order decides which key is reported.
- Entries whose value is `nil` are not modelled: the bencode decoder never produces them.
- RoundTrip: requires `PieceLength` and every `Length` to be below 2^63 (`FitsInt64`) rather than modelling unsigned-to-signed reinterpretation through the byte codec.
- The helper methods `EncodeFiles`, `SetOptionals` and `ReadAnnounceList` are blocks of `Encode` and `DecodeTorrentFile`, split out so each proof stays small. The callers run them at the same point, in the same order, as torrentfile.go.

## Findings

| source | as written | input that shows it | evidently intended | confidence | as-written member | corrected member |
|---|---|---|---|---|---|---|
| torrentfile.go:181-182 | tests `dict["announce-list"]`, then asserts `info["announce-list"].([]interface{})` | the encoding of any record with a non-empty AnnounceList: `info` has no `announce-list`, so the assertion on nil panics | read the list from `dict["announce-list"]` | not executed; high | AnnounceListFinding.AnnounceListAsWritten | AnnounceListFinding.RoundTripIntended |
| torrentfile.go:183-186 | `al := make([]string, len(l))`, then `append` for each tracker | a document holding `announce-list: ["t"]` at the top level and in `info` decodes to `["", "t"]` | start from an empty slice of capacity `len(l)` | not executed; high | AnnounceListFinding.AnnounceListBlankPrefix | AnnounceListFinding.DecodeAnnounceListIntended |

The main decoder (`DecodeDict`, `DecodeTorrentFile`) keeps the as-written behaviour, so that the model does what the code does. `DecodeDictIntended` is the same decoder with the intended announce-list reading. `RoundTripIntended` proves its round trip, announce list included.
