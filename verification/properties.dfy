/**
  What the codec promises: which entries Encode writes, how the files are laid
  out, when decoding produces no record and what it fills in otherwise, what
  the info-hash depends on, and what survives an encode followed by a decode.
 */
module MetainfoProperties {
  import opened Wrappers
  import opened Bencode
  import opened PieceHashes
  import opened Paths
  import opened Metainfo

  // ---------------------------------------------------------------------------
  // Encode

  /** Top-level entries: which are present, and what each holds. */
  lemma EncodeKeys(t: TorrentFile)
    ensures "announce" in EncodeDict(t) && EncodeDict(t)["announce"] == BStr(t.AnnounceUrl)
    ensures "announce-list" in EncodeDict(t) <==> |t.AnnounceList| > 0
    ensures |t.AnnounceList| > 0 ==> EncodeDict(t)["announce-list"] == BList(StrList(t.AnnounceList))
    ensures "creation date" in EncodeDict(t) <==> t.CreationDate > 0
    ensures t.CreationDate > 0 ==> EncodeDict(t)["creation date"] == BInt(t.CreationDate)
    ensures "created by" in EncodeDict(t) <==> t.CreatedBy != []
    ensures t.CreatedBy != [] ==> EncodeDict(t)["created by"] == BStr(t.CreatedBy)
    ensures "comment" in EncodeDict(t) <==> t.Comment != []
    ensures t.Comment != [] ==> EncodeDict(t)["comment"] == BStr(t.Comment)
    ensures "encoding" in EncodeDict(t) <==> t.Encoding != []
    ensures t.Encoding != [] ==> EncodeDict(t)["encoding"] == BStr(t.Encoding)
    ensures "info" in EncodeDict(t) && EncodeDict(t)["info"] == BDict(InfoDict(t))
    ensures EncodeDict(t).Keys <=
      {"announce", "announce-list", "creation date", "created by", "comment", "encoding", "info"}
  {
  }

  /** Info entries that do not depend on the file layout. */
  lemma EncodeInfoKeys(t: TorrentFile)
    ensures "piece length" in InfoDict(t) && InfoDict(t)["piece length"] == BInt(t.PieceLength)
    ensures "pieces" in InfoDict(t) && InfoDict(t)["pieces"] == BStr(Concat(t.Pieces))
    ensures "private" in InfoDict(t) <==> t.Private
    ensures t.Private ==> InfoDict(t)["private"] == BInt(1)
    ensures "announce-list" !in InfoDict(t)
    ensures InfoDict(t).Keys <= {"piece length", "pieces", "private", "name", "length", "files"}
  {
  }

  /** The pieces blob is the digests in order, 20 bytes each, and decodes back to them. */
  lemma EncodedPieces(t: TorrentFile)
    ensures InfoDict(t)["pieces"].BStr?
    ensures |InfoDict(t)["pieces"].s| == PIECE_SIZE * |t.Pieces|
    ensures forall k :: 0 <= k < |t.Pieces| ==>
      InfoDict(t)["pieces"].s[PIECE_SIZE * k .. PIECE_SIZE * k + PIECE_SIZE] == t.Pieces[k]
    ensures Chunks(InfoDict(t)["pieces"].s) == t.Pieces
  {
    forall k | 0 <= k < |t.Pieces|
      ensures Concat(t.Pieces)[PIECE_SIZE * k .. PIECE_SIZE * k + PIECE_SIZE] == t.Pieces[k]
    {
      ConcatAt(t.Pieces, k);
    }
    ChunksOfConcat(t.Pieces);
  }

  /**
    Single-file mode writes `name` (the file's path, overriding Name) and
    `length` and no `files`; otherwise `files` lists every file in order as
    {length, path split at '/'}, and `name` is present exactly when Name is set.
   */
  lemma EncodeFileLayout(t: TorrentFile)
    ensures SingleFile(t) ==>
      && "name" in InfoDict(t) && InfoDict(t)["name"] == BStr(t.Files[0].Path)
      && "length" in InfoDict(t) && InfoDict(t)["length"] == BInt(t.Files[0].Length)
      && "files" !in InfoDict(t)
    ensures !SingleFile(t) ==>
      && "files" in InfoDict(t) && InfoDict(t)["files"].BList?
      && |InfoDict(t)["files"].items| == |t.Files|
      && (forall k :: 0 <= k < |t.Files| ==>
            InfoDict(t)["files"].items[k] ==
              BDict(map["length" := BInt(t.Files[k].Length), "path" := BList(StrList(Split(t.Files[k].Path)))]))
      && "length" !in InfoDict(t)
      && ("name" in InfoDict(t) <==> t.Name != [])
      && (t.Name != [] ==> InfoDict(t)["name"] == BStr(t.Name))
  {
  }

  // ---------------------------------------------------------------------------
  // Decode

  /** A parse error is passed on unchanged. */
  lemma DecodeParseError(e: DecodeError)
    ensures Decode(Err(e)) == Err(e)
  {
  }

  /** No record without `info`, `announce`, `piece length`, `pieces`, or, in single-file mode, `length`. */
  lemma DecodeRequiredEntries(dict: map<string, BValue>)
    ensures ("info" !in dict || !dict["info"].BDict?) ==> DecodeDict(dict) == Err(ShapeError("info"))
    ensures ("announce" !in dict || !dict["announce"].BStr?) ==> DecodeDict(dict).Err?
    ensures "info" in dict && dict["info"].BDict? ==>
      var info := dict["info"].entries;
      && (("piece length" !in info || AsInt(info["piece length"], "piece length").Err?) ==> DecodeDict(dict).Err?)
      && (("pieces" !in info || !info["pieces"].BStr?) ==> DecodeDict(dict).Err?)
      && (("files" !in info && "length" !in info) ==> DecodeDict(dict).Err?)
  {
  }

  /** A decoded record: each field is read from its entry, or takes its zero value when the entry is absent. */
  lemma DecodedFields(dict: map<string, BValue>, t: TorrentFile)
    requires DecodeDict(dict) == Ok(t)
    ensures "info" in dict && dict["info"] == BDict(t.info)
    ensures "announce" in dict && dict["announce"] == BStr(t.AnnounceUrl)
    ensures "piece length" in t.info && AsInt(t.info["piece length"], "piece length").Ok?
    ensures t.PieceLength == AsUint64(t.info["piece length"].i)
    ensures "pieces" in t.info && t.info["pieces"].BStr? && t.Pieces == Chunks(t.info["pieces"].s)
    ensures "name" in t.info ==> t.info["name"] == BStr(t.Name)
    ensures "name" !in t.info ==> t.Name == []
    ensures t.Private <==> "private" in t.info && t.info["private"] == BInt(1)
    ensures "comment" in dict ==> dict["comment"] == BStr(t.Comment)
    ensures "comment" !in dict ==> t.Comment == []
    ensures "created by" in dict ==> dict["created by"] == BStr(t.CreatedBy)
    ensures "created by" !in dict ==> t.CreatedBy == []
    ensures "creation date" in dict ==> dict["creation date"] == BInt(t.CreationDate)
    ensures "creation date" !in dict ==> t.CreationDate == 0
    ensures "encoding" in dict ==> dict["encoding"] == BStr(t.Encoding)
    ensures "encoding" !in dict ==> t.Encoding == []
    ensures "files" in t.info ==>
      t.info["files"].BList? && DecodeFileList(t.info["files"].items) == Ok(t.Files)
    ensures "files" !in t.info ==>
      "length" in t.info && AsInt(t.info["length"], "length").Ok? &&
      t.Files == [File(AsUint64(t.info["length"].i), t.Name)]
    ensures "announce-list" !in dict ==> t.AnnounceList == []
  {
    var header := DecodeHeader(dict).value;
    var opt := DecodeOptionals(dict, header).value;
    assert t.info == header.info == opt.info;
  }

  /** A decoded `info.files` entry: a dictionary with an int64 `length` and a list of string segments as `path`. */
  lemma DecodedFileEntry(v: BValue, f: File)
    requires DecodeFileEntry(v) == Ok(f)
    ensures v.BDict? && "length" in v.entries && "path" in v.entries
    ensures AsInt(v.entries["length"], "length").Ok? && f.Length == AsUint64(v.entries["length"].i)
    ensures v.entries["path"].BList? && Strings(v.entries["path"].items, "path").Ok?
    ensures f.Path == Flatten(Strings(v.entries["path"].items, "path").value)
  {
  }

  // ---------------------------------------------------------------------------
  // InfoHash

  /** A decoded record hashes exactly the `info` entry it was decoded from. */
  lemma InfoHashOfDecoded(dict: map<string, BValue>, t: TorrentFile,
                          serialize: BValue -> Bytes, sha1: Bytes -> Piece)
    requires DecodeDict(dict) == Ok(t)
    ensures "info" in dict && InfoHash(t, serialize, sha1) == sha1(serialize(dict["info"]))
  {
    DecodedFields(dict, t);
  }

  /**
    Two documents whose `info` entries agree decode to records with the same
    info-hash, whatever else differs (comment, trackers, dates).
   */
  lemma InfoHashIgnoresTopLevel(d1: map<string, BValue>, d2: map<string, BValue>,
                                serialize: BValue -> Bytes, sha1: Bytes -> Piece)
    requires DecodeDict(d1).Ok? && DecodeDict(d2).Ok?
    requires "info" in d1 && "info" in d2 && d1["info"] == d2["info"]
    ensures InfoHash(DecodeDict(d1).value, serialize, sha1) == InfoHash(DecodeDict(d2).value, serialize, sha1)
  {
    InfoHashOfDecoded(d1, DecodeDict(d1).value, serialize, sha1);
    InfoHashOfDecoded(d2, DecodeDict(d2).value, serialize, sha1);
  }

  // ---------------------------------------------------------------------------
  // Round trip

  /** The integers the record holds fit the int64 that the byte-level decoder yields. */
  predicate FitsInt64(t: TorrentFile) {
    t.PieceLength < TWO_63 && forall k :: 0 <= k < |t.Files| ==> t.Files[k].Length < TWO_63
  }

  /** Files with their paths stripped of trailing separators. */
  function Trimmed(files: seq<File>): seq<File> {
    seq(|files|, k requires 0 <= k < |files| => File(files[k].Length, TrimRight(files[k].Path)))
  }

  /** The record a decode of Encode's tree gives back, announce list aside. */
  function RoundTripped(t: TorrentFile): TorrentFile {
    t.(Name := if SingleFile(t) then t.Files[0].Path else t.Name,
       Files := Trimmed(t.Files),
       CreationDate := if t.CreationDate > 0 then t.CreationDate else 0,
       info := InfoDict(t))
  }

  lemma {:induction false} NoSeparator(p: Bytes)
    requires Count(p) == 0
    ensures SLASH !in p
  {
    if p != [] {
      NoSeparator(p[1..]);
      assert p == [p[0]] + p[1..];
    }
  }

  /** One encoded file entry decodes to the file with its trailing separators trimmed. */
  lemma FileEntryRoundTrip(f: File)
    requires f.Length < TWO_63
    ensures DecodeFileEntry(FileEntry(f)) == Ok(File(f.Length, TrimRight(f.Path)))
  {
    StringsOfStrList(Split(f.Path), "path");
    FlattenPartition(f.Path);
  }

  /** The encoded `files` list decodes to the same files, in order, paths trimmed. */
  lemma FileEntriesRoundTrip(files: seq<File>)
    requires forall k :: 0 <= k < |files| ==> files[k].Length < TWO_63
    ensures DecodeFileList(FileEntries(files)) == Ok(Trimmed(files))
  {
    var entries := FileEntries(files);
    forall k | 0 <= k < |files|
      ensures DecodeFileEntry(entries[k]) == Ok(Trimmed(files)[k])
    {
      FileEntryRoundTrip(files[k]);
    }
    assert DecodeFileList(entries).Ok?;
    assert DecodeFileList(entries).value == Trimmed(files);
  }

  /** What the header stage reads back from Encode's tree. */
  function EncodedHeader(t: TorrentFile): TorrentFile {
    TorrentFile([], t.AnnounceUrl, [], t.PieceLength, t.Pieces, [], false, [], [], 0, [], InfoDict(t))
  }

  lemma HeaderRoundTrip(t: TorrentFile)
    requires FitsInt64(t)
    ensures DecodeHeader(EncodeDict(t)) == Ok(EncodedHeader(t))
  {
    EncodeKeys(t);
    EncodeInfoKeys(t);
    EncodedPieces(t);
  }

  lemma OptionalsRoundTrip(t: TorrentFile)
    ensures DecodeOptionals(EncodeDict(t), EncodedHeader(t)) ==
      Ok(RoundTripped(t).(AnnounceList := [], Files := []))
  {
    EncodeKeys(t);
    EncodeInfoKeys(t);
    EncodeFileLayout(t);
  }

  lemma FileSetRoundTrip(t: TorrentFile)
    requires FitsInt64(t)
    ensures DecodeFileSet(InfoDict(t), RoundTripped(t).Name) == Ok(Trimmed(t.Files))
  {
    EncodeFileLayout(t);
    if SingleFile(t) {
      NoSeparator(t.Files[0].Path);
      assert TrimRight(t.Files[0].Path) == t.Files[0].Path;
      assert Trimmed(t.Files) == [t.Files[0]];
    } else {
      FileEntriesRoundTrip(t.Files);
      assert InfoDict(t)["files"] == BList(FileEntries(t.Files));
    }
  }

  /**
    Decoding the tree Encode builds: with an empty announce list it gives back
    the record with Name replaced by the sole file's path in single-file mode,
    paths stripped of trailing separators, a non-positive creation date read as
    the epoch, and the encoded info dictionary retained; with a non-empty
    announce list the Go decoder fails on `announce-list`.
   */
  lemma RoundTrip(t: TorrentFile)
    requires FitsInt64(t)
    ensures DecodeDict(EncodeDict(t)) ==
      if |t.AnnounceList| > 0 then Err(ShapeError("announce-list")) else Ok(RoundTripped(t))
  {
    HeaderRoundTrip(t);
    OptionalsRoundTrip(t);
    FileSetRoundTrip(t);
    EncodeKeys(t);
    EncodeInfoKeys(t);
  }

  /** Fields the round trip keeps unchanged, for records without trailing separators in paths. */
  lemma RoundTripKeepsFields(t: TorrentFile)
    requires FitsInt64(t) && t.AnnounceList == []
    requires forall k :: 0 <= k < |t.Files| ==> t.Files[k].Path == [] || t.Files[k].Path[|t.Files[k].Path| - 1] != SLASH
    ensures DecodeDict(EncodeDict(t)).Ok?
    ensures var u := DecodeDict(EncodeDict(t)).value;
      && u.AnnounceUrl == t.AnnounceUrl && u.PieceLength == t.PieceLength && u.Pieces == t.Pieces
      && u.Files == t.Files && u.Private == t.Private && u.Comment == t.Comment
      && u.CreatedBy == t.CreatedBy && u.Encoding == t.Encoding
      && (t.CreationDate > 0 ==> u.CreationDate == t.CreationDate)
  {
    RoundTrip(t);
    forall k | 0 <= k < |t.Files|
      ensures Trimmed(t.Files)[k] == t.Files[k]
    {
      var p := t.Files[k].Path;
      assert TrimRight(p) == p;
    }
  }
}
