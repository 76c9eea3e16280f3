/**
  The `.torrent` metainfo codec of torrentfile.go: the TorrentFile and File
  records, their total size, the value tree Encode builds from a record, the
  record DecodeTorrentFile reads from a tree, and the info-hash.
 */
module Metainfo {
  import opened Wrappers
  import opened Bencode
  import opened PieceHashes
  import opened Paths

  datatype File = File(Length: uint64, Path: Bytes)

  datatype TorrentFile = TorrentFile(
    Name: Bytes,
    AnnounceUrl: Bytes,
    AnnounceList: seq<Bytes>,
    PieceLength: uint64,
    Pieces: seq<Piece>,
    Files: seq<File>,
    Private: bool,
    Comment: Bytes,
    CreatedBy: Bytes,
    CreationDate: int64,           // Unix seconds
    Encoding: Bytes,
    info: map<string, BValue>)     // the info dictionary kept by decoding; empty on a record built field by field

  // ---------------------------------------------------------------------------
  // TotalSize

  /** The sum of the file lengths, without wrap-around. */
  function SumLengths(files: seq<File>): nat {
    if files == [] then 0 else SumLengths(files[..|files| - 1]) + files[|files| - 1].Length
  }

  /** Adds up the file lengths in a uint64 accumulator, which wraps modulo 2^64. */
  method TotalSize(t: TorrentFile) returns (totalSize: uint64)
    ensures totalSize == SumLengths(t.Files) % TWO_64
    ensures SumLengths(t.Files) < TWO_64 ==> totalSize == SumLengths(t.Files)
  {
    totalSize := 0;
    for i := 0 to |t.Files|
      invariant totalSize == SumLengths(t.Files[..i]) % TWO_64
    {
      assert t.Files[..i + 1][..i] == t.Files[..i];
      totalSize := (totalSize + t.Files[i].Length) % TWO_64;
    }
    assert t.Files[..|t.Files|] == t.Files;
  }

  // ---------------------------------------------------------------------------
  // Encode: record to value tree

  /** Single-file mode: exactly one file, and its path has no separator. */
  predicate SingleFile(t: TorrentFile)
    ensures SingleFile(t) <==> |t.Files| == 1 && SLASH !in t.Files[0].Path
  {
    |t.Files| == 1 && Count(t.Files[0].Path) == 0
  }

  function Put(m: map<string, BValue>, present: bool, key: string, v: BValue): map<string, BValue> {
    if present then m[key := v] else m
  }

  /** One entry of `info.files`: the length and the path cut into segments. */
  function FileEntry(f: File): BValue {
    BDict(map["length" := BInt(f.Length), "path" := BList(StrList(Split(f.Path)))])
  }

  function FileEntries(files: seq<File>): seq<BValue> {
    seq(|files|, k requires 0 <= k < |files| => FileEntry(files[k]))
  }

  /** The info dictionary Encode builds. */
  function InfoDict(t: TorrentFile): map<string, BValue> {
    var fixed := map["piece length" := BInt(t.PieceLength), "pieces" := BStr(Concat(t.Pieces))];
    var flagged := Put(fixed, t.Private, "private", BInt(1));
    var named := Put(flagged, t.Name != [], "name", BStr(t.Name));
    if SingleFile(t) then
      named["name" := BStr(t.Files[0].Path)]["length" := BInt(t.Files[0].Length)]
    else
      named["files" := BList(FileEntries(t.Files))]
  }

  /** The top-level dictionary Encode hands to the bencode serialiser. */
  function EncodeDict(t: TorrentFile): map<string, BValue> {
    var announced := map["announce" := BStr(t.AnnounceUrl)];
    var listed := Put(announced, |t.AnnounceList| > 0, "announce-list", BList(StrList(t.AnnounceList)));
    var dated := Put(listed, t.CreationDate > 0, "creation date", BInt(t.CreationDate));
    var authored := Put(dated, t.CreatedBy != [], "created by", BStr(t.CreatedBy));
    var commented := Put(authored, t.Comment != [], "comment", BStr(t.Comment));
    var encoded := Put(commented, t.Encoding != [], "encoding", BStr(t.Encoding));
    encoded["info" := BDict(InfoDict(t))]
  }

  /**
    The `info.files` list of Encode: a slice of one entry per file, filled by
    index with the length and the partitioned path.
   */
  method EncodeFiles(fileList: seq<File>) returns (files: seq<BValue>)
    ensures files == FileEntries(fileList)
  {
    var a := new BValue[|fileList|];
    for i := 0 to |fileList|
      invariant forall k :: 0 <= k < i ==> a[k] == FileEntry(fileList[k])
    {
      var file: map<string, BValue> := map[];
      file := file["length" := BInt(fileList[i].Length)];
      var path := PartitionPath(fileList[i].Path);
      file := file["path" := BList(StrList(path))];
      assert BDict(file) == FileEntry(fileList[i]);
      a[i] := BDict(file);
    }
    files := a[..];
  }

  /** TorrentFile.Encode up to the final serialisation: fills both dictionaries step by step. */
  method Encode(t: TorrentFile) returns (dict: map<string, BValue>)
    ensures dict == EncodeDict(t)
  {
    dict := map[];
    var info: map<string, BValue> := map[];

    dict := dict["announce" := BStr(t.AnnounceUrl)];
    if |t.AnnounceList| > 0 {
      dict := dict["announce-list" := BList(StrList(t.AnnounceList))];
    }
    if t.CreationDate > 0 {
      dict := dict["creation date" := BInt(t.CreationDate)];
    }
    if t.CreatedBy != [] {
      dict := dict["created by" := BStr(t.CreatedBy)];
    }
    if t.Comment != [] {
      dict := dict["comment" := BStr(t.Comment)];
    }
    if t.Encoding != [] {
      dict := dict["encoding" := BStr(t.Encoding)];
    }

    info := info["piece length" := BInt(t.PieceLength)];
    var pieces := JoinPieces(t.Pieces);
    info := info["pieces" := BStr(pieces)];
    if t.Private {
      info := info["private" := BInt(1)];
    }
    if t.Name != [] {
      info := info["name" := BStr(t.Name)];
    }

    var singleFile := false;
    if |t.Files| == 1 {
      if Count(t.Files[0].Path) == 0 {
        singleFile := true;
        info := info["name" := BStr(t.Files[0].Path)];
        info := info["length" := BInt(t.Files[0].Length)];
      }
    }
    if !singleFile {
      var files := EncodeFiles(t.Files);
      info := info["files" := BList(files)];
    }
    assert info == InfoDict(t);

    dict := dict["info" := BDict(info)];
  }

  // ---------------------------------------------------------------------------
  // DecodeTorrentFile: value tree to record

  /** An optional string entry: when present it must be a string, when absent `absent` stays. */
  function StrOr(m: map<string, BValue>, key: string, absent: Bytes): Result<Bytes> {
    if key in m then AsStr(m[key], key) else Ok(absent)
  }

  /** One entry of `info.files`, as decodeFiles reads it. */
  function DecodeFileEntry(v: BValue): Result<File> {
    var file :- AsDict(v, "files");
    var length :- RequireInt(file, "length");
    var pathList :- RequireList(file, "path");
    var segments :- Strings(pathList, "path");
    Ok(File(AsUint64(length), Flatten(segments)))
  }

  /** decodeFiles: every entry in order; the first malformed entry decides the error. */
  function DecodeFileList(list: seq<BValue>): (r: Result<seq<File>>)
    ensures r.Ok? <==> forall k :: 0 <= k < |list| ==> DecodeFileEntry(list[k]).Ok?
    ensures r.Ok? ==> |r.value| == |list|
    ensures r.Ok? ==> forall k :: 0 <= k < |list| ==> DecodeFileEntry(list[k]) == Ok(r.value[k])
  {
    if list == [] then Ok([])
    else
      var init :- DecodeFileList(list[..|list| - 1]);
      var last :- DecodeFileEntry(list[|list| - 1]);
      Ok(init + [last])
  }

  lemma {:induction false} DecodeFileListFirstError(list: seq<BValue>, i: nat)
    requires i < |list| && DecodeFileList(list[..i]).Ok?
    ensures DecodeFileEntry(list[i]).Err? ==>
      DecodeFileList(list) == Err(DecodeFileEntry(list[i]).error)
  {
    if DecodeFileEntry(list[i]).Err? {
      var n := |list|;
      if i == n - 1 {
        assert list[..n - 1] == list[..i];
      } else {
        assert list[..n - 1][..i] == list[..i];
        DecodeFileListFirstError(list[..n - 1], i);
      }
    }
  }

  /** decodeFiles: type-asserts each entry and appends the decoded File. */
  method DecodeFiles(fileList: seq<BValue>) returns (r: Result<seq<File>>)
    ensures r == DecodeFileList(fileList)
  {
    var files: seq<File> := [];
    for i := 0 to |fileList|
      invariant DecodeFileList(fileList[..i]) == Ok(files)
    {
      DecodeFileListFirstError(fileList, i);
      assert fileList[..i + 1][..i] == fileList[..i];
      var file :- AsDict(fileList[i], "files");
      var length :- RequireInt(file, "length");
      var pathList :- RequireList(file, "path");
      var path :- FlattenPath(pathList);
      files := files + [File(AsUint64(length), path)];
    }
    assert fileList[..|fileList|] == fileList;
    r := Ok(files);
  }

  /** The four entries DecodeTorrentFile insists on; the record keeps the decoded info dictionary. */
  function DecodeHeader(dict: map<string, BValue>): Result<TorrentFile> {
    var info :- RequireDict(dict, "info");
    var announce :- RequireStr(dict, "announce");
    var pieceLength :- RequireInt(info, "piece length");
    var pieceString :- RequireStr(info, "pieces");
    Ok(TorrentFile([], announce, [], AsUint64(pieceLength), Chunks(pieceString), [],
                   false, [], [], 0, [], info))
  }

  /**
    The optional entries: each one present overrides its field, each one absent
    leaves the field as it was, except the creation date, which is then the epoch.
   */
  function DecodeOptionals(dict: map<string, BValue>, t: TorrentFile): Result<TorrentFile> {
    var name :- StrOr(t.info, "name", t.Name);
    var isPrivate :- if "private" in t.info then
                       (var flag :- AsInt(t.info["private"], "private"); Ok(flag == 1))
                     else Ok(t.Private);
    var comment :- StrOr(dict, "comment", t.Comment);
    var createdBy :- StrOr(dict, "created by", t.CreatedBy);
    var creationDate :- if "creation date" in dict then AsInt(dict["creation date"], "creation date")
                        else Ok(0);
    var encoding :- StrOr(dict, "encoding", t.Encoding);
    Ok(t.(Name := name, Private := isPrivate, Comment := comment, CreatedBy := createdBy,
          CreationDate := creationDate, Encoding := encoding))
  }

  /** The file list: `info.files` when present, else one file named by `info.name`. */
  function DecodeFileSet(info: map<string, BValue>, name: Bytes): Result<seq<File>> {
    if "files" in info then
      var list :- AsList(info["files"], "files");
      DecodeFileList(list)
    else
      var length :- RequireInt(info, "length");
      Ok([File(AsUint64(length), name)])
  }

  /**
    The announce list as DecodeTorrentFile reads it: it tests the top-level key
    but reads `announce-list` from the info dictionary, and appends the strings
    after as many empty strings as the list has entries.
   */
  function DecodeAnnounceList(dict: map<string, BValue>, info: map<string, BValue>): (r: Result<seq<Bytes>>)
    ensures "announce-list" !in dict ==> r == Ok([])
    ensures "announce-list" in dict ==>
      (r.Ok? <==> "announce-list" in info && info["announce-list"].BList? &&
                  forall k :: 0 <= k < |info["announce-list"].items| ==> info["announce-list"].items[k].BStr?)
    ensures r.Err? ==> r.error == ShapeError("announce-list")
    ensures r.Ok? && "announce-list" in dict ==>
      var l := info["announce-list"].items;
      |r.value| == 2 * |l| &&
      (forall k :: 0 <= k < |l| ==> r.value[k] == [] && r.value[|l| + k] == l[k].s)
  {
    if "announce-list" !in dict then Ok([])
    else
      var l :- RequireList(info, "announce-list");
      var trackers :- Strings(l, "announce-list");
      Ok(seq(|l|, _ => []) + trackers)
  }

  /** DecodeTorrentFile on a parsed top-level dictionary, stage by stage. */
  function DecodeDict(dict: map<string, BValue>): Result<TorrentFile> {
    var header :- DecodeHeader(dict);
    var t :- DecodeOptionals(dict, header);
    var files :- DecodeFileSet(t.info, t.Name);
    var announceList :- DecodeAnnounceList(dict, t.info);
    Ok(t.(Files := files, AnnounceList := announceList))
  }

  /** The byte-level decoder's outcome, then the tree-level decode; a parse error passes through. */
  function Decode(parsed: Result<map<string, BValue>>): Result<TorrentFile> {
    var dict :- parsed;
    DecodeDict(dict)
  }

  /**
    The optional entries of DecodeTorrentFile: each one present is type-asserted
    and assigned to its field; an absent creation date sets the epoch.
   */
  method SetOptionals(dict: map<string, BValue>, t: TorrentFile) returns (r: Result<TorrentFile>)
    ensures r == DecodeOptionals(dict, t)
  {
    var info := t.info;
    var torrentfile := t;
    if "name" in info {
      var name :- AsStr(info["name"], "name");
      torrentfile := torrentfile.(Name := name);
    }
    if "private" in info {
      var flag :- AsInt(info["private"], "private");
      torrentfile := torrentfile.(Private := flag == 1);
    }
    if "comment" in dict {
      var comment :- AsStr(dict["comment"], "comment");
      torrentfile := torrentfile.(Comment := comment);
    }
    if "created by" in dict {
      var createdBy :- AsStr(dict["created by"], "created by");
      torrentfile := torrentfile.(CreatedBy := createdBy);
    }
    if "creation date" in dict {
      var date :- AsInt(dict["creation date"], "creation date");
      torrentfile := torrentfile.(CreationDate := date);
    } else {
      torrentfile := torrentfile.(CreationDate := 0);
    }
    if "encoding" in dict {
      var encoding :- AsStr(dict["encoding"], "encoding");
      torrentfile := torrentfile.(Encoding := encoding);
    }
    r := Ok(torrentfile);
  }

  /**
    The announce-list block of DecodeTorrentFile: when the top-level key is
    present, reads the list from `info` and appends its strings to a slice that
    already holds one empty string per entry.
   */
  method ReadAnnounceList(dict: map<string, BValue>, info: map<string, BValue>) returns (r: Result<seq<Bytes>>)
    ensures r == DecodeAnnounceList(dict, info)
  {
    r := Ok([]);
    if "announce-list" in dict {
      var l :- RequireList(info, "announce-list");
      var al: seq<Bytes> := seq(|l|, _ => []);
      ghost var trackers: seq<Bytes> := [];
      for i := 0 to |l|
        invariant |trackers| == i
        invariant forall k :: 0 <= k < i ==> l[k].BStr? && trackers[k] == l[k].s
        invariant al == seq(|l|, _ => []) + trackers
      {
        var tracker :- AsStr(l[i], "announce-list");
        al := al + [tracker];
        trackers := trackers + [tracker];
      }
      assert trackers == Strings(l, "announce-list").value;
      r := Ok(al);
    }
  }

  /**
    DecodeTorrentFile, given what bencode.Decode returned: fills a record field
    by field, failing where Go's type assertions would panic.
   */
  method DecodeTorrentFile(parsed: Result<map<string, BValue>>) returns (r: Result<TorrentFile>)
    ensures r == Decode(parsed)
  {
    var dict :- parsed;

    var info :- RequireDict(dict, "info");
    var announce :- RequireStr(dict, "announce");
    var pieceLength :- RequireInt(info, "piece length");
    var pieceString :- RequireStr(info, "pieces");
    var pieces := DecodePieces(pieceString);
    var torrentfile := TorrentFile([], announce, [], AsUint64(pieceLength), pieces, [],
                                   false, [], [], 0, [], info);
    assert DecodeHeader(dict) == Ok(torrentfile);

    torrentfile :- SetOptionals(dict, torrentfile);

    if "files" in info {
      var fileList :- AsList(info["files"], "files");
      var files :- DecodeFiles(fileList);
      torrentfile := torrentfile.(Files := files);
    } else {
      var filename: Bytes := [];
      if "name" in info {
        filename := info["name"].s;
      }
      var length :- RequireInt(info, "length");
      torrentfile := torrentfile.(Files := [File(AsUint64(length), filename)]);
    }
    assert DecodeFileSet(info, torrentfile.Name) == Ok(torrentfile.Files);
    var announceList :- ReadAnnounceList(dict, info);
    torrentfile := torrentfile.(AnnounceList := announceList);

    r := Ok(torrentfile);
  }

  // ---------------------------------------------------------------------------
  // InfoHash

  /**
    SHA-1 of the serialised info dictionary the record carries; the serialiser
    and the digest are foreign code and come in as parameters.
   */
  function InfoHash(t: TorrentFile, serialize: BValue -> Bytes, sha1: Bytes -> Piece): (h: Piece)
    ensures t.info == InfoDict(t) ==> h == sha1(serialize(EncodeDict(t)["info"]))
  {
    sha1(serialize(BDict(t.info)))
  }
}
