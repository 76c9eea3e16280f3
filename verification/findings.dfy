/**
  The announce list as DecodeTorrentFile reads it, next to the reading its
  encoder evidently expects: torrentfile.go tests the top-level `announce-list`
  key but takes the list from the info dictionary, where Encode never puts it,
  and it appends the trackers to a slice that already holds one empty string
  per tracker.
 */
module AnnounceListFinding {
  import opened Wrappers
  import opened Bencode
  import opened Metainfo
  import opened MetainfoProperties

  /** As written: no record with a non-empty announce list survives an encode and a decode. */
  lemma AnnounceListAsWritten(t: TorrentFile)
    requires FitsInt64(t) && |t.AnnounceList| > 0
    ensures DecodeDict(EncodeDict(t)) == Err(ShapeError("announce-list"))
  {
    RoundTrip(t);
  }

  /**
    As written, even a document that carries the list in both places decodes
    ["t"] as ["", "t"].
   */
  lemma AnnounceListBlankPrefix(tracker: Bytes)
    ensures var entry := map["announce-list" := BList([BStr(tracker)])];
      DecodeAnnounceList(entry, entry) == Ok([[], tracker])
  {
    var entry := map["announce-list" := BList([BStr(tracker)])];
    var l := [BStr(tracker)];
    var r := Strings(l, "announce-list");
    assert r.Ok? && |r.value| == 1 && r.value[0] == tracker;
    assert r.value == [tracker];
    var blanks: seq<Bytes> := seq(|l|, _ => []);
    assert blanks == [[]];
    assert RequireList(entry, "announce-list") == Ok(l);
    assert DecodeAnnounceList(entry, entry) == Ok(blanks + [tracker]);
    assert blanks + [tracker] == [[], tracker];
  }

  /** Intended: the list read from the top-level entry, one tracker per element. */
  function DecodeAnnounceListIntended(dict: map<string, BValue>): (r: Result<seq<Bytes>>)
    ensures "announce-list" !in dict ==> r == Ok([])
    ensures "announce-list" in dict ==>
      (r.Ok? <==> dict["announce-list"].BList? && forall k :: 0 <= k < |dict["announce-list"].items| ==> dict["announce-list"].items[k].BStr?)
    ensures r.Ok? && "announce-list" in dict ==>
      |r.value| == |dict["announce-list"].items| &&
      forall k :: 0 <= k < |r.value| ==> dict["announce-list"].items[k] == BStr(r.value[k])
  {
    if "announce-list" !in dict then Ok([])
    else
      var l :- AsList(dict["announce-list"], "announce-list");
      Strings(l, "announce-list")
  }

  /** DecodeDict with the intended announce-list reading in place of the one in torrentfile.go. */
  function DecodeDictIntended(dict: map<string, BValue>): Result<TorrentFile> {
    var header :- DecodeHeader(dict);
    var t :- DecodeOptionals(dict, header);
    var files :- DecodeFileSet(t.info, t.Name);
    var announceList :- DecodeAnnounceListIntended(dict);
    Ok(t.(Files := files, AnnounceList := announceList))
  }

  /** With the intended reading, the announce list survives the round trip too. */
  lemma RoundTripIntended(t: TorrentFile)
    requires FitsInt64(t)
    ensures DecodeDictIntended(EncodeDict(t)) == Ok(RoundTripped(t))
  {
    HeaderRoundTrip(t);
    OptionalsRoundTrip(t);
    FileSetRoundTrip(t);
    EncodeKeys(t);
    StringsOfStrList(t.AnnounceList, "announce-list");
  }
}
