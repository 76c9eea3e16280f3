/**
  The path codec: a file's relative path is a slash-separated byte string in
  the record and a list of segments on the wire.
 */
module Paths {
  import opened Wrappers
  import opened Bencode

  const SLASH: byte := 47  // '/'

  /** strings.Count(s, "/"): the number of separator bytes in s. */
  function Count(s: Bytes): (n: nat)
    ensures n == 0 <==> SLASH !in s
  {
    if s == [] then 0 else (if s[0] == SLASH then 1 else 0) + Count(s[1..])
  }

  /** Count agrees with the number of occurrences of the separator. */
  lemma {:induction false} CountOccurrences(s: Bytes)
    ensures Count(s) == multiset(s)[SLASH]
  {
    if s != [] {
      CountOccurrences(s[1..]);
      assert s == [s[0]] + s[1..];
    }
  }

  /** strings.Split(s, "/"): the pieces between separators, empty ones included. */
  function Split(s: Bytes): (segments: seq<Bytes>)
    ensures |segments| == Count(s) + 1
    ensures forall k :: 0 <= k < |segments| ==> SLASH !in segments[k]
  {
    if s == [] then [[]]
    else
      var rest := Split(s[1..]);
      if s[0] == SLASH then [[]] + rest
      else [[s[0]] + rest[0]] + rest[1..]
  }

  /** Every segment followed by a separator, in order. */
  function Terminated(segments: seq<Bytes>): Bytes {
    if segments == [] then [] else segments[0] + [SLASH] + Terminated(segments[1..])
  }

  /** Segments joined with a separator between neighbours. */
  function Join(segments: seq<Bytes>): Bytes
    requires segments != []
  {
    if |segments| == 1 then segments[0] else segments[0] + [SLASH] + Join(segments[1..])
  }

  /** strings.TrimRight(s, "/"): s without its trailing separators. */
  function TrimRight(s: Bytes): (t: Bytes)
    ensures t <= s
    ensures t == [] || t[|t| - 1] != SLASH
    ensures forall k :: |t| <= k < |s| ==> s[k] == SLASH
  {
    if s != [] && s[|s| - 1] == SLASH then TrimRight(s[..|s| - 1]) else s
  }

  /** The string flattenPath builds from the segments. */
  function Flatten(segments: seq<Bytes>): Bytes {
    TrimRight(Terminated(segments))
  }

  lemma {:induction false} TerminatedSnoc(segments: seq<Bytes>, last: Bytes)
    ensures Terminated(segments + [last]) == Terminated(segments) + last + [SLASH]
  {
    if segments != [] {
      assert (segments + [last])[1..] == segments[1..] + [last];
      TerminatedSnoc(segments[1..], last);
    }
  }

  /**
    flattenPath: appends each segment and a separator, then trims the trailing
    separators; an element that is not a string fails the type assertion.
   */
  method FlattenPath(pathList: seq<BValue>) returns (r: Result<Bytes>)
    ensures r.Ok? <==> forall k :: 0 <= k < |pathList| ==> pathList[k].BStr?
    ensures r.Err? ==> r.error == ShapeError("path")
    ensures r.Ok? ==> r.value == Flatten(Strings(pathList, "path").value)
  {
    var path: Bytes := [];
    ghost var segments: seq<Bytes> := [];
    for i := 0 to |pathList|
      invariant |segments| == i
      invariant forall k :: 0 <= k < i ==> pathList[k].BStr? && segments[k] == pathList[k].s
      invariant path == Terminated(segments)
    {
      var p :- AsStr(pathList[i], "path");
      TerminatedSnoc(segments, p);
      path := path + p + [SLASH];
      segments := segments + [p];
    }
    assert segments == Strings(pathList, "path").value;
    r := Ok(TrimRight(path));
  }

  /** partitionPath: a slice of Count + 1 entries filled by index from Split. */
  method PartitionPath(path: Bytes) returns (p: seq<Bytes>)
    ensures |p| == Count(path) + 1
    ensures forall k :: 0 <= k < |p| ==> SLASH !in p[k]
    ensures p == Split(path)
  {
    var parts := Split(path);
    var a := new Bytes[Count(path) + 1];
    for i := 0 to |parts|
      invariant forall k :: 0 <= k < i ==> a[k] == parts[k]
    {
      a[i] := parts[i];
    }
    p := a[..];
  }

  /** Splitting a string and terminating every segment gives the string plus one separator. */
  lemma {:induction false} TerminatedSplit(s: Bytes)
    ensures Terminated(Split(s)) == s + [SLASH]
  {
    if s != [] {
      var rest := Split(s[1..]);
      TerminatedSplit(s[1..]);
      if s[0] != SLASH {
        var segments := [[s[0]] + rest[0]] + rest[1..];
        assert Split(s) == segments;
        assert segments[1..] == rest[1..];
        assert Terminated(rest) == rest[0] + [SLASH] + Terminated(rest[1..]);
        assert Terminated(segments) == [s[0]] + (rest[0] + [SLASH] + Terminated(rest[1..]));
        assert Terminated(segments) == [s[0]] + (s[1..] + [SLASH]);
      } else {
        var segments := [[]] + rest;
        assert Split(s) == segments;
        assert segments[1..] == rest;
        assert Terminated(segments) == [] + [SLASH] + (s[1..] + [SLASH]);
      }
      assert s == [s[0]] + s[1..];
    }
  }

  /** flattenPath(partitionPath(p)) is p less its trailing separators. */
  lemma FlattenPartition(s: Bytes)
    ensures Flatten(Split(s)) == TrimRight(s)
  {
    TerminatedSplit(s);
    assert (s + [SLASH])[..|s|] == s;
  }

  /** A path that does not end in a separator survives partition then flatten. */
  lemma FlattenPartitionIdentity(s: Bytes)
    requires s == [] || s[|s| - 1] != SLASH
    ensures Flatten(Split(s)) == s
  {
    FlattenPartition(s);
  }

  lemma {:induction false} TerminatedJoin(segments: seq<Bytes>)
    requires segments != []
    ensures Terminated(segments) == Join(segments) + [SLASH]
  {
    if |segments| > 1 {
      TerminatedJoin(segments[1..]);
    }
  }

  lemma {:induction false} SplitAfterSegment(a: Bytes, b: Bytes)
    requires SLASH !in a
    ensures Split(a + [SLASH] + b) == [a] + Split(b)
  {
    if a != [] {
      SplitAfterSegment(a[1..], b);
      assert (a + [SLASH] + b)[1..] == a[1..] + [SLASH] + b;
      assert a == [a[0]] + a[1..];
    } else {
      assert ([SLASH] + b)[1..] == b;
    }
  }

  lemma {:induction false} SplitOfSegment(a: Bytes)
    requires SLASH !in a
    ensures Split(a) == [a]
  {
    if a != [] {
      SplitOfSegment(a[1..]);
      assert a == [a[0]] + a[1..];
    }
  }

  /** Split undoes Join when no segment holds a separator. */
  lemma {:induction false} SplitJoin(segments: seq<Bytes>)
    requires segments != []
    requires forall k :: 0 <= k < |segments| ==> SLASH !in segments[k]
    ensures Split(Join(segments)) == segments
  {
    if |segments| == 1 {
      SplitOfSegment(segments[0]);
    } else {
      SplitJoin(segments[1..]);
      SplitAfterSegment(segments[0], Join(segments[1..]));
    }
  }

  lemma {:induction false} JoinEndsWithLast(segments: seq<Bytes>)
    requires segments != [] && segments[|segments| - 1] != []
    ensures Join(segments) != [] && Join(segments)[|Join(segments)| - 1] == segments[|segments| - 1][|segments[|segments| - 1]| - 1]
  {
    if |segments| > 1 {
      JoinEndsWithLast(segments[1..]);
    }
  }

  /**
    partitionPath(flattenPath(l)) gives back a segment list when no segment
    holds a separator and the last segment is not empty.
   */
  lemma PartitionFlatten(segments: seq<Bytes>)
    requires segments != [] && segments[|segments| - 1] != []
    requires forall k :: 0 <= k < |segments| ==> SLASH !in segments[k]
    ensures Split(Flatten(segments)) == segments
  {
    var j := Join(segments);
    TerminatedJoin(segments);
    JoinEndsWithLast(segments);
    var last := segments[|segments| - 1];
    assert last[|last| - 1] in last;
    assert (j + [SLASH])[..|j|] == j;
    assert Flatten(segments) == j;
    SplitJoin(segments);
  }
}
