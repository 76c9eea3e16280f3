/** Outcome of a decode: a value, or the reason no value was produced. */
module Wrappers {

  /** Why decoding produced no entity. */
  datatype DecodeError =
    | ParseFailed(reason: string)  // reported by the byte-level bencode decoder, passed on unchanged
    | ShapeError(key: string)      // a key that is absent or holds a value of the wrong kind

  datatype Result<+T> = Ok(value: T) | Err(error: DecodeError) {
    predicate IsFailure() { Err? }

    function PropagateFailure<U>(): Result<U>
      requires Err?
    {
      Err(error)
    }

    function Extract(): T
      requires Ok?
    {
      value
    }
  }
}

/**
  The generic value tree that the bencode library hands over on decoding and
  accepts on encoding, and the checked accessors that stand for torrentfile.go's
  Go type assertions (`v.(string)`, `v.(int64)`, ...): where an assertion would
  panic, the accessor returns a ShapeError naming the key being read.
 */
module Bencode {
  import opened Wrappers

  type byte = b: int | 0 <= b < 256
  type Bytes = seq<byte>

  const TWO_63: int := 0x8000_0000_0000_0000
  const TWO_64: int := 0x1_0000_0000_0000_0000

  type int64 = i: int | -TWO_63 <= i < TWO_63
  type uint64 = u: int | 0 <= u < TWO_64

  /** A bencoded value: integer, byte string, list, or dictionary with string keys. */
  datatype BValue =
    | BInt(i: int)
    | BStr(s: Bytes)
    | BList(items: seq<BValue>)
    | BDict(entries: map<string, BValue>)

  /** Go's conversion uint64(i) of an int64: the same 64 bits read as unsigned. */
  function AsUint64(i: int64): (u: uint64)
    ensures (u - i) % TWO_64 == 0
    ensures 0 <= i ==> u == i
  {
    if i < 0 then i + TWO_64 else i
  }

  // `v.(string)`
  function AsStr(v: BValue, key: string): Result<Bytes> {
    if v.BStr? then Ok(v.s) else Err(ShapeError(key))
  }

  // `v.(int64)`: the byte-level decoder yields integers as int64
  function AsInt(v: BValue, key: string): Result<int64> {
    if v.BInt? && -TWO_63 <= v.i < TWO_63 then Ok(v.i) else Err(ShapeError(key))
  }

  // `v.([]interface{})`
  function AsList(v: BValue, key: string): Result<seq<BValue>> {
    if v.BList? then Ok(v.items) else Err(ShapeError(key))
  }

  // `v.(map[string]interface{})`
  function AsDict(v: BValue, key: string): Result<map<string, BValue>> {
    if v.BDict? then Ok(v.entries) else Err(ShapeError(key))
  }

  // `m[key].(T)` on an absent key asserts on nil, which always fails
  function RequireStr(m: map<string, BValue>, key: string): Result<Bytes> {
    if key in m then AsStr(m[key], key) else Err(ShapeError(key))
  }

  function RequireInt(m: map<string, BValue>, key: string): Result<int64> {
    if key in m then AsInt(m[key], key) else Err(ShapeError(key))
  }

  function RequireList(m: map<string, BValue>, key: string): Result<seq<BValue>> {
    if key in m then AsList(m[key], key) else Err(ShapeError(key))
  }

  function RequireDict(m: map<string, BValue>, key: string): Result<map<string, BValue>> {
    if key in m then AsDict(m[key], key) else Err(ShapeError(key))
  }

  /** Byte strings as a list value, in order. */
  function StrList(items: seq<Bytes>): (l: seq<BValue>)
    ensures |l| == |items|
    ensures forall k :: 0 <= k < |l| ==> l[k] == BStr(items[k])
  {
    seq(|items|, k requires 0 <= k < |items| => BStr(items[k]))
  }

  /**
    Asserting `.(string)` on every element of a list, front to back: the
    strings if every element is one, otherwise a ShapeError for `key`.
   */
  function Strings(list: seq<BValue>, key: string): (r: Result<seq<Bytes>>)
    ensures r.Ok? <==> forall k :: 0 <= k < |list| ==> list[k].BStr?
    ensures r.Ok? ==> |r.value| == |list| && forall k :: 0 <= k < |list| ==> r.value[k] == list[k].s
    ensures r.Err? ==> r.error == ShapeError(key)
  {
    if list == [] then Ok([])
    else
      var init :- Strings(list[..|list| - 1], key);
      var last :- AsStr(list[|list| - 1], key);
      Ok(init + [last])
  }

  /** Strings undoes StrList. */
  lemma StringsOfStrList(items: seq<Bytes>, key: string)
    ensures Strings(StrList(items), key) == Ok(items)
  {
    var r := Strings(StrList(items), key);
    assert r.Ok?;
    assert r.value == items;
  }
}
