/** Regions of a flat buffer. */
module Buffers {

  /** `size` elements from `lo` on, in the temporary or in the work buffer. */
  datatype Region = Region(temporary: bool, lo: nat, size: nat)

  /** `data` written over `buffer` from position `lo` on. */
  function Overwrite<T>(buffer: seq<T>, lo: nat, data: seq<T>): (r: seq<T>)
    requires lo + |data| <= |buffer|
    ensures |r| == |buffer|
    ensures forall i :: 0 <= i < |r| ==> r[i] == if lo <= i < lo + |data| then data[i - lo] else buffer[i]
  {
    buffer[..lo] + data + buffer[lo + |data|..]
  }

  /** `data` combined into `buffer` from position `lo` on, the buffer's element
    as left operand. */
  function Combine<T>(op: (T, T) -> T, buffer: seq<T>, lo: nat, data: seq<T>): (r: seq<T>)
    requires lo + |data| <= |buffer|
    ensures |r| == |buffer|
    ensures forall i :: 0 <= i < |r| ==>
              r[i] == if lo <= i < lo + |data| then op(buffer[i], data[i - lo]) else buffer[i]
    decreases |data|
  {
    if data == [] then buffer
    else Combine(op, buffer[lo := op(buffer[lo], data[0])], lo + 1, data[1..])
  }

  lemma IsOverwrite<T>(buffer: seq<T>, result: seq<T>, lo: nat, data: seq<T>)
    requires |result| == |buffer| && lo + |data| <= |buffer|
    requires forall i :: 0 <= i < |result| ==> result[i] == if lo <= i < lo + |data| then data[i - lo] else buffer[i]
    ensures result == Overwrite(buffer, lo, data)
  {}

  lemma IsCombine<T>(op: (T, T) -> T, buffer: seq<T>, result: seq<T>, lo: nat, data: seq<T>)
    requires |result| == |buffer| && lo + |data| <= |buffer|
    requires forall i :: 0 <= i < |result| ==>
               result[i] == if lo <= i < lo + |data| then op(buffer[i], data[i - lo]) else buffer[i]
    ensures result == Combine(op, buffer, lo, data)
  {
    hide Combine;
  }

  lemma OverwrittenPart<T>(buffer: seq<T>, lo: nat, data: seq<T>)
    requires lo + |data| <= |buffer|
    ensures Overwrite(buffer, lo, data)[lo..lo + |data|] == data
  {}
}
