/**
  The reference view of the compression dictionaries: a log of uses and updates, in the order the
  sender made them. The value of a dictionary at any point of the log is a fold over the updates
  before it; both ends of the connection are proved to agree with that fold.
 */
module DictionaryLog {
  import opened Bytes

  type StreamId = nat

  /** A stream's compressor starts from a dictionary, or adds the head of its first write to one. */
  datatype Op =
    | Use(stream: StreamId, dict: nat)
    | Set(stream: StreamId, dict: nat, data: Buffer)

  type Log = seq<Op>

  /** adjustDictionary: append, then keep the newest `maxSize` bytes. */
  function Adjust(current: Buffer, data: Buffer, maxSize: nat): (r: Buffer)
    ensures |r| == Min(|current| + |data|, maxSize)
    ensures forall i :: 0 <= i < |r| ==> r[i] == (current + data)[|current| + |data| - |r| + i]
  {
    var grown := current + data;
    if |grown| > maxSize then grown[|grown| - maxSize..] else grown
  }

  /** The update with its data cut to size, or None where there is less data than that. */
  function Adjusted(current: Buffer, newData: Buffer, size: nat, maxSize: nat): Option<Buffer> {
    if size <= |newData| then Some(Adjust(current, newData[..size], maxSize)) else None
  }

  /** Dictionary `d` after the first `n` entries of the log. */
  ghost function DictAt(log: Log, n: nat, d: nat, maxSize: nat): Buffer
    requires n <= |log|
  {
    if n == 0 then []
    else
      var before := DictAt(log, n - 1, d, maxSize);
      if log[n - 1].Set? && log[n - 1].dict == d then Adjust(before, log[n - 1].data, maxSize) else before
  }

  /** What the log says so far does not change when the log grows. */
  lemma {:induction false} DictAtStable(log: Log, more: Log, n: nat, d: nat, maxSize: nat)
    requires n <= |log|
    ensures DictAt(log + more, n, d, maxSize) == DictAt(log, n, d, maxSize)
  {
    if n > 0 {
      DictAtStable(log, more, n - 1, d, maxSize);
      assert (log + more)[n - 1] == log[n - 1];
    }
  }

  /** A stretch of the log without an update of `d` leaves `d` alone. */
  lemma {:induction false} DictAtSkip(log: Log, a: nat, b: nat, d: nat, maxSize: nat)
    requires a <= b <= |log|
    requires forall i :: a <= i < b ==> log[i].dict != d || log[i].Use?
    ensures DictAt(log, b, d, maxSize) == DictAt(log, a, d, maxSize)
    decreases b - a
  {
    if a < b {
      DictAtSkip(log, a, b - 1, d, maxSize);
    }
  }
}
