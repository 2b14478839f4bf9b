/** The two capped stages a job's output goes through: the child caps what it sends at the log
    limit, the daemon caps what it keeps in memory at the inline limit. */
module Capped {

  type Bytes = seq<bv8>

  function Min(a: nat, b: nat): nat {
    if a < b then a else b
  }

  /** How much a limit lets through. A limit that is not positive lets nothing through. */
  function Room(limit: int): nat {
    if limit < 0 then 0 else limit
  }

  function Prefix(w: Bytes, limit: int): (r: Bytes)
    ensures |r| == Min(|w|, Room(limit)) && r <= w
  {
    w[..Min(|w|, Room(limit))]
  }

  predicate Exceeds(w: Bytes, limit: int) {
    |w| > Room(limit)
  }

  function Concat(chunks: seq<Bytes>): Bytes {
    if chunks == [] then [] else Concat(chunks[..|chunks| - 1]) + chunks[|chunks| - 1]
  }

  lemma ConcatNone(chunks: seq<Bytes>)
    ensures Concat(chunks[..0]) == []
  {
  }

  lemma ConcatPut(chunks: seq<Bytes>, i: nat)
    requires i < |chunks|
    ensures Concat(chunks[..i + 1]) == Concat(chunks[..i]) + chunks[i]
  {
    assert chunks[..i + 1][..i] == chunks[..i];
  }

  /** What a chunk adds to the capped prefix of the bytes before it. */
  function Added(w: Bytes, p: Bytes, limit: int): (r: Bytes)
    ensures Prefix(w + p, limit) == Prefix(w, limit) + r
    ensures |w| <= Room(limit) ==> r == p[..Min(|p|, Room(limit) - |w|)]
    ensures |w| > Room(limit) ==> r == []
  {
    if |w| <= Room(limit) then
      var k := Min(|p|, Room(limit) - |w|);
      assert (w + p)[..|w| + k] == w + p[..k];
      p[..k]
    else
      assert (w + p)[..Room(limit)] == w[..Room(limit)];
      []
  }

  class CappedBuffer {
    const limit: int
    var buf: Bytes
    var written: nat
    var truncated: bool
    /** Everything written so far, in whatever chunks. */
    ghost var input: Bytes

    ghost predicate Valid()
      reads this
    {
      buf == Prefix(input, limit) && written == |input| && (truncated <==> Exceeds(input, limit))
    }

    constructor (limit: int)
      ensures Valid() && input == [] && this.limit == limit
    {
      this.limit := limit;
      buf, written, truncated, input := [], 0, false, [];
    }

    method Write(p: Bytes) returns (n: nat)
      requires Valid()
      modifies this
      ensures Valid() && n == |p| && input == old(input) + p
    {
      ghost var added := Added(input, p, limit);
      input := input + p;
      written := written + |p|;
      n := |p|;
      if limit <= 0 {
        if |p| > 0 {
          truncated := true;
        }
        return;
      }
      var remaining := limit - |buf|;
      if remaining <= 0 {
        if |p| > 0 {
          truncated := true;
        }
        return;
      }
      if |p| > remaining {
        buf := buf + p[..remaining];
        truncated := true;
        return;
      }
      buf := buf + p;
    }
  }

  /** A destination that takes `room` more bytes and then fails. */
  class Sink {
    var data: Bytes
    var room: nat

    constructor (room: nat)
      ensures data == [] && this.room == room
    {
      data := [];
      this.room := room;
    }

    method Write(p: Bytes) returns (ok: bool)
      modifies this
      ensures ok <==> |p| <= old(room)
      ensures data == old(data) + p[..Min(|p|, old(room))] && room == old(room) - Min(|p|, old(room))
    {
      var k := Min(|p|, room);
      data := data + p[..k];
      room := room - k;
      ok := k == |p|;
    }
  }

  class CappedTeeWriter {
    const dst: Sink
    const limit: int
    var written: nat
    var truncated: bool
    /** Everything written so far without a failure. */
    ghost var input: Bytes

    ghost predicate Valid()
      reads this
    {
      written == |Prefix(input, limit)| && (truncated <==> Exceeds(input, limit))
    }

    constructor (dst: Sink, limit: int)
      ensures Valid() && input == [] && this.dst == dst && this.limit == limit
    {
      this.dst, this.limit := dst, limit;
      written, truncated, input := 0, false, [];
    }

    /** Passes on what the limit leaves of a chunk. A failing destination gets the part it has
        room for, and is not counted. */
    method Write(p: Bytes) returns (n: nat, ok: bool)
      requires Valid()
      modifies this, dst
      ensures ok <==> |Added(old(input), p, limit)| <= old(dst.room)
      ensures ok ==> Valid() && n == |p| && input == old(input) + p
      ensures !ok ==> n == 0 && written == old(written) && input == old(input) && truncated == Exceeds(input + p, limit)
      ensures var sent := Added(old(input), p, limit);
        && dst.data == old(dst.data) + sent[..Min(|sent|, old(dst.room))]
        && dst.room == old(dst.room) - Min(|sent|, old(dst.room))
    {
      ghost var added := Added(input, p, limit);
      ok, n := true, |p|;
      if limit <= 0 {
        if |p| > 0 {
          truncated := true;
        }
        input := input + p;
        return;
      }
      var remaining := limit - written;
      if remaining <= 0 {
        if |p| > 0 {
          truncated := true;
        }
        input := input + p;
        return;
      }
      var toWrite := p;
      if |p| > remaining {
        toWrite := p[..remaining];
        truncated := true;
      }
      assert toWrite == added;
      if |toWrite| > 0 {
        ok := dst.Write(toWrite);
        if !ok {
          return 0, false;
        }
        written := written + |toWrite|;
      }
      input := input + p;
    }
  }

  /** Copies the chunks a pipe delivers until a write fails. What arrives does not depend on
      how the bytes were cut into chunks. */
  method CopyToTee(w: CappedTeeWriter, chunks: seq<Bytes>) returns (ok: bool)
    requires w.Valid() && w.input == []
    modifies w, w.dst
    ensures ok <==> |Prefix(Concat(chunks), w.limit)| <= old(w.dst.room)
    ensures w.dst.data == old(w.dst.data) + Prefix(Prefix(Concat(chunks), w.limit), old(w.dst.room))
    ensures ok ==> w.Valid() && w.input == Concat(chunks)
  {
    hide Concat, Added, Prefix;
    ghost var room, start := w.dst.room, w.dst.data;
    ConcatNone(chunks);
    for i := 0 to |chunks|
      invariant w.Valid() && w.input == Concat(chunks[..i])
      invariant |Prefix(w.input, w.limit)| <= room && w.dst.room == room - |Prefix(w.input, w.limit)|
      invariant w.dst.data == start + Prefix(w.input, w.limit)
    {
      ConcatPut(chunks, i);
      ghost var before := w.input;
      ghost var added := Added(before, chunks[i], w.limit);
      var n;
      n, ok := w.Write(chunks[i]);
      if !ok {
        assert w.dst.data == start + (Prefix(before, w.limit) + added)[..room];
        PrefixGrows(chunks, i + 1, w.limit);
        return;
      }
    }
    ok := true;
    assert chunks[..|chunks|] == chunks;
  }

  /** The capped prefix of the first chunks is a prefix of that of all chunks. */
  lemma {:induction false} PrefixGrows(chunks: seq<Bytes>, i: nat, limit: int)
    requires i <= |chunks|
    ensures Prefix(Concat(chunks[..i]), limit) <= Prefix(Concat(chunks), limit)
    decreases |chunks| - i
  {
    if i == |chunks| {
      assert chunks[..i] == chunks;
    } else {
      PrefixGrows(chunks, i + 1, limit);
      ConcatPut(chunks, i);
      var r := Added(Concat(chunks[..i]), chunks[i], limit);
    }
  }

  /** The daemon's copy: each chunk goes to the log file and then to the buffer. */
  method CopyToBoth(file: Sink, b: CappedBuffer, chunks: seq<Bytes>) returns (ok: bool)
    requires b.Valid() && b.input == []
    modifies file, b
    ensures b.Valid() && b.input <= Concat(chunks)
    ensures ok <==> |Concat(chunks)| <= old(file.room)
    ensures file.data == old(file.data) + Prefix(Concat(chunks), old(file.room))
    ensures ok ==> b.input == Concat(chunks)
  {
    ghost var room, start := file.room, file.data;
    ConcatNone(chunks);
    hide Concat, Prefix;
    for i := 0 to |chunks|
      invariant b.Valid() && b.input == Concat(chunks[..i])
      invariant |b.input| <= room && file.room == room - |b.input| && file.data == start + b.input
    {
      ConcatPut(chunks, i);
      ok := file.Write(chunks[i]);
      if !ok {
        ConcatGrows(chunks, i);
        ConcatGrows(chunks, i + 1);
        PartWritten(b.input, chunks[i], Concat(chunks), room);
        return;
      }
      var n := b.Write(chunks[i]);
    }
    ok := true;
    assert chunks[..|chunks|] == chunks;
  }

  /** The chunk that no longer fits fills the room up. */
  lemma PartWritten(before: Bytes, p: Bytes, all: Bytes, room: nat)
    requires before + p <= all && |before| <= room < |before + p|
    ensures before + p[..room - |before|] == Prefix(all, room)
  {
    assert (before + p)[..room] == before + p[..room - |before|];
  }

  lemma {:induction false} ConcatGrows(chunks: seq<Bytes>, i: nat)
    requires i <= |chunks|
    ensures Concat(chunks[..i]) <= Concat(chunks)
    decreases |chunks| - i
  {
    if i == |chunks| {
      assert chunks[..i] == chunks;
    } else {
      ConcatGrows(chunks, i + 1);
      ConcatPut(chunks, i);
    }
  }

  /** The chunks in which a reader with buffers of the given sizes takes the data. */
  function Reads(data: Bytes, sizes: seq<nat>): seq<Bytes>
    decreases |sizes|
  {
    if sizes == [] then [data]
    else
      var k := Min(sizes[|sizes| - 1], |data|);
      Reads(data[..|data| - k], sizes[..|sizes| - 1]) + [data[|data| - k..]]
  }

  lemma {:induction false} ReadsAll(data: Bytes, sizes: seq<nat>)
    ensures Concat(Reads(data, sizes)) == data
    decreases |sizes|
  {
    if sizes == [] {
      assert [data][..0] == [];
    } else {
      var k := Min(sizes[|sizes| - 1], |data|);
      var front := Reads(data[..|data| - k], sizes[..|sizes| - 1]);
      ReadsAll(data[..|data| - k], sizes[..|sizes| - 1]);
      ConcatPut(front + [data[|data| - k..]], |front|);
      assert (front + [data[|data| - k..]])[..|front|] == front;
      assert (front + [data[|data| - k..]])[..|front| + 1] == front + [data[|data| - k..]];
    }
  }

  datatype Captured = Captured(log: Bytes, stdout: Bytes, stdoutTruncated: bool, logTruncated: bool)

  /** What is captured of the output `w`. */
  function Capture(w: Bytes, logLimit: int, inlineLimit: int): Captured {
    var sent := Prefix(w, logLimit);
    Captured(sent, Prefix(sent, inlineLimit), Exceeds(sent, inlineLimit), Exceeds(w, logLimit))
  }

  /** Both stages, for a payload writing in `chunks` and a pipe read in other pieces. */
  method RunStages(chunks: seq<Bytes>, sizes: seq<nat>, logLimit: int, inlineLimit: int) returns (c: Captured)
    ensures c == Capture(Concat(chunks), logLimit, inlineLimit)
  {
    var pipe := new Sink(Room(logLimit));
    var tee := new CappedTeeWriter(pipe, logLimit);
    var sent := CopyToTee(tee, chunks);
    assert pipe.data == Prefix(Concat(chunks), logLimit);
    var file := new Sink(|pipe.data|);
    var b := new CappedBuffer(inlineLimit);
    ReadsAll(pipe.data, sizes);
    var kept := CopyToBoth(file, b, Reads(pipe.data, sizes));
    return Captured(file.data, b.buf, b.truncated, tee.truncated);
  }

  /** With 0 <= inline limit <= log limit: log and stdout are prefixes of the output itself,
      and stdout is all of it exactly if neither flag is set. */
  lemma TwoStages(w: Bytes, logLimit: int, inlineLimit: int)
    requires 0 <= inlineLimit <= logLimit
    ensures Capture(w, logLimit, inlineLimit).log == w[..Min(|w|, logLimit)]
    ensures Capture(w, logLimit, inlineLimit).stdout == w[..Min(|w|, inlineLimit)]
    ensures Capture(w, logLimit, inlineLimit).stdout == w <==>
      !Capture(w, logLimit, inlineLimit).stdoutTruncated && !Capture(w, logLimit, inlineLimit).logTruncated
    ensures Capture(w, logLimit, inlineLimit).log == w <==> !Capture(w, logLimit, inlineLimit).logTruncated
  {
    var log := Prefix(w, logLimit);
    assert log[..Min(|log|, inlineLimit)] == w[..Min(|w|, inlineLimit)];
    assert w[..|w|] == w;
  }

  /** The inline flag alone tells whether stdout is complete, for every output, exactly if the
      log limit is above the inline limit. */
  lemma InlineFlagSuffices(logLimit: int, inlineLimit: int)
    requires 0 <= inlineLimit <= logLimit
    ensures (forall w ::
      Capture(w, logLimit, inlineLimit).stdout == w <==> !Capture(w, logLimit, inlineLimit).stdoutTruncated)
      <==> inlineLimit < logLimit
  {
    forall w | inlineLimit < logLimit
      ensures Capture(w, logLimit, inlineLimit).stdout == w <==> !Capture(w, logLimit, inlineLimit).stdoutTruncated
    {
      TwoStages(w, logLimit, inlineLimit);
    }
    if inlineLimit == logLimit {
      var w := seq(logLimit + 1, _ => 0);
      TwoStages(w, logLimit, inlineLimit);
      assert !Capture(w, logLimit, inlineLimit).stdoutTruncated && Capture(w, logLimit, inlineLimit).stdout != w;
    }
  }
}
