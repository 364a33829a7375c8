/**
 Several writers of one chunk, each of which truncates the chunk's file when it opens it and then
 writes the same data piece by piece at its own offset. With fewer nodes than replicas they share a
 file. However they interleave, the file is whole and exact once all have closed it.
 */
module ReplicaWrites {
  import opened Types

  datatype Writer =
    | Waiting
    | Writing(addr: Addr, off: nat)
    | Stored(addr: Addr)
    | Failed

  /** A write of `piece` at offset `off`; a gap before it reads as zeros. */
  function WriteAt(file: Bytes, off: nat, piece: Bytes): Bytes {
    var padded := if |file| < off then file + seq(off - |file|, _ => 0 as byte) else file;
    padded[..off] + piece + (if |padded| > off + |piece| then padded[off + |piece|..] else [])
  }

  predicate Opened(w: Writer, addr: Addr) {
    (w.Writing? || w.Stored?) && w.addr == addr
  }

  /** How far into the data a writer has come. */
  function Reached(w: Writer, size: nat): nat {
    match w
    case Writing(_, off) => off
    case Stored(_) => size
    case _ => 0
  }

  predicate Witness(file: Bytes, data: Bytes, w: Writer, addr: Addr) {
    var n := Reached(w, |data|);
    Opened(w, addr) && n <= |data| && n <= |file| && file[..n] == data[..n]
  }

  /**
   The invariant of the shared file: it is never longer than the data, and some writer (the last
   one that truncated it) finds everything it has written in place.
   */
  ghost predicate Covered(file: Bytes, data: Bytes, writers: seq<Writer>, addr: Addr) {
    |file| <= |data| && exists v :: 0 <= v < |writers| && Witness(file, data, writers[v], addr)
  }

  lemma OpenCovers(data: Bytes, writers: seq<Writer>, v: nat, addr: Addr)
    requires v < |writers|
    ensures Covered([], data, writers[v := Writing(addr, 0)], addr)
  {
    assert Witness([], data, writers[v := Writing(addr, 0)][v], addr);
  }

  lemma WriteAtShape(file: Bytes, off: nat, piece: Bytes)
    ensures |WriteAt(file, off, piece)| == (if |file| > off + |piece| then |file| else off + |piece|)
    ensures forall p :: 0 <= p < |file| && p < off ==> WriteAt(file, off, piece)[p] == file[p]
    ensures forall p :: off <= p < off + |piece| ==> WriteAt(file, off, piece)[p] == piece[p - off]
    ensures forall p :: off + |piece| <= p < |file| ==> WriteAt(file, off, piece)[p] == file[p]
    ensures forall p :: |file| <= p < off ==> WriteAt(file, off, piece)[p] == 0
  {
  }

  lemma WriteCovers(file: Bytes, data: Bytes, writers: seq<Writer>, v: nat, n: nat)
    requires v < |writers| && writers[v].Writing? && writers[v].off + n <= |data|
    requires Covered(file, data, writers, writers[v].addr)
    ensures var w := writers[v];
            Covered(WriteAt(file, w.off, data[w.off..w.off + n]), data, writers[v := Writing(w.addr, w.off + n)], w.addr)
  {
    var w := writers[v];
    var after := writers[v := Writing(w.addr, w.off + n)];
    var piece := data[w.off..w.off + n];
    var written := WriteAt(file, w.off, piece);
    WriteAtShape(file, w.off, piece);
    var x :| 0 <= x < |writers| && Witness(file, data, writers[x], w.addr);
    var d := Reached(after[x], |data|);
    forall p | 0 <= p < d
      ensures written[p] == data[p]
    {
      if p < Reached(writers[x], |data|) {
        assert file[p] == file[..Reached(writers[x], |data|)][p];
      }
    }
    assert Witness(written, data, after[x], w.addr);
  }

  lemma CloseCovers(file: Bytes, data: Bytes, writers: seq<Writer>, v: nat, addr: Addr)
    requires v < |writers| && writers[v].Writing? && writers[v].off == |data|
    requires Covered(file, data, writers, addr)
    ensures Covered(file, data, writers[v := Stored(writers[v].addr)], addr)
  {
    var after := writers[v := Stored(writers[v].addr)];
    var x :| 0 <= x < |writers| && Witness(file, data, writers[x], addr);
    assert Witness(file, data, after[x], addr);
  }

  /** A writer's step on another node's file, or the start of one on it, changes nothing here. */
  lemma ElsewhereCovers(file: Bytes, data: Bytes, writers: seq<Writer>, v: nat, w: Writer, addr: Addr)
    requires v < |writers| && !Opened(writers[v], addr)
    requires Covered(file, data, writers, addr)
    ensures Covered(file, data, writers[v := w], addr)
  {
    var x :| 0 <= x < |writers| && Witness(file, data, writers[x], addr);
    assert Witness(file, data, writers[v := w][x], addr);
  }

  lemma StoredIsWhole(file: Bytes, data: Bytes, writers: seq<Writer>, addr: Addr)
    requires Covered(file, data, writers, addr)
    requires forall v :: 0 <= v < |writers| ==> writers[v].Stored?
    ensures file == data
  {
    var x :| 0 <= x < |writers| && Witness(file, data, writers[x], addr);
    assert file == file[..|data|] && data == data[..|data|];
  }

  // ---------------------------------------------------------------- any interleaving on one node

  datatype Move = Open(v: nat) | Write(v: nat, n: nat) | Close(v: nat)

  /** One node's file and its writers. */
  datatype Shared = Shared(file: Option<Bytes>, writers: seq<Writer>)

  predicate CanMove(s: Shared, addr: Addr, data: Bytes, m: Move) {
    && m.v < |s.writers|
    && match m
       case Open(v) => s.writers[v].Waiting?
       case Write(v, n) => s.writers[v].Writing? && s.writers[v].off + n <= |data| && s.file.Some?
       case Close(v) => s.writers[v].Writing? && s.writers[v].off == |data|
  }

  function Moved(s: Shared, addr: Addr, data: Bytes, m: Move): Shared
    requires CanMove(s, addr, data, m)
  {
    match m
    case Open(v) => Shared(Some([]), s.writers[v := Writing(addr, 0)])
    case Write(v, n) =>
      var off := s.writers[v].off;
      Shared(Some(WriteAt(s.file.value, off, data[off..off + n])), s.writers[v := Writing(addr, off + n)])
    case Close(v) => s.(writers := s.writers[v := Stored(addr)])
  }

  /** `end` is what the moves make of `start`. */
  ghost predicate Leads(start: Shared, addr: Addr, data: Bytes, moves: seq<Move>, end: Shared)
    decreases |moves|
  {
    if |moves| == 0 then start == end
    else CanMove(start, addr, data, moves[0]) && Leads(Moved(start, addr, data, moves[0]), addr, data, moves[1..], end)
  }

  ghost predicate SharedOk(s: Shared, addr: Addr, data: Bytes) {
    && (forall v :: 0 <= v < |s.writers| && (s.writers[v].Writing? || s.writers[v].Stored?) ==>
                      s.file.Some? && s.writers[v].addr == addr)
    && (forall v :: 0 <= v < |s.writers| && Opened(s.writers[v], addr) && s.file.Some? ==> Covered(s.file.value, data, s.writers, addr))
  }

  lemma MoveKeepsShared(s: Shared, addr: Addr, data: Bytes, m: Move)
    requires SharedOk(s, addr, data) && CanMove(s, addr, data, m)
    ensures SharedOk(Moved(s, addr, data, m), addr, data)
  {
    match m
    case Open(v) => OpenCovers(data, s.writers, v, addr);
    case Write(v, n) => WriteCovers(s.file.value, data, s.writers, v, n);
    case Close(v) => CloseCovers(s.file.value, data, s.writers, v, addr);
  }

  lemma {:induction false} MovesKeepShared(start: Shared, addr: Addr, data: Bytes, moves: seq<Move>, end: Shared)
    requires SharedOk(start, addr, data) && Leads(start, addr, data, moves, end)
    ensures SharedOk(end, addr, data) && |end.writers| == |start.writers|
    decreases |moves|
  {
    if |moves| > 0 {
      MoveKeepsShared(start, addr, data, moves[0]);
      MovesKeepShared(Moved(start, addr, data, moves[0]), addr, data, moves[1..], end);
    }
  }

  /**
   Convergence: any number of writers (at least one), any previous file, any interleaving of
   truncating opens and piecewise writes. Once all have closed, the file is exactly the data.
   */
  lemma WritersConverge(before: Option<Bytes>, n: nat, addr: Addr, data: Bytes, moves: seq<Move>, end: Shared)
    requires n > 0
    requires Leads(Shared(before, seq(n, _ => Waiting)), addr, data, moves, end)
    requires forall v :: 0 <= v < |end.writers| ==> end.writers[v].Stored?
    ensures end.file == Some(data)
  {
    MovesKeepShared(Shared(before, seq(n, _ => Waiting)), addr, data, moves, end);
    assert Opened(end.writers[0], addr);
    StoredIsWhole(end.file.value, data, end.writers, addr);
  }

  /**
   In between the file can have a hole: the first writer goes on behind the end of a file that the
   second has truncated, while both are at work.
   */
  lemma HoleInBetween(before: Option<Bytes>, addr: Addr, data: Bytes)
    requires |data| == 2
    ensures exists moves, end :: Leads(Shared(before, [Waiting, Waiting]), addr, data, moves, end)
                                 && end == Shared(Some([0, data[1]]), [Writing(addr, 2), Writing(addr, 0)])
  {
    var s0 := Shared(before, [Waiting, Waiting]);
    var s1 := Shared(Some([]), [Writing(addr, 0), Waiting]);
    var s2 := Shared(Some([data[0]]), [Writing(addr, 1), Waiting]);
    var s3 := Shared(Some([]), [Writing(addr, 1), Writing(addr, 0)]);
    var s4 := Shared(Some([0, data[1]]), [Writing(addr, 2), Writing(addr, 0)]);
    assert WriteAt([], 0, data[0..1]) == [data[0]] && WriteAt([], 1, data[1..2]) == [0, data[1]];
    assert Moved(s0, addr, data, Open(0)) == s1 && Moved(s1, addr, data, Write(0, 1)) == s2;
    assert Moved(s2, addr, data, Open(1)) == s3 && Moved(s3, addr, data, Write(0, 1)) == s4;
    var moves := [Open(0), Write(0, 1), Open(1), Write(0, 1)];
    assert moves[1..] == [Write(0, 1), Open(1), Write(0, 1)];
    assert moves[1..][1..] == [Open(1), Write(0, 1)];
    assert moves[1..][1..][1..] == [Write(0, 1)];
    assert Leads(s4, addr, data, [], s4);
    assert Leads(s3, addr, data, [Write(0, 1)], s4);
    assert Leads(s2, addr, data, [Open(1), Write(0, 1)], s4);
    assert Leads(s1, addr, data, [Write(0, 1), Open(1), Write(0, 1)], s4);
    assert Leads(s0, addr, data, moves, s4);
  }

  /** Waiting for all writers is needed: after one has closed, another may have emptied the file. */
  lemma OneClosedIsNotEnough(before: Option<Bytes>, addr: Addr, data: Bytes)
    requires data != []
    ensures exists moves, end :: Leads(Shared(before, [Waiting, Waiting]), addr, data, moves, end)
                                 && end.writers == [Stored(addr), Writing(addr, 0)] && end.file != Some(data)
  {
    var s0 := Shared(before, [Waiting, Waiting]);
    var s1 := Moved(s0, addr, data, Open(0));
    var s2 := Moved(s1, addr, data, Write(0, |data|));
    var s3 := Moved(s2, addr, data, Close(0));
    var s4 := Moved(s3, addr, data, Open(1));
    var moves := [Open(0), Write(0, |data|), Close(0), Open(1)];
    assert moves[1..] == [Write(0, |data|), Close(0), Open(1)];
    assert moves[1..][1..] == [Close(0), Open(1)];
    assert moves[1..][1..][1..] == [Open(1)];
    assert Leads(s4, addr, data, [], s4);
    assert Leads(s3, addr, data, [Open(1)], s4);
    assert Leads(s2, addr, data, [Close(0), Open(1)], s4);
    assert Leads(s1, addr, data, [Write(0, |data|), Close(0), Open(1)], s4);
    assert Leads(s0, addr, data, moves, s4);
  }
}
