/**
  The chunked reader over one provider's `.idx` file. At most `WINDOW` records are in memory;
  a torn trailing record is dropped when the file is opened. Reads succeed.
*/
module SourceStreams {
  import opened Wrappers

  const WINDOW: nat := 4096

  datatype Rec<I> = Rec(ts: int, index: I)

  /** A file of fixed-size records with `torn` bytes of an interrupted last write. */
  datatype IdxFile<I> = IdxFile(recs: seq<Rec<I>>, torn: nat)

  class SourceStream<I> {
    const file: seq<Rec<I>>
    var pos: nat                 // records read from the file so far
    var buf: seq<Rec<I>>
    var cursor: nat
    var eof: bool

    predicate Valid()
      reads this
    {
      pos <= |file| && cursor <= |buf| <= WINDOW && (eof ==> pos == |file|)
    }

    /** The records not yet popped. */
    function Remaining(): seq<Rec<I>>
      requires Valid()
      reads this
    {
      buf[cursor..] + file[pos..]
    }

    constructor (f: IdxFile<I>)
      ensures Valid() && Remaining() == f.recs
    {
      file := f.recs;
      pos, buf, cursor, eof := 0, [], 0, false;
      new;
      Refill();
    }

    /** Reads the next window. Only called with the buffer used up. */
    method Refill()
      requires Valid() && cursor == |buf|
      modifies this
      ensures Valid() && Remaining() == old(Remaining())
      ensures !old(eof) && buf == [] ==> eof
      ensures old(eof) ==> buf == old(buf) && cursor == old(cursor)
      ensures !old(eof) ==> cursor == 0
    {
      if eof {
        return;
      }
      var filled := Min(WINDOW, |file| - pos);
      if filled == 0 {
        eof := true;
        buf := [];
        cursor := 0;
        return;
      }
      buf := file[pos..pos + filled];
      cursor := 0;
      pos := pos + filled;
      if filled < WINDOW {
        eof := true;
      }
    }

    /** The timestamp of the next record, without consuming it. */
    method PeekTs() returns (ts: Option<int>)
      requires Valid()
      modifies this
      ensures Valid() && Remaining() == old(Remaining())
      ensures ts == if Remaining() == [] then None else Some(Remaining()[0].ts)
    {
      if cursor >= |buf| {
        if eof {
          return None;
        }
        Refill();
        if buf == [] {
          return None;
        }
      }
      ts := Some(buf[cursor].ts);
    }

    /** Consumes the next record. */
    method Pop() returns (r: Option<Rec<I>>)
      requires Valid()
      modifies this
      ensures Valid()
      ensures old(Remaining()) == [] ==> r == None && Remaining() == []
      ensures old(Remaining()) != [] ==> r == Some(old(Remaining())[0]) && Remaining() == old(Remaining())[1..]
    {
      if cursor >= |buf| {
        if eof {
          return None;
        }
        Refill();
        if buf == [] {
          return None;
        }
      }
      r := Some(buf[cursor]);
      cursor := cursor + 1;
    }
  }

  /** Moves the next record, if any, to the end of `out`. */
  method DrainOne<I>(s: SourceStream<I>, out: seq<Rec<I>>) returns (more: bool, out': seq<Rec<I>>)
    requires s.Valid()
    modifies s
    ensures s.Valid() && out' + s.Remaining() == out + old(s.Remaining())
    ensures more ==> |s.Remaining()| < |old(s.Remaining())|
    ensures !more ==> s.Remaining() == []
  {
    ghost var before := s.Remaining();
    var r := s.Pop();
    more, out' := r.Some?, out;
    if more {
      out' := out + [r.value];
      assert before == [r.value] + before[1..];
    }
  }

  /** Reads a whole file through the windows: exactly its aligned records, in order. */
  method Drain<I>(f: IdxFile<I>) returns (out: seq<Rec<I>>)
    ensures out == f.recs
  {
    var s := new SourceStream(f);
    out := [];
    var more := true;
    while more
      invariant s.Valid() && fresh(s) && out + s.Remaining() == f.recs
      invariant !more ==> s.Remaining() == []
      decreases |s.Remaining()|, more
    {
      more, out := DrainOne(s, out);
    }
  }
}
