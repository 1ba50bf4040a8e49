/** kernel/pipe.c: the ring buffer between readers and writers.  A method runs from one acquire, or return from
    sleep, of pi->lock to the next release or sleep; any interleaving of readers and writers is some sequence
    of such calls, and each keeps `Valid`. */
module Pipe {
  import opened Blocks
  import opened Naturals
  import Rings

  const PIPESIZE := 512
  /** The counters are unsigned 32-bit. */
  const WRAP := 0x1_0000_0000

  /** How a segment ends: the call returns, or sleeps on nread or nwrite. */
  datatype Outcome = Return(ret: int) | SleepOnRead | SleepOnWrite

  /** A 32-bit counter and its true value determine each other within a window shorter than 2 to the 32. */
  lemma CounterGap(r: nat, w: nat)
    requires r <= w <= r + PIPESIZE
    ensures (w % WRAP == r % WRAP <==> w == r) && (w % WRAP == (r % WRAP + PIPESIZE) % WRAP <==> w == r + PIPESIZE)
  {
  }

  /** Where a stay of pipewrite under the lock ends that starts at byte i0 of n with `room` bytes free: at the
      first byte it cannot write. */
  function Reach(readopen: bool, room: nat, i0: nat, n: nat, copied: nat, killedAt: nat): (i: nat)
    requires i0 <= n
    ensures i0 <= i <= n
  {
    if !readopen then i0 else Min(Min(n, i0 + room), Max(i0, Min(copied, killedAt)))
  }

  /** And how: a dead reader or a kill is seen before a full pipe, and that before a bad address. */
  function Ending(readopen: bool, room: nat, i0: nat, n: nat, copied: nat, killedAt: nat): (out: Outcome)
    requires i0 <= n
  {
    var i := Reach(readopen, room, i0, n, copied, killedAt);
    if i == n then Return(i) else if !readopen || i >= killedAt then Return(-1)
    else if i == i0 + room then SleepOnWrite else Return(i)
  }

  /** The loop stands at byte i with everything up to there written, and stops. */
  lemma StopsAt(readopen: bool, room: nat, i0: nat, n: nat, copied: nat, killedAt: nat, i: nat)
    requires i0 <= i <= n && (i > i0 ==> readopen && i <= killedAt && i <= copied && i <= i0 + room)
    requires i == n || !readopen || i >= killedAt || i == i0 + room || i >= copied
    ensures i == Reach(readopen, room, i0, n, copied, killedAt)
    ensures Ending(readopen, room, i0, n, copied, killedAt) ==
              if i == n then Return(i) else if !readopen || i >= killedAt then Return(-1)
              else if i == i0 + room then SleepOnWrite else Return(i)
  {
  }

  /** A writer that found the pipe empty puts something into it and leaves the readers asleep exactly if there
      is a reader and it is seen to be killed at a byte after the first and before the last, with nothing else
      in its way up to there. */
  lemma LeavesAsleep(readopen: bool, i0: nat, n: nat, copied: nat, killedAt: nat)
    requires i0 <= n
    ensures (Reach(readopen, PIPESIZE, i0, n, copied, killedAt) > i0 &&
             Ending(readopen, PIPESIZE, i0, n, copied, killedAt) == Return(-1))
       <==> readopen && i0 < killedAt < n && killedAt <= copied && killedAt - i0 <= PIPESIZE
  {
  }

  /** What stops a writer first: nothing, no reader, a full pipe, or an address that cannot be read. */
  lemma Reaches(readopen: bool, room: nat, i0: nat, n: nat, copied: nat, killedAt: nat)
    requires i0 <= n
    ensures var i, out := Reach(readopen, room, i0, n, copied, killedAt),
                          Ending(readopen, room, i0, n, copied, killedAt);
            && (readopen && i0 + room >= n && copied >= n && killedAt >= n ==> i == n && out == Return(n))
            && (!readopen && i0 < n ==> i == i0 && out == Return(-1))
            && (readopen && i0 + room < n && copied >= i0 + room && killedAt > i0 + room ==>
                  i == i0 + room && out == SleepOnWrite)
            && (readopen && i0 <= copied < n && copied < i0 + room && copied < killedAt ==>
                  i == copied && out == Return(copied))
  {
  }

  class PipeBuffer {
    var data: array<Byte>
    var nread: nat
    var nwrite: nat
    var readopen: bool
    var writeopen: bool
    /** Every byte ever written and ever read, in order. */
    ghost var written: seq<Byte>
    ghost var taken: seq<Byte>

    ghost predicate Valid()
      reads this, data
    {
      && data.Length == PIPESIZE
      && nread == |taken| % WRAP && nwrite == |written| % WRAP
      && |taken| <= |written| <= |taken| + PIPESIZE && taken == written[..|taken|]
      && forall k {:trigger written[k]} :: |taken| <= k < |written| ==> data[k % PIPESIZE] == written[k]
    }

    /** A reader has nothing to wait for. */
    ghost predicate Readable() reads this { |taken| < |written| || !writeopen }

    /** A writer has nothing to wait for. */
    ghost predicate Writable() reads this { |written| < |taken| + PIPESIZE || !readopen }

    constructor ()
      ensures Valid() && written == [] && readopen && writeopen && fresh(data)
    {
      data := new Byte[PIPESIZE];
      nread, nwrite, readopen, writeopen := 0, 0, true, true;
      written, taken := [], [];
    }

    /** The bytes that fit. */
    ghost function Room(): (n: int) reads this { |taken| + PIPESIZE - |written| }

    /** pipewrite of src from byte i0 on, as far as it gets: `copied` bytes of src can be read from user memory, and
        from byte `killedAt` on the process is seen to be killed.  The bytes it takes are appended in order.
        Readers are woken before the lock is let go, exactly unless it returns -1: so readers of an empty pipe
        that get something to do stay asleep exactly if the writer is killed on the way. */
    method WriteSegment(src: seq<Byte>, i0: nat, copied: nat, killedAt: nat)
      returns (i: nat, out: Outcome, wokeReaders: bool)
      requires Valid() && i0 <= |src|
      modifies this`nwrite, this`written, data
      ensures Valid() && i0 <= i <= |src| && written == old(written) + src[i0..i]
      ensures old(Room()) >= 0 && i == Reach(readopen, old(Room()), i0, |src|, copied, killedAt)
      ensures out == Ending(readopen, old(Room()), i0, |src|, copied, killedAt)
      ensures readopen && i0 + old(Room()) >= |src| && copied >= |src| && killedAt >= |src| ==>
                i == |src| && out == Return(|src|)
      ensures !readopen && i0 < |src| ==> i == i0 && out == Return(-1)
      ensures readopen && i0 + old(Room()) < |src| && copied >= i0 + old(Room()) && killedAt > i0 + old(Room()) ==>
                i == i0 + old(Room()) && out == SleepOnWrite
      ensures readopen && i0 <= copied < |src| && copied < i0 + old(Room()) && copied < killedAt ==>
                i == copied && out == Return(copied)
      ensures wokeReaders <==> out != Return(-1)
      ensures out == SleepOnWrite ==> !Writable()
      ensures !old(Readable()) ==>
                (Readable() && !wokeReaders <==>
                      readopen && i0 < killedAt < |src| && killedAt <= copied && killedAt - i0 <= PIPESIZE)
    {
      hide Reach, Ending;
      LeavesAsleep(readopen, i0, |src|, copied, killedAt);
      Reaches(readopen, Room(), i0, |src|, copied, killedAt);
      i, wokeReaders := i0, false;
      while i < |src|
        invariant i0 <= i <= |src| && Valid() && written == old(written) + src[i0..i]
        invariant i > i0 ==> readopen && i <= killedAt && i <= copied
        invariant |written| == |old(written)| + i - i0
      {
        CounterGap(|taken|, |written|);
        if !readopen || i >= killedAt {
          StopsAt(readopen, old(Room()), i0, |src|, copied, killedAt, i);
          return i, Return(-1), false;
        }
        if nwrite == (nread + PIPESIZE) % WRAP {
          StopsAt(readopen, old(Room()), i0, |src|, copied, killedAt, i);
          return i, SleepOnWrite, true;
        }
        if i >= copied {
          break;
        }
        Put(src[i]);
        i := i + 1;
      }
      StopsAt(readopen, old(Room()), i0, |src|, copied, killedAt, i);
      return i, Return(i), true;
    }

    method Put(ch: Byte)
      requires Valid() && |written| < |taken| + PIPESIZE
      modifies this`nwrite, this`written, data
      ensures Valid() && written == old(written) + [ch]
    {
      Rings.Wrapped(|written|, PIPESIZE, WRAP);
      forall k | |taken| <= k < |written| ensures k % PIPESIZE != |written| % PIPESIZE {
        Rings.SlotsApart(k, |written|, PIPESIZE);
      }
      data[nwrite % PIPESIZE] := ch;
      nwrite := (nwrite + 1) % WRAP;
      written := written + [ch];
    }

    /** piperead of at most n bytes, of which user memory takes `room`: the oldest bytes not yet read, in order, and as
        many as there are. */
    method ReadSegment(n: int, room: nat, killed: bool) returns (got: seq<Byte>, out: Outcome, wokeWriters: bool)
      requires Valid()
      modifies this`nread, this`taken
      ensures Valid() && taken == old(taken) + got && (got != [] ==> |got| <= n)
      ensures !old(Writable()) && Writable() ==> wokeWriters
      ensures match out
              case SleepOnRead => !Readable() && got == [] && !killed
              case SleepOnWrite => false
              case Return(ret) =>
                || (ret == |got| && (ret == n || n <= 0 || |taken| == |written| || |got| == room))
                || (ret == -1 && got == [] && ((killed && !Readable()) || room == 0))
      ensures out == Return(0) && n > 0 ==> !writeopen && |taken| == |written|
      ensures !old(Readable()) ==> got == [] && !wokeWriters && out == if killed then Return(-1) else SleepOnRead
      ensures old(Readable()) ==>
                wokeWriters && |got| == Min(Min(if n > 0 then n else 0, |written| - |old(taken)|), room)
      ensures old(Readable()) ==>
                out == Return(if n > 0 && room == 0 && |old(taken)| < |written| then -1 else |got|)
    {
      CounterGap(|taken|, |written|);
      got, wokeWriters := [], false;
      if nread == nwrite && writeopen {
        if killed {
          return got, Return(-1), false;
        }
        return got, SleepOnRead, false;
      }
      var ret;
      got, ret := Drain(n, room);
      return got, Return(ret), true;
    }

    /** The copying loop of piperead. */
    method Drain(n: int, room: nat) returns (got: seq<Byte>, i: int)
      requires Valid()
      modifies this`nread, this`taken
      ensures Valid() && taken == old(taken) + got && (got != [] ==> |got| <= n)
      ensures if i == -1 then n > 0 && got == [] && room == 0 && |taken| < |written| else i == |got|
      ensures i >= 0 ==> i >= n || |taken| == |written| || (i == room && i > 0)
      ensures |got| == Min(Min(if n > 0 then n else 0, |written| - |old(taken)|), room)
    {
      got, i := [], 0;
      while i < n
        invariant i == |got| <= room && (i > 0 ==> i <= n) && Valid() && taken == old(taken) + got
      {
        CounterGap(|taken|, |written|);
        if nread == nwrite {
          break;
        }
        if i >= room {
          if i == 0 {
            i := -1;
          }
          break;
        }
        var ch := Next();
        got := got + [ch];
        i := i + 1;
      }
    }

    method Next() returns (ch: Byte)
      requires Valid() && |taken| < |written|
      modifies this`nread, this`taken
      ensures Valid() && ch == written[|old(taken)|] && taken == old(taken) + [ch]
    {
      Rings.Wrapped(|taken|, PIPESIZE, WRAP);
      ch := data[nread % PIPESIZE];
      assert ch == written[|taken|];
      nread := (nread + 1) % WRAP;
      taken := taken + [ch];
    }

    /** pipeclose: the other side is woken. */
    method Close(writable: bool) returns (wokeReaders: bool, wokeWriters: bool, freed: bool)
      requires Valid()
      modifies this`readopen, this`writeopen
      ensures Valid() && readopen == (old(readopen) && writable) && writeopen == (old(writeopen) && !writable)
      ensures (!old(Readable()) && Readable() ==> wokeReaders) && (!old(Writable()) && Writable() ==> wokeWriters)
      ensures freed <==> !readopen && !writeopen
    {
      if writable {
        writeopen := false;
      } else {
        readopen := false;
      }
      return writable, !writable, !readopen && !writeopen;
    }
  }

  /** Two bytes to an empty pipe by a writer that is killed after the first: a reader asleep on the pipe is not
      woken for the byte that is there. */
  method KilledWriter() returns (pipe: PipeBuffer, wokeReaders: bool)
    ensures pipe.Valid() && pipe.writeopen && pipe.written == [7] && pipe.taken == [] && pipe.Readable() && !wokeReaders
  {
    pipe := new PipeBuffer();
    var i, out;
    i, out, wokeReaders := pipe.WriteSegment([7, 8], 0, 2, 1);
  }
}
