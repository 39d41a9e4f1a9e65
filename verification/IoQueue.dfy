/** The ring buffer of device/ioqueue.c and the pipe transfers of shell/pipe.c, for as long as they do
    not have to wait.  A queue of `BUFSIZE` slots holds at most `BUFSIZE - 1` bytes. */
module IoQueues {
  import opened Basics

  const BUFSIZE: nat := 2048

  function NextPos(pos: nat): (r: nat) {
    (pos + 1) % BUFSIZE
  }

  /** The bytes between `tail` and `head`, going round the end of the buffer. */
  ghost function Ring(b: seq<char>, tail: nat, head: nat): (s: seq<char>)
    requires |b| == BUFSIZE && tail < BUFSIZE && head < BUFSIZE
    ensures |s| == if tail <= head then head - tail else BUFSIZE - (tail - head)
  {
    if tail <= head then b[tail..head] else b[tail..] + b[..head]
  }

  lemma RingPut(b: seq<char>, tail: nat, head: nat, x: char)
    requires |b| == BUFSIZE && tail < BUFSIZE && head < BUFSIZE && NextPos(head) != tail
    ensures Ring(b[head := x], tail, NextPos(head)) == Ring(b, tail, head) + [x]
  {
    var c := b[head := x];
    if head + 1 == BUFSIZE {
      assert NextPos(head) == 0;
      assert c[tail..] == b[tail..head] + [x];
    } else {
      assert NextPos(head) == head + 1;
      assert c[..head + 1] == b[..head] + [x];
      assert tail > head ==> c[tail..] == b[tail..];
      assert tail <= head ==> c[tail..head + 1] == b[tail..head] + [x];
    }
  }

  lemma RingGet(b: seq<char>, tail: nat, head: nat)
    requires |b| == BUFSIZE && tail < BUFSIZE && head < BUFSIZE && head != tail
    ensures Ring(b, tail, head) == [b[tail]] + Ring(b, NextPos(tail), head)
  {
    if tail + 1 == BUFSIZE {
      assert NextPos(tail) == 0;
      assert b[tail..] == [b[tail]];
    } else {
      assert NextPos(tail) == tail + 1;
      assert b[tail..] == [b[tail]] + b[tail + 1..];
      assert [b[tail]] + b[tail + 1..] + b[..head] == [b[tail]] + (b[tail + 1..] + b[..head]);
      assert tail < head ==> b[tail..head] == [b[tail]] + b[tail + 1..head];
    }
  }

  class IoQueue {
    var buf: array<char>
    var head: nat        // where the next byte goes
    var tail: nat        // where the next byte comes from

    ghost predicate Valid()
      reads this
    {
      buf.Length == BUFSIZE && head < BUFSIZE && tail < BUFSIZE
    }

    /** The bytes in the queue, oldest first. */
    ghost function Contents(): (s: seq<char>)
      requires Valid()
      reads this, buf
    {
      Ring(buf[..], tail, head)
    }

    constructor ()
      ensures Valid() && Contents() == [] && fresh(buf)
    {
      buf := new char[BUFSIZE];
      head, tail := 0, 0;
    }

    predicate Full()
      requires Valid()
      reads this
    {
      NextPos(head) == tail
    }

    predicate Empty()
      requires Valid()
      reads this
    {
      head == tail
    }

    method Length() returns (n: nat)
      requires Valid()
      ensures n == |Contents()|
    {
      if head >= tail {
        n := head - tail;
      } else {
        n := BUFSIZE - (tail - head);
      }
    }

    /** The end of `ioq_putchar`, once the queue is not full. */
    method Put(byte: char)
      requires Valid() && !Full()
      modifies this`head, buf
      ensures Valid() && buf == old(buf) && Contents() == old(Contents()) + [byte]
    {
      RingPut(buf[..], tail, head, byte);
      hide Ring;
      ghost var b := buf[..];
      buf[head] := byte;
      assert buf[..] == b[head := byte];
      head := NextPos(head);
    }

    /** The end of `ioq_getchar`, once the queue is not empty. */
    method Get() returns (byte: char)
      requires Valid() && !Empty()
      modifies this`tail
      ensures Valid() && old(Contents()) == [byte] + Contents()
    {
      RingGet(buf[..], tail, head);
      byte := buf[tail];
      tail := NextPos(tail);
    }

    /** The tests of the code are tests on the sequence: empty is 0 bytes, full is 2047. */
    lemma Bounds()
      requires Valid()
      ensures Full() <==> |Contents()| == BUFSIZE - 1
      ensures Empty() <==> Contents() == []
      ensures |Contents()| <= BUFSIZE - 1
    {
    }

    /** `pipe_read` takes what is there, up to `count` bytes, and never finds the queue empty. */
    method PipeRead(count: nat) returns (bytes: seq<char>)
      requires Valid()
      modifies this`tail
      ensures Valid() && old(Contents()) == bytes + Contents()
      ensures |bytes| == if count < |old(Contents())| then count else |old(Contents())|
    {
      hide Ring;
      var len := Length();
      var size := if len > count then count else len;
      bytes := [];
      while |bytes| < size
        invariant Valid() && |bytes| <= size && old(Contents()) == bytes + Contents()
      {
        Bounds();
        var b := Get();
        bytes := bytes + [b];
      }
    }

    /** `pipe_write` takes its room to be `BUFSIZE` minus the length, one byte more than there is:
        it has to wait exactly when `count` bytes do not fit in the queue, and then after filling it. */
    method PipeWrite(bytes: seq<char>) returns (written: nat, waits: bool)
      requires Valid()
      modifies this`head, buf
      ensures Valid() && buf == old(buf) && written <= |bytes| && Contents() == old(Contents()) + bytes[..written]
      ensures waits <==> |bytes| > BUFSIZE - 1 - |old(Contents())|
      ensures written == if waits then BUFSIZE - 1 - |old(Contents())| else |bytes|
    {
      hide Ring;
      Bounds();
      var len := Length();
      var left := BUFSIZE - len;
      var size := if left > |bytes| then |bytes| else left;
      written := 0;
      while written < size
        invariant Valid() && buf == old(buf) && written <= size && Contents() == old(Contents()) + bytes[..written]
      {
        Bounds();
        if Full() {
          return written, true;
        }
        Put(bytes[written]);
        written := written + 1;
      }
      Bounds();
      return written, false;
    }
  }

  /** Into an empty queue `pipe_write` takes 2048 bytes for a size that fits, and waits after 2047. */
  method PipeWriteWaits() returns (q: IoQueue, bytes: seq<char>, written: nat, waits: bool)
    ensures q.Valid() && |bytes| == BUFSIZE && waits && written == BUFSIZE - 1 && q.Contents() == bytes[..written]
  {
    q := new IoQueue();
    bytes := seq(BUFSIZE, _ => 'x');
    written, waits := q.PipeWrite(bytes);
  }
}
