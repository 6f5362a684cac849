/** Buffered socket input and output of sock.c, over every behaviour of recv and send. */
module Sockets {
  import opened Basics
  import opened RingQueue

  /** What one recv call finds: bytes, nothing yet, end of file, a reset connection or another error. */
  datatype Recv = Chunk(bytes: seq<Byte>) | RecvWouldBlock | RecvEof | RecvReset | RecvError

  /** What one send call does: take up to n bytes, be interrupted, would block, or fail. */
  datatype Send = Sent(n: nat) | SendInterrupted | SendWouldBlock | SendError

  datatype Event = Readable | Writable | Exception

  /** How a call ends; a blocking call the peer never answers does not return. */
  datatype Outcome = Returned(rc: int) | StillWaiting

  const LF: Byte := 10
  const CR: Byte := 13
  const SOCKET_BUFSIZ: nat := 1024

  /** Every byte the peer has yet to deliver. */
  ghost function Stream(recvs: seq<Recv>): (s: seq<Byte>)
  {
    if recvs == [] then [] else
    (match recvs[0] case Chunk(b) => b case _ => []) + Stream(recvs[1..])
  }

  /** The bytes one recv with `room` bytes of space gets. */
  function Delivered(r: Recv, room: nat): (s: seq<Byte>)
    ensures |s| <= room
  {
    if r.Chunk? then r.bytes[..Min(|r.bytes|, room)] else []
  }

  /** What is still to come after that recv. */
  function Undelivered(recvs: seq<Recv>, room: nat): (rest: seq<Recv>)
    requires recvs != []
  {
    match recvs[0]
    case Chunk(b) => if |b| <= room then recvs[1..] else [Chunk(b[room..])] + recvs[1..]
    case _ => recvs[1..]
  }

  lemma {:induction false} DeliverConserves(recvs: seq<Recv>, room: nat)
    requires recvs != []
    ensures Delivered(recvs[0], room) + Stream(Undelivered(recvs, room)) == Stream(recvs)
  {
    if recvs[0].Chunk? {
      var b, later := recvs[0].bytes, Stream(recvs[1..]);
      if |b| <= room {
        assert b[..|b|] == b;
      } else {
        var rest := [Chunk(b[room..])] + recvs[1..];
        assert rest[1..] == recvs[1..];
        assert Stream(rest) == b[room..] + later;
        assert b[..room] + (b[room..] + later) == b + later;
      }
    }
  }

  /** A recv that gives 0: the peer has closed, or reset. */
  predicate Closes(r: Recv)
  {
    r.RecvEof? || r.RecvReset? || (r.Chunk? && r.bytes == [])
  }

  /** Equal, or two chunks with bytes: a chunk may be taken in parts. */
  ghost predicate SameKind(r: Recv, t: Recv)
  {
    r == t || (r.Chunk? && t.Chunk? && !Closes(r) && !Closes(t))
  }

  /** What is left of a script after some recvs. */
  ghost predicate Remains(script: seq<Recv>, recvs: seq<Recv>)
  {
    && |recvs| <= |script|
    && (recvs != [] ==>
          var k := |script| - |recvs|;
          recvs[1..] == script[k + 1..] && SameKind(recvs[0], script[k]))
  }

  /** The last event of the script that is used up. */
  ghost function LastEvent(script: seq<Recv>, recvs: seq<Recv>): (r: Recv)
    requires |recvs| < |script|
  {
    script[|script| - |recvs| - 1]
  }

  /** What a recv's answer says about the event. */
  ghost predicate Tells(r: Recv, len: int, wouldBlock: bool)
  {
    && (len == 0 <==> Closes(r)) && (len < 0 <==> r.RecvWouldBlock? || r.RecvError?)
    && (wouldBlock <==> r.RecvWouldBlock?)
  }

  lemma RemainsTrans(a: seq<Recv>, b: seq<Recv>, c: seq<Recv>)
    requires Remains(a, b) && Remains(b, c)
    ensures Remains(a, c)
    ensures |c| < |b| ==> SameKind(LastEvent(a, c), LastEvent(b, c))
  {
    if b != [] {
      var k, m := |a| - |b|, |b| - |c|;
      assert forall i :: 1 <= i < |b| ==> b[i] == b[1..][i - 1] == a[k + 1..][i - 1] == a[k + i];
      if c != [] && m > 0 {
        assert b[m + 1..] == a[k + m + 1..];
      }
    }
  }

  lemma RemainsNext(recvs: seq<Recv>, room: nat)
    requires recvs != [] && room > 0
    ensures Remains(recvs, Undelivered(recvs, room))
  {
  }

  /** Why a read on an open connection that has `have` bytes ended as it did. */
  ghost predicate ReadEnds(script: seq<Recv>, recvs: seq<Recv>, blocking: bool, have: nat, short: bool, out: Outcome, eof: bool)
  {
    && (out == Returned(-1) ==> Used(script, recvs) && LastEvent(script, recvs).RecvError?)
    && (eof <==> short && have == 0 && out == Returned(0) && Used(script, recvs) && Closes(LastEvent(script, recvs)))
    && (short && out.Returned? && out.rc >= 0 ==>
          || (blocking && have > 0)
          || (!blocking && recvs == [])
          || (Used(script, recvs) && Closes(LastEvent(script, recvs)))
          || (!blocking && Used(script, recvs) && LastEvent(script, recvs).RecvWouldBlock?))
  }

  lemma ReadEndsTrans(script: seq<Recv>, before: seq<Recv>, recvs: seq<Recv>, blocking: bool, have: nat, out: Outcome, eof: bool)
    requires Remains(script, before) && Remains(before, recvs) && (have == 0 && !blocking ==> before == script)
    requires ReadEnds(before, recvs, blocking, have, true, out, eof)
    ensures ReadEnds(script, recvs, blocking, have, true, out, eof)
  {
    RemainsTrans(script, before, recvs);
  }

  /** Nothing is left, or the last event gave no byte and was no close. */
  ghost predicate Stalled(script: seq<Recv>, recvs: seq<Recv>)
  {
    recvs == [] || (Used(script, recvs) && (LastEvent(script, recvs).RecvWouldBlock? || LastEvent(script, recvs).RecvError?))
  }

  ghost predicate Used(script: seq<Recv>, recvs: seq<Recv>)
  {
    |recvs| < |script|
  }

  /** The peer closes at the end of the script and not before. */
  ghost predicate EndsCleanly(recvs: seq<Recv>)
  {
    recvs != [] && if |recvs| == 1 then Closes(recvs[0]) else !Closes(recvs[0]) && EndsCleanly(recvs[1..])
  }

  ghost predicate Clean(eof: bool, recvs: seq<Recv>)
  {
    if eof then recvs == [] else EndsCleanly(recvs)
  }

  lemma CleanNext(recvs: seq<Recv>, room: nat)
    requires EndsCleanly(recvs) && room > 0
    ensures Clean(Closes(recvs[0]), Undelivered(recvs, room))
  {
    var rest := Undelivered(recvs, room);
    if |rest| == |recvs| && |rest| > 1 {
      assert rest[1..] == recvs[1..];
    }
  }

  // ----- Lines -----

  datatype Split = Split(lines: seq<seq<Byte>>, partial: seq<Byte>)

  /** Cut a stream at each LF, dropping every CR; the rest after the last LF is the partial line. */
  ghost function SplitStream(s: seq<Byte>): (r: Split)
  {
    if s == [] then Split([], []) else
      var p := SplitStream(s[..|s| - 1]);
      var c := s[|s| - 1];
      if c == LF then Split(p.lines + [p.partial], [])
      else if c == CR then p
      else Split(p.lines, p.partial + [c])
  }

  lemma SplitStep(s: seq<Byte>, c: Byte)
    ensures SplitStream(s + [c]) ==
            if c == LF then Split(SplitStream(s).lines + [SplitStream(s).partial], [])
            else if c == CR then SplitStream(s)
            else Split(SplitStream(s).lines, SplitStream(s).partial + [c])
  {
    assert (s + [c])[..|s|] == s;
  }

  ghost function WithoutCr(s: seq<Byte>): (r: seq<Byte>)
  {
    if s == [] then [] else WithoutCr(s[..|s| - 1]) + (if s[|s| - 1] == CR then [] else [s[|s| - 1]])
  }

  ghost function Joined(lines: seq<seq<Byte>>): (r: seq<Byte>)
  {
    if lines == [] then [] else Joined(lines[..|lines| - 1]) + lines[|lines| - 1] + [LF]
  }

  ghost predicate Plain(line: seq<Byte>)
  {
    LF !in line && CR !in line
  }

  ghost predicate PlainAt(lines: seq<seq<Byte>>, i: nat)
    requires i < |lines|
  {
    Plain(lines[i])
  }

  lemma JoinedMore(lines: seq<seq<Byte>>, line: seq<Byte>)
    ensures Joined(lines + [line]) == Joined(lines) + line + [LF]
  {
    assert (lines + [line])[..|lines|] == lines;
  }

  /** Joining the lines back gives the stream without its CRs. */
  lemma {:induction false} SplitRejoins(s: seq<Byte>)
    ensures Joined(SplitStream(s).lines) + SplitStream(s).partial == WithoutCr(s)
  {
    if s != [] {
      var t, c := s[..|s| - 1], s[|s| - 1];
      SplitRejoins(t);
      var p := SplitStream(t);
      if c == LF {
        JoinedMore(p.lines, p.partial);
        assert Joined(p.lines) + p.partial + [LF] + [] == WithoutCr(t) + [LF];
      } else if c != CR {
        Regroup(Joined(p.lines), p.partial, [c]);
      }
    }
  }

  /** No line of a split holds a LF or CR. */
  lemma {:induction false} SplitIsPlain(s: seq<Byte>)
    ensures Plain(SplitStream(s).partial)
    ensures forall i :: 0 <= i < |SplitStream(s).lines| ==> PlainAt(SplitStream(s).lines, i)
  {
    if s != [] {
      SplitIsPlain(s[..|s| - 1]);
      var p, r := SplitStream(s[..|s| - 1]), SplitStream(s);
      forall i | 0 <= i < |r.lines|
        ensures PlainAt(r.lines, i)
      {
        assert i < |p.lines| ==> PlainAt(p.lines, i);
      }
    }
  }

  lemma FewerPlain(lines: seq<seq<Byte>>)
    requires lines != [] && forall i :: 0 <= i < |lines| ==> PlainAt(lines, i)
    ensures var init := lines[..|lines| - 1]; forall i :: 0 <= i < |init| ==> PlainAt(init, i)
  {
    var init := lines[..|lines| - 1];
    forall i | 0 <= i < |init|
      ensures PlainAt(init, i)
    {
      assert PlainAt(lines, i);
    }
  }

  /** There is only one way to cut a stream into LF-free lines and a LF-free rest. */
  lemma {:induction false} SplitUnique(a: Split, b: Split)
    requires Joined(a.lines) + a.partial == Joined(b.lines) + b.partial
    requires Plain(a.partial) && Plain(b.partial)
    requires forall i :: 0 <= i < |a.lines| ==> PlainAt(a.lines, i)
    requires forall i :: 0 <= i < |b.lines| ==> PlainAt(b.lines, i)
    ensures a == b
    decreases |a.lines| + |b.lines|
  {
    LastLf(a, b);
    LastLf(b, a);
    assert a.partial == b.partial;
    assert Joined(a.lines) == Joined(b.lines) by {
      var whole := Joined(a.lines) + a.partial;
      assert Joined(a.lines) == whole[..|whole| - |a.partial|];
      assert Joined(b.lines) == whole[..|whole| - |b.partial|];
    }
    if a.lines != [] && b.lines != [] {
      var n, m := |a.lines| - 1, |b.lines| - 1;
      var ja, jb := Joined(a.lines), Joined(b.lines);
      assert ja[..|ja| - 1] == Joined(a.lines[..n]) + a.lines[n];
      assert jb[..|jb| - 1] == Joined(b.lines[..m]) + b.lines[m];
      assert PlainAt(a.lines, n) && PlainAt(b.lines, m);
      FewerPlain(a.lines);
      FewerPlain(b.lines);
      SplitUnique(Split(a.lines[..n], a.lines[n]), Split(b.lines[..m], b.lines[m]));
      assert a.lines == a.lines[..n] + [a.lines[n]] && b.lines == b.lines[..m] + [b.lines[m]];
    }
  }

  /** The rest cannot reach back over the other cut's last LF. */
  lemma LastLf(a: Split, b: Split)
    requires Joined(a.lines) + a.partial == Joined(b.lines) + b.partial
    requires Plain(a.partial)
    ensures |a.partial| <= |b.partial|
    ensures |a.partial| == |b.partial| ==> a.partial == b.partial
  {
    var whole := Joined(a.lines) + a.partial;
    var jb := |Joined(b.lines)|;
    assert b.lines != [] ==> Joined(b.lines)[jb - 1] == LF && whole[jb - 1] == LF;
    assert forall k :: |Joined(a.lines)| <= k < |whole| ==> whole[k] == a.partial[k - |Joined(a.lines)|];
    if |a.partial| == |b.partial| {
      assert a.partial == whole[|whole| - |a.partial|..];
      assert b.partial == whole[|whole| - |b.partial|..];
    }
  }

  /** The lines of a stream that has ended: a rest without a LF counts as a line. */
  ghost function AllLines(s: seq<Byte>): (r: seq<seq<Byte>>)
  {
    var p := SplitStream(s);
    if p.partial == [] then p.lines else p.lines + [p.partial]
  }

  /** Moving a prefix of a queue to what is behind it keeps both together. */
  lemma SentAndQueued(sent: seq<Byte>, queued: seq<Byte>, n: nat)
    requires n <= |queued|
    ensures (sent + queued[..n]) + queued[n..] == sent + queued
    ensures n == 0 ==> sent + queued[..n] == sent
  {
    assert queued == queued[..n] + queued[n..];
  }

  /** A send that takes nothing now. */
  predicate Blocks(s: Send)
  {
    s.SendWouldBlock? || s == Sent(0)
  }

  ghost predicate Suffix(script: seq<Send>, sends: seq<Send>)
  {
    |sends| <= |script| && sends == script[|script| - |sends|..]
  }

  lemma SuffixTrans(a: seq<Send>, b: seq<Send>, c: seq<Send>)
    requires Suffix(a, b) && Suffix(b, c)
    ensures Suffix(a, c)
    ensures SendFailed(b, c) ==> SendFailed(a, c)
    ensures SendBlocked(b, c) ==> SendBlocked(a, c)
  {
  }

  /** The last send used up failed. */
  ghost predicate SendFailed(script: seq<Send>, sends: seq<Send>)
  {
    |sends| < |script| && script[|script| - |sends| - 1].SendError?
  }

  /** The last send used up took nothing, or no answer is left. */
  ghost predicate SendBlocked(script: seq<Send>, sends: seq<Send>)
  {
    sends == [] || (|sends| < |script| && Blocks(script[|script| - |sends| - 1]))
  }

  ghost predicate SendEnds(script: seq<Send>, sends: seq<Send>, blocking: bool, queued: seq<Byte>, out: Outcome)
  {
    match out
    case StillWaiting => blocking && sends == []
    case Returned(rc) =>
      if rc < 0 then rc == -1 && SendFailed(script, sends) else rc == 0 && (queued == [] || SendBlocked(script, sends))
  }

  /** Bytes arrive in a buffer. */
  method CopyAt(buf: array<Byte>, at: nat, bytes: seq<Byte>)
    requires at + |bytes| <= buf.Length
    modifies buf
    ensures buf[at..at + |bytes|] == bytes
  {
    forall i | 0 <= i < |bytes| {
      buf[at + i] := bytes[i];
    }
  }

  // ----- The socket -----

  class Socket {
    const inBuf: RingQ
    const lineBuf: RingQ
    const outBuf: RingQ
    const blocking: bool
    var eof: bool
    var flushing: bool
    var handlerMask: set<Event>
    var saveMask: Option<set<Event>>   // the user's mask while a background flush runs
    var recvs: seq<Recv>      // what the peer will deliver
    var sends: seq<Send>      // how the network will take output

    ghost var received: seq<Byte>        // bytes recv has delivered
    ghost var taken: seq<Byte>           // bytes Read has handed out
    ghost var fed: seq<Byte>             // bytes Gets has looked at
    ghost var lines: seq<seq<Byte>>      // lines Gets has returned
    ghost var tailGiven: bool            // the unfinished last line has been returned
    ghost var sent: seq<Byte>            // bytes handed to send

    ghost predicate Apart()
      reads this, inBuf, lineBuf, outBuf
    {
      && inBuf != lineBuf && inBuf != outBuf && lineBuf != outBuf
      && inBuf.buf != lineBuf.buf && inBuf.buf != outBuf.buf && lineBuf.buf != outBuf.buf
    }

    /** The raw input buffer is emptied before each recv, so its unread bytes never wrap. */
    ghost predicate ValidIn()
      reads this, inBuf, inBuf.buf, lineBuf, outBuf
    {
      && Apart() && inBuf.Valid() && inBuf.servp <= inBuf.endp
      && received == taken + inBuf.Contents()
      && (eof ==> inBuf.Contents() == [])
    }

    /** The line buffer is only appended to and emptied, so it starts at its first slot. */
    ghost predicate LineState()
      reads this, lineBuf, lineBuf.buf
    {
      && lineBuf.Valid() && lineBuf.servp == 0
      && lineBuf.grants == [] && lineBuf.maxsize < 0
      && (!tailGiven ==> SplitStream(fed) == Split(lines, lineBuf.Contents()))
      && (tailGiven ==> eof && lines == AllLines(fed) && lineBuf.Contents() == [])
    }

    ghost predicate ValidLines()
      reads this, inBuf, inBuf.buf, lineBuf, lineBuf.buf, outBuf
    {
      ValidIn() && LineState()
    }

    constructor (blocking: bool, recvs: seq<Recv>, sends: seq<Send>)
      ensures ValidLines() && ValidOut()
      ensures this.recvs == recvs && this.sends == sends && this.blocking == blocking && !eof
      ensures received == [] && taken == [] && fed == [] && lines == [] && sent == []
      ensures outBuf.Contents() == [] && inBuf.AtLimit() && outBuf.AtLimit()
      ensures fresh(inBuf) && fresh(lineBuf) && fresh(outBuf)
      ensures fresh(inBuf.buf) && fresh(lineBuf.buf) && fresh(outBuf.buf)
    {
      var i := new RingQ.Open(SOCKET_BUFSIZ, SOCKET_BUFSIZ, []);
      var o := new RingQ.Open(SOCKET_BUFSIZ + 1, SOCKET_BUFSIZ + 1, []);
      var l := new RingQ.Open(SOCKET_BUFSIZ, -1, []);
      inBuf, outBuf, lineBuf := i, o, l;
      this.blocking, this.recvs, this.sends := blocking, recvs, sends;
      eof, flushing, handlerMask, saveMask := false, false, {}, None;
      received, taken, fed, lines, tailGiven, sent := [], [], [], [], false, [];
    }

    ghost predicate ValidOut()
      reads this, outBuf
    {
      && outBuf.Valid()
      && (saveMask.Some? ==> handlerMask == saveMask.value + {Writable})
    }

    /** The events the user asked for, whether or not a background flush has widened them. */
    ghost function UserMask(): (m: set<Event>)
      reads this
    {
      if saveMask.Some? then saveMask.value else handlerMask
    }

    /** One recv into the empty input buffer, straight to its end pointer. */
    method GetInput(room: nat) returns (len: int, wouldBlock: bool)
      requires inBuf.Valid() && inBuf.servp == inBuf.endp && recvs != []
      requires 0 < room <= inBuf.PutBlkMax()
      modifies this`recvs, this`received, inBuf.buf
      ensures -1 <= len <= room && Tells(old(recvs)[0], len, wouldBlock)
      ensures len > 0 ==> received == old(received) + inBuf.buf[inBuf.endp..inBuf.endp + len]
      ensures len <= 0 ==> received == old(received)
      ensures recvs == Undelivered(old(recvs), room)
      ensures received + Stream(recvs) == old(received + Stream(recvs))
    {
      var bytes := Delivered(recvs[0], room);
      DeliverConserves(recvs, room);
      len := match recvs[0]
        case Chunk(b) => |bytes|
        case RecvWouldBlock => -1
        case RecvEof => 0
        case RecvReset => 0
        case RecvError => -1;
      wouldBlock := recvs[0].RecvWouldBlock?;
      CopyAt(inBuf.buf, inBuf.endp, bytes);
      Regroup(received, bytes, Stream(Undelivered(recvs, room)));
      received := received + bytes;
      recvs := Undelivered(recvs, room);
    }

    /** Empty the input buffer's pointers, then receive into all of its room. */
    method Fill() returns (len: int, wouldBlock: bool)
      requires ValidIn() && inBuf.Contents() == [] && recvs != [] && !eof
      modifies this`recvs, this`received, inBuf, inBuf.buf
      ensures ValidIn() && inBuf.buf == old(inBuf.buf)
      ensures len >= -1 && Tells(old(recvs)[0], len, wouldBlock)
      ensures if len > 0 then |inBuf.Contents()| == len else inBuf.Contents() == [] && recvs == old(recvs)[1..]
      ensures Remains(old(recvs), recvs)
      ensures old(EndsCleanly(recvs)) ==> Clean(len == 0, recvs)
      ensures received + Stream(recvs) == old(received + Stream(recvs))
    {
      assert received == taken;
      inBuf.Flush();
      var room := inBuf.PutBlkMax();
      RemainsNext(recvs, room);
      if EndsCleanly(recvs) { CleanNext(recvs, room); }
      len, wouldBlock := GetInput(room);
      if len > 0 {
        ghost var chunk := inBuf.buf[inBuf.endp..inBuf.endp + len];
        inBuf.PutBlkAdj(len);
        assert inBuf.Contents() == chunk;
      }
    }

    /** Copy bytes out from servp in one straight run. */
    method TakeStraight(len: nat) returns (chunk: seq<Byte>)
      requires ValidIn() && len <= |inBuf.Contents()|
      modifies this`taken, inBuf, inBuf.buf
      ensures ValidIn() && inBuf.buf == old(inBuf.buf)
      ensures |chunk| == len && taken == old(taken) + chunk
    {
      chunk := inBuf.Front(len);
      SentAndQueued(taken, inBuf.Contents(), len);
      taken := taken + chunk;
      inBuf.GetBlkAdj(len);
    }

    /** Wait for input when there is none buffered; stop the read, or go on with it. */
    method Await(have: nat) returns (go: bool, out: Outcome)
      requires ValidIn() && inBuf.Contents() == [] && !eof
      modifies this`eof, this`recvs, this`received, inBuf, inBuf.buf
      ensures ValidIn() && inBuf.buf == old(inBuf.buf)
      ensures received + Stream(recvs) == old(received + Stream(recvs)) && Remains(old(recvs), recvs)
      ensures have == 0 && old(EndsCleanly(recvs)) ==> Clean(eof, recvs)
      ensures go ==> !eof && (inBuf.Contents() != [] || (blocking && have == 0 && |recvs| < old(|recvs|)))
      ensures !go ==> inBuf.Contents() == [] && ReadEnds(old(recvs), recvs, blocking, have, true, out, eof)
      ensures out.StillWaiting? && !go ==> blocking && recvs == [] && have == 0 && !eof
      ensures out.Returned? ==> out.rc == -1 || out.rc == have
    {
      go, out := false, Returned(have);
      if blocking && have > 0 {
        return;
      }
      if recvs == [] {
        if blocking {
          out := StillWaiting;
        }
        return;
      }
      var len, wouldBlock := Fill();
      if len < 0 {
        if wouldBlock {
          go := blocking && have == 0;
          return;
        }
        out := Returned(-1);
      } else if len == 0 {
        if have == 0 {
          eof := true;
        }
      } else {
        go := true;
      }
    }

    /**
     * Read up to bufsize bytes. A short answer means that the input buffer is empty and that a
     * blocking call had something to return, or the last event was would-block or a close, or
     * nothing more is in the script; -1 means that the last event was an error.
     */
    method Read(bufsize: nat) returns (out: Outcome, data: seq<Byte>)
      requires ValidIn()
      modifies this`eof, this`recvs, this`received, this`taken, inBuf, inBuf.buf
      ensures ValidIn() && inBuf.buf == old(inBuf.buf)
      ensures |data| <= bufsize && taken == old(taken) + data
      ensures received + Stream(recvs) == old(received + Stream(recvs))
      ensures Remains(old(recvs), recvs) && (bufsize == 1 && old(Clean(eof, recvs)) ==> Clean(eof, recvs))
      ensures out.Returned? ==> if out.rc < 0 then out.rc == -1 && |data| < bufsize else out.rc == |data|
      ensures out.StillWaiting? ==> blocking && recvs == [] && data == [] && !eof
      ensures old(eof) ==> out == Returned(0) && data == [] && eof && recvs == old(recvs)
      ensures !old(eof) ==> ReadEnds(old(recvs), recvs, blocking, |data|, |data| < bufsize, out, eof)
      ensures !old(eof) && |data| < bufsize ==> inBuf.Contents() == []
    {
      data := [];
      if eof {
        return Returned(0), [];
      }
      var left: nat := bufsize;
      ghost var was, total, script := taken, received + Stream(recvs), recvs;
      ghost var clean := bufsize == 1 && EndsCleanly(recvs);
      while left > 0
        invariant ValidIn() && inBuf.buf == old(inBuf.buf) && !eof
        invariant |data| + left == bufsize && taken == was + data
        invariant received + Stream(recvs) == total
        invariant Remains(script, recvs) && (clean ==> EndsCleanly(recvs))
        invariant data == [] && !blocking && inBuf.Contents() == [] ==> recvs == script
        decreases left, |recvs|, if inBuf.Contents() == [] then 1 else 0
      {
        var len := Min(inBuf.Len(), left);
        if len <= 0 {
          ghost var before := recvs;
          var go;
          go, out := Await(|data|);
          RemainsTrans(script, before, recvs);
          if !go {
            ReadEndsTrans(script, before, recvs, blocking, |data|, out, eof);
            return;
          }
        } else {
          var chunk := TakeStraight(len);
          Regroup(was, data, chunk);
          data := data + chunk;
          left := left - len;
        }
      }
      out := Returned(|data|);
    }

    /** Copy the line buffer out in one straight run and empty it. */
    method EndLine() returns (line: seq<Byte>)
      requires lineBuf.Valid() && lineBuf.servp == 0
      modifies lineBuf, lineBuf.buf
      ensures lineBuf.Valid() && lineBuf.servp == 0 && lineBuf.buf == old(lineBuf.buf)
      ensures lineBuf.maxsize == old(lineBuf.maxsize) && lineBuf.grants == old(lineBuf.grants)
      ensures line == old(lineBuf.Contents()) && lineBuf.Contents() == []
    {
      var len := lineBuf.Len();
      RingStraight(lineBuf.buf[..], 0, lineBuf.endp, len);
      line := lineBuf.buf[lineBuf.servp..lineBuf.servp + len];
      lineBuf.Flush();
    }

    /** Act on one byte: LF ends the line, CR is eaten, anything else joins the line. */
    method Absorb(c: Byte, tail: bool) returns (done: bool, line: seq<Byte>)
      requires LineState()
      requires if tail then c == LF && eof && lineBuf.Contents() != [] else !tailGiven
      modifies this`fed, this`lines, this`tailGiven, lineBuf, lineBuf.buf
      ensures LineState() && (lineBuf.buf == old(lineBuf.buf) || fresh(lineBuf.buf))
      ensures fed == (if tail then old(fed) else old(fed) + [c]) && tailGiven == (tail || old(tailGiven))
      ensures done <==> c == LF
      ensures lines == if done then old(lines) + [line] else old(lines)
    {
      done, line := false, [];
      ghost var partial := lineBuf.Contents();
      if tail {
        assert AllLines(fed) == lines + [partial];
        tailGiven := true;
      } else {
        SplitStep(fed, c);
        fed := fed + [c];
      }
      if c == LF {
        line := EndLine();
        lines := lines + [line];
        done := true;
      } else if c != CR {
        var rc := lineBuf.Putc(c);
        assert lineBuf.Contents() == partial + [c];
      }
    }

    /** Read one byte; at end of file an unfinished line is closed by a LF that was never received. */
    method NextByte() returns (got: bool, out: Outcome, c: Byte, tail: bool)
      requires ValidLines()
      modifies this`eof, this`recvs, this`received, this`taken, inBuf, inBuf.buf
      ensures ValidLines() && inBuf.buf == old(inBuf.buf)
      ensures received + Stream(recvs) == old(received + Stream(recvs))
      ensures Remains(old(recvs), recvs) && (old(Clean(eof, recvs)) ==> Clean(eof, recvs)) && (old(eof) ==> eof)
      ensures got && !tail ==> taken == old(taken) + [c] && !tailGiven
      ensures got && tail ==> taken == old(taken) && c == LF && eof && lineBuf.Contents() != [] && !tailGiven
      ensures !got ==> taken == old(taken)
      ensures !got && out.Returned? ==> out.rc == -1 && (eof ==> lines == AllLines(fed))
      ensures !got && out.Returned? && !eof ==> Stalled(old(recvs), recvs)
      ensures !got && out.StillWaiting? ==> blocking && recvs == [] && !eof
    {
      var data;
      out, data := Read(1);
      got, c, tail := false, LF, false;
      if out.StillWaiting? || out.rc < 0 {
        return;
      }
      if out.rc == 0 {
        if lineBuf.Len() > 0 && eof {
          got, tail := true, true;
        } else {
          out := Returned(-1);
        }
      } else {
        got, c := true, data[0];
      }
    }

    /**
     * Return the next line. At every call the lines given so far are the lines of the bytes
     * looked at, however the bytes arrived; an answer of -1 at end of file means all lines are
     * given, and any other -1 that the last event was would-block or an error or that none is left.
     */
    method Gets() returns (out: Outcome, line: seq<Byte>)
      requires ValidLines()
      modifies this`eof, this`recvs, this`received, this`taken, this`fed, this`lines, this`tailGiven
      modifies inBuf, inBuf.buf, lineBuf, lineBuf.buf
      ensures ValidLines() && inBuf.buf == old(inBuf.buf) && (lineBuf.buf == old(lineBuf.buf) || fresh(lineBuf.buf))
      ensures received + Stream(recvs) == old(received + Stream(recvs))
      ensures old(taken == fed) ==> taken == fed
      ensures Remains(old(recvs), recvs) && (old(Clean(eof, recvs)) ==> Clean(eof, recvs))
      ensures out.Returned? && out.rc >= 0 ==> out.rc == |line| && lines == old(lines) + [line]
      ensures out.Returned? && out.rc < 0 ==> out.rc == -1 && lines == old(lines)
      ensures out.StillWaiting? ==> blocking && recvs == [] && lines == old(lines) && !eof
      ensures out == Returned(-1) && eof ==> lines == AllLines(fed)
      ensures out == Returned(-1) && !eof ==> Stalled(old(recvs), recvs)
      ensures |fed| >= old(|fed|) && (out.Returned? && out.rc >= 0 ==> |fed| > old(|fed|) || (tailGiven && !old(tailGiven)))
    {
      ghost var total, same, given, script := received + Stream(recvs), taken == fed, lines, recvs;
      ghost var clean, start, tailWas := Clean(eof, recvs), |fed|, tailGiven;
      while true
        invariant ValidLines() && inBuf.buf == old(inBuf.buf)
        invariant lineBuf.buf == old(lineBuf.buf) || fresh(lineBuf.buf)
        invariant received + Stream(recvs) == total
        invariant same ==> taken == fed
        invariant Remains(script, recvs) && (clean ==> Clean(eof, recvs))
        invariant lines == given && tailGiven == tailWas && |fed| >= start
        decreases |total| - |taken|
      {
        ghost var before := recvs;
        var go;
        go, out, line := OneByte();
        RemainsTrans(script, before, recvs);
        if !go {
          return;
        }
      }
    }

    /** Read a byte and act on it; go on unless it ended a line or there was none. */
    method OneByte() returns (go: bool, out: Outcome, line: seq<Byte>)
      requires ValidLines()
      modifies this`eof, this`recvs, this`received, this`taken, this`fed, this`lines, this`tailGiven
      modifies inBuf, inBuf.buf, lineBuf, lineBuf.buf
      ensures ValidLines() && inBuf.buf == old(inBuf.buf) && (lineBuf.buf == old(lineBuf.buf) || fresh(lineBuf.buf))
      ensures received + Stream(recvs) == old(received + Stream(recvs)) && (old(taken == fed) ==> taken == fed)
      ensures Remains(old(recvs), recvs) && (old(Clean(eof, recvs)) ==> Clean(eof, recvs)) && |fed| >= old(|fed|)
      ensures go ==> |taken| > old(|taken|) && lines == old(lines) && tailGiven == old(tailGiven)
      ensures !go && out.Returned? && out.rc >= 0 ==>
                && out.rc == |line| && lines == old(lines) + [line]
                && (|fed| > old(|fed|) || (tailGiven && !old(tailGiven)))
      ensures !go && out.Returned? && out.rc < 0 ==>
                out.rc == -1 && lines == old(lines) && if eof then lines == AllLines(fed) else Stalled(old(recvs), recvs)
      ensures !go && out.StillWaiting? ==> blocking && recvs == [] && lines == old(lines) && !eof
    {
      line := [];
      var got, c, tail;
      got, out, c, tail := NextByte();
      go := got;
      if got {
        var done;
        done, line := Absorb(c, tail);
        if done {
          go, out := false, Returned(|line|);
        }
      }
    }

    /** One send of the straight run at servp; a send that takes nothing counts as would-block. */
    method DoOutput(toWrite: nat) returns (n: int, wouldBlock: bool, interrupted: bool)
      requires outBuf.Valid() && sends != [] && 0 < toWrite <= outBuf.GetBlkMax()
      modifies this`sends, this`sent
      ensures sends == old(sends)[1..]
      ensures n == -1 || 0 < n <= toWrite
      ensures sent == old(sent) + outBuf.Contents()[..if n > 0 then n else 0]
      ensures (wouldBlock <==> Blocks(old(sends)[0])) && (interrupted <==> old(sends)[0].SendInterrupted?)
      ensures n < 0 <==> !old(sends)[0].Sent? || wouldBlock
    {
      RingStraight(outBuf.buf[..], outBuf.servp, outBuf.endp, toWrite);
      n, wouldBlock, interrupted := -1, false, false;
      match sends[0] {
        case Sent(k) =>
          var bytes := Min(k, toWrite);
          if bytes == 0 {
            wouldBlock := true;
          } else {
            n := bytes;
            sent := sent + outBuf.buf[outBuf.servp..outBuf.servp + n];
          }
        case SendInterrupted =>
          interrupted := true;
        case SendWouldBlock =>
          wouldBlock := true;
        case SendError =>
      }
      sends := sends[1..];
    }

    /** Send one straight run and step over what was taken. */
    method SendRun() returns (n: int, wouldBlock: bool, interrupted: bool)
      requires outBuf.Valid() && sends != [] && outBuf.Contents() != []
      modifies this`sends, this`sent, outBuf, outBuf.buf
      ensures outBuf.Valid() && outBuf.buf == old(outBuf.buf) && outBuf.maxsize == old(outBuf.maxsize)
      ensures sends == old(sends)[1..]
      ensures sent + outBuf.Contents() == old(sent + outBuf.Contents())
      ensures (wouldBlock <==> Blocks(old(sends)[0])) && (interrupted <==> old(sends)[0].SendInterrupted?)
      ensures n < 0 <==> !old(sends)[0].Sent? || wouldBlock
    {
      var len := outBuf.GetBlkMax();
      ghost var was, queued := sent, outBuf.Contents();
      n, wouldBlock, interrupted := DoOutput(len);
      SentAndQueued(was, queued, if n > 0 then n else 0);
      if n > 0 {
        outBuf.GetBlkAdj(n);
      }
    }

    /**
     * Send until the buffer is empty or the network would block. With bytes left, 0 means that the
     * last send would block or that no answer is left, and -1 that the last send failed.
     */
    method Flush() returns (out: Outcome)
      requires ValidOut()
      modifies this`sends, this`sent, this`flushing, this`handlerMask, this`saveMask, outBuf, outBuf.buf
      ensures ValidOut() && outBuf.buf == old(outBuf.buf) && outBuf.maxsize == old(outBuf.maxsize)
      ensures sent + outBuf.Contents() == old(sent + outBuf.Contents())
      ensures UserMask() == old(UserMask())
      ensures Suffix(old(sends), sends) && SendEnds(old(sends), sends, blocking, outBuf.Contents(), out)
      ensures blocking && old(sends) == [] && old(outBuf.Contents()) != [] ==> out.StillWaiting?
      ensures old(sends) == sends ==> outBuf.Contents() == old(outBuf.Contents())
      ensures old(outBuf.Contents()) != [] && old(sends) != [] ==> |sends| < old(|sends|)
      ensures out == Returned(0) ==> Settled(old(UserMask()), outBuf.Contents() == [])
    {
      if !blocking {
        flushing := true;
      }
      ghost var mask := UserMask();
      out := Drain();
      if out == Returned(0) {
        Settle(mask);
      }
    }

    /** Nothing is flushed in the background and the user's mask is back; or it is, and writable events are asked for too. */
    ghost predicate Settled(mask: set<Event>, empty: bool)
      reads this
    {
      if empty then !flushing && saveMask.None? && handlerMask == mask
      else (blocking || flushing) && saveMask == Some(mask) && handlerMask == mask + {Writable}
    }

    method Settle(ghost mask: set<Event>)
      requires ValidOut() && UserMask() == mask && (blocking || flushing)
      modifies this`flushing, this`handlerMask, this`saveMask, outBuf, outBuf.buf
      ensures ValidOut() && outBuf.buf == old(outBuf.buf) && outBuf.maxsize == old(outBuf.maxsize)
      ensures outBuf.Contents() == old(outBuf.Contents()) && UserMask() == mask
      ensures Settled(mask, outBuf.Contents() == [])
    {
      if outBuf.Len() > 0 {
        WatchWritable();
      } else {
        AllSent();
      }
    }

    /** Send until nothing is left, the network would block, or a send fails. */
    method Drain() returns (out: Outcome)
      requires ValidOut()
      modifies this`sends, this`sent, outBuf, outBuf.buf
      ensures ValidOut() && outBuf.buf == old(outBuf.buf) && outBuf.maxsize == old(outBuf.maxsize)
      ensures sent + outBuf.Contents() == old(sent + outBuf.Contents())
      ensures Suffix(old(sends), sends) && SendEnds(old(sends), sends, blocking, outBuf.Contents(), out)
      ensures blocking && old(sends) == [] && old(outBuf.Contents()) != [] ==> out.StillWaiting?
      ensures old(sends) == sends ==> outBuf.Contents() == old(outBuf.Contents())
      ensures old(outBuf.Contents()) != [] && old(sends) != [] ==> |sends| < old(|sends|)
    {
      ghost var total, queued, script := sent + outBuf.Contents(), outBuf.Contents(), sends;
      while outBuf.Len() > 0
        invariant ValidOut() && outBuf.buf == old(outBuf.buf) && outBuf.maxsize == old(outBuf.maxsize)
        invariant sent + outBuf.Contents() == total
        invariant Suffix(script, sends) && (sends == script ==> outBuf.Contents() == queued)
        decreases |sends|
      {
        ghost var before := sends;
        var go;
        go, out := SendSome();
        SuffixTrans(script, before, sends);
        if !go {
          return;
        }
      }
      out := Returned(0);
    }

    /** One send of the loop: go on, or the answer of the flush. */
    method SendSome() returns (go: bool, out: Outcome)
      requires ValidOut() && outBuf.Contents() != []
      modifies this`sends, this`sent, outBuf, outBuf.buf
      ensures ValidOut() && outBuf.buf == old(outBuf.buf) && outBuf.maxsize == old(outBuf.maxsize)
      ensures sent + outBuf.Contents() == old(sent + outBuf.Contents())
      ensures Suffix(old(sends), sends) && (old(sends) != [] ==> |sends| < old(|sends|))
      ensures old(sends) == [] ==> sends == [] && !go && outBuf.Contents() == old(outBuf.Contents()) && out.StillWaiting? == blocking
      ensures !go ==> SendEnds(old(sends), sends, blocking, outBuf.Contents(), out)
    {
      go, out := false, Returned(0);
      if sends == [] {
        if blocking {
          out := StillWaiting;
        }
        return;
      }
      var n, wouldBlock, interrupted := SendRun();
      go := n >= 0 || interrupted;
      out := Returned(if wouldBlock then 0 else -1);
    }

    /** Nothing is left to send: give the user's mask back. */
    method AllSent()
      requires ValidOut()
      modifies this`flushing, this`handlerMask, this`saveMask, outBuf, outBuf.buf
      ensures ValidOut() && outBuf.Contents() == []
      ensures !flushing && saveMask.None? && handlerMask == old(UserMask())
      ensures outBuf.buf == old(outBuf.buf) && outBuf.maxsize == old(outBuf.maxsize)
    {
      outBuf.Flush();
      if saveMask.Some? {
        handlerMask := saveMask.value;
        saveMask := None;
      }
      flushing := false;
    }

    /** Ask for writable events until the rest is sent, keeping the user's mask. */
    method WatchWritable()
      requires ValidOut()
      modifies this`handlerMask, this`saveMask
      ensures ValidOut() && saveMask == Some(old(UserMask())) && handlerMask == old(UserMask()) + {Writable}
    {
      if saveMask.None? {
        saveMask := Some(handlerMask);
        handlerMask := handlerMask + {Writable};
      }
    }

    method Enqueue(data: seq<Byte>)
      requires ValidOut() && |data| <= outBuf.PutBlkMax()
      modifies outBuf, outBuf.buf
      ensures ValidOut() && outBuf.buf == old(outBuf.buf) && outBuf.maxsize == old(outBuf.maxsize)
      ensures sent + outBuf.Contents() == old(sent + outBuf.Contents()) + data
    {
      Regroup(sent, outBuf.Contents(), data);
      PutFits(outBuf.State(), data);
      var n := outBuf.PutBlk(data);
    }

    /**
     * Take as much of `data` as the buffer and the network allow. Everything sent followed by
     * everything buffered grows by exactly the absorbed bytes, whatever the result. -1 means that
     * the last send failed; a short count, that the buffer is full and the last send would block
     * or no answer is left.
     */
    method Write(data: seq<Byte>) returns (out: Outcome, ghost absorbed: nat)
      requires ValidOut()
      modifies this`sends, this`sent, this`flushing, this`handlerMask, this`saveMask, outBuf, outBuf.buf
      ensures ValidOut() && outBuf.buf == old(outBuf.buf) && UserMask() == old(UserMask())
      ensures absorbed <= |data|
      ensures sent + outBuf.Contents() == old(sent + outBuf.Contents()) + data[..absorbed]
      ensures Suffix(old(sends), sends)
      ensures out.Returned? ==> if out.rc < 0 then out.rc == -1 && SendFailed(old(sends), sends) else out.rc == absorbed
      ensures out.StillWaiting? ==> blocking && sends == []
      ensures out.Returned? && out.rc >= 0 && absorbed < |data| ==>
                !blocking && outBuf.PutBlkMax() == 0 && SendBlocked(old(sends), sends)
    {
      var written: nat, left: nat := 0, |data|;
      absorbed := 0;
      ghost var total, script := sent + outBuf.Contents(), sends;
      while left > 0
        invariant ValidOut() && outBuf.buf == old(outBuf.buf) && UserMask() == old(UserMask())
        invariant written + left == |data| && absorbed == written
        invariant sent + outBuf.Contents() == total + data[..written]
        invariant Suffix(script, sends)
        decreases left, |sends|
      {
        var room := outBuf.PutBlkMax();
        if room == 0 {
          ghost var before := sends;
          out := Flush();
          SuffixTrans(script, before, sends);
          if out.StillWaiting? || out.rc < 0 {
            return;
          }
          room := outBuf.PutBlkMax();
          if room == 0 {
            if blocking {
              continue;
            }
            break;
          }
          continue;
        }
        var len := Min(room, left);
        AppendStep(total, data, written, len);
        Enqueue(data[written..written + len]);
        written := written + len;
        left := left - len;
        absorbed := written;
      }
      out := Returned(written);
    }

    /** What asking for lines from the start keeps, for a stream that arrives whole. */
    ghost predicate Listening(total: seq<Byte>)
      reads this, inBuf, inBuf.buf, lineBuf, lineBuf.buf, outBuf
    {
      ValidLines() && taken == fed && Clean(eof, recvs) && received + Stream(recvs) == total
    }

    /** Everything the peer will send, as lines. */
    method GetAll(ghost total: seq<Byte>) returns (all: seq<seq<Byte>>)
      requires Listening(total) && lines == []
      modifies this`eof, this`recvs, this`received, this`taken, this`fed, this`lines, this`tailGiven
      modifies inBuf, inBuf.buf, lineBuf, lineBuf.buf
      ensures all == AllLines(total)
    {
      all := [];
      while true
        invariant Listening(total) && lines == all
        invariant inBuf.buf == old(inBuf.buf) && (lineBuf.buf == old(lineBuf.buf) || fresh(lineBuf.buf))
        decreases |recvs|, |total| - |fed|, if tailGiven then 0 else 1
      {
        var out, line := Gets();
        if out.Returned? {
          if out.rc >= 0 {
            all := all + [line];
          } else if eof {
            assert Stream(recvs) == [] && received + [] == received && taken + [] == taken;
            assert fed == total;
            return;
          }
        }
      }
    }
  }

  /**
   * However the bytes of a stream arrive, with whatever would-blocks and errors in between, asking
   * for lines until -1 at end of file ends and gives exactly the lines of the stream.
   */
  method AllGets(blocking: bool, recvs: seq<Recv>, sends: seq<Send>) returns (all: seq<seq<Byte>>)
    requires EndsCleanly(recvs)
    ensures all == AllLines(Stream(recvs))
  {
    var s := new Socket(blocking, recvs, sends);
    all := s.GetAll(Stream(recvs));
  }
}
