/**
 * The two tasks of main/main.cpp: UART_input, which frames the bytes read
 * from the UART into NUL-terminated messages and sends them to a 10-slot
 * queue, and queue_to_disp, which takes them in order and shows each one
 * with write_to_disp followed by display_clear_msg_text.
 */
module UartMain {
  import opened CText
  import opened Surface
  import opened Layout
  import opened Queues
  import opened GuiDrivers

  const LineBufLen: nat := 128  // MSG_CHAR_LEN of main.cpp: the line buffer and each queue item
  const LineQueueLen: nat := 10 // capacity of queue q

  predicate IsTerminator(b: char)
  {
    b == '\n' || b == '\r'
  }

  /** What one pass of the inner read loop of UART_input did. */
  datatype ByteResult =
    | NoByte     // uart_read_bytes gave nothing: the inner loop ends
    | Stored     // an ordinary byte was appended to the line
    | Sent       // a terminator closed the line and it was queued
    | QueueFull  // xQueueSend would wait for room: nothing happens yet
    | Overflow   // the write would land at stringBuffer[128], outside the buffer

  /**
   * The framer's state as a value: the line buffer, the write position, the
   * bytes waiting in the UART driver and the items of queue q.
   */
  datatype Framer = Framer(buf: seq<char>, position: nat, rx: seq<char>, queue: seq<seq<char>>)

  predicate ValidFramer(f: Framer)
  {
    |f.buf| == LineBufLen && f.position <= LineBufLen && |f.queue| <= LineQueueLen
  }

  /** memset(buf, 0, n). */
  function ZeroPrefix(buf: seq<char>, n: nat): (z: seq<char>)
    requires n <= |buf|
    ensures |z| == |buf|
    ensures forall i :: 0 <= i < n ==> z[i] == NUL
    ensures z[n..] == buf[n..]
  {
    Zeros(n) + buf[n..]
  }

  /**
   * One pass of the inner loop: read one byte; a terminator NUL-terminates
   * the line at position, sends the whole buffer, zeroes the buffer up to its
   * string length, flushes the UART input and resets position; any other byte
   * is stored at position, which moves on by one.
   */
  function Poll(f: Framer): (r: (ByteResult, Framer))
    requires ValidFramer(f)
    ensures ValidFramer(r.1)
    ensures r.0 == NoByte <==> f.rx == []
    ensures r.0 in {NoByte, QueueFull, Overflow} ==> r.1 == f
    ensures r.0 == Stored ==>
      && f.rx != [] && f.position < LineBufLen && !IsTerminator(f.rx[0])
      && r.1 == f.(buf := f.buf[f.position := f.rx[0]], position := f.position + 1, rx := f.rx[1..])
    ensures r.0 == Sent ==>
      && f.rx != [] && f.position < LineBufLen && IsTerminator(f.rx[0])
      && r.1.position == 0 && r.1.rx == [] && r.1.queue == f.queue + [f.buf[f.position := NUL]]
    ensures r.0 == Overflow <==> f.rx != [] && f.position == LineBufLen
    ensures r.0 == QueueFull <==> f.rx != [] && f.position < LineBufLen && IsTerminator(f.rx[0]) && |f.queue| == LineQueueLen
  {
    if f.rx == [] then (NoByte, f)
    else
      var b := f.rx[0];
      if f.position >= LineBufLen then (Overflow, f)
      else if IsTerminator(b) then
        if |f.queue| >= LineQueueLen then (QueueFull, f)
        else
          var item := f.buf[f.position := NUL];
          (Sent, Framer(ZeroPrefix(item, StrLen(item)), 0, [], f.queue + [item]))
      else (Stored, Framer(f.buf[f.position := b], f.position + 1, f.rx[1..], f.queue))
  }

  /** The inner while(1) loop: poll until a read gives nothing or the step cannot go on. */
  function Drain(f: Framer): (r: (ByteResult, Framer))
    requires ValidFramer(f)
    ensures ValidFramer(r.1)
    ensures r.0 in {NoByte, QueueFull, Overflow}
    decreases |f.rx|
  {
    var p := Poll(f);
    if p.0 == Stored || p.0 == Sent then Drain(p.1) else p
  }

  /**
   * r is how the inner loop ended after a line was sent to a queue that held
   * queue: no byte is left to read, the queue got one more item, the 128-byte
   * buffer, which holds line then a NUL; position is back to 0, the rest of
   * the driver's input is flushed, and the buffer is zeroed up to the item's
   * string length.
   */
  ghost predicate LineSent(queue: seq<seq<char>>, r: (ByteResult, Framer), line: seq<char>)
  {
    var g := r.1;
    && r.0 == NoByte && g.position == 0 && g.rx == []
    && |g.queue| == |queue| + 1 && g.queue[..|queue|] == queue
    && var item := g.queue[|queue|];
       && |item| == LineBufLen && |line| < LineBufLen
       && item[..|line|] == line && item[|line|] == NUL
       && g.buf == ZeroPrefix(item, StrLen(item))
  }

  /**
   * A line, the bytes w free of terminators then a terminator, sends the
   * bytes stored before w followed by w, and the inner loop then ends.
   */
  lemma {:induction false} DrainLine(f: Framer, w: seq<char>, t: char, rest: seq<char>)
    requires ValidFramer(f)
    requires f.rx == w + [t] + rest
    requires forall i :: 0 <= i < |w| ==> !IsTerminator(w[i])
    requires IsTerminator(t)
    requires f.position + |w| < LineBufLen
    requires |f.queue| < LineQueueLen
    ensures LineSent(f.queue, Drain(f), f.buf[..f.position] + w)
    decreases |w|
  {
    if w == [] {
      assert f.rx[0] == t;
      DrainTerminator(f);
      assert f.buf[..f.position] + w == f.buf[..f.position];
    } else {
      var g := StoreHead(f, w, t, rest);
      DrainLine(g, w[1..], t, rest);
    }
  }

  /** The first byte of a line that is not yet complete is stored. */
  lemma StoreHead(f: Framer, w: seq<char>, t: char, rest: seq<char>) returns (g: Framer)
    requires ValidFramer(f) && w != []
    requires f.rx == w + [t] + rest
    requires forall i :: 0 <= i < |w| ==> !IsTerminator(w[i])
    requires f.position + |w| < LineBufLen
    ensures ValidFramer(g) && Drain(f) == Drain(g) && g.queue == f.queue
    ensures g.rx == w[1..] + [t] + rest
    ensures g.position + |w[1..]| < LineBufLen
    ensures g.buf[..g.position] + w[1..] == f.buf[..f.position] + w
  {
    assert f.rx[0] == w[0];
    g := StoreStep(f, w[0]);
    assert [w[0]] + w[1..] == w;
  }

  /** A terminator at the head of the input sends the line and ends the inner loop. */
  lemma DrainTerminator(f: Framer)
    requires ValidFramer(f) && f.rx != [] && IsTerminator(f.rx[0])
    requires f.position < LineBufLen && |f.queue| < LineQueueLen
    ensures LineSent(f.queue, Drain(f), f.buf[..f.position])
  {
    var p := Poll(f);
    assert p.0 == Sent;
    assert Drain(f) == Drain(p.1) == Poll(p.1) == (NoByte, p.1);
    assert p.1.queue[..|f.queue|] == f.queue;
  }

  /** An ordinary byte at the head of the input is stored and the inner loop goes on. */
  lemma StoreStep(f: Framer, b: char) returns (g: Framer)
    requires ValidFramer(f) && f.rx != [] && f.rx[0] == b && !IsTerminator(b)
    requires f.position < LineBufLen
    ensures ValidFramer(g) && Drain(f) == Drain(g)
    ensures g.position == f.position + 1 && g.rx == f.rx[1..] && g.queue == f.queue
    ensures g.buf[..g.position] == f.buf[..f.position] + [b]
  {
    g := Poll(f).1;
    assert Poll(f).0 == Stored;
  }

  /**
   * From the start of a line (position 0), the message queued is exactly the
   * bytes received since the last terminator, without the terminator.
   */
  lemma ReceivedLine(f: Framer, w: seq<char>, t: char, rest: seq<char>)
    requires ValidFramer(f) && f.position == 0
    requires f.rx == w + [t] + rest
    requires forall i :: 0 <= i < |w| ==> !IsTerminator(w[i]) && w[i] != NUL
    requires IsTerminator(t)
    requires |w| < LineBufLen
    requires |f.queue| < LineQueueLen
    ensures |Drain(f).1.queue| == |f.queue| + 1
    ensures Drain(f).1.queue == f.queue + [Drain(f).1.queue[|f.queue|]]
    ensures CStr(Drain(f).1.queue[|f.queue|]) == w
  {
    DrainLine(f, w, t, rest);
    var g := Drain(f).1;
    assert f.buf[..0] + w == w;
    assert g.queue == g.queue[..|f.queue|] + [g.queue[|f.queue|]];
    CStrOfTerminated(w, g.queue[|f.queue|]);
  }

  /** A terminator right after a terminator (position 0) queues an empty message. */
  lemma EmptyLine(f: Framer, t: char, rest: seq<char>)
    requires ValidFramer(f) && f.position == 0
    requires f.rx == [t] + rest && IsTerminator(t)
    requires |f.queue| < LineQueueLen
    ensures |Drain(f).1.queue| == |f.queue| + 1
    ensures CStr(Drain(f).1.queue[|f.queue|]) == []
  {
    assert f.rx == [] + [t] + rest;
    DrainLine(f, [], t, rest);
    assert f.buf[..0] + [] == [];
  }

  /**
   * "\r\n" arriving together with the line: the '\r' closes the line and the
   * flush that follows discards the '\n', so exactly one message is queued.
   */
  lemma CrLfInOneRead(f: Framer, w: seq<char>)
    requires ValidFramer(f) && f.position == 0
    requires f.rx == w + ['\r', '\n']
    requires forall i :: 0 <= i < |w| ==> !IsTerminator(w[i])
    requires |w| < LineBufLen
    requires |f.queue| < LineQueueLen
    ensures |Drain(f).1.queue| == |f.queue| + 1
    ensures Drain(f).1.rx == []
  {
    assert f.rx == w + ['\r'] + ['\n'];
    DrainLine(f, w, '\r', ['\n']);
  }

  /**
   * No bounds check: once 128 ordinary bytes have been stored, the next byte,
   * terminator or not, would be written at stringBuffer[128]. The model stops
   * there and reports it.
   */
  lemma {:induction false} DrainOverflow(f: Framer, w: seq<char>, c: char, rest: seq<char>)
    requires ValidFramer(f)
    requires f.rx == w + [c] + rest
    requires forall i :: 0 <= i < |w| ==> !IsTerminator(w[i])
    requires f.position + |w| == LineBufLen
    ensures Drain(f).0 == Overflow
    ensures Drain(f).1.position == LineBufLen && Drain(f).1.rx == [c] + rest
    decreases |w|
  {
    var p := Poll(f);
    if w == [] {
      assert Poll(f) == (Overflow, f);
    } else {
      assert f.rx[0] == w[0];
      assert p.1.rx == w[1..] + [c] + rest;
      DrainOverflow(p.1, w[1..], c, rest);
    }
  }

  /** The UART_input task's state: stringBuffer, position, the driver's input and queue q. */
  class UartInput {
    const buf: array<char>
    var position: nat
    var rx: seq<char>
    const q: Fifo<seq<char>>

    ghost predicate Valid()
      reads this, buf, q
    {
      buf.Length == LineBufLen && position <= LineBufLen && q.Valid() && q.capacity == LineQueueLen
    }

    ghost function Snapshot(): Framer
      reads this, buf, q
    {
      Framer(buf[..], position, rx, q.items)
    }

    /** Task start: an uninitialised stack buffer, position 0, nothing received yet. */
    constructor (q: Fifo<seq<char>>, stack: seq<char>)
      requires q.Valid() && q.capacity == LineQueueLen
      requires |stack| == LineBufLen
      ensures Valid() && fresh(buf)
      ensures this.q == q && buf[..] == stack && position == 0 && rx == []
    {
      this.q := q;
      buf := new char[LineBufLen](i requires 0 <= i < LineBufLen => stack[i]);
      position := 0;
      rx := [];
    }

    /** Bytes arriving in the UART driver's receive buffer. */
    method Arrive(bytes: seq<char>)
      modifies this
      ensures rx == old(rx) + bytes
      ensures position == old(position)
    {
      rx := rx + bytes;
    }

    /** One pass of the inner read loop of UART_input. */
    method ReadByte() returns (r: ByteResult)
      requires Valid()
      modifies this, buf, q
      ensures Valid()
      ensures (r, Snapshot()) == Poll(old(Snapshot()))
    {
      if rx == [] {
        return NoByte;
      }
      var data := rx[0];
      if position >= LineBufLen {
        return Overflow;
      }
      if IsTerminator(data) {
        if q.Waiting() >= LineQueueLen {
          return QueueFull;
        }
        ghost var before := buf[..];
        buf[position] := NUL;
        ghost var item := buf[..];
        assert item == before[position := NUL];
        var ok := q.Send(buf[..]);
        ClearLine();
        rx := [];
        position := 0;
        r := Sent;
      } else {
        buf[position] := data;
        position := position + 1;
        rx := rx[1..];
        r := Stored;
      }
    }

    /** memset(stringBuffer, 0, strlen(stringBuffer)). */
    method ClearLine()
      modifies buf
      ensures buf[..] == ZeroPrefix(old(buf[..]), StrLen(old(buf[..])))
    {
      var n := StrLen(buf[..]);
      var i := 0;
      while i < n
        invariant 0 <= i <= n
        invariant buf[..] == ZeroPrefix(old(buf[..]), i)
      {
        buf[i] := NUL;
        i := i + 1;
      }
    }

    /** The inner while(1) loop of UART_input: read until no byte comes or the step cannot go on. */
    method ReadBytes() returns (r: ByteResult)
      requires Valid()
      modifies this, buf, q
      ensures Valid()
      ensures (r, Snapshot()) == Drain(old(Snapshot()))
    {
      r := ReadByte();
      while r == Stored || r == Sent
        invariant Valid()
        invariant Drain(old(Snapshot())) == Drain(Snapshot())
        invariant r == Stored || r == Sent || (r, Snapshot()) == Drain(Snapshot())
        decreases |rx|, if r == Stored || r == Sent then 1 else 0
      {
        ghost var before := Snapshot();
        r := ReadByte();
        assert Drain(before) == Drain(Snapshot());
      }
    }
  }

  // ---------------------------------------------------------------------
  // queue_to_disp
  // ---------------------------------------------------------------------

  /** What serving a run of queued messages draws and how it ends. */
  datatype Served = Served(cmds: seq<DrawCmd>, held: bool, taken: nat, hung: bool)

  /**
   * queue_to_disp on the messages items, with the display semaphore held or
   * not at the start and ooms[i] the failing allocation, if any, while the
   * i-th message is drawn. Each message is rendered and then cleared; a
   * render that fails keeps the semaphore, so the next message taken blocks
   * its task for ever.
   */
  function Serve(items: seq<seq<char>>, held: bool, ooms: seq<Option<nat>>): (s: Served)
    requires |ooms| >= |items|
    ensures s.taken <= |items|
    ensures !s.hung ==> s.taken == |items|
    ensures s.hung ==> 1 <= s.taken && s.held
    decreases |items|
  {
    if items == [] then Served([], held, 0, false)
    else if held then Served([], true, 1, true)
    else
      var text := CStr(items[0]);
      var rest := Serve(items[1..], FailedLine(text, ooms[0]).Some?, ooms[1..]);
      Served(RenderCmds(text, ooms[0]) + ClearCmds + rest.cmds, rest.held, rest.taken + 1, rest.hung)
  }

  /** The texts of the messages, in order. */
  function Joined(items: seq<seq<char>>): seq<char>
  {
    if items == [] then [] else CStr(items[0]) + Joined(items[1..])
  }

  /** Serving a message with the semaphore free: render, clear, then serve the rest. */
  lemma ServeCons(items: seq<seq<char>>, ooms: seq<Option<nat>>)
    requires |ooms| >= |items| > 0
    ensures
      var text := CStr(items[0]);
      var rest := Serve(items[1..], FailedLine(text, ooms[0]).Some?, ooms[1..]);
      Serve(items, false, ooms) ==
        Served(RenderCmds(text, ooms[0]) + ClearCmds + rest.cmds, rest.held, rest.taken + 1, rest.hung)
  {
  }

  /** The clear of the message area carries no text and flushes once. */
  lemma ClearCmdsCounts()
    ensures Texts(ClearCmds) == [] && Flushes(ClearCmds) == 1
  {
    assert ClearCmds[1..][1..][1..] == [];
    assert Texts(ClearCmds[1..][1..]) == [] + Texts([]);
    assert Flushes(ClearCmds[1..][1..]) == 1 + Flushes([]);
  }

  /** The text of one served message followed by the rest. */
  lemma ServedPieceTexts(head: seq<DrawCmd>, rest: seq<DrawCmd>)
    ensures Texts(head + ClearCmds + rest) == Texts(head) + Texts(rest)
  {
    TextsAppend(head, ClearCmds);
    TextsAppend(head + ClearCmds, rest);
    ClearCmdsCounts();
  }

  /** The flushes of one served message followed by the rest. */
  lemma ServedPieceFlushes(head: seq<DrawCmd>, rest: seq<DrawCmd>)
    ensures Flushes(head + ClearCmds + rest) == Flushes(head) + 1 + Flushes(rest)
  {
    FlushesAppend(head, ClearCmds);
    FlushesAppend(head + ClearCmds, rest);
    ClearCmdsCounts();
  }

  /**
   * With the semaphore free and no allocation failing, every queued message
   * is taken, in order: the text on the panel is the messages' texts one after
   * another, each render and each clear flushes once, and the semaphore ends free.
   */
  lemma {:induction false} ServeInOrder(items: seq<seq<char>>, ooms: seq<Option<nat>>)
    requires |ooms| >= |items|
    requires forall i :: 0 <= i < |items| ==> FailedLine(CStr(items[i]), ooms[i]).None?
    ensures !Serve(items, false, ooms).hung && !Serve(items, false, ooms).held
    ensures Serve(items, false, ooms).taken == |items|
    ensures Texts(Serve(items, false, ooms).cmds) == Joined(items)
    ensures Flushes(Serve(items, false, ooms).cmds) == 2 * |items|
    decreases |items|
  {
    if items != [] {
      var text := CStr(items[0]);
      var head := RenderCmds(text, ooms[0]);
      assert FailedLine(text, ooms[0]).None?;
      assert forall i :: 0 <= i < |items| - 1 ==> items[1..][i] == items[i + 1] && ooms[1..][i] == ooms[i + 1];
      ServeInOrder(items[1..], ooms[1..]);
      var rest := Serve(items[1..], false, ooms[1..]);
      ServeCons(items, ooms);
      RenderCompletedText(text, ooms[0]);
      RenderCompletedFlush(text, ooms[0]);
      ServedPieceTexts(head, rest.cmds);
      ServedPieceFlushes(head, rest.cmds);
    }
  }

  /**
   * A render that fails leaves the semaphore held: the message after it is
   * taken off the queue and never drawn, and its task waits for ever.
   */
  lemma StuckAfterFailedRender(items: seq<seq<char>>, ooms: seq<Option<nat>>)
    requires |ooms| >= |items| >= 2
    requires FailedLine(CStr(items[0]), ooms[0]).Some?
    ensures Serve(items, false, ooms).hung && Serve(items, false, ooms).taken == 2
    ensures Serve(items, false, ooms).cmds == RenderCmds(CStr(items[0]), ooms[0]) + ClearCmds
    ensures Flushes(Serve(items, false, ooms).cmds) == 1
  {
    var head := RenderCmds(CStr(items[0]), ooms[0]);
    ServeCons(items, ooms);
    assert Serve(items, false, ooms).cmds == head + ClearCmds + [];
    RenderAborted(CStr(items[0]), ooms[0], FailedLine(CStr(items[0]), ooms[0]).value);
    ServedPieceFlushes(head, []);
  }

  /** The queue_to_disp task: its receive buffer msg and whether it is stuck on the semaphore. */
  class QueueToDisp {
    var msg: seq<char>
    var hung: bool
    const q: Fifo<seq<char>>
    const disp: Display

    ghost predicate Valid()
      reads this, q
    {
      q.Valid() && q.capacity == LineQueueLen
    }

    constructor (q: Fifo<seq<char>>, disp: Display, stack: seq<char>)
      requires q.Valid() && q.capacity == LineQueueLen
      ensures Valid()
      ensures this.q == q && this.disp == disp && msg == stack && !hung
    {
      this.q := q;
      this.disp := disp;
      msg := stack;
      hung := false;
    }

    /**
     * One pass of the for(;;) body: take the oldest message, write it, clear
     * the message area and zero msg. On an empty queue the receive waits, so
     * nothing happens (took is false); a task blocked in write_to_disp stays so.
     */
    method Step(oom: Option<nat>) returns (took: bool)
      requires Valid()
      modifies this, q, disp
      ensures Valid()
      ensures took <==> !old(hung) && old(q.items) != []
      ensures !took ==>
        && hung == old(hung) && msg == old(msg) && q.items == old(q.items)
        && disp.trace == old(disp.trace) && disp.held == old(disp.held)
      ensures took ==> q.items == old(q.items)[1..]
      ensures took && old(disp.held) ==>
        hung && msg == old(q.items)[0] && disp.trace == old(disp.trace) && disp.held
      ensures took && !old(disp.held) ==>
        var text := CStr(old(q.items)[0]);
        && !hung && msg == Zeros(LineBufLen)
        && disp.trace == old(disp.trace) + RenderCmds(text, oom) + ClearCmds
        && (disp.held <==> FailedLine(text, oom).Some?)
    {
      if hung || q.Waiting() == 0 {
        return false;
      }
      var item := q.Receive();
      msg := item.value;
      took := true;
      var r := disp.WriteToDisp(Some(msg), oom);
      if r == Blocked {
        hung := true;
        return;
      }
      disp.ClearMsgText();
      msg := Zeros(LineBufLen);
    }

    /**
     * The task loop run until the queue is empty or the task is stuck, with
     * ooms[i] the failing allocation, if any, of the i-th message taken.
     */
    method Run(ooms: seq<Option<nat>>) returns (taken: nat)
      requires Valid() && !hung
      requires |ooms| >= |q.items|
      modifies this, q, disp
      ensures Valid()
      ensures
        var s := Serve(old(q.items), old(disp.held), ooms);
        && taken == s.taken && hung == s.hung && q.items == old(q.items)[taken..]
        && disp.trace == old(disp.trace) + s.cmds && disp.held == s.held
      ensures taken == 0 ==> msg == old(msg)
      ensures !hung && taken > 0 ==> msg == Zeros(LineBufLen)
      ensures hung ==> 0 < taken && msg == old(q.items)[taken - 1]
    {
      ghost var items := q.items;
      ghost var s := Serve(items, disp.held, ooms);
      taken := 0;
      assert old(disp.trace) + s.cmds == disp.trace + s.cmds;
      while !hung && q.items != []
        invariant Valid()
        invariant taken <= |items| && q.items == items[taken..]
        invariant taken == 0 ==> msg == old(msg)
        invariant !hung && taken > 0 ==> msg == Zeros(LineBufLen)
        invariant hung ==> 0 < taken && msg == items[taken - 1]
        invariant hung ==> ServedAll(s, old(disp.trace), disp.trace, disp.held, taken)
        invariant !hung ==> ServedSoFar(s, old(disp.trace), disp.trace, Serve(q.items, disp.held, ooms[taken..]), taken)
        decreases |q.items|
      {
        ghost var r := Serve(q.items, disp.held, ooms[taken..]);
        ghost var trace1 := disp.trace;
        ghost var held1 := disp.held;
        ghost var items1 := q.items;
        var _ := Step(ooms[taken]);
        assert hung ==> msg == items[taken];
        ServeStep(items1, held1, ooms[taken..], trace1, disp.trace, disp.held, hung);
        assert ooms[taken..][1..] == ooms[taken + 1..];
        if hung {
          SoFarThenAll(s, old(disp.trace), trace1, r, taken, disp.trace, disp.held);
        } else {
          SoFarThenSoFar(s, old(disp.trace), trace1, r, taken, disp.trace, Serve(q.items, disp.held, ooms[taken + 1..]));
        }
        taken := taken + 1;
      }
    }
  }

  /** Serving s, starting from trace before, has ended: taken messages, the trace and the semaphore as s says. */
  ghost predicate ServedAll(s: Served, before: seq<DrawCmd>, after: seq<DrawCmd>, held: bool, taken: nat)
  {
    after == before + s.cmds && held == s.held && s.hung && s.taken == taken
  }

  /** Serving s, starting from trace before, has taken taken messages and r is what remains to do. */
  ghost predicate ServedSoFar(s: Served, before: seq<DrawCmd>, after: seq<DrawCmd>, r: Served, taken: nat)
  {
    before + s.cmds == after + r.cmds && s.held == r.held && s.hung == r.hung && s.taken == taken + r.taken
  }

  /** What one pass of the task loop does, in terms of Serve. */
  lemma ServeStep(items: seq<seq<char>>, held: bool, ooms: seq<Option<nat>>,
                  trace: seq<DrawCmd>, trace': seq<DrawCmd>, held': bool, hung': bool)
    requires |ooms| >= |items| > 0
    requires held ==> hung' && trace' == trace && held'
    requires !held ==>
      && !hung' && trace' == trace + RenderCmds(CStr(items[0]), ooms[0]) + ClearCmds
      && (held' <==> FailedLine(CStr(items[0]), ooms[0]).Some?)
    ensures hung' ==> ServedAll(Serve(items, held, ooms), trace, trace', held', 1)
    ensures !hung' ==> ServedSoFar(Serve(items, held, ooms), trace, trace', Serve(items[1..], held', ooms[1..]), 1)
  {
    if !held {
      ServeCons(items, ooms);
      SoFarCons(trace, RenderCmds(CStr(items[0]), ooms[0]), Serve(items[1..], held', ooms[1..]));
    }
  }

  /** Rendering head, then the clear, is one step of serving, with r left to do. */
  lemma SoFarCons(trace: seq<DrawCmd>, head: seq<DrawCmd>, r: Served)
    ensures ServedSoFar(Served(head + ClearCmds + r.cmds, r.held, r.taken + 1, r.hung), trace, trace + head + ClearCmds, r, 1)
  {
    assert trace + (head + ClearCmds + r.cmds) == trace + head + ClearCmds + r.cmds;
  }

  lemma SoFarThenAll(s: Served, t0: seq<DrawCmd>, t1: seq<DrawCmd>, r: Served, k: nat, t2: seq<DrawCmd>, held: bool)
    requires ServedSoFar(s, t0, t1, r, k) && ServedAll(r, t1, t2, held, 1)
    ensures ServedAll(s, t0, t2, held, k + 1)
  {
    assert t0 + s.cmds == t1 + r.cmds;
  }

  lemma SoFarThenSoFar(s: Served, t0: seq<DrawCmd>, t1: seq<DrawCmd>, r: Served, k: nat, t2: seq<DrawCmd>, r2: Served)
    requires ServedSoFar(s, t0, t1, r, k) && ServedSoFar(r, t1, t2, r2, 1)
    ensures ServedSoFar(s, t0, t2, r2, k + 1)
  {
    assert t1 + r.cmds + [] == t2 + r2.cmds;
  }
}
