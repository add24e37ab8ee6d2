/**
 * The display side of the pager (components/GUI_drivers/GUI_drivers.c):
 * the message record types, the drawing routines that the tasks call, the
 * display semaphore that write_to_disp takes, and the two-state controller
 * run by displayLoop.
 */
module GuiDrivers {
  import opened CText
  import opened Surface
  import opened Layout
  import opened Queues

  // ---------------------------------------------------------------------
  // Message record types (GUI_drivers.h)
  // ---------------------------------------------------------------------

  /** display_msg_type_t */
  datatype MsgKind = BasicMsg | CodeBlack | CodeBlue | CodeRed | AttendRoom | PatientCare | Invalid

  /** The integer value the enumeration gives each kind. */
  function KindCode(k: MsgKind): (c: int)
    ensures KindOfCode(c) == Some(k)
  {
    match k
    case BasicMsg => 0
    case CodeBlack => 10
    case CodeBlue => 11
    case CodeRed => 12
    case AttendRoom => 20
    case PatientCare => 21
    case Invalid => 99
  }

  /** The kind an integer stands for, if it is a value of the enumeration. */
  function KindOfCode(c: int): (k: Option<MsgKind>)
    ensures k.Some? <==> c in {0, 10, 11, 12, 20, 21, 99}
  {
    if c == 0 then Some(BasicMsg)
    else if c == 10 then Some(CodeBlack)
    else if c == 11 then Some(CodeBlue)
    else if c == 12 then Some(CodeRed)
    else if c == 20 then Some(AttendRoom)
    else if c == 21 then Some(PatientCare)
    else if c == 99 then Some(Invalid)
    else None
  }

  // ---------------------------------------------------------------------
  // Fixed screen geometry
  // ---------------------------------------------------------------------

  const MsgCharLen: nat := 256       // receive buffer of displayLoop

  const NotifX: int := 124
  const NotifY: int := 59
  const NotifR: int := 2

  /** display_clear_msg_text: a colour-0 box over the message area, then a flush. */
  const ClearCmds: seq<DrawCmd> := [SetColor(0), DrawBox(14, 10, 100, 80), SendBuffer]

  /** display_update_notif: the notification dot, lit iff messages are waiting, then a flush. */
  function NotifCmds(pending: nat): seq<DrawCmd>
  {
    [SetColor(if pending > 0 then 1 else 0), DrawDisc(NotifX, NotifY, NotifR), SendBuffer]
  }

  // ---------------------------------------------------------------------
  // What write_to_disp draws
  // ---------------------------------------------------------------------

  /**
   * The line whose buffer allocation fails, when oom names one the long-text
   * path reaches; a text that fits on one line allocates nothing.
   */
  function FailedLine(text: seq<char>, oom: Option<nat>): Option<nat>
  {
    if |text| > LineChars && oom.Some? && oom.value < |SplitLines(text)| then oom else None
  }

  /** The lines write_to_disp draws, and the flush when it reaches it. */
  function RenderBody(text: seq<char>, oom: Option<nat>): seq<DrawCmd>
  {
    match FailedLine(text, oom)
    case None => DrawLines(SplitLines(text)) + [SendBuffer]
    case Some(k) => DrawLines(SplitLines(text)[..k])
  }

  /** The calls write_to_disp makes on the surface once it holds the semaphore. */
  function RenderCmds(text: seq<char>, oom: Option<nat>): seq<DrawCmd>
  {
    [SetFont, SetColor(1)] + RenderBody(text, oom)
  }

  /** A text of at most 20 characters is one line, the whole text, at (14, 20), then one flush. */
  lemma RenderShortText(text: seq<char>, oom: Option<nat>)
    requires |text| <= LineChars
    ensures RenderCmds(text, oom) == [SetFont, SetColor(1), DrawStr(TextX, TopY, text), SendBuffer]
  {
  }

  /** Line i of a long text starts within the string. */
  lemma LineStart(s: seq<char>, i: nat)
    requires StrLen(s) > LineChars && i < |SplitLines(CStr(s))|
    ensures LineChars * i <= StrLen(s)
  {
    ChunkAt(CStr(s), i);
  }

  /** strncpy of 20 characters from &str[j]: the next at most 20 characters of the string. */
  lemma CopyAt(s: seq<char>, j: nat)
    requires j <= StrLen(s)
    ensures StrNCpy(s[j..], LineChars) == CStr(s)[j .. Min(j + LineChars, StrLen(s))]
  {
    CStrFrom(s, j);
  }

  /** strncpy of 20 characters from &str[20 i] is line i of the layout. */
  lemma NextLine(s: seq<char>, i: nat)
    requires StrLen(s) > LineChars && i < |SplitLines(CStr(s))|
    ensures LineChars * i <= StrLen(s)
    ensures StrNCpy(s[LineChars * i..], LineChars) == SplitLines(CStr(s))[i]
  {
    var text := CStr(s);
    assert SplitLines(text) == Chunks(text);
    ChunkAt(text, i);
    CopyAt(s, LineChars * i);
  }

  /** Drawing line i after lines 0 .. i - 1. */
  lemma DrawNextLine(lines: seq<seq<char>>, i: nat)
    requires i < |lines|
    ensures DrawLines(lines[..i + 1]) == DrawLines(lines[..i]) + [DrawStr(TextX, TopY + LineHeight * i, lines[i])]
  {
  }

  /** The font and colour calls, then the body: the whole render. */
  lemma HeaderThenBody(before: seq<DrawCmd>, text: seq<char>, oom: Option<nat>)
    ensures before + [SetFont, SetColor(1)] + RenderBody(text, oom) == before + RenderCmds(text, oom)
  {
    assert RenderCmds(text, oom) == [SetFont, SetColor(1)] + RenderBody(text, oom);
  }

  /** The text and the flushes of a body framed by the font and colour calls and one flush. */
  lemma Framed(body: seq<DrawCmd>)
    requires SendBuffer !in body
    ensures Texts([SetFont, SetColor(1)] + (body + [SendBuffer])) == Texts(body)
    ensures Flushes([SetFont, SetColor(1)] + (body + [SendBuffer])) == 1
  {
    TextsAppend([SetFont, SetColor(1)], body + [SendBuffer]);
    TextsAppend(body, [SendBuffer]);
    FlushesAppend([SetFont, SetColor(1)], body + [SendBuffer]);
    FlushesAppend(body, [SendBuffer]);
    assert Texts([SetFont, SetColor(1)]) == [] + Texts([SetColor(1)]);
    assert Texts([SendBuffer]) == [] + Texts([]);
    assert Flushes([SendBuffer]) == 1 + Flushes([]);
  }

  /** A completed render carries exactly the text, in order. */
  lemma RenderCompletedText(text: seq<char>, oom: Option<nat>)
    requires FailedLine(text, oom) == None
    ensures Texts(RenderCmds(text, oom)) == text
  {
    var body := DrawLines(SplitLines(text));
    assert RenderCmds(text, oom) == [SetFont, SetColor(1)] + (body + [SendBuffer]);
    DrawLinesTexts(SplitLines(text));
    SplitLinesConcat(text);
    Framed(body);
  }

  /** A completed render flushes exactly once, as its last call. */
  lemma RenderCompletedFlush(text: seq<char>, oom: Option<nat>)
    requires FailedLine(text, oom) == None
    ensures Flushes(RenderCmds(text, oom)) == 1
    ensures RenderCmds(text, oom)[|RenderCmds(text, oom)| - 1] == SendBuffer
  {
    var body := DrawLines(SplitLines(text));
    assert RenderCmds(text, oom) == [SetFont, SetColor(1)] + (body + [SendBuffer]);
    DrawLinesTexts(SplitLines(text));
    Framed(body);
  }

  /** Between font/colour set-up and the flush, call i + 2 draws line i at (14, 20 + 10 i), at most 20 characters. */
  lemma RenderCompletedLines(text: seq<char>, oom: Option<nat>)
    requires FailedLine(text, oom) == None
    ensures |RenderCmds(text, oom)| == |SplitLines(text)| + 3
    ensures forall i :: 0 <= i < |SplitLines(text)| ==>
      RenderCmds(text, oom)[i + 2] == DrawStr(TextX, TopY + LineHeight * i, SplitLines(text)[i]) &&
      |SplitLines(text)[i]| <= LineChars
  {
    var lines := SplitLines(text);
    var cmds := RenderCmds(text, oom);
    assert cmds == [SetFont, SetColor(1)] + DrawLines(lines) + [SendBuffer];
    forall i | 0 <= i < |lines|
      ensures cmds[i + 2] == DrawStr(TextX, TopY + LineHeight * i, lines[i]) && |lines[i]| <= LineChars
    {
      if |text| > LineChars {
        ChunkAt(text, i);
      }
    }
  }

  /**
   * A render cut short by a failed allocation at line k has drawn lines
   * 0 .. k-1, which hold the first 20 k characters, and flushed nothing.
   */
  lemma RenderAborted(text: seq<char>, oom: Option<nat>, k: nat)
    requires FailedLine(text, oom) == Some(k)
    ensures Texts(RenderCmds(text, oom)) == text[..LineChars * k]
    ensures SendBuffer !in RenderCmds(text, oom)
  {
    var lines := SplitLines(text);
    var head: seq<DrawCmd> := [SetFont, SetColor(1)];
    SplitLinesShape(text);
    ChunksPrefixConcat(text, k);
    DrawLinesTexts(lines[..k]);
    TextsAppend(head, DrawLines(lines[..k]));
    assert Texts(head) == [] + Texts([SetColor(1)]);
  }

  /** The first k chunks of a long text joined are its first 20 k characters. */
  lemma {:induction false} ChunksPrefixConcat(s: seq<char>, k: nat)
    requires k < |Chunks(s)|
    ensures LineChars * k <= |s|
    ensures Concat(Chunks(s)[..k]) == s[..LineChars * k]
    decreases k
  {
    if k > 0 {
      var lines := Chunks(s);
      ChunkAt(s, k - 1);
      ChunksPrefixConcat(s, k - 1);
      assert lines[..k] == lines[..k - 1] + [lines[k - 1]];
      ConcatSnoc(lines[..k - 1], lines[k - 1]);
      assert s[..LineChars * k] == s[..LineChars * (k - 1)] + s[LineChars * (k - 1) .. LineChars * k];
    } else {
      assert Chunks(s)[..0] == [];
    }
  }

  // ---------------------------------------------------------------------
  // The render surface and its semaphore
  // ---------------------------------------------------------------------

  /** How a call of write_to_disp ended. */
  datatype RenderOutcome =
    | Rendered     // all lines drawn and flushed, semaphore given back
    | NullString   // NULL text: returned holding the semaphore
    | AllocFailed  // a line buffer could not be allocated: returned holding the semaphore
    | Blocked      // the semaphore was already held: the caller waits for ever

  /** The u8g2 frame buffer (as a trace of calls) and xMsgDisplaySem. */
  class Display {
    var trace: seq<DrawCmd>
    var held: bool

    constructor ()
      ensures trace == [] && !held
    {
      trace := [];
      held := false;
    }

    /** display_update_notif: draws the dot in colour 1 iff the queue is not empty, and flushes. */
    method UpdateNotif(q: Fifo<seq<char>>)
      requires q.Valid()
      modifies this
      ensures trace == old(trace) + NotifCmds(|q.items|)
      ensures held == old(held)
    {
      var msgs := q.Waiting();
      if msgs > 0 {
        trace := trace + [SetColor(1), DrawDisc(NotifX, NotifY, NotifR), SendBuffer];
      } else {
        trace := trace + [SetColor(0), DrawDisc(NotifX, NotifY, NotifR), SendBuffer];
      }
    }

    /** display_clear_msg_text: one colour-0 box at (14, 10), 100 by 80, then a flush; nothing else. */
    method ClearMsgText()
      modifies this
      ensures trace == old(trace) + [SetColor(0), DrawBox(14, 10, 100, 80), SendBuffer]
      ensures held == old(held)
    {
      trace := trace + [SetColor(0), DrawBox(14, 10, 100, 80), SendBuffer];
    }

    /**
     * write_to_disp. str is the caller's buffer (None for a NULL pointer); its
     * text is what strlen sees. oom names the line, if any, whose malloc fails.
     */
    method WriteToDisp(str: Option<seq<char>>, oom: Option<nat>) returns (r: RenderOutcome)
      modifies this
      ensures old(held) ==> r == Blocked && trace == old(trace) && held
      ensures !old(held) && str.None? ==> r == NullString && trace == old(trace) && held
      ensures !old(held) && str.Some? ==>
        && trace == old(trace) + RenderCmds(CStr(str.value), oom)
        && (r == Rendered <==> FailedLine(CStr(str.value), oom).None?)
        && (r == AllocFailed <==> FailedLine(CStr(str.value), oom).Some?)
      ensures held <==> r != Rendered
    {
      if held {
        return Blocked;
      }
      held := true;
      if str.None? {
        return NullString;
      }
      var completed := DrawText(str.value, oom);
      if !completed {
        return AllocFailed;
      }
      held := false;
      r := Rendered;
    }

    /** The drawing part of write_to_disp, between taking and giving the semaphore. */
    method DrawText(s: seq<char>, oom: Option<nat>) returns (completed: bool)
      modifies this
      ensures held == old(held)
      ensures completed <==> FailedLine(CStr(s), oom).None?
      ensures trace == old(trace) + RenderCmds(CStr(s), oom)
    {
      trace := trace + [SetFont, SetColor(1)];
      var len := StrLen(s);
      if len > LineChars {
        completed := DrawSplitLines(s, oom);
      } else {
        completed := DrawOneLine(s, oom);
      }
      HeaderThenBody(old(trace), CStr(s), oom);
    }

    /** The one-line branch of write_to_disp: the whole text at (14, 20), then a flush. */
    method DrawOneLine(s: seq<char>, oom: Option<nat>) returns (completed: bool)
      requires StrLen(s) <= LineChars
      modifies this
      ensures held == old(held)
      ensures completed && FailedLine(CStr(s), oom).None?
      ensures trace == old(trace) + RenderBody(CStr(s), oom)
    {
      var len := StrLen(s);
      assert SplitLines(CStr(s)) == [s[..len]];
      assert DrawLines([s[..len]]) == [DrawStr(TextX, TopY, s[..len])];
      trace := trace + [DrawStr(TextX, TopY, s[..len]), SendBuffer];
      completed := true;
    }

    /**
     * The long-text branch of write_to_disp: for each of the L / 20 + 1 lines,
     * allocate a 21-character buffer, strncpy 20 characters from offset 20 i,
     * draw it at (14, 20 + 10 i); then flush. A failed allocation returns at
     * once, without the flush.
     */
    method DrawSplitLines(s: seq<char>, oom: Option<nat>) returns (completed: bool)
      requires StrLen(s) > LineChars
      modifies this
      ensures held == old(held)
      ensures completed <==> FailedLine(CStr(s), oom).None?
      ensures trace == old(trace) + RenderBody(CStr(s), oom)
    {
      ghost var text := CStr(s);
      ghost var lines := SplitLines(text);
      var len := StrLen(s);
      var splitLines := len / LineChars + 1;
      var i := 0;
      while i < splitLines
        invariant 0 <= i <= splitLines == |lines|
        invariant oom.Some? ==> i <= oom.value
        invariant held == old(held)
        invariant trace == old(trace) + DrawLines(lines[..i])
      {
        if oom == Some(i) {
          return false;
        }
        LineStart(s, i);
        var substring := StrNCpy(s[LineChars * i..], LineChars);
        NextLine(s, i);
        DrawNextLine(lines, i);
        trace := trace + [DrawStr(TextX, TopY + LineHeight * i, substring)];
        i := i + 1;
      }
      assert lines[..i] == lines;
      trace := trace + [SendBuffer];
      completed := true;
    }

    /**
     * write_to_disp_temp: render, wait (not modelled), then clear the message
     * area; a caller blocked on the semaphore never reaches the clear.
     */
    method WriteToDispTemp(str: Option<seq<char>>, oom: Option<nat>) returns (r: RenderOutcome)
      modifies this
      ensures old(held) ==> r == Blocked && trace == old(trace) && held
      ensures !old(held) && str.None? ==> r == NullString && trace == old(trace) + ClearCmds && held
      ensures !old(held) && str.Some? ==>
        && trace == old(trace) + RenderCmds(CStr(str.value), oom) + ClearCmds
        && (r == Rendered <==> FailedLine(CStr(str.value), oom).None?)
      ensures held <==> r != Rendered
    {
      r := WriteToDisp(str, oom);
      if r != Blocked {
        ClearMsgText();
      }
    }
  }

  // ---------------------------------------------------------------------
  // displayLoop
  // ---------------------------------------------------------------------

  /** processState: 0 = idle, waiting for a press with messages queued; 1 = showing a message. */
  datatype Mode = Idle | Showing

  /** A press as the loop sees it: the level was high (released) and is now low. */
  predicate FallingEdge(last: bool, current: bool)
  {
    last && !current
  }

  /**
   * The mode after one cycle: only a falling edge moves the machine, from
   * Idle only when a message is waiting, and from Showing always.
   */
  function NextMode(m: Mode, edge: bool, pending: nat): (n: Mode)
    ensures n != m ==> edge
    ensures m == Showing && edge ==> n == Idle
    ensures m == Idle ==> (n == Showing <==> edge && pending > 0)
  {
    match m
    case Idle => if edge && pending > 0 then Showing else Idle
    case Showing => if edge then Idle else Showing
  }

  /**
   * The state displayLoop keeps across cycles: its mode, the last button
   * level (true = high, released, under the pull-up), its receive buffer, and
   * whether the task is stuck waiting for the display semaphore.
   */
  class DisplayController {
    var mode: Mode
    var lastLevel: bool
    var message: seq<char>
    var hung: bool
    const disp: Display
    const queue: Fifo<seq<char>>  // xMsgBufferQueue

    ghost predicate Valid()
      reads this, queue
    {
      queue.Valid()
    }

    /** Task start: the button level is sampled once and the machine is idle. */
    constructor (disp: Display, queue: Fifo<seq<char>>, level: bool, buffer: seq<char>)
      requires queue.Valid()
      ensures Valid()
      ensures this.disp == disp && this.queue == queue
      ensures mode == Idle && lastLevel == level && message == buffer && !hung
    {
      this.disp := disp;
      this.queue := queue;
      mode := Idle;
      lastLevel := level;
      message := buffer;
      hung := false;
    }

    /**
     * One pass of the for(;;) body of displayLoop, with the button at level,
     * receiveOk the outcome of xQueueReceive and oom the failing allocation,
     * if any, of the render.
     */
    method Cycle(level: bool, receiveOk: bool, oom: Option<nat>)
      requires Valid()
      modifies this, disp, queue
      ensures Valid()
      ensures old(hung) ==>
        && hung && mode == old(mode) && lastLevel == old(lastLevel) && message == old(message)
        && queue.items == old(queue.items) && disp.trace == old(disp.trace) && disp.held == old(disp.held)
      ensures !old(hung) ==>
        var edge := FallingEdge(old(lastLevel), level);
        var notified := old(disp.trace) + NotifCmds(|old(queue.items)|);
        var taking := edge && old(mode) == Idle && |old(queue.items)| > 0;
        if taking && receiveOk && old(disp.held) then
          // the oldest message is taken, then write_to_disp waits for ever
          && hung && mode == Idle && lastLevel == old(lastLevel)
          && queue.items == old(queue.items)[1..] && message == old(queue.items)[0]
          && disp.trace == notified && disp.held
        else if taking && receiveOk then
          // the oldest message is rendered, the buffer zeroed
          && !hung && mode == Showing && lastLevel == level
          && queue.items == old(queue.items)[1..] && message == Zeros(MsgCharLen)
          && disp.trace == notified + RenderCmds(CStr(old(queue.items)[0]), oom)
          && (disp.held <==> FailedLine(CStr(old(queue.items)[0]), oom).Some?)
        else
          && !hung && lastLevel == level && message == old(message)
          && mode == NextMode(old(mode), edge, |old(queue.items)|)
          && queue.items == old(queue.items) && disp.held == old(disp.held)
          && disp.trace == notified + (if edge && old(mode) == Showing then ClearCmds else [])
    {
      if hung {
        return;
      }
      disp.UpdateNotif(queue);
      var current := level;
      if mode == Idle {
        if !current && lastLevel && queue.Waiting() > 0 {
          if receiveOk {
            var item := queue.Receive();
            message := item.value;
            if disp.held {
              hung := true;
              return;
            }
            var _ := disp.WriteToDisp(Some(message), oom);
            message := Zeros(MsgCharLen);
          }
          mode := Showing;
        }
      } else if mode == Showing {
        if !current && lastLevel {
          disp.ClearMsgText();
          mode := Idle;
        }
      }
      lastLevel := current;
    }
  }
}
