/**
 * The u8g2 render surface, seen only through the calls the firmware makes on it.
 * Pixels and fonts are not modelled: a run of the firmware is the trace of
 * these calls, in the order they were issued.
 */
module Surface {

  datatype DrawCmd =
    | SetFont                                 // u8g2_SetFont(u8g2_font_5x8_tr), the only font used
    | SetColor(color: int)                    // u8g2_SetDrawColor
    | DrawBox(x: int, y: int, w: int, h: int) // u8g2_DrawBox
    | DrawDisc(x: int, y: int, r: int)        // u8g2_DrawDisc with U8G2_DRAW_ALL
    | DrawStr(x: int, y: int, text: seq<char>) // u8g2_DrawStr
    | SendBuffer                              // u8g2_SendBuffer: flush the frame buffer to the panel

  /** The text of every DrawStr of a trace, concatenated in order. */
  function Texts(cmds: seq<DrawCmd>): (s: seq<char>)
    ensures cmds == [] ==> s == []
  {
    if cmds == [] then []
    else (if cmds[0].DrawStr? then cmds[0].text else []) + Texts(cmds[1..])
  }

  /** Texts distributes over concatenation of traces. */
  lemma {:induction false} TextsAppend(a: seq<DrawCmd>, b: seq<DrawCmd>)
    ensures Texts(a + b) == Texts(a) + Texts(b)
  {
    if a != [] {
      assert (a + b)[1..] == a[1..] + b;
      TextsAppend(a[1..], b);
    } else {
      assert a + b == b;
    }
  }

  /** How many flushes a trace holds. */
  function Flushes(cmds: seq<DrawCmd>): (n: nat)
    ensures n <= |cmds|
    ensures n == 0 <==> SendBuffer !in cmds
  {
    if cmds == [] then 0
    else (if cmds[0] == SendBuffer then 1 else 0) + Flushes(cmds[1..])
  }

  lemma {:induction false} FlushesAppend(a: seq<DrawCmd>, b: seq<DrawCmd>)
    ensures Flushes(a + b) == Flushes(a) + Flushes(b)
  {
    if a != [] {
      assert (a + b)[1..] == a[1..] + b;
      FlushesAppend(a[1..], b);
    } else {
      assert a + b == b;
    }
  }
}
