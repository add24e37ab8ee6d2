/**
 * The text layout rule of write_to_disp: a message is cut into lines of at
 * most 20 characters, purely by count, drawn at x = 14 from y = 20 down in
 * steps of 10 pixels.
 */
module Layout {
  import opened Surface

  const LineChars: nat := 20   // characters per display line
  const TextX: int := 14       // left edge of the message area
  const TopY: int := 20        // baseline of the first message line
  const LineHeight: int := 10  // distance between baselines

  function Min(a: int, b: int): int { if a <= b then a else b }

  /**
   * The chunking loop of write_to_disp: cuts of 20 characters, and one more
   * cut for what remains, which is empty when the length is a multiple of 20.
   */
  function Chunks(s: seq<char>): (lines: seq<seq<char>>)
    ensures |lines| == |s| / LineChars + 1
    decreases |s|
  {
    if |s| < LineChars then [s] else [s[..LineChars]] + Chunks(s[LineChars..])
  }

  /** The lines write_to_disp draws for a text: the text itself if it fits on one line. */
  function SplitLines(s: seq<char>): (lines: seq<seq<char>>)
    ensures |lines| == if |s| <= LineChars then 1 else |s| / LineChars + 1
  {
    if |s| <= LineChars then [s] else Chunks(s)
  }

  /** Lines joined back together, in order. */
  function Concat(lines: seq<seq<char>>): seq<char>
  {
    if lines == [] then [] else lines[0] + Concat(lines[1..])
  }

  /** One DrawStr per line, line i at (14, 20 + 10 i). */
  function DrawLines(lines: seq<seq<char>>): (cmds: seq<DrawCmd>)
    ensures |cmds| == |lines|
    ensures forall k :: 0 <= k < |lines| ==> cmds[k] == DrawStr(TextX, TopY + LineHeight * k, lines[k])
  {
    seq(|lines|, k requires 0 <= k < |lines| => DrawStr(TextX, TopY + LineHeight * k, lines[k]))
  }

  /** Line i of the chunking holds the characters [20 i, min(20 i + 20, L)). */
  lemma {:induction false} ChunkAt(s: seq<char>, i: nat)
    requires i < |s| / LineChars + 1
    ensures LineChars * i <= |s|
    ensures Chunks(s)[i] == s[LineChars * i .. Min(LineChars * i + LineChars, |s|)]
  {
    if |s| >= LineChars && i > 0 {
      ChunkAt(s[LineChars..], i - 1);
      assert Chunks(s)[i] == Chunks(s[LineChars..])[i - 1];
    }
  }

  /** Joining the chunks gives back the text. */
  lemma {:induction false} ChunksConcat(s: seq<char>)
    ensures Concat(Chunks(s)) == s
    decreases |s|
  {
    if |s| < LineChars {
      assert Concat([s]) == s + Concat([]);
    } else {
      var rest := Chunks(s[LineChars..]);
      ChunksConcat(s[LineChars..]);
      assert ([s[..LineChars]] + rest)[1..] == rest;
      assert s[..LineChars] + s[LineChars..] == s;
    }
  }

  /**
   * What the layout promises about every text: the number of lines, the
   * characters each line holds, no line longer than 20 characters, and an
   * empty last line when a long text is a multiple of 20 characters.
   */
  lemma SplitLinesShape(s: seq<char>)
    ensures |s| <= LineChars ==> SplitLines(s) == [s]
    ensures |s| > LineChars ==> |SplitLines(s)| == |s| / LineChars + 1
    ensures forall i :: 0 <= i < |SplitLines(s)| ==>
      LineChars * i <= |s| && SplitLines(s)[i] == s[LineChars * i .. Min(LineChars * i + LineChars, |s|)]
    ensures forall i :: 0 <= i < |SplitLines(s)| ==> |SplitLines(s)[i]| <= LineChars
    ensures |s| > LineChars && |s| % LineChars == 0 ==> SplitLines(s)[|s| / LineChars] == []
  {
    var lines := SplitLines(s);
    forall i | 0 <= i < |lines|
      ensures LineChars * i <= |s| && lines[i] == s[LineChars * i .. Min(LineChars * i + LineChars, |s|)]
    {
      if |s| > LineChars { ChunkAt(s, i); }
    }
  }

  /** Round trip: the drawn lines, joined in order, are the original text. */
  lemma SplitLinesConcat(s: seq<char>)
    ensures Concat(SplitLines(s)) == s
  {
    if |s| <= LineChars {
      assert Concat([s]) == s + Concat([]);
    } else {
      ChunksConcat(s);
    }
  }

  lemma {:induction false} ConcatSnoc(lines: seq<seq<char>>, last: seq<char>)
    ensures Concat(lines + [last]) == Concat(lines) + last
  {
    if lines == [] {
      assert Concat([last]) == last + Concat([]);
    } else {
      assert (lines + [last])[1..] == lines[1..] + [last];
      ConcatSnoc(lines[1..], last);
    }
  }

  /** The text carried by the DrawStr commands of the lines is the lines joined in order. */
  lemma {:induction false} DrawLinesTexts(lines: seq<seq<char>>)
    ensures Texts(DrawLines(lines)) == Concat(lines)
    ensures SendBuffer !in DrawLines(lines)
  {
    if lines != [] {
      var n := |lines| - 1;
      var init := lines[..n];
      DrawLinesTexts(init);
      assert DrawLines(lines) == DrawLines(init) + [DrawStr(TextX, TopY + LineHeight * n, lines[n])];
      TextsAppend(DrawLines(init), [DrawStr(TextX, TopY + LineHeight * n, lines[n])]);
      assert Texts([DrawStr(TextX, TopY + LineHeight * n, lines[n])]) == lines[n] + Texts([]);
      assert lines == init + [lines[n]];
      ConcatSnoc(init, lines[n]);
    }
  }
}
