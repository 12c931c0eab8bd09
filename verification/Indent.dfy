/** Tab and Shift-Tab in the composer: when outdenting undoes an indent. */
module Indent {
  import opened Wrappers

  const INDENT := "    "
  const NL := '\n'

  datatype Draft = Draft(text: string, start: nat, end: nat)

  datatype Direction = In | Out

  predicate InBounds(d: Draft) { d.start <= |d.text| && d.end <= |d.text| }

  // ---- the string primitives, with their out-of-range behaviour

  /** `text.lastIndexOf("\n", position)`: a negative position searches from index 0. -1 when there is none. */
  function LastNewline(text: string, position: int): (at: int)
    ensures -1 <= at < |text|
    ensures at >= 0 ==> text[at] == NL && at <= Max(0, position)
    ensures forall k | at < k < |text| && k <= Max(0, position) :: text[k] != NL
    decreases Max(0, position)
  {
    if text == [] then -1
    else
      var from := Min(Max(0, position), |text| - 1);
      if text[from] == NL then from else if from == 0 then -1 else LastNewlineBelow(text, from)
  }

  function LastNewlineBelow(text: string, bound: nat): (at: int)
    requires bound <= |text|
    ensures -1 <= at < bound
    ensures at >= 0 ==> text[at] == NL
    ensures forall k | at < k < bound :: text[k] != NL
  {
    if bound == 0 then -1 else if text[bound - 1] == NL then bound - 1 else LastNewlineBelow(text, bound - 1)
  }

  function LineStart(text: string, index: int): (at: nat)
    ensures at <= |text|
  {
    LastNewline(text, Max(0, index) - 1) + 1
  }

  /** `text.indexOf("\n", index)`, or the length when there is none. */
  function LineEnd(text: string, index: nat): (at: nat)
    requires index <= |text|
    ensures index <= at <= |text|
    ensures at < |text| ==> text[at] == NL
    ensures forall k | index <= k < at :: text[k] != NL
    decreases |text| - index
  {
    if index == |text| || text[index] == NL then index else LineEnd(text, index + 1)
  }

  /** `text.slice(from, to)`: empty when the bounds cross. */
  function Slice(text: string, from: nat, to: nat): string
    requires from <= |text| && to <= |text|
  {
    if from <= to then text[from..to] else ""
  }

  /** `block.split("\n")`. */
  function Split(block: string): (lines: seq<string>)
    ensures lines != []
  {
    var at := LineEnd(block, 0);
    if at == |block| then [block] else [block[..at]] + Split(block[at + 1..])
  }

  /** `lines.join("\n")`. */
  function Join(lines: seq<string>): string {
    if lines == [] then "" else if |lines| == 1 then lines[0] else lines[0] + [NL] + Join(lines[1..])
  }

  function Leading(line: string, max: nat): (count: nat)
    ensures count <= max && count <= |line|
    ensures forall k | 0 <= k < count :: line[k] == ' '
    ensures count < max && count < |line| ==> line[count] != ' '
  {
    if max == 0 || line == [] || line[0] != ' ' then 0 else 1 + Leading(line[1..], max - 1)
  }

  function Indented(lines: seq<string>): seq<string> { Map(lines, (line: string) => INDENT + line) }

  function Cut(line: string): nat { Leading(line, |INDENT|) }

  function Outdented(lines: seq<string>): seq<string> { Map(lines, (line: string) => line[Cut(line)..]) }

  function Removed(lines: seq<string>): nat { if lines == [] then 0 else Cut(lines[0]) + Removed(lines[1..]) }

  function BlockFrom(text: string, from: nat): nat { LineStart(text, from) }

  function BlockTo(text: string, from: nat, to: nat): (at: nat)
    requires from <= to <= |text|
    ensures at <= |text|
  {
    LineEnd(text, if to > from && text[to - 1] == NL then to - 1 else to)
  }

  function Lines(text: string, from: nat, to: nat): (lines: seq<string>)
    requires from <= to <= |text|
    ensures lines != []
  {
    Split(Slice(text, BlockFrom(text, from), BlockTo(text, from, to)))
  }

  function OutdentRange(text: string, from: nat, to: nat): Draft
    requires from <= to <= |text|
  {
    var blockFrom, blockTo := BlockFrom(text, from), BlockTo(text, from, to);
    var lines := Lines(text, from, to);
    var start := Max(blockFrom, from - Cut(lines[0]));
    Draft(text[..blockFrom] + Join(Outdented(lines)) + text[blockTo..], start, Max(start, to - Removed(lines)))
  }

  function IndentRange(text: string, from: nat, to: nat): Draft
    requires from <= to <= |text|
  {
    var blockFrom, blockTo := BlockFrom(text, from), BlockTo(text, from, to);
    var lines := Lines(text, from, to);
    Draft(text[..blockFrom] + Join(Indented(lines)) + text[blockTo..], from + |INDENT|, to + |INDENT| * |lines|)
  }

  function Apply(d: Draft, direction: Direction): Draft
    requires InBounds(d)
  {
    var from, to := Min(d.start, d.end), Max(d.start, d.end);
    if direction.Out? then OutdentRange(d.text, from, to)
    else if from < to then IndentRange(d.text, from, to)
    else Draft(d.text[..from] + INDENT + d.text[from..], from + |INDENT|, from + |INDENT|)
  }

  // ---- the loops

  method LeadingSpaces(line: string, max: nat) returns (count: nat)
    ensures count == Leading(line, max)
  {
    count := 0;
    while count < max && count < |line| && line[count] == ' '
      invariant count <= max && count <= |line|
      invariant Leading(line, max) == count + Leading(line[count..], max - count)
    {
      assert line[count..][1..] == line[count + 1..];
      count := count + 1;
    }
  }

  /** The outdent branch: one pass over the lines, remembering what the first lost and what all lost. */
  method OutdentLines(lines: seq<string>) returns (nextLines: seq<string>, removedBefore: nat, removedTotal: nat)
    requires lines != []
    ensures nextLines == Outdented(lines) && removedBefore == Cut(lines[0]) && removedTotal == Removed(lines)
  {
    removedBefore, removedTotal, nextLines := 0, 0, [];
    for index := 0 to |lines|
      invariant |nextLines| == index && forall k | 0 <= k < index :: nextLines[k] == Outdented(lines)[k]
      invariant removedTotal + Removed(lines[index..]) == Removed(lines)
      invariant index > 0 ==> removedBefore == Cut(lines[0])
    {
      var cut := LeadingSpaces(lines[index], |INDENT|);
      if index == 0 {
        removedBefore := cut;
      }
      removedTotal := removedTotal + cut;
      nextLines := nextLines + [lines[index][cut..]];
    }
  }

  method ShiftLines(text: string, from: nat, to: nat, direction: Direction) returns (r: Draft)
    requires from <= to <= |text|
    ensures r == if direction.In? then IndentRange(text, from, to) else OutdentRange(text, from, to)
  {
    hide LastNewline, LineEnd, Split, Join, Cut, Removed, Outdented, Indented;
    var blockFrom := LineStart(text, from);
    var lastIndex := if to > from && text[to - 1] == NL then to - 1 else to;
    var blockTo := LineEnd(text, lastIndex);
    var lines := Split(Slice(text, blockFrom, blockTo));
    if direction.In? {
      return Draft(text[..blockFrom] + Join(Indented(lines)) + text[blockTo..], from + |INDENT|, to + |INDENT| * |lines|);
    }
    var nextLines, removedBefore, removedTotal := OutdentLines(lines);
    var start := Max(blockFrom, from - removedBefore);
    return Draft(text[..blockFrom] + Join(nextLines) + text[blockTo..], start, Max(start, to - removedTotal));
  }

  method ApplyComposerIndent(d: Draft, direction: Direction) returns (r: Draft)
    requires InBounds(d)
    ensures r == Apply(d, direction)
    ensures direction.In? && d.start == d.end ==>
              r == Draft(d.text[..d.start] + "    " + d.text[d.start..], d.start + 4, d.start + 4)
  {
    hide IndentRange, OutdentRange;
    var from, to := Min(d.start, d.end), Max(d.start, d.end);
    if direction.In? && from == to {
      var next := d.text[..from] + INDENT + d.text[from..];
      return Draft(next, from + |INDENT|, from + |INDENT|);
    }
    r := ShiftLines(d.text, from, to, direction);
  }

  // ---- splitting and joining

  predicate OneLine(line: string) { NL !in line }

  lemma {:induction false} SplitJoin(block: string)
    ensures Join(Split(block)) == block
    ensures forall line | line in Split(block) :: OneLine(line)
  {
    var at := LineEnd(block, 0);
    if at < |block| {
      SplitJoin(block[at + 1..]);
      assert block == block[..at] + [NL] + block[at + 1..];
    }
  }

  lemma {:induction false} JoinSplit(lines: seq<string>)
    requires lines != [] && forall line | line in lines :: OneLine(line)
    ensures Split(Join(lines)) == lines
  {
    var block, first := Join(lines), lines[0];
    assert first in lines;
    if |lines| > 1 {
      assert block == first + [NL] + Join(lines[1..]);
      assert forall k | 0 <= k < |first| :: block[k] == first[k];
      LineEndAt(block, 0, |first|);
      assert block[..|first|] == first && block[|first| + 1..] == Join(lines[1..]);
      JoinSplit(lines[1..]);
    } else {
      LineEndAt(block, 0, |first|);
      assert lines == [first];
    }
  }

  lemma LineEndAt(text: string, index: nat, at: nat)
    requires index <= at <= |text| && (at < |text| ==> text[at] == NL)
    requires forall k | index <= k < at :: text[k] != NL
    ensures LineEnd(text, index) == at
  {}

  lemma LineStartAt(text: string, index: nat, at: nat)
    requires at <= index <= |text| && 0 < index && (at > 0 ==> text[at - 1] == NL)
    requires forall k | at <= k < index :: text[k] != NL
    ensures LineStart(text, index) == at
  {}

  /** Text without a newline at the front of a block lies in its first line, at the back in its last. */
  lemma {:induction false} EdgesOfSplit(block: string, front: nat, back: nat)
    requires front <= |block| && back <= |block|
    requires OneLine(block[..front]) && OneLine(block[|block| - back..])
    ensures front <= |Split(block)[0]|
    ensures back <= |Split(block)[|Split(block)| - 1]|
  {
    var at := LineEnd(block, 0);
    assert forall k | 0 <= k < front :: block[k] == block[..front][k];
    assert forall k | |block| - back <= k < |block| :: block[k] == block[|block| - back..][k - (|block| - back)];
    if at < |block| {
      assert front <= at < |block| - back;
      var rest := block[at + 1..];
      assert rest[|rest| - back..] == block[|block| - back..];
      EdgesOfSplit(rest, 0, back);
    }
  }

  lemma {:induction false} IndentedLength(lines: seq<string>)
    ensures |Join(Indented(lines))| == |Join(lines)| + |INDENT| * |lines|
  {
    if |lines| > 1 {
      IndentedLength(lines[1..]);
      assert Indented(lines)[1..] == Indented(lines[1..]);
    }
  }

  lemma {:induction false} JoinEdges(lines: seq<string>)
    requires lines != []
    ensures lines[0] <= Join(lines)
    ensures var last := lines[|lines| - 1]; |last| <= |Join(lines)| && Join(lines)[|Join(lines)| - |last|..] == last
  {
    if |lines| > 1 {
      var last, rest := lines[|lines| - 1], Join(lines[1..]);
      JoinEdges(lines[1..]);
      assert lines[1..][|lines| - 2] == last;
      var head := lines[0] + [NL];
      assert (head + rest)[|head| + |rest| - |last|..] == rest[|rest| - |last|..];
    }
  }

  /** An indented block begins with the indent and the first line, and still ends with the last line. */
  lemma IndentedEdges(lines: seq<string>)
    requires lines != []
    ensures INDENT + lines[0] <= Join(Indented(lines))
    ensures var last, joined := lines[|lines| - 1], Join(Indented(lines));
            |last| <= |joined| && joined[|joined| - |last|..] == last
  {
    JoinEdges(Indented(lines));
    var last, joined := lines[|lines| - 1], Join(Indented(lines));
    assert joined[|joined| - |last|..] == joined[|joined| - |INDENT + last|..][|INDENT|..];
  }

  lemma {:induction false} OutdentIndented(lines: seq<string>)
    ensures Outdented(Indented(lines)) == lines
    ensures Removed(Indented(lines)) == |INDENT| * |lines|
    ensures lines != [] ==> Cut(Indented(lines)[0]) == |INDENT|
  {
    forall i | 0 <= i < |lines| ensures Cut(INDENT + lines[i]) == |INDENT| && (INDENT + lines[i])[|INDENT|..] == lines[i] {
      CutsTheIndent(lines[i]);
    }
    if lines != [] {
      OutdentIndented(lines[1..]);
      assert Indented(lines)[1..] == Indented(lines[1..]);
    }
  }

  lemma CutsTheIndent(line: string)
    ensures Cut(INDENT + line) == |INDENT|
  {
    var s := INDENT + line;
    assert forall k | 0 <= k < 4 :: s[k] == ' ';
  }

  // ---- the round trip

  /** The one family where the code goes wrong: the search for the line start runs past the text's leading newline. */
  predicate StartsOnNewline(d: Draft)
    requires InBounds(d)
  {
    Min(d.start, d.end) == 0 && |d.text| > 0 && d.text[0] == NL
  }

  predicate Plain(text: string, from: nat, to: nat) { forall k | from <= k < to && k < |text| :: text[k] != NL }

  /** Away from that family the block begins at or before the selection, just after a newline or at the start. */
  lemma BlockShape(text: string, from: nat, to: nat)
    requires from <= to <= |text| && !(from == 0 && |text| > 0 && text[0] == NL)
    ensures var a, b := BlockFrom(text, from), BlockTo(text, from, to);
            && a <= from <= b <= |text| && to <= b + 1
            && (a > 0 ==> text[a - 1] == NL) && (b < |text| ==> text[b] == NL)
            && Plain(text, a, from)
            && (if from < to && text[to - 1] == NL then b == to - 1 else to <= b && Plain(text, to, b))
            && (from < to ==> Plain(text, b - Back(text, b, to), b))
  {}

  lemma PlainSlice(text: string, from: nat, to: nat)
    requires from <= to <= |text| && Plain(text, from, to)
    ensures OneLine(text[from..to])
  {}

  /** Newline-free text at either edge of a block lies in its first and last line. */
  lemma EdgeLines(text: string, a: nat, b: nat, from: nat, back: nat)
    requires a <= from <= b <= |text| && back <= b - a && Plain(text, a, from) && Plain(text, b - back, b)
    ensures var lines := Split(text[a..b]); from - a <= |lines[0]| && back <= |lines[|lines| - 1]|
  {
    hide Split, LineEnd;
    var block := text[a..b];
    PlainSlice(text, a, from);
    PlainSlice(text, b - back, b);
    assert block[..from - a] == text[a..from] && block[|block| - back..] == text[b - back..b];
    EdgesOfSplit(block, from - a, back);
  }

  function IndentedText(text: string, a: nat, b: nat, lines: seq<string>): string
    requires a <= b <= |text|
  {
    text[..a] + Join(Indented(lines)) + text[b..]
  }

  lemma IndentedPieces(text: string, a: nat, b: nat, lines: seq<string>)
    requires a <= b <= |text| && lines != [] && Join(lines) == text[a..b]
    ensures var n, e := IndentedText(text, a, b, lines), b + |INDENT| * |lines|;
            && |n| == |text| + |INDENT| * |lines| && a + |INDENT| <= e <= |n|
            && n[..a] == text[..a] && n[a..e] == Join(Indented(lines)) && n[e..] == text[b..]
  {
    hide Join, Indented;
    IndentedLength(lines);
  }

  lemma IndentedStart(text: string, a: nat, b: nat, lines: seq<string>, from: nat)
    requires a <= from <= b <= |text| && lines != [] && Join(lines) == text[a..b] && OneLine(lines[0])
    requires from - a <= |lines[0]| && (a > 0 ==> text[a - 1] == NL)
    ensures from + |INDENT| <= |IndentedText(text, a, b, lines)|
    ensures LineStart(IndentedText(text, a, b, lines), from + |INDENT|) == a
  {
    hide Join, Indented, LastNewline;
    var n := IndentedText(text, a, b, lines);
    IndentedPieces(text, a, b, lines);
    IndentedEdges(lines);
    var head, joined := INDENT + lines[0], Join(Indented(lines));
    assert head <= joined;
    forall k | a <= k < from + |INDENT| ensures n[k] != NL {
      assert n[k] == joined[k - a] == head[k - a];
    }
    assert a > 0 ==> n[a - 1] == text[..a][a - 1];
    LineStartAt(n, from + |INDENT|, a);
  }

  lemma IndentedEnd(text: string, a: nat, b: nat, lines: seq<string>, back: nat)
    requires a <= b <= |text| && lines != [] && Join(lines) == text[a..b]
    requires OneLine(lines[|lines| - 1]) && back <= |lines[|lines| - 1]|
    ensures b + |INDENT| * |lines| <= |IndentedText(text, a, b, lines)| && back <= b + |INDENT| * |lines|
    ensures Plain(IndentedText(text, a, b, lines), b + |INDENT| * |lines| - back, b + |INDENT| * |lines|)
  {
    hide Join, Indented;
    var n, e := IndentedText(text, a, b, lines), b + |INDENT| * |lines|;
    IndentedPieces(text, a, b, lines);
    IndentedEdges(lines);
    var last, joined := lines[|lines| - 1], Join(Indented(lines));
    assert |joined| == e - a;
    forall k | e - back <= k < e ensures n[k] != NL {
      assert n[k] == n[a..e][k - a] == joined[k - a] == joined[|joined| - |last|..][|last| - (e - k)];
    }
  }

  /** How much of the block's last line lies at or after the last selected character. */
  function Back(text: string, b: nat, to: nat): nat
    requires 0 < to <= |text| && to <= b + 1
  {
    if text[to - 1] == NL then 0 else b - to + 1
  }

  lemma SelectedBlock(text: string, from: nat, to: nat)
    requires from < to <= |text| && !(from == 0 && text[0] == NL)
    ensures var a, b, lines := BlockFrom(text, from), BlockTo(text, from, to), Lines(text, from, to);
            && a <= from <= b <= |text| && to <= b + 1
            && Join(lines) == text[a..b] && (forall line | line in lines :: OneLine(line))
            && from - a <= |lines[0]| && Back(text, b, to) <= |lines[|lines| - 1]|
  {
    hide Split, LineEnd, LastNewline, Join, LineStart;
    BlockShape(text, from, to);
    var a, b := BlockFrom(text, from), BlockTo(text, from, to);
    SplitJoin(text[a..b]);
    EdgeLines(text, a, b, from, Back(text, b, to));
  }

  /** The block that the outdent finds is the indented block. */
  lemma IndentedBlock(text: string, from: nat, to: nat, a: nat, b: nat, lines: seq<string>)
    requires from < to <= |text| && !(from == 0 && text[0] == NL)
    requires a == BlockFrom(text, from) && b == BlockTo(text, from, to) && lines == Lines(text, from, to)
    ensures a <= b <= |text|
    ensures from + |INDENT| < to + |INDENT| * |lines| <= |IndentedText(text, a, b, lines)|
    ensures BlockFrom(IndentedText(text, a, b, lines), from + |INDENT|) == a
    ensures BlockTo(IndentedText(text, a, b, lines), from + |INDENT|, to + |INDENT| * |lines|) == b + |INDENT| * |lines|
  {
    hide Split, LineEnd, LastNewline, Join, Indented, LineStart, Plain, BlockTo;
    BlockShape(text, from, to);
    SelectedBlock(text, from, to);
    assert lines[0] in lines && lines[|lines| - 1] in lines;
    IndentedPieces(text, a, b, lines);
    IndentedStart(text, a, b, lines, from);
    IndentedEnd(text, a, b, lines, Back(text, b, to));
    IndentedBlockEnd(text, a, b, lines, from, to);
  }

  lemma IndentedBlockEnd(text: string, a: nat, b: nat, lines: seq<string>, from: nat, to: nat)
    requires a <= from < to <= |text| && a <= b <= |text| && lines != [] && Join(lines) == text[a..b]
    requires b < |text| ==> text[b] == NL
    requires if text[to - 1] == NL then b == to - 1 else to <= b
    requires to + |INDENT| * |lines| <= |IndentedText(text, a, b, lines)|
    requires Plain(IndentedText(text, a, b, lines), b + |INDENT| * |lines| - Back(text, b, to), b + |INDENT| * |lines|)
    ensures BlockTo(IndentedText(text, a, b, lines), from + |INDENT|, to + |INDENT| * |lines|) == b + |INDENT| * |lines|
  {
    hide Split, LineEnd, LastNewline, Join, Indented, LineStart;
    IndentedPieces(text, a, b, lines);
    var n, grown := IndentedText(text, a, b, lines), |INDENT| * |lines|;
    assert b < |text| ==> n[b + grown] == n[b + grown..][0] == text[b..][0];
    if text[to - 1] == NL {
      LineEndAt(n, b + grown, b + grown);
    } else {
      LineEndAt(n, to + grown, b + grown);
    }
  }

  lemma OutdentUndoes(d: Draft)
    requires InBounds(d) && d.start != d.end && !StartsOnNewline(d)
    ensures InBounds(Apply(d, In))
    ensures Apply(Apply(d, In), Out) == Draft(d.text, Min(d.start, d.end), Max(d.start, d.end))
  {
    hide IndentRange, OutdentRange;
    IndentThenOutdent(d.text, Min(d.start, d.end), Max(d.start, d.end));
  }

  lemma OutdentOfBlock(text: string, from: nat, to: nat, a: nat, b: nat, lines: seq<string>)
    requires a <= from <= b <= |text| && from < to <= |text| && to <= b + 1 && lines != [] && Join(lines) == text[a..b]
    requires forall line | line in lines :: OneLine(line)
    requires var n, grown := IndentedText(text, a, b, lines), |INDENT| * |lines|;
             && to + grown <= |n| && BlockFrom(n, from + |INDENT|) == a && BlockTo(n, from + |INDENT|, to + grown) == b + grown
             && b + grown <= |n| && n[..a] == text[..a] && n[a..b + grown] == Join(Indented(lines)) && n[b + grown..] == text[b..]
    ensures OutdentRange(IndentedText(text, a, b, lines), from + |INDENT|, to + |INDENT| * |lines|) == Draft(text, from, to)
  {
    hide Split, Join, Cut, Removed, Outdented, Indented, BlockTo, BlockFrom, IndentedText;
    var n, grown := IndentedText(text, a, b, lines), |INDENT| * |lines|;
    JoinIndentedLines(lines);
    assert Lines(n, from + |INDENT|, to + grown) == Indented(lines);
    OutdentIndented(lines);
    assert n[..a] + Join(lines) + n[b + grown..] == text;
  }

  lemma IndentThenOutdent(text: string, from: nat, to: nat)
    requires from < to <= |text| && !(from == 0 && text[0] == NL)
    ensures var n := IndentRange(text, from, to);
            n.start < n.end <= |n.text| && OutdentRange(n.text, n.start, n.end) == Draft(text, from, to)
  {
    hide Split, LineEnd, LastNewline, Join, Cut, Removed;
    hide Outdented, Indented, LineStart, BlockTo, BlockFrom, OutdentRange;
    var a, b, lines := BlockFrom(text, from), BlockTo(text, from, to), Lines(text, from, to);
    SelectedBlock(text, from, to);
    IndentedBlock(text, from, to, a, b, lines);
    IndentedPieces(text, a, b, lines);
    OutdentOfBlock(text, from, to, a, b, lines);
  }

  lemma JoinIndentedLines(lines: seq<string>)
    requires lines != [] && forall line | line in lines :: OneLine(line)
    ensures Split(Join(Indented(lines))) == Indented(lines)
  {
    forall i | 0 <= i < |lines| ensures OneLine(Indented(lines)[i]) {
      assert lines[i] in lines;
    }
    JoinSplit(Indented(lines));
  }

  /** On a selection, Shift-Tab undoes Tab exactly when the selection does not start at 0 before a leading newline. */
  lemma OutdentUndoesIndentIff(d: Draft)
    requires InBounds(d) && d.start != d.end
    ensures InBounds(Apply(d, In))
    ensures Apply(Apply(d, In), Out) == Draft(d.text, Min(d.start, d.end), Max(d.start, d.end)) <==> !StartsOnNewline(d)
  {
    RangesStayInside(d, In);
    if !StartsOnNewline(d) {
      OutdentUndoes(d);
    } else {
      var n := Apply(d, In);
      assert n.text[0] == NL;
      assert BlockFrom(n.text, n.start) >= 1;
    }
  }

  // ---- bounds

  lemma {:induction false} OutdentedLength(lines: seq<string>)
    requires lines != []
    ensures |Join(Outdented(lines))| + Removed(lines) == |Join(lines)|
    ensures |lines[0]| - Cut(lines[0]) <= |Join(Outdented(lines))|
  {
    if |lines| > 1 {
      OutdentedLength(lines[1..]);
      assert Outdented(lines)[1..] == Outdented(lines[1..]);
    }
  }

  lemma IndentStaysInside(d: Draft)
    requires InBounds(d)
    ensures var r := Apply(d, In); r.start <= r.end <= |r.text|
  {
    hide Split, LineEnd, LastNewline, Join, Indented;
    var from, to := Min(d.start, d.end), Max(d.start, d.end);
    if from < to {
      var a, b, lines := BlockFrom(d.text, from), BlockTo(d.text, from, to), Lines(d.text, from, to);
      IndentedLength(lines);
      SplitJoin(Slice(d.text, a, b));
    }
  }

  lemma OutdentStaysInside(d: Draft)
    requires InBounds(d)
    ensures var r := Apply(d, Out); r.start <= r.end <= |r.text|
  {
    hide Split, LineEnd, LastNewline, Join, Outdented, Cut, Removed;
    var from, to := Min(d.start, d.end), Max(d.start, d.end);
    var a, b, lines := BlockFrom(d.text, from), BlockTo(d.text, from, to), Lines(d.text, from, to);
    OutdentedLength(lines);
    SplitJoin(Slice(d.text, a, b));
    if StartsOnNewline(d) {
      LineStartAtNewline(d.text);
    } else {
      BlockShape(d.text, from, to);
      EdgeLines(d.text, a, b, from, 0);
    }
  }

  lemma LineStartAtNewline(text: string)
    requires |text| > 0 && text[0] == NL
    ensures LineStart(text, 0) == 1
  {}

  /** Whatever the draft, the returned selection lies inside the returned text. */
  lemma RangesStayInside(d: Draft, direction: Direction)
    requires InBounds(d)
    ensures var r := Apply(d, direction); r.start <= r.end <= |r.text|
  {
    if direction.In? {
      IndentStaysInside(d);
    } else {
      OutdentStaysInside(d);
    }
  }

  // ---- how an outdent moves the selection

  lemma {:induction false} LeadingOfPrefix(line: string, rest: string, max: nat)
    requires rest == "" || rest[0] != ' '
    ensures Leading(line + rest, max) == Leading(line, max)
    decreases max
  {
    if line == "" {
      assert line + rest == rest;
    } else if max > 0 && line[0] == ' ' {
      assert (line + rest)[1..] == line[1..] + rest && (line + rest)[0] == line[0];
      LeadingOfPrefix(line[1..], rest, max - 1);
    } else {
      assert (line + rest)[0] == line[0];
    }
  }

  lemma FirstLineCut(text: string, a: nat, b: nat)
    requires a <= b <= |text| && (b < |text| ==> text[b] == NL)
    ensures Cut(Split(text[a..b])[0]) == Leading(text[a..], 4)
  {
    var block := text[a..b];
    var at := LineEnd(block, 0);
    assert text[a..] == block[..at] + text[a + at..];
    LeadingOfPrefix(block[..at], text[a + at..], 4);
    hide Leading;
  }

  /**
   * Outdenting moves the start back by what its own line loses, though not before the line, and the end by all that the
   * text loses, though not before the start; nothing before the block or after it changes.
   */
  lemma OutdentMoves(d: Draft)
    requires InBounds(d) && !StartsOnNewline(d)
    ensures var r, from, to := Apply(d, Out), Min(d.start, d.end), Max(d.start, d.end);
            var a, b := BlockFrom(d.text, from), BlockTo(d.text, from, to);
            && a <= b <= |d.text| && |r.text| <= |d.text|
            && r.start == Max(a, from - Leading(d.text[a..], 4)) && r.end == Max(r.start, to - (|d.text| - |r.text|))
            && d.text[..a] <= r.text && |d.text| - b <= |r.text| && r.text[|r.text| - (|d.text| - b)..] == d.text[b..]
  {
    hide Split, LineEnd, LastNewline, Join, Outdented, Cut, Removed, Leading;
    var from, to := Min(d.start, d.end), Max(d.start, d.end);
    BlockShape(d.text, from, to);
    var a, b := BlockFrom(d.text, from), BlockTo(d.text, from, to);
    var lines := Lines(d.text, from, to);
    SplitJoin(d.text[a..b]);
    OutdentedLength(lines);
    FirstLineCut(d.text, a, b);
  }

  lemma LeadingNewlineBlock(d: Draft)
    requires InBounds(d) && StartsOnNewline(d)
    ensures var from, to := Min(d.start, d.end), Max(d.start, d.end);
            BlockFrom(d.text, from) == 1 && if to <= 1 then BlockTo(d.text, from, to) == 0 else BlockTo(d.text, from, to) >= 1
  {
    LineStartAtNewline(d.text);
  }

  /** Shift-Tab lengthens the text, by a second newline, exactly when nothing past a leading newline is selected from 0 on. */
  lemma OutdentGrowsIff(d: Draft)
    requires InBounds(d)
    ensures |Apply(d, Out).text| > |d.text| <==> StartsOnNewline(d) && Max(d.start, d.end) <= 1
    ensures StartsOnNewline(d) && Max(d.start, d.end) <= 1 ==> Apply(d, Out).text == [NL] + d.text
  {
    if !StartsOnNewline(d) {
      OutdentMoves(d);
    } else {
      LeadingNewlineBlock(d);
      hide LineEnd, LastNewline, Outdented, Cut, Removed;
      var from, to := Min(d.start, d.end), Max(d.start, d.end);
      var a, b, lines := BlockFrom(d.text, from), BlockTo(d.text, from, to), Lines(d.text, from, to);
      OutdentedLength(lines);
      SplitJoin(Slice(d.text, a, b));
      if to <= 1 {
        assert d.text[..1] == [NL] && d.text[0..] == d.text && Join(Outdented(lines)) == "";
      }
    }
  }
}
