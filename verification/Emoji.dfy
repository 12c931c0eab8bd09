/** Shortcode expansion in the composer, and the code regions it must leave alone. */
module Emoji {
  import opened Wrappers

  const TICK := '`'
  const NL := '\n'
  const FENCE := "```"
  const CLOSING_FENCE := "\n```"

  // ---- one full scan into code regions, independent of any index

  datatype Region = Region(start: nat, end: nat)

  predicate StartsWith(text: string, needle: string, at: nat) { at + |needle| <= |text| && text[at..at + |needle|] == needle }

  /** `text.indexOf(needle, from)`. */
  function Find(text: string, needle: string, from: nat): (r: Option<nat>)
    ensures r.Some? ==> from <= r.value && StartsWith(text, needle, r.value)
    ensures forall k | from <= k < (if r.Some? then r.value else |text| + 1) :: !StartsWith(text, needle, k)
    decreases |text| + 1 - from
  {
    if from > |text| then None else if StartsWith(text, needle, from) then Some(from) else Find(text, needle, from + 1)
  }

  /** How many backticks stand in a row from a position. */
  function Ticks(text: string, from: nat): (n: nat)
    requires from <= |text|
    ensures from + n <= |text| && (from + n < |text| ==> text[from + n] != TICK)
    ensures forall k | from <= k < from + n :: text[k] == TICK
    decreases |text| - from
  {
    if from == |text| || text[from] != TICK then 0 else 1 + Ticks(text, from + 1)
  }

  function Marker(ticks: nat): (m: string)
    ensures |m| == ticks && forall k | 0 <= k < ticks :: m[k] == TICK
  {
    seq(ticks, _ => TICK)
  }

  predicate AtLine(text: string, i: nat) { i == 0 || (i <= |text| && text[i - 1] == NL) }

  /** What the scan does at a position: where it goes next, and whether what it passes over is code. */
  function Advance(text: string, i: nat): (r: (nat, bool))
    requires i < |text|
    ensures i < r.0 <= |text|
    ensures r.1 ==> text[i] == TICK && (r.0 == |text| || text[r.0 - 1] == TICK)
  {
    if AtLine(text, i) && StartsWith(text, FENCE, i) then
      assert text[i] == text[i..i + 3][0];
      var close := Find(text, CLOSING_FENCE, i + 3);
      if close.Some? then
        assert text[close.value + 3] == text[close.value..close.value + 4][3];
        (close.value + 4, true)
      else (|text|, true)
    else if text[i] == TICK then
      var ticks := Ticks(text, i);
      var close := Find(text, Marker(ticks), i + ticks);
      if close.Some? then
        assert text[close.value + ticks - 1] == text[close.value..close.value + ticks][ticks - 1];
        (close.value + ticks, true)
      else (i + ticks, false)
    else (i + 1, false)
  }

  function Regions(text: string, i: nat): seq<Region>
    requires i <= |text|
    decreases |text| - i
  {
    if i == |text| then []
    else
      var (next, code) := Advance(text, i);
      if code then [Region(i, next)] + Regions(text, next) else Regions(text, next)
  }

  /** A region opens with a backtick, and closes with one or with the text. */
  predicate Fenced(text: string, r: Region) {
    r.start < r.end <= |text| && text[r.start] == TICK && (r.end == |text| || text[r.end - 1] == TICK)
  }

  ghost predicate Ordered(text: string, from: nat, rs: seq<Region>)
    decreases |rs|
  {
    rs == [] || (from <= rs[0].start && Fenced(text, rs[0]) && Ordered(text, rs[0].end, rs[1..]))
  }

  /** Regions are disjoint, in order, inside the text, and opened and closed by backticks. */
  lemma {:induction false} RegionsOrdered(text: string, from: nat, i: nat)
    requires from <= i <= |text|
    ensures Ordered(text, from, Regions(text, i))
    decreases |text| - i
  {
    hide Advance;
    if i < |text| {
      var (next, code) := Advance(text, i);
      RegionsOrdered(text, if code then next else from, next);
      assert code ==> Regions(text, i)[1..] == Regions(text, next);
    }
  }

  ghost predicate Inside(rs: seq<Region>, index: int) { exists k | 0 <= k < |rs| :: rs[k].start <= index < rs[k].end }

  ghost predicate InCode(text: string, index: int) { Inside(Regions(text, 0), index) }

  /** The inner loop: the length of the backtick run at a position. */
  method CountTicks(text: string, i: nat) returns (ticks: nat)
    requires i < |text| && text[i] == TICK
    ensures ticks == Ticks(text, i)
  {
    ticks := 1;
    while i + ticks < |text| && text[i + ticks] == TICK
      invariant i + ticks <= |text| && Ticks(text, i) == ticks + Ticks(text, i + ticks)
    {
      ticks := ticks + 1;
    }
  }

  /** The scanner of `isCodeContext`, which stops once it has passed the index. */
  method IsCodeContext(text: string, index: int) returns (inside: bool)
    ensures inside <==> InCode(text, index)
  {
    hide Regions, Inside, Find, Ticks, Marker;
    var i := 0;
    while i < |text| && i <= index
      invariant 0 <= i <= |text|
      invariant InCode(text, index) <==> Inside(Regions(text, i), index)
      decreases |text| - i
    {
      InsideStep(text, i, index);
      var atLine := i == 0 || text[i - 1] == NL;
      if atLine && StartsWith(text, FENCE, i) {
        var close := Find(text, CLOSING_FENCE, i + 3);
        var end := if close.None? then |text| else close.value + 4;
        if index >= i && index < end {
          return true;
        }
        i := end;
        continue;
      }
      if text[i] == TICK {
        var ticks := CountTicks(text, i);
        var close := Find(text, Marker(ticks), i + ticks);
        if close.None? {
          i := i + ticks;
          continue;
        }
        var end := close.value + ticks;
        if index >= i && index < end {
          return true;
        }
        i := end;
        continue;
      }
      i := i + 1;
    }
    NothingBefore(text, i, index);
    return false;
  }

  /** Regions found from a position on hold no earlier index. */
  lemma NothingBefore(text: string, i: nat, index: int)
    requires i <= |text| && (index < i || i == |text|)
    ensures !Inside(Regions(text, i), index)
  {
    RegionsOrdered(text, i, i);
    if i < |text| {
      OrderedStarts(text, i, Regions(text, i));
    }
  }

  lemma {:induction false} OrderedStarts(text: string, from: nat, rs: seq<Region>)
    requires Ordered(text, from, rs)
    ensures forall k | 0 <= k < |rs| :: from <= rs[k].start
    decreases |rs|
  {
    if rs != [] {
      OrderedStarts(text, rs[0].end, rs[1..]);
      assert forall k | 1 <= k < |rs| :: rs[k] == rs[1..][k - 1];
    }
  }

  lemma InsideStep(text: string, i: nat, index: int)
    requires i < |text| && i <= index
    ensures var (next, code) := Advance(text, i);
            Inside(Regions(text, i), index) <==> (code && index < next) || Inside(Regions(text, next), index)
  {
    var (next, code) := Advance(text, i);
    var rest := Regions(text, next);
    if code {
      var rs := [Region(i, next)] + rest;
      assert rs[0] == Region(i, next);
      if Inside(rest, index) {
        var k :| 0 <= k < |rest| && rest[k].start <= index < rest[k].end;
        assert rs[k + 1] == rest[k];
      }
    }
  }

  // ---- what the regions are, without the scan

  predicate FirstFrom(text: string, needle: string, from: nat, at: int) {
    from <= at && StartsWith(text, needle, at) && forall k | from <= k < at :: !StartsWith(text, needle, k)
  }

  predicate NoneFrom(text: string, needle: string, from: nat) { forall k | from <= k <= |text| :: !StartsWith(text, needle, k) }

  predicate OpensFence(text: string, i: nat) { (i == 0 || (i <= |text| && text[i - 1] == '\n')) && StartsWith(text, "```", i) }

  /** A run of ticks that ends where it says. */
  predicate RunOf(text: string, i: nat, ticks: nat) {
    ticks > 0 && StartsWith(text, Marker(ticks), i) && (i + ticks < |text| ==> text[i + ticks] != '`')
  }

  /** From three backticks at the start of a line to the next line that starts with three, or to the end of the text. */
  ghost predicate FencedBlock(text: string, r: Region) {
    && OpensFence(text, r.start)
    && (FirstFrom(text, "\n```", r.start + 3, r.end - 4) || (NoneFrom(text, "\n```", r.start + 3) && r.end == |text|))
  }

  /** From a run of backticks to the first place after it with as many. */
  ghost predicate InlineCode(text: string, r: Region) {
    !OpensFence(text, r.start)
    && exists ticks :: RunOf(text, r.start, ticks) && FirstFrom(text, Marker(ticks), r.start + ticks, r.end - ticks)
  }

  lemma AdvanceShape(text: string, i: nat)
    requires i < |text|
    ensures var (next, code) := Advance(text, i);
            && (code ==> FencedBlock(text, Region(i, next)) || InlineCode(text, Region(i, next)))
            && (!code && text[i] == TICK ==> RunOf(text, i, next - i) && NoneFrom(text, Marker(next - i), next))
            && (!code && text[i] != TICK ==> next == i + 1)
  {
    if AtLine(text, i) && StartsWith(text, FENCE, i) {
      FenceShape(text, i);
    } else if text[i] == TICK {
      RunShape(text, i);
    }
    hide Find, Ticks, StartsWith, FencedBlock, InlineCode, RunOf, NoneFrom, Marker;
  }

  lemma FenceShape(text: string, i: nat)
    requires i < |text| && AtLine(text, i) && StartsWith(text, FENCE, i)
    ensures Advance(text, i).1 && FencedBlock(text, Region(i, Advance(text, i).0)) && text[i] == TICK
  {
    assert text[i] == text[i..i + 3][0];
    hide Find;
  }

  lemma RunShape(text: string, i: nat)
    requires i < |text| && !(AtLine(text, i) && StartsWith(text, FENCE, i)) && text[i] == TICK
    ensures var (next, code) := Advance(text, i);
            if code then InlineCode(text, Region(i, next)) else RunOf(text, i, next - i) && NoneFrom(text, Marker(next - i), next)
  {
    var ticks := Ticks(text, i);
    assert RunOf(text, i, ticks) by {
      assert text[i..i + ticks] == Marker(ticks);
    }
    var close := Find(text, Marker(ticks), i + ticks);
    hide Find, Ticks, Marker, StartsWith, RunOf;
    if close.Some? {
      assert FirstFrom(text, Marker(ticks), i + ticks, close.value);
      assert Advance(text, i) == (close.value + ticks, true);
    } else {
      assert NoneFrom(text, Marker(ticks), i + ticks);
    }
  }

  /** Every region is a fenced block or inline code. */
  lemma {:induction false} RegionsAreCode(text: string, i: nat, r: Region)
    requires i <= |text| && r in Regions(text, i)
    ensures FencedBlock(text, r) || InlineCode(text, r)
    decreases |text| - i
  {
    hide Advance, FencedBlock, InlineCode;
    var (next, code) := Advance(text, i);
    AdvanceShape(text, i);
    if !code || r != Region(i, next) {
      RegionsAreCode(text, next, r);
    }
  }

  /** And every backtick outside the regions stands in a run that is never closed. */
  lemma {:induction false} OtherTicksAreUnclosed(text: string, i: nat, at: nat) returns (start: nat, ticks: nat)
    requires i <= at < |text| && text[at] == TICK && !Inside(Regions(text, i), at)
    ensures start <= at < start + ticks && RunOf(text, start, ticks) && NoneFrom(text, Marker(ticks), start + ticks)
    decreases |text| - i
  {
    hide Advance;
    var (next, code) := Advance(text, i);
    AdvanceShape(text, i);
    InsideStep(text, i, at);
    if at < next {
      start, ticks := i, next - i;
    } else {
      start, ticks := OtherTicksAreUnclosed(text, next, at);
    }
  }

  // ---- expansion

  predicate NameChar(c: char) {
    'a' <= c <= 'z' || 'A' <= c <= 'Z' || '0' <= c <= '9' || c == '_' || c == '+' || c == '-'
  }

  function NameRun(text: string, from: nat): (n: nat)
    requires from <= |text|
    ensures from + n <= |text| && (from + n < |text| ==> !NameChar(text[from + n]))
    ensures forall k | from <= k < from + n :: NameChar(text[k])
    decreases |text| - from
  {
    if from == |text| || !NameChar(text[from]) then 0 else 1 + NameRun(text, from + 1)
  }

  const NAME_MAX := 40

  /** Where a match of the closed-shortcode pattern at a position ends. */
  function MatchEnd(text: string, at: nat): (r: Option<nat>)
    requires at < |text|
    ensures r.Some? ==> at + 2 < r.value <= |text|
    ensures r.Some? ==> forall k | at <= k < r.value :: text[k] != TICK
  {
    if text[at] != ':' then None
    else
      var run := NameRun(text, at + 1);
      var end := at + 1 + run;
      if 1 <= run <= NAME_MAX && end < |text| && text[end] == ':' then Some(end + 1) else None
  }

  predicate BlockedBoundary(text: string, colonAt: nat)
    requires colonAt < |text|
  {
    colonAt != 0 && (var prev := text[colonAt - 1]; 'a' <= prev <= 'z' || 'A' <= prev <= 'Z' || '0' <= prev <= '9' || prev == '/')
  }

  /** The dictionaries, as any partial function from names to replacement text. */
  type Resolver = string -> Option<string>

  ghost function Replacement(text: string, at: nat, end: nat, resolve: Resolver): string
    requires at + 2 < end <= |text|
  {
    var full := text[at..end];
    if InCode(text, at) || BlockedBoundary(text, at) then full
    else
      var hit := resolve(text[at + 1..end - 1]);
      if hit.Some? then hit.value else full
  }

  /** The left-to-right global replace, from one position up to another. */
  ghost function ExpandBetween(text: string, pos: nat, stop: nat, resolve: Resolver): string
    requires stop <= |text|
    decreases |text| - pos
  {
    if pos >= stop then ""
    else
      var end := MatchEnd(text, pos);
      if end.Some? then Replacement(text, pos, end.value, resolve) + ExpandBetween(text, end.value, stop, resolve)
      else [text[pos]] + ExpandBetween(text, pos + 1, stop, resolve)
  }

  ghost function ExpandEmojiShortcodes(text: string, resolve: Resolver): string {
    ExpandBetween(text, 0, |text|, resolve)
  }

  /** The expansion with every code region copied as it stands and only the gaps between them expanded. */
  ghost function Woven(text: string, pos: nat, rs: seq<Region>, resolve: Resolver): string
    requires pos <= |text| && Ordered(text, pos, rs)
    decreases |rs|
  {
    if rs == [] then ExpandBetween(text, pos, |text|, resolve)
    else ExpandBetween(text, pos, rs[0].start, resolve) + text[rs[0].start..rs[0].end] + Woven(text, rs[0].end, rs[1..], resolve)
  }

  /** Where the replace goes next, and what it writes on the way. */
  ghost function Hop(text: string, pos: nat, resolve: Resolver): (r: (nat, string))
    requires pos < |text|
    ensures pos < r.0 <= |text| && forall k | pos < k < r.0 :: text[k] != TICK
    ensures r.0 > pos + 1 ==> text[pos] != TICK
    ensures InCode(text, pos) ==> r.1 == text[pos..r.0]
  {
    var end := MatchEnd(text, pos);
    if end.Some? then (end.value, Replacement(text, pos, end.value, resolve)) else (pos + 1, [text[pos]])
  }

  lemma ExpandHop(text: string, pos: nat, stop: nat, resolve: Resolver)
    requires pos < stop <= |text|
    ensures ExpandBetween(text, pos, stop, resolve) == Hop(text, pos, resolve).1 + ExpandBetween(text, Hop(text, pos, resolve).0, stop, resolve)
  {}

  /** A match cannot straddle a backtick, so the replace can be cut at one. */
  lemma {:induction false} CutAtTick(text: string, pos: nat, stop: nat, resolve: Resolver)
    requires pos <= stop < |text| && text[stop] == TICK
    ensures ExpandBetween(text, pos, |text|, resolve) == ExpandBetween(text, pos, stop, resolve) + ExpandBetween(text, stop, |text|, resolve)
    decreases |text| - pos
  {
    if pos < stop {
      hide ExpandBetween, Hop;
      var (next, piece) := Hop(text, pos, resolve);
      ExpandHop(text, pos, |text|, resolve);
      ExpandHop(text, pos, stop, resolve);
      CutAtTick(text, next, stop, resolve);
      var a, b := ExpandBetween(text, next, stop, resolve), ExpandBetween(text, stop, |text|, resolve);
      assert piece + (a + b) == (piece + a) + b;
    }
  }

  /** Inside a region every match is left as it stands, and none reaches past the region's end. */
  lemma {:induction false} RegionIsCopied(text: string, pos: nat, r: Region, resolve: Resolver)
    requires Fenced(text, r) && r.start <= pos <= r.end
    requires forall k | r.start <= k < r.end :: InCode(text, k)
    ensures ExpandBetween(text, pos, |text|, resolve) == text[pos..r.end] + ExpandBetween(text, r.end, |text|, resolve)
    decreases |text| - pos
  {
    hide ExpandBetween, Hop, InCode;
    var tail := ExpandBetween(text, r.end, |text|, resolve);
    if pos < r.end {
      assert InCode(text, pos);
      var (next, piece) := Hop(text, pos, resolve);
      assert next <= r.end;
      ExpandHop(text, pos, |text|, resolve);
      RegionIsCopied(text, next, r, resolve);
      assert text[pos..next] + (text[next..r.end] + tail) == text[pos..r.end] + tail;
    }
  }

  /** The text of every code region comes through unchanged and in order; only the gaps between regions are expanded. */
  lemma ExpansionKeepsCode(text: string, resolve: Resolver)
    ensures Ordered(text, 0, Regions(text, 0))
    ensures ExpandEmojiShortcodes(text, resolve) == Woven(text, 0, Regions(text, 0), resolve)
  {
    hide Regions, Woven, ExpandBetween;
    RegionsOrdered(text, 0, 0);
    WeaveFrom(text, 0, Regions(text, 0), resolve);
  }

  lemma {:induction false} WeaveFrom(text: string, pos: nat, rs: seq<Region>, resolve: Resolver)
    requires pos <= |text| && Ordered(text, pos, rs)
    requires forall k, i | 0 <= k < |rs| && rs[k].start <= i < rs[k].end :: InCode(text, i)
    ensures ExpandBetween(text, pos, |text|, resolve) == Woven(text, pos, rs, resolve)
    decreases |rs|
  {
    if rs != [] {
      hide ExpandBetween, InCode;
      var r := rs[0];
      CutAtTick(text, pos, r.start, resolve);
      RegionIsCopied(text, r.start, r, resolve);
      assert forall k | 0 <= k < |rs| - 1 :: rs[1..][k] == rs[k + 1];
      WeaveFrom(text, r.end, rs[1..], resolve);
      var a, b, c := ExpandBetween(text, pos, r.start, resolve), text[r.start..r.end], Woven(text, r.end, rs[1..], resolve);
      assert a + (b + c) == a + b + c;
    }
  }

  // ---- which shortcodes are replaced

  /** One stop of the left-to-right replace: a match or a single character, and what is written for it. */
  datatype Piece = Piece(start: nat, end: nat, out: string)

  ghost function Pieces(text: string, pos: nat, resolve: Resolver): seq<Piece>
    requires pos <= |text|
    decreases |text| - pos
  {
    if pos == |text| then []
    else
      var (next, out) := Hop(text, pos, resolve);
      [Piece(pos, next, out)] + Pieces(text, next, resolve)
  }

  function Written(pieces: seq<Piece>): string { if pieces == [] then "" else pieces[0].out + Written(pieces[1..]) }

  lemma {:induction false} PiecesAreWritten(text: string, pos: nat, resolve: Resolver)
    requires pos <= |text|
    ensures Written(Pieces(text, pos, resolve)) == ExpandBetween(text, pos, |text|, resolve)
    decreases |text| - pos
  {
    if pos < |text| {
      hide Hop;
      var (next, out) := Hop(text, pos, resolve);
      PiecesAreWritten(text, next, resolve);
      ExpandHop(text, pos, |text|, resolve);
      hide ExpandBetween;
      assert Pieces(text, pos, resolve)[1..] == Pieces(text, next, resolve);
    }
  }

  lemma {:induction false} PiecesFollow(text: string, pos: nat, resolve: Resolver, piece: Piece)
    requires pos <= |text| && piece in Pieces(text, pos, resolve)
    ensures pos <= piece.start < piece.end <= |text|
    decreases |text| - pos
  {
    var (next, out) := Hop(text, pos, resolve);
    if piece != Piece(pos, next, out) {
      assert piece in Pieces(text, next, resolve);
      PiecesFollow(text, next, resolve, piece);
    }
  }

  /** A match that reaches past a later colon ends with it. */
  lemma ColonEndsMatch(text: string, pos: nat, at: nat)
    requires pos < at < |text| && text[at] == ':' && MatchEnd(text, pos).Some? && at < MatchEnd(text, pos).value
    ensures MatchEnd(text, pos).value == at + 1
  {
    assert !NameChar(':');
  }

  ghost predicate ClosedBefore(text: string, pos: nat, at: nat, resolve: Resolver)
    requires pos <= |text|
  {
    exists piece | piece in Pieces(text, pos, resolve) :: piece.start < at && piece.end == at + 1
  }

  lemma {:induction false} StopsThereIff(text: string, pos: nat, at: nat, resolve: Resolver)
    requires pos <= at < |text| && MatchEnd(text, at).Some?
    ensures Piece(at, MatchEnd(text, at).value, Replacement(text, at, MatchEnd(text, at).value, resolve)) in Pieces(text, pos, resolve)
            <==> !ClosedBefore(text, pos, at, resolve)
    decreases at - pos
  {
    hide MatchEnd, Replacement, InCode;
    var (next, out) := Hop(text, pos, resolve);
    var first, rest := Piece(pos, next, out), Pieces(text, next, resolve);
    var here := Piece(at, MatchEnd(text, at).value, Replacement(text, at, MatchEnd(text, at).value, resolve));
    assert Pieces(text, pos, resolve) == [first] + rest;
    forall piece | piece in rest ensures next <= piece.start {
      PiecesFollow(text, next, resolve, piece);
    }
    if pos == at {
      assert here == first;
    } else if next <= at {
      StopsThereIff(text, next, at, resolve);
      if piece :| piece in rest && piece.start < at && piece.end == at + 1 {
        assert piece in Pieces(text, pos, resolve);
      }
      assert first.end != at + 1 && first != here;
    } else {
      ColonAt(text, at);
      ColonEndsMatch(text, pos, at);
      assert first in Pieces(text, pos, resolve) && first.start < at && first.end == at + 1;
    }
  }

  lemma ColonAt(text: string, at: nat)
    requires at < |text| && MatchEnd(text, at).Some?
    ensures text[at] == ':' && at + 2 < MatchEnd(text, at).value
  {
  }

  /** What counts as a shortcode: one to forty name characters between colons. */
  lemma MatchesIff(text: string, at: nat, end: nat)
    requires at < |text|
    ensures MatchEnd(text, at) == Some(end)
            <==> at + 3 <= end <= |text| && end - at <= 42 && text[at] == ':' && text[end - 1] == ':'
                 && forall k | at < k < end - 1 :: 'a' <= text[k] <= 'z' || 'A' <= text[k] <= 'Z' || '0' <= text[k] <= '9'
                                                   || text[k] == '_' || text[k] == '+' || text[k] == '-'
  {
    var run := NameRun(text, at + 1);
    if at + 3 <= end <= |text| && text[end - 1] == ':' && (forall k | at < k < end - 1 :: NameChar(text[k])) {
      assert !NameChar(text[end - 1]);
      assert run == end - at - 2;
    }
  }

  /**
   * A shortcode's fate: its piece is the replacement if the name is known, it is outside code and no letter, digit or slash
   * stands before it, and itself otherwise; and the piece is written exactly when its opening colon does not close an
   * earlier match. The pieces written one after the other are the expansion.
   */
  lemma KnownShortcodeIsReplaced(text: string, at: nat, resolve: Resolver)
    requires at < |text| && MatchEnd(text, at).Some?
    ensures ExpandEmojiShortcodes(text, resolve) == Written(Pieces(text, 0, resolve))
    ensures var end := MatchEnd(text, at).value;
            var glued := at > 0 && var c := text[at - 1]; 'a' <= c <= 'z' || 'A' <= c <= 'Z' || '0' <= c <= '9' || c == '/';
            var hit := resolve(text[at + 1..end - 1]);
            var out := if hit.Some? && !InCode(text, at) && !glued then hit.value else text[at..end];
            Piece(at, end, out) in Pieces(text, 0, resolve) <==> !ClosedBefore(text, 0, at, resolve)
  {
    PiecesAreWritten(text, 0, resolve);
    StopsThereIff(text, 0, at, resolve);
  }

  lemma {:induction false} NoTickNoRegion(text: string, i: nat)
    requires i <= |text| && forall k | i <= k < |text| :: text[k] != TICK
    ensures Regions(text, i) == []
    decreases |text| - i
  {
    if i < |text| {
      NoTickNoRegion(text, Advance(text, i).0);
    }
  }

  lemma {:induction false} NoMatchIsCopied(text: string, pos: nat, resolve: Resolver)
    requires pos <= |text| && forall k | pos <= k < |text| :: MatchEnd(text, k).None?
    ensures ExpandBetween(text, pos, |text|, resolve) == text[pos..]
    decreases |text| - pos
  {
    if pos < |text| {
      NoMatchIsCopied(text, pos + 1, resolve);
      assert text[pos..] == [text[pos]] + text[pos + 1..];
    }
  }

  const OVERLAP := ":_:smile:"

  function OnlySmile(name: string): Option<string> { if name == "smile" then Some("!") else None }

  lemma OverlapRuns()
    ensures NameRun(OVERLAP, 1) == 1 && NameRun(OVERLAP, 3) == 5 && NameRun(OVERLAP, 9) == 0
  {
    hide MatchEnd;
    assert NameRun(OVERLAP, 2) == 0;
    assert NameRun(OVERLAP, 8) == 0 && NameRun(OVERLAP, 7) == 1 && NameRun(OVERLAP, 6) == 2;
    assert NameRun(OVERLAP, 5) == 3 && NameRun(OVERLAP, 4) == 4;
  }

  lemma OverlapMatches()
    ensures MatchEnd(OVERLAP, 0) == Some(3) && MatchEnd(OVERLAP, 2) == Some(9)
    ensures forall k | 3 <= k < |OVERLAP| :: MatchEnd(OVERLAP, k).None?
  {
    OverlapRuns();
    hide NameRun;
    assert forall k | 3 <= k < 8 :: OVERLAP[k] != ':';
  }

  lemma OverlapHop()
    ensures Hop(OVERLAP, 0, OnlySmile) == (3, OVERLAP[..3])
  {
    OverlapMatches();
    hide NameRun, MatchEnd, InCode, BlockedBoundary;
    assert OVERLAP[1..2] == "_" && OnlySmile("_").None?;
    assert OVERLAP[0..3] == OVERLAP[..3];
  }

  lemma OverlapIsKnown()
    ensures MatchEnd(OVERLAP, 2) == Some(9) && OnlySmile(OVERLAP[3..8]).Some? && !InCode(OVERLAP, 2) && !BlockedBoundary(OVERLAP, 2)
  {
    OverlapMatches();
    NoTickNoRegion(OVERLAP, 0);
    hide NameRun, MatchEnd, Regions;
    assert OVERLAP[3..8] == "smile" && OVERLAP[1] == '_';
  }

  /** An unknown name right before it takes the shortcode's opening colon: the known shortcode stays as it was typed. */
  lemma OverlapHidesShortcode()
    ensures MatchEnd(OVERLAP, 2) == Some(9) && OnlySmile(OVERLAP[3..8]).Some? && !InCode(OVERLAP, 2) && !BlockedBoundary(OVERLAP, 2)
    ensures ExpandEmojiShortcodes(OVERLAP, OnlySmile) == OVERLAP
  {
    hide NameRun, MatchEnd, Regions, InCode, BlockedBoundary, Hop, ExpandBetween, OnlySmile;
    OverlapIsKnown();
    OverlapMatches();
    OverlapHop();
    NoMatchIsCopied(OVERLAP, 3, OnlySmile);
    ExpandHop(OVERLAP, 0, |OVERLAP|, OnlySmile);
    assert OVERLAP[..3] + OVERLAP[3..] == OVERLAP;
  }
}
