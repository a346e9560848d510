/**
 Which texts give the reader of frontend/src/utils/fetch_sse.ts the same messages however the
 network cuts them into chunks. A text is seen as its lines, split at LF: reading on takes carriage
 returns off the ends of lines, and messages are the data lines between blank lines.
 */
module SseMessages {
  import opened Wrappers
  import opened Sequences
  import opened SseReader

  // ---------- Lines ----------

  /** The lines of two texts, one after the other. */
  function Glue(a: seq<string>, b: seq<string>): (r: seq<string>)
    requires a != [] && b != []
    ensures |r| == |a| + |b| - 1
  {
    a[..|a| - 1] + [a[|a| - 1] + b[0]] + b[1..]
  }

  lemma {:induction false} SplitConcat(a: string, b: string)
    ensures SplitLines(a + b) == Glue(SplitLines(a), SplitLines(b))
  {
    if a == "" {
      Unit(b);
      Unit(SplitLines(b)[0]);
    } else {
      SplitConcat(a[1..], b);
      AppendTail(a, b);
      GlueCons(a[0], SplitLines(a[1..]), SplitLines(b));
    }
  }

  /** The lines of a text with one more character in front. */
  function Prepend(c: char, lines: seq<string>): seq<string>
    requires lines != []
  {
    if c == '\n' then [""] + lines else [[c] + lines[0]] + lines[1..]
  }

  lemma GlueCons(c: char, a: seq<string>, b: seq<string>)
    requires a != [] && b != []
    ensures Glue(Prepend(c, a), b) == Prepend(c, Glue(a, b))
  {
    if c == '\n' {
      assert Glue([""] + a, b) == [""] + Glue(a, b);
    } else if |a| == 1 {
      Assoc([c], a[0], b[0]);
      assert Glue([[c] + a[0]] + a[1..], b) == [[c] + a[0] + b[0]] + b[1..];
    } else {
      assert Glue([[c] + a[0]] + a[1..], b)[0] == [c] + a[0];
      assert Glue([[c] + a[0]] + a[1..], b) == [[c] + a[0]] + Glue(a, b)[1..];
    }
  }

  function Chop(line: string): string
  {
    if line != "" && line[|line| - 1] == '\r' then line[..|line| - 1] else line
  }

  /** One carriage return less on every line that an LF ends. */
  function ChopAll(lines: seq<string>): (r: seq<string>)
    ensures |r| == |lines|
  {
    seq(|lines|, k requires 0 <= k < |lines| => if k < |lines| - 1 then Chop(lines[k]) else lines[k])
  }

  lemma {:induction false} NormalizeChops(s: string)
    ensures SplitLines(Normalize(s)) == ChopAll(SplitLines(s))
  {
    if s != "" {
      if |s| >= 2 && s[0] == '\r' && s[1] == '\n' {
        NormalizeChops(s[2..]);
        Cons('\n', Normalize(s[2..]));
        assert s[1..][0] == '\n' && s[1..][1..] == s[2..];
        ChopCons("\r", SplitLines(s[2..]));
        assert SplitLines(s) == [['\r'] + ""] + SplitLines(s[2..]);
      } else {
        NormalizeChops(s[1..]);
        Cons(s[0], Normalize(s[1..]));
        if s[0] == '\n' {
          ChopCons("", SplitLines(s[1..]));
        } else {
          CrAlone(s);
          ChopFirst(s[0], SplitLines(s[1..]));
        }
      }
    }
  }

  lemma ChopCons(line: string, lines: seq<string>)
    requires lines != []
    ensures ChopAll([line] + lines) == [Chop(line)] + ChopAll(lines)
  {
  }

  lemma ChopFirst(c: char, lines: seq<string>)
    requires lines != [] && (c == '\r' && lines[0] == "" ==> |lines| == 1)
    ensures ChopAll([[c] + lines[0]] + lines[1..]) == [[c] + ChopAll(lines)[0]] + ChopAll(lines)[1..]
  {
    var longer := [c] + lines[0];
    if |lines| > 1 {
      assert Chop(longer) == [c] + Chop(lines[0]);
    }
    assert ChopAll([longer] + lines[1..])[0] == [c] + ChopAll(lines)[0];
  }

  /** A leading CR that no LF follows is not a line of its own. */
  lemma CrAlone(s: string)
    requires s != "" && !(|s| >= 2 && s[0] == '\r' && s[1] == '\n')
    ensures s[0] == '\r' && SplitLines(s[1..])[0] == "" ==> |SplitLines(s[1..])| == 1
  {
  }

  // ---------- What reading does to the lines ----------

  /** The line without some of the carriage returns at its end: at least one, if there is one. */
  predicate Shed(line: string, left: string)
  {
    if line != "" && line[|line| - 1] == '\r' then
      left <= line && |left| < |line| && forall i :: |left| <= i < |line| ==> line[i] == '\r'
    else left == line
  }

  predicate Sheds(lines: seq<string>, left: seq<string>)
  {
    |left| == |lines| && (lines != [] ==> left[|lines| - 1] == lines[|lines| - 1]) &&
    forall k :: 0 <= k < |lines| - 1 ==> Shed(lines[k], left[k])
  }

  lemma ShedChop(line: string, left: string)
    ensures Shed(line, left) ==> Shed(line, Chop(left))
    ensures Shed(line, Chop(line))
  {
  }

  /** The lines `used` stay; the others are joined with the next chunk and shed once more. */
  lemma ShedsGlue(lines: seq<string>, used: seq<string>, rest: seq<string>, chunk: seq<string>)
    requires rest != [] && chunk != [] && Sheds(lines, used + rest)
    ensures lines != [] && Sheds(Glue(lines, chunk), used + ChopAll(Glue(rest, chunk)))
  {
    var all, glued, left := Glue(lines, chunk), Glue(rest, chunk), used + ChopAll(Glue(rest, chunk));
    hide Shed, Chop;
    forall k | 0 <= k < |all|
      ensures if k < |all| - 1 then Shed(all[k], left[k]) else all[k] == left[k]
    {
      if k < |used| {
        assert left[k] == (used + rest)[k] && all[k] == lines[k];
      } else {
        var j := k - |used|;
        assert left[k] == ChopAll(glued)[j];
        if j < |rest| - 1 {
          assert glued[j] == rest[j] == (used + rest)[k] && all[k] == lines[k];
          ShedChop(lines[k], rest[j]);
        } else {
          assert rest[|rest| - 1] == (used + rest)[|lines| - 1];
          assert glued[j] == all[k];
          ShedChop(all[k], "");
        }
      }
    }
  }

  /** The text the reader has turned the chunks into: what it cut off, and its buffer. */
  function Turned(chunks: seq<string>): string
  {
    Consumed(Run(chunks).blocks) + Run(chunks).rest
  }

  /** The lines of what was cut off. */
  function UsedLines(blocks: seq<string>): seq<string>
  {
    var lines := SplitLines(Consumed(blocks));
    lines[..|lines| - 1]
  }

  lemma SplitConsumed(blocks: seq<string>, z: string)
    ensures SplitLines(Consumed(blocks) + z) == UsedLines(blocks) + SplitLines(z)
  {
    ConsumedEnd(blocks);
    EndsInEmptyLine(Consumed(blocks));
    SplitConcat(Consumed(blocks), z);
    hide SplitLines, Consumed;
    GlueEmpty(SplitLines(Consumed(blocks)), SplitLines(z));
  }

  lemma GlueEmpty(a: seq<string>, b: seq<string>)
    requires a != [] && b != [] && a[|a| - 1] == ""
    ensures Glue(a, b) == a[..|a| - 1] + b
  {
    Unit(b[0]);
    assert [b[0]] + b[1..] == b;
  }

  lemma {:induction false} EndsInEmptyLine(u: string)
    requires u == "" || u[|u| - 1] == '\n'
    ensures SplitLines(u)[|SplitLines(u)| - 1] == ""
  {
    if u != "" {
      EndsInEmptyLine(u[1..]);
    }
  }

  lemma {:induction false} RunSheds(chunks: seq<string>)
    ensures Run(chunks) == Drain(Turned(chunks))
    ensures Sheds(SplitLines(Concat(chunks)), SplitLines(Turned(chunks)))
    decreases |chunks|
  {
    if chunks != [] {
      var n := |chunks| - 1;
      var before, c := Run(chunks[..n]), chunks[n];
      RunSheds(chunks[..n]);
      Snoc(chunks);
      ConcatSnoc(chunks[..n], c);
      FeedSheds(Concat(chunks[..n]), before, c);
      hide Drain, Normalize, SplitLines, Sheds, Consumed, Concat;
    }
  }

  lemma FeedSheds(t: string, state: Cut, c: string)
    requires state == Drain(Consumed(state.blocks) + state.rest)
    requires Sheds(SplitLines(t), SplitLines(Consumed(state.blocks) + state.rest))
    ensures var next := Feed(state, c);
            var turned := Consumed(next.blocks) + next.rest;
            next == Drain(turned) && Sheds(SplitLines(t + c), SplitLines(turned))
  {
    hide Normalize, SplitLines, Sheds, UsedLines, Consumed, Drain;
    var more := Normalize(state.rest + c);
    DrainConsumed(Consumed(state.blocks) + state.rest, more);
    DrainLossless(Consumed(state.blocks) + more);
    SplitConsumed(state.blocks, state.rest);
    SplitConsumed(state.blocks, more);
    SplitConcat(t, c);
    SplitConcat(state.rest, c);
    NormalizeChops(state.rest + c);
    ShedsGlue(SplitLines(t), UsedLines(state.blocks), SplitLines(state.rest), SplitLines(c));
  }

  // ---------- Messages by lines ----------

  /** What a line means to the messages: it ends a block, or carries data, or neither. */
  datatype Item = Item(blank: bool, data: Option<string>)

  function ItemOf(line: string): Item
  {
    Item(line == "", FieldValue(line))
  }

  function Items(lines: seq<string>): (items: seq<Item>)
    ensures |items| == |lines|
  {
    seq(|lines|, k requires 0 <= k < |lines| => ItemOf(lines[k]))
  }

  function Emitted(pending: seq<string>): seq<string>
  {
    if pending == [] then [] else [JoinLines(pending)]
  }

  function With(pending: seq<string>, data: Option<string>): seq<string>
  {
    if data.Some? then pending + [data.value] else pending
  }

  /** The messages from line k on, with the data lines of the block so far. */
  function Group(items: seq<Item>, k: nat, pending: seq<string>): seq<string>
    requires k <= |items|
    decreases |items| - k
  {
    if k == |items| then Emitted(pending)
    else if items[k].blank then Emitted(pending) + Group(items, k + 1, [])
    else Group(items, k + 1, With(pending, items[k].data))
  }

  /** The same on the lines themselves. */
  function Grouped(lines: seq<string>, pending: seq<string>): seq<string>
  {
    if lines == [] then Emitted(pending)
    else if lines[0] == "" then Emitted(pending) + Grouped(lines[1..], [])
    else Grouped(lines[1..], With(pending, FieldValue(lines[0])))
  }

  lemma {:induction false} GroupedItems(lines: seq<string>, k: nat, pending: seq<string>)
    requires k <= |lines|
    ensures Group(Items(lines), k, pending) == Grouped(lines[k..], pending)
    decreases |lines| - k
  {
    hide FieldValue, Emitted, With;
    if k < |lines| {
      assert lines[k..][0] == lines[k] && lines[k..][1..] == lines[k + 1..];
      if lines[k] == "" {
        GroupedItems(lines, k + 1, []);
      } else {
        GroupedItems(lines, k + 1, With(pending, FieldValue(lines[k])));
      }
    }
  }

  /** Within a block, whose lines but the first and the last are not empty, nothing is emitted. */
  lemma {:induction false} GroupedBlock(lines: seq<string>, more: seq<string>, pending: seq<string>)
    requires forall k :: 0 <= k < |lines| ==> lines[k] != ""
    ensures Grouped(lines + more, pending) == Grouped(more, pending + DataLines(lines))
    decreases |lines|
  {
    hide FieldValue, Emitted;
    if lines == [] {
      Unit(more);
      Unit(pending);
    } else {
      AppendTail(lines, more);
      GroupedBlock(lines[1..], more, With(pending, FieldValue(lines[0])));
      if FieldValue(lines[0]).Some? {
        Assoc(pending, [FieldValue(lines[0]).value], DataLines(lines[1..]));
      }
    }
  }

  /** The lines of a text without blank line: only the first and the last may be empty. */
  lemma {:induction false} InnerLines(s: string)
    requires IndexOfBlankLine(s) == -1
    ensures forall k :: 0 < k < |SplitLines(s)| - 1 ==> SplitLines(s)[k] != ""
  {
    if s != "" {
      NoBlankTail(s);
      InnerLines(s[1..]);
      var rest, lines := SplitLines(s[1..]), SplitLines(s);
      if s[0] == '\n' {
        assert lines[1..] == rest;
        if |rest| > 1 {
          FirstLine(s[1..]);
        }
      } else {
        assert lines[1..] == rest[1..];
      }
    }
  }

  lemma NoBlankTail(s: string)
    requires s != "" && IndexOfBlankLine(s) == -1
    ensures IndexOfBlankLine(s[1..]) == -1
    ensures s[0] == '\n' ==> s[1..] == "" || s[1] != '\n'
  {
    if |s| >= 2 {
      IndexOfBlankLineIsFirst(s, 0);
    }
    forall j | 0 <= j < |s[1..]|
      ensures !BlankLineAt(s[1..], j)
    {
      IndexOfBlankLineIsFirst(s, j + 1);
    }
    IndexOfBlankLineIs(s[1..], -1);
  }

  lemma FirstLine(s: string)
    ensures |SplitLines(s)| > 1 && SplitLines(s)[0] == "" ==> s != "" && s[0] == '\n'
  {
  }

  lemma SplitBlock(block: string, z: string)
    ensures SplitLines(block + "\n\n" + z) == SplitLines(block) + [""] + SplitLines(z)
  {
    var tail := "\n\n" + z;
    assert block + "\n\n" + z == block + tail;
    SplitConcat(block, tail);
    assert tail[1..] == "\n" + z && tail[1..][1..] == z;
    var lines, after := SplitLines(block), SplitLines(z);
    assert SplitLines(tail) == [""] + ([""] + after);
    hide SplitLines;
    assert lines[|lines| - 1] + "" == lines[|lines| - 1];
    assert ([""] + ([""] + after))[1..] == [""] + after;
    Snoc(lines);
    Assoc(lines, [""], after);
  }

  /** Every line of a block but the first is not empty. */
  lemma BlockLines(block: string)
    requires IndexOfBlankLine(block + "\n") == -1
    ensures forall k :: 0 < k < |SplitLines(block)| ==> SplitLines(block)[k] != ""
  {
    SplitConcat(block, "\n");
    assert SplitLines("\n") == ["", ""] by {
      var one := "\n";
      assert one[1..] == "";
    }
    InnerLines(block + "\n");
    var lines, more := SplitLines(block), SplitLines(block + "\n");
    hide SplitLines;
    assert lines[|lines| - 1] + "" == lines[|lines| - 1];
    forall k | 0 < k < |lines|
      ensures lines[k] == more[k]
    {
    }
  }

  lemma MessagesOfOne(block: string)
    ensures Messages([block]) == Emitted(DataLines(SplitLines(block)))
  {
    var one := [block];
    assert one[1..] == [];
  }

  lemma MessagesCons(block: string, blocks: seq<string>)
    ensures Messages([block] + blocks) == Messages([block]) + Messages(blocks)
  {
    MessagesAppend([block], blocks);
  }

  /** The lines of a block, however they go on, give its data lines. */
  lemma GroupedLines(lines: seq<string>, more: seq<string>)
    requires lines != [] && forall k :: 0 < k < |lines| ==> lines[k] != ""
    ensures Grouped(lines + more, []) == Grouped(more, DataLines(lines))
  {
    hide Emitted;
    if lines[0] == "" {
      AppendTail(lines, more);
      GroupedBlock(lines[1..], more, []);
      assert Emitted([]) == [] by {
        NothingEmitted();
      }
      Unit(DataLines(lines[1..]));
      Unit(Grouped(lines[1..] + more, []));
      assert FieldValue("") == None;
    } else {
      GroupedBlock(lines, more, []);
      Unit(DataLines(lines));
    }
  }

  lemma NothingEmitted()
    ensures Emitted([]) == []
  {
  }

  lemma {:induction false} DrainGroups(s: string)
    ensures Messages(Drain(s).blocks) + Flush(Drain(s).rest) == Grouped(SplitLines(s), [])
    decreases |s|
  {
    var i := IndexOfBlankLine(s);
    if i == -1 {
      FlushGroups(s);
      Unit(Flush(s));
    } else {
      var block, z := s[..i], s[i + 2..];
      DrainGroups(z);
      FirstBlock(s, i);
      BlockLines(block);
      SplitAtBlankLine(s, i);
      SplitBlock(block, z);
      var lines, after := SplitLines(block), SplitLines(z);
      Assoc(lines, [""], after);
      GroupedLines(lines, [""] + after);
      Cons("", after);
      MessagesOfOne(block);
      MessagesCons(block, Drain(z).blocks);
      hide SplitLines, Messages, Flush, Emitted, DataLines;
      Assoc(Messages([block]), Messages(Drain(z).blocks), Flush(Drain(z).rest));
    }
  }

  lemma BlankIsNotData(line: string)
    requires IsBlank(line)
    ensures !(DATA_FIELD <= line)
  {
    assert line != "" ==> line[0] in line;
    assert DATA_FIELD[0] == 'd';
  }

  lemma {:induction false} NoDataInBlank(lines: seq<string>)
    requires forall k :: 0 <= k < |lines| ==> IsBlank(lines[k])
    ensures DataLines(lines) == []
  {
    if lines != [] {
      BlankIsNotData(lines[0]);
      NoDataInBlank(lines[1..]);
    }
  }

  lemma {:induction false} LinesOfBlank(s: string)
    requires IsBlank(s)
    ensures forall k :: 0 <= k < |SplitLines(s)| ==> IsBlank(SplitLines(s)[k])
  {
    if s != "" {
      assert s[0] in s && forall c :: c in s[1..] ==> c in s;
      LinesOfBlank(s[1..]);
      var rest, lines := SplitLines(s[1..]), SplitLines(s);
      forall k | 0 <= k < |lines|
        ensures IsBlank(lines[k])
      {
        if s[0] == '\n' {
          assert k > 0 ==> lines[k] == rest[k - 1];
        } else {
          assert lines[k] == if k == 0 then [s[0]] + rest[0] else rest[k];
        }
      }
    }
  }

  /** What the final flush reports is the data of the leftover lines. */
  lemma FlushGroups(s: string)
    requires IndexOfBlankLine(s) == -1
    ensures Flush(s) == Grouped(SplitLines(s), [])
  {
    var newline := s != "" && s[|s| - 1] == '\n';
    var block := if newline then s[..|s| - 1] else s;
    assert newline ==> block + "\n" == s;
    NoBlankBlock(s, block, newline);
    LeftoverGroups(block, newline);
    MessagesOfOne(block);
    if IsBlank(s) {
      assert forall c :: c in block ==> c in s;
      LinesOfBlank(block);
      NoDataInBlank(SplitLines(block));
    } else {
      assert IsBlank(block) && newline ==> forall c :: c in s ==> c in block || c == '\n';
      FlushBlock(block, newline);
    }
  }

  lemma NoBlankBlock(s: string, block: string, newline: bool)
    requires IndexOfBlankLine(s) == -1
    requires if newline then block + "\n" == s else block == s && (s == "" || s[|s| - 1] != '\n')
    ensures IndexOfBlankLine(block + "\n") == -1
  {
    if !newline {
      var more := block + "\n";
      forall j | 0 <= j < |more|
        ensures !BlankLineAt(more, j)
      {
        if j < |s| {
          IndexOfBlankLineIsFirst(s, j);
        }
      }
      IndexOfBlankLineIs(more, -1);
    }
  }

  lemma LeftoverGroups(block: string, newline: bool)
    requires IndexOfBlankLine(block + "\n") == -1
    ensures Grouped(SplitLines(if newline then block + "\n" else block), []) == Emitted(DataLines(SplitLines(block)))
  {
    BlockLines(block);
    var lines := SplitLines(block);
    if newline {
      SplitConcat(block, "\n");
      assert SplitLines("\n") == ["", ""] by {
        var one := "\n";
        assert one[1..] == "";
      }
      hide SplitLines, DataLines;
      assert lines[|lines| - 1] + "" == lines[|lines| - 1];
      Snoc(lines);
      GroupedLines(lines, [""]);
      EmptyLineEnds(DataLines(lines));
    } else {
      hide SplitLines, DataLines;
      GroupedLines(lines, []);
      Unit(lines);
    }
  }

  lemma EmptyLineEnds(pending: seq<string>)
    ensures Grouped([""], pending) == Emitted(pending)
  {
    var one := [""];
    assert one[1..] == [];
    Unit(Emitted(pending));
  }

  /** The messages of a stream are those of the lines the reader has turned its text into. */
  lemma StreamGroups(chunks: seq<string>)
    ensures Stream(chunks) == Group(Items(SplitLines(Turned(chunks))), 0, [])
  {
    var s := Turned(chunks);
    RunSheds(chunks);
    DrainGroups(s);
    hide SplitLines, Drain, Grouped, Group, Turned, Items;
    GroupedItems(SplitLines(s), 0, []);
    assert SplitLines(s)[0..] == SplitLines(s);
  }

  // ---------- Groups under more or fewer blank lines ----------

  /** The same data lines; every blank line of `hard` is one of `items`, and the others are `soft`. */
  predicate Refines(hard: seq<Item>, items: seq<Item>, soft: seq<bool>)
  {
    |hard| == |items| == |soft| &&
    forall k :: 0 <= k < |hard| ==>
      hard[k].data == items[k].data && (hard[k].blank ==> items[k].blank) && (items[k].blank ==> items[k].data.None?) &&
      (soft[k] ==> items[k].data.None?) && (items[k].blank && !hard[k].blank ==> soft[k])
  }

  /** No line from i up to b ends a block. */
  predicate Joined(hard: seq<Item>, i: nat, b: nat)
    requires b <= |hard|
  {
    forall k :: i <= k < b ==> !hard[k].blank
  }

  /** A soft line with a data line after it in the same block. */
  predicate Parts(hard: seq<Item>, soft: seq<bool>, k: nat, i: nat, b: nat)
    requires |hard| == |soft|
  {
    k <= i < b < |hard| && soft[i] && hard[b].data.Some? && Joined(hard, k, b)
  }

  /** A soft line between two data lines of a block. */
  predicate SoftBetween(hard: seq<Item>, soft: seq<bool>, a: nat, i: nat, b: nat)
    requires |hard| == |soft|
  {
    a < i && a < |hard| && hard[a].data.Some? && Parts(hard, soft, a + 1, i, b)
  }

  predicate NoneBetween(hard: seq<Item>, soft: seq<bool>, k: nat)
    requires |hard| == |soft|
  {
    forall a: nat, i: nat, b: nat :: k <= a < |hard| && i < |hard| && b < |hard| ==> !SoftBetween(hard, soft, a, i, b)
  }

  predicate NoneParted(hard: seq<Item>, soft: seq<bool>, k: nat)
    requires |hard| == |soft|
  {
    forall i: nat, b: nat :: i < |hard| && b < |hard| ==> !Parts(hard, soft, k, i, b)
  }

  predicate QuietFrom(hard: seq<Item>, k: nat)
  {
    forall b: nat :: k <= b < |hard| && hard[b].data.Some? ==> !Joined(hard, k, b)
  }

  /** When the block has no more data, its data may as well be reported now. */
  lemma {:induction false} QuietGroups(hard: seq<Item>, k: nat, pending: seq<string>)
    requires k <= |hard| && QuietFrom(hard, k)
    ensures Group(hard, k, pending) == Emitted(pending) + Group(hard, k, [])
    decreases |hard| - k
  {
    NothingEmitted();
    if k == |hard| {
      Unit(Emitted(pending));
    } else if hard[k].blank {
      Unit(Group(hard, k + 1, []));
    } else {
      assert Joined(hard, k, k);
      assert hard[k].data.None?;
      assert QuietFrom(hard, k + 1) by {
        forall b: nat | k + 1 <= b < |hard| && hard[b].data.Some?
          ensures !Joined(hard, k + 1, b)
        {
          assert !Joined(hard, k, b);
        }
      }
      hide QuietFrom, Emitted;
      QuietGroups(hard, k + 1, pending);
    }
  }

  lemma PartsEarlier(hard: seq<Item>, soft: seq<bool>, k: nat, i: nat, b: nat)
    requires |hard| == |soft| && k < |hard| && !hard[k].blank && Parts(hard, soft, k + 1, i, b)
    ensures Parts(hard, soft, k, i, b)
  {
  }

  lemma PartsLater(hard: seq<Item>, soft: seq<bool>, k: nat)
    requires |hard| == |soft| && k < |hard| && !hard[k].blank && NoneParted(hard, soft, k)
    ensures NoneParted(hard, soft, k + 1)
  {
    hide Parts;
    var next := k + 1;
    forall i: nat, b: nat | i < |hard| && b < |hard| && Parts(hard, soft, next, i, b)
      ensures Parts(hard, soft, k, i, b)
    {
      PartsEarlier(hard, soft, k, i, b);
    }
  }

  lemma QuietAfterSoft(hard: seq<Item>, soft: seq<bool>, k: nat)
    requires |hard| == |soft| && k < |hard| && !hard[k].blank && NoneParted(hard, soft, k) && soft[k]
    ensures QuietFrom(hard, k + 1)
  {
    forall b: nat | k + 1 <= b < |hard| && hard[b].data.Some?
      ensures !Joined(hard, k + 1, b)
    {
      assert !Parts(hard, soft, k, k, b);
    }
  }

  /** Where no soft line stands between data lines of a block, it does not matter which of them are blank. */
  lemma {:induction false} SameGroups(hard: seq<Item>, items: seq<Item>, soft: seq<bool>, k: nat, pending: seq<string>)
    requires Refines(hard, items, soft) && k <= |hard| && NoneBetween(hard, soft, k)
    requires pending != [] ==> NoneParted(hard, soft, k)
    ensures Group(items, k, pending) == Group(hard, k, pending)
    decreases |hard| - k
  {
    if k < |hard| {
      assert NoneBetween(hard, soft, k + 1);
      hide NoneBetween, Emitted;
      if hard[k].blank {
        SameGroups(hard, items, soft, k + 1, []);
      } else {
        if pending != [] {
          PartsLater(hard, soft, k);
        }
        if items[k].blank {
          SameGroups(hard, items, soft, k + 1, []);
          if pending != [] {
            QuietAfterSoft(hard, soft, k);
            QuietGroups(hard, k + 1, pending);
          } else {
            NothingEmitted();
            Unit(Group(items, k + 1, []));
          }
        } else {
          if hard[k].data.Some? {
            AfterData(hard, soft, k);
          }
          SameGroups(hard, items, soft, k + 1, With(pending, hard[k].data));
        }
      }
    }
  }

  lemma AfterData(hard: seq<Item>, soft: seq<bool>, k: nat)
    requires |hard| == |soft| && k < |hard| && hard[k].data.Some? && NoneBetween(hard, soft, k)
    ensures NoneParted(hard, soft, k + 1)
  {
    hide Parts;
    var next := k + 1;
    forall i: nat, b: nat | i < |hard| && b < |hard| && Parts(hard, soft, next, i, b)
      ensures SoftBetween(hard, soft, k, i, b)
    {
      PartsOrder(hard, soft, k + 1, i, b);
    }
    hide SoftBetween;
  }

  lemma PartsOrder(hard: seq<Item>, soft: seq<bool>, k: nat, i: nat, b: nat)
    requires |hard| == |soft| && Parts(hard, soft, k, i, b)
    ensures k <= i < b < |hard|
  {
  }

  // ---------- More blank lines make more messages ----------

  /** How many messages come from line k on, if the block has data so far or not. */
  function Count(items: seq<Item>, k: nat, pending: bool): nat
    requires k <= |items|
    decreases |items| - k
  {
    if k == |items| then (if pending then 1 else 0)
    else if items[k].blank then (if pending then 1 else 0) + Count(items, k + 1, false)
    else Count(items, k + 1, pending || items[k].data.Some?)
  }

  lemma {:induction false} CountIsLength(items: seq<Item>, k: nat, pending: seq<string>)
    requires k <= |items|
    ensures |Group(items, k, pending)| == Count(items, k, pending != [])
    decreases |items| - k
  {
    if k < |items| {
      CountIsLength(items, k + 1, if items[k].blank then [] else With(pending, items[k].data));
    }
  }

  /** Every soft line is blank. */
  predicate AllBlank(items: seq<Item>, soft: seq<bool>)
  {
    |items| == |soft| && forall k :: 0 <= k < |items| && soft[k] ==> items[k].blank
  }

  lemma {:induction false} NotFewer(hard: seq<Item>, items: seq<Item>, soft: seq<bool>, k: nat, x: bool, y: bool)
    requires Refines(hard, items, soft) && k <= |hard| && (x ==> y)
    ensures Count(hard, k, y) <= Count(items, k, x) + if y && !x then 1 else 0
    decreases |hard| - k
  {
    if k < |hard| {
      if hard[k].blank {
        NotFewer(hard, items, soft, k + 1, false, false);
      } else if items[k].blank {
        NotFewer(hard, items, soft, k + 1, false, y);
      } else {
        NotFewer(hard, items, soft, k + 1, x || hard[k].data.Some?, y || hard[k].data.Some?);
      }
    }
  }

  /** With data still to come in the block, reporting the pending data early costs a message. */
  lemma {:induction false} DataToCome(hard: seq<Item>, items: seq<Item>, soft: seq<bool>, k: nat, b: nat)
    requires Refines(hard, items, soft) && k <= b < |hard| && hard[b].data.Some? && Joined(hard, k, b)
    requires !hard[b].blank
    ensures Count(hard, k, true) <= Count(items, k, false)
    decreases b - k
  {
    if hard[k].data.Some? {
      assert !items[k].blank;
      NotFewer(hard, items, soft, k + 1, true, true);
    } else {
      assert !hard[k].blank;
      DataToCome(hard, items, soft, k + 1, b);
    }
  }

  lemma {:induction false} PartedCount(hard: seq<Item>, items: seq<Item>, soft: seq<bool>, k: nat, i: nat, b: nat)
    requires Refines(hard, items, soft) && AllBlank(items, soft) && Parts(hard, soft, k, i, b)
    ensures Count(hard, k, true) < Count(items, k, true)
    decreases i - k
  {
    assert !hard[b].blank && !hard[k].blank;
    if items[k].blank {
      DataToCome(hard, items, soft, k + 1, b);
    } else {
      assert Parts(hard, soft, k + 1, i, b);
      PartedCount(hard, items, soft, k + 1, i, b);
    }
  }

  lemma {:induction false} BetweenCount(
      hard: seq<Item>, items: seq<Item>, soft: seq<bool>, k: nat, a: nat, i: nat, b: nat, x: bool, y: bool)
    requires Refines(hard, items, soft) && AllBlank(items, soft)
    requires k <= a && SoftBetween(hard, soft, a, i, b) && (x ==> y)
    ensures Count(hard, k, y) < Count(items, k, x) + if y && !x then 1 else 0
    decreases a - k
  {
    if k == a {
      assert !items[a].blank && !hard[a].blank;
      PartedCount(hard, items, soft, a + 1, i, b);
    } else if hard[k].blank {
      BetweenCount(hard, items, soft, k + 1, a, i, b, false, false);
    } else if items[k].blank {
      BetweenCount(hard, items, soft, k + 1, a, i, b, false, y);
    } else {
      BetweenCount(hard, items, soft, k + 1, a, i, b, x || hard[k].data.Some?, y || hard[k].data.Some?);
    }
  }

  // ---------- Carriage returns in messages ----------

  function Crs(s: string): nat
  {
    if s == "" then 0 else (if s[0] == '\r' then 1 else 0) + Crs(s[1..])
  }

  function AllCrs(parts: seq<string>): nat
  {
    if parts == [] then 0 else Crs(parts[0]) + AllCrs(parts[1..])
  }

  /** The carriage returns in the data from line k on. */
  function DataCrs(items: seq<Item>, k: nat): nat
    requires k <= |items|
    decreases |items| - k
  {
    if k == |items| then 0
    else (if items[k].data.Some? then Crs(items[k].data.value) else 0) + DataCrs(items, k + 1)
  }

  lemma {:induction false} CrsConcat(a: string, b: string)
    ensures Crs(a + b) == Crs(a) + Crs(b)
  {
    if a == "" {
      Unit(b);
    } else {
      AppendTail(a, b);
      CrsConcat(a[1..], b);
    }
  }

  lemma {:induction false} AllCrsConcat(a: seq<string>, b: seq<string>)
    ensures AllCrs(a + b) == AllCrs(a) + AllCrs(b)
  {
    if a == [] {
      Unit(b);
    } else {
      AppendTail(a, b);
      AllCrsConcat(a[1..], b);
    }
  }

  lemma {:induction false} JoinKeepsCrs(parts: seq<string>)
    ensures Crs(JoinLines(parts)) == AllCrs(parts)
  {
    if |parts| > 1 {
      JoinKeepsCrs(parts[1..]);
      CrsConcat(parts[0] + "\n", JoinLines(parts[1..]));
      CrsConcat(parts[0], "\n");
    }
  }

  lemma OneCrs(part: string)
    ensures AllCrs([part]) == Crs(part)
  {
    var one := [part];
    assert one[1..] == [];
  }

  lemma EmittedCrs(pending: seq<string>)
    ensures AllCrs(Emitted(pending)) == AllCrs(pending)
  {
    if pending != [] {
      JoinKeepsCrs(pending);
      OneCrs(JoinLines(pending));
    }
  }

  lemma WithCrs(pending: seq<string>, data: Option<string>)
    ensures AllCrs(With(pending, data)) == AllCrs(pending) + if data.Some? then Crs(data.value) else 0
  {
    if data.Some? {
      AllCrsConcat(pending, [data.value]);
      OneCrs(data.value);
    }
  }

  /** Grouping neither adds carriage returns nor loses any. */
  lemma {:induction false} GroupKeepsCrs(items: seq<Item>, k: nat, pending: seq<string>)
    requires k <= |items| && forall j :: 0 <= j < |items| && items[j].blank ==> items[j].data.None?
    ensures AllCrs(Group(items, k, pending)) == AllCrs(pending) + DataCrs(items, k)
    decreases |items| - k
  {
    hide AllCrs, Emitted, With;
    EmittedCrs(pending);
    if k < |items| {
      if items[k].blank {
        GroupKeepsCrs(items, k + 1, []);
        AllCrsConcat(Emitted(pending), Group(items, k + 1, []));
        NoCrs();
      } else {
        GroupKeepsCrs(items, k + 1, With(pending, items[k].data));
        WithCrs(pending, items[k].data);
      }
    }
  }

  lemma NoCrs()
    ensures AllCrs([]) == 0
  {
  }

  // ---------- A slow connection takes off every carriage return ----------

  function Empties(n: nat): (chunks: seq<string>)
  {
    if n == 0 then [] else [""] + Empties(n - 1)
  }

  /** The text character by character, each followed by as many empty chunks as there were characters. */
  function Slowly(t: string): seq<string>
  {
    if t == "" then [] else Slowly(t[..|t| - 1]) + [[t[|t| - 1]]] + Empties(|t|)
  }

  predicate CrLfAt(s: string, i: int)
  {
    0 <= i < |s| - 1 && s[i] == '\r' && s[i + 1] == '\n'
  }

  /** No CR LF but perhaps at the end. */
  ghost predicate AlmostPure(s: string)
  {
    forall i :: CrLfAt(s, i) ==> i == |s| - 2
  }

  ghost predicate Pure(s: string)
  {
    forall i :: !CrLfAt(s, i)
  }

  lemma PureIsStable(s: string)
    requires Pure(s)
    ensures Normalize(s) == s
  {
    assert !HasCrLf(s) by {
      forall i | 0 <= i < |s| - 1
        ensures !(s[i] == '\r' && s[i + 1] == '\n')
      {
        assert !CrLfAt(s, i);
      }
    }
    NormalizeIdentity(s);
  }

  lemma TurnedSnoc(chunks: seq<string>, c: string)
    ensures Turned(chunks + [c]) == Consumed(Run(chunks).blocks) + Normalize(Run(chunks).rest + c)
  {
    var state := Run(chunks);
    var more := Normalize(state.rest + c);
    assert (chunks + [c])[..|chunks|] == chunks;
    hide Drain, Normalize, Consumed;
    DrainLossless(more);
    ConsumedAppend(state.blocks, Drain(more).blocks);
    Assoc(Consumed(state.blocks), Consumed(Drain(more).blocks), Drain(more).rest);
  }

  lemma PurePart(used: string, rest: string)
    ensures Pure(used + rest) ==> Pure(rest)
    ensures AlmostPure(used + rest) ==> AlmostPure(rest)
  {
    forall i | CrLfAt(rest, i)
      ensures CrLfAt(used + rest, |used| + i)
    {
    }
  }

  lemma PureChange(s: string, x: char)
    requires Pure(s)
    ensures AlmostPure(s + [x]) && (x != '\n' || s == "" || s[|s| - 1] != '\r' ==> Pure(s + [x]))
  {
    var more := s + [x];
    forall i | CrLfAt(more, i)
      ensures i == |more| - 2 && x == '\n' && s != "" && s[|s| - 1] == '\r'
    {
      assert i < |more| - 2 ==> CrLfAt(s, i);
    }
  }

  lemma AlmostPureTail(s: string)
    requires AlmostPure(s) && EndsInCrLf(s)
    ensures Pure(s[..|s| - 2]) && AlmostPure(s[..|s| - 2] + "\n") && Normalize(s) == s[..|s| - 2] + "\n"
  {
    var head := s[..|s| - 2];
    forall i
      ensures !CrLfAt(head, i)
    {
      assert CrLfAt(head, i) ==> CrLfAt(s, i);
    }
    assert s == head + "\r\n";
    NormalizeSplit(head, "\r\n");
    PureIsStable(head);
    assert Normalize("\r\n") == "\n" + Normalize("");
    PureChange(head, '\n');
    assert "\n" == ['\n'];
  }

  lemma AlmostPureEnds(s: string)
    requires AlmostPure(s)
    ensures Pure(s) || EndsInCrLf(s)
  {
  }

  lemma EmptyTurn(used: string, rest: string)
    requires AlmostPure(used + rest) && (EndsInCrLf(used + rest) ==> EndsInCrLf(rest))
    ensures var s, next := used + rest, used + Normalize(rest);
            AlmostPure(next) && (if Pure(s) then next == s else |next| < |s|)
  {
    hide Normalize, Pure, AlmostPure;
    var s := used + rest;
    AlmostPureEnds(s);
    PurePart(used, rest);
    if Pure(s) {
      PureIsStable(rest);
    } else {
      AlmostPureTail(s);
      AlmostPureTail(rest);
      var head := rest[..|rest| - 2];
      assert s[..|s| - 2] == used + head;
      Assoc(used, head, "\n");
    }
  }

  /** An empty chunk takes the last CR before the LF at the end, if there is one. */
  lemma EmptyChunk(chunks: seq<string>)
    requires AlmostPure(Turned(chunks))
    ensures var s, next := Turned(chunks), Turned(chunks + [""]);
            AlmostPure(next) && (if Pure(s) then next == s else |next| < |s|)
  {
    hide *;
    RunSheds(chunks);
    TurnedIs(chunks);
    TurnedSnoc(chunks, "");
    Unit(Run(chunks).rest);
    if EndsInCrLf(Turned(chunks)) {
      RestKeepsCrLf(Turned(chunks));
    }
    EmptyTurn(Consumed(Run(chunks).blocks), Run(chunks).rest);
  }

  lemma TurnedIs(chunks: seq<string>)
    ensures Turned(chunks) == Consumed(Run(chunks).blocks) + Run(chunks).rest
  {
  }

  lemma {:induction false} Purify(chunks: seq<string>, n: nat)
    requires AlmostPure(Turned(chunks)) && (!Pure(Turned(chunks)) ==> |Turned(chunks)| <= n)
    ensures Pure(Turned(chunks + Empties(n))) && |Turned(chunks + Empties(n))| <= |Turned(chunks)|
    decreases n
  {
    hide Turned, Pure, AlmostPure;
    if n == 0 {
      Unit(chunks);
      EmptyIsPure();
    } else {
      EmptyChunk(chunks);
      Purify(chunks + [""], n - 1);
      Assoc(chunks, [""], Empties(n - 1));
    }
  }

  lemma EmptyIsPure()
    ensures forall s: string :: |s| == 0 ==> Pure(s)
  {
  }

  lemma {:induction false} ConcatEmpties(chunks: seq<string>, n: nat)
    ensures Concat(chunks + Empties(n)) == Concat(chunks)
    decreases n
  {
    if n == 0 {
      Unit(chunks);
    } else {
      Assoc(chunks, [""], Empties(n - 1));
      ConcatEmpties(chunks + [""], n - 1);
      ConcatSnoc(chunks, "");
      Unit(Concat(chunks));
    }
  }

  lemma OneMore(chunks: seq<string>, x: char)
    requires Pure(Turned(chunks))
    ensures AlmostPure(Turned(chunks + [[x]])) && |Turned(chunks + [[x]])| <= |Turned(chunks)| + 1
  {
    var s, state := Turned(chunks), Run(chunks);
    var used, more := Consumed(state.blocks), state.rest + [x];
    TurnedIs(chunks);
    TurnedSnoc(chunks, [x]);
    PurePart(used, state.rest);
    PureChange(state.rest, x);
    PureChange(s, x);
    Assoc(used, state.rest, [x]);
    AlmostPureEnds(more);
    hide Turned, Run, Consumed, Normalize, Pure, AlmostPure;
    if Pure(more) {
      PureIsStable(more);
    } else {
      AlmostPureTail(more);
      var all := s + [x];
      assert EndsInCrLf(all);
      AlmostPureTail(all);
      assert all[..|all| - 2] == used + more[..|more| - 2];
      Assoc(used, more[..|more| - 2], "\n");
    }
  }

  lemma {:induction false} SlowlyPure(t: string)
    ensures Concat(Slowly(t)) == t && Pure(Turned(Slowly(t))) && |Turned(Slowly(t))| <= |t|
  {
    if t != "" {
      var n := |t| - 1;
      SlowlyPure(t[..n]);
      var chunks := Slowly(t[..n]) + [[t[n]]];
      hide Turned, Pure, AlmostPure, Concat;
      OneMore(Slowly(t[..n]), t[n]);
      Purify(chunks, |t|);
      ConcatEmpties(chunks, |t|);
      ConcatSnoc(Slowly(t[..n]), [t[n]]);
    }
  }

  predicate NoCrEnds(lines: seq<string>)
  {
    forall k :: 0 <= k < |lines| - 1 && lines[k] != "" ==> lines[k][|lines[k]| - 1] != '\r'
  }

  lemma {:induction false} PureLines(s: string)
    requires Pure(s)
    ensures NoCrEnds(SplitLines(s))
  {
    if s != "" {
      Snapped(s);
      PureLines(s[1..]);
      var rest, lines := SplitLines(s[1..]), SplitLines(s);
      forall k | 0 <= k < |lines| - 1 && lines[k] != ""
        ensures lines[k][|lines[k]| - 1] != '\r'
      {
        if s[0] == '\n' {
          assert lines[k] == rest[k - 1];
        } else if k > 0 {
          assert lines[k] == rest[k];
        } else {
          assert lines[0] == [s[0]] + rest[0];
          if rest[0] == "" {
            FirstLine(s[1..]);
            assert !CrLfAt(s, 0);
          }
        }
      }
    }
  }

  lemma Snapped(s: string)
    requires s != "" && Pure(s)
    ensures Pure(s[1..])
  {
    forall i
      ensures !CrLfAt(s[1..], i)
    {
      assert CrLfAt(s[1..], i) ==> CrLfAt(s, i + 1);
    }
  }

  // ---------- The texts whose messages depend on the chunks ----------

  predicate IsData(line: string)
  {
    DATA_FIELD <= line
  }

  /** Blank once the CR of its line end is gone. */
  predicate EndsBlock(line: string)
  {
    line == "" || line == "\r"
  }

  /** Nothing but carriage returns, and more than one. */
  predicate CrLine(line: string)
  {
    |line| >= 2 && forall i :: 0 <= i < |line| ==> line[i] == '\r'
  }

  predicate EndsInDoubledCr(line: string)
  {
    |line| >= 2 && line[|line| - 2] == '\r' && line[|line| - 1] == '\r'
  }

  /** A data line ends in CR CR LF. */
  predicate DataEndsInDoubledCr(lines: seq<string>)
  {
    exists k :: 0 <= k < |lines| - 1 && IsData(lines[k]) && EndsInDoubledCr(lines[k])
  }

  predicate CrLineAt(lines: seq<string>, a: nat, i: nat, b: nat)
    requires a < i < b < |lines|
  {
    IsData(lines[a]) && CrLine(lines[i]) && IsData(lines[b]) && forall k :: a < k < b ==> !EndsBlock(lines[k])
  }

  /** A line of nothing but two or more carriage returns stands between two data lines of a block. */
  predicate CrLineInMessage(lines: seq<string>)
  {
    exists a: nat, i: nat, b: nat :: a < i < b < |lines| && CrLineAt(lines, a, i, b)
  }

  function Soft(lines: seq<string>): (soft: seq<bool>)
    ensures |soft| == |lines|
  {
    seq(|lines|, k requires 0 <= k < |lines| => k < |lines| - 1 && CrLine(lines[k]))
  }

  lemma ShedData(line: string, left: string)
    requires Shed(line, left)
    ensures IsData(left) <==> IsData(line)
    ensures IsData(line) && !EndsInDoubledCr(line) ==> left == Chop(line)
    ensures left == "" ==> EndsBlock(line) || CrLine(line)
    ensures EndsBlock(line) ==> left == ""
  {
    if line != "" && line[|line| - 1] == '\r' {
      if IsData(line) {
        assert line[4] == ':';
        assert |left| >= 5;
      }
      if |left| < |line| - 1 {
        assert line[|line| - 2] == '\r';
      }
    }
  }

  lemma ChopBlank(line: string)
    ensures Chop(line) == "" <==> EndsBlock(line)
    ensures CrLine(line) ==> !IsData(line)
    ensures IsData(line) <==> IsData(Chop(line))
  {
    ShedChop(line, "");
    ShedData(line, Chop(line));
    assert CrLine(line) ==> line[0] == '\r';
  }

  lemma DataField(line: string)
    ensures FieldValue(line).Some? <==> IsData(line)
    ensures line == "" ==> FieldValue(line).None?
  {
  }

  /** However much was shed, the lines refine those of the text read in one chunk. */
  lemma ShedsRefine(lines: seq<string>, left: seq<string>)
    requires Sheds(lines, left) && !DataEndsInDoubledCr(lines)
    ensures Refines(Items(ChopAll(lines)), Items(left), Soft(lines))
  {
    hide FieldValue, Shed, Chop, IsData, EndsBlock, CrLine, EndsInDoubledCr;
    var hard, items, soft := Items(ChopAll(lines)), Items(left), Soft(lines);
    forall k | 0 <= k < |lines|
      ensures hard[k].data == items[k].data && (hard[k].blank ==> items[k].blank)
      ensures items[k].blank ==> items[k].data.None?
      ensures soft[k] ==> items[k].data.None?
      ensures items[k].blank && !hard[k].blank ==> soft[k]
    {
      DataField(left[k]);
      DataField(ChopAll(lines)[k]);
      if k < |lines| - 1 {
        ShedData(lines[k], left[k]);
        ChopBlank(lines[k]);
      }
    }
  }

  lemma BetweenIsCrLine(lines: seq<string>, a: nat, i: nat, b: nat)
    requires lines != []
    ensures SoftBetween(Items(ChopAll(lines)), Soft(lines), a, i, b) <==>
            a < i < b < |lines| && CrLineAt(lines, a, i, b)
  {
    hide FieldValue, Chop, IsData, EndsBlock, CrLine;
    var hard := Items(ChopAll(lines));
    forall k | 0 <= k < |lines|
      ensures hard[k].data.Some? <==> IsData(lines[k])
      ensures k < |lines| - 1 ==> (hard[k].blank <==> EndsBlock(lines[k]))
    {
      DataField(ChopAll(lines)[k]);
      ChopBlank(lines[k]);
    }
  }

  lemma NoneBetweenLines(lines: seq<string>)
    requires lines != []
    ensures NoneBetween(Items(ChopAll(lines)), Soft(lines), 0) <==> !CrLineInMessage(lines)
  {
    hide SoftBetween, CrLineAt, Items, ChopAll, Soft;
    var hard, soft := Items(ChopAll(lines)), Soft(lines);
    if NoneBetween(hard, soft, 0) && CrLineInMessage(lines) {
      var a: nat, i: nat, b: nat :| a < i < b < |lines| && CrLineAt(lines, a, i, b);
      BetweenIsCrLine(lines, a, i, b);
    }
    if !NoneBetween(hard, soft, 0) {
      var a: nat, i: nat, b: nat :| a < |hard| && i < |hard| && b < |hard| && SoftBetween(hard, soft, a, i, b);
      BetweenIsCrLine(lines, a, i, b);
    }
  }

  /** Without either pattern, whatever was shed gives the messages of the one-chunk reading. */
  lemma SameMessages(lines: seq<string>, left: seq<string>)
    requires lines != [] && Sheds(lines, left) && !DataEndsInDoubledCr(lines) && !CrLineInMessage(lines)
    ensures Group(Items(left), 0, []) == Group(Items(ChopAll(lines)), 0, [])
  {
    hide *;
    ShedsRefine(lines, left);
    NoneBetweenLines(lines);
    SameGroups(Items(ChopAll(lines)), Items(left), Soft(lines), 0, []);
  }

  /** Taking off everything makes a message more where a line of carriage returns stood in one. */
  lemma MoreMessages(lines: seq<string>, left: seq<string>)
    requires lines != [] && Sheds(lines, left) && NoCrEnds(left)
    requires !DataEndsInDoubledCr(lines) && CrLineInMessage(lines)
    ensures Group(Items(left), 0, []) != Group(Items(ChopAll(lines)), 0, [])
  {
    var hard, items, soft := Items(ChopAll(lines)), Items(left), Soft(lines);
    var a: nat, i: nat, b: nat :| a < i < b < |lines| && CrLineAt(lines, a, i, b);
    SoftIsBlank(lines, left);
    hide *;
    ShedsRefine(lines, left);
    BetweenIsCrLine(lines, a, i, b);
    BetweenCount(hard, items, soft, 0, a, i, b, false, false);
    CountIsLength(hard, 0, []);
    CountIsLength(items, 0, []);
  }

  lemma SoftIsBlank(lines: seq<string>, left: seq<string>)
    requires Sheds(lines, left) && NoCrEnds(left)
    ensures AllBlank(Items(left), Soft(lines))
  {
    hide FieldValue;
    forall k | 0 <= k < |lines| - 1 && CrLine(lines[k])
      ensures left[k] == ""
    {
      assert Shed(lines[k], left[k]);
    }
  }

  lemma {:induction false} PlainCrs(s: string)
    requires forall i :: 0 <= i < |s| ==> s[i] == '\r'
    ensures Crs(s) == |s|
  {
    if s != "" {
      PlainCrs(s[1..]);
    }
  }

  lemma ValueCrs(line: string, tail: string)
    requires IsData(line) && forall i :: 0 <= i < |tail| ==> tail[i] == '\r'
    ensures FieldValue(line).Some? && FieldValue(line + tail).Some?
    ensures Crs(FieldValue(line + tail).value) == Crs(FieldValue(line).value) + |tail|
  {
    var value := line[|DATA_FIELD|..];
    assert (line + tail)[|DATA_FIELD|..] == value + tail;
    if value == "" && tail != "" {
      assert (value + tail)[0] == '\r';
    }
    if " " <= value {
      assert (value + tail)[1..] == value[1..] + tail;
      CrsConcat(value[1..], tail);
    } else {
      CrsConcat(value, tail);
    }
    PlainCrs(tail);
  }

  function DataCrsOf(line: string): nat
  {
    if FieldValue(line).Some? then Crs(FieldValue(line).value) else 0
  }

  /** A line that has shed everything has no more carriage returns in its data than the chopped one. */
  lemma FewerCrs(line: string, left: string)
    requires Shed(line, left) && (left != "" ==> left[|left| - 1] != '\r')
    ensures DataCrsOf(left) <= DataCrsOf(Chop(line))
    ensures IsData(line) && EndsInDoubledCr(line) ==> DataCrsOf(left) < DataCrsOf(Chop(line))
  {
    hide FieldValue;
    ShedData(line, left);
    ShedChop(line, "");
    ShedData(line, Chop(line));
    DataField(left);
    DataField(Chop(line));
    if IsData(line) {
      var chopped := Chop(line);
      assert left <= chopped;
      var tail := chopped[|left|..];
      assert chopped == left + tail;
      ValueCrs(left, tail);
    }
  }

  lemma {:induction false} FewerDataCrs(lines: seq<string>, left: seq<string>, k: nat, bad: nat)
    requires Sheds(lines, left) && NoCrEnds(left) && k <= |lines|
    requires bad < |lines| - 1 && IsData(lines[bad]) && EndsInDoubledCr(lines[bad])
    ensures DataCrs(Items(left), k) <= DataCrs(Items(ChopAll(lines)), k)
    ensures k <= bad ==> DataCrs(Items(left), k) < DataCrs(Items(ChopAll(lines)), k)
    decreases |lines| - k
  {
    hide FieldValue, Crs, Shed, Chop, IsData, EndsInDoubledCr;
    if k < |lines| {
      FewerDataCrs(lines, left, k + 1, bad);
      if k < |lines| - 1 {
        FewerCrs(lines[k], left[k]);
      }
    }
  }

  lemma BlankHasNoData(lines: seq<string>)
    ensures forall j :: 0 <= j < |lines| && Items(lines)[j].blank ==> Items(lines)[j].data.None?
  {
    DataField("");
    hide FieldValue;
  }

  /** Taking off everything leaves fewer carriage returns in the messages. */
  lemma OtherMessages(lines: seq<string>, left: seq<string>)
    requires Sheds(lines, left) && NoCrEnds(left) && DataEndsInDoubledCr(lines)
    ensures Group(Items(left), 0, []) != Group(Items(ChopAll(lines)), 0, [])
  {
    var bad :| 0 <= bad < |lines| - 1 && IsData(lines[bad]) && EndsInDoubledCr(lines[bad]);
    hide *;
    FewerDataCrs(lines, left, 0, bad);
    BlankHasNoData(left);
    BlankHasNoData(ChopAll(lines));
    GroupKeepsCrs(Items(left), 0, []);
    GroupKeepsCrs(Items(ChopAll(lines)), 0, []);
  }

  /** The one-chunk reading takes one CR off every line that an LF ends. */
  lemma OneChunk(t: string)
    ensures Stream([t]) == Group(Items(ChopAll(SplitLines(t))), 0, [])
  {
    RunOne(t);
    DrainLossless(Normalize(t));
    NormalizeChops(t);
    hide Run, Drain, Normalize, SplitLines, Group, Items, ChopAll, Stream;
    StreamGroups([t]);
  }

  /**
   For every text: all ways of cutting it into chunks give the same messages if and only if no data
   line of it ends in CR CR LF and no line of nothing but carriage returns, two or more, stands
   between two data lines of a block.
   */
  lemma MessagesIndependent(t: string)
    ensures (forall chunks :: Concat(chunks) == t ==> Stream(chunks) == Stream([t])) <==>
            !DataEndsInDoubledCr(SplitLines(t)) && !CrLineInMessage(SplitLines(t))
  {
    hide *;
    var lines := SplitLines(t);
    OneChunk(t);
    if !DataEndsInDoubledCr(lines) && !CrLineInMessage(lines) {
      forall chunks | Concat(chunks) == t
        ensures Stream(chunks) == Stream([t])
      {
        StreamGroups(chunks);
        RunSheds(chunks);
        SameMessages(lines, SplitLines(Turned(chunks)));
      }
    } else {
      var left := SplitLines(Turned(Slowly(t)));
      SlowlyPure(t);
      PureLines(Turned(Slowly(t)));
      StreamGroups(Slowly(t));
      RunSheds(Slowly(t));
      if DataEndsInDoubledCr(lines) {
        OtherMessages(lines, left);
      } else {
        MoreMessages(lines, left);
      }
      assert Stream(Slowly(t)) != Stream([t]);
    }
  }
}
