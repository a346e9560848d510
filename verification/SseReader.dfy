/**
 The buffered reader of server-sent events in frontend/src/utils/fetch_sse.ts, and the
 frames the backend writes (section 9.2.6 of the WHATWG HTML standard). A text is the
 already decoded character stream.
 */
module SseReader {
  import opened Wrappers
  import opened Sequences

  // ---------- Library calls of the source ----------

  /** `split("\n")` */
  function SplitLines(s: string): (lines: seq<string>)
    ensures |lines| >= 1
  {
    if s == "" then [""]
    else
      var rest := SplitLines(s[1..]);
      if s[0] == '\n' then [""] + rest else [[s[0]] + rest[0]] + rest[1..]
  }

  /** `join("\n")` */
  function JoinLines(lines: seq<string>): string
  {
    if |lines| == 0 then "" else if |lines| == 1 then lines[0]
    else lines[0] + "\n" + JoinLines(lines[1..])
  }

  predicate BlankLineAt(s: string, i: int)
  {
    0 <= i < |s| - 1 && s[i] == '\n' && s[i + 1] == '\n'
  }

  /** `indexOf("\n\n")` */
  function IndexOfBlankLine(s: string): (i: int)
    ensures i == -1 || BlankLineAt(s, i)
  {
    if |s| < 2 then -1
    else if s[0] == '\n' && s[1] == '\n' then 0
    else
      var i := IndexOfBlankLine(s[1..]);
      if i == -1 then -1 else i + 1
  }

  lemma {:induction false} IndexOfBlankLineIsFirst(s: string, j: int)
    requires 0 <= j < |s| && (IndexOfBlankLine(s) == -1 || j < IndexOfBlankLine(s))
    ensures !BlankLineAt(s, j)
    decreases j
  {
    if j > 0 {
      IndexOfBlankLineIsFirst(s[1..], j - 1);
    }
  }

  /** `replace(/\r\n/g, "\n")` */
  function Normalize(s: string): (n: string)
    ensures |n| <= |s|
    ensures s != "" ==> n != ""
  {
    if s == "" then ""
    else if |s| >= 2 && s[0] == '\r' && s[1] == '\n' then "\n" + Normalize(s[2..])
    else [s[0]] + Normalize(s[1..])
  }

  /** The characters `trim()` removes (ECMAScript white space and line terminators). */
  predicate IsJsSpace(c: char)
  {
    c == '\t' || c == '\n' || c == '\U{B}' || c == '\U{C}' || c == '\r' || c == ' ' ||
    c == '\U{A0}' || c == '\U{1680}' || '\U{2000}' <= c <= '\U{200A}' || c == '\U{2028}' ||
    c == '\U{2029}' || c == '\U{202F}' || c == '\U{205F}' || c == '\U{3000}' || c == '\U{FEFF}'
  }

  predicate IsBlank(s: string)
  {
    forall c :: c in s ==> IsJsSpace(c)
  }

  // ---------- Specification ----------

  const DATA_FIELD := "data:"

  function FieldValue(line: string): Option<string>
  {
    if !(DATA_FIELD <= line) then None
    else
      var rest := line[|DATA_FIELD|..];
      Some(if " " <= rest then rest[1..] else rest)
  }

  function DataLines(lines: seq<string>): seq<string>
  {
    if lines == [] then []
    else
      match FieldValue(lines[0])
      case Some(value) => [value] + DataLines(lines[1..])
      case None => DataLines(lines[1..])
  }

  /** The message an event block carries, if it has a data line. */
  function EventData(block: string): Option<string>
  {
    var data := DataLines(SplitLines(block));
    if data == [] then None else Some(JoinLines(data))
  }

  function Messages(blocks: seq<string>): seq<string>
  {
    if blocks == [] then []
    else
      (match EventData(blocks[0]) case Some(data) => [data] case None => []) + Messages(blocks[1..])
  }

  /** The complete event blocks cut off a text, and what stays in the buffer. */
  datatype Cut = Cut(blocks: seq<string>, rest: string)

  function Drain(s: string): Cut
    decreases |s|
  {
    var i := IndexOfBlankLine(s);
    if i == -1 then Cut([], s)
    else
      var cut := Drain(s[i + 2..]);
      Cut([s[..i]] + cut.blocks, cut.rest)
  }

  function Feed(state: Cut, chunk: string): Cut
  {
    var cut := Drain(Normalize(state.rest + chunk));
    Cut(state.blocks + cut.blocks, cut.rest)
  }

  /** Blocks cut and text left over after reading the chunks in order. */
  function Run(chunks: seq<string>): Cut
  {
    if chunks == [] then Cut([], "")
    else Feed(Run(chunks[..|chunks| - 1]), chunks[|chunks| - 1])
  }

  function Flush(rest: string): seq<string>
  {
    if IsBlank(rest) then [] else Messages(Drain(rest + "\n\n").blocks)
  }

  /** Everything the caller is told while the stream lasts and when it ends. */
  function Stream(chunks: seq<string>): seq<string>
  {
    var cut := Run(chunks);
    Messages(cut.blocks) + Flush(cut.rest)
  }

  function Concat(parts: seq<string>): string
  {
    if parts == [] then "" else parts[0] + Concat(parts[1..])
  }

  // ---------- The reader ----------

  method ParseSseEventBlock(raw: string) returns (data: Option<string>)
    ensures data == EventData(raw)
  {
    var lines := SplitLines(raw);
    var dataLines: seq<string> := [];
    for k := 0 to |lines|
      invariant dataLines + DataLines(lines[k..]) == DataLines(lines)
    {
      var line := lines[k];
      assert lines[k..][0] == line && lines[k..][1..] == lines[k + 1..];
      if ":" <= line {
        assert line[0] == ':' && FieldValue(line) == None;
        continue;
      }
      if DATA_FIELD <= line {
        var rest := line[|DATA_FIELD|..];
        if " " <= rest {
          rest := rest[1..];
        }
        assert dataLines + ([rest] + DataLines(lines[k + 1..])) == dataLines + [rest] + DataLines(lines[k + 1..]);
        dataLines := dataLines + [rest];
      }
    }
    assert lines[|lines|..] == [];
    Unit(dataLines);
    if |dataLines| == 0 {
      return None;
    }
    return Some(JoinLines(dataLines));
  }

  method DrainSseBuffer(initial: string) returns (buffer: string, messages: seq<string>)
    ensures buffer == Drain(initial).rest
    ensures messages == Messages(Drain(initial).blocks)
  {
    hide EventData, IndexOfBlankLine;
    buffer, messages := initial, [];
    Unit(Messages(Drain(initial).blocks));
    var idx := IndexOfBlankLine(buffer);
    while idx != -1
      invariant idx == IndexOfBlankLine(buffer)
      invariant Drain(initial).rest == Drain(buffer).rest
      invariant Messages(Drain(initial).blocks) == Pending(messages, buffer)
      decreases |buffer|
    {
      DrainStep(buffer, messages);
      var raw := buffer[..idx];
      buffer := buffer[idx + 2..];
      var data := ParseSseEventBlock(raw);
      if data.Some? {
        messages := messages + [data.value];
      }
      idx := IndexOfBlankLine(buffer);
    }
    Unit(messages);
  }

  function Emit(messages: seq<string>, data: Option<string>): seq<string>
  {
    if data.Some? then messages + [data.value] else messages
  }

  /** What will have been reported once the buffer is drained. */
  function Pending(messages: seq<string>, buffer: string): seq<string>
  {
    messages + Messages(Drain(buffer).blocks)
  }

  lemma DrainStep(buffer: string, messages: seq<string>)
    requires IndexOfBlankLine(buffer) != -1
    ensures var i := IndexOfBlankLine(buffer);
            var next := Drain(buffer[i + 2..]);
            Drain(buffer).rest == next.rest &&
            Pending(messages, buffer) == Pending(Emit(messages, EventData(buffer[..i])), buffer[i + 2..])
  {
    var i := IndexOfBlankLine(buffer);
    var blocks := Drain(buffer[i + 2..]).blocks;
    Cons(buffer[..i], blocks);
    match EventData(buffer[..i])
    case Some(data) => Assoc(messages, [data], Messages(blocks));
    case None => Unit(Messages(blocks));
  }

  /** The read loop over the chunks the network delivers, and the final flush. */
  method StreamSse(chunks: seq<string>) returns (messages: seq<string>)
    ensures messages == Stream(chunks)
  {
    var buffer := "";
    messages := [];
    for k := 0 to |chunks|
      invariant buffer == Run(chunks[..k]).rest
      invariant messages == Messages(Run(chunks[..k]).blocks)
    {
      assert chunks[..k + 1][..k] == chunks[..k];
      buffer := buffer + chunks[k];
      buffer := Normalize(buffer);
      var emitted;
      MessagesAppend(Run(chunks[..k]).blocks, Drain(buffer).blocks);
      buffer, emitted := DrainSseBuffer(buffer);
      messages := messages + emitted;
    }
    assert chunks[..|chunks|] == chunks;
    if !IsBlank(buffer) {
      var _, emitted := DrainSseBuffer(buffer + "\n\n");
      messages := messages + emitted;
    }
  }

  lemma {:induction false} MessagesAppend(a: seq<string>, b: seq<string>)
    ensures Messages(a + b) == Messages(a) + Messages(b)
  {
    if a == [] {
      assert a + b == b;
    } else {
      assert (a + b)[1..] == a[1..] + b;
      MessagesAppend(a[1..], b);
    }
  }

  // ---------- Cutting a stream into chunks ----------

  predicate CrCrLfAt(s: string, i: int)
  {
    0 <= i < |s| - 2 && s[i] == '\r' && s[i + 1] == '\r' && s[i + 2] == '\n'
  }

  /** Some line of the text ends in a doubled carriage return. */
  predicate HasCrCrLf(s: string)
  {
    exists i :: 0 <= i < |s| && CrCrLfAt(s, i)
  }

  predicate HasCrLf(s: string)
  {
    exists i :: 0 <= i < |s| - 1 && s[i] == '\r' && s[i + 1] == '\n'
  }

  /** The text the blocks were cut from. */
  function Consumed(blocks: seq<string>): (s: string)
    ensures blocks != [] ==> |s| >= 2 && s[|s| - 1] == '\n'
  {
    if blocks == [] then "" else blocks[0] + "\n\n" + Consumed(blocks[1..])
  }

  lemma {:induction false} DrainLossless(s: string)
    ensures Consumed(Drain(s).blocks) + Drain(s).rest == s
    decreases |s|
  {
    var i := IndexOfBlankLine(s);
    if i != -1 {
      var cut := Drain(s[i + 2..]);
      DrainLossless(s[i + 2..]);
      Cons(s[..i], cut.blocks);
      Assoc4(s[..i], "\n\n", Consumed(cut.blocks), cut.rest);
      SplitAtBlankLine(s, i);
    }
  }

  lemma SplitAtBlankLine(s: string, i: int)
    requires BlankLineAt(s, i)
    ensures s[..i] + "\n\n" + s[i + 2..] == s
  {
  }

  lemma IndexOfBlankLineIs(s: string, i: int)
    requires i == -1 || BlankLineAt(s, i)
    requires forall j :: 0 <= j < (if i == -1 then |s| else i) ==> !BlankLineAt(s, j)
    ensures IndexOfBlankLine(s) == i
  {
    var k := IndexOfBlankLine(s);
    if i != -1 && (k == -1 || i < k) {
      IndexOfBlankLineIsFirst(s, i);
    }
  }

  /** A block followed by its blank line is cut off whole, whatever follows it. */
  lemma DrainBlock(block: string, z: string)
    requires IndexOfBlankLine(block + "\n") == -1
    ensures Drain(block + "\n\n" + z) == Cut([block] + Drain(z).blocks, Drain(z).rest)
  {
    var s, head := block + "\n\n" + z, block + "\n";
    forall j | 0 <= j < |block|
      ensures !BlankLineAt(s, j)
    {
      IndexOfBlankLineIsFirst(head, j);
      assert s[j] == head[j] && s[j + 1] == head[j + 1];
    }
    IndexOfBlankLineIs(s, |block|);
    assert s[..|block|] == block && s[|block| + 2..] == z;
  }

  lemma {:induction false} DrainConsumed(s: string, z: string)
    ensures var d := Drain(s);
            Drain(Consumed(d.blocks) + z) == Cut(d.blocks + Drain(z).blocks, Drain(z).rest)
    decreases |s|
  {
    hide IndexOfBlankLine;
    var i := IndexOfBlankLine(s);
    if i == -1 {
      Unit(z);
      Unit(Drain(z).blocks);
    } else {
      var block, tail := s[..i], Drain(s[i + 2..]).blocks;
      Cons(block, tail);
      DrainConsumed(s[i + 2..], z);
      FirstBlock(s, i);
      DrainBlock(block, Consumed(tail) + z);
      Assoc4(block, "\n\n", Consumed(tail), z);
      Assoc([block], tail, Drain(z).blocks);
    }
  }

  lemma FirstBlock(s: string, i: int)
    requires i == IndexOfBlankLine(s) != -1
    ensures IndexOfBlankLine(s[..i] + "\n") == -1
  {
    var head := s[..i] + "\n";
    forall j | 0 <= j < |head|
      ensures !BlankLineAt(head, j)
    {
      if j < i {
        IndexOfBlankLineIsFirst(s, j);
      }
    }
    IndexOfBlankLineIs(head, -1);
  }

  /** Normalising works piecewise wherever the cut does not separate a CR from its LF. */
  lemma {:induction false} NormalizeSplit(a: string, b: string)
    requires a != "" && b != "" ==> !(a[|a| - 1] == '\r' && b[0] == '\n')
    ensures Normalize(a + b) == Normalize(a) + Normalize(b)
    decreases |a|
  {
    if a == "" {
      assert a + b == b;
    } else if |a| >= 2 && a[0] == '\r' && a[1] == '\n' {
      assert (a + b)[2..] == a[2..] + b;
      NormalizeSplit(a[2..], b);
      Assoc("\n", Normalize(a[2..]), Normalize(b));
    } else {
      AppendTail(a, b);
      NormalizeSplit(a[1..], b);
      Assoc([a[0]], Normalize(a[1..]), Normalize(b));
    }
  }

  lemma {:induction false} NormalizeIdentity(s: string)
    requires !HasCrLf(s)
    ensures Normalize(s) == s
  {
    if s != "" {
      assert |s| >= 2 ==> !(s[0] == '\r' && s[1] == '\n');
      var t := s[1..];
      forall i | 0 <= i < |t| - 1
        ensures !(t[i] == '\r' && t[i + 1] == '\n')
      {
        assert s[i + 1] == t[i] && s[i + 2] == t[i + 1];
      }
      NormalizeIdentity(t);
    }
  }

  lemma CrCrLfTail(s: string, k: nat)
    requires k <= |s| && !HasCrCrLf(s)
    ensures !HasCrCrLf(s[k..])
  {
    forall i | 0 <= i < |s| - k
      ensures !CrCrLfAt(s[k..], i)
    {
      assert !CrCrLfAt(s, i + k);
    }
  }

  lemma {:induction false} NormalizeRemovesCrLf(s: string)
    requires !HasCrCrLf(s)
    ensures !HasCrLf(Normalize(s))
    decreases |s|
  {
    if s != "" {
      var k := if |s| >= 2 && s[0] == '\r' && s[1] == '\n' then 2 else 1;
      CrCrLfTail(s, k);
      NormalizeRemovesCrLf(s[k..]);
      var n, tail := Normalize(s), Normalize(s[k..]);
      assert !CrCrLfAt(s, 0);
      assert n[1..] == tail;
      forall i | 0 <= i < |n| - 1
        ensures !(n[i] == '\r' && n[i + 1] == '\n')
      {
        if i > 0 {
          assert n[i] == tail[i - 1] && n[i + 1] == tail[i];
        }
      }
    }
  }

  /** Normalising again what was already normalised changes nothing that follows. */
  lemma {:induction false} NormalizeAgain(p: string, c: string)
    requires !HasCrCrLf(p + c)
    ensures Normalize(Normalize(p) + c) == Normalize(p + c)
    decreases |p|
  {
    if |p| >= 2 {
      var k := if p[0] == '\r' && p[1] == '\n' then 2 else 1;
      var head, q := p[..k], p[k..];
      var first, n := Normalize(head), Normalize(q);
      assert p == head + q;
      Assoc(head, q, c);
      CrCrLfTail(p + c, k);
      assert (p + c)[k..] == q + c;
      NormalizeAgain(q, c);
      NormalizeSplit(head, q);
      NormalizeSplit(head, q + c);
      FirstCharacter(p, c, k);
      NormalizeSplit(first, n + c);
      Assoc(first, n, c);
    } else if |p| == 1 {
      assert Normalize(p) == p;
    } else {
      Unit(c);
    }
  }

  lemma FirstCharacter(p: string, c: string, k: nat)
    requires |p| >= 2 && !HasCrCrLf(p + c)
    requires k == if p[0] == '\r' && p[1] == '\n' then 2 else 1
    ensures var first, n := Normalize(p[..k]), Normalize(p[k..]);
            |first| == 1 && Normalize(first) == first &&
            (n + c != "" ==> !(first[0] == '\r' && (n + c)[0] == '\n'))
  {
    assert !CrCrLfAt(p + c, 0);
    assert k == 2 ==> Normalize(p[..2]) == "\n" + Normalize("");
    assert k == 1 ==> Normalize(p[..1]) == [p[0]] + Normalize("");
  }

  lemma {:induction false} ConcatSnoc(parts: seq<string>, last: string)
    ensures Concat(parts + [last]) == Concat(parts) + last
  {
    if parts == [] {
      assert parts + [last] == [last];
      assert Concat([last]) == last + Concat([]);
    } else {
      assert (parts + [last])[1..] == parts[1..] + [last];
      ConcatSnoc(parts[1..], last);
    }
  }

  lemma PrefixWithoutCrCrLf(p: string, c: string)
    requires !HasCrCrLf(p + c)
    ensures !HasCrCrLf(p)
  {
    forall i | 0 <= i < |p|
      ensures !CrCrLfAt(p, i)
    {
      assert !CrCrLfAt(p + c, i);
    }
  }

  /** The normalised prefix that draining consumed never changes again. */
  lemma ConsumedIsFinal(used: string, rest: string, c: string)
    requires !HasCrLf(used + rest)
    requires used != "" ==> used[|used| - 1] == '\n'
    ensures Normalize(used + rest + c) == used + Normalize(rest + c)
  {
    forall i | 0 <= i < |used| - 1
      ensures !(used[i] == '\r' && used[i + 1] == '\n')
    {
      assert (used + rest)[i] == used[i] && (used + rest)[i + 1] == used[i + 1];
    }
    NormalizeIdentity(used);
    NormalizeSplit(used, rest + c);
    Assoc(used, rest, c);
  }

  lemma FeedIsWholeText(p: string, c: string)
    requires !HasCrCrLf(p + c)
    ensures Feed(Drain(Normalize(p)), c) == Drain(Normalize(p + c))
  {
    hide Normalize, Drain;
    var n := Normalize(p);
    var d := Drain(n);
    PrefixWithoutCrCrLf(p, c);
    NormalizeRemovesCrLf(p);
    DrainLossless(n);
    NormalizeAgain(p, c);
    ConsumedIsFinal(Consumed(d.blocks), d.rest, c);
    DrainConsumed(n, Normalize(d.rest + c));
  }

  /** Without a doubled CR the chunks can be forgotten: only the whole text counts. */
  lemma {:induction false} RunIsWholeText(chunks: seq<string>)
    requires !HasCrCrLf(Concat(chunks))
    ensures Run(chunks) == Drain(Normalize(Concat(chunks)))
    decreases |chunks|
  {
    if chunks != [] {
      var init, c := chunks[..|chunks| - 1], chunks[|chunks| - 1];
      Snoc(chunks);
      ConcatSnoc(init, c);
      PrefixWithoutCrCrLf(Concat(init), c);
      RunIsWholeText(init);
      FeedIsWholeText(Concat(init), c);
    }
  }

  function Total(state: Cut): nat
  {
    |Consumed(state.blocks)| + |state.rest|
  }

  lemma {:induction false} ConsumedAppend(a: seq<string>, b: seq<string>)
    ensures Consumed(a + b) == Consumed(a) + Consumed(b)
  {
    if a == [] {
      assert a + b == b;
    } else {
      assert (a + b)[1..] == a[1..] + b;
      ConsumedAppend(a[1..], b);
    }
  }

  lemma NormalizeDoubledCr(x: string)
    ensures Normalize(x + "\r" + "\r\n") == Normalize(x) + "\r\n"
  {
    NormalizeSplit(x + "\r", "\r\n");
    NormalizeSplit(x, "\r");
    assert Normalize("\r") == "\r" + Normalize("");
    assert Normalize("\r\n") == "\n" + Normalize("");
  }

  lemma {:induction false} ConsumedEnd(blocks: seq<string>)
    ensures var s := Consumed(blocks); s != "" ==> |s| >= 2 && s[|s| - 2] == '\n' && s[|s| - 1] == '\n'
  {
    if blocks != [] {
      ConsumedEnd(blocks[1..]);
    }
  }

  predicate EndsInCrLf(s: string)
  {
    |s| >= 2 && s[|s| - 2] == '\r' && s[|s| - 1] == '\n'
  }

  /** Draining cannot split the CR LF that ends a text. */
  lemma RestKeepsCrLf(n: string)
    requires EndsInCrLf(n)
    ensures EndsInCrLf(Drain(n).rest)
  {
    DrainLossless(n);
    ConsumedEnd(Drain(n).blocks);
    SuffixKeepsCrLf(Consumed(Drain(n).blocks), Drain(n).rest);
  }

  lemma SuffixKeepsCrLf(used: string, rest: string)
    requires EndsInCrLf(used + rest)
    requires used != "" ==> |used| >= 2 && used[|used| - 2] == '\n' && used[|used| - 1] == '\n'
    ensures EndsInCrLf(rest)
  {
    var n := used + rest;
    assert used != "" ==> n[|used| - 2] == '\n' && n[|used| - 1] == '\n';
  }

  lemma NormalizeRestShrinks(rest: string, y: string)
    requires EndsInCrLf(rest)
    ensures |Normalize(rest + y)| < |rest| + |Normalize(y)|
  {
    var m := rest[..|rest| - 2];
    assert rest == m + "\r\n";
    NormalizeSplit(rest, y);
    NormalizeSplit(m, "\r\n");
    assert Normalize("\r\n") == "\n" + Normalize("");
  }

  lemma RunOne(t: string)
    ensures Run([t]) == Drain(Normalize(t))
  {
    var one := [t];
    assert one[..0] == [];
    Unit(t);
    Unit(Drain(Normalize(t)).blocks);
  }

  lemma RunTwo(p: string, y: string)
    ensures Run([p, y]) == Feed(Drain(Normalize(p)), y)
  {
    RunOne(p);
    var two := [p, y];
    assert two[..1] == [p];
  }

  lemma TotalDrain(n: string)
    ensures Total(Drain(n)) == |n|
  {
    DrainLossless(n);
  }

  /** After a line ending in a doubled CR, reading on removes one more character. */
  lemma ChunksThatDiffer(t: string, i: nat)
    requires CrCrLfAt(t, i)
    ensures Run([t[..i + 3], t[i + 3..]]) != Run([t])
  {
    var p, y := t[..i + 3], t[i + 3..];
    assert p == t[..i] + "\r" + "\r\n" && t == p + y;
    var n := Normalize(p);
    NormalizeDoubledCr(t[..i]);
    RestKeepsCrLf(n);
    var d := Drain(n);
    NormalizeRestShrinks(d.rest, y);
    RunTwo(p, y);
    var m := Normalize(d.rest + y);
    ConsumedAppend(d.blocks, Drain(m).blocks);
    TotalDrain(n);
    TotalDrain(m);
    assert Total(Run([p, y])) < |n| + |Normalize(y)|;
    NormalizeSplit(p, y);
    RunOne(t);
    TotalDrain(Normalize(t));
  }

  /**
   The event blocks and the leftover buffer do not depend on how the network cuts the
   text into chunks, for exactly the texts without a line ending in CR CR LF.
   */
  lemma ChunkIndependence(t: string)
    ensures (forall chunks :: Concat(chunks) == t ==> Run(chunks) == Run([t])) <==> !HasCrCrLf(t)
  {
    ConcatOne(t);
    if HasCrCrLf(t) {
      var i :| 0 <= i < |t| && CrCrLfAt(t, i);
      ChunksThatDiffer(t, i);
      ConcatTwo(t[..i + 3], t[i + 3..]);
      assert t[..i + 3] + t[i + 3..] == t;
    } else {
      RunOne(t);
      forall chunks | Concat(chunks) == t
        ensures Run(chunks) == Run([t])
      {
        RunIsWholeText(chunks);
      }
    }
  }

  lemma ConcatOne(a: string)
    ensures Concat([a]) == a
  {
    var one := [a];
    assert one[1..] == [];
    Unit(a);
  }

  lemma ConcatTwo(a: string, b: string)
    ensures Concat([a, b]) == a + b
  {
    ConcatOne(b);
    var two := [a, b];
    assert two[1..] == [b];
  }

  /** Hence the messages do not either, final flush included. */
  lemma StreamChunkIndependence(chunks: seq<string>)
    requires !HasCrCrLf(Concat(chunks))
    ensures Stream(chunks) == Stream([Concat(chunks)])
  {
    ChunkIndependence(Concat(chunks));
  }

  /** With a doubled CR even the messages differ: two ways to cut the same text. */
  lemma StreamDependsOnChunks(data: string)
    requires data != "" && data[0] != ' ' && OneLine(data)
    ensures var line := DATA_FIELD + data + "\r\r\n";
            Stream([line + "\n"]) == [data + "\r"] && Stream([line, "\n"]) == [data]
  {
    var block := DATA_FIELD + data;
    var line := block + "\r\r\n";
    assert line == block + "\r" + "\r\n" && block + "\r" == DATA_FIELD + (data + "\r");
    NormalizeIdentity(block);
    NormalizeDoubledCr(block);
    OneBlock(data);
    OneBlock(data + "\r");

    NormalizeSplit(line, "\n");
    NormalizeIdentity("\n");
    assert Normalize(line + "\n") == (block + "\r") + "\n\n";
    RunOne(line + "\n");
    assert Flush("") == [];
    Unit([data + "\r"]);

    RunTwo(line, "\n");
    assert Normalize(line) == (block + "\r") + "\n";
    SecondCrLf(block);
    Unit([block]);
    Unit([data]);
  }

  lemma SecondCrLf(block: string)
    requires !HasCrLf(block)
    ensures Normalize((block + "\r") + "\n" + "\n") == block + "\n\n"
  {
    assert (block + "\r") + "\n" + "\n" == block + "\r\n\n";
    NormalizeSplit(block, "\r\n\n");
    NormalizeIdentity(block);
    NormalizeIdentity("\n");
    assert "\r\n\n"[2..] == "\n";
    assert Normalize("\r\n\n") == "\n" + "\n";
  }

  /** A block of one data line. */
  lemma OneBlock(data: string)
    requires data != "" && data[0] != ' ' && '\n' !in data
    ensures var block := DATA_FIELD + data;
            Drain(block + "\n") == Cut([], block + "\n") &&
            Drain(block + "\n\n") == Cut([block], "") && Messages([block]) == [data]
  {
    var block := DATA_FIELD + data;
    forall j | 0 <= j < |block|
      ensures !BlankLineAt(block + "\n", j)
    {
    }
    IndexOfBlankLineIs(block + "\n", -1);
    DrainBlock(block, "");
    Unit(block + "\n\n");
    Unit([block]);
    OneDataLine(data);
  }

  lemma OneDataLine(data: string)
    requires data != "" && data[0] != ' ' && '\n' !in data
    ensures Messages([DATA_FIELD + data]) == [data]
  {
    var block := DATA_FIELD + data;
    SplitFirstLine(block, "");
    Unit(block);
    assert block[5..] == data;
    assert FieldValue(block) == Some(data);
    var lines := [block];
    assert lines[1..] == [];
    assert DataLines(lines) == [data];
    Unit([data]);
  }

  // ---------- Round trip with the frames the backend prints ----------

  datatype Frame = Event(payload: string) | Comment(text: string)

  predicate OneLine(s: string)
  {
    '\r' !in s && '\n' !in s
  }

  predicate Printable(frame: Frame)
  {
    match frame
    case Event(payload) => '\r' !in payload
    case Comment(text) => OneLine(text)
  }

  function DataField(line: string): string
  {
    "data: " + line
  }

  function DataFields(lines: seq<string>): (fields: seq<string>)
    ensures |fields| == |lines|
    ensures forall k :: 0 <= k < |lines| ==> fields[k] == DataField(lines[k])
  {
    seq(|lines|, k requires 0 <= k < |lines| => DataField(lines[k]))
  }

  function PrintLines(fields: seq<string>): string
  {
    if fields == [] then "" else fields[0] + "\n" + PrintLines(fields[1..])
  }

  /** A frame is its fields, one a line, and an empty line. */
  function PrintFrame(frame: Frame): string
  {
    match frame
    case Event(payload) => PrintLines(DataFields(SplitLines(payload))) + "\n"
    case Comment(text) => PrintLines([": " + text]) + "\n"
  }

  function PrintFrames(frames: seq<Frame>): string
  {
    if frames == [] then "" else PrintFrame(frames[0]) + PrintFrames(frames[1..])
  }

  function Payloads(frames: seq<Frame>): seq<string>
  {
    if frames == [] then []
    else (if frames[0].Event? then [frames[0].payload] else []) + Payloads(frames[1..])
  }

  function FrameFields(frame: Frame): (fields: seq<string>)
  {
    match frame
    case Event(payload) => DataFields(SplitLines(payload))
    case Comment(text) => [": " + text]
  }

  predicate CleanFields(fields: seq<string>)
  {
    fields != [] && forall k :: 0 <= k < |fields| ==> fields[k] != "" && OneLine(fields[k])
  }

  lemma {:induction false} SplitLinesClean(s: string)
    requires '\r' !in s
    ensures forall k :: 0 <= k < |SplitLines(s)| ==> OneLine(SplitLines(s)[k])
    ensures JoinLines(SplitLines(s)) == s
  {
    if s != "" {
      SplitLinesClean(s[1..]);
      var rest := SplitLines(s[1..]);
      var lines := SplitLines(s);
      assert s == [s[0]] + s[1..];
      if s[0] == '\n' {
        assert lines[1..] == rest;
      } else {
        assert forall k :: 1 <= k < |lines| ==> lines[k] == rest[k];
        assert lines[0] == [s[0]] + rest[0];
        assert lines[1..] == rest[1..];
      }
    }
  }

  lemma FrameFieldsClean(frame: Frame)
    requires Printable(frame)
    ensures CleanFields(FrameFields(frame))
  {
    if frame.Event? {
      SplitLinesClean(frame.payload);
    }
  }

  /** The lines of one frame hold no blank line, and splitting them gives them back. */
  lemma {:induction false} JoinedFields(fields: seq<string>)
    requires CleanFields(fields)
    ensures SplitLines(JoinLines(fields)) == fields
    ensures IndexOfBlankLine(JoinLines(fields) + "\n") == -1
    ensures PrintLines(fields) == JoinLines(fields) + "\n"
    ensures JoinLines(fields) != "" && JoinLines(fields)[0] == fields[0][0]
    ensures '\r' !in JoinLines(fields)
    decreases |fields|
  {
    var first := fields[0];
    var tail := if |fields| == 1 then "" else "\n" + JoinLines(fields[1..]);
    if |fields| == 1 {
      assert PrintLines(fields[1..]) == "";
      assert JoinLines(fields) == first + tail;
      SplitFirstLine(first, tail);
      NoBlankLine(first, tail + "\n");
      assert first + (tail + "\n") == JoinLines(fields) + "\n";
    } else {
      JoinedFields(fields[1..]);
      assert JoinLines(fields) == first + tail;
      assert tail[1..] == JoinLines(fields[1..]);
      SplitFirstLine(first, tail);
      assert (tail + "\n")[1..] == JoinLines(fields[1..]) + "\n";
      NoBlankLine(first, tail + "\n");
      assert first + (tail + "\n") == JoinLines(fields) + "\n";
    }
  }

  lemma {:induction false} SplitFirstLine(first: string, tail: string)
    requires '\n' !in first && (tail == "" || tail[0] == '\n')
    ensures SplitLines(first + tail) == if tail == "" then [first] else [first] + SplitLines(tail[1..])
  {
    if first == "" {
      assert first + tail == tail;
    } else {
      assert (first + tail)[1..] == first[1..] + tail;
      SplitFirstLine(first[1..], tail);
      assert [first[0]] + first[1..] == first;
    }
  }

  lemma NoBlankLine(first: string, tail: string)
    requires OneLine(first) && first != "" && tail != "" && tail[0] == '\n'
    requires |tail| >= 2 ==> tail[1] != '\n'
    requires IndexOfBlankLine(tail[1..]) == -1
    ensures IndexOfBlankLine(first + tail) == -1
  {
    var s := first + tail;
    forall j | 0 <= j < |s|
      ensures !BlankLineAt(s, j)
    {
      if |first| < j < |s| - 1 {
        IndexOfBlankLineIsFirst(tail[1..], j - |first| - 1);
      }
    }
    IndexOfBlankLineIs(s, -1);
  }

  lemma {:induction false} DataLinesOfFields(lines: seq<string>)
    ensures DataLines(DataFields(lines)) == lines
  {
    if lines != [] {
      var fields := DataFields(lines);
      assert fields[1..] == DataFields(lines[1..]);
      DataLinesOfFields(lines[1..]);
      assert fields[0][..5] == DATA_FIELD;
      assert fields[0][5..] == " " + lines[0];
      assert FieldValue(fields[0]) == Some(lines[0]);
    }
  }

  /** The block of one frame parses to that frame's payload, or to nothing. */
  lemma FrameParses(frame: Frame)
    requires Printable(frame)
    ensures Messages([JoinLines(FrameFields(frame))]) == Payloads([frame])
    ensures PrintFrame(frame) == JoinLines(FrameFields(frame)) + "\n\n"
    ensures IndexOfBlankLine(JoinLines(FrameFields(frame)) + "\n") == -1
    ensures !IsBlank(JoinLines(FrameFields(frame)))
    ensures '\r' !in PrintFrame(frame)
  {
    var fields := FrameFields(frame);
    FrameFieldsClean(frame);
    JoinedFields(fields);
    var block := JoinLines(fields);
    var blocks, frames := [block], [frame];
    assert blocks[1..] == [] && frames[1..] == [];
    match frame
    case Event(payload) =>
      DataLinesOfFields(SplitLines(payload));
      SplitLinesClean(payload);
      assert fields[0][0] == 'd';
      assert block[0] in block && !IsJsSpace('d');
    case Comment(text) =>
      assert fields[0][0] == ':';
      assert FieldValue(fields[0]) == None;
      assert DataLines(fields[1..]) == [];
      assert block[0] in block && !IsJsSpace(':');
  }

  function FrameBlocks(frames: seq<Frame>): seq<string>
  {
    if frames == [] then [] else [JoinLines(FrameFields(frames[0]))] + FrameBlocks(frames[1..])
  }

  lemma {:induction false} FramesParse(frames: seq<Frame>, z: string)
    requires forall f :: f in frames ==> Printable(f)
    ensures Drain(PrintFrames(frames) + z) == Cut(FrameBlocks(frames) + Drain(z).blocks, Drain(z).rest)
    ensures Messages(FrameBlocks(frames)) == Payloads(frames)
    ensures '\r' !in PrintFrames(frames)
  {
    if frames == [] {
      Unit(z);
      Unit(Drain(z).blocks);
    } else {
      var rest := frames[1..];
      var block := JoinLines(FrameFields(frames[0]));
      FramesParse(rest, z);
      FrameParses(frames[0]);
      DrainBlock(block, PrintFrames(rest) + z);
      Assoc(block + "\n\n", PrintFrames(rest), z);
      Assoc([block], FrameBlocks(rest), Drain(z).blocks);
      MessagesAppend([block], FrameBlocks(rest));
      PayloadsCons(frames);
    }
  }

  lemma PayloadsCons(frames: seq<Frame>)
    requires frames != []
    ensures Payloads(frames) == Payloads([frames[0]]) + Payloads(frames[1..])
  {
    var first := [frames[0]];
    assert first[1..] == [];
  }

  lemma NoCr(s: string)
    requires '\r' !in s
    ensures !HasCrCrLf(s) && Normalize(s) == s
  {
    forall i | 0 <= i < |s|
      ensures !CrCrLfAt(s, i)
    {
    }
    NormalizeIdentity(s);
  }

  lemma {:induction false} PrintFramesSnoc(frames: seq<Frame>, last: Frame)
    ensures PrintFrames(frames + [last]) == PrintFrames(frames) + PrintFrame(last)
    ensures Payloads(frames + [last]) == Payloads(frames) + Payloads([last])
  {
    var all := frames + [last];
    PayloadsCons(all);
    if frames == [] {
      assert all == [last] && all[1..] == [];
      Unit(PrintFrame(last));
      Unit(Payloads([last]));
    } else {
      AppendTail(frames, [last]);
      PayloadsCons(frames);
      PrintFramesSnoc(frames[1..], last);
      Assoc(PrintFrame(frames[0]), PrintFrames(frames[1..]), PrintFrame(last));
      Assoc(Payloads([frames[0]]), Payloads(frames[1..]), Payloads([last]));
    }
  }

  /** A last block without its blank line is still delivered by the final flush. */
  lemma FlushBlock(block: string, newline: bool)
    requires IndexOfBlankLine(block + "\n") == -1 && !IsBlank(block)
    ensures var tail := if newline then block + "\n" else block;
            Drain(tail) == Cut([], tail) && Flush(tail) == Messages([block])
  {
    var tail := if newline then block + "\n" else block;
    var after := if newline then "\n" else "";
    forall j | 0 <= j < |tail|
      ensures !BlankLineAt(tail, j)
    {
      IndexOfBlankLineIsFirst(block + "\n", j);
    }
    IndexOfBlankLineIs(tail, -1);
    assert tail + "\n\n" == block + "\n\n" + after;
    DrainBlock(block, after);
    assert Drain(after) == Cut([], after);
    Unit([block]);
    var c :| c in block && !IsJsSpace(c);
    assert c in tail;
  }

  /** The printed text with its last `lost` characters missing. */
  function Received(frames: seq<Frame>, lost: nat): string
  {
    var text := PrintFrames(frames);
    if lost <= |text| then text[..|text| - lost] else ""
  }

  /**
   Printing any frames, cutting the text into any chunks and reading them back gives exactly
   the payloads in order, also when the connection drops up to two of the last characters.
   */
  lemma RoundTrip(frames: seq<Frame>, lost: nat, chunks: seq<string>)
    requires forall f :: f in frames ==> Printable(f)
    requires lost <= 2
    requires Concat(chunks) == Received(frames, lost)
    ensures Stream(chunks) == Payloads(frames)
  {
    hide Concat, Normalize, IndexOfBlankLine, EventData, FrameFields, PrintFrame;
    var text := Concat(chunks);
    FramesParse(frames, "");
    NoCr(text);
    RunIsWholeText(chunks);
    assert Drain("") == Cut([], "");
    if lost == 0 || frames == [] {
      Unit(text);
      Unit(FrameBlocks(frames));
      assert text == PrintFrames(frames);
      Unit(Payloads(frames));
    } else {
      TruncatedText(frames, lost);
      var init, last := frames[..|frames| - 1], frames[|frames| - 1];
      var block := JoinLines(FrameFields(last));
      FrameParses(last);
      FlushBlock(block, lost == 1);
      FramesParse(init, if lost == 1 then block + "\n" else block);
      Unit(FrameBlocks(init));
      Snoc(frames);
      PrintFramesSnoc(init, last);
    }
  }

  lemma TruncatedText(frames: seq<Frame>, lost: nat)
    requires frames != [] && forall f :: f in frames ==> Printable(f)
    requires 1 <= lost <= 2
    ensures var block := JoinLines(FrameFields(frames[|frames| - 1]));
            Received(frames, lost) ==
            PrintFrames(frames[..|frames| - 1]) + if lost == 1 then block + "\n" else block
  {
    var init, last := frames[..|frames| - 1], frames[|frames| - 1];
    Snoc(frames);
    PrintFramesSnoc(init, last);
    FrameParses(last);
  }

  // ---------- The lines of the standard ----------

  /** Splitting at CR LF, LF and CR, each of which ends a line in section 9.2.6. */
  function StandardLines(s: string): (lines: seq<string>)
    ensures |lines| >= 1
  {
    if s == "" then [""]
    else if |s| >= 2 && s[0] == '\r' && s[1] == '\n' then [""] + StandardLines(s[2..])
    else
      var rest := StandardLines(s[1..]);
      if s[0] == '\n' || s[0] == '\r' then [""] + rest else [[s[0]] + rest[0]] + rest[1..]
  }

  predicate LoneCrAt(s: string, i: int)
  {
    0 <= i < |s| && s[i] == '\r' && (i + 1 < |s| ==> s[i + 1] != '\n')
  }

  /** Some CR is not followed by LF. */
  predicate HasLoneCr(s: string)
  {
    exists i :: 0 <= i < |s| && LoneCrAt(s, i)
  }

  lemma LoneCrTail(s: string, k: nat)
    requires k <= |s|
    ensures HasLoneCr(s[k..]) ==> HasLoneCr(s)
  {
    if HasLoneCr(s[k..]) {
      var i :| 0 <= i < |s[k..]| && LoneCrAt(s[k..], i);
      assert LoneCrAt(s, k + i);
    }
  }

  lemma {:induction false} SameLines(s: string)
    requires !HasLoneCr(s)
    ensures SplitLines(Normalize(s)) == StandardLines(s)
  {
    if s != "" {
      if |s| >= 2 && s[0] == '\r' && s[1] == '\n' {
        LoneCrTail(s, 2);
        SameLines(s[2..]);
        Cons('\n', Normalize(s[2..]));
        assert "\n" == ['\n'];
      } else {
        LoneCrTail(s, 1);
        SameLines(s[1..]);
        Cons(s[0], Normalize(s[1..]));
        assert s[0] == '\r' ==> LoneCrAt(s, 0);
      }
    }
  }

  lemma {:induction false} StandardLinesHaveNoCr(s: string)
    ensures forall k :: 0 <= k < |StandardLines(s)| ==> '\r' !in StandardLines(s)[k]
  {
    if s != "" {
      var lines := StandardLines(s);
      if |s| >= 2 && s[0] == '\r' && s[1] == '\n' {
        StandardLinesHaveNoCr(s[2..]);
        assert lines[1..] == StandardLines(s[2..]);
      } else {
        StandardLinesHaveNoCr(s[1..]);
        var rest := StandardLines(s[1..]);
        assert if s[0] == '\n' || s[0] == '\r' then lines[1..] == rest
               else lines[1..] == rest[1..] && lines[0] == [s[0]] + rest[0];
      }
    }
  }

  lemma {:induction false} LoneCrSurvives(s: string, i: nat)
    requires LoneCrAt(s, i)
    ensures '\r' in Normalize(s)
  {
    if |s| >= 2 && s[0] == '\r' && s[1] == '\n' {
      LoneCrSurvives(s[2..], i - 2);
    } else if i > 0 {
      LoneCrSurvives(s[1..], i - 1);
    }
  }

  lemma {:induction false} CrIsInSomeLine(s: string)
    requires '\r' in s
    ensures exists k :: 0 <= k < |SplitLines(s)| && '\r' in SplitLines(s)[k]
  {
    var rest, lines := SplitLines(s[1..]), SplitLines(s);
    assert s == [s[0]] + s[1..];
    if s[0] == '\r' {
      assert lines[0] == ['\r'] + rest[0];
    } else {
      CrIsInSomeLine(s[1..]);
      var k :| 0 <= k < |rest| && '\r' in rest[k];
      if s[0] == '\n' {
        assert lines[k + 1] == rest[k];
      } else {
        assert lines[k] == if k == 0 then [s[0]] + rest[0] else rest[k];
      }
    }
  }

  /** The reader's lines are the standard's exactly for the texts in which every CR is followed by LF. */
  lemma StandardLinesUnlessLoneCr(s: string)
    ensures SplitLines(Normalize(s)) == StandardLines(s) <==> !HasLoneCr(s)
  {
    if HasLoneCr(s) {
      var i :| 0 <= i < |s| && LoneCrAt(s, i);
      LoneCrSurvives(s, i);
      CrIsInSomeLine(Normalize(s));
      StandardLinesHaveNoCr(s);
    } else {
      SameLines(s);
    }
  }

  /** Two lines joined by a lone CR: one line to the reader, two to the standard. */
  lemma {:induction false} LoneCrJoinsLines(a: string, b: string)
    requires OneLine(a) && OneLine(b)
    ensures SplitLines(Normalize(a + "\r" + b)) == [a + "\r" + b]
    ensures StandardLines(a + "\r" + b) == [a, b]
  {
    var s := a + "\r" + b;
    if a == "" {
      assert s == ['\r'] + b;
      Cons('\r', b);
      PlainText(b);
      SplitFirstLine(b, "");
      Unit(b);
      Cons('\r', Normalize(b));
    } else {
      var rest := a[1..] + "\r" + b;
      LoneCrJoinsLines(a[1..], b);
      assert s == [a[0]] + rest && a[0] != '\n' && a[0] != '\r';
      Cons(a[0], rest);
      Cons(a[0], Normalize(rest));
      assert [a[0]] + a[1..] == a;
    }
  }

  lemma {:induction false} PlainText(b: string)
    requires OneLine(b)
    ensures Normalize(b) == b && StandardLines(b) == [b]
  {
    if b != "" {
      PlainText(b[1..]);
      assert [b[0]] + b[1..] == b;
    }
  }

  // ---------- What a block carries ----------

  predicate NoNewlines(lines: seq<string>)
  {
    forall k :: 0 <= k < |lines| ==> '\n' !in lines[k]
  }

  lemma {:induction false} SplitIsLossless(s: string)
    ensures NoNewlines(SplitLines(s)) && JoinLines(SplitLines(s)) == s
  {
    if s != "" {
      SplitIsLossless(s[1..]);
      var rest, lines := SplitLines(s[1..]), SplitLines(s);
      assert s == [s[0]] + s[1..];
      if s[0] == '\n' {
        assert lines[1..] == rest;
      } else {
        assert forall k :: 1 <= k < |lines| ==> lines[k] == rest[k];
        assert lines[0] == [s[0]] + rest[0];
        assert lines[1..] == rest[1..];
      }
    }
  }

  lemma {:induction false} JoinIsLossless(lines: seq<string>)
    requires lines != [] && NoNewlines(lines)
    ensures SplitLines(JoinLines(lines)) == lines
  {
    if |lines| == 1 {
      SplitFirstLine(lines[0], "");
      Unit(lines[0]);
    } else {
      var tail := "\n" + JoinLines(lines[1..]);
      JoinIsLossless(lines[1..]);
      SplitFirstLine(lines[0], tail);
      Assoc(lines[0], "\n", JoinLines(lines[1..]));
      Cons('\n', JoinLines(lines[1..]));
    }
  }

  /** A data line with this value: one space after the colon does not belong to it. */
  predicate Carries(line: string, value: string)
  {
    line == "data: " + value || (line == "data:" + value && !(" " <= value))
  }

  /** The values are those of the lines at these positions, which are all data lines from the first n on. */
  predicate ValuesFrom(lines: seq<string>, n: nat, values: seq<string>, at: seq<nat>)
  {
    && |at| == |values|
    && (forall k :: 0 <= k < |at| ==> n <= at[k] < |lines| && Carries(lines[at[k]], values[k]))
    && (forall k, m :: 0 <= k < m < |at| ==> at[k] < at[m])
    && forall k :: n <= k < |lines| && "data:" <= lines[k] ==> k in at
  }

  lemma FieldCarries(line: string)
    ensures FieldValue(line).Some? <==> "data:" <= line
    ensures FieldValue(line).Some? ==> Carries(line, FieldValue(line).value)
    ensures '\n' !in line && FieldValue(line).Some? ==> '\n' !in FieldValue(line).value
  {
    if "data:" <= line {
      var rest := line[5..];
      assert line == "data:" + rest;
      if " " <= rest {
        assert rest == " " + rest[1..];
        Assoc("data:", " ", rest[1..]);
      }
    }
  }

  lemma {:induction false} DataLinesAt(lines: seq<string>, n: nat) returns (at: seq<nat>)
    requires n <= |lines| && NoNewlines(lines)
    ensures ValuesFrom(lines, n, DataLines(lines[n..]), at) && NoNewlines(DataLines(lines[n..]))
    decreases |lines| - n
  {
    hide FieldValue, Carries;
    if n == |lines| {
      at := [];
    } else {
      assert lines[n..][0] == lines[n] && lines[n..][1..] == lines[n + 1..];
      at := DataLinesAt(lines, n + 1);
      FieldCarries(lines[n]);
      if FieldValue(lines[n]).Some? {
        MoreValues(lines, n, DataLines(lines[n + 1..]), at, FieldValue(lines[n]).value);
        at := [n] + at;
      }
    }
  }

  lemma MoreValues(lines: seq<string>, n: nat, values: seq<string>, at: seq<nat>, value: string)
    requires n < |lines| && ValuesFrom(lines, n + 1, values, at) && Carries(lines[n], value)
    ensures ValuesFrom(lines, n, [value] + values, [n] + at)
  {
    hide Carries;
    var all := [n] + at;
    assert all[0] == n;
    assert forall k :: k in at ==> k in all;
  }

  /**
   A block carries a message exactly when one of its lines starts with `data:`, and the lines of the
   message are the values of all those lines, in order.
   */
  lemma BlockCarries(block: string)
    ensures var lines := SplitLines(block);
            (EventData(block).None? <==> forall k :: 0 <= k < |lines| ==> !("data:" <= lines[k])) &&
            (EventData(block).Some? ==> exists at :: ValuesFrom(lines, 0, SplitLines(EventData(block).value), at))
  {
    var lines := SplitLines(block);
    SplitIsLossless(block);
    assert lines[0..] == lines;
    hide SplitLines, FieldValue, Carries, JoinLines;
    var at := DataLinesAt(lines, 0);
    if DataLines(lines) != [] {
      JoinIsLossless(DataLines(lines));
      assert Carries(lines[at[0]], DataLines(lines)[0]);
      CarriesData(lines[at[0]], DataLines(lines)[0]);
    }
  }

  lemma CarriesData(line: string, value: string)
    requires Carries(line, value)
    ensures "data:" <= line
  {
    if line == "data: " + value {
      assert line[..5] == "data:";
    }
  }
}
