/** List messages in parts: blocks of lines under a heading path, split where a part is
    full with the path repeated, and read back part by part. */
module DcsPaging {
  import opened Wrappers
  import opened Sequences
  import opened Text
  import Decimal

  /** A run of lines under a heading path: a destination, or a destination and a category. */
  datatype Block = Block(head: seq<string>, body: seq<string>)

  const LINES_PER_PART := 50

  /** The parts finished, the lines of the current one, the headings in effect in it and
      its number. */
  datatype Pages = Pages(kind: string, header: string, parts: seq<seq<string>>, cur: seq<string>, ctx: seq<string>, part: nat)

  function PartHeader(header: string, part: nat): string {
    header + " PART" + Decimal.Itoa(part)
  }

  function PartEnd(part: nat): string {
    "ENDPART" + Decimal.Itoa(part)
  }

  function Blank(kind: string, header: string, parts: seq<seq<string>>, part: nat): Pages {
    Pages(kind, header, parts, [kind, PartHeader(header, part)], [], part)
  }

  function Flushed(p: Pages, final: bool): Pages {
    var end := if final then "END" + p.kind else PartEnd(p.part);
    Blank(p.kind, p.header, p.parts + [p.cur + [end]], p.part + 1)
  }

  /** How many headings two paths share from the top. */
  function Common(ctx: seq<string>, head: seq<string>): (n: nat)
    ensures n <= |ctx| && n <= |head| && ctx[..n] == head[..n]
    ensures n < |ctx| && n < |head| ==> ctx[n] != head[n]
  {
    if ctx != [] && head != [] && ctx[0] == head[0] then
      var n := Common(ctx[1..], head[1..]);
      assert ctx[..n + 1] == [ctx[0]] + ctx[1..][..n] && head[..n + 1] == [head[0]] + head[1..][..n];
      n + 1
    else 0
  }

  /** The heading lines the part is not already under. */
  function Entered(p: Pages, b: Block): Pages {
    p.(cur := p.cur + b.head[Common(p.ctx, b.head)..], ctx := b.head)
  }

  function WithLine(p: Pages, b: Block, line: string): Pages {
    var q := if |p.cur| + 1 > LINES_PER_PART - 1 then Entered(Flushed(p, false), b) else p;
    q.(cur := q.cur + [line])
  }

  function WithLines(p: Pages, b: Block, body: seq<string>): Pages {
    if body == [] then p else WithLine(WithLines(p, b, body[..|body| - 1]), b, body[|body| - 1])
  }

  function Opened(p: Pages, b: Block): Pages {
    Entered(if |b.head| + |p.cur| + 1 > LINES_PER_PART then Flushed(p, false) else p, b)
  }

  function WithBlock(p: Pages, b: Block): Pages {
    WithLines(Opened(p, b), b, b.body)
  }

  function WithBlocks(p: Pages, blocks: seq<Block>): Pages {
    if blocks == [] then p else WithBlock(WithBlocks(p, blocks[..|blocks| - 1]), blocks[|blocks| - 1])
  }

  function Paginated(kind: string, header: string, blocks: seq<Block>): seq<seq<string>> {
    Flushed(WithBlocks(Blank(kind, header, [], 1), blocks), true).parts
  }

  // ---------------------------------------------------------------- the paginator

  class Paginator {
    const kind: string
    const header: string
    var parts: seq<seq<string>>
    var cur: seq<string>
    var ctx: seq<string>
    var part: nat

    function View(): Pages
      reads this
    {
      Pages(kind, header, parts, cur, ctx, part)
    }

    constructor (kind: string, header: string)
      ensures View() == Blank(kind, header, [], 1)
    {
      this.kind, this.header := kind, header;
      parts, part := [], 1;
      cur, ctx := [kind, PartHeader(header, 1)], [];
    }

    method Flush(final: bool)
      modifies this
      ensures View() == Flushed(old(View()), final)
    {
      if final {
        cur := cur + ["END" + kind];
      } else {
        cur := cur + [PartEnd(part)];
      }
      parts := parts + [cur];
      part := part + 1;
      cur, ctx := [kind, PartHeader(header, part)], [];
    }

    method Enter(b: Block)
      modifies this
      ensures View() == Entered(old(View()), b)
    {
      var common: nat := 0;
      while common < |ctx| && common < |b.head| && ctx[common] == b.head[common]
        invariant common <= |ctx| && common <= |b.head|
        invariant Common(ctx, b.head) == common + Common(ctx[common..], b.head[common..])
      {
        assert ctx[common..][1..] == ctx[common + 1..] && b.head[common..][1..] == b.head[common + 1..];
        common := common + 1;
      }
      cur := cur + b.head[common..];
      ctx := b.head;
    }

    method AddBlock(b: Block)
      modifies this
      ensures View() == WithBlock(old(View()), b)
    {
      hide Entered, Flushed;
      if |b.head| + |cur| + 1 > LINES_PER_PART {
        Flush(false);
      }
      Enter(b);
      ghost var entered := View();
      for i := 0 to |b.body|
        invariant View() == WithLines(entered, b, b.body[..i])
      {
        ghost var sofar := b.body[..i + 1];
        assert sofar[..i] == b.body[..i] && sofar[i] == b.body[i];
        if |cur| + 1 > LINES_PER_PART - 1 {
          Flush(false);
          Enter(b);
        }
        cur := cur + [b.body[i]];
      }
      assert b.body[..|b.body|] == b.body;
    }
  }

  method Paginate(kind: string, header: string, blocks: seq<Block>) returns (parts: seq<seq<string>>)
    ensures parts == Paginated(kind, header, blocks)
  {
    hide WithBlock;
    var p := new Paginator(kind, header);
    for i := 0 to |blocks|
      invariant fresh(p) && p.View() == WithBlocks(Blank(kind, header, [], 1), blocks[..i])
    {
      ghost var sofar := blocks[..i + 1];
      assert sofar[..i] == blocks[..i] && sofar[i] == blocks[i];
      p.AddBlock(blocks[i]);
    }
    assert blocks[..|blocks|] == blocks;
    p.Flush(true);
    parts := p.parts;
  }

  // ---------------------------------------------------------------- how parts are marked

  /** Part i carries its kind and number on top and its number at the end. */
  predicate MarkedPart(p: Pages, i: nat, part: seq<string>, end: string) {
    |part| >= 3 && part[0] == p.kind && part[1] == PartHeader(p.header, i + 1) && part[|part| - 1] == end
  }

  predicate Marked(p: Pages) {
    && p.part == |p.parts| + 1
    && |p.cur| >= 2 && p.cur[0] == p.kind && p.cur[1] == PartHeader(p.header, p.part)
    && forall i | 0 <= i < |p.parts| :: MarkedPart(p, i, p.parts[i], PartEnd(i + 1))
  }

  /** The numbering, kind and header never change while lines are added. */
  predicate Continues(p: Pages, q: Pages) {
    q.kind == p.kind && q.header == p.header
  }

  lemma FlushMarks(p: Pages)
    requires Marked(p)
    ensures Marked(Flushed(p, false)) && Continues(p, Flushed(p, false))
  {
    hide PartHeader, PartEnd;
  }

  lemma EnterMarks(p: Pages, b: Block)
    requires Marked(p)
    ensures Marked(Entered(p, b)) && Continues(p, Entered(p, b))
  {
    hide PartHeader, PartEnd, Common;
  }

  lemma {:induction false} LinesMark(p: Pages, b: Block, body: seq<string>)
    requires Marked(p)
    ensures Marked(WithLines(p, b, body)) && Continues(p, WithLines(p, b, body))
    decreases |body|
  {
    hide PartHeader, PartEnd, Entered, Flushed;
    if body != [] {
      LinesMark(p, b, body[..|body| - 1]);
      var q := WithLines(p, b, body[..|body| - 1]);
      FlushMarks(q);
      EnterMarks(Flushed(q, false), b);
    }
  }

  lemma {:induction false} BlocksMark(p: Pages, blocks: seq<Block>)
    requires Marked(p)
    ensures Marked(WithBlocks(p, blocks)) && Continues(p, WithBlocks(p, blocks))
    decreases |blocks|
  {
    hide Marked, Entered, Flushed;
    if blocks != [] {
      var init, b := blocks[..|blocks| - 1], blocks[|blocks| - 1];
      BlocksMark(p, init);
      var q := WithBlocks(p, init);
      FlushMarks(q);
      EnterMarks(q, b);
      EnterMarks(Flushed(q, false), b);
      LinesMark(Opened(q, b), b, b.body);
    }
  }

  /** Parts are numbered consecutively from 1 and each says which it is; only the last
      ends with the kind's own END line. */
  lemma PartsAreNumbered(kind: string, header: string, blocks: seq<Block>)
    ensures var parts := Paginated(kind, header, blocks);
            && parts != []
            && forall i | 0 <= i < |parts| ::
                 && |parts[i]| >= 3 && parts[i][0] == kind && parts[i][1] == header + " PART" + Decimal.Itoa(i + 1)
                 && parts[i][|parts[i]| - 1] == if i == |parts| - 1 then "END" + kind else "ENDPART" + Decimal.Itoa(i + 1)
  {
    hide WithBlocks;
    BlocksMark(Blank(kind, header, [], 1), blocks);
    var p := WithBlocks(Blank(kind, header, [], 1), blocks);
    var parts := Paginated(kind, header, blocks);
    forall i | 0 <= i < |parts|
      ensures |parts[i]| >= 3 && parts[i][0] == kind && parts[i][1] == header + " PART" + Decimal.Itoa(i + 1)
      ensures parts[i][|parts[i]| - 1] == if i == |parts| - 1 then "END" + kind else "ENDPART" + Decimal.Itoa(i + 1)
    {
      if i < |p.parts| {
        assert parts[i] == p.parts[i];
      } else {
        assert parts[i] == p.cur + ["END" + kind];
      }
    }
  }

  // ---------------------------------------------------------------- how long parts are

  predicate AllFit(parts: seq<seq<string>>) {
    forall i | 0 <= i < |parts| :: |parts[i]| <= LINES_PER_PART
  }

  /** Everything finished fits, and what is current will once it is ended. */
  predicate Fits(p: Pages) {
    AllFit(p.parts) && 2 <= |p.cur| < LINES_PER_PART
  }

  /** A heading path short enough to leave room for a line under it. */
  predicate ShortEnough(b: Block) {
    |b.head| <= LINES_PER_PART - 4 || (|b.head| == LINES_PER_PART - 3 && b.body == [])
  }

  lemma {:induction false} LinesFit(p: Pages, b: Block, body: seq<string>)
    requires Fits(p) && (body != [] ==> |b.head| <= LINES_PER_PART - 4)
    ensures Fits(WithLines(p, b, body))
    decreases |body|
  {
    hide PartHeader, PartEnd;
    if body != [] {
      LinesFit(p, b, body[..|body| - 1]);
    }
  }

  lemma {:induction false} BlocksFit(p: Pages, blocks: seq<Block>)
    requires Fits(p) && forall i | 0 <= i < |blocks| :: ShortEnough(blocks[i])
    ensures Fits(WithBlocks(p, blocks))
    decreases |blocks|
  {
    hide PartHeader, PartEnd, WithLines;
    if blocks != [] {
      var b := blocks[|blocks| - 1];
      BlocksFit(p, blocks[..|blocks| - 1]);
      LinesFit(Opened(WithBlocks(p, blocks[..|blocks| - 1]), b), b, b.body);
    }
  }

  /** Too long already, or bound to be once it is ended. */
  predicate Overflows(p: Pages) {
    2 <= |p.cur| && (!AllFit(p.parts) || |p.cur| >= LINES_PER_PART)
  }

  lemma StaysOver(p: Pages, b: Block, line: string)
    requires Overflows(p)
    ensures Overflows(Flushed(p, false)) && Overflows(Entered(p, b)) && Overflows(WithLine(p, b, line))
  {
    hide PartHeader, PartEnd;
    var next := p.parts + [p.cur + [PartEnd(p.part)]];
    assert next[|p.parts|] == p.cur + [PartEnd(p.part)];
    assert forall i | 0 <= i < |p.parts| :: next[i] == p.parts[i];
  }

  lemma {:induction false} LinesStayOver(p: Pages, b: Block, body: seq<string>)
    requires Overflows(p)
    ensures Overflows(WithLines(p, b, body))
    decreases |body|
  {
    hide Overflows, WithLine;
    if body != [] {
      LinesStayOver(p, b, body[..|body| - 1]);
      StaysOver(WithLines(p, b, body[..|body| - 1]), b, body[|body| - 1]);
    }
  }

  /** The first line under too long a path does not fit. */
  lemma FirstLineOverflows(p: Pages, b: Block, line: string)
    requires 2 <= |p.cur| && |p.cur| >= LINES_PER_PART - 1 && |b.head| >= LINES_PER_PART - 3
    ensures Overflows(WithLine(p, b, line))
  {
    hide PartHeader, PartEnd;
  }

  lemma {:induction false} LongBlockOverflows(p: Pages, b: Block, body: seq<string>)
    requires |p.cur| >= LINES_PER_PART - 1 && |b.head| >= LINES_PER_PART - 3 && body != []
    ensures Overflows(WithLines(p, b, body))
    decreases |body|
  {
    hide Overflows, WithLine;
    var init := body[..|body| - 1];
    if init == [] {
      FirstLineOverflows(p, b, body[0]);
    } else {
      LongBlockOverflows(p, b, init);
      StaysOver(WithLines(p, b, init), b, body[|body| - 1]);
    }
  }

  lemma LongHeadOverflows(p: Pages, b: Block)
    requires 2 <= |p.cur| && (|p.cur| == 2 ==> p.ctx == []) && !ShortEnough(b)
    ensures Overflows(WithBlock(p, b))
  {
    hide PartHeader, PartEnd, WithLines;
    var q := Opened(p, b);
    assert |q.cur| >= LINES_PER_PART - 1;
    if b.body == [] {
      assert WithLines(q, b, b.body) == q by {
        NoLines(q, b);
      }
    } else {
      LongBlockOverflows(q, b, b.body);
    }
  }

  lemma NoLines(p: Pages, b: Block)
    ensures WithLines(p, b, []) == p
  {
  }

  /** A part with nothing but its two lines is under no heading. */
  predicate Tidy(p: Pages) {
    2 <= |p.cur| && (|p.cur| == 2 ==> p.ctx == [])
  }

  lemma EnterTidies(p: Pages, b: Block)
    requires Tidy(p)
    ensures Tidy(Entered(p, b)) && Tidy(Flushed(p, false))
  {
    hide PartHeader, PartEnd;
  }

  lemma {:induction false} LinesTidy(p: Pages, b: Block, body: seq<string>)
    requires Tidy(p)
    ensures Tidy(WithLines(p, b, body))
    decreases |body|
  {
    hide Entered, Flushed;
    if body != [] {
      LinesTidy(p, b, body[..|body| - 1]);
      var q := WithLines(p, b, body[..|body| - 1]);
      EnterTidies(q, b);
      EnterTidies(Flushed(q, false), b);
    }
  }

  lemma {:induction false} BlocksOverflow(p: Pages, blocks: seq<Block>)
    requires Tidy(p)
    ensures Tidy(WithBlocks(p, blocks))
    ensures (Overflows(p) || exists i | 0 <= i < |blocks| :: !ShortEnough(blocks[i])) ==> Overflows(WithBlocks(p, blocks))
    decreases |blocks|
  {
    hide Overflows, Entered, Flushed, WithLines, ShortEnough, Tidy;
    if blocks != [] {
      var init, b := blocks[..|blocks| - 1], blocks[|blocks| - 1];
      BlocksOverflow(p, init);
      var q := WithBlocks(p, init);
      EnterTidies(q, b);
      EnterTidies(Flushed(q, false), b);
      LinesTidy(Opened(q, b), b, b.body);
      if Overflows(q) {
        StaysOver(q, b, "");
        StaysOver(Flushed(q, false), b, "");
        LinesStayOver(Opened(q, b), b, b.body);
      } else if !ShortEnough(b) {
        assert Tidy(q);
        TidyMeans(q);
        LongHeadOverflows(q, b);
      }
    }
  }

  lemma TidyMeans(p: Pages)
    requires Tidy(p)
    ensures 2 <= |p.cur| && (|p.cur| == 2 ==> p.ctx == [])
  {
  }

  /** Every part is within fifty lines exactly when every heading path leaves room for a
      line under it: at most 46 headings, or 47 over no lines. */
  lemma PartsFitExactly(kind: string, header: string, blocks: seq<Block>)
    ensures AllFit(Paginated(kind, header, blocks)) <==> forall i | 0 <= i < |blocks| :: ShortEnough(blocks[i])
  {
    hide PartHeader, PartEnd, WithBlocks, ShortEnough;
    var start := Blank(kind, header, [], 1);
    var p := WithBlocks(start, blocks);
    BlocksOverflow(start, blocks);
    var parts := Paginated(kind, header, blocks);
    assert parts[|p.parts|] == p.cur + ["END" + p.kind];
    assert forall i | 0 <= i < |p.parts| :: parts[i] == p.parts[i];
    if forall i | 0 <= i < |blocks| :: ShortEnough(blocks[i]) {
      BlocksFit(start, blocks);
    }
  }

  // ---------------------------------------------------------------- reading parts back

  /** Which level of heading a line is; None is a line of the list itself. */
  type Levels = string -> Option<nat>

  /** One line with the heading path it stands under. */
  datatype Entry = Entry(path: seq<string>, line: string)

  datatype Reading = Reading(path: seq<string>, entries: seq<Entry>)

  /** A heading replaces the one of its level and those below it. */
  function ReadLine(level: Levels, r: Reading, line: string): Reading {
    match level(line)
    case Some(k) => r.(path := (if k <= |r.path| then r.path[..k] else r.path) + [line])
    case None => r.(entries := r.entries + [Entry(r.path, line)])
  }

  /** Each part is read on its own, under no heading at first. */
  function ReadLines(level: Levels, lines: seq<string>): Reading {
    if lines == [] then Reading([], []) else ReadLine(level, ReadLines(level, lines[..|lines| - 1]), lines[|lines| - 1])
  }

  /** The lines between a part's header and its end. */
  function Inside(part: seq<string>): seq<string>
    requires |part| >= 3
  {
    part[2..|part| - 1]
  }

  function ReadParts(level: Levels, parts: seq<seq<string>>): seq<Entry>
    requires forall i | 0 <= i < |parts| :: |parts[i]| >= 3
  {
    if parts == [] then []
    else ReadParts(level, parts[..|parts| - 1]) + ReadLines(level, Inside(parts[|parts| - 1])).entries
  }

  function LinesUnder(path: seq<string>, body: seq<string>): seq<Entry> {
    if body == [] then [] else LinesUnder(path, body[..|body| - 1]) + [Entry(path, body[|body| - 1])]
  }

  /** What the blocks say: every body line, in order, under its own path. */
  function Entries(blocks: seq<Block>): seq<Entry> {
    if blocks == [] then []
    else Entries(blocks[..|blocks| - 1]) + LinesUnder(blocks[|blocks| - 1].head, blocks[|blocks| - 1].body)
  }

  /** Headings that can be told from lines and from each other's level. */
  predicate Readable(level: Levels, b: Block) {
    && (forall k | 0 <= k < |b.head| :: level(b.head[k]) == Some(k))
    && (forall k | 0 <= k < |b.body| :: level(b.body[k]) == None)
  }

  /** What reading everything so far gives, and the path the reader is under. */
  ghost predicate ReadsAs(level: Levels, p: Pages, path: seq<string>, said: seq<Entry>) {
    && Marked(p)
    && ReadLines(level, p.cur[2..]).path == path
    && ReadParts(level, p.parts) + ReadLines(level, p.cur[2..]).entries == said
  }

  lemma ReadSnoc(level: Levels, lines: seq<string>, line: string)
    ensures ReadLines(level, lines + [line]) == ReadLine(level, ReadLines(level, lines), line)
  {
    assert (lines + [line])[..|lines|] == lines;
  }

  lemma FlushReads(level: Levels, p: Pages, path: seq<string>, said: seq<Entry>)
    requires ReadsAs(level, p, path, said)
    ensures ReadsAs(level, Flushed(p, false), [], said)
  {
    hide PartHeader;
    FlushMarks(p);
    var q := Flushed(p, false);
    var part := p.cur + [PartEnd(p.part)];
    assert q.parts[..|p.parts|] == p.parts && q.parts[|p.parts|] == part;
    assert Inside(part) == p.cur[2..];
    assert q.cur[2..] == [];
    assert said + [] == said;
  }

  /** One heading more. */
  lemma HeadingReads(level: Levels, r: Reading, head: seq<string>, k: nat)
    requires k < |head| && level(head[k]) == Some(k) && |r.path| >= k && r.path[..k] == head[..k]
    ensures ReadLine(level, r, head[k]) == Reading(head[..k + 1], r.entries)
  {
    assert head[..k + 1] == head[..k] + [head[k]];
  }

  lemma HeadingMore(lines: seq<string>, head: seq<string>, from: nat, k: nat)
    requires from <= k < |head|
    ensures lines + head[from..k + 1] == lines + head[from..k] + [head[k]]
  {
    assert head[from..k + 1] == head[from..k] + [head[k]];
  }

  /** Headings from a level on bring the reader's path to theirs. */
  lemma {:induction false} HeadingsRead(level: Levels, lines: seq<string>, head: seq<string>, from: nat, upTo: nat)
    requires from <= upTo <= |head| && forall k | 0 <= k < |head| :: level(head[k]) == Some(k)
    requires var r := ReadLines(level, lines); |r.path| >= from && r.path[..from] == head[..from]
    ensures var r, s := ReadLines(level, lines), ReadLines(level, lines + head[from..upTo]);
            s.entries == r.entries && s.path == if from == upTo then r.path else head[..upTo]
    decreases upTo
  {
    hide ReadLines, ReadLine;
    if from == upTo {
      assert lines + head[from..upTo] == lines;
    } else {
      HeadingsRead(level, lines, head, from, upTo - 1);
      HeadingMore(lines, head, from, upTo - 1);
      ReadSnoc(level, lines + head[from..upTo - 1], head[upTo - 1]);
      HeadingReads(level, ReadLines(level, lines + head[from..upTo - 1]), head, upTo - 1);
    }
  }

  /** A path cut short. */
  predicate StrictPrefix(head: seq<string>, path: seq<string>) {
    |head| < |path| && path[..|head|] == head
  }

  lemma {:induction false} CommonWhole(ctx: seq<string>, head: seq<string>)
    requires |head| <= |ctx| && ctx[..|head|] == head
    ensures Common(ctx, head) == |head|
    decreases |head|
  {
    if head != [] {
      assert ctx[..|head|][0] == ctx[0] && ctx[1..][..|head| - 1] == ctx[..|head|][1..];
      CommonWhole(ctx[1..], head[1..]);
    }
  }

  /** Entering a block under a path that begins with its own writes nothing, and leaves a
      reader under the longer one. */
  lemma EnterIsSilent(level: Levels, p: Pages, path: seq<string>, b: Block, said: seq<Entry>)
    requires ReadsAs(level, p, path, said) && |b.head| <= |p.ctx| && p.ctx[..|b.head|] == b.head
    ensures Entered(p, b) == p.(ctx := b.head) && ReadsAs(level, Entered(p, b), path, said)
  {
    hide PartHeader, PartEnd, ReadLines, ReadParts, Common;
    EnterMarks(p, b);
    CommonWhole(p.ctx, b.head);
    assert b.head[|b.head|..] == [] && p.cur + [] == p.cur;
  }

  /** Under any other path its headings bring the reader to its own. */
  lemma EnterIsHeard(level: Levels, p: Pages, path: seq<string>, b: Block, said: seq<Entry>)
    requires ReadsAs(level, p, path, said) && p.ctx <= path && Readable(level, b)
    requires |b.head| > |p.ctx| || p.ctx[..|b.head|] != b.head
    ensures ReadsAs(level, Entered(p, b), b.head, said) && Entered(p, b).ctx == b.head
  {
    hide PartHeader, PartEnd, ReadLines, ReadParts;
    EnterMarks(p, b);
    var n := Common(p.ctx, b.head);
    assert path[..n] == p.ctx[..n];
    HeadingsRead(level, p.cur[2..], b.head, n, |b.head|);
    assert b.head[n..|b.head|] == b.head[n..] && b.head[..|b.head|] == b.head;
    assert Entered(p, b).cur[2..] == p.cur[2..] + b.head[n..];
  }

  lemma EnterReads(level: Levels, p: Pages, b: Block, said: seq<Entry>)
    requires ReadsAs(level, p, p.ctx, said) && Readable(level, b) && !StrictPrefix(b.head, p.ctx)
    ensures ReadsAs(level, Entered(p, b), b.head, said) && Entered(p, b).ctx == b.head
  {
    hide ReadsAs, Entered, Readable;
    if |b.head| <= |p.ctx| && p.ctx[..|b.head|] == b.head {
      EnterIsSilent(level, p, p.ctx, b, said);
      assert p.ctx[..|p.ctx|] == p.ctx;
    } else {
      EnterIsHeard(level, p, p.ctx, b, said);
    }
  }

  lemma LineReads(level: Levels, p: Pages, path: seq<string>, line: string, said: seq<Entry>)
    requires ReadsAs(level, p, path, said) && level(line) == None
    ensures ReadsAs(level, p.(cur := p.cur + [line]), path, said + [Entry(path, line)])
  {
    hide PartHeader, PartEnd, ReadLines, ReadParts;
    ReadSnoc(level, p.cur[2..], line);
    assert (p.cur + [line])[2..] == p.cur[2..] + [line];
    AddAssoc(ReadParts(level, p.parts), ReadLines(level, p.cur[2..]).entries, [Entry(path, line)]);
  }

  lemma {:induction false} LinesRead(level: Levels, p: Pages, b: Block, body: seq<string>, said: seq<Entry>)
    requires ReadsAs(level, p, b.head, said) && p.ctx == b.head && Readable(level, b)
    requires forall k | 0 <= k < |body| :: level(body[k]) == None
    ensures var q := WithLines(p, b, body);
            ReadsAs(level, q, b.head, said + LinesUnder(b.head, body)) && q.ctx == b.head
    decreases |body|
  {
    hide ReadsAs, Readable, Entered, Flushed;
    if body == [] {
      assert said + [] == said;
    } else {
      var init, line := body[..|body| - 1], body[|body| - 1];
      LinesRead(level, p, b, init, said);
      var q, before := WithLines(p, b, init), said + LinesUnder(b.head, init);
      AddAssoc(said, LinesUnder(b.head, init), [Entry(b.head, line)]);
      if |q.cur| + 1 > LINES_PER_PART - 1 {
        FlushReads(level, q, b.head, before);
        FlushClears(q);
        EnterReads(level, Flushed(q, false), b, before);
        LineReads(level, Entered(Flushed(q, false), b), b.head, line, before);
      } else {
        LineReads(level, q, b.head, line, before);
      }
    }
  }

  lemma FlushClears(p: Pages)
    ensures Flushed(p, false).ctx == [] && |Flushed(p, false).parts| == |p.parts| + 1
  {
  }

  /** No path is the one before it cut short. */
  predicate NoneCutShort(blocks: seq<Block>) {
    forall i | 0 < i < |blocks| :: !StrictPrefix(blocks[i].head, blocks[i - 1].head)
  }

  lemma {:induction false} BlocksRead(level: Levels, p: Pages, blocks: seq<Block>, said: seq<Entry>)
    requires ReadsAs(level, p, [], said) && p.ctx == []
    requires NoneCutShort(blocks) && forall i | 0 <= i < |blocks| :: Readable(level, blocks[i])
    ensures var q := WithBlocks(p, blocks);
            && q.ctx == (if blocks == [] then [] else blocks[|blocks| - 1].head)
            && ReadsAs(level, q, q.ctx, said + Entries(blocks))
    decreases |blocks|
  {
    hide ReadsAs, Entered, Flushed, WithLines, Readable;
    if blocks == [] {
      assert said + [] == said;
    } else {
      var init, b := blocks[..|blocks| - 1], blocks[|blocks| - 1];
      BlocksRead(level, p, init, said);
      var q, before := WithBlocks(p, init), said + Entries(init);
      FlushReads(level, q, q.ctx, before);
      FlushClears(q);
      if |b.head| + |q.cur| + 1 > LINES_PER_PART {
        EnterReads(level, Flushed(q, false), b, before);
      } else {
        EnterReads(level, q, b, before);
      }
      BodyIsLines(level, b);
      LinesRead(level, Opened(q, b), b, b.body, before);
      AddAssoc(said, Entries(init), LinesUnder(b.head, b.body));
    }
  }

  lemma BodyIsLines(level: Levels, b: Block)
    requires Readable(level, b)
    ensures forall k | 0 <= k < |b.body| :: level(b.body[k]) == None
  {
  }

  /** What the reader makes of all the parts. */
  lemma AllRead(level: Levels, kind: string, header: string, blocks: seq<Block>, said: seq<Entry>)
    requires var p := WithBlocks(Blank(kind, header, [], 1), blocks);
             exists path :: ReadsAs(level, p, path, said)
    ensures var parts := Paginated(kind, header, blocks);
            && (forall i | 0 <= i < |parts| :: |parts[i]| >= 3)
            && ReadParts(level, parts) == said
  {
    hide PartHeader, PartEnd, WithBlocks;
    PartsAreNumbered(kind, header, blocks);
    var p := WithBlocks(Blank(kind, header, [], 1), blocks);
    var parts := Paginated(kind, header, blocks);
    var last := p.cur + ["END" + p.kind];
    assert parts[..|parts| - 1] == p.parts && parts[|parts| - 1] == last;
    assert Inside(last) == p.cur[2..];
  }

  lemma NothingSaid(level: Levels, kind: string, header: string)
    ensures ReadsAs(level, Blank(kind, header, [], 1), [], [])
  {
    hide PartHeader;
  }

  /** Reading the parts in order, tracking headings, gives back every body line once, in
      order, under its own full heading path, however long the paths are, so long as none
      is the one before it cut short. */
  lemma ReadingGivesTheListBack(level: Levels, kind: string, header: string, blocks: seq<Block>)
    requires NoneCutShort(blocks) && forall i | 0 <= i < |blocks| :: Readable(level, blocks[i])
    ensures var parts := Paginated(kind, header, blocks);
            && (forall i | 0 <= i < |parts| :: |parts[i]| >= 3)
            && ReadParts(level, parts) == Entries(blocks)
  {
    hide ReadsAs, WithBlocks, Readable, Paginated, ReadParts;
    var start := Blank(kind, header, [], 1);
    NothingSaid(level, kind, header);
    BlocksRead(level, start, blocks, []);
    assert [] + Entries(blocks) == Entries(blocks);
    AllRead(level, kind, header, blocks, Entries(blocks));
  }

  // ---------------------------------------------------------------- paths cut short

  /** The path a reader is under at the end, when no part breaks: a path that the one
      before it begins with is not heard. */
  function HeardPath(blocks: seq<Block>): seq<string> {
    if blocks == [] then []
    else
      var init, b := blocks[..|blocks| - 1], blocks[|blocks| - 1];
      if init != [] && b.head <= init[|init| - 1].head then HeardPath(init) else b.head
  }

  /** What a reader takes the list to say, when no part breaks. */
  function Heard(blocks: seq<Block>): seq<Entry> {
    if blocks == [] then []
    else Heard(blocks[..|blocks| - 1]) + LinesUnder(HeardPath(blocks), blocks[|blocks| - 1].body)
  }

  lemma {:induction false} HeardIsLonger(blocks: seq<Block>)
    requires blocks != []
    ensures blocks[|blocks| - 1].head <= HeardPath(blocks)
    decreases |blocks|
  {
    if |blocks| > 1 {
      HeardIsLonger(blocks[..|blocks| - 1]);
    }
  }

  lemma {:induction false} LinesKeepParts(p: Pages, b: Block, body: seq<string>)
    ensures |p.parts| <= |WithLines(p, b, body).parts|
    decreases |body|
  {
    hide PartHeader, PartEnd, Common;
    if body != [] {
      LinesKeepParts(p, b, body[..|body| - 1]);
    }
  }

  /** In a part that does not break, every line is read under the path the reader is under. */
  lemma {:induction false} LinesHeard(level: Levels, p: Pages, b: Block, body: seq<string>, path: seq<string>, said: seq<Entry>)
    requires ReadsAs(level, p, path, said) && |WithLines(p, b, body).parts| == |p.parts|
    requires forall k | 0 <= k < |body| :: level(body[k]) == None
    ensures var q := WithLines(p, b, body);
            ReadsAs(level, q, path, said + LinesUnder(path, body)) && q.ctx == p.ctx
    decreases |body|
  {
    hide ReadsAs, Flushed;
    if body == [] {
      assert said + [] == said;
    } else {
      var init, line := body[..|body| - 1], body[|body| - 1];
      LinesKeepParts(p, b, init);
      FlushClears(WithLines(p, b, init));
      LinesHeard(level, p, b, init, path, said);
      AddAssoc(said, LinesUnder(path, init), [Entry(path, line)]);
      LineReads(level, WithLines(p, b, init), path, line, said + LinesUnder(path, init));
    }
  }

  lemma {:induction false} BlocksKeepParts(p: Pages, blocks: seq<Block>)
    ensures |p.parts| <= |WithBlocks(p, blocks).parts|
    decreases |blocks|
  {
    hide PartHeader, PartEnd, Common, WithLines;
    if blocks != [] {
      var init, b := blocks[..|blocks| - 1], blocks[|blocks| - 1];
      BlocksKeepParts(p, init);
      LinesKeepParts(Opened(WithBlocks(p, init), b), b, b.body);
    }
  }

  /** A list in one part is read as it is heard. */
  lemma {:induction false} BlocksHeard(level: Levels, p: Pages, blocks: seq<Block>)
    requires ReadsAs(level, p, [], []) && p.ctx == [] && |WithBlocks(p, blocks).parts| == |p.parts|
    requires forall i | 0 <= i < |blocks| :: Readable(level, blocks[i])
    ensures var q := WithBlocks(p, blocks);
            && q.ctx == (if blocks == [] then [] else blocks[|blocks| - 1].head)
            && ReadsAs(level, q, HeardPath(blocks), Heard(blocks))
    decreases |blocks|
  {
    hide ReadsAs, Entered, Flushed, WithLines, Readable;
    if blocks != [] {
      var init, b := blocks[..|blocks| - 1], blocks[|blocks| - 1];
      var q := WithBlocks(p, init);
      BlocksKeepParts(p, init);
      LinesKeepParts(Opened(q, b), b, b.body);
      OpeningKeepsParts(q, b);
      BlocksHeard(level, p, init);
      if init != [] {
        HeardIsLonger(init);
      }
      if init != [] && b.head <= init[|init| - 1].head {
        EnterIsSilent(level, q, HeardPath(init), b, Heard(init));
      } else if b.head == [] {
        EnterIsSilent(level, q, HeardPath(init), b, Heard(init));
      } else {
        EnterIsHeard(level, q, HeardPath(init), b, Heard(init));
      }
      BodyIsLines(level, b);
      LinesHeard(level, Opened(q, b), b, b.body, HeardPath(blocks), Heard(init));
    }
  }

  lemma OpeningKeepsParts(p: Pages, b: Block)
    ensures |Opened(p, b).parts| == if Opened(p, b) == Entered(p, b) then |p.parts| else |p.parts| + 1
  {
    hide PartHeader, PartEnd, Common;
  }

  lemma {:induction false} LinesUnderAt(path: seq<string>, other: seq<string>, body: seq<string>)
    ensures |LinesUnder(path, body)| == |body|
    ensures body != [] ==> (LinesUnder(path, body) == LinesUnder(other, body) <==> path == other)
    decreases |body|
  {
    if body != [] {
      LinesUnderAt(path, other, body[..|body| - 1]);
    }
  }

  lemma SplitAlike<T>(a: seq<T>, b: seq<T>, c: seq<T>, d: seq<T>)
    requires |a| == |c|
    ensures a + b == c + d <==> a == c && b == d
  {
    if a + b == c + d {
      assert a == (a + b)[..|a|] && c == (c + d)[..|a|] && b == (a + b)[|a|..] && d == (c + d)[|a|..];
    }
  }

  /** The list is heard as it is meant if and only if every block with lines is heard
      under its own path. */
  lemma {:induction false} HeardRightExactly(blocks: seq<Block>)
    ensures |Heard(blocks)| == |Entries(blocks)|
    ensures Heard(blocks) == Entries(blocks)
       <==> forall i | 0 <= i < |blocks| && blocks[i].body != [] :: HeardPath(blocks[..i + 1]) == blocks[i].head
    decreases |blocks|
  {
    hide HeardPath;
    if blocks != [] {
      var init, b := blocks[..|blocks| - 1], blocks[|blocks| - 1];
      HeardRightExactly(init);
      LinesUnderAt(HeardPath(blocks), b.head, b.body);
      LinesUnderAt(b.head, b.head, b.body);
      SplitAlike(Heard(init), LinesUnder(HeardPath(blocks), b.body), Entries(init), LinesUnder(b.head, b.body));
      assert blocks[..|blocks|] == blocks;
      assert forall i | 0 <= i < |init| :: init[..i + 1] == blocks[..i + 1] && init[i] == blocks[i];
    }
  }

  /** Where every block has lines, that is: where no path is the one before it cut short. */
  lemma {:induction false} HeardWhereWhole(blocks: seq<Block>)
    requires forall i | 0 <= i < |blocks| :: blocks[i].body != []
    ensures (forall i | 0 <= i < |blocks| :: HeardPath(blocks[..i + 1]) == blocks[i].head) <==> NoneCutShort(blocks)
    decreases |blocks|
  {
    hide HeardPath;
    if blocks != [] {
      var init, b := blocks[..|blocks| - 1], blocks[|blocks| - 1];
      HeardWhereWhole(init);
      assert blocks[..|blocks|] == blocks;
      assert forall i | 0 <= i < |init| :: init[..i + 1] == blocks[..i + 1] && init[i] == blocks[i];
      if init != [] {
        assert init[..|init|] == init == blocks[..|init|];
        if NoneCutShort(init) {
          HeardLast(blocks);
        }
      } else {
        HeardFirst(b);
        assert blocks == [b];
      }
    }
  }

  lemma HeardFirst(b: Block)
    ensures HeardPath([b]) == b.head
  {
    assert [b][..0] == [];
  }

  lemma HeardLast(blocks: seq<Block>)
    requires |blocks| > 1 && HeardPath(blocks[..|blocks| - 1]) == blocks[|blocks| - 2].head
    ensures HeardPath(blocks) == blocks[|blocks| - 1].head
       <==> !StrictPrefix(blocks[|blocks| - 1].head, blocks[|blocks| - 2].head)
  {
    hide HeardPath;
    HeardStep(blocks);
  }

  lemma HeardStep(blocks: seq<Block>)
    requires |blocks| > 1
    ensures HeardPath(blocks) == if blocks[|blocks| - 1].head <= blocks[|blocks| - 2].head then HeardPath(blocks[..|blocks| - 1])
                                 else blocks[|blocks| - 1].head
  {
  }

  /** In a list that needs one part only, reading gives it back if and only if every block
      with lines is heard under its own path; where all have lines, if and only if no path
      is the one before it cut short. */
  lemma OnePartReadsExactly(level: Levels, kind: string, header: string, blocks: seq<Block>)
    requires forall i | 0 <= i < |blocks| :: Readable(level, blocks[i])
    requires |Paginated(kind, header, blocks)| == 1
    ensures var parts := Paginated(kind, header, blocks);
            && (forall i | 0 <= i < |parts| :: |parts[i]| >= 3)
            && (ReadParts(level, parts) == Entries(blocks)
                <==> forall i | 0 <= i < |blocks| && blocks[i].body != [] :: HeardPath(blocks[..i + 1]) == blocks[i].head)
            && ((forall i | 0 <= i < |blocks| :: blocks[i].body != [])
                ==> (ReadParts(level, parts) == Entries(blocks) <==> NoneCutShort(blocks)))
  {
    hide ReadsAs, WithBlocks, Readable, Paginated, ReadParts, HeardPath, NoneCutShort;
    var start := Blank(kind, header, [], 1);
    NothingSaid(level, kind, header);
    OnePart(kind, header, blocks);
    BlocksHeard(level, start, blocks);
    AllRead(level, kind, header, blocks, Heard(blocks));
    HeardRightExactly(blocks);
    if forall i | 0 <= i < |blocks| :: blocks[i].body != [] {
      HeardWhereWhole(blocks);
    }
  }

  lemma OnePart(kind: string, header: string, blocks: seq<Block>)
    ensures |Paginated(kind, header, blocks)| == |WithBlocks(Blank(kind, header, [], 1), blocks).parts| + 1
  {
    hide WithBlocks;
  }

  // ---------------------------------------------------------------- the readers' own rule

  const CATEGORIES := ["NOSHO", "GOSHO", "NOREC", "OFFLD", "IDPAD", "INVOL"]

  /** What the readers of list messages go by: a dash opens a destination, a category
      stands below it and everything else is a line. Sales lists have the six categories,
      lists of names none. */
  function ListLevel(categories: seq<string>, line: string): Option<nat> {
    var t := TrimSpace(line);
    if t != "" && t[0] == '-' then Some(0) else if t in categories then Some(1) else None
  }

  /** A block as the senders write it: a destination, and a category where there are any. */
  predicate ListBlock(categories: seq<string>, b: Block) {
    && 1 <= |b.head| <= 2 && b.head[0] != "" && b.head[0][0] == '-' && (|b.head| == 2 ==> b.head[1] in categories)
    && forall k | 0 <= k < |b.body| :: ListLevel(categories, b.body[k]) == None
  }

  lemma {:induction false} DashStays(s: string)
    requires s != "" && s[0] == '-'
    ensures TrimSpace(s) != "" && TrimSpace(s)[0] == '-'
    decreases |s|
  {
    if |s| > 1 && IsSpace(s[|s| - 1]) {
      DashStays(s[..|s| - 1]);
    }
  }

  /** Categories are written without blanks around them. */
  predicate PlainCategories(categories: seq<string>) {
    forall c | c in categories :: c != "" && c[0] != '-' && TrimSpace(c) == c
  }

  /** A sales list, or a list of names, is given back by the reader's own rule wherever a
      destination alone never follows one of its own categories. */
  lemma ListsReadBack(categories: seq<string>, kind: string, header: string, blocks: seq<Block>)
    requires PlainCategories(categories) && NoneCutShort(blocks)
    requires forall i | 0 <= i < |blocks| :: ListBlock(categories, blocks[i])
    ensures var parts := Paginated(kind, header, blocks);
            && (forall i | 0 <= i < |parts| :: |parts[i]| >= 3)
            && ReadParts(line => ListLevel(categories, line), parts) == Entries(blocks)
  {
    hide Paginated, ReadParts, NoneCutShort, TrimSpace;
    var level: Levels := line => ListLevel(categories, line);
    forall i | 0 <= i < |blocks| ensures Readable(level, blocks[i]) {
      DashStays(blocks[i].head[0]);
    }
    ReadingGivesTheListBack(level, kind, header, blocks);
  }

  /** The six categories are plain, so sales lists with a category to every destination
      always read back. */
  lemma SalesListsReadBack(header: string, blocks: seq<Block>)
    requires forall i | 0 <= i < |blocks| :: ListBlock(CATEGORIES, blocks[i]) && |blocks[i].head| == 2
    ensures var parts := Paginated("PFS", header, blocks);
            && (forall i | 0 <= i < |parts| :: |parts[i]| >= 3)
            && ReadParts(line => ListLevel(CATEGORIES, line), parts) == Entries(blocks)
  {
    hide Paginated, ReadParts, ListLevel;
    ListsReadBack(CATEGORIES, "PFS", header, blocks);
  }
}
