/** How a list is cut into parts: a part ends only where it must, and a heading is written
    only where a reader is not under it already. */
module DcsParts {
  import opened Wrappers
  import opened Sequences
  import opened Text
  import opened DcsPaging

  // ---------------------------------------------------------------- parts end where they must

  /** The part opens with a path. */
  predicate OpensWith(part: seq<string>, head: seq<string>) {
    |part| >= 2 + |head| && part[2..2 + |head|] == head
  }

  /** The part has no line to spare for what comes next: it is full, or has no room for the
      headings the next part opens with. */
  predicate HadToEnd(part: seq<string>, next: seq<string>, blocks: seq<Block>) {
    exists i | 0 <= i < |blocks| ::
      OpensWith(next, blocks[i].head) && (|part| >= 50 || |part| + |blocks[i].head| > 50)
  }

  function After(p: Pages, i: nat): seq<string>
    requires i < |p.parts|
  {
    if i + 1 < |p.parts| then p.parts[i + 1] else p.cur
  }

  predicate AllHadToEnd(p: Pages, blocks: seq<Block>) {
    |p.cur| >= 2 && forall i | 0 <= i < |p.parts| :: HadToEnd(p.parts[i], After(p, i), blocks)
  }

  lemma StillHadToEnd(part: seq<string>, next: seq<string>, more: seq<string>, blocks: seq<Block>)
    requires HadToEnd(part, next, blocks)
    ensures HadToEnd(part, next + more, blocks)
  {
    var i :| 0 <= i < |blocks| && OpensWith(next, blocks[i].head) && (|part| >= 50 || |part| + |blocks[i].head| > 50);
    assert (next + more)[2..2 + |blocks[i].head|] == next[2..2 + |blocks[i].head|];
  }

  lemma LinesMayFollow(p: Pages, more: seq<string>, ctx: seq<string>, blocks: seq<Block>)
    requires AllHadToEnd(p, blocks)
    ensures AllHadToEnd(p.(cur := p.cur + more, ctx := ctx), blocks)
  {
    hide HadToEnd;
    var q := p.(cur := p.cur + more, ctx := ctx);
    if |p.parts| > 0 {
      StillHadToEnd(p.parts[|p.parts| - 1], p.cur, more, blocks);
    }
    assert forall i | 0 <= i < |q.parts| - 1 :: After(q, i) == After(p, i);
  }

  /** Turning to a new part for a block there is no room for. */
  lemma TurningHadTo(p: Pages, b: Block, blocks: seq<Block>)
    requires AllHadToEnd(p, blocks) && b in blocks
    requires |p.cur| + 1 >= 50 || |p.cur| + 1 + |b.head| > 50
    ensures AllHadToEnd(Entered(Flushed(p, false), b), blocks)
  {
    hide PartHeader, PartEnd;
    var part, q := p.cur + [PartEnd(p.part)], Entered(Flushed(p, false), b);
    assert Common([], b.head) == 0 && b.head[0..] == b.head;
    assert q.parts == p.parts + [part] && q.cur == Blank(p.kind, p.header, [], p.part + 1).cur + b.head;
    assert q.cur[2..2 + |b.head|] == b.head;
    assert HadToEnd(part, q.cur, blocks);
    if |p.parts| > 0 {
      StillHadToEnd(p.parts[|p.parts| - 1], p.cur, [PartEnd(p.part)], blocks);
    }
    assert forall i | 0 <= i < |p.parts| - 1 :: After(q, i) == After(p, i);
  }

  lemma {:induction false} LinesHadTo(p: Pages, b: Block, body: seq<string>, blocks: seq<Block>)
    requires AllHadToEnd(p, blocks) && b in blocks
    ensures AllHadToEnd(WithLines(p, b, body), blocks)
    decreases |body|
  {
    hide AllHadToEnd, Entered, Flushed;
    if body != [] {
      LinesHadTo(p, b, body[..|body| - 1], blocks);
      var q, line := WithLines(p, b, body[..|body| - 1]), body[|body| - 1];
      if |q.cur| + 1 > LINES_PER_PART - 1 {
        TurningHadTo(q, b, blocks);
        var r := Entered(Flushed(q, false), b);
        LinesMayFollow(r, [line], r.ctx, blocks);
      } else {
        LinesMayFollow(q, [line], q.ctx, blocks);
      }
    }
  }

  lemma {:induction false} BlocksHadTo(p: Pages, done: seq<Block>, blocks: seq<Block>)
    requires AllHadToEnd(p, blocks) && forall i | 0 <= i < |done| :: done[i] in blocks
    ensures AllHadToEnd(WithBlocks(p, done), blocks)
    decreases |done|
  {
    hide AllHadToEnd, Flushed, Common, WithLines;
    if done != [] {
      var init, b := done[..|done| - 1], done[|done| - 1];
      BlocksHadTo(p, init, blocks);
      var q := WithBlocks(p, init);
      if |b.head| + |q.cur| + 1 > LINES_PER_PART {
        TurningHadTo(q, b, blocks);
      } else {
        LinesMayFollow(q, b.head[Common(q.ctx, b.head)..], b.head, blocks);
      }
      LinesHadTo(Opened(q, b), b, b.body, blocks);
    }
  }

  /** A part ends before the last only when it has its fifty lines, or when it and the
      headings that come next would have more; and the next one opens with those. */
  lemma PartsEndWhereTheyMust(kind: string, header: string, blocks: seq<Block>, i: nat)
    requires i + 1 < |Paginated(kind, header, blocks)|
    ensures HadToEnd(Paginated(kind, header, blocks)[i], Paginated(kind, header, blocks)[i + 1], blocks)
  {
    hide PartHeader, WithBlocks, HadToEnd;
    BlocksHadTo(Blank(kind, header, [], 1), blocks, blocks);
    var p := WithBlocks(Blank(kind, header, [], 1), blocks);
    assert HadToEnd(p.parts[i], After(p, i), blocks);
    if i + 1 == |p.parts| {
      StillHadToEnd(p.parts[i], p.cur, ["END" + p.kind], blocks);
    }
  }

  // ---------------------------------------------------------------- headings are written once

  /** A heading among these lines is one the reader, having read those before it, is not
      under. */
  ghost predicate NewsAt(level: Levels, lines: seq<string>, k: nat)
    requires k < |lines|
  {
    match level(lines[k])
    case Some(depth) => var path := ReadLines(level, lines[..k]).path; depth >= |path| || path[depth] != lines[k]
    case None => true
  }

  ghost predicate AllNews(level: Levels, lines: seq<string>) {
    forall k | 0 <= k < |lines| :: NewsAt(level, lines, k)
  }

  ghost predicate PartsAreNews(level: Levels, p: Pages) {
    && Marked(p) && AllNews(level, p.cur[2..])
    && forall i | 0 <= i < |p.parts| :: AllNews(level, Inside(p.parts[i]))
  }

  lemma NewsSnoc(level: Levels, lines: seq<string>, line: string)
    requires AllNews(level, lines)
    requires match level(line)
             case Some(depth) => var path := ReadLines(level, lines).path; depth >= |path| || path[depth] != line
             case None => true
    ensures AllNews(level, lines + [line])
  {
    hide ReadLines;
    var more := lines + [line];
    assert more[..|lines|] == lines;
    forall k | 0 <= k < |lines| ensures NewsAt(level, more, k) {
      assert more[..k] == lines[..k] && NewsAt(level, lines, k);
    }
  }

  lemma {:induction false} HeadingsAreNews(level: Levels, lines: seq<string>, head: seq<string>, from: nat, upTo: nat)
    requires from <= upTo <= |head| && forall k | 0 <= k < |head| :: level(head[k]) == Some(k)
    requires AllNews(level, lines)
    requires var path := ReadLines(level, lines).path;
             |path| >= from && path[..from] == head[..from] && (from < |path| && from < |head| ==> path[from] != head[from])
    ensures AllNews(level, lines + head[from..upTo])
    decreases upTo
  {
    hide ReadLines, AllNews;
    if from == upTo {
      assert lines + head[from..upTo] == lines;
    } else {
      HeadingsAreNews(level, lines, head, from, upTo - 1);
      HeadingsRead(level, lines, head, from, upTo - 1);
      HeadingMore(lines, head, from, upTo - 1);
      NewsSnoc(level, lines + head[from..upTo - 1], head[upTo - 1]);
    }
  }

  lemma EnteredIsNews(level: Levels, p: Pages, b: Block, said: seq<Entry>)
    requires PartsAreNews(level, p) && ReadsAs(level, p, p.ctx, said) && Readable(level, b)
    ensures PartsAreNews(level, Entered(p, b))
  {
    hide PartHeader, PartEnd, ReadLines, ReadParts, AllNews;
    EnterMarks(p, b);
    var n := Common(p.ctx, b.head);
    HeadingsAreNews(level, p.cur[2..], b.head, n, |b.head|);
    assert b.head[n..|b.head|] == b.head[n..];
    assert Entered(p, b).cur[2..] == p.cur[2..] + b.head[n..];
  }

  lemma FlushedIsNews(level: Levels, p: Pages)
    requires PartsAreNews(level, p)
    ensures PartsAreNews(level, Flushed(p, false))
  {
    hide PartHeader, ReadLines;
    FlushMarks(p);
    var part := p.cur + [PartEnd(p.part)];
    assert Inside(part) == p.cur[2..];
    assert Flushed(p, false).cur[2..] == [];
  }

  lemma LineIsNews(level: Levels, p: Pages, line: string)
    requires PartsAreNews(level, p) && level(line) == None
    ensures PartsAreNews(level, p.(cur := p.cur + [line]))
  {
    hide PartHeader, PartEnd, ReadLines, AllNews;
    NewsSnoc(level, p.cur[2..], line);
    assert (p.cur + [line])[2..] == p.cur[2..] + [line];
  }

  lemma {:induction false} LinesAreNews(level: Levels, p: Pages, b: Block, body: seq<string>, said: seq<Entry>)
    requires PartsAreNews(level, p) && ReadsAs(level, p, b.head, said) && p.ctx == b.head && Readable(level, b)
    requires forall k | 0 <= k < |body| :: level(body[k]) == None
    ensures PartsAreNews(level, WithLines(p, b, body))
    decreases |body|
  {
    hide PartsAreNews, ReadsAs, Readable, Entered, Flushed;
    if body != [] {
      var init, line := body[..|body| - 1], body[|body| - 1];
      LinesAreNews(level, p, b, init, said);
      LinesRead(level, p, b, init, said);
      var q, before := WithLines(p, b, init), said + LinesUnder(b.head, init);
      if |q.cur| + 1 > LINES_PER_PART - 1 {
        FlushReads(level, q, b.head, before);
        FlushedIsNews(level, q);
        FlushClears(q);
        EnteredIsNews(level, Flushed(q, false), b, before);
        LineIsNews(level, Entered(Flushed(q, false), b), line);
      } else {
        LineIsNews(level, q, line);
      }
    }
  }

  lemma {:induction false} BlocksAreNews(level: Levels, p: Pages, blocks: seq<Block>, said: seq<Entry>)
    requires PartsAreNews(level, p) && ReadsAs(level, p, [], said) && p.ctx == []
    requires NoneCutShort(blocks) && forall i | 0 <= i < |blocks| :: Readable(level, blocks[i])
    ensures PartsAreNews(level, WithBlocks(p, blocks))
    decreases |blocks|
  {
    hide PartsAreNews, ReadsAs, Entered, Flushed, WithLines, Readable;
    if blocks != [] {
      var init, b := blocks[..|blocks| - 1], blocks[|blocks| - 1];
      BlocksAreNews(level, p, init, said);
      BlocksRead(level, p, init, said);
      var q, before := WithBlocks(p, init), said + Entries(init);
      FlushReads(level, q, q.ctx, before);
      FlushedIsNews(level, q);
      FlushClears(q);
      var turned := if |b.head| + |q.cur| + 1 > LINES_PER_PART then Flushed(q, false) else q;
      EnteredIsNews(level, turned, b, before);
      EnterReads(level, turned, b, before);
      BodyIsLines(level, b);
      LinesAreNews(level, Entered(turned, b), b, b.body, before);
    }
  }

  /** No part repeats a heading its reader is still under. */
  lemma HeadingsAreWrittenOnce(level: Levels, kind: string, header: string, blocks: seq<Block>)
    requires NoneCutShort(blocks) && forall i | 0 <= i < |blocks| :: Readable(level, blocks[i])
    ensures var parts := Paginated(kind, header, blocks);
            forall i | 0 <= i < |parts| :: |parts[i]| >= 3 && AllNews(level, Inside(parts[i]))
  {
    hide PartHeader, ReadsAs, WithBlocks, Readable, AllNews;
    var start := Blank(kind, header, [], 1);
    NothingSaid(level, kind, header);
    assert start.cur[2..] == [];
    NoLinesNoNews(level);
    BlocksAreNews(level, start, blocks, []);
    var p := WithBlocks(start, blocks);
    assert Inside(p.cur + ["END" + p.kind]) == p.cur[2..];
  }

  lemma NoLinesNoNews(level: Levels)
    ensures AllNews(level, [])
  {
  }
}
