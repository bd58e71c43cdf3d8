/** Functional groups written and read: complete groups come back as they were, and
    the counts and references of an envelope pass exactly when they agree. */
module EdifactGroups {
  import opened Wrappers
  import opened Text
  import opened Sequences
  import opened EdifactSyntax
  import opened EdifactEnvelope
  import opened EdifactBuilt
  import Decimal

  // ---------------------------------------------------------------- complete groups

  predicate CompleteGroup(g: Group) {
    KindOf(g.header.tag) == UNG && KindOf(g.trailer.tag) == UNE && forall i | 0 <= i < |g.messages| :: Complete(g.messages[i])
  }

  /** The messages of every group, in order. */
  function MessagesOf(gs: seq<Group>): seq<Message> {
    if gs == [] then [] else MessagesOf(gs[..|gs| - 1]) + gs[|gs| - 1].messages
  }

  lemma PlaceInGroup(a: Assembly, m: Message)
    requires a.curMsg.None? && a.curGroup.Some? && Complete(m)
    ensures PlaceFrom(a, FlatMessage(m))
         == a.(messages := a.messages + [m],
               curGroup := Some(a.curGroup.value.(messages := a.curGroup.value.messages + [m])))
  {
    hide PlaceFrom;
    var b := Place(a, m.header);
    assert Present(m.trailer) == [m.trailer];
    assert b == a.(curMsg := Some(Message(m.header, [], NO_SEGMENT)));
    PlaceOne(a, m.header);
    PlaceConcat(a, [m.header], m.segments);
    PlaceBody(b, m.segments);
    assert [] + m.segments == m.segments;
    PlaceConcat(a, [m.header] + m.segments, [m.trailer]);
    PlaceOne(PlaceFrom(b, m.segments), m.trailer);
    assert m.(trailer := m.trailer) == m;
  }

  lemma {:induction false} PlaceAllInGroup(a: Assembly, ms: seq<Message>)
    requires a.curMsg.None? && a.curGroup.Some? && forall i | 0 <= i < |ms| :: Complete(ms[i])
    ensures PlaceFrom(a, FlatMessages(ms))
         == a.(messages := a.messages + ms,
               curGroup := Some(a.curGroup.value.(messages := a.curGroup.value.messages + ms)))
    decreases |ms|
  {
    hide Complete, FlatMessage;
    if ms == [] {
      assert a.messages + [] == a.messages && a.curGroup.value.messages + [] == a.curGroup.value.messages;
    } else {
      var init, m := ms[..|ms| - 1], ms[|ms| - 1];
      PlaceAllInGroup(a, init);
      PlaceConcat(a, FlatMessages(init), FlatMessage(m));
      PlaceInGroup(PlaceFrom(a, FlatMessages(init)), m);
      AppendSnoc(a.messages, ms);
      AppendSnoc(a.curGroup.value.messages, ms);
    }
  }

  function FlatGroup(g: Group): seq<Segment> {
    [g.header] + FlatMessages(g.messages) + Present(g.trailer)
  }

  lemma PlaceGroup(a: Assembly, g: Group)
    requires Between(a) && CompleteGroup(g)
    ensures PlaceFrom(a, FlatGroup(g))
         == a.(groups := a.groups + [g], messages := a.messages + g.messages)
  {
    hide PlaceFrom, FlatMessages, Complete;
    var b := Place(a, g.header);
    assert Present(g.trailer) == [g.trailer];
    assert b == a.(curGroup := Some(Group(g.header, [], NO_SEGMENT)));
    PlaceOne(a, g.header);
    PlaceConcat(a, [g.header], FlatMessages(g.messages));
    PlaceAllInGroup(b, g.messages);
    assert [] + g.messages == g.messages;
    PlaceConcat(a, [g.header] + FlatMessages(g.messages), [g.trailer]);
    PlaceOne(PlaceFrom(b, FlatMessages(g.messages)), g.trailer);
    assert g.(trailer := g.trailer) == g;
  }

  lemma FlatGroupsLast(gs: seq<Group>)
    requires gs != []
    ensures FlatGroups(gs) == FlatGroups(gs[..|gs| - 1]) + FlatGroup(gs[|gs| - 1])
  {
    hide FlatMessages, Present;
    var g := gs[|gs| - 1];
    AddAssoc(FlatGroups(gs[..|gs| - 1]), [g.header], FlatMessages(g.messages));
    AddAssoc(FlatGroups(gs[..|gs| - 1]), [g.header] + FlatMessages(g.messages), Present(g.trailer));
  }

  lemma {:induction false} PlaceGroups(a: Assembly, gs: seq<Group>)
    requires Between(a) && forall i | 0 <= i < |gs| :: CompleteGroup(gs[i])
    ensures PlaceFrom(a, FlatGroups(gs)) == a.(groups := a.groups + gs, messages := a.messages + MessagesOf(gs))
    decreases |gs|
  {
    hide CompleteGroup, FlatGroup, PlaceFrom;
    if gs == [] {
      assert a.groups + [] == a.groups && a.messages + [] == a.messages;
      PlaceNone(a);
    } else {
      var init, g := gs[..|gs| - 1], gs[|gs| - 1];
      PlaceGroups(a, init);
      FlatGroupsLast(gs);
      PlaceConcat(a, FlatGroups(init), FlatGroup(g));
      PlaceGroup(PlaceFrom(a, FlatGroups(init)), g);
      AppendSnoc(a.groups, gs);
      AddAssoc(a.messages, MessagesOf(init), g.messages);
    }
  }

  lemma PlaceNone(a: Assembly)
    ensures PlaceFrom(a, []) == a
  {
  }

  lemma AssembleEnds(said: seq<Diagnostic>, header: Segment, body: seq<Segment>, trailer: Segment)
    requires KindOf(header.tag) == UNB && KindOf(trailer.tag) == UNZ
    ensures Present(header) == [header] && Present(trailer) == [trailer]
    ensures Assemble(said, [header] + body + [trailer])
         == Settle(Place(PlaceFrom(Start(said).(header := header), body), trailer))
  {
    hide Settle, PlaceFrom;
    var start := Start(said);
    PlaceConcat(start, [header] + body, [trailer]);
    PlaceConcat(start, [header], body);
    PlaceOne(start, header);
    PlaceOne(PlaceFrom(start, [header] + body), trailer);
  }

  /** An envelope of complete groups is grouped back into those groups, its messages are
      theirs in order, and there is nothing to remark on. */
  lemma AssembleGroups(said: seq<Diagnostic>, header: Segment, gs: seq<Group>, trailer: Segment)
    requires KindOf(header.tag) == UNB && KindOf(trailer.tag) == UNZ
    requires gs != [] && forall i | 0 <= i < |gs| :: CompleteGroup(gs[i])
    ensures Assemble(said, FlatEnvelope(header, gs, [], trailer))
         == Assembly(header, trailer, gs, MessagesOf(gs), said, None, None)
  {
    hide CompleteGroup, FlatGroups, PlaceFrom, MessagesOf, Assemble;
    AssembleEnds(said, header, FlatGroups(gs), trailer);
    PlaceGroups(Start(said).(header := header), gs);
    assert [] + gs == gs && [] + MessagesOf(gs) == MessagesOf(gs);
  }

  // ---------------------------------------------------------------- counts and references

  /** A count field that reads as the number it should be. */
  predicate Counts(field: string, n: int) {
    Decimal.Atoi(TrimSpace(field)) == Decimal.Number(n)
  }

  /** A count field that is a number, and another one. */
  predicate Miscounts(field: string, n: int) {
    Decimal.Atoi(TrimSpace(field)).Number? && !Counts(field, n)
  }

  /** Both ends are there, the UNZ names the UNB's control reference, and it counts the
      groups, or the messages where there are no groups. */
  predicate EndsAgree(header: Segment, trailer: Segment, groups: seq<Group>, messages: seq<Message>) {
    && header.tag != "" && trailer.tag != ""
    && Value(trailer, 1) == Value(header, 4)
    && Counts(Value(trailer, 0), if |groups| > 0 then |groups| else |messages|)
  }

  /** The UNE names its UNG's reference and does not miscount; one that is missing or
      whose count is no number is let pass. */
  predicate GroupAgrees(g: Group) {
    g.trailer.tag != "" ==> Value(g.trailer, 1) == Value(g.header, 4) && !Miscounts(Value(g.trailer, 0), |g.messages|)
  }

  /** The UNT names its UNH's reference and counts every segment, UNH and UNT included. */
  predicate MessageAgrees(m: Message) {
    m.trailer.tag != "" ==> Value(m.trailer, 1) == Value(m.header, 0) && Counts(Value(m.trailer, 0), |m.segments| + 2)
  }

  lemma {:induction false} GroupRemarksGrow(said: seq<Diagnostic>, gs: seq<Group>)
    ensures said <= GroupRemarks(said, gs)
    ensures GroupRemarks(said, gs) == said <==> forall i | 0 <= i < |gs| :: GroupAgrees(gs[i])
    ensures HasErrors(GroupRemarks(said, gs)) <==> HasErrors(said) || exists i | 0 <= i < |gs| :: !GroupAgrees(gs[i])
    decreases |gs|
  {
    hide GroupAgrees, GroupRemark, HasErrors;
    if gs != [] {
      var next := said + GroupRemark(gs[0]);
      GroupRemarksGrow(next, gs[1..]);
      GroupRemarkIs(said, gs[0]);
      SplitFirst(gs, GroupAgrees);
    }
  }

  lemma {:induction false} MessageRemarksGrow(said: seq<Diagnostic>, ms: seq<Message>)
    ensures said <= MessageRemarks(said, ms)
    ensures MessageRemarks(said, ms) == said <==> forall i | 0 <= i < |ms| :: MessageAgrees(ms[i])
    ensures HasErrors(MessageRemarks(said, ms)) <==> HasErrors(said) || exists i | 0 <= i < |ms| :: !MessageAgrees(ms[i])
    decreases |ms|
  {
    hide MessageAgrees, MessageRemark, HasErrors;
    if ms != [] {
      var next := said + MessageRemark(ms[0]);
      MessageRemarksGrow(next, ms[1..]);
      MessageRemarkIs(said, ms[0]);
      SplitFirst(ms, MessageAgrees);
    }
  }

  lemma SplitFirst<T>(xs: seq<T>, p: T -> bool)
    requires xs != []
    ensures (forall i | 0 <= i < |xs| :: p(xs[i])) <==> p(xs[0]) && forall i | 0 <= i < |xs[1..]| :: p(xs[1..][i])
  {
    if i :| 0 <= i < |xs| && !p(xs[i]) && i > 0 {
      assert xs[1..][i - 1] == xs[i];
    }
  }

  /** What is added to the remarks is Errors only. */
  lemma ErrorsAdded(said: seq<Diagnostic>, more: seq<Diagnostic>)
    requires forall i | 0 <= i < |more| :: more[i].severity == Error
    ensures HasErrors(said + more) <==> HasErrors(said) || more != []
    ensures said + more == said <==> more == []
  {
    if HasErrors(said) {
      var i :| 0 <= i < |said| && said[i].severity == Error;
      assert (said + more)[i] == said[i];
    }
    if more != [] {
      assert (said + more)[|said|] == more[0];
    }
  }

  lemma GroupRemarkIs(said: seq<Diagnostic>, g: Group)
    ensures GroupRemark(g) == [] <==> GroupAgrees(g)
    ensures HasErrors(said + GroupRemark(g)) <==> HasErrors(said) || !GroupAgrees(g)
  {
    ErrorsAdded(said, GroupRemark(g));
  }

  lemma MessageRemarkIs(said: seq<Diagnostic>, m: Message)
    ensures MessageRemark(m) == [] <==> MessageAgrees(m)
    ensures HasErrors(said + MessageRemark(m)) <==> HasErrors(said) || !MessageAgrees(m)
  {
    ErrorsAdded(said, MessageRemark(m));
  }

  /** What is remarked on the two ends of the interchange. */
  function EndRemarks(header: Segment, trailer: Segment, groups: seq<Group>, messages: seq<Message>): seq<Diagnostic> {
    Flag(header.tag == "", "missing_unb") + Flag(trailer.tag == "", "missing_unz")
    + TrailerRemark(header, trailer, groups, messages)
  }

  lemma EndRemarksAre(said: seq<Diagnostic>, header: Segment, trailer: Segment, groups: seq<Group>, messages: seq<Message>)
    ensures var more := EndRemarks(header, trailer, groups, messages);
            && (more == [] <==> EndsAgree(header, trailer, groups, messages))
            && (HasErrors(said + more) <==> HasErrors(said) || !EndsAgree(header, trailer, groups, messages))
  {
    ErrorsAdded(said, EndRemarks(header, trailer, groups, messages));
  }

  /** Validation says nothing exactly when both ends, every group and every message
      agree in reference and count, and finds an Error exactly when one does not. */
  lemma EnvelopePassesExactly(said: seq<Diagnostic>, header: Segment, trailer: Segment, groups: seq<Group>, messages: seq<Message>)
    ensures var sound := && EndsAgree(header, trailer, groups, messages)
                         && (forall i | 0 <= i < |groups| :: GroupAgrees(groups[i]))
                         && forall i | 0 <= i < |messages| :: MessageAgrees(messages[i]);
            var remarks := EnvelopeRemarks(said, header, trailer, groups, messages);
            (remarks == said <==> sound) && (HasErrors(remarks) <==> HasErrors(said) || !sound)
  {
    hide GroupRemarks, MessageRemarks, GroupAgrees, MessageAgrees, EndsAgree, TrailerRemark, Flag, HasErrors;
    var more := EndRemarks(header, trailer, groups, messages);
    assert said + Flag(header.tag == "", "missing_unb") + Flag(trailer.tag == "", "missing_unz")
           + TrailerRemark(header, trailer, groups, messages) == said + more;
    EndRemarksAre(said, header, trailer, groups, messages);
    GroupRemarksGrow(said + more, groups);
    MessageRemarksGrow(GroupRemarks(said + more, groups), messages);
  }

  // ---------------------------------------------------------------- which remark is made

  predicate OwedToEnds(code: string, header: Segment, trailer: Segment, groups: seq<Group>, messages: seq<Message>) {
    var both, n := header.tag != "" && trailer.tag != "", if |groups| > 0 then |groups| else |messages|;
    || (code == "missing_unb" && header.tag == "")
    || (code == "missing_unz" && trailer.tag == "")
    || (code == "control_ref_mismatch" && both && Value(trailer, 1) != Value(header, 4))
    || (code == "bad_unz_count" && both && Decimal.Atoi(TrimSpace(Value(trailer, 0))).NotANumber?)
    || (code == "unz_count_mismatch" && both && Miscounts(Value(trailer, 0), n))
  }

  predicate OwedToGroup(code: string, g: Group) {
    && g.trailer.tag != ""
    && (|| (code == "group_ref_mismatch" && Value(g.trailer, 1) != Value(g.header, 4))
        || (code == "une_count_mismatch" && Miscounts(Value(g.trailer, 0), |g.messages|)))
  }

  predicate OwedToMessage(code: string, m: Message) {
    && m.trailer.tag != ""
    && (|| (code == "message_ref_mismatch" && Value(m.trailer, 1) != Value(m.header, 0))
        || (code == "bad_unt_count" && Decimal.Atoi(TrimSpace(Value(m.trailer, 0))).NotANumber?)
        || (code == "unt_count_mismatch" && Miscounts(Value(m.trailer, 0), |m.segments| + 2)))
  }

  lemma EndsOwe(code: string, header: Segment, trailer: Segment, groups: seq<Group>, messages: seq<Message>)
    ensures Diagnostic(Error, code) in EndRemarks(header, trailer, groups, messages)
       <==> OwedToEnds(code, header, trailer, groups, messages)
  {
  }

  lemma GroupOwes(code: string, g: Group)
    ensures Diagnostic(Error, code) in GroupRemark(g) <==> OwedToGroup(code, g)
  {
  }

  lemma MessageOwes(code: string, m: Message)
    ensures Diagnostic(Error, code) in MessageRemark(m) <==> OwedToMessage(code, m)
  {
  }

  lemma {:induction false} GroupsOwe(said: seq<Diagnostic>, gs: seq<Group>, code: string)
    ensures Diagnostic(Error, code) in GroupRemarks(said, gs)
       <==> Diagnostic(Error, code) in said || exists i | 0 <= i < |gs| :: OwedToGroup(code, gs[i])
    decreases |gs|
  {
    hide OwedToGroup, GroupRemark;
    if gs != [] {
      GroupOwes(code, gs[0]);
      GroupsOwe(said + GroupRemark(gs[0]), gs[1..], code);
      SplitFirst(gs, g => !OwedToGroup(code, g));
    }
  }

  lemma {:induction false} MessagesOwe(said: seq<Diagnostic>, ms: seq<Message>, code: string)
    ensures Diagnostic(Error, code) in MessageRemarks(said, ms)
       <==> Diagnostic(Error, code) in said || exists i | 0 <= i < |ms| :: OwedToMessage(code, ms[i])
    decreases |ms|
  {
    hide OwedToMessage, MessageRemark;
    if ms != [] {
      MessageOwes(code, ms[0]);
      MessagesOwe(said + MessageRemark(ms[0]), ms[1..], code);
      SplitFirst(ms, m => !OwedToMessage(code, m));
    }
  }

  /** Each remark is made exactly when what it names is so. */
  lemma EveryRemarkIsOwed(said: seq<Diagnostic>, header: Segment, trailer: Segment, groups: seq<Group>,
                          messages: seq<Message>, code: string)
    ensures Diagnostic(Error, code) in EnvelopeRemarks(said, header, trailer, groups, messages)
       <==> || Diagnostic(Error, code) in said
            || OwedToEnds(code, header, trailer, groups, messages)
            || (exists i | 0 <= i < |groups| :: OwedToGroup(code, groups[i]))
            || exists i | 0 <= i < |messages| :: OwedToMessage(code, messages[i])
  {
    hide GroupRemarks, MessageRemarks, OwedToEnds, OwedToGroup, OwedToMessage, TrailerRemark, Flag;
    var more := EndRemarks(header, trailer, groups, messages);
    assert said + Flag(header.tag == "", "missing_unb") + Flag(trailer.tag == "", "missing_unz")
           + TrailerRemark(header, trailer, groups, messages) == said + more;
    EndsOwe(code, header, trailer, groups, messages);
    GroupsOwe(said + more, groups, code);
    MessagesOwe(GroupRemarks(said + more, groups), messages, code);
  }

  // ---------------------------------------------------------------- what Finalize leaves

  lemma PrintedCounts(n: int)
    ensures Counts(Decimal.Itoa(n), n)
  {
    Decimal.ItoaPlain(n);
    Decimal.AtoiOfItoa(n);
  }

  lemma ClosedMessageAgrees(m: Message)
    ensures MessageAgrees(Closed(m))
  {
    PrintedCounts(|m.segments| + 2);
  }

  lemma ClosedGroupAgrees(g: Group)
    ensures GroupAgrees(ClosedGroup(g))
  {
    PrintedCounts(|g.messages|);
  }

  lemma {:induction false} ClosedGroupsMessages(gs: seq<Group>)
    ensures forall i | 0 <= i < |MessagesOf(ClosedGroups(gs))| :: MessageAgrees(MessagesOf(ClosedGroups(gs))[i])
    decreases |gs|
  {
    hide MessageAgrees;
    if gs != [] {
      var init, g := gs[..|gs| - 1], gs[|gs| - 1];
      ClosedGroupsMessages(init);
      assert ClosedGroups(gs)[..|gs| - 1] == ClosedGroups(init);
      forall i | 0 <= i < |g.messages| ensures MessageAgrees(ClosedAll(g.messages)[i]) {
        ClosedMessageAgrees(g.messages[i]);
      }
    }
  }

  /** An interchange of groups, finalised, regroups into its groups and passes
      validation without a remark. */
  lemma FinalisedGroupsPass(said: seq<Diagnostic>, header: Segment, gs: seq<Group>, ms: seq<Message>)
    requires KindOf(header.tag) == UNB && gs != []
    requires forall i | 0 <= i < |gs| :: KindOf(gs[i].header.tag) == UNG
    requires forall i, k | 0 <= i < |gs| && 0 <= k < |gs[i].messages| ::
               KindOf(gs[i].messages[k].header.tag) == UNH && BodyOnly(gs[i].messages[k].segments)
    ensures var closed := ClosedGroups(gs);
            var trailer := InterchangeTrailer(header, closed, ms);
            var a := Assemble(said, FlatEnvelope(header, closed, ms, trailer));
            && a.groups == closed && a.messages == MessagesOf(closed)
            && EnvelopeRemarks(a.diags, a.header, a.trailer, a.groups, a.messages) == said
  {
    var closed := ClosedGroups(gs);
    var trailer := InterchangeTrailer(header, closed, ms);
    forall i | 0 <= i < |closed| ensures CompleteGroup(closed[i]) && GroupAgrees(closed[i]) {
      ClosedGroupComplete(gs[i]);
      ClosedGroupAgrees(gs[i]);
    }
    ClosedGroupsMessages(gs);
    AssembleGroups(said, header, closed, trailer);
    PrintedCounts(|closed|);
    EnvelopePassesExactly(said, header, trailer, closed, MessagesOf(closed));
  }

  lemma ClosedGroupComplete(g: Group)
    requires KindOf(g.header.tag) == UNG
    requires forall k | 0 <= k < |g.messages| :: KindOf(g.messages[k].header.tag) == UNH && BodyOnly(g.messages[k].segments)
    ensures CompleteGroup(ClosedGroup(g))
  {
  }
}
