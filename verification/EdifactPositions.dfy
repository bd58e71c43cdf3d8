/** The envelope told by positions in the flat list: where each message and each
    functional group starts and ends, what each holds, and which segments are
    remarked on. Nothing here mentions the assembly in progress; the law at the end
    says grouping computes exactly this, on every list. */
module EdifactPositions {
  import opened Wrappers
  import opened EdifactSyntax
  import opened EdifactEnvelope

  // ---------------------------------------------------------------- starts and ends

  /** What ends a message. */
  predicate EndsMessage(s: Segment) {
    KindOf(s.tag) in {UNH, UNT, UNE, UNZ}
  }

  /** What ends a functional group. */
  predicate EndsGroup(s: Segment) {
    KindOf(s.tag) in {UNG, UNE, UNZ}
  }

  /** The first segment from j on that ends a message, or the end of the list. */
  function MessageEnd(segs: seq<Segment>, j: nat): (e: nat)
    ensures j <= |segs| ==> j <= e <= |segs|
    ensures forall k | j <= k < e && k < |segs| :: !EndsMessage(segs[k])
    ensures e < |segs| ==> EndsMessage(segs[e])
    decreases |segs| - j
  {
    if j >= |segs| then |segs| else if EndsMessage(segs[j]) then j else MessageEnd(segs, j + 1)
  }

  function GroupEnd(segs: seq<Segment>, j: nat): (e: nat)
    ensures j <= |segs| ==> j <= e <= |segs|
    ensures forall k | j <= k < e && k < |segs| :: !EndsGroup(segs[k])
    ensures e < |segs| ==> EndsGroup(segs[e])
    decreases |segs| - j
  {
    if j >= |segs| then |segs| else if EndsGroup(segs[j]) then j else GroupEnd(segs, j + 1)
  }

  /** The body segments of a stretch. */
  function Bodies(segs: seq<Segment>): seq<Segment> {
    if segs == [] then []
    else Bodies(segs[..|segs| - 1]) + (if KindOf(segs[|segs| - 1].tag) == Body then [segs[|segs| - 1]] else [])
  }

  /** The segment at a position, if it is of the kind that closes properly. */
  function Closer(segs: seq<Segment>, e: nat, kind: Kind): Segment {
    if e < |segs| && KindOf(segs[e].tag) == kind then segs[e] else NO_SEGMENT
  }

  /** The message a UNH at i starts: the body segments up to its end, and its UNT. */
  function MessageAt(segs: seq<Segment>, i: nat): Message
    requires i < |segs|
  {
    var e := MessageEnd(segs, i + 1);
    Message(segs[i], Bodies(segs[i + 1..e]), Closer(segs, e, UNT))
  }

  /** Where the segments of a kind stand before k. */
  function Places(segs: seq<Segment>, kind: Kind, k: nat): (r: seq<nat>)
    requires k <= |segs|
    ensures forall n | 0 <= n < |r| :: r[n] < k && KindOf(segs[r[n]].tag) == kind
  {
    if k == 0 then []
    else Places(segs, kind, k - 1) + (if KindOf(segs[k - 1].tag) == kind then [k - 1] else [])
  }

  /** One message for each UNH, in order. */
  function MessagesIn(segs: seq<Segment>): (r: seq<Message>)
    ensures var heads := Places(segs, UNH, |segs|);
            |r| == |heads| && forall n | 0 <= n < |heads| :: r[n] == MessageAt(segs, heads[n])
  {
    var heads := Places(segs, UNH, |segs|);
    seq(|heads|, n requires 0 <= n < |heads| => MessageAt(segs, heads[n]))
  }

  /** The messages whose UNH is before k and whose end lies in (lo, hi]. */
  function EndedIn(segs: seq<Segment>, k: nat, lo: int, hi: int): seq<Message>
    requires k <= |segs|
  {
    if k == 0 then []
    else
      EndedIn(segs, k - 1, lo, hi)
      + (if KindOf(segs[k - 1].tag) == UNH && lo < MessageEnd(segs, k) <= hi then [MessageAt(segs, k - 1)] else [])
  }

  /** The group a UNG at u starts: the messages that end while it is open, and its UNE. */
  function GroupAt(segs: seq<Segment>, u: nat): Group
    requires u < |segs|
  {
    var e := GroupEnd(segs, u + 1);
    Group(segs[u], EndedIn(segs, |segs|, u, e), Closer(segs, e, UNE))
  }

  /** One group for each UNG, in order. */
  function GroupsIn(segs: seq<Segment>): (r: seq<Group>)
    ensures var heads := Places(segs, UNG, |segs|);
            |r| == |heads| && forall n | 0 <= n < |heads| :: r[n] == GroupAt(segs, heads[n])
  {
    var heads := Places(segs, UNG, |segs|);
    seq(|heads|, n requires 0 <= n < |heads| => GroupAt(segs, heads[n]))
  }

  /** The last segment of a kind before k. */
  function LastOf(segs: seq<Segment>, kind: Kind, k: nat): Segment
    requires k <= |segs|
  {
    if k == 0 then NO_SEGMENT
    else if KindOf(segs[k - 1].tag) == kind then segs[k - 1]
    else LastOf(segs, kind, k - 1)
  }

  /** The UNH whose message is open before k, and the UNG whose group is. */
  predicate OpenMessage(segs: seq<Segment>, i: nat, k: nat) {
    i < k <= |segs| && KindOf(segs[i].tag) == UNH && k <= MessageEnd(segs, i + 1)
  }

  predicate OpenGroup(segs: seq<Segment>, u: nat, k: nat) {
    u < k <= |segs| && KindOf(segs[u].tag) == UNG && k <= GroupEnd(segs, u + 1)
  }

  ghost predicate InMessage(segs: seq<Segment>, k: nat) {
    exists i: nat :: OpenMessage(segs, i, k)
  }

  ghost predicate InGroup(segs: seq<Segment>, k: nat) {
    exists u: nat :: OpenGroup(segs, u, k)
  }

  ghost predicate Seen(segs: seq<Segment>, kind: Kind, k: nat)
    requires k <= |segs|
  {
    exists j: nat :: j < k && KindOf(segs[j].tag) == kind
  }

  /** What is remarked on the segment at k. */
  ghost function FaultsAt(segs: seq<Segment>, k: nat): seq<Diagnostic>
    requires k < |segs|
  {
    match KindOf(segs[k].tag)
    case UNB => Flag(Seen(segs, UNB, k), "duplicate_unb")
    case UNZ => Flag(InMessage(segs, k), "missing_unt") + Flag(InGroup(segs, k), "unclosed_ung")
    case UNG => Flag(InGroup(segs, k), "nested_ung")
    case UNE => Flag(InMessage(segs, k), "missing_unt") + Flag(!InGroup(segs, k), "orphan_une")
    case UNH => Flag(InMessage(segs, k), "unclosed_unh")
    case UNT => Flag(!InMessage(segs, k), "orphan_unt")
    case Body => Flag(!InMessage(segs, k), "segment_outside_message")
  }

  ghost function FaultsBefore(segs: seq<Segment>, k: nat): seq<Diagnostic>
    requires k <= |segs|
  {
    if k == 0 then [] else FaultsBefore(segs, k - 1) + FaultsAt(segs, k - 1)
  }

  ghost function FaultsIn(segs: seq<Segment>): seq<Diagnostic> {
    FaultsBefore(segs, |segs|) + Flag(InMessage(segs, |segs|), "missing_unt") + Flag(InGroup(segs, |segs|), "missing_une")
  }

  // ---------------------------------------------------------------- what is open

  /** The start of the message open before k, found by looking back. */
  function MessageStart(segs: seq<Segment>, k: nat): (r: Option<nat>)
    requires k <= |segs|
    ensures r.Some? ==> r.value < k && KindOf(segs[r.value].tag) == UNH
    ensures r.Some? ==> forall j | r.value < j < k :: !EndsMessage(segs[j])
    ensures r.None? ==> forall i: nat | i < k && KindOf(segs[i].tag) == UNH :: exists j: nat :: i < j < k && EndsMessage(segs[j])
  {
    if k == 0 then None
    else if KindOf(segs[k - 1].tag) == UNH then Some(k - 1)
    else if EndsMessage(segs[k - 1]) then None
    else MessageStart(segs, k - 1)
  }

  function GroupStart(segs: seq<Segment>, k: nat): (r: Option<nat>)
    requires k <= |segs|
    ensures r.Some? ==> r.value < k && KindOf(segs[r.value].tag) == UNG
    ensures r.Some? ==> forall j | r.value < j < k :: !EndsGroup(segs[j])
    ensures r.None? ==> forall i: nat | i < k && KindOf(segs[i].tag) == UNG :: exists j: nat :: i < j < k && EndsGroup(segs[j])
  {
    if k == 0 then None
    else if KindOf(segs[k - 1].tag) == UNG then Some(k - 1)
    else if EndsGroup(segs[k - 1]) then None
    else GroupStart(segs, k - 1)
  }

  lemma MessageOpenIs(segs: seq<Segment>, i: nat, k: nat)
    requires k <= |segs|
    ensures OpenMessage(segs, i, k) <==> MessageStart(segs, k) == Some(i)
  {
  }

  lemma GroupOpenIs(segs: seq<Segment>, u: nat, k: nat)
    requires k <= |segs|
    ensures OpenGroup(segs, u, k) <==> GroupStart(segs, k) == Some(u)
  {
  }

  lemma InMessageIs(segs: seq<Segment>, k: nat)
    requires k <= |segs|
    ensures InMessage(segs, k) <==> MessageStart(segs, k).Some?
  {
    if InMessage(segs, k) {
      var i: nat :| OpenMessage(segs, i, k);
      MessageOpenIs(segs, i, k);
    }
    if MessageStart(segs, k).Some? {
      MessageOpenIs(segs, MessageStart(segs, k).value, k);
    }
  }

  lemma InGroupIs(segs: seq<Segment>, k: nat)
    requires k <= |segs|
    ensures InGroup(segs, k) <==> GroupStart(segs, k).Some?
  {
    if InGroup(segs, k) {
      var u: nat :| OpenGroup(segs, u, k);
      GroupOpenIs(segs, u, k);
    }
    if GroupStart(segs, k).Some? {
      GroupOpenIs(segs, GroupStart(segs, k).value, k);
    }
  }

  // ---------------------------------------------------------------- messages as they end

  /** Whether the message open before k, if any, ends at k. */
  predicate EndsAt(segs: seq<Segment>, k: nat)
    requires k <= |segs|
  {
    MessageStart(segs, k).Some? && (k < |segs| ==> EndsMessage(segs[k]))
  }

  lemma EndsHere(segs: seq<Segment>, i: nat, k: nat)
    requires i < |segs| && k <= |segs| && KindOf(segs[i].tag) == UNH
    ensures MessageEnd(segs, i + 1) == k <==> EndsAt(segs, k) && MessageStart(segs, k) == Some(i)
  {
    MessageOpenIs(segs, i, k);
  }

  /** A UNH after the one whose message is open does not end by k. */
  lemma OneOpen(segs: seq<Segment>, i: nat, k: nat)
    requires i < |segs| && k <= |segs| && KindOf(segs[i].tag) == UNH
    ensures MessageStart(segs, k).Some? && MessageStart(segs, k).value < i ==> MessageEnd(segs, i + 1) > k
  {
    assert EndsMessage(segs[i]);
  }

  /** Only the message open before k can end at k. */
  lemma {:induction false} EndedAdds(segs: seq<Segment>, n: nat, lo: int, k: nat)
    requires n <= |segs| && k <= |segs| && lo < k
    ensures EndedIn(segs, n, lo, k)
            == EndedIn(segs, n, lo, k - 1)
               + (if EndsAt(segs, k) && MessageStart(segs, k).value < n
                  then [MessageAt(segs, MessageStart(segs, k).value)] else [])
  {
    hide MessageAt, MessageEnd, MessageStart;
    if n > 0 {
      EndedAdds(segs, n - 1, lo, k);
      var i, start, was := n - 1, MessageStart(segs, k), EndedIn(segs, n - 1, lo, k - 1);
      assert was + [] == was;
      if KindOf(segs[i].tag) == UNH {
        EndsHere(segs, i, k);
        OneOpen(segs, i, k);
        if EndsAt(segs, k) && start == Some(i) {
          assert MessageEnd(segs, n) == k;
        } else if EndsAt(segs, k) && start.value < i {
          assert MessageEnd(segs, n) > k;
        } else {
          assert MessageEnd(segs, n) != k;
        }
      } else {
        assert start != Some(i);
      }
    }
  }

  /** A UNH from k on does not end by k. */
  lemma {:induction false} EndedLater(segs: seq<Segment>, n: nat, lo: int, k: nat)
    requires k <= n <= |segs|
    ensures EndedIn(segs, n, lo, k) == EndedIn(segs, k, lo, k)
    decreases n - k
  {
    hide MessageAt, MessageEnd;
    if n > k {
      EndedLater(segs, n - 1, lo, k);
      assert MessageEnd(segs, n) >= n;
    }
  }

  /** The messages that have ended once the segment at k is read. */
  lemma EndingAt(segs: seq<Segment>, n: nat, lo: int, k: nat)
    requires k <= n <= |segs| && lo < k
    ensures EndedIn(segs, n, lo, k)
            == EndedIn(segs, k, lo, k - 1)
               + (if EndsAt(segs, k) then [MessageAt(segs, MessageStart(segs, k).value)] else [])
  {
    hide MessageAt, EndedIn;
    EndedLater(segs, n, lo, k);
    EndedAdds(segs, k, lo, k);
  }

  lemma {:induction false} EndedNowhere(segs: seq<Segment>, n: nat, lo: int, hi: int)
    requires n <= |segs| && hi <= lo
    ensures EndedIn(segs, n, lo, hi) == []
  {
    if n > 0 {
      EndedNowhere(segs, n - 1, lo, hi);
    }
  }

  /** Every message has ended by the end of the list. */
  lemma {:induction false} EveryMessageEnds(segs: seq<Segment>, n: nat)
    requires n <= |segs|
    ensures var heads, ended := Places(segs, UNH, n), EndedIn(segs, n, -1, |segs|);
            |ended| == |heads| && forall i | 0 <= i < |heads| :: ended[i] == MessageAt(segs, heads[i])
  {
    hide MessageAt, MessageEnd;
    if n > 0 {
      EveryMessageEnds(segs, n - 1);
      assert MessageEnd(segs, n) <= |segs|;
    }
  }

  // ---------------------------------------------------------------- groups as they end

  /** The groups whose UNG is before k and whose end is at most hi. */
  function GroupsEnded(segs: seq<Segment>, k: nat, hi: int): seq<Group>
    requires k <= |segs|
  {
    if k == 0 then []
    else
      GroupsEnded(segs, k - 1, hi)
      + (if KindOf(segs[k - 1].tag) == UNG && GroupEnd(segs, k) <= hi then [GroupAt(segs, k - 1)] else [])
  }

  predicate GroupEndsAt(segs: seq<Segment>, k: nat)
    requires k <= |segs|
  {
    GroupStart(segs, k).Some? && (k < |segs| ==> EndsGroup(segs[k]))
  }

  lemma GroupEndsHere(segs: seq<Segment>, u: nat, k: nat)
    requires u < |segs| && k <= |segs| && KindOf(segs[u].tag) == UNG
    ensures GroupEnd(segs, u + 1) == k <==> GroupEndsAt(segs, k) && GroupStart(segs, k) == Some(u)
  {
    GroupOpenIs(segs, u, k);
  }

  lemma OneGroupOpen(segs: seq<Segment>, u: nat, k: nat)
    requires u < |segs| && k <= |segs| && KindOf(segs[u].tag) == UNG
    ensures GroupStart(segs, k).Some? && GroupStart(segs, k).value < u ==> GroupEnd(segs, u + 1) > k
  {
    assert EndsGroup(segs[u]);
  }

  /** Only the group open before k can end at k. */
  lemma {:induction false} GroupsEndedAdds(segs: seq<Segment>, n: nat, k: nat)
    requires n <= |segs| && k <= |segs|
    ensures GroupsEnded(segs, n, k)
            == GroupsEnded(segs, n, k - 1)
               + (if GroupEndsAt(segs, k) && GroupStart(segs, k).value < n
                  then [GroupAt(segs, GroupStart(segs, k).value)] else [])
  {
    hide GroupAt, GroupEnd, GroupStart;
    if n > 0 {
      GroupsEndedAdds(segs, n - 1, k);
      var u, start, was := n - 1, GroupStart(segs, k), GroupsEnded(segs, n - 1, k - 1);
      assert was + [] == was;
      if KindOf(segs[u].tag) == UNG {
        GroupEndsHere(segs, u, k);
        OneGroupOpen(segs, u, k);
        if GroupEndsAt(segs, k) && start == Some(u) {
          assert GroupEnd(segs, n) == k;
        } else if GroupEndsAt(segs, k) && start.value < u {
          assert GroupEnd(segs, n) > k;
        } else {
          assert GroupEnd(segs, n) != k;
        }
      } else {
        assert start != Some(u);
      }
    }
  }

  lemma {:induction false} GroupsEndedLater(segs: seq<Segment>, n: nat, k: nat)
    requires k <= n <= |segs|
    ensures GroupsEnded(segs, n, k) == GroupsEnded(segs, k, k)
    decreases n - k
  {
    hide GroupAt, GroupEnd;
    if n > k {
      GroupsEndedLater(segs, n - 1, k);
      assert GroupEnd(segs, n) >= n;
    }
  }

  lemma GroupEndingAt(segs: seq<Segment>, n: nat, k: nat)
    requires k <= n <= |segs|
    ensures GroupsEnded(segs, n, k)
            == GroupsEnded(segs, k, k - 1)
               + (if GroupEndsAt(segs, k) then [GroupAt(segs, GroupStart(segs, k).value)] else [])
  {
    hide GroupAt, GroupsEnded;
    GroupsEndedLater(segs, n, k);
    GroupsEndedAdds(segs, k, k);
  }

  lemma {:induction false} EveryGroupEnds(segs: seq<Segment>, n: nat)
    requires n <= |segs|
    ensures var heads, ended := Places(segs, UNG, n), GroupsEnded(segs, n, |segs|);
            |ended| == |heads| && forall i | 0 <= i < |heads| :: ended[i] == GroupAt(segs, heads[i])
  {
    hide GroupAt, GroupEnd;
    if n > 0 {
      EveryGroupEnds(segs, n - 1);
      assert GroupEnd(segs, n) <= |segs|;
    }
  }

  // ---------------------------------------------------------------- the assembly before each segment

  function MessageSoFar(segs: seq<Segment>, k: nat): Option<Message>
    requires k <= |segs|
  {
    match MessageStart(segs, k)
    case None => None
    case Some(i) => Some(Message(segs[i], Bodies(segs[i + 1..k]), NO_SEGMENT))
  }

  function GroupSoFar(segs: seq<Segment>, k: nat): Option<Group>
    requires k <= |segs|
  {
    match GroupStart(segs, k)
    case None => None
    case Some(u) => Some(Group(segs[u], EndedIn(segs, k, u, k - 1), NO_SEGMENT))
  }

  /** What has been assembled when the segment at k is read. */
  ghost function StateAt(said: seq<Diagnostic>, segs: seq<Segment>, k: nat): Assembly
    requires k <= |segs|
  {
    Assembly(LastOf(segs, UNB, k), LastOf(segs, UNZ, k), GroupsEnded(segs, k, k - 1), EndedIn(segs, k, -1, k - 1),
             said + FaultsBefore(segs, k), MessageSoFar(segs, k), GroupSoFar(segs, k))
  }

  lemma {:induction false} LastSeen(segs: seq<Segment>, kind: Kind, k: nat)
    requires k <= |segs| && kind != Body
    ensures LastOf(segs, kind, k).tag != "" <==> Seen(segs, kind, k)
  {
    if k > 0 {
      LastSeen(segs, kind, k - 1);
    }
  }

  /** The message that ends at k is the one so far, with its UNT if that is what ends it. */
  lemma MessageCompletes(segs: seq<Segment>, k: nat)
    requires k <= |segs| && EndsAt(segs, k)
    ensures MessageAt(segs, MessageStart(segs, k).value) == MessageSoFar(segs, k).value.(trailer := Closer(segs, k, UNT))
  {
    EndsHere(segs, MessageStart(segs, k).value, k);
  }

  /** The group that ends at k is the one so far, with the message that ends there too. */
  lemma GroupCompletes(segs: seq<Segment>, k: nat)
    requires k <= |segs| && GroupEndsAt(segs, k)
    ensures var g := GroupSoFar(segs, k).value;
            GroupAt(segs, GroupStart(segs, k).value)
            == g.(messages := g.messages + (if EndsAt(segs, k) then [MessageAt(segs, MessageStart(segs, k).value)] else []),
                  trailer := Closer(segs, k, UNE))
  {
    hide MessageAt, EndedIn;
    var u := GroupStart(segs, k).value;
    GroupEndsHere(segs, u, k);
    EndingAt(segs, |segs|, u, k);
  }

  function EndedAt(segs: seq<Segment>, k: nat): seq<Message>
    requires k <= |segs|
  {
    if EndsAt(segs, k) then [MessageSoFar(segs, k).value.(trailer := Closer(segs, k, UNT))] else []
  }

  function WithEnded(g: Group, ended: seq<Message>): Group {
    g.(messages := g.messages + ended)
  }

  function GroupEndedAt(segs: seq<Segment>, k: nat): seq<Group>
    requires k <= |segs|
  {
    if GroupEndsAt(segs, k)
    then [WithEnded(GroupSoFar(segs, k).value, EndedAt(segs, k)).(trailer := Closer(segs, k, UNE))]
    else []
  }

  lemma NextMessages(segs: seq<Segment>, lo: int, k: nat)
    requires k < |segs| && lo < k
    ensures EndedIn(segs, k + 1, lo, k) == EndedIn(segs, k, lo, k - 1) + EndedAt(segs, k)
  {
    hide EndedIn, MessageAt, MessageSoFar;
    EndingAt(segs, k + 1, lo, k);
    if EndsAt(segs, k) {
      MessageCompletes(segs, k);
    }
  }

  lemma GroupEndedIs(segs: seq<Segment>, k: nat)
    requires k <= |segs|
    ensures GroupEndedAt(segs, k) == if GroupEndsAt(segs, k) then [GroupAt(segs, GroupStart(segs, k).value)] else []
  {
    hide GroupAt, MessageAt, MessageSoFar, GroupSoFar;
    if GroupEndsAt(segs, k) {
      GroupCompletes(segs, k);
      if EndsAt(segs, k) {
        MessageCompletes(segs, k);
      }
    }
  }

  lemma NextGroups(segs: seq<Segment>, k: nat)
    requires k < |segs|
    ensures GroupsEnded(segs, k + 1, k) == GroupsEnded(segs, k, k - 1) + GroupEndedAt(segs, k)
  {
    hide GroupsEnded, GroupAt, GroupEndedAt;
    GroupEndingAt(segs, k + 1, k);
    GroupEndedIs(segs, k);
  }

  lemma NextMessageSoFar(segs: seq<Segment>, k: nat)
    requires k < |segs|
    ensures var s, m := segs[k], MessageSoFar(segs, k);
            MessageSoFar(segs, k + 1)
            == if KindOf(s.tag) == UNH then Some(Message(s, [], NO_SEGMENT))
               else if EndsMessage(s) || m.None? then None
               else if KindOf(s.tag) == Body then Some(m.value.(segments := m.value.segments + [s]))
               else m
  {
    var start := MessageStart(segs, k);
    if start.Some? {
      var i := start.value;
      assert segs[i + 1..k + 1] == segs[i + 1..k] + [segs[k]];
      assert segs[i + 1..k + 1][..k - i - 1] == segs[i + 1..k];
      assert Bodies(segs[i + 1..k]) + [] == Bodies(segs[i + 1..k]);
    }
    assert segs[k + 1..k + 1] == [];
  }

  lemma NextGroupSoFar(segs: seq<Segment>, k: nat)
    requires k < |segs|
    ensures var s, g := segs[k], GroupSoFar(segs, k);
            GroupSoFar(segs, k + 1)
            == if KindOf(s.tag) == UNG then Some(Group(s, [], NO_SEGMENT))
               else if EndsGroup(s) || g.None? then None
               else Some(WithEnded(g.value, EndedAt(segs, k)))
  {
    hide EndedIn, EndedAt;
    if KindOf(segs[k].tag) == UNG {
      EndedNowhere(segs, k + 1, k, k);
    } else if GroupStart(segs, k).Some? {
      NextMessages(segs, GroupStart(segs, k).value, k);
    }
  }

  lemma OpenShows(segs: seq<Segment>, k: nat)
    requires k <= |segs|
    ensures InMessage(segs, k) <==> MessageSoFar(segs, k).Some?
    ensures InGroup(segs, k) <==> GroupSoFar(segs, k).Some?
    ensures EndsAt(segs, k) <==> MessageSoFar(segs, k).Some? && (k < |segs| ==> EndsMessage(segs[k]))
    ensures GroupEndsAt(segs, k) <==> GroupSoFar(segs, k).Some? && (k < |segs| ==> EndsGroup(segs[k]))
  {
    InMessageIs(segs, k);
    InGroupIs(segs, k);
  }

  /** What reading a segment does, told by what it ends and starts. */
  ghost predicate Steps(a: Assembly, b: Assembly, s: Segment) {
    && b.header == (if KindOf(s.tag) == UNB then s else a.header)
    && b.trailer == (if KindOf(s.tag) == UNZ then s else a.trailer)
    && b.messages == a.messages + Finished(a, s)
    && b.groups == a.groups + FinishedGroups(a, s)
    && b.diags == a.diags + Faulted(a, s)
    && b.curMsg == (if KindOf(s.tag) == UNH then Some(Message(s, [], NO_SEGMENT))
                    else if EndsMessage(s) || a.curMsg.None? then None
                    else if KindOf(s.tag) == Body then Some(a.curMsg.value.(segments := a.curMsg.value.segments + [s]))
                    else a.curMsg)
    && b.curGroup == (if KindOf(s.tag) == UNG then Some(Group(s, [], NO_SEGMENT))
                      else if EndsGroup(s) || a.curGroup.None? then None
                      else Some(WithEnded(a.curGroup.value, Finished(a, s))))
  }

  function Finished(a: Assembly, s: Segment): seq<Message> {
    if a.curMsg.Some? && EndsMessage(s)
    then [a.curMsg.value.(trailer := if KindOf(s.tag) == UNT then s else NO_SEGMENT)]
    else []
  }

  function FinishedGroups(a: Assembly, s: Segment): seq<Group> {
    if a.curGroup.Some? && EndsGroup(s)
    then [WithEnded(a.curGroup.value, Finished(a, s)).(trailer := if KindOf(s.tag) == UNE then s else NO_SEGMENT)]
    else []
  }

  ghost function Faulted(a: Assembly, s: Segment): seq<Diagnostic> {
    match KindOf(s.tag)
    case UNB => Flag(a.header.tag != "", "duplicate_unb")
    case UNZ => Flag(a.curMsg.Some?, "missing_unt") + Flag(a.curGroup.Some?, "unclosed_ung")
    case UNG => Flag(a.curGroup.Some?, "nested_ung")
    case UNE => Flag(a.curMsg.Some?, "missing_unt") + Flag(a.curGroup.None?, "orphan_une")
    case UNH => Flag(a.curMsg.Some?, "unclosed_unh")
    case UNT => Flag(a.curMsg.None?, "orphan_unt")
    case Body => Flag(a.curMsg.None?, "segment_outside_message")
  }

  /** Where a message and a group may both end. */
  lemma PlaceEnds(a: Assembly, s: Segment)
    requires KindOf(s.tag) in {UNE, UNZ}
    ensures Steps(a, Place(a, s), s)
  {
    hide KindOf;
    assert a.diags + [] == a.diags && a.messages + [] == a.messages && a.groups + [] == a.groups;
    if a.curGroup.Some? {
      assert a.curGroup.value.messages + [] == a.curGroup.value.messages;
    }
  }

  lemma PlaceSteps(a: Assembly, s: Segment)
    ensures Steps(a, Place(a, s), s)
  {
    hide KindOf;
    if KindOf(s.tag) in {UNE, UNZ} {
      PlaceEnds(a, s);
    } else if KindOf(s.tag) in {UNH, UNT} {
      PlaceMessageEnds(a, s);
    } else {
      assert a.diags + [] == a.diags && a.messages + [] == a.messages && a.groups + [] == a.groups;
      if a.curGroup.Some? {
        assert a.curGroup.value.messages + [] == a.curGroup.value.messages;
      }
    }
  }

  lemma PlaceMessageEnds(a: Assembly, s: Segment)
    requires KindOf(s.tag) in {UNH, UNT}
    ensures Steps(a, Place(a, s), s)
  {
    hide KindOf;
    assert a.diags + [] == a.diags && a.messages + [] == a.messages && a.groups + [] == a.groups;
    if a.curGroup.Some? {
      assert a.curGroup.value.messages + [] == a.curGroup.value.messages;
    }
  }

  lemma StepsOnce(a: Assembly, b: Assembly, c: Assembly, s: Segment)
    requires Steps(a, b, s) && Steps(a, c, s)
    ensures b == c
  {
  }

  lemma FaultsAgree(said: seq<Diagnostic>, segs: seq<Segment>, k: nat)
    requires k < |segs|
    ensures FaultsAt(segs, k) == Faulted(StateAt(said, segs, k), segs[k])
  {
    hide EndedIn, GroupsEnded, MessageSoFar, GroupSoFar, EndsAt, GroupEndsAt, InMessage, InGroup, Seen, LastOf, FaultsBefore, KindOf;
    OpenShows(segs, k);
    LastSeen(segs, UNB, k);
  }

  lemma EndedAgree(said: seq<Diagnostic>, segs: seq<Segment>, k: nat)
    requires k < |segs|
    ensures EndedAt(segs, k) == Finished(StateAt(said, segs, k), segs[k])
    ensures GroupEndedAt(segs, k) == FinishedGroups(StateAt(said, segs, k), segs[k])
  {
    hide EndedIn, GroupsEnded, MessageSoFar, GroupSoFar, EndsAt, GroupEndsAt, InMessage, InGroup, LastOf, FaultsBefore, KindOf;
    OpenShows(segs, k);
  }

  lemma StateSteps(said: seq<Diagnostic>, segs: seq<Segment>, k: nat)
    requires k < |segs|
    ensures Steps(StateAt(said, segs, k), StateAt(said, segs, k + 1), segs[k])
  {
    hide EndedIn, GroupsEnded, MessageSoFar, GroupSoFar, EndedAt, GroupEndedAt, Finished, FinishedGroups, FaultsAt, Faulted, KindOf;
    NextMessages(segs, -1, k);
    NextGroups(segs, k);
    NextMessageSoFar(segs, k);
    NextGroupSoFar(segs, k);
    EndedAgree(said, segs, k);
    FaultsAgree(said, segs, k);
    assert said + FaultsBefore(segs, k + 1) == said + FaultsBefore(segs, k) + FaultsAt(segs, k);
  }

  lemma {:induction false} PlacedUpTo(said: seq<Diagnostic>, segs: seq<Segment>, k: nat)
    requires k <= |segs|
    ensures PlaceFrom(Start(said), segs[..k]) == StateAt(said, segs, k)
  {
    hide Place, Steps, StateAt;
    if k == 0 {
      StateAtStart(said, segs);
    } else {
      PlacedUpTo(said, segs, k - 1);
      assert segs[..k][..k - 1] == segs[..k - 1];
      var a := StateAt(said, segs, k - 1);
      PlaceSteps(a, segs[k - 1]);
      StateSteps(said, segs, k - 1);
      StepsOnce(a, Place(a, segs[k - 1]), StateAt(said, segs, k), segs[k - 1]);
    }
  }

  lemma StateAtStart(said: seq<Diagnostic>, segs: seq<Segment>)
    ensures PlaceFrom(Start(said), segs[..0]) == StateAt(said, segs, 0)
  {
    assert said + [] == said;
  }

  /** Settling closes what is open at the end, as its end says. */
  lemma SettleSteps(a: Assembly, ended: seq<Message>)
    requires ended == if a.curMsg.Some? then [a.curMsg.value.(trailer := NO_SEGMENT)] else []
    ensures var b := Settle(a);
            && b.header == a.header && b.trailer == a.trailer && b.curMsg.None? && b.curGroup.None?
            && b.messages == a.messages + ended
            && b.groups == a.groups + (if a.curGroup.Some? then [WithEnded(a.curGroup.value, ended).(trailer := NO_SEGMENT)] else [])
            && b.diags == a.diags + Flag(a.curMsg.Some?, "missing_unt") + Flag(a.curGroup.Some?, "missing_une")
  {
    assert a.diags + [] == a.diags && a.messages + [] == a.messages && a.groups + [] == a.groups;
    if a.curGroup.Some? {
      assert a.curGroup.value.messages + [] == a.curGroup.value.messages;
    }
  }

  lemma MessagesAtEnd(segs: seq<Segment>)
    ensures MessagesIn(segs) == EndedIn(segs, |segs|, -1, |segs| - 1) + EndedAt(segs, |segs|)
  {
    hide MessageAt, EndedIn, MessageSoFar;
    EveryMessageEnds(segs, |segs|);
    EndingAt(segs, |segs|, -1, |segs|);
    if EndsAt(segs, |segs|) {
      MessageCompletes(segs, |segs|);
    }
  }

  lemma GroupsAtEnd(segs: seq<Segment>)
    ensures GroupsIn(segs) == GroupsEnded(segs, |segs|, |segs| - 1) + GroupEndedAt(segs, |segs|)
  {
    hide GroupAt, GroupsEnded, GroupEndedAt, GroupStart, GroupEndsAt, GroupsIn, Places;
    GroupsInAreEnded(segs);
    GroupEndingAt(segs, |segs|, |segs|);
    GroupEndedIs(segs, |segs|);
  }

  lemma GroupsInAreEnded(segs: seq<Segment>)
    ensures GroupsIn(segs) == GroupsEnded(segs, |segs|, |segs|)
  {
    hide GroupAt, GroupsEnded, GroupsIn, Places;
    EveryGroupEnds(segs, |segs|);
  }

  lemma EndedAtEnd(segs: seq<Segment>)
    ensures var m, g, ended := MessageSoFar(segs, |segs|), GroupSoFar(segs, |segs|), EndedAt(segs, |segs|);
            && ended == (if m.Some? then [m.value.(trailer := NO_SEGMENT)] else [])
            && GroupEndedAt(segs, |segs|) == (if g.Some? then [WithEnded(g.value, ended).(trailer := NO_SEGMENT)] else [])
  {
    hide MessageSoFar, GroupSoFar, InMessage, InGroup;
    OpenShows(segs, |segs|);
  }

  lemma RemarksAtEnd(said: seq<Diagnostic>, segs: seq<Segment>)
    ensures var a := StateAt(said, segs, |segs|);
            said + FaultsIn(segs) == a.diags + Flag(a.curMsg.Some?, "missing_unt") + Flag(a.curGroup.Some?, "missing_une")
  {
    hide EndedIn, GroupsEnded, MessageSoFar, GroupSoFar, InMessage, InGroup, LastOf, FaultsBefore, Flag;
    OpenShows(segs, |segs|);
  }

  lemma StateSettles(said: seq<Diagnostic>, segs: seq<Segment>)
    ensures Settle(StateAt(said, segs, |segs|))
         == Assembly(LastOf(segs, UNB, |segs|), LastOf(segs, UNZ, |segs|), GroupsIn(segs), MessagesIn(segs),
                     said + FaultsIn(segs), None, None)
  {
    hide EndedIn, GroupsEnded, MessageSoFar, GroupSoFar, EndedAt, GroupEndedAt, MessagesIn, GroupsIn, Settle, LastOf,
         FaultsBefore, FaultsIn, Flag, WithEnded, Places;
    MessagesAtEnd(segs);
    GroupsAtEnd(segs);
    EndedAtEnd(segs);
    RemarksAtEnd(said, segs);
    SettleSteps(StateAt(said, segs, |segs|), EndedAt(segs, |segs|));
  }

  /** On any flat list: one message for each UNH, holding the body segments up to its
      end and its own UNT; one group for each UNG, holding the messages that end while
      it is open and its own UNE; the last UNB and the last UNZ; and one remark for
      each service segment that comes where it may not and each body segment outside
      messages, in order. */
  lemma AssembleByPosition(said: seq<Diagnostic>, segs: seq<Segment>)
    ensures Assemble(said, segs)
         == Assembly(LastOf(segs, UNB, |segs|), LastOf(segs, UNZ, |segs|), GroupsIn(segs), MessagesIn(segs),
                     said + FaultsIn(segs), None, None)
  {
    hide StateAt, Settle, Place, FaultsIn;
    var n := |segs|;
    assert segs[..n] == segs;
    PlacedUpTo(said, segs, n);
    StateSettles(said, segs);
  }

  // ---------------------------------------------------------------- groups and what is met in them

  /** The messages whose UNH is before k and lies between lo and hi. */
  function StartedIn(segs: seq<Segment>, k: nat, lo: int, hi: int): seq<Message>
    requires k <= |segs|
  {
    if k == 0 then []
    else
      StartedIn(segs, k - 1, lo, hi)
      + (if KindOf(segs[k - 1].tag) == UNH && lo < k - 1 < hi then [MessageAt(segs, k - 1)] else [])
  }

  predicate IsGroupHeader(segs: seq<Segment>, u: nat) {
    u < |segs| && KindOf(segs[u].tag) == UNG
  }

  /** A group that starts and ends between messages holds what starts in it. */
  lemma {:induction false} StartedIsEnded(segs: seq<Segment>, n: nat, u: nat)
    requires n <= |segs| && IsGroupHeader(segs, u) && !InMessage(segs, u)
    requires var v := GroupEnd(segs, u + 1); IsGroupHeader(segs, v) ==> !InMessage(segs, v)
    ensures var v := GroupEnd(segs, u + 1); EndedIn(segs, n, u, v) == StartedIn(segs, n, u, v)
  {
    hide MessageAt, MessageEnd, GroupEnd, InMessage;
    if n > 0 {
      StartedIsEnded(segs, n - 1, u);
      if KindOf(segs[n - 1].tag) == UNH {
        StartsWhereItEnds(segs, n - 1, u);
      }
    }
  }

  lemma StartsWhereItEnds(segs: seq<Segment>, i: nat, u: nat)
    requires i < |segs| && KindOf(segs[i].tag) == UNH && IsGroupHeader(segs, u) && !InMessage(segs, u)
    requires var v := GroupEnd(segs, u + 1); IsGroupHeader(segs, v) ==> !InMessage(segs, v)
    ensures var v := GroupEnd(segs, u + 1); u < i < v <==> u < MessageEnd(segs, i + 1) <= v
  {
    var v := GroupEnd(segs, u + 1);
    assert !OpenMessage(segs, i, u);
    if i < v {
      EndsByGroupEnd(segs, i, u);
    }
  }

  /** A message started before the end of a group ends by then, unless that end is a
      UNG inside it. */
  lemma EndsByGroupEnd(segs: seq<Segment>, i: nat, u: nat)
    requires i < |segs| && KindOf(segs[i].tag) == UNH && u < |segs| && i < GroupEnd(segs, u + 1)
    requires var v := GroupEnd(segs, u + 1); IsGroupHeader(segs, v) ==> !InMessage(segs, v)
    ensures MessageEnd(segs, i + 1) <= GroupEnd(segs, u + 1)
  {
    var v := GroupEnd(segs, u + 1);
    if MessageEnd(segs, i + 1) > v {
      assert OpenMessage(segs, i, v);
    }
  }

  /** A UNG inside a message starts a group that receives what it did not see start. */
  lemma {:induction false} ReceivesMore(segs: seq<Segment>, n: nat, u: nat, i: nat)
    requires n <= |segs| && IsGroupHeader(segs, u) && OpenMessage(segs, i, u)
    requires var v := GroupEnd(segs, u + 1); IsGroupHeader(segs, v) ==> !InMessage(segs, v)
    ensures var v := GroupEnd(segs, u + 1);
            |EndedIn(segs, n, u, v)| >= |StartedIn(segs, n, u, v)| + (if i < n then 1 else 0)
  {
    hide MessageAt, MessageEnd, GroupEnd, InMessage, OpenMessage;
    if n > 0 {
      ReceivesMore(segs, n - 1, u, i);
      if KindOf(segs[n - 1].tag) == UNH {
        StartedEnds(segs, n - 1, u);
      }
      if n - 1 == i {
        OpenedEnds(segs, u, i);
      }
    }
  }

  lemma StartedEnds(segs: seq<Segment>, i: nat, u: nat)
    requires i < |segs| && KindOf(segs[i].tag) == UNH && IsGroupHeader(segs, u)
    requires var v := GroupEnd(segs, u + 1); IsGroupHeader(segs, v) ==> !InMessage(segs, v)
    ensures var v := GroupEnd(segs, u + 1); u < i < v ==> u < MessageEnd(segs, i + 1) <= v
  {
    if u < i < GroupEnd(segs, u + 1) {
      EndsByGroupEnd(segs, i, u);
    }
  }

  lemma OpenedEnds(segs: seq<Segment>, u: nat, i: nat)
    requires IsGroupHeader(segs, u) && OpenMessage(segs, i, u)
    requires var v := GroupEnd(segs, u + 1); IsGroupHeader(segs, v) ==> !InMessage(segs, v)
    ensures KindOf(segs[i].tag) == UNH && i < u < MessageEnd(segs, i + 1) <= GroupEnd(segs, u + 1)
  {
    assert !EndsMessage(segs[u]);
    EndsByGroupEnd(segs, i, u);
  }

  /** Among the UNGs inside messages, one starts a group that is not what it saw start. */
  lemma {:induction false} NestedDiffers(segs: seq<Segment>, u: nat) returns (w: nat)
    requires IsGroupHeader(segs, u) && InMessage(segs, u)
    ensures IsGroupHeader(segs, w)
    ensures GroupAt(segs, w).messages != StartedIn(segs, |segs|, w, GroupEnd(segs, w + 1))
    decreases |segs| - u
  {
    hide GroupEnd, StartedIn, EndedIn, Closer;
    var v := GroupEnd(segs, u + 1);
    if IsGroupHeader(segs, v) && InMessage(segs, v) {
      w := NestedDiffers(segs, v);
    } else {
      w := u;
      var i: nat :| OpenMessage(segs, i, u);
      ReceivesMore(segs, |segs|, u, i);
    }
  }

  /** Every group holds exactly the messages whose UNH lies between its UNG and its end,
      if and only if no UNG comes inside a message. A message open at a UNG goes to the
      group it ends in. */
  lemma GroupsHoldWhatStartsInThem(segs: seq<Segment>)
    ensures (forall u: nat | IsGroupHeader(segs, u) ::
               GroupAt(segs, u).messages == StartedIn(segs, |segs|, u, GroupEnd(segs, u + 1)))
       <==> forall u: nat | IsGroupHeader(segs, u) :: !InMessage(segs, u)
  {
    if u: nat :| IsGroupHeader(segs, u) && InMessage(segs, u) {
      var w := NestedDiffers(segs, u);
    } else {
      forall u: nat | IsGroupHeader(segs, u)
        ensures GroupAt(segs, u).messages == StartedIn(segs, |segs|, u, GroupEnd(segs, u + 1))
      {
        StartedIsEnded(segs, |segs|, u);
      }
    }
  }

  const STRADDLING := [Segment("UNH", []), Segment("UNG", []), Segment("UNT", []), Segment("UNE", [])]

  /** A list where they differ. */
  lemma MessageOpenAtGroup()
    ensures IsGroupHeader(STRADDLING, 1) && InMessage(STRADDLING, 1)
  {
    assert OpenMessage(STRADDLING, 0, 1);
  }
}
