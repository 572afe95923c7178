/** Conversation messages and the histories a strict provider accepts. */
module Messages {

  datatype Role = System | User | Assistant | Tool | Other

  /** A stored message: a tool call is represented by its id, and content is a string of bytes. */
  datatype Message = Message(
    role: Role, content: string, toolCalls: seq<string>, toolCallId: string, media: seq<string>)
  {
    predicate CallsTools() {
      role == Assistant && toolCalls != []
    }

    /** Neither a system message nor a part of a tool exchange. */
    predicate Plain() {
      role != System && role != Tool && !CallsTools()
    }
  }

  /** The number of tool messages a history opens with. */
  function ToolRun(h: seq<Message>): (n: nat)
    ensures n <= |h|
    ensures forall i | 0 <= i < n :: h[i].role == Tool
    ensures n < |h| ==> h[n].role != Tool
  {
    if h == [] || h[0].role != Tool then 0 else 1 + ToolRun(h[1..])
  }

  function ResultIds(results: seq<Message>): (ids: seq<string>)
    ensures |ids| == |results|
    ensures forall i | 0 <= i < |ids| :: ids[i] == results[i].toolCallId
  {
    if results == [] then [] else [results[0].toolCallId] + ResultIds(results[1..])
  }

  predicate Distinct<T(==)>(s: seq<T>) {
    forall i, j | 0 <= i < j < |s| :: s[i] != s[j]
  }

  /** The results answer the calls: ids are non-empty, pairwise distinct, and exactly the ids called. */
  predicate Answered(calls: seq<string>, results: seq<Message>) {
    var ids := ResultIds(results);
    && Distinct(ids)
    && "" !in ids
    && (forall id | id in calls :: id in ids)
    && (forall id | id in ids :: id in calls)
  }

  /** What the message at index i of a well-formed history must satisfy. */
  predicate WellPlaced(h: seq<Message>, i: nat)
    requires i < |h|
  {
    && h[i].role != System
    && (h[i].CallsTools() ==>
          && i > 0 && h[i-1].role in {User, Tool}
          && Answered(h[i].toolCalls, h[i+1..][..ToolRun(h[i+1..])]))
    && (h[i].role == Tool ==> i > 0 && (h[i-1].role == Tool || h[i-1].CallsTools()))
  }

  predicate WellFormed(h: seq<Message>) {
    forall i | 0 <= i < |h| :: WellPlaced(h, i)
  }

  /** What the last message kept so far allows next. */
  datatype Tail = Nothing | AfterUser | AfterCall | AfterResult | AfterOther

  function TailAfter(m: Message): Tail {
    if m.role == User then AfterUser
    else if m.CallsTools() then AfterCall
    else if m.role == Tool then AfterResult
    else AfterOther
  }

  function TailOf(h: seq<Message>): Tail {
    if h == [] then Nothing else TailAfter(h[|h|-1])
  }

  /** Well-formedness decided group by group from the left. */
  predicate Scan(t: Tail, h: seq<Message>)
    decreases |h|
  {
    h == [] ||
    var m := h[0];
    if m.CallsTools() then
      var n := ToolRun(h[1..]);
      t in {AfterUser, AfterResult} && Answered(m.toolCalls, h[1..][..n]) && Scan(AfterResult, h[1..][n..])
    else
      m.Plain() && Scan(TailAfter(m), h[1..])
  }

  lemma ToolRunSplit(h: seq<Message>, n: nat)
    requires n <= |h|
    requires forall i | 0 <= i < n :: h[i].role == Tool
    requires n < |h| ==> h[n].role != Tool
    ensures ToolRun(h) == n
  {
  }

  /** Every message from index k on is well placed. */
  predicate PlacedFrom(h: seq<Message>, k: nat) {
    forall i | k <= i < |h| :: WellPlaced(h, i)
  }

  /** Placement of a message depends only on its predecessor and what follows it. */
  lemma PlacedFromShift(h: seq<Message>, k: nat)
    requires k < |h|
    ensures PlacedFrom(h[k..], 1) <==> PlacedFrom(h, k + 1)
  {
    forall i | 1 <= i < |h| - k
      ensures WellPlaced(h[k..], i) <==> WellPlaced(h, k + i)
    {
      assert h[k..][i+1..] == h[k+i+1..];
      assert h[k..][i] == h[k+i] && h[k..][i-1] == h[k+i-1];
    }
    if PlacedFrom(h[k..], 1) {
      forall i | k + 1 <= i < |h| ensures WellPlaced(h, i) {
        assert WellPlaced(h[k..], i - k);
      }
    }
  }

  /** Results right after a call, or after another result, are well placed. */
  lemma RunIsPlaced(p: Message, m: Message, t: seq<Message>)
    requires m.CallsTools() && !p.CallsTools()
    ensures var n := ToolRun(t); var g := [p, m] + t;
      WellPlaced(g, 1) <==> p.role in {User, Tool} && Answered(m.toolCalls, t[..n])
    ensures forall i | 2 <= i < 2 + ToolRun(t) :: WellPlaced([p, m] + t, i)
  {
    var g := [p, m] + t;
    assert g[2..] == t;
    forall i | 2 <= i < 2 + ToolRun(t) ensures WellPlaced(g, i) {
      assert g[i] == t[i-2];
      if i > 2 { assert g[i-1] == t[i-3]; }
    }
  }

  /** A group is placed when its call is, and what comes after its results. */
  lemma GroupIsPlaced(p: Message, m: Message, t: seq<Message>)
    requires m.CallsTools() && !p.CallsTools()
    ensures var g := [p, m] + t;
      PlacedFrom(g, 1) <==> WellPlaced(g, 1) && PlacedFrom(g, ToolRun(t) + 2)
  {
    RunIsPlaced(p, m, t);
  }

  lemma CallIsPlaced(p: Message, m: Message, t: seq<Message>)
    requires m.CallsTools() && !p.CallsTools()
    ensures WellPlaced([p, m] + t, 1) <==> p.role in {User, Tool} && Answered(m.toolCalls, t[..ToolRun(t)])
  {
    RunIsPlaced(p, m, t);
  }

  lemma PlacedAfterGroup(p: Message, m: Message, t: seq<Message>)
    requires ToolRun(t) > 0
    ensures var n := ToolRun(t); PlacedFrom([t[n-1]] + t[n..], 1) <==> PlacedFrom([p, m] + t, n + 2)
  {
    var n, g := ToolRun(t), [p, m] + t;
    assert [t[n-1]] + t[n..] == g[n+1..];
    PlacedFromShift(g, n + 1);
  }

  lemma ScannedGroupIsPlaced(p: Message, m: Message, t: seq<Message>)
    requires m.CallsTools() && !p.CallsTools() && ToolRun(t) > 0
    requires var n := ToolRun(t); Scan(AfterResult, t[n..]) <==> PlacedFrom([t[n-1]] + t[n..], 1)
    ensures Scan(TailAfter(p), [m] + t) <==> PlacedFrom([p, m] + t, 1)
  {
    CallIsPlaced(p, m, t);
    GroupIsPlaced(p, m, t);
    PlacedAfterGroup(p, m, t);
    assert ([m] + t)[1..] == t;
  }

  lemma UnansweredCall(p: Message, m: Message, t: seq<Message>)
    requires m.CallsTools() && !p.CallsTools() && ToolRun(t) == 0
    ensures !Scan(TailAfter(p), [m] + t) && !PlacedFrom([p, m] + t, 1)
  {
    RunIsPlaced(p, m, t);
    assert !Answered(m.toolCalls, t[..0]) by { assert m.toolCalls[0] in m.toolCalls; }
    assert ([m] + t)[1..] == t;
    assert !WellPlaced([p, m] + t, 1);
  }

  lemma PlainIsPlaced(p: Message, m: Message, t: seq<Message>)
    requires m.Plain() && (t == [] || t[0].role != Tool)
    requires Scan(TailAfter(m), t) <==> PlacedFrom([m] + t, 1)
    ensures Scan(TailAfter(p), [m] + t) <==> PlacedFrom([p, m] + t, 1)
  {
    var g := [p, m] + t;
    assert [m] + t == g[1..] && ([m] + t)[1..] == t;
    PlacedFromShift(g, 1);
    assert WellPlaced(g, 1);
    assert PlacedFrom(g, 1) <==> PlacedFrom(g, 2);
  }

  lemma MisplacedAfterPlain(p: Message, m: Message, t: seq<Message>)
    requires !m.CallsTools() && (!m.Plain() || (t != [] && t[0].role == Tool))
    requires m.role == Tool ==> p.role != Tool && !p.CallsTools()
    ensures !Scan(TailAfter(p), [m] + t) && !PlacedFrom([p, m] + t, 1)
  {
    var g := [p, m] + t;
    assert ([m] + t)[1..] == t;
    if m.Plain() {
      assert !WellPlaced(g, 2);
    } else {
      assert !WellPlaced(g, 1);
    }
  }

  /** The scan started after p decides exactly the placement of h's messages in [p] + h. */
  lemma {:induction false} ScanIsPlacement(p: Message, h: seq<Message>)
    requires h == [] || h[0].role != Tool || !(p.role == Tool || p.CallsTools())
    requires !p.CallsTools()
    ensures Scan(TailAfter(p), h) <==> PlacedFrom([p] + h, 1)
    decreases |h|
  {
    if h != [] {
      var m, t := h[0], h[1..];
      assert h == [m] + t && [p] + h == [p, m] + t;
      if m.CallsTools() {
        var n := ToolRun(t);
        if n > 0 {
          ScanIsPlacement(t[n-1], t[n..]);
          ScannedGroupIsPlaced(p, m, t);
        } else {
          UnansweredCall(p, m, t);
        }
      } else if !m.Plain() || (t != [] && t[0].role == Tool) {
        MisplacedAfterPlain(p, m, t);
      } else {
        ScanIsPlacement(m, t);
        PlainIsPlaced(p, m, t);
      }
    }
  }

  /** The two definitions of well-formedness agree on every history. */
  lemma WellFormedIsScan(h: seq<Message>)
    ensures WellFormed(h) <==> Scan(Nothing, h)
  {
    if h != [] {
      var m := h[0];
      if m.CallsTools() || m.role == Tool {
        assert !WellPlaced(h, 0);
      } else {
        ScanIsPlacement(m, h[1..]);
        assert [m] + h[1..] == h;
        assert WellFormed(h) <==> WellPlaced(h, 0) && PlacedFrom(h, 1);
        assert WellPlaced(h, 0) <==> m.Plain();
      }
    }
  }

  /** Equal in everything but content and media. */
  predicate SameShape(a: seq<Message>, b: seq<Message>) {
    |a| == |b| &&
    forall i | 0 <= i < |a| ::
      a[i].role == b[i].role && a[i].toolCalls == b[i].toolCalls && a[i].toolCallId == b[i].toolCallId
  }

  lemma {:induction false} ShapeDecidesScan(t: Tail, a: seq<Message>, b: seq<Message>)
    requires SameShape(a, b) && Scan(t, a)
    ensures Scan(t, b)
    decreases |a|
  {
    if a != [] {
      if a[0].CallsTools() {
        var n := ToolRun(a[1..]);
        ToolRunSplit(b[1..], n);
        assert ResultIds(a[1..][..n]) == ResultIds(b[1..][..n]);
        ShapeDecidesScan(AfterResult, a[1..][n..], b[1..][n..]);
      } else {
        ShapeDecidesScan(TailAfter(a[0]), a[1..], b[1..]);
      }
    }
  }

  /** Contents and media have no part in well-formedness. */
  lemma ShapeDecidesWellFormed(a: seq<Message>, b: seq<Message>)
    requires SameShape(a, b) && WellFormed(a)
    ensures WellFormed(b)
  {
    WellFormedIsScan(a);
    ShapeDecidesScan(Nothing, a, b);
    WellFormedIsScan(b);
  }
}
