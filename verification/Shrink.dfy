/** Halving the largest tool result, in place, until a request fits. */
module Shrink {
  import opened Messages

  const MIN_SHRUNK_TOOL_RESULT_BYTES := 2048

  /** How often a result of the given length can be cut: the cuts it takes to halve it down to the minimum. */
  function CutBound(length: nat): nat {
    if length <= MIN_SHRUNK_TOOL_RESULT_BYTES then 0 else 1 + CutBound((length + 1) / 2)
  }

  function Pow2(k: nat): nat {
    if k == 0 then 1 else 2 * Pow2(k - 1)
  }

  /** CutBound is ceil(log2(length / 2048)): the least exponent whose power of two times 2048 reaches the length. */
  lemma {:induction false} CutBoundIsLog2(length: nat, k: nat)
    ensures CutBound(length) <= k <==> length <= MIN_SHRUNK_TOOL_RESULT_BYTES * Pow2(k)
    decreases k
  {
    if k > 0 && length > MIN_SHRUNK_TOOL_RESULT_BYTES {
      CutBoundIsLog2((length + 1) / 2, k - 1);
    } else if k > 0 {
      Pow2Positive(k);
    }
  }

  lemma Pow2Positive(k: nat)
    ensures Pow2(k) >= 1
  {
  }

  lemma {:induction false} CutBoundMonotone(a: nat, b: nat)
    requires a <= b
    ensures CutBound(a) <= CutBound(b)
  {
    CutBoundIsLog2(b, CutBound(b));
    CutBoundIsLog2(a, CutBound(b));
  }

  function CutTarget(length: nat): nat {
    if length / 2 < MIN_SHRUNK_TOOL_RESULT_BYTES then MIN_SHRUNK_TOOL_RESULT_BYTES else length / 2
  }

  /** A cut to the target uses up at least one of the cuts a result admits. */
  lemma CutSpendsBound(length: nat, cut: nat)
    requires length > MIN_SHRUNK_TOOL_RESULT_BYTES && cut <= CutTarget(length)
    ensures CutBound(cut) < CutBound(length)
  {
    CutBoundMonotone(cut, CutTarget(length));
    if length / 2 >= MIN_SHRUNK_TOOL_RESULT_BYTES {
      CutBoundMonotone(length / 2, (length + 1) / 2);
    }
  }

  /** Whether the rebuilt prompt fits, and how a result is bounded: by a string no longer than asked for. */
  datatype Request = Request(fits: seq<Message> -> bool, bound: (string, nat) -> string)
  {
    predicate Fits(ms: seq<Message>) {
      fits(ms)
    }

    function Bound(content: string, n: nat): string {
      bound(content, n)
    }

    ghost predicate Bounds() {
      forall content, n :: |Bound(content, n)| <= n
    }

    function Shortened(m: Message): Message {
      m.(content := Bound(m.content, CutTarget(|m.content|)))
    }
  }

  predicate Shrinkable(m: Message) {
    m.role == Tool && |m.content| > MIN_SHRUNK_TOOL_RESULT_BYTES
  }

  /** The cuts the tool results of a request admit altogether. */
  function TotalCutBound(ms: seq<Message>): nat {
    if ms == [] then 0
    else (if ms[0].role == Tool then CutBound(|ms[0].content|) else 0) + TotalCutBound(ms[1..])
  }

  lemma {:induction false} TotalCutBoundUpdate(ms: seq<Message>, i: nat, m: Message)
    requires i < |ms| && ms[i].role == Tool && m.role == Tool
    ensures TotalCutBound(ms[i := m])
      == TotalCutBound(ms) - CutBound(|ms[i].content|) + CutBound(|m.content|)
  {
    if i > 0 {
      TotalCutBoundUpdate(ms[1..], i - 1, m);
      assert ms[i := m][1..] == ms[1..][i - 1 := m];
    } else {
      assert ms[i := m][1..] == ms[1..];
    }
  }

  /** The messages differ at most in the contents of tool results, and those never grow. */
  predicate OnlyResultsShrank(before: seq<Message>, after: seq<Message>) {
    |before| == |after| &&
    forall i | 0 <= i < |before| ::
      || after[i] == before[i]
      || (Shrinkable(before[i]) && after[i] == before[i].(content := after[i].content)
          && |after[i].content| < |before[i].content|)
  }

  /** Shrinking leaves a well-formed history well-formed. */
  lemma ShrinkingKeepsWellFormed(before: seq<Message>, after: seq<Message>)
    requires OnlyResultsShrank(before, after) && WellFormed(before)
    ensures WellFormed(after)
  {
    assert SameShape(before, after);
    ShapeDecidesWellFormed(before, after);
  }

  /** The first of the longest results that can be cut. */
  predicate LargestShrinkable(ms: seq<Message>, i: nat) {
    && i < |ms| && Shrinkable(ms[i])
    && (forall k | 0 <= k < |ms| && Shrinkable(ms[k]) :: |ms[k].content| <= |ms[i].content|)
    && (forall k | 0 <= k < i && Shrinkable(ms[k]) :: |ms[k].content| < |ms[i].content|)
  }

  method FindLargest(messages: array<Message>) returns (largest: int)
    ensures largest < 0 ==> forall m | m in messages[..] :: !Shrinkable(m)
    ensures largest >= 0 ==> LargestShrinkable(messages[..], largest)
  {
    largest := -1;
    for i := 0 to messages.Length
      invariant largest < 0 ==> forall k | 0 <= k < i :: !Shrinkable(messages[k])
      invariant largest >= 0 ==> LargestShrinkable(messages[..i], largest)
    {
      if messages[i].role != Tool || |messages[i].content| <= MIN_SHRUNK_TOOL_RESULT_BYTES {
        continue;
      }
      if largest < 0 || |messages[i].content| > |messages[largest].content| {
        largest := i;
      }
    }
  }

  /** One cut: the largest result is replaced by what the bounding function makes of it. */
  ghost predicate Cut(req: Request, before: seq<Message>, after: seq<Message>) {
    exists i: nat :: LargestShrinkable(before, i) && after == before[i := req.Shortened(before[i])]
  }

  lemma CutProgress(req: Request, before: seq<Message>, i: nat)
    requires req.Bounds() && LargestShrinkable(before, i)
    ensures var after := before[i := req.Shortened(before[i])];
      && Cut(req, before, after)
      && OnlyResultsShrank(before, after)
      && TotalCutBound(after) < TotalCutBound(before)
  {
    var shorter := req.Shortened(before[i]);
    CutSpendsBound(|before[i].content|, |shorter.content|);
    TotalCutBoundUpdate(before, i, shorter);
  }

  lemma ShrankTransitive(a: seq<Message>, b: seq<Message>, c: seq<Message>)
    requires OnlyResultsShrank(a, b) && OnlyResultsShrank(b, c)
    ensures OnlyResultsShrank(a, c)
  {
  }

  /** The i-th cut of a trace: it is made because the messages do not fit. */
  ghost predicate CutAt(req: Request, trace: seq<seq<Message>>, i: nat)
    requires i + 1 < |trace|
  {
    !req.Fits(trace[i]) && Cut(req, trace[i], trace[i+1])
  }

  /** The messages before, between and after the cuts. */
  ghost predicate IsTrace(req: Request, trace: seq<seq<Message>>) {
    trace != [] && forall i: nat | i + 1 < |trace| :: CutAt(req, trace, i)
  }

  /**
   * Everything the loop keeps: the trace leads from the messages as they were to the messages as they are, one cut at a
   * time, none made once they fitted; only contents of tool results changed; and the cuts made are among those the
   * results admit.
   */
  ghost predicate Progress(req: Request, trace: seq<seq<Message>>, before: seq<Message>, n: nat, after: seq<Message>) {
    && IsTrace(req, trace) && |trace| == n + 1 && trace[0] == before && trace[n] == after
    && OnlyResultsShrank(before, after)
    && n + TotalCutBound(after) <= TotalCutBound(before)
  }

  lemma TraceGrows(req: Request, trace: seq<seq<Message>>, after: seq<Message>)
    requires IsTrace(req, trace) && !req.Fits(trace[|trace|-1]) && Cut(req, trace[|trace|-1], after)
    ensures IsTrace(req, trace + [after])
  {
    forall i: nat | i + 1 < |trace + [after]| ensures CutAt(req, trace + [after], i) {
      assert i + 1 < |trace| ==> CutAt(req, trace, i);
    }
  }

  lemma ProgressStep(req: Request, trace: seq<seq<Message>>, before: seq<Message>, n: nat, mid: seq<Message>, largest: nat)
    requires req.Bounds() && Progress(req, trace, before, n, mid) && !req.Fits(mid) && LargestShrinkable(mid, largest)
    ensures n < TotalCutBound(before)
    ensures var after := mid[largest := req.Shortened(mid[largest])];
      Progress(req, trace + [after], before, n + 1, after)
  {
    var after := mid[largest := req.Shortened(mid[largest])];
    CutProgress(req, mid, largest);
    TraceGrows(req, trace, after);
    ShrankTransitive(before, mid, after);
  }

  method CutResult(messages: array<Message>, largest: nat, req: Request)
    requires largest < messages.Length
    modifies messages
    ensures messages[..] == old(messages[..])[largest := req.Shortened(old(messages[largest]))]
  {
    var target := |messages[largest].content| / 2;
    if target < MIN_SHRUNK_TOOL_RESULT_BYTES {
      target := MIN_SHRUNK_TOOL_RESULT_BYTES;
    }
    messages[largest] := messages[largest].(content := req.Bound(messages[largest].content, target));
  }

  lemma NoCutYet(req: Request, ms: seq<Message>)
    ensures Progress(req, [ms], ms, 0, ms)
  {
  }

  /** One round of the loop: the largest result is cut, or there is none to cut. */
  method CutLargest(messages: array<Message>, req: Request,
                    ghost trace: seq<seq<Message>>, ghost before: seq<Message>, ghost cuts: nat)
    returns (cut: bool)
    requires req.Bounds() && Progress(req, trace, before, cuts, messages[..]) && !req.Fits(messages[..])
    modifies messages
    ensures !cut ==> messages[..] == old(messages[..]) && forall m | m in messages[..] :: !Shrinkable(m)
    ensures cut ==> Progress(req, trace + [messages[..]], before, cuts + 1, messages[..]) && cuts < TotalCutBound(before)
  {
    var largest := FindLargest(messages);
    if largest < 0 {
      return false;
    }
    ProgressStep(req, trace, before, cuts, messages[..], largest);
    CutResult(messages, largest, req);
    return true;
  }

  method ShrinkToolResultsToFit(messages: array<Message>, req: Request)
    returns (cuts: nat, ok: bool, ghost trace: seq<seq<Message>>)
    requires req.Bounds()
    modifies messages
    ensures ok <==> req.Fits(messages[..])
    ensures !ok ==> forall m | m in messages[..] :: !Shrinkable(m)
    ensures Progress(req, trace, old(messages[..]), cuts, messages[..])
  {
    ghost var before, limit := messages[..], TotalCutBound(messages[..]);
    cuts, trace := 0, [before];
    NoCutYet(req, before);
    var fits := req.Fits(messages[..]);
    while !fits
      invariant fits == req.Fits(messages[..])
      invariant Progress(req, trace, before, cuts, messages[..]) && cuts <= limit
      decreases limit - cuts
    {
      var cut := CutLargest(messages, req, trace, before, cuts);
      if !cut {
        return cuts, false, trace;
      }
      cuts, trace := cuts + 1, trace + [messages[..]];
      fits := req.Fits(messages[..]);
    }
    return cuts, true, trace;
  }

  // ---------------------------------------------------------------- what a cut asks for

  /** The size asked for is the least one from 2048 bytes on that is at least half of what was there. */
  lemma TargetIsHalf(length: nat, size: nat)
    ensures size >= CutTarget(length) <==> size >= 2048 && 2 * size + 1 >= length
  {
  }

  /** A bounding function that keeps as much as it may leaves half of the largest result, and at least 2048 bytes. */
  lemma CutKeepsHalf(req: Request, before: seq<Message>, after: seq<Message>)
    requires Cut(req, before, after) && forall content, n: nat :: n <= |content| ==> |req.Bound(content, n)| == n
    ensures |before| == |after|
    ensures forall k | 0 <= k < |before| ::
      after[k] == before[k] || (|after[k].content| >= 2048 && 2 * |after[k].content| + 1 >= |before[k].content|)
  {
    var i: nat :| LargestShrinkable(before, i) && after == before[i := req.Shortened(before[i])];
    TargetIsHalf(|before[i].content|, CutTarget(|before[i].content|));
    TargetIsHalf(|before[i].content|, |before[i].content|);
  }

  /** Only tool results of more than 2048 bytes are ever touched, and when shrinking fails, none is left. */
  lemma OnlyLongResultsAreTouched(before: seq<Message>, after: seq<Message>)
    requires OnlyResultsShrank(before, after)
    ensures forall i | 0 <= i < |before| :: after[i] != before[i] ==> before[i].role == Tool && |before[i].content| > 2048
    ensures (forall m | m in after :: !Shrinkable(m)) ==>
      forall m | m in after && m.role == Tool :: |m.content| <= 2048
  {
  }
}
