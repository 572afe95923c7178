/** Resolving media references: images of tool results follow their block as a synthetic user message. */
module Media {
  import opened Options
  import opened Messages
  import opened Seqs
  import opened SanitizeLaws

  /** What the store makes of a reference; dataUrl is empty for what is not an image or cannot be encoded. */
  datatype Resolution = NotMedia | Unresolved | Found(tag: string, dataUrl: string)

  datatype MediaStore = MediaStore(lookup: string -> Resolution, injectTags: (string, seq<string>) -> string)

  function KeptRefs(store: MediaStore, refs: seq<string>): seq<string> {
    if refs == [] then []
    else (if store.lookup(refs[0]).NotMedia? then [refs[0]] else []) + KeptRefs(store, refs[1..])
  }

  function Tags(store: MediaStore, refs: seq<string>): seq<string> {
    if refs == [] then []
    else (if store.lookup(refs[0]).Found? then [store.lookup(refs[0]).tag] else []) + Tags(store, refs[1..])
  }

  function Images(store: MediaStore, refs: seq<string>): seq<string> {
    if refs == [] then []
    else
      var r := store.lookup(refs[0]);
      (if r.Found? && r.dataUrl != "" then [r.dataUrl] else []) + Images(store, refs[1..])
  }

  function Resolved(store: MediaStore, m: Message): Message {
    var tags := Tags(store, m.media);
    m.(media := KeptRefs(store, m.media), content := if tags == [] then m.content else store.injectTags(m.content, tags))
  }

  /** A message as it goes out, with the images it contributes: those of a tool result of the current turn. */
  datatype Entry = Entry(message: Message, images: seq<string>)

  function EntryOf(store: MediaStore, m: Message, current: bool): Entry {
    Entry(Resolved(store, m), if m.role == Tool && current then Images(store, m.media) else [])
  }

  function Entries(store: MediaStore, ms: seq<Message>, turnStart: int): (es: seq<Entry>)
    ensures |es| == |ms|
    ensures forall i | 0 <= i < |ms| :: es[i] == EntryOf(store, ms[i], i >= turnStart)
  {
    seq(|ms|, i requires 0 <= i < |ms| => EntryOf(store, ms[i], i >= turnStart))
  }

  function MessagesIn(es: seq<Entry>): seq<Message> {
    if es == [] then [] else [es[0].message] + MessagesIn(es[1..])
  }

  function AllImages(es: seq<Entry>): seq<string> {
    if es == [] then [] else es[0].images + AllImages(es[1..])
  }

  /** The output, telling apart what came in from what was added. */
  datatype Item = Original(message: Message) | FollowUp(images: seq<string>)
  {
    function Rendered(): Message {
      match this
      case Original(m) => m
      case FollowUp(images) => FollowUpMessage(images)
    }

    predicate IsResult() {
      Original? && message.role == Tool
    }
  }

  function FollowUpMessage(images: seq<string>): Message {
    Message(User, "[Loaded image from tool result above]", [], "", images)
  }

  function Render(items: seq<Item>): (ms: seq<Message>)
    ensures |ms| == |items|
    ensures forall i | 0 <= i < |ms| :: ms[i] == items[i].Rendered()
  {
    if items == [] then [] else [items[0].Rendered()] + Render(items[1..])
  }

  function Originals(items: seq<Item>): seq<Message> {
    if items == [] then []
    else if items[0].Original? then [items[0].message] + Originals(items[1..])
    else Originals(items[1..])
  }

  function Shown(items: seq<Item>): seq<string> {
    if items == [] then []
    else (if items[0].FollowUp? then items[0].images else []) + Shown(items[1..])
  }

  function Flush(pending: seq<string>): seq<Item> {
    if pending == [] then [] else [FollowUp(pending)]
  }

  /** What an entry adds to the output while the images in pending wait for their block to end. */
  function Step(e: Entry, pending: seq<string>): seq<Item> {
    (if e.message.role != Tool then Flush(pending) else []) + [Original(e.message)]
  }

  /** The images that wait after an entry. */
  function Waiting(e: Entry, pending: seq<string>): seq<string> {
    (if e.message.role != Tool then [] else pending) + e.images
  }

  function Items(es: seq<Entry>, pending: seq<string>): seq<Item>
    decreases |es|
  {
    if es == [] then Flush(pending) else Step(es[0], pending) + Items(es[1..], Waiting(es[0], pending))
  }

  function NormalizedTurnStart(ms: seq<Message>, turnStart: int): nat {
    if turnStart < 0 then 0 else if turnStart > |ms| then |ms| else turnStart
  }

  // ---------------------------------------------------------------- the imperative form

  lemma RenderConcat(a: seq<Item>, b: seq<Item>)
    ensures Render(a + b) == Render(a) + Render(b)
  {
  }

  /** What is collected from some references, and what the others still add. */
  predicate Collecting(collected: seq<string>, rest: seq<string>, all: seq<string>) {
    collected + rest == all
  }

  lemma RefStep(store: MediaStore, refs: seq<string>, n: nat)
    requires n < |refs|
    ensures var r := store.lookup(refs[n]);
      && KeptRefs(store, refs[n..]) == (if r.NotMedia? then [refs[n]] else []) + KeptRefs(store, refs[n+1..])
      && Tags(store, refs[n..]) == (if r.Found? then [r.tag] else []) + Tags(store, refs[n+1..])
      && Images(store, refs[n..]) == (if r.Found? && r.dataUrl != "" then [r.dataUrl] else []) + Images(store, refs[n+1..])
  {
    assert refs[n..][1..] == refs[n+1..];
  }

  lemma CollectOne(collected: seq<string>, more: seq<string>, rest: seq<string>, all: seq<string>)
    requires Collecting(collected, more + rest, all)
    ensures Collecting(collected + more, rest, all)
  {
    Assoc(collected, more, rest);
  }

  method ResolveRef(store: MediaStore, ref: string, shows: bool)
    returns (kept: seq<string>, tags: seq<string>, images: seq<string>)
    ensures var r := store.lookup(ref);
      && kept == (if r.NotMedia? then [ref] else [])
      && tags == (if r.Found? then [r.tag] else [])
      && images == (if shows && r.Found? && r.dataUrl != "" then [r.dataUrl] else [])
  {
    kept, tags, images := [], [], [];
    match store.lookup(ref) {
      case NotMedia =>
        kept := [ref];
      case Unresolved =>
      case Found(tag, dataUrl) =>
        tags := [tag];
        if shows {
          if dataUrl != "" {
            images := [dataUrl];
          }
        }
    }
  }

  method ResolveRefs(store: MediaStore, m: Message, current: bool)
    returns (resolved: seq<string>, pathTags: seq<string>, images: seq<string>)
    ensures resolved == KeptRefs(store, m.media) && pathTags == Tags(store, m.media)
    ensures images == if m.role == Tool && current then Images(store, m.media) else []
  {
    resolved, pathTags, images := [], [], [];
    ghost var refs := m.media;
    for n := 0 to |m.media|
      invariant Collecting(resolved, KeptRefs(store, refs[n..]), KeptRefs(store, refs))
      invariant Collecting(pathTags, Tags(store, refs[n..]), Tags(store, refs))
      invariant m.role == Tool && current ==> Collecting(images, Images(store, refs[n..]), Images(store, refs))
      invariant !(m.role == Tool && current) ==> images == []
    {
      RefStep(store, refs, n);
      var kept, tags, shown := ResolveRef(store, m.media[n], m.role == Tool && current);
      CollectOne(resolved, kept, KeptRefs(store, refs[n+1..]), KeptRefs(store, refs));
      CollectOne(pathTags, tags, Tags(store, refs[n+1..]), Tags(store, refs));
      if m.role == Tool && current {
        CollectOne(images, shown, Images(store, refs[n+1..]), Images(store, refs));
      }
      resolved, pathTags, images := resolved + kept, pathTags + tags, images + shown;
    }
  }

  method ResolveMessage(store: MediaStore, m: Message, current: bool)
    returns (msg: Message, images: seq<string>)
    ensures Entry(msg, images) == EntryOf(store, m, current)
  {
    if |m.media| == 0 { return m, []; }
    var resolved, pathTags;
    resolved, pathTags, images := ResolveRefs(store, m, current);
    msg := m.(media := resolved);
    if |pathTags| > 0 {
      msg := msg.(content := store.injectTags(msg.content, pathTags));
    }
  }

  method ResolveMediaRefs(messages: seq<Message>, maybeStore: Option<MediaStore>, turnStart: int)
    returns (result: seq<Message>)
    ensures maybeStore.None? ==> result == messages
    ensures maybeStore.Some? ==>
      result == Render(Items(Entries(maybeStore.value, messages, NormalizedTurnStart(messages, turnStart)), []))
  {
    if maybeStore.None? { return messages; }
    var store := maybeStore.value;
    var currentTurnStart := NormalizedTurnStart(messages, turnStart);
    ghost var es := Entries(store, messages, currentTurnStart);
    ghost var target := Render(Items(es, []));
    var pendingToolImages: seq<string>;
    result, pendingToolImages := [], [];
    assert es[0..] == es;
    for idx := 0 to |messages|
      invariant idx == |messages| ==> pendingToolImages == []
      invariant result + Render(Items(es[idx..], pendingToolImages)) == target
    {
      AddStep(result, es, idx, pendingToolImages);
      result, pendingToolImages := AddMessage(store, messages[idx], idx >= currentTurnStart, result, pendingToolImages);
      assert result + Render(Items(es[idx+1..], pendingToolImages)) == target;
      if idx == |messages| - 1 && |pendingToolImages| > 0 {
        NothingAfter(es[idx+1..], pendingToolImages);
        result := result + [FollowUpMessage(pendingToolImages)];
        pendingToolImages := [];
      }
    }
    NothingAfter(es[|messages|..], []);
  }

  lemma AddStep(result: seq<Message>, es: seq<Entry>, idx: nat, pending: seq<string>)
    requires idx < |es|
    ensures result + Render(Items(es[idx..], pending)) ==
      (result + RenderedStep(es[idx], pending)) + Render(Items(es[idx+1..], Waiting(es[idx], pending)))
  {
    assert es[idx..] == [es[idx]] + es[idx+1..];
    RenderStep(es[idx], es[idx+1..], pending);
    Assoc(result, RenderedStep(es[idx], pending), Render(Items(es[idx+1..], Waiting(es[idx], pending))));
  }

  lemma NothingAfter(es: seq<Entry>, pending: seq<string>)
    requires es == []
    ensures Render(Items(es, [])) == []
    ensures Render(Items(es, pending)) == if pending == [] then [] else [FollowUpMessage(pending)]
  {
  }

  /** The loop's work on one message; the block that ends in front of it is flushed first. */
  method AddMessage(store: MediaStore, m: Message, current: bool, result: seq<Message>, pending: seq<string>)
    returns (extended: seq<Message>, pendingToolImages: seq<string>)
    ensures extended == result + RenderedStep(EntryOf(store, m, current), pending)
    ensures pendingToolImages == Waiting(EntryOf(store, m, current), pending)
  {
    extended, pendingToolImages := result, pending;
    if m.role != Tool && |pendingToolImages| > 0 {
      extended := extended + [FollowUpMessage(pendingToolImages)];
      pendingToolImages := [];
    }
    var msg, images := ResolveMessage(store, m, current);
    pendingToolImages := pendingToolImages + images;
    extended := extended + [msg];
  }

  function RenderedStep(e: Entry, pending: seq<string>): seq<Message> {
    (if e.message.role != Tool && pending != [] then [FollowUpMessage(pending)] else []) + [e.message]
  }

  /** What leaves the loop with an entry: a follow-up if its block ends here, then the message. */
  lemma RenderStep(e: Entry, es: seq<Entry>, pending: seq<string>)
    ensures Render(Items([e] + es, pending)) == RenderedStep(e, pending) + Render(Items(es, Waiting(e, pending)))
  {
    assert ([e] + es)[1..] == es;
    RenderConcat(Step(e, pending), Items(es, Waiting(e, pending)));
  }

  // ---------------------------------------------------------------- what resolving guarantees

  /** Erasing the follow-ups leaves the messages that came in, one for one and in order. */
  lemma {:induction false} ErasingFollowUps(es: seq<Entry>, pending: seq<string>)
    ensures Originals(Items(es, pending)) == MessagesIn(es)
    decreases |es|
  {
    if es != [] {
      var waiting := Waiting(es[0], pending);
      ErasingFollowUps(es[1..], waiting);
      OriginalsConcat(Step(es[0], pending), Items(es[1..], waiting));
      assert Originals(Step(es[0], pending)) == [es[0].message];
    }
  }

  lemma {:induction false} OriginalsConcat(a: seq<Item>, b: seq<Item>)
    ensures Originals(a + b) == Originals(a) + Originals(b)
  {
    if a == [] {
      assert a + b == b;
    } else {
      OriginalsConcat(a[1..], b);
      assert (a + b)[1..] == a[1..] + b;
      if a[0].Original? {
        Assoc([a[0].message], Originals(a[1..]), Originals(b));
      }
    }
  }

  lemma {:induction false} ShownConcat(a: seq<Item>, b: seq<Item>)
    ensures Shown(a + b) == Shown(a) + Shown(b)
  {
    if a == [] {
      assert a + b == b;
    } else {
      ShownConcat(a[1..], b);
      assert (a + b)[1..] == a[1..] + b;
      Assoc(if a[0].FollowUp? then a[0].images else [], Shown(a[1..]), Shown(b));
    }
  }

  /** A follow-up comes right after a tool result and is never followed by one. */
  predicate ClosesBlock(items: seq<Item>, j: nat)
    requires j < |items|
  {
    items[j].FollowUp? ==>
      && (j > 0 ==> items[j-1].IsResult())
      && (j + 1 < |items| ==> items[j+1].Original? && !items[j+1].IsResult())
  }

  /** Only tool results contribute images. */
  predicate ImagesFromResults(es: seq<Entry>) {
    forall i | 0 <= i < |es| :: es[i].images != [] ==> es[i].message.role == Tool
  }

  predicate AllCloseBlocks(items: seq<Item>) {
    forall j | 0 <= j < |items| :: ClosesBlock(items, j)
  }

  lemma {:induction false} FollowUpsCloseBlocks(es: seq<Entry>, pending: seq<string>)
    requires ImagesFromResults(es)
    ensures AllCloseBlocks(Items(es, pending))
    ensures pending == [] && es != [] ==> Items(es, pending)[0].Original?
    decreases |es|
  {
    if es != [] {
      var waiting := Waiting(es[0], pending);
      FollowUpsCloseBlocks(es[1..], waiting);
      CloseBlocksConcat(Step(es[0], pending), Items(es[1..], waiting));
    }
  }

  lemma CloseBlocksConcat(a: seq<Item>, b: seq<Item>)
    requires AllCloseBlocks(a) && AllCloseBlocks(b)
    requires a != [] && a[|a|-1].Original?
    requires b != [] && b[0].FollowUp? ==> a[|a|-1].IsResult()
    ensures AllCloseBlocks(a + b)
  {
    forall j | 0 <= j < |a + b| ensures ClosesBlock(a + b, j) {
      if j < |a| {
        assert ClosesBlock(a, j);
      } else {
        assert ClosesBlock(b, j - |a|);
      }
    }
  }

  /** The images an entry brings out: those of the block that ends in front of it. */
  function BroughtOut(e: Entry, pending: seq<string>): seq<string> {
    if e.message.role != Tool then pending else []
  }

  lemma ShownStep(e: Entry, pending: seq<string>, rest: seq<Item>)
    ensures Shown(Step(e, pending) + rest) == BroughtOut(e, pending) + Shown(rest)
    ensures |Originals(Step(e, pending) + rest)| == 1 + |Originals(rest)|
  {
    ShownConcat(Step(e, pending), rest);
    OriginalsConcat(Step(e, pending), rest);
    assert Shown(Step(e, pending)) == BroughtOut(e, pending);
    assert Originals(Step(e, pending)) == [e.message];
  }

  /** An entry brings out images or makes them wait. */
  lemma BroughtOutOrWaiting(e: Entry, pending: seq<string>, later: seq<string>)
    requires e.images != [] ==> e.message.role == Tool
    ensures BroughtOut(e, pending) + (Waiting(e, pending) + later) == pending + (e.images + later)
  {
    if e.message.role == Tool {
      assert Waiting(e, pending) == pending + e.images;
      Assoc(pending, e.images, later);
    } else {
      assert Waiting(e, pending) == [] && [] + later == later;
    }
  }

  /** Every image is shown exactly once and in order, and nothing else is. */
  lemma {:induction false} EveryImageIsShown(es: seq<Entry>, pending: seq<string>)
    ensures Shown(Items(es, pending)) == pending + AllImages(es)
    requires ImagesFromResults(es)
    decreases |es|
  {
    if es != [] {
      var waiting := Waiting(es[0], pending);
      EveryImageIsShown(es[1..], waiting);
      ShownStep(es[0], pending, Items(es[1..], waiting));
      BroughtOutOrWaiting(es[0], pending, AllImages(es[1..]));
    }
  }

  lemma StepAhead(es: seq<Entry>, pending: seq<string>, before: seq<Item>)
    requires es != [] && ImagesFromResults(es) && |Originals(before)| < |es|
    requires Shown(before) == Waiting(es[0], pending) + AllImages(es[1..][..|Originals(before)|])
    ensures var all := Step(es[0], pending) + before;
      && |Originals(all)| == |Originals(before)| + 1
      && Shown(all) == pending + AllImages(es[..|Originals(all)|])
  {
    var later := es[1..][..|Originals(before)|];
    ShownStep(es[0], pending, before);
    BroughtOutOrWaiting(es[0], pending, AllImages(later));
    assert es[..|Originals(before)|+1] == [es[0]] + later;
    assert ([es[0]] + later)[1..] == later;
  }

  /** A follow-up is not late: with it, everything that the messages before it contribute has been shown. */
  lemma {:induction false} FollowUpsAreTimely(es: seq<Entry>, pending: seq<string>, j: nat)
    requires ImagesFromResults(es)
    requires j < |Items(es, pending)| && Items(es, pending)[j].FollowUp?
    ensures var before := Items(es, pending)[..j+1];
      && |Originals(before)| <= |es|
      && Shown(before) == pending + AllImages(es[..|Originals(before)|])
    decreases |es|
  {
    var items := Items(es, pending);
    if es == [] {
      assert items[..j+1] == Flush(pending);
    } else {
      var waiting := Waiting(es[0], pending);
      var head, rest := Step(es[0], pending), Items(es[1..], waiting);
      if j < |head| {
        assert j == 0 && items[..1] == Flush(pending);
      } else {
        var k := j - |head|;
        FollowUpsAreTimely(es[1..], waiting, k);
        assert items[..j+1] == head + rest[..k+1];
        StepAhead(es, pending, rest[..k+1]);
      }
    }
  }

  // ---------------------------------------------------------------- histories stay well formed

  /** A user message may go anywhere except in front of a tool result. */
  lemma InsertUser(a: seq<Message>, u: Message, b: seq<Message>)
    requires WellFormed(a + b) && u.role == User
    requires b == [] || b[0].role != Tool
    ensures WellFormed(a + [u] + b)
  {
    WellFormedIsScan(a + b);
    ScanConcat(Nothing, a, b);
    ScanConcat(Nothing, a, [u] + b);
    assert ([u] + b)[1..] == b;
    assert a + ([u] + b) == a + [u] + b;
    WellFormedIsScan(a + [u] + b);
  }

  /** Putting one more item in its place, in front of the messages not yet reached. */
  lemma PlaceItem(before: seq<Message>, item: Item, after: seq<Message>)
    requires WellFormed(before + (Originals([item]) + after))
    requires item.FollowUp? && after != [] ==> after[0].role != Tool
    ensures WellFormed(before + [item.Rendered()] + after)
  {
    if item.FollowUp? {
      assert Originals([item]) + after == after;
      InsertUser(before, item.Rendered(), after);
    } else {
      assert Originals([item]) == [item.message];
      Assoc(before, [item.message], after);
    }
  }

  lemma {:induction false} FollowUpsKeepWellFormed(items: seq<Item>, n: nat)
    requires WellFormed(Originals(items)) && AllCloseBlocks(items) && n <= |items|
    ensures WellFormed(Render(items[..n]) + Originals(items[n..]))
    decreases n
  {
    if n > 0 {
      FollowUpsKeepWellFormed(items, n - 1);
      var item := items[n-1];
      assert items[..n] == items[..n-1] + [item] && items[n-1..] == [item] + items[n..];
      RenderConcat(items[..n-1], [item]);
      OriginalsConcat([item], items[n..]);
      assert ClosesBlock(items, n - 1);
      PlaceItem(Render(items[..n-1]), item, Originals(items[n..]));
      assert Render([item]) == [item.Rendered()];
    } else {
      assert items[0..] == items && Render([]) + Originals(items) == Originals(items);
    }
  }

  lemma EntriesKeepShape(store: MediaStore, ms: seq<Message>, turnStart: int)
    ensures SameShape(ms, MessagesIn(Entries(store, ms, turnStart)))
    ensures ImagesFromResults(Entries(store, ms, turnStart))
  {
    MessagesOf(Entries(store, ms, turnStart));
  }

  lemma MessagesOf(es: seq<Entry>)
    ensures |MessagesIn(es)| == |es| && forall i | 0 <= i < |es| :: MessagesIn(es)[i] == es[i].message
  {
  }

  /** Resolving the media of a well-formed history leaves a well-formed history. */
  lemma ResolvingKeepsWellFormed(store: MediaStore, ms: seq<Message>, turnStart: int)
    requires WellFormed(ms)
    ensures WellFormed(Render(Items(Entries(store, ms, turnStart), [])))
  {
    var es := Entries(store, ms, turnStart);
    var items := Items(es, []);
    EntriesKeepShape(store, ms, turnStart);
    ShapeDecidesWellFormed(ms, MessagesIn(es));
    WellFormedIsScan(MessagesIn(es));
    ErasingFollowUps(es, []);
    FollowUpsCloseBlocks(es, []);
    FollowUpsKeepWellFormed(items, |items|);
    assert items[..|items|] == items && Render(items) + Originals(items[|items|..]) == Render(items);
  }

  /** The same for a prompt, which opens with the system message the builder puts in front of the history. */
  lemma ResolvingKeepsPromptWellFormed(store: MediaStore, ms: seq<Message>, turnStart: int)
    requires ms != [] && ms[0].role == System && WellFormed(ms[1..])
    ensures var out := Render(Items(Entries(store, ms, turnStart), []));
      out != [] && out[0] == Resolved(store, ms[0]) && WellFormed(out[1..])
  {
    var es := Entries(store, ms, turnStart);
    assert es[1..] == Entries(store, ms[1..], turnStart - 1);
    assert Step(es[0], []) == [Original(es[0].message)];
    ResolvingKeepsWellFormed(store, ms[1..], turnStart - 1);
  }
}
