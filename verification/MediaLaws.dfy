/** What resolving does to each message, and whose images it shows, told by what the store makes of each reference. */
module MediaLaws {
  import opened Messages
  import opened Media

  /** What some references give, those that give anything, in order. */
  function Picked(refs: seq<string>, give: string -> seq<string>): seq<string> {
    if refs == [] then [] else give(refs[0]) + Picked(refs[1..], give)
  }

  /** A reference that is not the store's business stays; one that is found, or cannot be resolved, goes. */
  function Kept(store: MediaStore): string -> seq<string> {
    (ref: string) => if store.lookup(ref) == NotMedia then [ref] else []
  }

  function TagOf(store: MediaStore): string -> seq<string> {
    (ref: string) => match store.lookup(ref) case Found(tag, _) => [tag] case _ => []
  }

  /** The image a reference stands for, if there is one that can be encoded. */
  function ImageOf(store: MediaStore): string -> seq<string> {
    (ref: string) => match store.lookup(ref) case Found(_, url) => (if url == "" then [] else [url]) case _ => []
  }

  /** The message as it was, without the references the store resolves, its text carrying their tags. */
  predicate IsResolved(store: MediaStore, m: Message, out: Message) {
    var tags := Picked(m.media, TagOf(store));
    && out.role == m.role && out.toolCalls == m.toolCalls && out.toolCallId == m.toolCallId
    && out.media == Picked(m.media, Kept(store))
    && (tags == [] ==> out.content == m.content)
    && (tags != [] ==> out.content == store.injectTags(m.content, tags))
  }

  lemma {:induction false} PickedIs(store: MediaStore, refs: seq<string>)
    ensures Picked(refs, Kept(store)) == KeptRefs(store, refs)
    ensures Picked(refs, TagOf(store)) == Tags(store, refs)
    ensures Picked(refs, ImageOf(store)) == Images(store, refs)
    decreases |refs|
  {
    if refs != [] {
      PickedIs(store, refs[1..]);
    }
  }

  /** Each message comes out resolved, at its place among the originals. */
  lemma EachMessageIsResolved(store: MediaStore, ms: seq<Message>, turnStart: int)
    ensures var out := Originals(Items(Entries(store, ms, turnStart), []));
      |out| == |ms| && forall i | 0 <= i < |ms| :: IsResolved(store, ms[i], out[i])
  {
    var es := Entries(store, ms, turnStart);
    ErasingFollowUps(es, []);
    MessagesOf(es);
    forall i | 0 <= i < |ms| ensures IsResolved(store, ms[i], MessagesIn(es)[i]) {
      PickedIs(store, ms[i].media);
    }
  }

  // ---------------------------------------------------------------- whose images are shown

  /** The images of the tool results among some messages. */
  function ImagesOfResults(store: MediaStore, ms: seq<Message>): seq<string> {
    if ms == [] then []
    else (if ms[0].role == Tool then Picked(ms[0].media, ImageOf(store)) else []) + ImagesOfResults(store, ms[1..])
  }

  lemma EntriesFromNext(store: MediaStore, ms: seq<Message>, turnStart: int)
    requires ms != []
    ensures Entries(store, ms, turnStart)[1..] == Entries(store, ms[1..], turnStart - 1)
  {
  }

  lemma {:induction false} ImagesOfCurrentTurn(store: MediaStore, ms: seq<Message>, turnStart: int)
    ensures AllImages(Entries(store, ms, turnStart)) ==
      ImagesOfResults(store, ms[if turnStart < 0 then 0 else if turnStart > |ms| then |ms| else turnStart..])
    decreases |ms|
  {
    if ms != [] {
      EntriesFromNext(store, ms, turnStart);
      ImagesOfCurrentTurn(store, ms[1..], turnStart - 1);
      PickedIs(store, ms[0].media);
      if turnStart <= 0 {
        assert ms[0..] == ms && ms[1..][0..] == ms[1..];
      } else if turnStart <= |ms| {
        assert ms[1..][turnStart-1..] == ms[turnStart..];
      } else {
        assert ms[1..][|ms|-1..] == ms[|ms|..] == [];
      }
    }
  }

  /** The images of the current turn's results are shown, each once and in order; no image of an earlier turn is. */
  lemma OnlyTheCurrentTurnIsShown(store: MediaStore, ms: seq<Message>, turnStart: nat)
    requires turnStart <= |ms|
    ensures Shown(Items(Entries(store, ms, turnStart), [])) == ImagesOfResults(store, ms[turnStart..])
  {
    var es := Entries(store, ms, turnStart);
    EntriesKeepShape(store, ms, turnStart);
    EveryImageIsShown(es, []);
    ImagesOfCurrentTurn(store, ms, turnStart);
    assert [] + AllImages(es) == AllImages(es);
  }

  /** A start before the first or behind the last message is that end of the messages. */
  lemma StartIsClamped(store: MediaStore, ms: seq<Message>, turnStart: int)
    ensures Entries(store, ms, NormalizedTurnStart(ms, turnStart)) == Entries(store, ms, turnStart)
  {
  }

  /** A follow-up is a user message that carries the images and says where they are from. */
  lemma FollowUpCarriesImages(images: seq<string>)
    ensures var m := FollowUp(images).Rendered();
      && m.role == User && m.media == images && m.toolCalls == [] && m.toolCallId == ""
      && m.content == "[Loaded image from tool result above]"
  {
  }
}
