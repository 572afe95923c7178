/** The decoder inverts the multiplexing of Opus packets into Ogg pages. */
module OggLaws {
  import opened Seqs
  import opened Ogg

  // ---------------------------------------------------------------- writing a stream

  /** Text as the bytes of a stream. */
  function Ascii(text: string): (bytes: seq<Byte>)
    ensures |bytes| == |text|
  {
    seq(|text|, i requires 0 <= i < |text| => text[i] as int % 256)
  }

  /** The capture pattern and the marks of the two header packets, letter by letter. */
  lemma MarksAreText()
    ensures Ascii("OggS") == CAPTURE_PATTERN
    ensures Ascii("OpusHead") == OPUS_HEAD && Ascii("OpusTags") == OPUS_TAGS
  {
  }

  /** A packet that is neither empty nor one of the two header packets. */
  predicate IsAudio(p: Packet) {
    p != [] && !(Ascii("OpusHead") <= p) && !(Ascii("OpusTags") <= p)
  }

  lemma FramesAreAudio(p: Packet)
    ensures IsFrame(p) <==> IsAudio(p)
  {
    MarksAreText();
  }

  /** The segments of a packet: full ones, then a shorter, possibly empty one that ends it. */
  function Lace(packet: Packet): (segments: seq<seq<Byte>>)
    ensures segments != []
  {
    if |packet| < 255 then [packet] else [packet[..255]] + Lace(packet[255..])
  }

  /** Lacing takes a segment per full 255 bytes and one more, each fits a page's table, and nothing is lost. */
  lemma {:induction false} LacingIsSound(packet: Packet)
    ensures |Lace(packet)| == |packet| / 255 + 1
    ensures forall s | s in Lace(packet) :: |s| <= 255
    ensures Concat(Lace(packet)) == packet
    decreases |packet|
  {
    if |packet| >= 255 {
      LacingIsSound(packet[255..]);
      assert Lace(packet)[1..] == Lace(packet[255..]);
    } else {
      assert Concat([packet]) == packet + [] == packet;
    }
  }

  function LaceAll(packets: seq<Packet>): seq<seq<Byte>> {
    if packets == [] then [] else Lace(packets[0]) + LaceAll(packets[1..])
  }

  /** A page: the 22 header bytes between capture pattern and segment count are arbitrary. */
  datatype Page = Page(header: seq<Byte>, segments: seq<seq<Byte>>)
  {
    predicate Valid() {
      && |header| == 22 && |segments| <= 255
      && forall s | s in segments :: |s| <= 255
    }

    function Bytes(): seq<Byte>
      requires Valid()
    {
      Ascii("OggS") + header + [|segments|] + Sizes(segments) + Concat(segments)
    }
  }

  function Sizes(segments: seq<seq<Byte>>): (sizes: seq<Byte>)
    requires forall s | s in segments :: |s| <= 255
    ensures |sizes| == |segments|
  {
    if segments == [] then [] else [|segments[0]|] + Sizes(segments[1..])
  }

  function Concat(segments: seq<seq<Byte>>): seq<Byte> {
    if segments == [] then [] else segments[0] + Concat(segments[1..])
  }

  function Mux(pages: seq<Page>): seq<Byte>
    requires forall p | p in pages :: p.Valid()
  {
    if pages == [] then [] else pages[0].Bytes() + Mux(pages[1..])
  }

  function AllSegments(pages: seq<Page>): seq<seq<Byte>> {
    if pages == [] then [] else pages[0].segments + AllSegments(pages[1..])
  }

  // ---------------------------------------------------------------- pages do not matter

  /** Feeding segments one after another, until the caller rejects a frame. */
  datatype Fed = Fed(state: State, rejected: bool)

  function Feed(onFrame: OnFrame, segments: seq<seq<Byte>>, st: State): Fed {
    if segments == [] then Fed(st, false)
    else
      var next := AddSegment(st, segments[0]);
      if Rejects(onFrame, st, next) then Fed(next, true) else Feed(onFrame, segments[1..], next)
  }

  lemma {:induction false} FeedConcat(onFrame: OnFrame, a: seq<seq<Byte>>, b: seq<seq<Byte>>, st: State)
    ensures var f := Feed(onFrame, a, st);
      Feed(onFrame, a + b, st) == if f.rejected then f else Feed(onFrame, b, f.state)
    decreases |a|
  {
    if a == [] {
      assert a + b == b;
    } else {
      assert (a + b)[1..] == a[1..] + b;
      FeedConcat(onFrame, a[1..], b, AddSegment(st, a[0]));
    }
  }

  lemma {:induction false} SegmentsAreFed(onFrame: OnFrame, segments: seq<seq<Byte>>, rest: seq<Byte>, st: State)
    requires forall s | s in segments :: |s| <= 255
    ensures var f := Feed(onFrame, segments, st);
      DecodeSegments(onFrame, Sizes(segments), Concat(segments) + rest, st)
        == if f.rejected then Stopped(Decoded(f.state.frames, Rejected)) else Through(f.state, rest)
    decreases |segments|
  {
    if segments == [] {
      assert [] + rest == rest;
    } else {
      var s, data := segments[0], Concat(segments) + rest;
      assert data == s + (Concat(segments[1..]) + rest);
      assert data[..|s|] == s && data[|s|..] == Concat(segments[1..]) + rest;
      assert Sizes(segments)[1..] == Sizes(segments[1..]);
      SegmentsAreFed(onFrame, segments[1..], rest, AddSegment(st, s));
    }
  }

  lemma PageIsFed(onFrame: OnFrame, page: Page, rest: seq<Byte>, st: State)
    requires page.Valid()
    ensures var f := Feed(onFrame, page.segments, st);
      DecodePages(onFrame, page.Bytes() + rest, st)
        == if f.rejected then Decoded(f.state.frames, Rejected) else DecodePages(onFrame, rest, f.state)
  {
    var data, n := page.Bytes() + rest, |page.segments|;
    var sizes, body := Sizes(page.segments), Concat(page.segments);
    var head := Ascii("OggS") + page.header + [n];
    MarksAreText();
    assert data == head + (sizes + (body + rest));
    assert data[..4] == CAPTURE_PATTERN && data[26] == n;
    assert data[27..] == sizes + (body + rest);
    assert data[27..27+n] == sizes;
    assert data[27+n..] == body + rest;
    SegmentsAreFed(onFrame, page.segments, rest, st);
  }

  /** What a stream of pages decodes to depends only on the segments, not on how pages divide them. */
  lemma {:induction false} PagesAreFed(onFrame: OnFrame, pages: seq<Page>, tail: seq<Byte>, st: State)
    requires forall p | p in pages :: p.Valid()
    ensures var f := Feed(onFrame, AllSegments(pages), st);
      DecodePages(onFrame, Mux(pages) + tail, st)
        == if f.rejected then Decoded(f.state.frames, Rejected) else DecodePages(onFrame, tail, f.state)
    decreases |pages|
  {
    if pages == [] {
      assert [] + tail == tail;
    } else {
      var page, rest := pages[0], pages[1..];
      var f := Feed(onFrame, page.segments, st);
      Assoc(page.Bytes(), Mux(rest), tail);
      PageIsFed(onFrame, page, Mux(rest) + tail, st);
      PagesAreFed(onFrame, rest, tail, f.state);
      FeedConcat(onFrame, page.segments, AllSegments(rest), st);
    }
  }

  // ---------------------------------------------------------------- every packet comes back

  /** The audio packets of a list, handed out until the caller rejects one. */
  function Deliver(onFrame: OnFrame, packets: seq<Packet>, frames: seq<Packet>): Fed {
    if packets == [] then Fed(State(frames, []), false)
    else if !IsAudio(packets[0]) then Deliver(onFrame, packets[1..], frames)
    else
      var more := frames + [packets[0]];
      if onFrame(more) then Deliver(onFrame, packets[1..], more) else Fed(State(more, []), true)
  }

  function AudioOf(packets: seq<Packet>): seq<Packet> {
    if packets == [] then []
    else if IsAudio(packets[0]) then [packets[0]] + AudioOf(packets[1..])
    else AudioOf(packets[1..])
  }

  /** Feeding a packet's segments completes it, whatever part of it had been fed before. */
  lemma {:induction false} LacedPacketIsFed(onFrame: OnFrame, packet: Packet, st: State)
    ensures var whole := st.packet + packet;
      var frames := if IsAudio(whole) then st.frames + [whole] else st.frames;
      Feed(onFrame, Lace(packet), st) == Fed(State(frames, []), IsAudio(whole) && !onFrame(frames))
    decreases |packet|
  {
    FramesAreAudio(st.packet + packet);
    if |packet| >= 255 {
      var first, rest := packet[..255], packet[255..];
      assert Lace(packet)[1..] == Lace(rest);
      assert st.packet + first + rest == st.packet + packet;
      LacedPacketIsFed(onFrame, rest, AddSegment(st, first));
    } else {
      assert Lace(packet)[1..] == [];
    }
  }

  lemma {:induction false} LacedPacketsAreDelivered(onFrame: OnFrame, packets: seq<Packet>, frames: seq<Packet>)
    ensures Feed(onFrame, LaceAll(packets), State(frames, [])) == Deliver(onFrame, packets, frames)
    decreases |packets|
  {
    if packets != [] {
      var p := packets[0];
      LacedPacketIsFed(onFrame, p, State(frames, []));
      assert [] + p == p;
      FeedConcat(onFrame, Lace(p), LaceAll(packets[1..]), State(frames, []));
      LacedPacketsAreDelivered(onFrame, packets[1..], if IsAudio(p) then frames + [p] else frames);
    }
  }

  lemma {:induction false} AcceptingDeliversAll(onFrame: OnFrame, packets: seq<Packet>, frames: seq<Packet>)
    requires forall fs :: onFrame(fs)
    ensures Deliver(onFrame, packets, frames) == Fed(State(frames + AudioOf(packets), []), false)
    decreases |packets|
  {
    if packets == [] {
      assert frames + [] == frames;
    } else if IsAudio(packets[0]) {
      AcceptingDeliversAll(onFrame, packets[1..], frames + [packets[0]]);
      Assoc(frames, [packets[0]], AudioOf(packets[1..]));
    } else {
      AcceptingDeliversAll(onFrame, packets[1..], frames);
    }
  }

  /**
   * However the laced segments of some packets are divided into pages, decoding delivers exactly the packets that
   * are not empty and not Opus headers, in order, up to the first that the caller rejects. Fewer bytes than a page
   * header at the end are ignored.
   */
  lemma DecodingInvertsMuxing(onFrame: OnFrame, packets: seq<Packet>, pages: seq<Page>, tail: seq<Byte>)
    requires forall p | p in pages :: p.Valid()
    requires AllSegments(pages) == LaceAll(packets) && |tail| < 27
    ensures var f := Deliver(onFrame, packets, []);
      DecodePages(onFrame, Mux(pages) + tail, State([], []))
        == Decoded(f.state.frames, if f.rejected then Rejected else Done)
    ensures (forall fs :: onFrame(fs)) ==>
      DecodePages(onFrame, Mux(pages) + tail, State([], [])) == Decoded(AudioOf(packets), Done)
  {
    PagesAreFed(onFrame, pages, tail, State([], []));
    LacedPacketsAreDelivered(onFrame, packets, []);
    if forall fs :: onFrame(fs) {
      AcceptingDeliversAll(onFrame, packets, []);
      assert [] + AudioOf(packets) == AudioOf(packets);
    }
  }

  lemma {:induction false} AudioStays(packets: seq<Packet>)
    requires forall p | p in packets :: IsAudio(p)
    ensures AudioOf(packets) == packets
    decreases |packets|
  {
    if packets != [] {
      assert packets[0] in packets && forall p | p in packets[1..] :: p in packets;
      AudioStays(packets[1..]);
    }
  }

  lemma OpensWithMark(mark: string, x: seq<Byte>)
    requires mark == "OpusHead" || mark == "OpusTags"
    ensures !IsAudio(Ascii(mark) + x)
  {
    assert (Ascii(mark) + x)[..8] == Ascii(mark);
  }

  /** An Opus file, its identification and comment headers first, decodes to its audio packets and nothing else. */
  lemma OpusFileDecodesToAudio(onFrame: OnFrame, x: seq<Byte>, y: seq<Byte>, audio: seq<Packet>, pages: seq<Page>)
    requires forall p | p in pages :: p.Valid()
    requires forall p | p in audio :: p != [] && !(Ascii("OpusHead") <= p) && !(Ascii("OpusTags") <= p)
    requires AllSegments(pages) == LaceAll([Ascii("OpusHead") + x, Ascii("OpusTags") + y] + audio)
    requires forall fs :: onFrame(fs)
    ensures DecodePages(onFrame, Mux(pages), State([], [])) == Decoded(audio, Done)
  {
    var head, tags := Ascii("OpusHead") + x, Ascii("OpusTags") + y;
    var packets := [head, tags] + audio;
    OpensWithMark("OpusHead", x);
    OpensWithMark("OpusTags", y);
    assert packets[1..] == [tags] + audio && packets[1..][1..] == audio;
    AudioStays(audio);
    assert Mux(pages) + [] == Mux(pages);
    DecodingInvertsMuxing(onFrame, packets, pages, []);
  }

  // ---------------------------------------------------------------- how a stream ends

  function Total(sizes: seq<Byte>): nat {
    if sizes == [] then 0 else sizes[0] + Total(sizes[1..])
  }

  lemma {:induction false} ShortDataStops(onFrame: OnFrame, table: seq<Byte>, data: seq<Byte>, st: State)
    ensures var p := DecodeSegments(onFrame, table, data, st);
      if |data| < Total(table)
      then p.Stopped? && st.frames <= p.decoded.frames && p.decoded.result in {TruncatedSegment, Rejected}
      else p.Through? ==> p.rest == data[Total(table)..]
    decreases |table|
  {
    if table != [] && |data| >= table[0] {
      var next := AddSegment(st, data[..table[0]]);
      ShortDataStops(onFrame, table[1..], data[table[0]..], next);
      if |data| >= Total(table) {
        assert data[table[0]..][Total(table[1..])..] == data[Total(table)..];
      }
    }
  }

  /**
   * Behind complete pages that the caller accepts: fewer than 27 bytes end the stream, 27 that do not open with the
   * capture pattern are an error, and so are a table or segments that the page announces and the data lacks.
   */
  lemma WhatEndsAStream(onFrame: OnFrame, pages: seq<Page>, tail: seq<Byte>)
    requires (forall p | p in pages :: p.Valid()) && !Feed(onFrame, AllSegments(pages), State([], [])).rejected
    ensures var d := DecodePages(onFrame, Mux(pages) + tail, State([], []));
      var frames := Feed(onFrame, AllSegments(pages), State([], [])).state.frames;
      && (|tail| < 27 ==> d == Decoded(frames, Done))
      && (|tail| >= 27 ==>
           var end: nat := 27 + tail[26] as int;
           if tail[..4] != Ascii("OggS") then d == Decoded(frames, BadCapturePattern)
           else if |tail| < end then d == Decoded(frames, TruncatedTable)
           else |tail| < end + Total(tail[27..end]) ==>
             frames <= d.frames && d.result in {TruncatedSegment, Rejected})
  {
    MarksAreText();
    PagesAreFed(onFrame, pages, tail, State([], []));
    if |tail| >= 27 && 27 + tail[26] as int <= |tail| {
      var st, end := Feed(onFrame, AllSegments(pages), State([], [])).state, 27 + tail[26] as int;
      ShortDataStops(onFrame, tail[27..end], tail[end..], st);
    }
  }
}
