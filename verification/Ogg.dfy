/**
 * Extracting Opus packets from an Ogg stream: pages (section 6 of RFC 3533) carry packets laced into segments of
 * at most 255 bytes (section 5 of RFC 3533); the two Opus header packets (section 5 of RFC 7845) are not audio.
 */
module Ogg {

  type Byte = b: int | 0 <= b < 256

  const CAPTURE_PATTERN: seq<Byte> := [0x4F, 0x67, 0x67, 0x53]
  const OPUS_HEAD: seq<Byte> := [0x4F, 0x70, 0x75, 0x73, 0x48, 0x65, 0x61, 0x64]
  const OPUS_TAGS: seq<Byte> := [0x4F, 0x70, 0x75, 0x73, 0x54, 0x61, 0x67, 0x73]
  const HEADER_SIZE := 27
  const MAX_SEGMENT := 255

  type Packet = seq<Byte>

  predicate IsHeader(p: Packet) {
    OPUS_HEAD <= p || OPUS_TAGS <= p
  }

  /** Whether a complete packet is handed to the caller. */
  predicate IsFrame(p: Packet) {
    p != [] && !IsHeader(p)
  }

  datatype Result = Done | BadCapturePattern | TruncatedTable | TruncatedSegment | Rejected

  /** The frames handed out so far and the packet under construction. */
  datatype State = State(frames: seq<Packet>, packet: Packet)

  /** What the frames come to when the decoder stops. */
  datatype Decoded = Decoded(frames: seq<Packet>, result: Result)

  /** The caller's verdict may depend on everything it was handed, the latest frame included. */
  type OnFrame = seq<Packet> -> bool

  /** A segment joins the packet, and completes it unless it is full. */
  function AddSegment(st: State, segment: seq<Byte>): State {
    var packet := st.packet + segment;
    if |segment| >= MAX_SEGMENT then st.(packet := packet)
    else State(if IsFrame(packet) then st.frames + [packet] else st.frames, [])
  }

  predicate Rejects(onFrame: OnFrame, before: State, after: State) {
    after.frames != before.frames && !onFrame(after.frames)
  }

  datatype Progress = Stopped(decoded: Decoded) | Through(state: State, rest: seq<Byte>)

  /** Decoding the segments a page's table announces. */
  function DecodeSegments(onFrame: OnFrame, table: seq<Byte>, data: seq<Byte>, st: State): (p: Progress)
    ensures p.Through? ==> |p.rest| <= |data|
    decreases |table|
  {
    if table == [] then Through(st, data)
    else if |data| < table[0] then Stopped(Decoded(st.frames, TruncatedSegment))
    else
      var next := AddSegment(st, data[..table[0]]);
      if Rejects(onFrame, st, next) then Stopped(Decoded(next.frames, Rejected))
      else DecodeSegments(onFrame, table[1..], data[table[0]..], next)
  }

  function DecodePages(onFrame: OnFrame, data: seq<Byte>, st: State): Decoded
    decreases |data|
  {
    if |data| < HEADER_SIZE then Decoded(st.frames, Done)
    else if data[..4] != CAPTURE_PATTERN then Decoded(st.frames, BadCapturePattern)
    else
      var count := data[HEADER_SIZE - 1];
      if |data| < HEADER_SIZE + count then Decoded(st.frames, TruncatedTable)
      else
        match DecodeSegments(onFrame, data[HEADER_SIZE..HEADER_SIZE + count], data[HEADER_SIZE + count..], st)
        case Stopped(d) => d
        case Through(next, rest) => DecodePages(onFrame, rest, next)
  }

  // ---------------------------------------------------------------- the imperative form

  datatype ReadError = NoError | EOF | UnexpectedEOF

  class Reader {
    const data: seq<Byte>
    var pos: nat

    ghost predicate Valid()
      reads this
    {
      pos <= |data|
    }

    ghost function Rest(): seq<Byte>
      reads this
      requires Valid()
    {
      data[pos..]
    }

    constructor (data: seq<Byte>)
      ensures Valid() && Rest() == data
    {
      this.data := data;
      pos := 0;
    }

    /** Fills the first n bytes of the buffer, or reports that the data ends before that. */
    method ReadFull(buf: array<Byte>, n: nat) returns (err: ReadError)
      requires Valid() && n <= buf.Length
      modifies this`pos, buf
      ensures Valid()
      ensures err == NoError <==> n <= |old(Rest())|
      ensures err == EOF <==> n > 0 && old(Rest()) == []
      ensures err == NoError ==> buf[..n] == old(Rest())[..n] && Rest() == old(Rest())[n..]
      ensures err != NoError ==> Rest() == []
    {
      var i := 0;
      while i < n && pos < |data|
        invariant Valid() && i <= n && pos == old(pos) + i
        invariant buf[..i] == data[old(pos)..pos]
      {
        buf[i] := data[pos];
        assert buf[..i+1] == buf[..i] + [data[pos]];
        i := i + 1;
        pos := pos + 1;
      }
      if i == n { return NoError; }
      return if i == 0 then EOF else UnexpectedEOF;
    }
  }

  /** The segments of one page; stopped tells whether decoding ends here, with the given result. */
  method ReadSegments(r: Reader, segmentTable: array<Byte>, segment: array<Byte>, onFrame: OnFrame, st: State)
    returns (frames: seq<Packet>, packet: Packet, stopped: bool, result: Result)
    requires r.Valid() && segment.Length == MAX_SEGMENT && segment != segmentTable
    modifies r`pos, segment
    ensures r.Valid()
    ensures match DecodeSegments(onFrame, segmentTable[..], old(r.Rest()), st)
      case Stopped(d) => stopped && d == Decoded(frames, result)
      case Through(next, rest) => !stopped && next == State(frames, packet) && rest == r.Rest()
  {
    frames, packet, stopped, result := st.frames, st.packet, false, Done;
    ghost var table, total := segmentTable[..], DecodeSegments(onFrame, segmentTable[..], r.Rest(), st);
    for k := 0 to segmentTable.Length
      invariant r.Valid() && table == segmentTable[..]
      invariant total == DecodeSegments(onFrame, table[k..], r.Rest(), State(frames, packet))
    {
      var lacing := segmentTable[k];
      ghost var before, data := State(frames, packet), r.Rest();
      assert table[k..][0] == lacing && table[k..][1..] == table[k+1..];
      var err := r.ReadFull(segment, lacing);
      if err != NoError {
        return frames, packet, true, TruncatedSegment;
      }
      packet := packet + segment[..lacing];
      if lacing < MAX_SEGMENT {
        if |packet| > 0 {
          if !(OPUS_HEAD <= packet) && !(OPUS_TAGS <= packet) {
            frames := frames + [packet];
            if !onFrame(frames) {
              return frames, [], true, Rejected;
            }
          }
          packet := [];
        }
      }
      assert State(frames, packet) == AddSegment(before, data[..lacing]);
    }
  }

  /** The fixed header and the segment table of the next page. */
  method ReadTable(r: Reader, header: array<Byte>) returns (segmentTable: array<Byte>, stopped: bool, result: Result)
    requires r.Valid() && header.Length == HEADER_SIZE
    modifies r`pos, header
    ensures r.Valid() && fresh(segmentTable)
    ensures var data := old(r.Rest());
      if |data| < HEADER_SIZE then stopped && result == Done
      else if data[..4] != CAPTURE_PATTERN then stopped && result == BadCapturePattern
      else if |data| < HEADER_SIZE + data[HEADER_SIZE - 1] then stopped && result == TruncatedTable
      else
        var end := HEADER_SIZE + data[HEADER_SIZE - 1];
        !stopped && segmentTable[..] == data[HEADER_SIZE..end] && r.Rest() == data[end..]
  {
    ghost var data := r.Rest();
    segmentTable := new Byte[0];
    var err := r.ReadFull(header, HEADER_SIZE);
    if err != NoError {
      return segmentTable, true, Done;
    }
    assert header[..4] == header[..HEADER_SIZE][..4] == data[..4];
    if header[..4] != CAPTURE_PATTERN {
      return segmentTable, true, BadCapturePattern;
    }
    var pageSegments := header[HEADER_SIZE - 1];
    assert pageSegments == header[..HEADER_SIZE][HEADER_SIZE - 1] == data[HEADER_SIZE - 1];
    segmentTable := new Byte[pageSegments];
    err := r.ReadFull(segmentTable, pageSegments);
    if err != NoError {
      return segmentTable, true, TruncatedTable;
    }
    assert segmentTable[..] == segmentTable[..pageSegments] == data[HEADER_SIZE..HEADER_SIZE + pageSegments];
    assert r.Rest() == data[HEADER_SIZE + pageSegments..];
    return segmentTable, false, Done;
  }

  method DecodeOggOpus(r: Reader, onFrame: OnFrame) returns (frames: seq<Packet>, result: Result)
    requires r.Valid()
    modifies r`pos
    ensures Decoded(frames, result) == DecodePages(onFrame, old(r.Rest()), State([], []))
  {
    var packet: Packet := [];
    var header := new Byte[HEADER_SIZE];
    var segment := new Byte[MAX_SEGMENT];
    frames := [];
    ghost var total := DecodePages(onFrame, r.Rest(), State([], []));
    while true
      invariant r.Valid()
      invariant total == DecodePages(onFrame, r.Rest(), State(frames, packet))
      decreases |r.Rest()|
    {
      var segmentTable, stopped;
      segmentTable, stopped, result := ReadTable(r, header);
      if stopped {
        return frames, result;
      }
      frames, packet, stopped, result := ReadSegments(r, segmentTable, segment, onFrame, State(frames, packet));
      if stopped {
        return frames, result;
      }
    }
  }
}
