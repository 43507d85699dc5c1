/**
 Server-sent-event framing and the keepalive wrapper, against the event-stream interpretation
 of sections 9.2.5 and 9.2.6 of the WHATWG HTML Living Standard (field names other than `event`
 and `data` do not affect what is dispatched, and no frame starts with a byte order mark).
 */
module Sse {
  import opened Sequences

  newtype byte = b: int | 0 <= b < 256

  type Bytes = seq<byte>

  const LF: byte := 10
  const CR: byte := 13
  const SPACE: byte := 32
  const COLON: byte := 58
  const EVENT: Bytes := [101, 118, 101, 110, 116]             // "event"
  const DATA: Bytes := [100, 97, 116, 97]                     // "data"
  const MESSAGE: Bytes := [109, 101, 115, 115, 97, 103, 101]  // "message"
  const PING: Bytes := [112, 105, 110, 103]                   // "ping"

  // ---- framing ----

  method AppendEvent(name: Bytes, data: Bytes) returns (buf: Bytes)
    ensures buf == Encode(Event(name, data))
  {
    buf := EVENT + [COLON, SPACE];
    buf := buf + name;
    buf := buf + [LF] + DATA + [COLON, SPACE];
    buf := buf + data;
    buf := buf + [LF, LF];
  }

  method AppendDataOnly(data: Bytes) returns (buf: Bytes)
    ensures buf == Encode(DataOnly(data))
  {
    buf := DATA + [COLON, SPACE];
    buf := buf + data;
    buf := buf + [LF, LF];
  }

  method AppendComment(text: Bytes) returns (buf: Bytes)
    ensures buf == Encode(Comment(text))
  {
    buf := [COLON, SPACE];
    buf := buf + text;
    buf := buf + [LF, LF];
  }

  datatype Frame = Event(name: Bytes, data: Bytes) | DataOnly(data: Bytes) | Comment(text: Bytes)

  function Field(name: Bytes, value: Bytes): Bytes {
    name + [COLON, SPACE] + value
  }

  /** A frame is its lines, each ended by LF, and an empty line. */
  function Encode(f: Frame): Bytes {
    match f
    case Event(name, data) => (Field(EVENT, name) + [LF]) + (Field(DATA, data) + [LF]) + [LF]
    case DataOnly(data) => (Field(DATA, data) + [LF]) + [LF]
    case Comment(text) => (Field([], text) + [LF]) + [LF]
  }

  /** The frames byte for byte: "event: ", "data: " and ": " in ASCII, and LF. */
  lemma FrameBytes(name: Bytes, data: Bytes)
    ensures Encode(Event(name, data)) ==
            ([101, 118, 101, 110, 116] + [58, 32] + name + [10]) + ([100, 97, 116, 97] + [58, 32] + data + [10]) + [10]
    ensures Encode(DataOnly(data)) == ([100, 97, 116, 97] + [58, 32] + data + [10]) + [10]
    ensures Encode(Comment(data)) == ([] + [58, 32] + data + [10]) + [10]
  {
  }

  predicate OneLine(s: Bytes) {
    LF !in s && CR !in s
  }

  // ---- the standard's decoder ----

  datatype Message = Message(name: Bytes, data: Bytes)

  /** The line being read, whether an LF completes a CRLF, and the two buffers of the standard. */
  datatype Decoder = Decoder(line: Bytes, afterCR: bool, eventType: Bytes, buffer: Bytes)

  const CLEAN := Decoder([], false, [], [])

  datatype Decoded = Decoded(state: Decoder, messages: seq<Message>)

  function FirstColon(line: Bytes): (n: nat)
    ensures n <= |line| && COLON !in line[..n] && (n < |line| ==> line[n] == COLON)
  {
    if line == [] || line[0] == COLON then 0 else 1 + FirstColon(line[1..])
  }

  function FieldValue(line: Bytes): Bytes {
    var rest := if FirstColon(line) < |line| then line[FirstColon(line) + 1..] else [];
    if rest != [] && rest[0] == SPACE then rest[1..] else rest
  }

  /** A complete line: dispatch, ignore a comment, or process a field. */
  function EndLine(d: Decoder): Decoded {
    var line, next := d.line, d.(line := []);
    if line == [] then
      if d.buffer == [] then Decoded(next.(eventType := []), [])
      else
        var name := if d.eventType == [] then MESSAGE else d.eventType;
        Decoded(next.(eventType := [], buffer := []), [Message(name, d.buffer[..|d.buffer| - 1])])
    else if line[0] == COLON then Decoded(next, [])
    else if line[..FirstColon(line)] == EVENT then Decoded(next.(eventType := FieldValue(line)), [])
    else if line[..FirstColon(line)] == DATA then Decoded(next.(buffer := d.buffer + FieldValue(line) + [LF]), [])
    else Decoded(next, [])
  }

  function Feed(d: Decoder, b: byte): Decoded {
    if b == LF && d.afterCR then Decoded(d.(afterCR := false), [])
    else if b == LF || b == CR then EndLine(d.(afterCR := b == CR))
    else Decoded(d.(line := d.line + [b], afterCR := false), [])
  }

  function Run(d: Decoder, bytes: Bytes): Decoded {
    if bytes == [] then Decoded(d, [])
    else
      var before := Run(d, bytes[..|bytes| - 1]);
      var last := Feed(before.state, bytes[|bytes| - 1]);
      Decoded(last.state, before.messages + last.messages)
  }

  function Decode(bytes: Bytes): seq<Message> {
    Run(CLEAN, bytes).messages
  }

  lemma RunSnoc(d: Decoder, a: Bytes, x: byte)
    ensures var before := Run(d, a);
            var last := Feed(before.state, x);
            Run(d, a + [x]) == Decoded(last.state, before.messages + last.messages)
  {
    assert (a + [x])[..|a|] == a;
  }

  lemma {:induction false} RunConcat(d: Decoder, a: Bytes, b: Bytes)
    ensures Run(d, a + b) ==
            Decoded(Run(Run(d, a).state, b).state, Run(d, a).messages + Run(Run(d, a).state, b).messages)
  {
    if b == [] {
      assert a + b == a && Run(d, a).messages + [] == Run(d, a).messages;
    } else {
      var init, x := b[..|b| - 1], b[|b| - 1];
      RunConcat(d, a, init);
      RunConcatSnoc(d, Run(d, a), a, init, x);
      assert init + [x] == b;
    }
  }

  lemma RunConcatSnoc(d: Decoder, ra: Decoded, a: Bytes, b: Bytes, x: byte)
    requires Run(d, a + b) == Decoded(Run(ra.state, b).state, ra.messages + Run(ra.state, b).messages)
    ensures Run(d, a + (b + [x])) ==
            Decoded(Run(ra.state, b + [x]).state, ra.messages + Run(ra.state, b + [x]).messages)
  {
    RunSnoc(d, a + b, x);
    RunSnoc(ra.state, b, x);
    Associative(a, b, [x]);
    var rb := Run(ra.state, b);
    Associative(ra.messages, rb.messages, Feed(rb.state, x).messages);
  }

  /** Reading a text without line breaks and then an LF processes that line. */
  lemma {:induction false} RunText(d: Decoder, text: Bytes)
    requires OneLine(text) && !d.afterCR
    ensures Run(d, text) == Decoded(d.(line := d.line + text), [])
  {
    if text == [] {
      assert d.line + text == d.line;
    } else {
      var n := |text| - 1;
      assert text == text[..n] + [text[n]];
      RunText(d, text[..n]);
      assert d.line + text == (d.line + text[..n]) + [text[n]];
    }
  }

  lemma RunLine(d: Decoder, text: Bytes, end: byte)
    requires OneLine(text) && !d.afterCR && d.line == [] && (end == LF || end == CR)
    ensures Run(d, text + [end]) == EndLine(d.(line := text, afterCR := end == CR))
  {
    assert d.line + text == text;
    RunText(d, text);
    RunSnoc(d, text, end);
    var last := EndLine(d.(line := text, afterCR := end == CR));
    assert [] + last.messages == last.messages;
  }

  lemma {:induction false} FirstColonIs(line: Bytes, k: nat)
    requires k < |line| && line[k] == COLON && COLON !in line[..k]
    ensures FirstColon(line) == k
  {
    if k > 0 {
      assert line[0] == line[..k][0];
      assert line[1..][..k - 1] == line[..k][1..];
      FirstColonIs(line[1..], k - 1);
    }
  }

  lemma FieldParses(name: Bytes, value: Bytes)
    requires name == EVENT || name == DATA
    ensures var line := Field(name, value);
            FirstColon(line) == |name| && line[..|name|] == name && FieldValue(line) == value
            && line != [] && line[0] != COLON
  {
    var line := Field(name, value);
    assert line[..|name|] == name;
    assert line[|name| + 1..] == [SPACE] + value;
    FirstColonIs(line, |name|);
  }

  lemma RunEventLine(d: Decoder, name: Bytes)
    requires OneLine(name) && !d.afterCR && d.line == []
    ensures Run(d, Field(EVENT, name) + [LF]) == Decoded(d.(eventType := name), [])
  {
    FieldParses(EVENT, name);
    RunLine(d, Field(EVENT, name), LF);
  }

  lemma RunDataLine(d: Decoder, data: Bytes, end: byte)
    requires OneLine(data) && !d.afterCR && d.line == [] && (end == LF || end == CR)
    ensures Run(d, Field(DATA, data) + [end]) ==
            Decoded(d.(buffer := d.buffer + data + [LF], afterCR := end == CR), [])
  {
    FieldParses(DATA, data);
    RunLine(d, Field(DATA, data), end);
  }

  lemma RunBlankLine(d: Decoder)
    requires !d.afterCR && d.line == []
    ensures Run(d, [LF]) == EndLine(d)
  {
    assert [LF][..0] == [];
    assert Run(d, []) == Decoded(d, []);
    assert [] + EndLine(d).messages == EndLine(d).messages;
  }

  predicate Plain(f: Frame) {
    match f
    case Event(name, data) => OneLine(name) && OneLine(data)
    case DataOnly(data) => OneLine(data)
    case Comment(text) => OneLine(text)
  }

  /** What a frame means to a client. An empty event name is not a name. */
  function Meaning(f: Frame): seq<Message> {
    match f
    case Event(name, data) => [Message(if name == [] then MESSAGE else name, data)]
    case DataOnly(data) => [Message(MESSAGE, data)]
    case Comment(_) => []
  }

  lemma RunDataAndBlank(d: Decoder, data: Bytes)
    requires OneLine(data) && !d.afterCR && d.line == [] && d.buffer == []
    ensures Run(d, (Field(DATA, data) + [LF]) + [LF]) ==
            Decoded(CLEAN, [Message(if d.eventType == [] then MESSAGE else d.eventType, data)])
  {
    var line := Field(DATA, data) + [LF];
    RunDataLine(d, data, LF);
    RunConcat(d, line, [LF]);
    var d' := Run(d, line).state;
    assert d'.buffer == data + [LF];
    RunBlankLine(d');
    assert (data + [LF])[..|data|] == data;
  }

  /** A frame read by a clean decoder leaves it clean and yields the frame's meaning. */
  lemma FrameDecodes(f: Frame)
    requires Plain(f)
    ensures Run(CLEAN, Encode(f)) == Decoded(CLEAN, Meaning(f))
  {
    match f
    case Event(name, data) =>
      var first, second := Field(EVENT, name) + [LF], (Field(DATA, data) + [LF]) + [LF];
      assert Encode(f) == first + second;
      RunConcat(CLEAN, first, second);
      RunEventLine(CLEAN, name);
      RunDataAndBlank(CLEAN.(eventType := name), data);
    case DataOnly(data) =>
      RunDataAndBlank(CLEAN, data);
    case Comment(text) =>
      var line := Field([], text);
      RunConcat(CLEAN, line + [LF], [LF]);
      assert line == [COLON, SPACE] + text;
      RunLine(CLEAN, line, LF);
      RunBlankLine(CLEAN);
  }

  function EncodeAll(frames: seq<Frame>): Bytes {
    if frames == [] then [] else EncodeAll(frames[..|frames| - 1]) + Encode(frames[|frames| - 1])
  }

  function MeaningAll(frames: seq<Frame>): seq<Message> {
    if frames == [] then [] else MeaningAll(frames[..|frames| - 1]) + Meaning(frames[|frames| - 1])
  }

  /** Decoding the concatenation of any frames gives back exactly their messages, in order. */
  lemma RoundTrip(frames: seq<Frame>)
    requires forall f :: f in frames ==> Plain(f)
    ensures Decode(EncodeAll(frames)) == MeaningAll(frames)
  {
    FramesDecode(frames, EncodeAll(frames), MeaningAll(frames));
  }

  lemma {:induction false} FramesDecode(frames: seq<Frame>, bytes: Bytes, messages: seq<Message>)
    requires forall f :: f in frames ==> Plain(f)
    requires bytes == EncodeAll(frames) && messages == MeaningAll(frames)
    ensures Run(CLEAN, bytes) == Decoded(CLEAN, messages)
  {
    if frames != [] {
      var init, f := frames[..|frames| - 1], frames[|frames| - 1];
      assert f in frames && forall g :: g in init ==> g in frames;
      FramesDecode(init, EncodeAll(init), MeaningAll(init));
      OneMoreFrame(EncodeAll(init), MeaningAll(init), f);
    }
  }

  lemma OneMoreFrame(bytes: Bytes, messages: seq<Message>, f: Frame)
    requires Run(CLEAN, bytes) == Decoded(CLEAN, messages) && Plain(f)
    ensures Run(CLEAN, bytes + Encode(f)) == Decoded(CLEAN, messages + Meaning(f))
  {
    FrameDecodes(f);
    RunConcat(CLEAN, bytes, Encode(f));
  }

  // ---- when one event survives the trip ----

  predicate Tidy(d: Decoder) {
    OneLine(d.line) && OneLine(d.eventType)
  }

  lemma {:induction false} NamesAreLines(d: Decoder, bytes: Bytes)
    requires Tidy(d)
    ensures Tidy(Run(d, bytes).state)
    ensures forall m :: m in Run(d, bytes).messages ==> m.name != [] && OneLine(m.name)
  {
    if bytes != [] {
      var n := |bytes| - 1;
      NamesAreLines(d, bytes[..n]);
      StepTidy(Run(d, bytes[..n]).state, bytes[n]);
    }
  }

  lemma StepTidy(d: Decoder, b: byte)
    requires Tidy(d)
    ensures Tidy(Feed(d, b).state)
    ensures forall m :: m in Feed(d, b).messages ==> m.name != [] && OneLine(m.name)
  {
    var value := FieldValue(d.line);
    assert forall x :: x in value ==> x in d.line;
  }

  function NonBreaks(bytes: Bytes): nat {
    if bytes == [] then 0
    else
      var b := bytes[|bytes| - 1];
      NonBreaks(bytes[..|bytes| - 1]) + (if b == LF || b == CR then 0 else 1)
  }

  /** The dispatched data, each message counting one more for the LF that was stripped from it. */
  function DataSize(messages: seq<Message>): nat {
    if messages == [] then 0
    else DataSize(messages[..|messages| - 1]) + |messages[|messages| - 1].data| + 1
  }

  function Held(d: Decoder): nat {
    |d.buffer| + |d.line|
  }

  lemma {:induction false} DataSizeConcat(a: seq<Message>, b: seq<Message>)
    ensures DataSize(a + b) == DataSize(a) + DataSize(b)
  {
    if b == [] {
      assert a + b == a;
    } else {
      assert (a + b)[..|a| + |b| - 1] == a + b[..|b| - 1];
      DataSizeConcat(a, b[..|b| - 1]);
    }
  }

  lemma FeedBound(d: Decoder, b: byte)
    ensures DataSize(Feed(d, b).messages) + Held(Feed(d, b).state) <=
            Held(d) + (if b == LF || b == CR then 0 else 1)
  {
    if (b == LF && !d.afterCR) || b == CR {
      EndLineBound(d.(afterCR := b == CR));
    }
  }

  lemma EndLineBound(d: Decoder)
    ensures DataSize(EndLine(d).messages) + Held(EndLine(d).state) <= Held(d)
  {
    if d.line == [] && d.buffer != [] {
      var m := EndLine(d).messages[0];
      assert EndLine(d).messages[..0] == [];
      assert DataSize([m]) == |m.data| + 1;
    } else if d.line != [] && d.line[0] != COLON && d.line[..FirstColon(d.line)] == DATA {
      assert FirstColon(d.line) == |d.line[..FirstColon(d.line)]| == 4;
    }
  }

  /** A decoder never hands out more data than it has read, and line breaks add none. */
  lemma {:induction false} RunBound(d: Decoder, bytes: Bytes)
    ensures DataSize(Run(d, bytes).messages) + Held(Run(d, bytes).state) <= Held(d) + NonBreaks(bytes)
  {
    if bytes != [] {
      var n := |bytes| - 1;
      RunBound(d, bytes[..n]);
      var before := Run(d, bytes[..n]);
      FeedBound(before.state, bytes[n]);
      DataSizeConcat(before.messages, Feed(before.state, bytes[n]).messages);
    }
  }

  lemma {:induction false} NonBreaksAtMost(bytes: Bytes, tail: Bytes)
    requires forall b :: b in tail ==> b == LF || b == CR
    ensures NonBreaks(bytes + tail) <= |bytes|
  {
    if tail != [] {
      var n := |tail| - 1;
      assert (bytes + tail)[..|bytes| + n] == bytes + tail[..n];
      assert forall b :: b in tail[..n] ==> b in tail;
      NonBreaksAtMost(bytes, tail[..n]);
      assert tail[n] in tail;
    } else if bytes != [] {
      assert bytes + tail == bytes;
      var n := |bytes| - 1;
      assert bytes[..n] + [] == bytes[..n];
      NonBreaksAtMost(bytes[..n], []);
    } else {
      assert bytes + tail == [];
    }
  }

  lemma {:induction false} FirstBreak(s: Bytes) returns (k: nat)
    requires !OneLine(s)
    ensures k < |s| && OneLine(s[..k]) && (s[k] == LF || s[k] == CR)
  {
    if s[0] == LF || s[0] == CR {
      k := 0;
    } else {
      k := FirstBreak(s[1..]);
      k := k + 1;
      assert s[..k] == [s[0]] + s[1..][..k - 1];
    }
  }

  /** Data with a line break in it loses at least one byte on the way. */
  lemma BrokenDataIsLost(name: Bytes, data: Bytes)
    requires OneLine(name) && !OneLine(data)
    ensures Decode(Encode(Event(name, data))) != [Message(name, data)]
  {
    var k := FirstBreak(data);
    var rest := data[k + 1..];
    assert data == data[..k] + [data[k]] + rest;
    BrokenEventDecodes(name, data[..k], data[k], rest);
    assert [Message(name, data)][..0] == [];
    assert DataSize([Message(name, data)]) == |data| + 1;
  }

  /** The second line ends early; what the decoder then holds is a byte short of the data. */
  lemma BrokenEventDecodes(name: Bytes, before: Bytes, end: byte, rest: Bytes)
    requires OneLine(name) && OneLine(before) && (end == LF || end == CR)
    ensures DataSize(Decode(Encode(Event(name, before + [end] + rest)))) <= |before| + 1 + |rest|
  {
    var first, second, tail := Field(EVENT, name) + [LF], Field(DATA, before) + [end], rest + [LF, LF];
    var d1 := CLEAN.(eventType := name);
    var d2 := d1.(buffer := d1.buffer + before + [LF], afterCR := end == CR);
    BrokenBytes(name, before, end, rest);
    RunEventLine(CLEAN, name);
    RunDataLine(d1, before, end);
    RunConcat(CLEAN, first, second + tail);
    RunConcat(d1, second, tail);
    RunBound(d2, tail);
    NonBreaksAtMost(rest, [LF, LF]);
    var messages := Run(d2, tail).messages;
    assert [] + ([] + messages) == messages;
  }

  lemma BrokenBytes(name: Bytes, before: Bytes, end: byte, rest: Bytes)
    ensures Encode(Event(name, before + [end] + rest)) ==
            (Field(EVENT, name) + [LF]) + ((Field(DATA, before) + [end]) + (rest + [LF, LF]))
  {
  }

  /** One event comes back as it was sent exactly if its name is not empty and neither part contains a line break. */
  lemma EventRoundTripsIff(name: Bytes, data: Bytes)
    ensures Decode(Encode(Event(name, data))) == [Message(name, data)] <==>
            name != [] && OneLine(name) && OneLine(data)
  {
    if OneLine(name) && OneLine(data) {
      FrameDecodes(Event(name, data));
    } else if OneLine(name) {
      BrokenDataIsLost(name, data);
    } else {
      NamesAreLines(CLEAN, Encode(Event(name, data)));
      assert Message(name, data) !in Decode(Encode(Event(name, data)));
    }
  }
}
