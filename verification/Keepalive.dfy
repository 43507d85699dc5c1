/** The wrapper that fills the gaps of a byte stream with ping comments. */
module Keepalive {
  import opened Wrappers
  import opened Sequences
  import opened Sse

  /** An item of the inner stream: bytes or an error. */
  type Item = Result<Bytes, string>

  datatype Poll = Pending | Ready(item: Option<Item>)

  /** What the wrapper has handed out, by origin. */
  datatype Output = FromInner(item: Item) | Ping

  const PING_BYTES := Encode(Comment(PING))

  /** The items among the first n answers of the inner stream. */
  function Items(inner: nat -> Poll, n: nat): seq<Item> {
    if n == 0 then [] else Items(inner, n - 1) + ItemOf(inner(n - 1))
  }

  function ItemOf(answer: Poll): seq<Item> {
    if answer.Ready? && answer.item.Some? then [answer.item.value] else []
  }

  function WithoutPings(outputs: seq<Output>): seq<Item> {
    if outputs == [] then []
    else WithoutPings(outputs[..|outputs| - 1]) + InnerItem(outputs[|outputs| - 1])
  }

  function InnerItem(output: Output): seq<Item> {
    if output.FromInner? then [output.item] else []
  }

  lemma WithoutPingsSnoc(outputs: seq<Output>, x: Output)
    ensures WithoutPings(outputs + [x]) == WithoutPings(outputs) + InnerItem(x)
  {
    assert (outputs + [x])[..|outputs|] == outputs;
  }

  predicate Ended(inner: nat -> Poll, i: nat) {
    inner(i) == Ready(None)
  }

  /** The inner stream ended in one of its first n answers. */
  predicate EndedBefore(inner: nat -> Poll, n: int) {
    exists i: nat :: i < n && Ended(inner, i)
  }

  lemma EndedBeforeStep(inner: nat -> Poll, n: nat)
    ensures EndedBefore(inner, n) <==> EndedBefore(inner, n - 1) || (0 < n && Ended(inner, n - 1))
  {
  }

  /** What one poll of a wrapper that has not ended hands out. */
  function Handed(answer: Poll, tick: bool): seq<Output> {
    match answer
    case Ready(Some(item)) => [FromInner(item)]
    case Ready(None) => []
    case Pending => if tick then [Ping] else []
  }

  /** What has been handed out by inner origin is what the inner stream gave in its first n answers. */
  predicate Mirrors(outputs: seq<Output>, inner: nat -> Poll, n: nat) {
    WithoutPings(outputs) == Items(inner, n)
  }

  lemma HandedMirrors(outputs: seq<Output>, inner: nat -> Poll, n: nat, tick: bool)
    requires Mirrors(outputs, inner, n)
    ensures Mirrors(outputs + Handed(inner(n), tick), inner, n + 1)
  {
    var answer, items := inner(n), Items(inner, n);
    assert items + [] == items;
    if Handed(answer, tick) == [] {
      assert outputs + [] == outputs;
    } else {
      WithoutPingsSnoc(outputs, Handed(answer, tick)[0]);
    }
  }

  lemma PingBytes()
    ensures PING_BYTES == [58, 32, 112, 105, 110, 103, 10, 10]
  {
  }

  method PingChunk() returns (ping: Bytes)
    ensures ping == PING_BYTES
  {
    ping := AppendComment(PING);
  }

  /** `inner(i)` is what the inner stream would answer to its i-th poll; `polled` counts the polls made. */
  class KeepaliveStream {
    const inner: nat -> Poll
    var polled: nat
    var innerDone: bool
    ghost var outputs: seq<Output>

    /** Exactly the inner items so far, in order, plus pings; and no poll after the inner stream ended. */
    ghost predicate Valid()
      reads this
    {
      && Mirrors(outputs, inner, polled)
      && (innerDone <==> 0 < polled && Ended(inner, polled - 1))
      && !EndedBefore(inner, polled - 1)
    }

    constructor (inner: nat -> Poll)
      ensures Valid() && this.inner == inner && polled == 0 && outputs == []
    {
      this.inner := inner;
      polled, innerDone, outputs := 0, false, [];
    }

    /** `tick` says whether the interval has fired. Real items come first. */
    method PollNext(tick: bool) returns (r: Poll)
      requires Valid()
      modifies this
      ensures Valid()
      ensures old(innerDone) ==> r == Ready(None) && polled == old(polled) && outputs == old(outputs)
      ensures !old(innerDone) ==>
              && polled == old(polled) + 1
              && outputs == old(outputs) + Handed(inner(old(polled)), tick)
              && r == if inner(old(polled)).Pending? && tick then Ready(Some(Ok(PING_BYTES))) else inner(old(polled))
    {
      if innerDone {
        return Ready(None);
      }
      var answer := inner(polled);
      HandedMirrors(outputs, inner, polled, tick);
      EndedBeforeStep(inner, polled);
      outputs := outputs + Handed(answer, tick);
      polled := polled + 1;
      match answer {
        case Ready(Some(item)) =>
          return answer;
        case Ready(None) =>
          innerDone := true;
          return answer;
        case Pending =>
      }
      if tick {
        var ping := PingChunk();
        return Ready(Some(Ok(ping)));
      }
      return Pending;
    }

    /**
     Whatever the poll schedule was: if every inner chunk so far is whole frames, the client decodes from
     what it was handed exactly what the inner stream's own bytes decode to.
     */
    lemma ClientDecodesInner()
      requires Valid()
      requires forall item :: item in Items(inner, polled) && item.Ok? ==> WholeFrames(item.value)
      ensures Decode(WireOf(outputs)) == Decode(BytesOf(Items(inner, polled)))
    {
      PingsAreInvisible(outputs);
    }
  }

  // ---- what a client decodes ----

  ghost predicate WholeFrames(bytes: Bytes) {
    exists frames :: EncodesPlain(frames, bytes)
  }

  predicate EncodesPlain(frames: seq<Frame>, bytes: Bytes) {
    bytes == EncodeAll(frames) && forall f :: f in frames ==> Plain(f)
  }

  /** The bytes of the inner items; an error has none. */
  function BytesOf(items: seq<Item>): Bytes {
    if items == [] then [] else BytesOf(items[..|items| - 1]) + ItemBytes(items[|items| - 1])
  }

  function ItemBytes(item: Item): Bytes {
    if item.Ok? then item.value else []
  }

  /** The bytes on the wire, pings included. */
  function WireOf(outputs: seq<Output>): Bytes {
    if outputs == [] then [] else WireOf(outputs[..|outputs| - 1]) + OutputBytes(outputs[|outputs| - 1])
  }

  function OutputBytes(output: Output): Bytes {
    match output
    case FromInner(item) => ItemBytes(item)
    case Ping => PING_BYTES
  }

  lemma BytesOfSnoc(items: seq<Item>, item: Item)
    ensures BytesOf(items + [item]) == BytesOf(items) + ItemBytes(item)
  {
    assert (items + [item])[..|items|] == items;
  }

  /** Reading whole frames leaves a clean decoder clean. */
  lemma WholeFramesDecode(bytes: Bytes)
    requires WholeFrames(bytes)
    ensures Run(CLEAN, bytes).state == CLEAN
  {
    var frames :| EncodesPlain(frames, bytes);
    FramesDecode(frames, bytes, MeaningAll(frames));
  }

  lemma WireOfSnoc(outputs: seq<Output>, x: Output)
    ensures WireOf(outputs + [x]) == WireOf(outputs) + OutputBytes(x)
  {
    assert (outputs + [x])[..|outputs|] == outputs;
  }

  /** The wire and the inner bytes decode to the same messages and leave a clean decoder. */
  ghost predicate SameDecoding(outputs: seq<Output>) {
    && Run(CLEAN, WireOf(outputs)) == Run(CLEAN, BytesOf(WithoutPings(outputs)))
    && Run(CLEAN, WireOf(outputs)).state == CLEAN
  }

  lemma SameDecodingSnoc(outputs: seq<Output>, x: Output, longer: seq<Output>)
    requires SameDecoding(outputs) && longer == outputs + [x]
    requires x.FromInner? && x.item.Ok? ==> WholeFrames(x.item.value)
    ensures SameDecoding(longer)
  {
    var wire, items := WireOf(outputs), WithoutPings(outputs);
    WireOfSnoc(outputs, x);
    WithoutPingsSnoc(outputs, x);
    if x.FromInner? {
      BytesOfSnoc(items, x.item);
      ItemStep(wire, BytesOf(items), x.item);
    } else {
      assert items + [] == items;
      PingStep(wire);
    }
  }

  lemma {:induction false} SameMessages(outputs: seq<Output>)
    requires forall x :: x in outputs && x.FromInner? && x.item.Ok? ==> WholeFrames(x.item.value)
    ensures SameDecoding(outputs)
  {
    if outputs != [] {
      var init, x := outputs[..|outputs| - 1], outputs[|outputs| - 1];
      SameMessages(init);
      SameDecodingSnoc(init, x, outputs);
    }
  }

  lemma {:induction false} InnerItems(outputs: seq<Output>, x: Output)
    requires x in outputs && x.FromInner?
    ensures x.item in WithoutPings(outputs)
  {
    var init, last := outputs[..|outputs| - 1], outputs[|outputs| - 1];
    assert outputs == init + [last];
    if x in init {
      InnerItems(init, x);
    }
  }

  lemma ItemStep(wire: Bytes, inner: Bytes, item: Item)
    requires Run(CLEAN, wire) == Run(CLEAN, inner) && Run(CLEAN, wire).state == CLEAN
    requires item.Ok? ==> WholeFrames(item.value)
    ensures Run(CLEAN, wire + ItemBytes(item)) == Run(CLEAN, inner + ItemBytes(item))
    ensures Run(CLEAN, wire + ItemBytes(item)).state == CLEAN
  {
    if item.Ok? {
      WholeFramesDecode(item.value);
    }
    RunConcat(CLEAN, wire, ItemBytes(item));
    RunConcat(CLEAN, inner, ItemBytes(item));
  }

  lemma PingStep(wire: Bytes)
    requires Run(CLEAN, wire).state == CLEAN
    ensures Run(CLEAN, wire + PING_BYTES) == Run(CLEAN, wire)
  {
    FrameDecodes(Comment(PING));
    RunConcat(CLEAN, wire, PING_BYTES);
    assert Run(CLEAN, wire).messages + [] == Run(CLEAN, wire).messages;
  }

  /** If every inner item is whole frames, the output decodes as it would without the pings. */
  lemma PingsAreInvisible(outputs: seq<Output>)
    requires forall item :: item in WithoutPings(outputs) && item.Ok? ==> WholeFrames(item.value)
    ensures Decode(WireOf(outputs)) == Decode(BytesOf(WithoutPings(outputs)))
  {
    forall x | x in outputs && x.FromInner? && x.item.Ok?
      ensures WholeFrames(x.item.value)
    {
      InnerItems(outputs, x);
    }
    SameMessages(outputs);
  }

  // ---- a ping between two chunks of one frame ----

  const PING_LINE := [COLON, SPACE] + PING

  /** A ping after the first k bytes of a data frame does no harm. */
  predicate Harmless(text: Bytes, k: nat) {
    var line := Field(DATA, text);
    k == 0 || k > |line| || line[k..] == PING_LINE || (k == 5 && text == PING_LINE)
  }

  /**
   For every cut of a data frame: the client decodes the same with a ping in the cut exactly if the cut is
   at the frame's ends or after its data line, or what it cuts off happens to be the ping's own text.
   */
  lemma PingInsideAFrame(text: Bytes, k: nat)
    requires OneLine(text) && k <= |Encode(DataOnly(text))|
    ensures var frame := Encode(DataOnly(text));
            Decode(frame[..k] + PING_BYTES + frame[k..]) == Decode(frame) <==> Harmless(text, k)
  {
    var line := Field(DATA, text);
    FrameDecodes(DataOnly(text));
    if k == 0 || k == |line| + 2 {
      PingAtAnEnd(text, k);
    } else if k == |line| + 1 {
      PingBeforeTheBlankLine(text);
    } else {
      PingInsideTheLine(text, k);
    }
  }

  lemma PingAtAnEnd(text: Bytes, k: nat)
    requires OneLine(text) && (k == 0 || k == |Encode(DataOnly(text))|)
    ensures var frame := Encode(DataOnly(text));
            Decode(frame[..k] + PING_BYTES + frame[k..]) == Decode(frame)
  {
    var frame := Encode(DataOnly(text));
    FrameDecodes(DataOnly(text));
    if k == 0 {
      PingFirst(frame);
      assert frame[..0] + PING_BYTES + frame[0..] == PING_BYTES + frame;
    } else {
      PingStep(frame);
      assert frame[..k] + PING_BYTES + frame[k..] == frame + PING_BYTES;
    }
  }

  lemma PingFirst(bytes: Bytes)
    ensures Decode(PING_BYTES + bytes) == Decode(bytes)
  {
    FrameDecodes(Comment(PING));
    RunConcat(CLEAN, PING_BYTES, bytes);
    assert [] + Run(CLEAN, bytes).messages == Run(CLEAN, bytes).messages;
  }

  lemma PingBeforeTheBlankLine(text: Bytes)
    requires OneLine(text)
    ensures var frame, k := Encode(DataOnly(text)), |Field(DATA, text)| + 1;
            Decode(frame[..k] + PING_BYTES + frame[k..]) == Decode(frame)
  {
    var frame, line := Encode(DataOnly(text)), Field(DATA, text) + [LF];
    var comment := PING_LINE + [LF];
    assert frame[..|line|] + PING_BYTES + frame[|line|..] == (line + comment) + [LF] + [LF];
    FrameDecodes(DataOnly(text));
    RunDataLine(CLEAN, text, LF);
    var d := Run(CLEAN, line).state;
    RunLine(d, PING_LINE, LF);
    RunConcat(CLEAN, line, comment);
    assert Run(CLEAN, line + comment) == Run(CLEAN, line);
    RunConcat(CLEAN, line + comment, [LF]);
    RunConcat(CLEAN, line, [LF]);
    assert line + [LF] == frame;
    RunConcat(CLEAN, line + comment + [LF], [LF]);
    RunBlankLine(CLEAN);
  }

  /** The first half of the line and the ping make one line, which is dispatched; the second half starts over. */
  lemma SplitLine(text: Bytes, k: nat)
    requires OneLine(text) && 0 < k <= |Field(DATA, text)|
    ensures var frame, line := Encode(DataOnly(text)), Field(DATA, text);
            frame[..k] + PING_BYTES + frame[k..] == (line[..k] + PING_LINE + [LF, LF]) + (line[k..] + [LF, LF])
  {
  }

  lemma PingInsideTheLine(text: Bytes, k: nat)
    requires OneLine(text) && 0 < k <= |Field(DATA, text)|
    ensures var frame := Encode(DataOnly(text));
            Decode(frame[..k] + PING_BYTES + frame[k..]) == [Message(MESSAGE, text)] <==> Harmless(text, k)
  {
    var line := Field(DATA, text);
    var first, second := line[..k] + PING_LINE, line[k..];
    SplitLine(text, k);
    RunConcat(CLEAN, first + [LF, LF], second + [LF, LF]);
    if k < 4 {
      CutInTheName(text, k);
    } else if k == 4 {
      CutAtTheColon(text);
      assert [Message(MESSAGE, PING)] + [] == [Message(MESSAGE, PING)];
    } else if k == 5 {
      CutAtTheSpace(text);
      assert [Message(MESSAGE, PING_LINE)] + [] == [Message(MESSAGE, PING_LINE)];
    } else {
      CutInTheData(text, k - 6);
      var m, rest := Message(MESSAGE, text[..k - 6] + PING_LINE), Run(CLEAN, second + [LF, LF]).messages;
      assert ([m] + rest)[0] == m;
      if line[k..] == PING_LINE {
        assert [m] + [] == [m];
      }
    }
  }

  /** A line with a field name the standard does not dispatch on leaves nothing behind. */
  lemma IgnoredLine(line: Bytes)
    requires OneLine(line) && line != [] && line[0] != COLON
    requires line[..FirstColon(line)] != EVENT && line[..FirstColon(line)] != DATA
    ensures Run(CLEAN, line + [LF, LF]) == Decoded(CLEAN, [])
  {
    RunLine(CLEAN, line, LF);
    RunConcat(CLEAN, line + [LF], [LF]);
    RunBlankLine(CLEAN);
    assert line + [LF, LF] == (line + [LF]) + [LF];
  }

  lemma CommentLine(text: Bytes)
    requires OneLine(text)
    ensures Run(CLEAN, [COLON, SPACE] + text + [LF, LF]) == Decoded(CLEAN, [])
  {
    FrameDecodes(Comment(text));
    assert [COLON, SPACE] + text + [LF, LF] == Encode(Comment(text));
  }

  lemma DataLine(text: Bytes)
    requires OneLine(text)
    ensures Run(CLEAN, Field(DATA, text) + [LF, LF]) == Decoded(CLEAN, [Message(MESSAGE, text)])
  {
    FrameDecodes(DataOnly(text));
    assert Field(DATA, text) + [LF, LF] == Encode(DataOnly(text));
  }

  lemma CutInTheName(text: Bytes, k: nat)
    requires OneLine(text) && 0 < k < 4
    ensures var line := Field(DATA, text);
            && Run(CLEAN, line[..k] + PING_LINE + [LF, LF]) == Decoded(CLEAN, [])
            && Run(CLEAN, line[k..] + [LF, LF]) == Decoded(CLEAN, [])
            && line[k..] != PING_LINE
  {
    var line := Field(DATA, text);
    var first, second := line[..k] + PING_LINE, line[k..];
    assert first[..k] == DATA[..k] && second[..4 - k] == DATA[k..];
    FirstColonIs(first, k);
    FirstColonIs(second, 4 - k);
    IgnoredLine(first);
    IgnoredLine(second);
  }

  lemma CutAtTheColon(text: Bytes)
    requires OneLine(text)
    ensures var line := Field(DATA, text);
            && Run(CLEAN, line[..4] + PING_LINE + [LF, LF]) == Decoded(CLEAN, [Message(MESSAGE, PING)])
            && Run(CLEAN, line[4..] + [LF, LF]) == Decoded(CLEAN, [])
            && (line[4..] == PING_LINE <==> text == PING)
  {
    var line := Field(DATA, text);
    assert line[..4] + PING_LINE == Field(DATA, PING);
    assert line[4..] == [COLON, SPACE] + text;
    assert line[4..][2..] == text && PING_LINE[2..] == PING;
    DataLine(PING);
    CommentLine(text);
  }

  lemma CutAtTheSpace(text: Bytes)
    requires OneLine(text)
    ensures var line := Field(DATA, text);
            && Run(CLEAN, line[..5] + PING_LINE + [LF, LF]) == Decoded(CLEAN, [Message(MESSAGE, PING_LINE)])
            && Run(CLEAN, line[5..] + [LF, LF]) == Decoded(CLEAN, [])
            && line[5..] != PING_LINE
  {
    var line := Field(DATA, text);
    var first, second := line[..5] + PING_LINE, line[5..];
    assert first[..4] == DATA && first[4] == COLON;
    FirstColonIs(first, 4);
    assert first[5..] == PING_LINE;
    BareDataLine(first, PING_LINE);
    assert second[0] == SPACE;
    assert second[..FirstColon(second)] != [] ==> second[..FirstColon(second)][0] == SPACE;
    IgnoredLine(second);
  }

  lemma BareDataLine(line: Bytes, value: Bytes)
    requires OneLine(line) && line != [] && line[0] != COLON
    requires line[..FirstColon(line)] == DATA && FieldValue(line) == value
    ensures Run(CLEAN, line + [LF, LF]) == Decoded(CLEAN, [Message(MESSAGE, value)])
  {
    RunLine(CLEAN, line, LF);
    RunConcat(CLEAN, line + [LF], [LF]);
    var d := Run(CLEAN, line + [LF]).state;
    assert d.buffer == value + [LF];
    assert (value + [LF])[..|value|] == value;
    RunBlankLine(d);
    assert line + [LF, LF] == (line + [LF]) + [LF];
  }

  lemma CutInTheData(text: Bytes, j: nat)
    requires OneLine(text) && j <= |text|
    ensures var line, k := Field(DATA, text), j + 6;
            && Run(CLEAN, line[..k] + PING_LINE + [LF, LF]) == Decoded(CLEAN, [Message(MESSAGE, text[..j] + PING_LINE)])
            && line[k..] == text[j..]
            && (text[..j] + PING_LINE == text <==> text[j..] == PING_LINE)
            && (text[j..] == PING_LINE ==> Run(CLEAN, text[j..] + [LF, LF]) == Decoded(CLEAN, []))
  {
    var line, k := Field(DATA, text), j + 6;
    assert line[..k] + PING_LINE == Field(DATA, text[..j] + PING_LINE);
    DataLine(text[..j] + PING_LINE);
    assert (text[..j] + PING_LINE)[j..] == PING_LINE;
    assert text[..j] + text[j..] == text;
    CommentLine(PING);
  }
}
