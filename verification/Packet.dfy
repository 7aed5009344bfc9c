/**
  A packet: a queue of bytes inside one array. Bytes are pushed at the end and popped at
  the front, and the three header bytes slide forward so that they always lie just
  before the first byte that is left.
*/
module Packets {
  import opened Framing

  const NUL: byte := 0

  // ------------------------------------------------------------------- queue

  /** The type of a packet, the bytes it still holds, and how much of its array was used. */
  datatype Message = Message(kind: byte, payload: seq<byte>, used: nat)

  datatype Op = Push(value: seq<byte>) | Pop(n: nat) | PushStr(text: seq<byte>) | PopStr | Merge(added: seq<byte>)

  datatype Outcome = Done | Got(value: seq<byte>) | Thrown

  function Low(n: nat): byte { n % 256 }

  function High(n: nat): byte { n / 256 % 256 }

  lemma LengthBytes(n: nat)
    requires n <= MAX_PACKET_LENGTH
    ensures Low(n) + 256 * High(n) == n
  {
  }

  function Zeros(n: nat): seq<byte> { seq(n, _ => 0) }

  /** Up to the first NUL, as C sees a string; the whole sequence when there is none. */
  function Text(s: seq<byte>): (t: seq<byte>)
    ensures |t| <= |s| && t == s[..|t|] && NUL !in t
    ensures |t| < |s| ==> s[|t|] == NUL
    ensures NUL !in s ==> t == s
  {
    if s == [] || s[0] == NUL then [] else [s[0]] + Text(s[1..])
  }

  function Appended(m: Message, value: seq<byte>): Message {
    Message(m.kind, m.payload + value, m.used + |value|)
  }

  /**
    The new length is written before the type is copied. After a pop of one byte the type
    is copied from the high byte of the new length, after two from its low byte.
  */
  function KindAfterPop(kind: byte, n: nat, left: nat): byte {
    if n == 1 then High(left + HEADER) else if n == 2 then Low(left + HEADER) else kind
  }

  function Shortened(m: Message, n: nat): Message
    requires n <= |m.payload|
  {
    Message(KindAfterPop(m.kind, n, |m.payload| - n), m.payload[n..], m.used)
  }

  function Step(m: Message, op: Op): (Message, Outcome) {
    match op
    case Push(value) =>
      (if m.used + |value| > MAX_PACKET_LENGTH then m else Appended(m, value), Done)
    case Pop(n) =>
      if |m.payload| < n then (m, Got(Zeros(n))) else (Shortened(m, n), Got(m.payload[..n]))
    case PushStr(text) =>
      var value := Text(text) + [NUL];
      if m.used + |value| > MAX_PACKET_LENGTH then (m, Thrown) else (Appended(m, value), Done)
    case PopStr =>
      var text := Text(m.payload);
      if |text| == |m.payload| then (m, Thrown) else (Shortened(m, |text| + 1), Got(text))
    case Merge(added) =>
      if m.used + |added| > MAX_PACKET_LENGTH then (m, Thrown) else (Appended(m, added), Done)
  }

  // ------------------------------------------------------------------- array

  class Packet {
    const buffer: array<byte>
    var header: nat
    var begin: nat
    var end: nat

    /** The header lies before the bytes that are left, and its length field counts both. */
    ghost predicate Valid()
      reads this, buffer
    {
      && buffer.Length == MAX_PACKET_LENGTH
      && HEADER <= begin <= end <= buffer.Length
      && header == begin - HEADER
      && LengthField(buffer[header..header + 2]) == end - header
    }

    function Contents(): (m: Message)
      requires Valid()
      reads this, buffer
      ensures Proper(m)
    {
      Message(buffer[header + 2], buffer[begin..end], end)
    }

    constructor (kind: byte)
      ensures Valid() && fresh(buffer)
      ensures Contents() == Message(kind, [], HEADER)
    {
      buffer := new byte[MAX_PACKET_LENGTH];
      header, begin, end := 0, HEADER, HEADER;
      new;
      buffer[0], buffer[1], buffer[2] := 3, 0, kind;
    }

    /** A packet that was received. */
    constructor FromBytes(data: seq<byte>)
      requires WellFormed(data)
      ensures Valid() && fresh(buffer)
      ensures Contents() == Message(data[2], data[HEADER..], |data|)
    {
      buffer := new byte[MAX_PACKET_LENGTH];
      header, begin, end := 0, HEADER, |data|;
      new;
      forall i | 0 <= i < |data| {
        buffer[i] := data[i];
      }
      assert buffer[..|data|] == data;
    }

    function Bytes(): seq<byte>
      requires Valid()
      reads this, buffer
    {
      buffer[header..end]
    }

    method ResetSize()
      requires buffer.Length == MAX_PACKET_LENGTH
      requires HEADER <= begin <= end <= buffer.Length && header <= begin - HEADER
      modifies this, buffer
      ensures Valid() && begin == old(begin) && end == old(end)
      ensures buffer[begin..end] == old(buffer[begin..end])
      ensures Contents().kind == KindAfterPop(old(buffer[header + 2]), begin - HEADER - old(header), end - begin)
    {
      var size := end - begin + HEADER;
      LengthBytes(size);
      hide Low, High;
      buffer[begin - 3] := Low(size);
      buffer[begin - 2] := High(size);
      buffer[begin - 1] := buffer[header + 2];
      header := begin - HEADER;
    }

    method Append(value: seq<byte>)
      requires Valid() && end + |value| <= MAX_PACKET_LENGTH
      modifies this, buffer
      ensures Valid() && Contents() == Appended(old(Contents()), value)
    {
      forall i | 0 <= i < |value| {
        buffer[end + i] := value[i];
      }
      end := end + |value|;
      ResetSize();
    }

    method Push(value: seq<byte>)
      requires Valid()
      modifies this, buffer
      ensures Valid() && Contents() == Step(old(Contents()), Op.Push(value)).0
      ensures var m, after := old(Contents()), Contents();
        after.kind == m.kind && after.payload == if m.used + |value| <= 32768 then m.payload + value else m.payload
    {
      if end + |value| > MAX_PACKET_LENGTH {
        return;
      }
      Append(value);
    }

    method Pop(n: nat) returns (value: seq<byte>)
      requires Valid()
      modifies this, buffer
      ensures Valid() && (Contents(), Got(value)) == Step(old(Contents()), Op.Pop(n))
      ensures var m, after := old(Contents()), Contents();
        if n <= |m.payload| then m.payload == value + after.payload && |value| == n
        else after == m && |value| == n && forall b <- value :: b == 0
    {
      if end - begin < n {
        return Zeros(n);
      }
      value := buffer[begin..begin + n];
      assert buffer[begin..end][..n] == value && buffer[begin..end][n..] == buffer[begin + n..end];
      begin := begin + n;
      ResetSize();
    }

    method PushStr(text: seq<byte>) returns (outcome: Outcome)
      requires Valid()
      modifies this, buffer
      ensures Valid() && (Contents(), outcome) == Step(old(Contents()), Op.PushStr(text))
      ensures outcome == Thrown <==> old(Contents()).used + |Text(text)| + 1 > 32768
      ensures outcome == Thrown ==> Contents() == old(Contents())
      ensures outcome != Thrown ==>
        outcome == Done && Contents().kind == old(Contents()).kind && Contents().payload == old(Contents()).payload + Text(text) + [0]
    {
      var value := Text(text) + [NUL];
      if end + |value| > MAX_PACKET_LENGTH {
        return Thrown;
      }
      Append(value);
      return Done;
    }

    method PopStr() returns (outcome: Outcome)
      requires Valid()
      modifies this, buffer
      ensures Valid() && (Contents(), outcome) == Step(old(Contents()), Op.PopStr)
      ensures 0 !in old(Contents()).payload ==> outcome == Thrown && Contents() == old(Contents())
      ensures 0 in old(Contents()).payload ==>
        outcome.Got? && 0 !in outcome.value && old(Contents()).payload == outcome.value + [0] + Contents().payload
    {
      hide Text;
      ghost var payload := buffer[begin..end];
      var text := Text(buffer[begin..end]);
      if end - begin < |text| + 1 {
        return Thrown;
      }
      assert payload[|text| + 1..] == buffer[begin + |text| + 1..end];
      begin := begin + |text| + 1;
      ResetSize();
      return Got(text);
    }

    method Merge(other: Packet) returns (outcome: Outcome)
      requires Valid() && other.Valid()
      modifies this, buffer
      ensures Valid()
      ensures (Contents(), outcome) == Step(old(Contents()), Op.Merge(old(other.Contents().payload)))
      ensures var m, after, added := old(Contents()), Contents(), old(other.Contents().payload);
        after.kind == m.kind && if m.used + |added| <= 32768 then outcome == Done && after.payload == m.payload + added
                                else outcome == Thrown && after == m
    {
      var added := other.buffer[other.begin..other.end];
      if end + |added| > MAX_PACKET_LENGTH {
        return Thrown;
      }
      Append(added);
      return Done;
    }
  }

  // -------------------------------------------------------------------- runs

  function Run(m: Message, ops: seq<Op>): Message
    decreases |ops|
  {
    if ops == [] then m else Run(Step(m, ops[0]).0, ops[1..])
  }

  /** What an operation added to the queue, and what it took from it. */
  function Added(m: Message, op: Op): seq<byte> {
    var after := Step(m, op).0;
    if |after.payload| > |m.payload| then after.payload[|m.payload|..] else []
  }

  function Taken(m: Message, op: Op): seq<byte> {
    var after := Step(m, op).0;
    if |after.payload| < |m.payload| then m.payload[..|m.payload| - |after.payload|] else []
  }

  function AllAdded(m: Message, ops: seq<Op>): seq<byte>
    decreases |ops|
  {
    if ops == [] then [] else Added(m, ops[0]) + AllAdded(Step(m, ops[0]).0, ops[1..])
  }

  function AllTaken(m: Message, ops: seq<Op>): seq<byte>
    decreases |ops|
  {
    if ops == [] then [] else Taken(m, ops[0]) + AllTaken(Step(m, ops[0]).0, ops[1..])
  }

  predicate Proper(m: Message) {
    HEADER + |m.payload| <= m.used <= MAX_PACKET_LENGTH
  }

  /** No operation takes one byte or two; a string of one character counts, with its NUL, as two. */
  predicate NoShortPops(m: Message, ops: seq<Op>)
    decreases |ops|
  {
    ops != [] ==> |Taken(m, ops[0])| != 1 && |Taken(m, ops[0])| != 2 && NoShortPops(Step(m, ops[0]).0, ops[1..])
  }

  lemma StepIsQueue(m: Message, op: Op)
    requires Proper(m)
    ensures var after := Step(m, op).0;
      && Proper(after)
      && m.payload + Added(m, op) == Taken(m, op) + after.payload
      && after.used == m.used + |Added(m, op)|
      && (|Taken(m, op)| != 1 && |Taken(m, op)| != 2 ==> after.kind == m.kind)
  {
    hide Text;
    var after := Step(m, op).0;
    if after.payload != m.payload && (op.Push? || op.PushStr? || op.Merge?) {
      var value := match op case Push(value) => value case PushStr(text) => Text(text) + [NUL] case Merge(added) => added;
      assert (m.payload + value)[|m.payload|..] == value;
    } else if after.payload != m.payload {
      var n := if op.Pop? then op.n else |Text(m.payload)| + 1;
      assert m.payload[..n] + m.payload[n..] == m.payload;
    }
  }

  lemma QueuesCompose(start: seq<byte>, add: seq<byte>, take: seq<byte>, mid: seq<byte>,
                      add': seq<byte>, take': seq<byte>, end: seq<byte>)
    requires start + add == take + mid && mid + add' == take' + end
    ensures start + (add + add') == (take + take') + end
  {
    assert start + (add + add') == (take + mid) + add';
    assert (take + take') + end == take + (mid + add');
  }

  /**
    First in, first out, over any run: what was there and what was added comes out in that
    order, nothing is lost between, and without short pops the type stays.
  */
  lemma {:induction false} RunIsQueue(m: Message, ops: seq<Op>)
    requires Proper(m)
    ensures Proper(Run(m, ops))
    ensures m.payload + AllAdded(m, ops) == AllTaken(m, ops) + Run(m, ops).payload
    ensures Run(m, ops).used == m.used + |AllAdded(m, ops)|
    ensures NoShortPops(m, ops) ==> Run(m, ops).kind == m.kind
    decreases |ops|
  {
    if ops == [] {
      assert m.payload + [] == [] + m.payload;
    } else {
      var op, after := ops[0], Step(m, ops[0]).0;
      StepIsQueue(m, op);
      RunIsQueue(after, ops[1..]);
      hide Step, Added, Taken, Proper;
      QueuesCompose(m.payload, Added(m, op), Taken(m, op), after.payload,
                    AllAdded(after, ops[1..]), AllTaken(after, ops[1..]), Run(m, ops).payload);
    }
  }

  /** No step looks at the type, and a pop of one byte or two writes over it whatever it was. */
  lemma StepIgnoresKind(m: Message, kind: byte, op: Op)
    ensures var other := m.(kind := kind);
      && Taken(other, op) == Taken(m, op)
      && Step(other, op).0 == if |Taken(m, op)| == 1 || |Taken(m, op)| == 2 then Step(m, op).0
                              else Step(m, op).0.(kind := kind)
  {
  }

  lemma {:induction false} KindIsCarried(m: Message, kind: byte, ops: seq<Op>)
    ensures Run(m.(kind := kind), ops) == if NoShortPops(m, ops) then Run(m, ops).(kind := kind) else Run(m, ops)
    decreases |ops|
  {
    if ops != [] {
      StepIgnoresKind(m, kind, ops[0]);
      KindIsCarried(Step(m, ops[0]).0, kind, ops[1..]);
    }
  }

  /** A run keeps the type of every packet exactly when it never takes one byte or two. */
  lemma TypeSurvivesIff(m: Message, ops: seq<Op>)
    ensures (forall kind: byte :: Run(m.(kind := kind), ops).kind == kind) <==> NoShortPops(m, ops)
  {
    forall kind: byte
      ensures Run(m.(kind := kind), ops).kind == if NoShortPops(m, ops) then kind else Run(m, ops).kind
    {
      KindIsCarried(m, kind, ops);
    }
    if !NoShortPops(m, ops) {
      assert Run(m.(kind := 0), ops).kind == Run(m.(kind := 1), ops).kind;
    }
  }

  /** The smallest run that loses the type of a packet: one byte pushed and popped. */
  lemma ShortPopLosesType(kind: byte)
    ensures Run(Message(kind, [], HEADER), [Push([7]), Pop(1)]) == Message(0, [], HEADER + 1)
  {
    var ops := [Push([7]), Pop(1)];
    var m := Message(kind, [], HEADER);
    assert ops[1..] == [Pop(1)];
    var pushed := Step(m, ops[0]).0;
    assert pushed == Message(kind, [7], HEADER + 1);
    assert Step(pushed, Pop(1)).0 == Message(0, [], HEADER + 1);
    assert Run(pushed, [Pop(1)]) == Run(Message(0, [], HEADER + 1), []);
  }

  lemma {:induction false} TextEndsAtNul(text: seq<byte>, rest: seq<byte>)
    requires NUL !in text
    ensures Text(text + [NUL] + rest) == text
  {
    var s := text + [NUL] + rest;
    if text != [] {
      assert s[0] == text[0] && text[0] in text;
      assert s[1..] == text[1..] + [NUL] + rest;
      TextEndsAtNul(text[1..], rest);
    }
  }

  /** Bytes that were pushed are popped when everything before them is gone, whatever came after them. */
  lemma PushedComesBack(m: Message, value: seq<byte>, later: Message, rest: seq<byte>)
    requires m.used + |value| <= MAX_PACKET_LENGTH
    requires later.payload == Step(m, Push(value)).0.payload[|m.payload|..] + rest
    ensures Step(later, Pop(|value|)).1 == Got(value) && Step(later, Pop(|value|)).0.payload == rest
  {
    assert (m.payload + value)[|m.payload|..] == value;
    assert (value + rest)[..|value|] == value && (value + rest)[|value|..] == rest;
  }

  /** So are strings, up to their first NUL. */
  lemma StringsComeBack(m: Message, text: seq<byte>, later: Message, rest: seq<byte>)
    requires m.used + |Text(text)| + 1 <= MAX_PACKET_LENGTH
    requires later.payload == Step(m, PushStr(text)).0.payload[|m.payload|..] + rest
    ensures Step(later, PopStr).1 == Got(Text(text)) && Step(later, PopStr).0.payload == rest
  {
    var value := Text(text) + [NUL];
    assert (m.payload + value)[|m.payload|..] == value;
    TextEndsAtNul(Text(text), rest);
    assert (value + rest)[|value|..] == rest;
  }

  // ------------------------------------------------------------------- fields

  /** A field of a record: a value of fixed size, or a string, which is sent up to its first NUL. */
  datatype Field = Value(bytes: seq<byte>) | Words(text: seq<byte>)

  function PushOf(f: Field): Op {
    match f
    case Value(bytes) => Push(bytes)
    case Words(text) => PushStr(text)
  }

  function PopOf(f: Field): Op {
    match f
    case Value(bytes) => Pop(|bytes|)
    case Words(_) => PopStr
  }

  /** What a reader of the field gets. */
  function Content(f: Field): seq<byte> {
    match f
    case Value(bytes) => bytes
    case Words(text) => Text(text)
  }

  function Wire(f: Field): seq<byte> {
    match f
    case Value(bytes) => bytes
    case Words(text) => Text(text) + [NUL]
  }

  function AllWires(fields: seq<Field>): seq<byte> {
    if fields == [] then [] else Wire(fields[0]) + AllWires(fields[1..])
  }

  /**
    A program that writes fields, one by one or a whole packet of them by merging it, and
    reads them, and the fields it has written and not read yet.
  */
  datatype Turn = Write(f: Field) | WriteAll(fields: seq<Field>) | ReadNext

  function Pending(queue: seq<Field>, turn: Turn): seq<Field>
    requires turn.ReadNext? ==> queue != []
  {
    match turn
    case Write(f) => queue + [f]
    case WriteAll(fields) => queue + fields
    case ReadNext => queue[1..]
  }

  /** Nothing is read before it was written, and so much room is enough. */
  predicate Feasible(queue: seq<Field>, turns: seq<Turn>, room: int)
    decreases |turns|
  {
    if turns == [] then
      true
    else if turns[0].Write? then
      |Wire(turns[0].f)| <= room && Feasible(Pending(queue, turns[0]), turns[1..], room - |Wire(turns[0].f)|)
    else if turns[0].WriteAll? then
      var n := |AllWires(turns[0].fields)|;
      n <= room && Feasible(Pending(queue, turns[0]), turns[1..], room - n)
    else
      queue != [] && Feasible(Pending(queue, turns[0]), turns[1..], room)
  }

  /** The operations the turns stand for: a field is popped the way it was pushed. */
  function OpsOf(queue: seq<Field>, turns: seq<Turn>, room: int): seq<Op>
    requires Feasible(queue, turns, room)
    decreases |turns|
  {
    if turns == [] then []
    else
      match turns[0]
      case Write(f) => [PushOf(f)] + OpsOf(Pending(queue, turns[0]), turns[1..], room - |Wire(f)|)
      case WriteAll(fields) =>
        [Merge(AllWires(fields))] + OpsOf(Pending(queue, turns[0]), turns[1..], room - |AllWires(fields)|)
      case ReadNext => [PopOf(queue[0])] + OpsOf(Pending(queue, turns[0]), turns[1..], room)
  }

  /** What a queue of fields would answer. */
  function Answers(queue: seq<Field>, turns: seq<Turn>, room: int): seq<Outcome>
    requires Feasible(queue, turns, room)
    decreases |turns|
  {
    if turns == [] then []
    else
      match turns[0]
      case Write(f) => [Done] + Answers(Pending(queue, turns[0]), turns[1..], room - |Wire(f)|)
      case WriteAll(fields) => [Done] + Answers(Pending(queue, turns[0]), turns[1..], room - |AllWires(fields)|)
      case ReadNext => [Got(Content(queue[0]))] + Answers(Pending(queue, turns[0]), turns[1..], room)
  }

  function Outcomes(m: Message, ops: seq<Op>): seq<Outcome>
    decreases |ops|
  {
    if ops == [] then [] else [Step(m, ops[0]).1] + Outcomes(Step(m, ops[0]).0, ops[1..])
  }

  lemma {:induction false} WiresAppend(fields: seq<Field>, more: seq<Field>)
    ensures AllWires(fields + more) == AllWires(fields) + AllWires(more)
  {
    if fields == [] {
      assert fields + more == more;
    } else {
      assert (fields + more)[1..] == fields[1..] + more;
      WiresAppend(fields[1..], more);
    }
  }

  lemma FieldsAreMerged(m: Message, fields: seq<Field>)
    requires m.used + |AllWires(fields)| <= MAX_PACKET_LENGTH
    ensures Step(m, Merge(AllWires(fields))) == (Appended(m, AllWires(fields)), Done)
  {
  }

  lemma FieldIsPushed(m: Message, f: Field)
    requires m.used + |Wire(f)| <= MAX_PACKET_LENGTH
    ensures Step(m, PushOf(f)) == (Appended(m, Wire(f)), Done)
  {
  }

  lemma FieldIsPopped(m: Message, f: Field, rest: seq<byte>)
    requires m.payload == Wire(f) + rest
    ensures Step(m, PopOf(f)).1 == Got(Content(f))
    ensures Step(m, PopOf(f)).0.payload == rest && Step(m, PopOf(f)).0.used == m.used
  {
    if f.Value? {
      TakeFront(f.bytes, rest);
    } else {
      WordsArePopped(m, Text(f.text), rest);
    }
  }

  lemma TakeFront(a: seq<byte>, b: seq<byte>)
    ensures (a + b)[..|a|] == a && (a + b)[|a|..] == b
  {
  }

  lemma WordsArePopped(m: Message, text: seq<byte>, rest: seq<byte>)
    requires NUL !in text && m.payload == text + [NUL] + rest
    ensures Step(m, PopStr) == (Shortened(m, |text| + 1), Got(text)) && m.payload[|text| + 1..] == rest
  {
    hide Text;
    TextEndsAtNul(text, rest);
    TakeFront(text + [NUL], rest);
  }

  /**
    A packet is a queue of fields: in any run that pops each field the way it was pushed,
    here or into a packet that was merged, as long as there is room, every field comes back
    whole, in the order of writing.
  */
  lemma {:induction false} FieldsComeBack(m: Message, queue: seq<Field>, turns: seq<Turn>)
    requires m.payload == AllWires(queue) && Feasible(queue, turns, MAX_PACKET_LENGTH - m.used)
    ensures var room := MAX_PACKET_LENGTH - m.used;
      Outcomes(m, OpsOf(queue, turns, room)) == Answers(queue, turns, room)
    decreases |turns|
  {
    hide Step, Wire, Content, PushOf, PopOf;
    if turns != [] {
      var room := MAX_PACKET_LENGTH - m.used;
      var ops := OpsOf(queue, turns, room);
      match turns[0]
      case Write(f) =>
        FieldIsPushed(m, f);
        assert AllWires([f]) == Wire(f) + AllWires([]);
        WiresAppend(queue, [f]);
        FieldsComeBack(Appended(m, Wire(f)), queue + [f], turns[1..]);
        assert ops[1..] == OpsOf(queue + [f], turns[1..], room - |Wire(f)|);
      case WriteAll(fields) =>
        FieldsAreMerged(m, fields);
        WiresAppend(queue, fields);
        FieldsComeBack(Appended(m, AllWires(fields)), queue + fields, turns[1..]);
        assert ops[1..] == OpsOf(queue + fields, turns[1..], room - |AllWires(fields)|);
      case ReadNext =>
        FieldIsPopped(m, queue[0], AllWires(queue[1..]));
        FieldsComeBack(Step(m, PopOf(queue[0])).0, queue[1..], turns[1..]);
        assert ops[1..] == OpsOf(queue[1..], turns[1..], room);
    }
  }

  // -------------------------------------------------------------- on the wire

  function Encoded(m: Message): seq<byte> {
    [Low(|m.payload| + HEADER), High(|m.payload| + HEADER), m.kind] + m.payload
  }

  lemma BytesAreEncoded(p: Packet)
    requires p.Valid()
    ensures p.Bytes() == Encoded(p.Contents())
    ensures var n := |p.Contents().payload| + 3;
      p.Bytes() == [n % 256, n / 256, p.Contents().kind] + p.Contents().payload
  {
    var size := p.end - p.header;
    assert p.buffer[p.header..p.header + 2] == [Low(size), High(size)];
  }

  lemma EncodedIsWellFormed(m: Message)
    requires |m.payload| + HEADER <= MAX_PACKET_LENGTH
    ensures WellFormed(Encoded(m)) && Encoded(m)[2] == m.kind && Encoded(m)[HEADER..] == m.payload
  {
  }

  function AllEncoded(ms: seq<Message>): seq<seq<byte>> {
    seq(|ms|, i requires 0 <= i < |ms| => Encoded(ms[i]))
  }

  /**
    Whatever packets a sender writes, and wherever the reads end: the client executes those
    packets in that order, and each arrives with the type and the bytes it was sent with.
  */
  lemma SentPacketsArrive(ms: seq<Message>, chunks: seq<seq<byte>>)
    requires forall m <- ms :: |m.payload| + HEADER <= MAX_PACKET_LENGTH
    requires Concat(chunks) == Concat(AllEncoded(ms))
    ensures Feed([], chunks) == Drained(AllEncoded(ms), [], false)
    ensures forall i :: 0 <= i < |ms| ==>
              var p := AllEncoded(ms)[i]; WellFormed(p) && p[2] == ms[i].kind && p[HEADER..] == ms[i].payload
  {
    forall i | 0 <= i < |ms|
      ensures var p := AllEncoded(ms)[i]; WellFormed(p) && p[2] == ms[i].kind && p[HEADER..] == ms[i].payload
    {
      assert ms[i] in ms;
      EncodedIsWellFormed(ms[i]);
    }
    assert Concat(AllEncoded(ms)) + [] == Concat(AllEncoded(ms));
    StreamIsExecuted(AllEncoded(ms), [], chunks);
  }
}
