/** Reading a Bitcoin transaction's outputs, and the serialisation the reader inverts. */
module TxParser {
  import opened Results
  import opened Bytes

  datatype Error = IndexError | NegativeVarint | OverflowError

  // ---- compact sizes

  function EncodeVarint(n: int): Result<Bytes, Error> {
    if n < 0 then Err(NegativeVarint)
    else if n < 0xFD then Ok([n as Byte])
    else if n <= 0xFFFF then Ok([0xFD] + ToLittleEndian(n, 2))
    else if n <= 0xFFFF_FFFF then Ok([0xFE] + ToLittleEndian(n, 4))
    else if n < 0x1_0000_0000_0000_0000 then Ok([0xFF] + ToLittleEndian(n, 8))
    else Err(OverflowError)
  }

  /** The width of the number after a first byte. */
  function NumberWidth(first: Byte): nat {
    if first < 0xFD then 0 else if first == 0xFD then 2 else if first == 0xFE then 4 else 8
  }

  /** The value and the offset behind it; a number cut off by the end of the data is read as far as it goes. */
  function ParseVarint(data: Bytes, offset: nat): Result<(nat, nat), Error> {
    if offset >= |data| then Err(IndexError)
    else
      var first := data[offset];
      if first < 0xFD then Ok((first as nat, offset + 1))
      else
        var width := NumberWidth(first);
        Ok((FromLittleEndian(Slice(data, offset + 1, offset + 1 + width)), offset + 1 + width))
  }

  /** `piece` lies in `data` at `offset`. */
  predicate At(data: Bytes, offset: nat, piece: Bytes) {
    offset + |piece| <= |data| && data[offset..offset + |piece|] == piece
  }

  lemma Halves(data: Bytes, offset: nat, a: Bytes, b: Bytes)
    requires At(data, offset, a + b)
    ensures At(data, offset, a) && At(data, offset + |a|, b)
  {
    var both := data[offset..offset + |a + b|];
    assert both[..|a|] == a && both[|a|..] == b;
    assert data[offset..offset + |a|] == both[..|a|];
    assert data[offset + |a|..offset + |a| + |b|] == both[|a|..];
  }

  lemma Powers()
    ensures Power256(2) == 0x1_0000 && Power256(4) == 0x1_0000_0000 && Power256(8) == 0x1_0000_0000_0000_0000
  {
    assert Power256(3) == 0x100_0000 && Power256(5) == 0x100_0000_0000;
    assert Power256(6) == 0x1_0000_0000_0000 && Power256(7) == 0x100_0000_0000_0000;
  }

  lemma NumberAt(data: Bytes, offset: nat, first: Byte, n: nat)
    requires first >= 0xFD && n < Power256(NumberWidth(first))
    requires At(data, offset, [first] + ToLittleEndian(n, NumberWidth(first)))
    ensures ParseVarint(data, offset) == Ok((n, offset + 1 + NumberWidth(first)))
  {
    var width := NumberWidth(first);
    Halves(data, offset, [first], ToLittleEndian(n, width));
    assert data[offset..offset + 1] == [first];
    assert Slice(data, offset + 1, offset + 1 + width) == ToLittleEndian(n, width);
    WrittenNumberReadsBack(n, width);
  }

  /** Every number that can be encoded reads back as itself, wherever it stands. */
  lemma VarintReadsBack(data: Bytes, offset: nat, n: int)
    requires EncodeVarint(n).Ok? && At(data, offset, EncodeVarint(n).value)
    ensures ParseVarint(data, offset) == Ok((n, offset + |EncodeVarint(n).value|))
  {
    hide Power256, ToLittleEndian, FromLittleEndian;
    Powers();
    if n < 0xFD {
      assert data[offset..offset + 1] == [n as Byte];
    } else if n <= 0xFFFF {
      NumberAt(data, offset, 0xFD, n);
    } else if n <= 0xFFFF_FFFF {
      NumberAt(data, offset, 0xFE, n);
    } else {
      NumberAt(data, offset, 0xFF, n);
    }
  }

  /** Exactly the numbers below 2^64 can be encoded. */
  predicate Fits(n: int) {
    0 <= n < 0x1_0000_0000_0000_0000
  }

  function Varint(n: nat): (code: Bytes)
    requires Fits(n)
    ensures EncodeVarint(n) == Ok(code) && code != []
  {
    EncodeVarint(n).value
  }

  // ---- outputs

  datatype TxOutput = TxOutput(value: nat, scriptPubkey: Bytes)

  function SkipInputs(raw: Bytes, offset: nat, count: nat): Result<nat, Error>
    decreases count
  {
    if count == 0 then Ok(offset)
    else
      var length := ParseVarint(raw, offset + 36);
      if length.Err? then Err(length.error)
      else SkipInputs(raw, length.value.1 + length.value.0 + 4, count - 1)
  }

  function ReadOutput(raw: Bytes, offset: nat): Result<(TxOutput, nat), Error> {
    var value := FromLittleEndian(Slice(raw, offset, offset + 8));
    var length := ParseVarint(raw, offset + 8);
    if length.Err? then Err(length.error)
    else
      var end := length.value.1 + length.value.0;
      Ok((TxOutput(value, Slice(raw, length.value.1, end)), end))
  }

  function ReadOutputs(raw: Bytes, offset: nat, count: nat): Result<seq<TxOutput>, Error>
    decreases count
  {
    if count == 0 then Ok([])
    else
      var first := ReadOutput(raw, offset);
      if first.Err? then Err(first.error)
      else
        var rest := ReadOutputs(raw, first.value.1, count - 1);
        if rest.Err? then rest else Ok([first.value.0] + rest.value)
  }

  /** Where the inputs start: behind the version, and behind the witness marker if one is seen. */
  function InputsStart(raw: Bytes): Result<nat, Error> {
    if |raw| <= 4 then Err(IndexError)
    else if raw[4] != 0 then Ok(4)
    else if |raw| <= 5 then Err(IndexError)
    else Ok(if raw[5] == 1 then 6 else 4)
  }

  function ParseFrom(raw: Bytes, offset: nat): Result<seq<TxOutput>, Error> {
    var inputs := ParseVarint(raw, offset);
    if inputs.Err? then Err(inputs.error)
    else
      var behind := SkipInputs(raw, inputs.value.1, inputs.value.0);
      if behind.Err? then Err(behind.error)
      else
        var outputs := ParseVarint(raw, behind.value);
        if outputs.Err? then Err(outputs.error) else ReadOutputs(raw, outputs.value.1, outputs.value.0)
  }

  function Parse(raw: Bytes): Result<seq<TxOutput>, Error> {
    var start := InputsStart(raw);
    if start.Err? then Err(start.error) else ParseFrom(raw, start.value)
  }

  lemma {:induction false} OneMoreOutput(raw: Bytes, offset: nat, count: nat, done: seq<TxOutput>)
    requires count > 0
    ensures var first := ReadOutput(raw, offset);
      Extended(done, ReadOutputs(raw, offset, count)) ==
        if first.Err? then Err(first.error)
          else Extended(done + [first.value.0], ReadOutputs(raw, first.value.1, count - 1))
  {
    hide ReadOutput;
    var first := ReadOutput(raw, offset);
    if first.Ok? && ReadOutputs(raw, first.value.1, count - 1).Ok? {
      var rest := ReadOutputs(raw, first.value.1, count - 1).value;
      assert done + ([first.value.0] + rest) == done + [first.value.0] + rest;
    }
  }

  function Extended(done: seq<TxOutput>, rest: Result<seq<TxOutput>, Error>): Result<seq<TxOutput>, Error> {
    if rest.Err? then rest else Ok(done + rest.value)
  }

  method ParseTxOutputs(raw: Bytes) returns (r: Result<seq<TxOutput>, Error>)
    ensures r == Parse(raw)
  {
    hide ParseVarint;
    var start := InputsStart(raw);
    if start.Err? {
      return Err(start.error);
    }
    var inputs := ParseVarint(raw, start.value);
    if inputs.Err? {
      return Err(inputs.error);
    }
    var offset := inputs.value.1;
    for i := 0 to inputs.value.0
      invariant SkipInputs(raw, offset, inputs.value.0 - i) == SkipInputs(raw, inputs.value.1, inputs.value.0)
    {
      offset := offset + 32;
      offset := offset + 4;
      var length := ParseVarint(raw, offset);
      if length.Err? {
        return Err(length.error);
      }
      offset := length.value.1 + length.value.0;
      offset := offset + 4;
    }
    var outputs := ParseVarint(raw, offset);
    if outputs.Err? {
      return Err(outputs.error);
    }
    r := CollectOutputs(raw, outputs.value.1, outputs.value.0);
  }

  method CollectOutputs(raw: Bytes, start: nat, count: nat) returns (r: Result<seq<TxOutput>, Error>)
    ensures r == ReadOutputs(raw, start, count)
  {
    hide ParseVarint, Slice, ReadOutputs;
    var offset, found := start, [];
    NoOutputsYet(ReadOutputs(raw, start, count));
    for i := 0 to count
      invariant Extended(found, ReadOutputs(raw, offset, count - i)) == ReadOutputs(raw, start, count)
    {
      OneMoreOutput(raw, offset, count - i, found);
      var value := FromLittleEndian(Slice(raw, offset, offset + 8));
      offset := offset + 8;
      var length := ParseVarint(raw, offset);
      if length.Err? {
        return Err(length.error);
      }
      var script := Slice(raw, length.value.1, length.value.1 + length.value.0);
      offset := length.value.1 + length.value.0;
      found := found + [TxOutput(value, script)];
    }
    NoOutputsLeft(raw, offset, found);
    r := Ok(found);
  }

  lemma NoOutputsYet(rest: Result<seq<TxOutput>, Error>)
    ensures Extended([], rest) == rest
  {
    if rest.Ok? {
      assert [] + rest.value == rest.value;
    }
  }

  lemma NoOutputsLeft(raw: Bytes, offset: nat, found: seq<TxOutput>)
    ensures Extended(found, ReadOutputs(raw, offset, 0)) == Ok(found)
  {
    assert found + [] == found;
  }

  // ---- the serialisation

  datatype TxInput = TxInput(prevout: Bytes, script: Bytes, sequence: Bytes)

  /** `tail` is everything behind the outputs: witnesses, if any, and the lock time. */
  datatype Tx = Tx(version: Bytes, inputs: seq<TxInput>, outputs: seq<TxOutput>, tail: Bytes)

  predicate InputFits(i: TxInput) {
    |i.prevout| == 36 && Fits(|i.script|) && |i.sequence| == 4
  }

  predicate OutputFits(o: TxOutput) {
    Fits(o.value) && Fits(|o.scriptPubkey|)
  }

  ghost predicate TxFits(tx: Tx) {
    && |tx.version| == 4 && Fits(|tx.inputs|) && Fits(|tx.outputs|)
    && (forall i :: 0 <= i < |tx.inputs| ==> InputFits(tx.inputs[i]))
    && (forall i :: 0 <= i < |tx.outputs| ==> OutputFits(tx.outputs[i]))
  }

  function InputCode(i: TxInput): Bytes
    requires InputFits(i)
  {
    i.prevout + (Varint(|i.script|) + (i.script + i.sequence))
  }

  function OutputCode(o: TxOutput): Bytes
    requires OutputFits(o)
  {
    ToLittleEndian(o.value, 8) + (Varint(|o.scriptPubkey|) + o.scriptPubkey)
  }

  function InputCodes(inputs: seq<TxInput>): Bytes
    requires forall i :: 0 <= i < |inputs| ==> InputFits(inputs[i])
  {
    if inputs == [] then [] else InputCode(inputs[0]) + InputCodes(inputs[1..])
  }

  function OutputCodes(outputs: seq<TxOutput>): Bytes
    requires forall i :: 0 <= i < |outputs| ==> OutputFits(outputs[i])
  {
    if outputs == [] then [] else OutputCode(outputs[0]) + OutputCodes(outputs[1..])
  }

  function Body(tx: Tx): Bytes
    requires TxFits(tx)
  {
    Varint(|tx.inputs|) + (InputCodes(tx.inputs) + (Varint(|tx.outputs|) + (OutputCodes(tx.outputs) + tx.tail)))
  }

  /** Legacy, or with the witness marker and flag of BIP 144. */
  function Serialize(tx: Tx, segwit: bool): Bytes
    requires TxFits(tx)
  {
    tx.version + ((if segwit then [0, 1] else []) + Body(tx))
  }

  lemma InputSkipped(raw: Bytes, offset: nat, i: TxInput)
    requires InputFits(i) && At(raw, offset, InputCode(i))
    ensures ParseVarint(raw, offset + 36) == Ok((|i.script|, offset + 36 + |Varint(|i.script|)|))
    ensures |InputCode(i)| == 36 + |Varint(|i.script|)| + |i.script| + 4
  {
    hide Varint, At, ParseVarint, EncodeVarint;
    Halves(raw, offset, i.prevout, Varint(|i.script|) + (i.script + i.sequence));
    Halves(raw, offset + 36, Varint(|i.script|), i.script + i.sequence);
    VarintReadsBack(raw, offset + 36, |i.script|);
  }

  lemma {:induction false} InputsSkipped(raw: Bytes, offset: nat, inputs: seq<TxInput>)
    requires forall i :: 0 <= i < |inputs| ==> InputFits(inputs[i])
    requires At(raw, offset, InputCodes(inputs))
    ensures SkipInputs(raw, offset, |inputs|) == Ok(offset + |InputCodes(inputs)|)
    decreases |inputs|
  {
    hide InputFits, InputCode, At, ParseVarint;
    if inputs != [] {
      Halves(raw, offset, InputCode(inputs[0]), InputCodes(inputs[1..]));
      InputSkipped(raw, offset, inputs[0]);
      InputsSkipped(raw, offset + |InputCode(inputs[0])|, inputs[1..]);
    }
  }

  lemma OutputRead(raw: Bytes, offset: nat, o: TxOutput)
    requires OutputFits(o) && At(raw, offset, OutputCode(o))
    ensures ReadOutput(raw, offset) == Ok((o, offset + |OutputCode(o)|))
  {
    hide Varint, ParseVarint, EncodeVarint;
    var script := o.scriptPubkey;
    Powers();
    Halves(raw, offset, ToLittleEndian(o.value, 8), Varint(|script|) + script);
    Halves(raw, offset + 8, Varint(|script|), script);
    VarintReadsBack(raw, offset + 8, |script|);
    WrittenNumberReadsBack(o.value, 8);
    var start := offset + 8 + |Varint(|script|)|;
    assert Slice(raw, offset, offset + 8) == ToLittleEndian(o.value, 8);
    assert Slice(raw, start, start + |script|) == script;
  }

  lemma {:induction false} OutputsRead(raw: Bytes, offset: nat, outputs: seq<TxOutput>)
    requires forall i :: 0 <= i < |outputs| ==> OutputFits(outputs[i])
    requires At(raw, offset, OutputCodes(outputs))
    ensures ReadOutputs(raw, offset, |outputs|) == Ok(outputs)
    decreases |outputs|
  {
    hide OutputFits, OutputCode, At, ReadOutput;
    if outputs != [] {
      Halves(raw, offset, OutputCode(outputs[0]), OutputCodes(outputs[1..]));
      OutputRead(raw, offset, outputs[0]);
      OutputsRead(raw, offset + |OutputCode(outputs[0])|, outputs[1..]);
      assert [outputs[0]] + outputs[1..] == outputs;
    }
  }

  /** From the input count on, what was written is what is read. */
  lemma BodyReadsBack(raw: Bytes, offset: nat, tx: Tx)
    requires TxFits(tx) && At(raw, offset, Body(tx))
    ensures ParseFrom(raw, offset) == Ok(tx.outputs)
  {
    hide At, Varint, EncodeVarint, ParseVarint, InputCodes, OutputCodes, SkipInputs, ReadOutputs, InputFits, OutputFits;
    var inputs, outputs := Varint(|tx.inputs|), Varint(|tx.outputs|);
    var a := offset + |inputs|;
    var b := a + |InputCodes(tx.inputs)|;
    var c := b + |outputs|;
    Halves(raw, offset, inputs, InputCodes(tx.inputs) + (outputs + (OutputCodes(tx.outputs) + tx.tail)));
    Halves(raw, a, InputCodes(tx.inputs), outputs + (OutputCodes(tx.outputs) + tx.tail));
    Halves(raw, b, outputs, OutputCodes(tx.outputs) + tx.tail);
    Halves(raw, c, OutputCodes(tx.outputs), tx.tail);
    VarintReadsBack(raw, offset, |tx.inputs|);
    InputsSkipped(raw, a, tx.inputs);
    VarintReadsBack(raw, b, |tx.outputs|);
    OutputsRead(raw, c, tx.outputs);
  }

  /** A legacy transaction that looks as if it had the witness marker: no inputs and exactly one output. */
  predicate LooksLikeSegwit(tx: Tx) {
    tx.inputs == [] && |tx.outputs| == 1
  }

  lemma VarintStart(n: nat)
    requires Fits(n)
    ensures Varint(n)[0] == 0 <==> n == 0
    ensures Varint(n)[0] == 1 <==> n == 1
  {
  }

  /** The reader takes the marker branch exactly for segwit transactions and for legacy ones that look like it. */
  lemma MarkerSeen(tx: Tx, segwit: bool)
    requires TxFits(tx)
    ensures InputsStart(Serialize(tx, segwit)) == Ok(if segwit || LooksLikeSegwit(tx) then 6 else 4)
  {
    hide Varint, InputFits, OutputFits, OutputCodes, InputCode;
    VarintStart(|tx.inputs|);
    VarintStart(|tx.outputs|);
    var raw := Serialize(tx, segwit);
    if segwit {
      assert raw[4] == 0 && raw[5] == 1;
    } else {
      assert raw[4] == Varint(|tx.inputs|)[0];
      if tx.inputs == [] {
        NoInputs(tx);
        assert raw[5] == Varint(|tx.outputs|)[0];
      }
    }
  }

  lemma NoInputs(tx: Tx)
    requires TxFits(tx) && tx.inputs == []
    ensures Body(tx) == [0] + (Varint(|tx.outputs|) + (OutputCodes(tx.outputs) + tx.tail))
  {
  }

  /** Reading inverts serialising, for any number of inputs and outputs, except for what looks like segwit and is
      not. */
  lemma ParseInvertsSerialize(tx: Tx, segwit: bool)
    requires TxFits(tx) && (segwit || !LooksLikeSegwit(tx))
    ensures Parse(Serialize(tx, segwit)) == Ok(tx.outputs)
  {
    hide InputsStart, ParseFrom, Body;
    var raw := Serialize(tx, segwit);
    MarkerSeen(tx, segwit);
    assert At(raw, 0, raw);
    Halves(raw, 0, tx.version, (if segwit then [0, 1] else []) + Body(tx));
    Halves(raw, 4, if segwit then [0, 1] else [], Body(tx));
    BodyReadsBack(raw, if segwit then 6 else 4, tx);
  }

  /** The exception is real: a legacy transaction without inputs, with one empty output, is read as having none. */
  lemma LegacyWithoutInputsIsMisread(version: Bytes, tail: Bytes)
    requires |version| == 4
    ensures var tx := Tx(version, [], [TxOutput(0, [])], tail);
      TxFits(tx) && LooksLikeSegwit(tx) && Parse(Serialize(tx, false)) == Ok([])
  {
    hide ParseFrom, Varint, OutputCode, InputsStart;
    var tx := Tx(version, [], [TxOutput(0, [])], tail);
    MarkerSeen(tx, false);
    EmptyOutputBytes(tx);
    NothingThere(Serialize(tx, false));
  }

  lemma EmptyOutputBytes(tx: Tx)
    requires |tx.version| == 4 && tx.inputs == [] && tx.outputs == [TxOutput(0, [])]
    ensures TxFits(tx) && At(Serialize(tx, false), 6, [0, 0])
  {
    hide ToLittleEndian, Serialize, At;
    OneEmptyOutput(tx);
    ZeroBytes();
    var rest := ToLittleEndian(0, 6) + [0] + tx.tail;
    assert ToLittleEndian(0, 8) + [0] + tx.tail == [0, 0] + rest;
    Behind(tx.version + [0, 1], [0, 0], rest);
  }

  /** A legacy transaction without inputs and with one output without a script, byte by byte. */
  lemma OneEmptyOutput(tx: Tx)
    requires TxFits(tx) && tx.inputs == [] && |tx.outputs| == 1 && tx.outputs[0].scriptPubkey == []
    ensures Serialize(tx, false) == tx.version + [0, 1] + (ToLittleEndian(tx.outputs[0].value, 8) + [0] + tx.tail)
  {
    hide ToLittleEndian;
    var value := ToLittleEndian(tx.outputs[0].value, 8);
    assert OutputCode(tx.outputs[0]) == value + [0];
    assert tx.outputs[1..] == [];
    assert OutputCodes(tx.outputs) == value + [0];
    assert Body(tx) == [0] + ([1] + (value + [0] + tx.tail));
  }

  lemma Behind(a: Bytes, b: Bytes, c: Bytes)
    ensures At(a + (b + c), |a|, b)
  {
    assert (a + (b + c))[|a|..|a| + |b|] == b;
  }

  lemma ZeroBytes()
    ensures ToLittleEndian(0, 8) == [0, 0] + ToLittleEndian(0, 6)
  {
  }

  lemma NothingThere(raw: Bytes)
    requires At(raw, 6, [0, 0])
    ensures ParseFrom(raw, 6) == Ok([])
  {
    hide ParseVarint;
    assert raw[6] == raw[6..8][0] && raw[7] == raw[6..8][1];
    SmallVarint(raw, 6);
    SmallVarint(raw, 7);
  }

  /** Nor is every such transaction misread: one may come out right by accident of its value and lock time. */
  lemma LegacyWithoutInputsMayMatch(version: Bytes, tail: Bytes)
    requires |version| == 4 && |tail| >= 2 && tail[0] == 1 && tail[1] == 0
    ensures var tx := Tx(version, [], [TxOutput(0x0100_0100_0100_0100, [])], tail);
      TxFits(tx) && LooksLikeSegwit(tx) && Parse(Serialize(tx, false)) == Ok(tx.outputs)
  {
    hide ParseFrom, Varint, OutputCode, InputsStart;
    var tx := Tx(version, [], [TxOutput(0x0100_0100_0100_0100, [])], tail);
    MarkerSeen(tx, false);
    AccidentalBytes(tx);
    AccidentalOutput(Serialize(tx, false));
  }

  lemma AccidentalBytes(tx: Tx)
    requires |tx.version| == 4 && tx.inputs == [] && tx.outputs == [TxOutput(0x0100_0100_0100_0100, [])]
    requires |tx.tail| >= 2 && tx.tail[0] == 1 && tx.tail[1] == 0
    ensures TxFits(tx) && At(Serialize(tx, false), 6, [0, 1, 0, 1, 0, 1, 0, 1, 0, 1, 0])
  {
    hide ToLittleEndian, Serialize, At;
    OneEmptyOutput(tx);
    ValueBytes();
    var value, rest := ToLittleEndian(0x0100_0100_0100_0100, 8), tx.tail[2..];
    assert tx.tail == [1, 0] + rest;
    assert value + [0] + tx.tail == value + [0, 1, 0] + rest;
    assert value + [0, 1, 0] == [0, 1, 0, 1, 0, 1, 0, 1, 0, 1, 0];
    Behind(tx.version + [0, 1], value + [0, 1, 0], rest);
  }

  lemma AccidentalOutput(raw: Bytes)
    requires At(raw, 6, [0, 1, 0, 1, 0, 1, 0, 1, 0, 1, 0])
    ensures ParseFrom(raw, 6) == Ok([TxOutput(0x0100_0100_0100_0100, [])])
  {
    hide ParseVarint, FromLittleEndian, ToLittleEndian;
    var code := raw[6..17];
    assert forall i :: 6 <= i < 17 ==> raw[i] == code[i - 6];
    SmallVarint(raw, 6);
    SmallVarint(raw, 7);
    SmallVarint(raw, 16);
    ValueBytes();
    assert Slice(raw, 8, 16) == ToLittleEndian(0x0100_0100_0100_0100, 8);
    Powers();
    WrittenNumberReadsBack(0x0100_0100_0100_0100, 8);
    assert Slice(raw, 17, 17) == [];
    assert ReadOutput(raw, 8) == Ok((TxOutput(0x0100_0100_0100_0100, []), 17));
    OneOutput(raw, 8);
    assert SkipInputs(raw, 7, 0) == Ok(7);
  }

  lemma OneOutput(raw: Bytes, offset: nat)
    requires ReadOutput(raw, offset).Ok?
    ensures ReadOutputs(raw, offset, 1) == Ok([ReadOutput(raw, offset).value.0])
  {
    hide ReadOutput;
    var first := ReadOutput(raw, offset).value;
    assert ReadOutputs(raw, first.1, 0) == Ok([]);
    assert [first.0] + [] == [first.0];
  }

  lemma ValueBytes()
    ensures ToLittleEndian(0x0100_0100_0100_0100, 8) == [0, 1, 0, 1, 0, 1, 0, 1]
  {
    assert ToLittleEndian(0x0100, 2) == [0, 1];
    assert ToLittleEndian(0x0100_0100, 4) == [0, 1] + ToLittleEndian(0x0100, 2);
    assert ToLittleEndian(0x0100_0100_0100, 6) == [0, 1] + ToLittleEndian(0x0100_0100, 4);
  }

  lemma SmallVarint(raw: Bytes, offset: nat)
    requires offset < |raw| && raw[offset] < 0xFD
    ensures ParseVarint(raw, offset) == Ok((raw[offset] as nat, offset + 1))
  {
  }

  // ---- the second copy

  /** The service's copy: the value and the bytes consumed. */
  function ServiceParseVarint(data: Bytes, offset: nat): Result<(nat, nat), Error> {
    if offset >= |data| then Err(IndexError)
    else
      var first := data[offset];
      if first < 0xFD then Ok((first as nat, 1))
      else if first == 0xFD then Ok((FromLittleEndian(Slice(data, offset + 1, offset + 3)), 3))
      else if first == 0xFE then Ok((FromLittleEndian(Slice(data, offset + 1, offset + 5)), 5))
      else Ok((FromLittleEndian(Slice(data, offset + 1, offset + 9)), 9))
  }

  /** The copies report the same number; one counts from the start of the data, the other from the offset. */
  lemma VarintCopiesAgree(data: Bytes, offset: nat)
    ensures match (ParseVarint(data, offset), ServiceParseVarint(data, offset))
      case (Ok(a), Ok(b)) => a.0 == b.0 && a.1 == offset + b.1
      case (Err(a), Err(b)) => a == b
      case _ => false
  {
  }

  /** The service's copy of the whole reader meets the same specification, errors included. */
  method ServiceParseTxOutputs(raw: Bytes) returns (r: Result<seq<TxOutput>, Error>)
    ensures r == Parse(raw)
  {
    hide ParseVarint, ServiceParseVarint, Slice, ReadOutputs;
    if |raw| <= 4 || (raw[4] == 0 && |raw| <= 5) {
      return Err(IndexError);
    }
    var offset := 4;
    var isSegwit := raw[4] == 0 && raw[5] == 1;
    if isSegwit {
      offset := offset + 2;
    }
    VarintCopiesAgree(raw, offset);
    var inputs := ServiceParseVarint(raw, offset);
    if inputs.Err? {
      return Err(inputs.error);
    }
    offset := offset + inputs.value.1;
    ghost var start := offset;
    for i := 0 to inputs.value.0
      invariant SkipInputs(raw, offset, inputs.value.0 - i) == SkipInputs(raw, start, inputs.value.0)
    {
      offset := offset + 36;
      VarintCopiesAgree(raw, offset);
      var length := ServiceParseVarint(raw, offset);
      if length.Err? {
        return Err(length.error);
      }
      offset := offset + length.value.1 + length.value.0 + 4;
    }
    VarintCopiesAgree(raw, offset);
    var outputs := ServiceParseVarint(raw, offset);
    if outputs.Err? {
      return Err(outputs.error);
    }
    r := ServiceCollectOutputs(raw, offset + outputs.value.1, outputs.value.0);
  }

  method ServiceCollectOutputs(raw: Bytes, start: nat, count: nat) returns (r: Result<seq<TxOutput>, Error>)
    ensures r == ReadOutputs(raw, start, count)
  {
    hide ParseVarint, ServiceParseVarint, Slice, ReadOutputs;
    var offset, found := start, [];
    NoOutputsYet(ReadOutputs(raw, start, count));
    for i := 0 to count
      invariant Extended(found, ReadOutputs(raw, offset, count - i)) == ReadOutputs(raw, start, count)
    {
      OneMoreOutput(raw, offset, count - i, found);
      var value := FromLittleEndian(Slice(raw, offset, offset + 8));
      offset := offset + 8;
      VarintCopiesAgree(raw, offset);
      var length := ServiceParseVarint(raw, offset);
      if length.Err? {
        return Err(length.error);
      }
      offset := offset + length.value.1;
      var script := Slice(raw, offset, offset + length.value.0);
      offset := offset + length.value.0;
      found := found + [TxOutput(value, script)];
    }
    NoOutputsLeft(raw, offset, found);
    r := Ok(found);
  }
}
