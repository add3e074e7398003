/**
 The guest host's end of the serial line: blocking reads from standard input and writes to
 standard output, each proved against the byte layout of the frames.
 */
module SerialChannel {
  import opened Bytes
  import opened Common
  import opened SerialProtocol
  import opened HostProtocol

  /** What a frame reader makes of the whole frame's bytes; None is the exception at the end
      of the input, which has then been used up. */
  ghost predicate ReadsAs(whole: seq<Byte>, r: Option<HostFrame>, rest: seq<Byte>) {
    match r
    case Some(f) => ReadFrame(whole) == Some((f, rest))
    case None => ReadFrame(whole) == None && rest == []
  }

  lemma HeadOf(tag: Byte, input: seq<Byte>, at: nat)
    requires at + 4 <= |input|
    ensures U32At([tag] + input, 1 + at) == U32At(input, at)
  {
    assert ([tag] + input)[1 + at..1 + at + 4] == input[at..at + 4];
  }

  class SerialChannel {
    var input: seq<Byte>   // what is still to come from the browser
    var output: seq<Byte>  // what has been sent to it

    constructor (incoming: seq<Byte>)
      ensures input == incoming && output == []
    {
      input, output := incoming, [];
    }

    method ReadBytes(len: nat) returns (data: Option<seq<Byte>>)
      modifies this`input
      ensures old(|input|) < len ==> data == None && input == []
      ensures len <= old(|input|) ==> data == Some(old(input)[..len]) && input == old(input)[len..]
    {
      if |input| < len {
        input := [];
        return None;
      }
      data := Some(input[..len]);
      input := input[len..];
    }

    method WriteBytes(data: seq<Byte>)
      modifies this`output
      ensures output == old(output) + data
    {
      output := output + data;
    }

    method ReadTag() returns (tag: Option<Byte>)
      modifies this`input
      ensures old(input) == [] ==> tag == None && input == []
      ensures old(input) != [] ==> tag == Some(old(input)[0]) && input == old(input)[1..]
    {
      var bs := ReadBytes(1);
      match bs
      case None => tag := None;
      case Some(data) => tag := Some(data[0]);
    }

    method ReadU32() returns (v: Option<nat>)
      modifies this`input
      ensures old(|input|) < 4 ==> v == None && input == []
      ensures 4 <= old(|input|) ==> v == Some(U32At(old(input), 0)) && input == old(input)[4..]
    {
      var bs := ReadBytes(4);
      match bs
      case None => v := None;
      case Some(data) =>
        v := Some(U32At(data, 0));
        assert data[0..4] == old(input)[0..4];
    }

    method ReadF64() returns (v: Option<Float64>)
      modifies this`input
      ensures old(|input|) < 8 ==> v == None && input == []
      ensures 8 <= old(|input|) ==> v.Some? && v.value == old(input)[..8] && input == old(input)[8..]
    {
      var bs := ReadBytes(8);
      match bs
      case None => v := None;
      case Some(data) => v := Some(data);
    }

    /** The path of the plugin to load, a length and that many bytes. */
    method ReadLoadFrameBody() returns (path: Option<seq<Byte>>)
      modifies this`input
      ensures path.Some? ==> ReadLoad(old(input)) == Some((path.value, input))
      ensures path.None? ==> ReadLoad(old(input)) == None && input == []
    {
      var len := ReadU32();
      if len.None? { return None; }
      path := ReadBytes(len.value);
      if path.Some? {
        assert old(input)[4..4 + len.value] == old(input)[4..][..len.value] == path.value;
        assert old(input)[4 + len.value..] == old(input)[4..][len.value..] == input;
      }
    }

    method ReadProcessFrameBody() returns (f: Option<HostFrame>)
      modifies this`input
      ensures ReadsAs([PROCESS] + old(input), f, input)
    {
      ghost var whole := [PROCESS] + input;
      ghost var start := input;
      var sampleCount := ReadU32();
      if sampleCount.None? { return None; }
      var channelCount := ReadU32();
      if channelCount.None? { return None; }
      var audioBytes := ReadU32();
      if audioBytes.None? { return None; }
      ProcessHeader(start);
      var audio := ReadBytes(audioBytes.value);
      if audio.None? { return None; }
      ProcessBody(start, audioBytes.value);
      f := Some(ProcessFrame(sampleCount.value, channelCount.value, TakeSamples(audio.value)));
    }

    method ReadSetParamFrameBody() returns (f: Option<HostFrame>)
      modifies this`input
      ensures ReadsAs([SET_PARAM] + old(input), f, input)
    {
      ghost var whole := [SET_PARAM] + input;
      var id := ReadU32();
      if id.None? { return None; }
      HeadOf(SET_PARAM, old(input), 0);
      var value := ReadF64();
      if value.None? { return None; }
      assert whole[5..13] == value.value && whole[13..] == input;
      f := Some(ParamFrame(id.value, value.value));
    }

    method ReadGetParamFrameBody() returns (f: Option<HostFrame>)
      modifies this`input
      ensures ReadsAs([GET_PARAM] + old(input), f, input)
    {
      ghost var whole := [GET_PARAM] + input;
      var id := ReadU32();
      if id.None? { return None; }
      HeadOf(GET_PARAM, old(input), 0);
      assert whole[5..] == input;
      f := Some(GetFrame(id.value));
    }

    method WriteProcessResp(sampleCount: nat, channels: Matrix)
      requires HasShape(channels, sampleCount)
      modifies this`output
      ensures output == old(output) + ReplyBytes(ProcessResp(sampleCount, channels))
    {
      WriteBytes([PROCESS_RESP]);
      WriteBytes(LittleEndian(sampleCount, 4));
      WriteBytes(LittleEndian(|channels|, 4));
      WriteRows(channels);
      ProcessRespLayout(old(output), sampleCount, channels);
    }

    method WriteRows(channels: Matrix)
      modifies this`output
      ensures output == old(output) + MatrixBytes(channels)
    {
      for c := 0 to |channels|
        invariant output == old(output) + MatrixBytes(channels[..c])
      {
        MatrixBytesNext(channels, c);
        WriteBytes(RowBytes(channels[c]));
      }
      assert channels[..|channels|] == channels;
    }

    method WriteGetParamResp(id: nat, value: Float64)
      modifies this`output
      ensures output == old(output) + ReplyBytes(ParamResp(id, value))
    {
      WriteBytes([GET_PARAM_RESP]);
      WriteBytes(LittleEndian(id, 4));
      WriteBytes(value);
    }

    /** The lengths are cast to 32 bits, and as many bytes are written as the fields say. */
    method WriteLog(level: Byte, subsystem: seq<Byte>, message: seq<Byte>)
      modifies this`output
      ensures var s, m := subsystem[..|subsystem| % U32_LIMIT], message[..|message| % U32_LIMIT];
        output == old(output) + ReplyBytes(LogEntry(level, s, m))
      ensures |subsystem| < U32_LIMIT && |message| < U32_LIMIT ==>
        output == old(output) + ReplyBytes(LogEntry(level, subsystem, message))
    {
      WriteBytes([LOG]);
      WriteBytes([level]);
      var subLen, msgLen := |subsystem| % U32_LIMIT, |message| % U32_LIMIT;
      WriteBytes(LittleEndian(subLen, 4));
      WriteBytes(subsystem[..subLen]);
      WriteBytes(LittleEndian(msgLen, 4));
      WriteBytes(message[..msgLen]);
      LogLayout(old(output), level, subsystem[..subLen], message[..msgLen]);
      assert |subsystem| < U32_LIMIT ==> subsystem[..subLen] == subsystem;
      assert |message| < U32_LIMIT ==> message[..msgLen] == message;
    }
  }

  lemma ProcessRespLayout(before: seq<Byte>, n: nat, m: Matrix)
    ensures before + [PROCESS_RESP] + LittleEndian(n, 4) + LittleEndian(|m|, 4) + MatrixBytes(m)
            == before + ReplyBytes(ProcessResp(n, m))
  {
  }

  lemma LogLayout(before: seq<Byte>, level: Byte, s: seq<Byte>, m: seq<Byte>)
    ensures before + [LOG] + [level] + LittleEndian(|s|, 4) + s + LittleEndian(|m|, 4) + m
            == before + ReplyBytes(LogEntry(level, s, m))
  {
    assert [LOG] + [level] == [LOG, level];
  }

  lemma ProcessHeader(input: seq<Byte>)
    requires |input| >= 12
    ensures U32At([PROCESS] + input, 1) == U32At(input, 0)
    ensures U32At([PROCESS] + input, 5) == U32At(input[4..], 0)
    ensures U32At([PROCESS] + input, 9) == U32At(input[4..][4..], 0)
  {
    HeadOf(PROCESS, input, 0);
    HeadOf(PROCESS, input, 4);
    HeadOf(PROCESS, input, 8);
    assert input[4..][0..4] == input[4..8];
    assert input[4..][4..][0..4] == input[8..12];
  }

  lemma ProcessBody(input: seq<Byte>, size: nat)
    requires |input| >= 12 + size
    ensures ([PROCESS] + input)[13..13 + size] == input[4..][4..][4..][..size]
    ensures ([PROCESS] + input)[13 + size..] == input[4..][4..][4..][size..]
  {
    assert ([PROCESS] + input)[13..] == input[12..] == input[4..][4..][4..];
    var whole := [PROCESS] + input;
    assert whole[13..13 + size] == whole[13..][..size];
    assert whole[13 + size..] == whole[13..][size..];
  }
}
