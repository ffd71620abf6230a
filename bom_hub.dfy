/**
 * The simpler hub (`bom_system.py`): its LoRa P2P receiver, which parses every marker line of
 * its buffer at once and then empties the buffer, its RSSI extraction, its classification of
 * decoded records and its voltage converters, with the points where it differs from the full
 * hub stated against that model.
 */
module BomHub {
  import opened Wrappers
  import opened Text
  import Hex
  import opened Json
  import FarmHub

  type byte = Hex.byte

  /** A queued radio message of this hub. The clock reading (`timestamp`) is left out. */
  datatype BomMessage = BomMessage(source: string, data: Record, rssi: int)

  // ---------------------------------------------------------------------------
  // RSSI extraction (`_extract_rssi`)
  // ---------------------------------------------------------------------------

  /** The first of the comma-parts that contains `RSSI:`, if any. */
  function FirstRssiPart(parts: seq<string>): Option<string>
    decreases |parts|
  {
    if |parts| == 0 then None
    else if Contains(parts[0], "RSSI:") then Some(parts[0])
    else FirstRssiPart(parts[1..])
  }

  /** FirstRssiPart picks the earliest part with `RSSI:`, and finds none only when no part has it. */
  lemma {:induction false} FirstRssiPartIsFirst(parts: seq<string>)
    ensures FirstRssiPart(parts).None? <==> forall j :: 0 <= j < |parts| ==> !Contains(parts[j], "RSSI:")
    ensures FirstRssiPart(parts).Some? ==>
      exists i :: 0 <= i < |parts| && parts[i] == FirstRssiPart(parts).value && Contains(parts[i], "RSSI:") &&
        forall j :: 0 <= j < i ==> !Contains(parts[j], "RSSI:")
    decreases |parts|
  {
    if |parts| > 0 && !Contains(parts[0], "RSSI:") {
      FirstRssiPartIsFirst(parts[1..]);
      if FirstRssiPart(parts).Some? {
        var i :| 0 <= i < |parts| - 1 && parts[1..][i] == FirstRssiPart(parts).value && Contains(parts[1..][i], "RSSI:") &&
          forall j :: 0 <= j < i ==> !Contains(parts[1..][j], "RSSI:");
        assert parts[i + 1] == parts[1..][i];
        forall j | 0 <= j < i + 1 ensures !Contains(parts[j], "RSSI:") {
          if j > 0 {
            assert parts[j] == parts[1..][j - 1];
          }
        }
      } else {
        forall j | 0 <= j < |parts| ensures !Contains(parts[j], "RSSI:") {
          if j > 0 {
            assert parts[j] == parts[1..][j - 1];
          }
        }
      }
    } else if |parts| > 0 {
      assert parts[0] == FirstRssiPart(parts).value;
    }
  }

  /**
   * `_extract_rssi`: the text after the first colon of the first comma-part with `RSSI:`, read
   * as an integer. No such part, no text after the colon or text that is not an integer all
   * end in the bare `except`, which gives -999.
   */
  function ExtractRssi(line: string): int
  {
    match FirstRssiPart(Split(line, ','))
    case None => FarmHub.NoRssi
    case Some(part) =>
      var fields := Split(part, ':');
      if |fields| < 2 then FarmHub.NoRssi
      else
        match ParseInt(fields[1])
        case None => FarmHub.NoRssi
        case Some(v) => v
  }

  /** The comma-split of a line in the documented layout, for field texts without a comma. */
  lemma CommaLayout(r: string, s: string, h: string)
    requires ',' !in r && ',' !in s && ',' !in h
    ensures Split(FarmHub.EventLine(r, s, h), ',') == ["+EVT:RXP2P", "RSSI:" + r, "SNR:" + s + ":" + h]
  {
    var p1 := "RSSI:" + r;
    var p2 := "SNR:" + s + ":" + h;
    var t1 := p1 + [','] + p2;
    var line := FarmHub.EventLine(r, s, h);
    assert line == "+EVT:RXP2P" + [','] + t1;
    assert Split(p2, ',') == [p2] by {
      assert ',' !in p2;
      SplitWithoutSep(p2, ',');
    }
    assert Split(t1, ',') == [p1, p2] by {
      assert ',' !in p1;
      SplitAtFirst(p1, ',', p2);
    }
    assert Split(line, ',') == ["+EVT:RXP2P"] + Split(t1, ',') by {
      SplitAtFirst("+EVT:RXP2P", ',', t1);
    }
  }

  /** The first comma-part of a documented line with `RSSI:` is the one carrying the value. */
  lemma FirstRssiPartOnLayout(r: string, rest: seq<string>)
    ensures FirstRssiPart(["+EVT:RXP2P", "RSSI:" + r] + rest) == Some("RSSI:" + r)
  {
    var parts := ["+EVT:RXP2P", "RSSI:" + r] + rest;
    assert !Contains(parts[0], "RSSI:") by {
      assert 'S' !in parts[0];
      MissingCharNotContained(parts[0], "RSSI:", 1);
    }
    assert Contains(parts[1], "RSSI:") by {
      assert "RSSI:" <= parts[1];
    }
    assert parts[1..][0] == parts[1];
  }

  /** The comma-part `RSSI:<r>` splits on its colon into the label and `r`. */
  lemma RssiFieldSplit(r: string)
    requires ':' !in r
    ensures Split("RSSI:" + r, ':') == ["RSSI", r]
  {
    SplitWithoutSep(r, ':');
    SplitAtFirst("RSSI", ':', r);
    assert "RSSI:" + r == "RSSI" + [':'] + r;
  }

  /** A line whose comma-parts start with the marker and `RSSI:<r>` has the RSSI that `r` reads as. */
  lemma ExtractRssiOnLayout(line: string, r: string, rest: seq<string>, v: int)
    requires Split(line, ',') == ["+EVT:RXP2P", "RSSI:" + r] + rest
    requires ':' !in r && ParseInt(r) == Some(v)
    ensures ExtractRssi(line) == v
  {
    FirstRssiPartOnLayout(r, rest);
    RssiFieldSplit(r);
  }

  /** This hub reads the RSSI a documented line carries, unlike the full hub's scan. */
  lemma ExtractRssiOnDocumentedLine(rssi: int, snr: int, payload: seq<byte>)
    ensures ExtractRssi(FarmHub.DocumentedLine(rssi, snr, payload)) == rssi
  {
    var r, s, h := IntToText(rssi), IntToText(snr), Hex.ToHex(payload);
    IntTextLacks(rssi, ',');
    IntTextLacks(snr, ',');
    IntTextLacks(rssi, ':');
    FarmHub.HexTextLacks(payload, ',');
    CommaLayout(r, s, h);
    ParseIntRoundTrip(rssi);
    ExtractRssiOnLayout(FarmHub.DocumentedLine(rssi, snr, payload), r, ["SNR:" + s + ":" + h], rssi);
  }

  /** The line the full hub's parser documents, read by this hub: -70, where the full hub reads -999. */
  lemma ExtractRssiExample()
    ensures ExtractRssi("+EVT:RXP2P,RSSI:-70,SNR:5:7b7d") == -70
  {
    FarmHub.AsWrittenRssiCounterexample();
    ExtractRssiOnDocumentedLine(-70, 5, [0x7B, 0x7D]);
  }

  // ---------------------------------------------------------------------------
  // Line parsing (`_parse_lora_message`)
  // ---------------------------------------------------------------------------

  /**
   * The inner `try` of `_parse_lora_message`: the hex text to bytes, then to a record. `decode`
   * stands for UTF-8 decoding followed by `json.loads`; either step failing is None.
   */
  function DecodePayload(hexData: string, decode: seq<byte> -> Option<Record>): Option<Record>
  {
    match Hex.FromHex(hexData)
    case None => None
    case Some(bytes) => decode(bytes)
  }

  /** A payload decodes exactly when it is hexadecimal text whose bytes the decoder accepts. */
  lemma DecodePayloadAccepts(hexData: string, decode: seq<byte> -> Option<Record>)
    ensures DecodePayload(hexData, decode).Some? <==>
      Hex.IsHexText(hexData) && decode(Hex.FromHex(hexData).GetOr([])).Some?
  {
    Hex.FromHexAccepts(hexData);
  }

  /**
   * `_parse_lora_message` without its queue: a line with at least four colon-parts whose
   * stripped last part decodes yields a message. There is no separate test for an empty
   * payload: it reaches the decoder as no bytes.
   */
  function ParseLine(line: string, decode: seq<byte> -> Option<Record>): Option<BomMessage>
  {
    var parts := Split(line, ':');
    if |parts| < 4 then None
    else
      match DecodePayload(Strip(parts[|parts| - 1]), decode)
      case None => None
      case Some(data) => Some(BomMessage("lora", data, ExtractRssi(line)))
  }

  /** A line yields a message exactly when it has four colon-parts and its stripped last part decodes. */
  lemma ParseLineAccepts(line: string, decode: seq<byte> -> Option<Record>)
    ensures var parts := Split(line, ':');
      ParseLine(line, decode).Some? <==>
        |parts| >= 4 && DecodePayload(Strip(parts[|parts| - 1]), decode).Some?
  {
    var parts := Split(line, ':');
    if |parts| < 4 {
      assert ParseLine(line, decode) == None;
    } else {
      match DecodePayload(Strip(parts[|parts| - 1]), decode)
      case None =>
        assert ParseLine(line, decode) == None;
      case Some(data) =>
        assert ParseLine(line, decode) == Some(BomMessage("lora", data, ExtractRssi(line)));
    }
  }

  /** The message has source "lora", the record the payload decodes to, and the RSSI extracted from the same line. */
  lemma ParseLineFields(line: string, decode: seq<byte> -> Option<Record>)
    ensures var parts := Split(line, ':');
      var m := ParseLine(line, decode);
      m.Some? ==>
        && m.value.source == "lora"
        && DecodePayload(Strip(parts[|parts| - 1]), decode) == Some(m.value.data)
        && m.value.rssi == ExtractRssi(line)
  {
  }

  /** The steps of `_parse_lora_message` up to the message it queues. */
  method ReadMessage(line: string, decode: seq<byte> -> Option<Record>) returns (m: Option<BomMessage>)
    ensures m == ParseLine(line, decode)
  {
    ParseLineAccepts(line, decode);
    ParseLineFields(line, decode);
    m := None;
    var parts := Split(line, ':');
    if |parts| >= 4 {
      var hexData := Strip(parts[|parts| - 1]);
      var bytes := Hex.FromHex(hexData);
      if bytes.Some? {
        var data := decode(bytes.value);
        if data.Some? {
          m := Some(BomMessage("lora", data.value, ExtractRssi(line)));
        }
      }
    }
  }

  /** What the receive loop queues for one line of the buffer: the line, unstripped, is parsed if it carries the marker. */
  function LineMessage(line: string, decode: seq<byte> -> Option<Record>): seq<BomMessage>
  {
    if Contains(line, FarmHub.Marker) then FarmHub.AsSeq(ParseLine(line, decode)) else []
  }

  /** The messages queued for the lines of a buffer, in order. */
  function LineMessages(lines: seq<string>, decode: seq<byte> -> Option<Record>): seq<BomMessage>
    decreases |lines|
  {
    if |lines| == 0 then []
    else
      var n := |lines| - 1;
      LineMessages(lines[..n], decode) + LineMessage(lines[n], decode)
  }

  /** One more line queues that line's messages after those of the lines before it. */
  lemma LineMessagesSnoc(lines: seq<string>, line: string, decode: seq<byte> -> Option<Record>)
    ensures LineMessages(lines + [line], decode) == LineMessages(lines, decode) + LineMessage(line, decode)
  {
    assert (lines + [line])[..|lines|] == lines;
  }

  /** The buffer after a read: emptied as soon as the text holds the marker anywhere, kept whole otherwise. */
  function NextBuffer(text: string): (b: string)
    ensures Contains(text, FarmHub.Marker) ==> b == ""
    ensures !Contains(text, FarmHub.Marker) ==> b == text
    ensures !Contains(b, FarmHub.Marker)
  {
    if Contains(text, FarmHub.Marker) then "" else text
  }

  // ---------------------------------------------------------------------------
  // The receiver
  // ---------------------------------------------------------------------------

  /** `LoRaReceiver` of this hub: the text buffer of its receive loop and its queue. */
  class BomReceiver {
    var buffer: string
    var queue: seq<BomMessage>

    constructor ()
      ensures buffer == "" && queue == []
    {
      buffer := "";
      queue := [];
    }

    /** `_parse_lora_message`: queue the message a line yields, if any. */
    method ParseLoraMessage(line: string, decode: seq<byte> -> Option<Record>)
      modifies this
      ensures queue == old(queue) + FarmHub.AsSeq(ParseLine(line, decode))
      ensures buffer == old(buffer)
    {
      var m := ReadMessage(line, decode);
      if m.Some? {
        queue := queue + [m.value];
      }
    }

    /** One line of the loop over the buffer's lines: parsed if it carries the marker. */
    method HandleLine(line: string, decode: seq<byte> -> Option<Record>)
      modifies this
      ensures queue == old(queue) + LineMessage(line, decode)
      ensures buffer == old(buffer)
    {
      if Contains(line, FarmHub.Marker) {
        ParseLoraMessage(line, decode);
      }
    }

    /**
     * One pass of `_receive_loop`. `incoming` is the decoded text of a serial read, None when
     * nothing was waiting. Once the text holds the marker, every line of it, the unfinished
     * last one included, is handled and the buffer is emptied.
     */
    method Tick(incoming: Option<string>, decode: seq<byte> -> Option<Record>)
      modifies this
      ensures incoming.None? ==> buffer == old(buffer) && queue == old(queue)
      ensures incoming.Some? ==>
        var text := old(buffer) + incoming.value;
        && buffer == NextBuffer(text)
        && queue == old(queue) + (if Contains(text, FarmHub.Marker) then LineMessages(Split(text, '\n'), decode) else [])
    {
      if incoming.Some? {
        buffer := buffer + incoming.value;
        if Contains(buffer, FarmHub.Marker) {
          var lines := Split(buffer, '\n');
          ghost var queued := queue;
          for i := 0 to |lines|
            invariant queue == queued + LineMessages(lines[..i], decode)
          {
            HandleLine(lines[i], decode);
            LineMessagesSnoc(lines[..i], lines[i], decode);
            FarmHub.AppendAssoc(queued, LineMessages(lines[..i], decode), LineMessage(lines[i], decode));
            assert lines[..i + 1] == lines[..i] + [lines[i]];
          }
          assert lines[..|lines|] == lines;
          buffer := "";
        }
      }
    }
  }

  /**
   * A partial line behind a complete marker line: the full hub keeps it in its buffer until the
   * rest arrives, this hub throws it away with the buffer.
   */
  lemma PartialLineContrast(line: string, partial: string)
    requires Contains(line, FarmHub.Marker) && '\n' !in line && '\n' !in partial && partial != ""
    ensures FarmHub.Frame(line + "\n" + partial) == FarmHub.Framed([line], partial)
    ensures NextBuffer(line + "\n" + partial) == ""
  {
    var text := line + "\n" + partial;
    assert text == line + ['\n'] + partial;
    assert Contains(text, FarmHub.Marker) by {
      ContainsInside([], line, "\n" + partial, FarmHub.Marker);
      assert [] + line + ("\n" + partial) == text;
    }
    assert Split(text, '\n') == [line, partial] by {
      SplitWithoutSep(partial, '\n');
      SplitAtFirst(line, '\n', partial);
    }
  }

  /**
   * A complete marker line whose newline has not arrived yet: the full hub holds it back, this
   * hub parses what it has at once.
   */
  lemma UnterminatedLineContrast(line: string)
    requires Contains(line, FarmHub.Marker) && '\n' !in line
    ensures FarmHub.Frame(line) == FarmHub.Framed([], line)
    ensures NextBuffer(line) == ""
    ensures Split(line, '\n') == [line]
  {
    FarmHub.FrameNoNewline(line);
    SplitWithoutSep(line, '\n');
  }

  // ---------------------------------------------------------------------------
  // Classification and conversion
  // ---------------------------------------------------------------------------

  /** `_process_lora_data`'s tests: `id` and `hr` make ear-tag data, else `type` and `device_id` make sprinkler data. */
  function Classify(d: Record): (k: FarmHub.Kind)
    ensures k == FarmHub.EarTag <==> "id" in d && "hr" in d
    ensures k == FarmHub.Sprinkler <==> !("id" in d && "hr" in d) && "type" in d && "device_id" in d
    ensures k == FarmHub.Unknown <==> !("id" in d && "hr" in d) && !("type" in d && "device_id" in d)
  {
    if "id" in d && "hr" in d then FarmHub.EarTag
    else if "type" in d && "device_id" in d then FarmHub.Sprinkler
    else FarmHub.Unknown
  }

  /** What processing a record stores: an ear-tag row, a sprinkler row, or nothing. */
  datatype Stored = StoredEarTag(earTag: FarmHub.EarTagRow) | StoredSprinkler(sprinkler: FarmHub.SprinklerRow) | Nothing

  /**
   * `_process_lora_data`: the row built for the record's kind, with the same defaults as the
   * full hub's rows; a row that cannot be built (a missing `timestamp` for sprinkler data, a
   * reading that does not convert) or that the insert rejects (a null in a `NOT NULL` column,
   * a list or object, an integer beyond 64 bits) ends in the handler's `except` and stores nothing.
   */
  function Process(d: Record): (s: Stored)
    ensures s.StoredEarTag? <==> (
      Classify(d) == FarmHub.EarTag && FarmHub.EarTagFrom(d).Some? && FarmHub.EarTagInsertable(FarmHub.EarTagFrom(d).value))
    ensures s.StoredEarTag? ==> FarmHub.EarTagFrom(d) == Some(s.earTag)
    ensures s.StoredSprinkler? <==> (
      Classify(d) == FarmHub.Sprinkler && FarmHub.SprinklerFrom(d).Some? && FarmHub.SprinklerInsertable(FarmHub.SprinklerFrom(d).value))
    ensures s.StoredSprinkler? ==> FarmHub.SprinklerFrom(d) == Some(s.sprinkler)
  {
    match Classify(d)
    case EarTag => (match FarmHub.EarTagInserted(d) case Some(row) => StoredEarTag(row) case None => Nothing)
    case Sprinkler => (match FarmHub.SprinklerInserted(d) case Some(row) => StoredSprinkler(row) case None => Nothing)
    case Unknown => Nothing
  }

  /** A record with `id` and `hr` but no `t` is ear-tag data here and not for the full hub. */
  lemma ClassifyWithoutTemperature(d: Record)
    requires "id" in d && "hr" in d && "t" !in d
    ensures Classify(d) == FarmHub.EarTag
    ensures FarmHub.Classify(d) != FarmHub.EarTag
  {
  }

  /** Every record the full hub takes as ear-tag data, this hub does too. */
  lemma ClassifyEarTagAgrees(d: Record)
    requires FarmHub.Classify(d) == FarmHub.EarTag
    ensures Classify(d) == FarmHub.EarTag
  {
  }

  /** A record with `type` and `device_id` but no `timestamp`: sprinkler data here, which cannot be stored; unknown to the full hub. */
  lemma SprinklerWithoutTimestamp(d: Record)
    requires "type" in d && "device_id" in d && "timestamp" !in d && !("id" in d && "hr" in d)
    ensures Classify(d) == FarmHub.Sprinkler && Process(d) == Nothing
    ensures FarmHub.Classify(d) == FarmHub.Unknown
  {
  }

  /** `_convert_nh3_voltage` of this hub: `max(0, (v - 0.4) * 50)`. */
  function ConvertNh3Voltage(v: real): (ppm: real)
    ensures ppm >= 0.0 && ppm >= (v - 0.4) * 50.0
    ensures ppm == 0.0 || ppm == (v - 0.4) * 50.0
  {
    FarmHub.Max(0.0, (v - 0.4) * 50.0)
  }

  /** `_convert_co_voltage` of this hub: `max(0, (v - 0.1) * 100)`. */
  function ConvertCoVoltage(v: real): (ppm: real)
    ensures ppm >= 0.0 && ppm >= (v - 0.1) * 100.0
    ensures ppm == 0.0 || ppm == (v - 0.1) * 100.0
  {
    FarmHub.Max(0.0, (v - 0.1) * 100.0)
  }

  /** The two hubs' converters agree on every voltage, although only the full hub tests the floor first. */
  lemma ConvertersAgree(v: real)
    ensures ConvertNh3Voltage(v) == FarmHub.ConvertNh3Voltage(v)
    ensures ConvertCoVoltage(v) == FarmHub.ConvertCoVoltage(v)
  {
  }
}
