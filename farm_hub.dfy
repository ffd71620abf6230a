/**
 * The full hub (`smart_farm_bom_complete.py`): the LoRa P2P receiver that frames serial text
 * into lines and queues decoded radio records, and the processing step that classifies each
 * record as ear-tag or sprinkler data, stores it and runs the alert checks.
 */
module FarmHub {
  import opened Wrappers
  import opened Text
  import Hex
  import opened Json
  import Alerts

  /** The prefix of a received P2P packet event, `+EVT:RXP2P,RSSI:<n>,SNR:<n>:<hex>`. */
  const Marker: string := "+EVT:RXP2P"

  type byte = Hex.byte

  /** What an RSSI scan reports when no value could be read. */
  const NoRssi: int := -999

  /** Seconds without new data after which a partial line is thrown away. */
  const StaleSeconds: real := 5.0

  /** A queued radio message. The hub's clock reading (`timestamp`) is left out. */
  datatype LoraMessage = LoraMessage(source: string, data: Record, rssi: int, rawHex: string)

  // ---------------------------------------------------------------------------
  // RSSI extraction
  // ---------------------------------------------------------------------------

  /** The value of a scan in which each step may find a value and a later find replaces an earlier one. */
  function LastFound(finds: seq<Option<int>>): int
    decreases |finds|
  {
    if |finds| == 0 then NoRssi
    else
      var n := |finds| - 1;
      if finds[n].Some? then finds[n].value else LastFound(finds[..n])
  }

  /** Step `i` found a value and no later step did. */
  predicate LastFindAt(finds: seq<Option<int>>, i: int)
  {
    0 <= i < |finds| && finds[i].Some? && forall j :: i < j < |finds| ==> finds[j].None?
  }

  /**
   * The scan reports the value of the last step that found one, and the fallback -999 when no
   * step found one.
   */
  lemma {:induction false} LastFoundIsLastFind(finds: seq<Option<int>>)
    ensures forall i :: LastFindAt(finds, i) ==> LastFound(finds) == finds[i].value
    ensures (forall i :: 0 <= i < |finds| ==> finds[i].None?) ==> LastFound(finds) == NoRssi
    decreases |finds|
  {
    if |finds| > 0 {
      var n := |finds| - 1;
      LastFoundIsLastFind(finds[..n]);
      forall i | LastFindAt(finds, i) ensures LastFound(finds) == finds[i].value {
        if i < n {
          assert LastFindAt(finds[..n], i);
        }
      }
      if forall i :: 0 <= i < |finds| ==> finds[i].None? {
        assert forall i :: 0 <= i < n ==> finds[..n][i].None?;
      }
    }
  }

  /**
   * The RSSI loop as written: a colon-part holding both "RSSI" and a comma gives the int of its
   * first comma-segment with "RSSI" removed.
   */
  function AsWrittenFind(part: string): Option<int>
  {
    if Contains(part, "RSSI") && ',' in part then ParseInt(Strip(RemoveAll(Split(part, ',')[0], "RSSI")))
    else None
  }

  function AsWrittenFinds(parts: seq<string>): seq<Option<int>>
  {
    seq(|parts|, i requires 0 <= i < |parts| => AsWrittenFind(parts[i]))
  }

  /** The RSSI the as-written loop reports for a line split on colons. */
  function AsWrittenRssi(parts: seq<string>): int
  {
    LastFound(AsWrittenFinds(parts))
  }

  /**
   * The corrected loop: a colon-part ending with the label "RSSI" is followed by the part
   * holding the value, up to the next comma.
   */
  function CorrectedFind(parts: seq<string>, i: nat): Option<int>
    requires i < |parts|
  {
    if EndsWith(parts[i], "RSSI") && i + 1 < |parts| then ParseInt(Split(parts[i + 1], ',')[0]) else None
  }

  function CorrectedFinds(parts: seq<string>): seq<Option<int>>
  {
    seq(|parts|, i requires 0 <= i < |parts| => CorrectedFind(parts, i))
  }

  /** One more step of a scan: a find replaces the value so far, no find keeps it. */
  lemma LastFoundStep(finds: seq<Option<int>>, i: nat)
    requires i < |finds|
    ensures LastFound(finds[..i + 1]) == if finds[i].Some? then finds[i].value else LastFound(finds[..i])
  {
    assert finds[..i + 1][..i] == finds[..i];
  }

  /** The RSSI loop of `_parse_lora_message`, reading the value that follows the label. */
  method ScanRssi(parts: seq<string>) returns (rssi: int)
    ensures rssi == LastFound(CorrectedFinds(parts))
  {
    var finds := CorrectedFinds(parts);
    rssi := NoRssi;
    for i := 0 to |parts|
      invariant rssi == LastFound(finds[..i])
    {
      var found := CorrectedFind(parts, i);
      LastFoundStep(finds, i);
      if found.Some? {
        rssi := found.value;
      }
    }
    assert finds[..|parts|] == finds;
  }

  // ---------------------------------------------------------------------------
  // Parsing one line
  // ---------------------------------------------------------------------------

  /**
   * `_parse_lora_message` without its queue: the message a marker line yields, if any.
   * `decode` stands for UTF-8 decoding followed by `json.loads`.
   */
  function ParseLine(line: string, decode: seq<byte> -> Option<Record>): Option<LoraMessage>
  {
    var parts := Split(line, ':');
    if |parts| < 4 then None
    else
      var payload := Strip(parts[|parts| - 1]);
      if payload == "" then None
      else
        match Hex.FromHex(payload)
        case None => None
        case Some(bytes) =>
          match decode(bytes)
          case None => None
          case Some(data) => Some(LoraMessage("lora", data, LastFound(CorrectedFinds(parts)), payload))
  }

  /**
   * A line yields a message exactly when it has at least four colon-parts and its stripped
   * last part is not empty, is hexadecimal and decodes.
   */
  lemma ParseLineAccepts(line: string, decode: seq<byte> -> Option<Record>)
    ensures var parts := Split(line, ':');
      var payload := Strip(parts[|parts| - 1]);
      ParseLine(line, decode).Some? <==>
        |parts| >= 4 && payload != "" && Hex.FromHex(payload).Some? && decode(Hex.FromHex(payload).value).Some?
  {
  }

  /**
   * The message a line yields has source "lora", the stripped last colon-part as its raw hex,
   * the record that hex decodes to as data, and the RSSI the scan of the colon-parts reads.
   */
  lemma ParseLineFields(line: string, decode: seq<byte> -> Option<Record>)
    ensures var parts := Split(line, ':');
      var payload := Strip(parts[|parts| - 1]);
      var m := ParseLine(line, decode);
      m.Some? ==>
        && m.value.source == "lora"
        && m.value.rawHex == payload
        && Hex.FromHex(payload).Some?
        && decode(Hex.FromHex(payload).value) == Some(m.value.data)
        && m.value.rssi == LastFound(CorrectedFinds(parts))
  {
  }

  /** The layout of a received-packet event, `+EVT:RXP2P,RSSI:<rssi>,SNR:<snr>:<hex>`, from its field texts. */
  function EventLine(rssi: string, snr: string, hex: string): string
  {
    "+EVT:RXP2P,RSSI:" + rssi + ",SNR:" + snr + ":" + hex
  }

  /** The line a sender's radio module reports, in the format the parser documents. */
  function DocumentedLine(rssi: int, snr: int, payload: seq<Hex.byte>): string
  {
    EventLine(IntToText(rssi), IntToText(snr), Hex.ToHex(payload))
  }

  lemma HexTextLacks(payload: seq<Hex.byte>, c: char)
    requires !Hex.IsLowerHexDigit(c)
    ensures c !in Hex.ToHex(payload)
  {
  }

  /** A line in the documented layout is its five parts joined by colons. */
  lemma EventLineJoin(r: string, s: string, h: string)
    ensures EventLine(r, s, h) == "+EVT" + [':'] + ("RXP2P,RSSI" + [':'] + ((r + ",SNR") + [':'] + (s + [':'] + h)))
  {
  }

  /** The colon-split of a line in the documented layout, for any field texts without a colon. */
  lemma SplitLayout(r: string, s: string, h: string)
    requires ':' !in r && ':' !in s && ':' !in h
    ensures Split(EventLine(r, s, h), ':') == ["+EVT", "RXP2P,RSSI", r + ",SNR", s, h]
  {
    var p2 := r + ",SNR";
    var t3 := s + [':'] + h;
    var t2 := p2 + [':'] + t3;
    var t1 := "RXP2P,RSSI" + [':'] + t2;
    var line := EventLine(r, s, h);
    EventLineJoin(r, s, h);
    var x3 := Split(t3, ':');
    assert x3 == [s, h] by {
      SplitWithoutSep(h, ':');
      SplitAtFirst(s, ':', h);
    }
    var x2 := Split(t2, ':');
    assert x2 == [p2] + x3 by {
      assert ':' !in p2;
      SplitAtFirst(p2, ':', t3);
    }
    var x1 := Split(t1, ':');
    assert x1 == ["RXP2P,RSSI"] + x2 by {
      SplitAtFirst("RXP2P,RSSI", ':', t2);
    }
    assert Split(line, ':') == ["+EVT"] + x1 by {
      SplitAtFirst("+EVT", ':', t1);
    }
  }

  /** How a documented line splits on colons. */
  lemma DocumentedParts(rssi: int, snr: int, payload: seq<Hex.byte>)
    ensures Split(DocumentedLine(rssi, snr, payload), ':') ==
      ["+EVT", "RXP2P,RSSI", IntToText(rssi) + ",SNR", IntToText(snr), Hex.ToHex(payload)]
  {
    IntTextLacks(rssi, ':');
    IntTextLacks(snr, ':');
    HexTextLacks(payload, ':');
    SplitLayout(IntToText(rssi), IntToText(snr), Hex.ToHex(payload));
  }

  /** `rssi` followed by a comma and more text: its first comma-segment is `rssi` itself. */
  lemma FirstSegmentOfValue(rssi: int, rest: string)
    ensures Split(IntToText(rssi) + "," + rest, ',')[0] == IntToText(rssi)
  {
    IntTextLacks(rssi, ',');
    SplitAtFirst(IntToText(rssi), ',', rest);
  }

  /** The corrected loop finds nothing at a part that does not end with the label. */
  lemma UnlabelledFindsNothing(parts: seq<string>, i: nat)
    requires i < |parts| && !EndsWith(parts[i], "RSSI")
    ensures CorrectedFind(parts, i) == None
  {
  }

  /** The corrected loop reads the integer text that follows the label, up to the comma. */
  lemma LabelFindsValue(parts: seq<string>, i: nat, rssi: int, rest: string)
    requires i + 1 < |parts| && EndsWith(parts[i], "RSSI") && parts[i + 1] == IntToText(rssi) + "," + rest
    ensures CorrectedFind(parts, i) == Some(rssi)
  {
    FirstSegmentOfValue(rssi, rest);
    ParseIntRoundTrip(rssi);
  }

  /** A text ending with a character other than "I" does not end with the label. */
  lemma NotLabelEnding(t: string)
    requires |t| >= 1 && t[|t| - 1] != 'I'
    ensures !EndsWith(t, "RSSI")
  {
    if |t| >= 4 {
      assert t[|t| - 4..][3] == t[|t| - 1];
    }
  }

  /** In a five-step scan where only the second step and none after it found a value, that value is reported. */
  lemma SecondOfFiveIsLast(finds: seq<Option<int>>)
    requires |finds| == 5 && finds[1].Some? && finds[2].None? && finds[3].None? && finds[4].None?
    ensures LastFound(finds) == finds[1].value
  {
    forall j | 1 < j < |finds| ensures finds[j].None? {
      if j == 2 {} else if j == 3 {} else {}
    }
    assert LastFindAt(finds, 1);
    LastFoundIsLastFind(finds);
  }

  /**
   * On the documented layout the corrected scan reports the value after the label: of five
   * colon-parts only the second ends with it, and the third starts with the value.
   */
  lemma CorrectedRssiOnLayout(parts: seq<string>, rssi: int)
    requires |parts| == 5 && EndsWith(parts[1], "RSSI") && ParseInt(Split(parts[2], ',')[0]) == Some(rssi)
    requires !EndsWith(parts[0], "RSSI") && !EndsWith(parts[2], "RSSI") && !EndsWith(parts[3], "RSSI")
    ensures LastFound(CorrectedFinds(parts)) == rssi
  {
    var finds := CorrectedFinds(parts);
    assert finds[1] == CorrectedFind(parts, 1) == Some(rssi);
    assert finds[2] == CorrectedFind(parts, 2) == None;
    assert finds[3] == CorrectedFind(parts, 3) == None;
    assert finds[4] == CorrectedFind(parts, 4) == None;
    SecondOfFiveIsLast(finds);
  }

  /** The event tag does not end with the label; the part in front of the value does. */
  lemma LabelParts()
    ensures !EndsWith("+EVT", "RSSI") && EndsWith("RXP2P,RSSI", "RSSI")
  {
    NotLabelEnding("+EVT");
    assert "RXP2P,RSSI"[6..] == "RSSI";
  }

  /** The part after the label reads back as the RSSI and does not itself end with the label. */
  lemma ValuePart(rssi: int)
    ensures ParseInt(Split(IntToText(rssi) + ",SNR", ',')[0]) == Some(rssi)
    ensures !EndsWith(IntToText(rssi) + ",SNR", "RSSI")
  {
    FirstSegmentOfValue(rssi, "SNR");
    assert IntToText(rssi) + "," + "SNR" == IntToText(rssi) + ",SNR";
    ParseIntRoundTrip(rssi);
    NotLabelEnding(IntToText(rssi) + ",SNR");
  }

  /** The label facts of the five parts of a layout carry over to the sequence of those parts. */
  lemma LayoutLabels(p0: string, p1: string, v: string, s: string, h: string, rssi: int)
    requires EndsWith(p1, "RSSI") && ParseInt(Split(v, ',')[0]) == Some(rssi)
    requires !EndsWith(p0, "RSSI") && !EndsWith(v, "RSSI") && !EndsWith(s, "RSSI")
    ensures var parts := [p0, p1, v, s, h];
      && |parts| == 5 && EndsWith(parts[1], "RSSI") && ParseInt(Split(parts[2], ',')[0]) == Some(rssi)
      && !EndsWith(parts[0], "RSSI") && !EndsWith(parts[2], "RSSI") && !EndsWith(parts[3], "RSSI")
  {
    var parts := [p0, p1, v, s, h];
    assert parts[0] == p0 && parts[1] == p1 && parts[2] == v && parts[3] == s;
  }

  /** The corrected scan reads the RSSI a documented line carries. */
  lemma CorrectedRssiOnDocumentedLine(rssi: int, snr: int, payload: seq<Hex.byte>)
    ensures LastFound(CorrectedFinds(Split(DocumentedLine(rssi, snr, payload), ':'))) == rssi
  {
    DocumentedParts(rssi, snr, payload);
    LabelParts();
    ValuePart(rssi);
    NotLabelEnding(IntToText(snr));
    LayoutLabels("+EVT", "RXP2P,RSSI", IntToText(rssi) + ",SNR", IntToText(snr), Hex.ToHex(payload), rssi);
    CorrectedRssiOnLayout(Split(DocumentedLine(rssi, snr, payload), ':'), rssi);
  }

  /**
   * A colon-part made of a word and a comma, where the word has no "S" and does not start like
   * a number, yields nothing in the as-written loop.
   */
  lemma LabelPartFindsNothing(a: string, b: string)
    requires |a| > 0 && ',' !in a && 'S' !in a
    requires !IsDigit(a[0]) && a[0] != '-' && a[0] != '+' && !IsSpace(a[0]) && !IsSpace(a[|a| - 1])
    ensures AsWrittenFind(a + [','] + b) == None
  {
    assert Split(a + [','] + b, ',')[0] == a by {
      SplitAtFirst(a, ',', b);
    }
    assert RemoveAll(a, "RSSI") == a by {
      MissingCharNotContained(a, "RSSI", 1);
      RemoveAbsent(a, "RSSI");
    }
    assert ParseInt(Strip(a)) == None by {
      StripUnpadded(a);
      assert !AllDigits(a);
    }
  }

  /** A colon-part without the letter I cannot hold "RSSI", so the as-written loop finds nothing in it. */
  lemma UnlabelledPartFindsNothing(p: string)
    requires 'I' !in p
    ensures AsWrittenFind(p) == None
  {
    MissingCharNotContained(p, "RSSI", 3);
  }

  /** A colon-part without a comma yields nothing in the as-written loop. */
  lemma UncommaedPartFindsNothing(p: string)
    requires ',' !in p
    ensures AsWrittenFind(p) == None
  {
  }

  /** A line none of whose colon-parts yields a value gets the fallback from the as-written loop. */
  lemma AsWrittenFindsNothing(parts: seq<string>)
    requires forall j :: 0 <= j < |parts| ==> AsWrittenFind(parts[j]) == None
    ensures AsWrittenRssi(parts) == NoRssi
  {
    var finds := AsWrittenFinds(parts);
    assert forall j :: 0 <= j < |finds| ==> finds[j].None?;
    LastFoundIsLastFind(finds);
  }

  /** On the documented layout, with a label part that does not start like a number, the as-written loop finds nothing. */
  lemma AsWrittenRssiOnLayout(p0: string, a: string, b: string, rssi: int, s: string, h: string)
    requires ',' !in p0 && ',' !in s && ',' !in h
    requires |a| > 0 && ',' !in a && 'S' !in a
    requires !IsDigit(a[0]) && a[0] != '-' && a[0] != '+' && !IsSpace(a[0]) && !IsSpace(a[|a| - 1])
    ensures AsWrittenRssi([p0, a + [','] + b, IntToText(rssi) + ",SNR", s, h]) == NoRssi
  {
    var tagPart, valuePart := a + [','] + b, IntToText(rssi) + ",SNR";
    var parts := [p0, tagPart, valuePart, s, h];
    assert parts[0] == p0 && parts[1] == tagPart && parts[2] == valuePart && parts[3] == s && parts[4] == h;
    LabelPartFindsNothing(a, b);
    IntTextLacks(rssi, 'I');
    UnlabelledPartFindsNothing(valuePart);
    UncommaedPartFindsNothing(p0);
    UncommaedPartFindsNothing(s);
    UncommaedPartFindsNothing(h);
    forall j | 0 <= j < |parts| ensures AsWrittenFind(parts[j]) == None {
      assert j == 0 || j == 1 || j == 2 || j == 3 || j == 4;
    }
    AsWrittenFindsNothing(parts);
  }

  /** The event tag has no comma, and the part in front of the value is a word, a comma and the label. */
  lemma TagFacts()
    ensures ',' !in "+EVT" && "RXP2P" + [','] + "RSSI" == "RXP2P,RSSI"
    ensures var a := "RXP2P"; |a| > 0 && ',' !in a && 'S' !in a
    ensures !IsDigit('R') && !IsSpace('R') && !IsSpace('P')
  {
  }

  /**
   * The as-written scan never reads the RSSI of a documented line: the only colon-part with
   * both "RSSI" and a comma is "RXP2P,RSSI", whose first comma-segment is not a number.
   */
  lemma AsWrittenRssiOnDocumentedLine(rssi: int, snr: int, payload: seq<Hex.byte>)
    ensures AsWrittenRssi(Split(DocumentedLine(rssi, snr, payload), ':')) == NoRssi
  {
    DocumentedParts(rssi, snr, payload);
    IntTextLacks(snr, ',');
    HexTextLacks(payload, ',');
    TagFacts();
    AsWrittenRssiOnLayout("+EVT", "RXP2P", "RSSI", rssi, IntToText(snr), Hex.ToHex(payload));
  }

  /** The texts of the concrete line the parser's own comment describes. */
  lemma CounterexampleLine()
    ensures DocumentedLine(-70, 5, [0x7B, 0x7D]) == "+EVT:RXP2P,RSSI:-70,SNR:5:7b7d"
  {
    CounterexampleFields();
    assert EventLine("-70", "5", "7b7d") == "+EVT:RXP2P,RSSI:-70,SNR:5:7b7d";
  }

  /** The field texts of the concrete line. */
  lemma CounterexampleFields()
    ensures IntToText(-70) == "-70" && IntToText(5) == "5" && Hex.ToHex([0x7B, 0x7D]) == "7b7d"
  {
    assert NatToText(70) == NatToText(7) + "0";
    assert Hex.ToHex([0x7D]) == "7d";
  }

  /** The concrete line the parser's own comment describes, with RSSI -70 and a two-byte payload. */
  lemma AsWrittenRssiCounterexample()
    ensures DocumentedLine(-70, 5, [0x7B, 0x7D]) == "+EVT:RXP2P,RSSI:-70,SNR:5:7b7d"
    ensures AsWrittenRssi(Split(DocumentedLine(-70, 5, [0x7B, 0x7D]), ':')) == NoRssi
    ensures LastFound(CorrectedFinds(Split(DocumentedLine(-70, 5, [0x7B, 0x7D]), ':'))) == -70
  {
    CounterexampleLine();
    AsWrittenRssiOnDocumentedLine(-70, 5, [0x7B, 0x7D]);
    CorrectedRssiOnDocumentedLine(-70, 5, [0x7B, 0x7D]);
  }

  /** A line whose last colon-part is, once stripped, the hex of some bytes yields what those bytes decode to. */
  lemma ParseLineOfHex(line: string, decode: seq<byte> -> Option<Record>, bytes: seq<byte>)
    requires var parts := Split(line, ':'); |parts| >= 4 && Strip(parts[|parts| - 1]) == Hex.ToHex(bytes)
    requires |bytes| > 0
    ensures ParseLine(line, decode) ==
      if decode(bytes).Some? then Some(LoraMessage("lora", decode(bytes).value, LastFound(CorrectedFinds(Split(line, ':'))), Hex.ToHex(bytes)))
      else None
  {
    Hex.FromHexToHex(bytes);
    ParseLineAccepts(line, decode);
    ParseLineFields(line, decode);
  }

  /** The last colon-part of a documented line is the payload's hex, which stripping leaves as it is. */
  lemma DocumentedPayload(rssi: int, snr: int, payload: seq<Hex.byte>)
    requires |payload| > 0
    ensures var parts := Split(DocumentedLine(rssi, snr, payload), ':');
      |parts| >= 4 && Strip(parts[|parts| - 1]) == Hex.ToHex(payload)
  {
    var h := Hex.ToHex(payload);
    DocumentedParts(rssi, snr, payload);
    assert Hex.IsLowerHexDigit(h[0]) && Hex.IsLowerHexDigit(h[|h| - 1]);
    StripUnpadded(h);
  }

  /** A documented line carrying a non-empty payload the decoder accepts is queued with its RSSI and payload. */
  lemma ParseDocumentedLine(rssi: int, snr: int, payload: seq<Hex.byte>, decode: seq<Hex.byte> -> Option<Record>)
    requires |payload| > 0
    ensures ParseLine(DocumentedLine(rssi, snr, payload), decode) ==
      if decode(payload).Some? then Some(LoraMessage("lora", decode(payload).value, rssi, Hex.ToHex(payload)))
      else None
  {
    DocumentedPayload(rssi, snr, payload);
    CorrectedRssiOnDocumentedLine(rssi, snr, payload);
    ParseLineOfHex(DocumentedLine(rssi, snr, payload), decode, payload);
  }

  // ---------------------------------------------------------------------------
  // Line framing
  // ---------------------------------------------------------------------------

  /** Received text cut at its newlines: the finished lines and the unfinished rest. */
  datatype Framed = Framed(lines: seq<string>, rest: string)

  /** What `split('\n', 1)` repeated until no newline remains leaves: every line and the tail. */
  function Frame(s: string): (f: Framed)
    ensures '\n' !in f.rest
    ensures forall i :: 0 <= i < |f.lines| ==> '\n' !in f.lines[i]
  {
    var pieces := Split(s, '\n');
    Framed(pieces[..|pieces| - 1], pieces[|pieces| - 1])
  }

  /** Framing loses nothing: the lines and the rest, joined by newlines, are the text. */
  lemma FrameLossless(s: string)
    ensures Join(Frame(s).lines + [Frame(s).rest], '\n') == s
  {
    var pieces := Split(s, '\n');
    SplitJoin(s, '\n');
    assert pieces[..|pieces| - 1] + [pieces[|pieces| - 1]] == pieces;
  }

  /**
   * Framing does not depend on how the text was chunked by serial reads: a line cut between
   * two reads is reassembled from the rest the first read left behind.
   */
  lemma FrameChunked(a: string, b: string)
    ensures Frame(a + b).lines == Frame(a).lines + Frame(Frame(a).rest + b).lines
    ensures Frame(a + b).rest == Frame(Frame(a).rest + b).rest
  {
    SplitAppend(a, b, '\n');
    var pa := Split(a, '\n');
    var q := Split(pa[|pa| - 1] + b, '\n');
    var all := pa[..|pa| - 1] + q;
    assert all[..|all| - 1] == pa[..|pa| - 1] + q[..|q| - 1];
  }

  /** Text whose pieces are some lines and a last piece frames into those lines and that rest. */
  lemma FrameOfPieces(s: string, lines: seq<string>, rest: string)
    requires Split(s, '\n') == lines + [rest]
    ensures Frame(s) == Framed(lines, rest)
  {
    assert (lines + [rest])[..|lines|] == lines;
  }

  /** Text without a newline is all rest and no line. */
  lemma FrameNoNewline(s: string)
    requires '\n' !in s
    ensures Frame(s) == Framed([], s)
  {
    SplitWithoutSep(s, '\n');
  }

  /** What the receive loop queues for one line: the line is stripped and parsed only if it carries the marker. */
  function LineMessage(line: string, decode: seq<byte> -> Option<Record>): seq<LoraMessage>
  {
    var stripped := Strip(line);
    if Contains(stripped, Marker) then AsSeq(ParseLine(stripped, decode)) else []
  }

  /** The messages the receive loop queues for a run of lines, in order. */
  function LineMessages(lines: seq<string>, decode: seq<byte> -> Option<Record>): seq<LoraMessage>
    decreases |lines|
  {
    if |lines| == 0 then []
    else
      var n := |lines| - 1;
      LineMessages(lines[..n], decode) + LineMessage(lines[n], decode)
  }

  /** The queue entries a parse contributes: its message, if any. */
  function AsSeq<T>(m: Option<T>): seq<T>
  {
    if m.Some? then [m.value] else []
  }

  /** A line yields at most one message, only if its stripped text carries the marker, and it is what that text parses to. */
  lemma LineMessageFromMarkedLine(line: string, decode: seq<byte> -> Option<Record>)
    ensures |LineMessage(line, decode)| <= 1
    ensures forall m :: m in LineMessage(line, decode) ==>
      m.source == "lora" && Contains(Strip(line), Marker) && ParseLine(Strip(line), decode) == Some(m)
  {
    if Contains(Strip(line), Marker) {
      ParseLineFields(Strip(line), decode);
    }
  }

  /** Every queued message is the message of one of the lines. */
  lemma {:induction false} LineMessagesFromLines(lines: seq<string>, decode: seq<byte> -> Option<Record>)
    ensures forall m :: m in LineMessages(lines, decode) ==>
      exists i :: 0 <= i < |lines| && m in LineMessage(lines[i], decode)
    decreases |lines|
  {
    if |lines| > 0 {
      var n := |lines| - 1;
      var init := lines[..n];
      LineMessagesFromLines(init, decode);
      forall m | m in LineMessages(lines, decode)
        ensures exists i :: 0 <= i < |lines| && m in LineMessage(lines[i], decode)
      {
        if m in LineMessages(init, decode) {
          var i :| 0 <= i < n && m in LineMessage(init[i], decode);
          assert init[i] == lines[i];
        } else {
          assert m in LineMessage(lines[n], decode);
        }
      }
    }
  }

  /** Every queued message is what one of the lines parses to, once stripped, and that line carries the marker. */
  lemma LineMessagesFromMarkedLines(lines: seq<string>, decode: seq<byte> -> Option<Record>)
    ensures forall m :: m in LineMessages(lines, decode) ==>
      m.source == "lora" && exists i :: 0 <= i < |lines| && Contains(Strip(lines[i]), Marker) && ParseLine(Strip(lines[i]), decode) == Some(m)
  {
    LineMessagesFromLines(lines, decode);
    forall m | m in LineMessages(lines, decode)
      ensures m.source == "lora" && exists i :: 0 <= i < |lines| && Contains(Strip(lines[i]), Marker) && ParseLine(Strip(lines[i]), decode) == Some(m)
    {
      var i :| 0 <= i < |lines| && m in LineMessage(lines[i], decode);
      LineMessageFromMarkedLine(lines[i], decode);
    }
  }

  /** One more line queues that line's messages after those of the lines before it. */
  lemma LineMessagesSnoc(lines: seq<string>, line: string, decode: seq<byte> -> Option<Record>)
    ensures LineMessages(lines + [line], decode) == LineMessages(lines, decode) + LineMessage(line, decode)
  {
    assert (lines + [line])[..|lines|] == lines;
  }

  /** Messages of consecutive runs of lines are queued in order. */
  lemma {:induction false} LineMessagesAppend(a: seq<string>, b: seq<string>, decode: seq<byte> -> Option<Record>)
    ensures LineMessages(a + b, decode) == LineMessages(a, decode) + LineMessages(b, decode)
    decreases |b|
  {
    if |b| == 0 {
      assert a + b == a;
    } else {
      var n := |b| - 1;
      var init, last := b[..n], b[n];
      assert b == init + [last];
      assert a + b == (a + init) + [last];
      LineMessagesAppend(a, init, decode);
      LineMessagesSnoc(a + init, last, decode);
      LineMessagesSnoc(init, last, decode);
      AppendAssoc(LineMessages(a, decode), LineMessages(init, decode), LineMessage(last, decode));
    }
  }

  lemma AppendAssoc<T>(a: seq<T>, b: seq<T>, c: seq<T>)
    ensures (a + b) + c == a + (b + c)
  {
  }

  /**
   * The steps of `_parse_lora_message` up to the message it queues: the part count and empty
   * payload guards, the RSSI loop, hex decoding and the decoder.
   */
  method ReadMessage(line: string, decode: seq<byte> -> Option<Record>) returns (m: Option<LoraMessage>)
    ensures m == ParseLine(line, decode)
  {
    ParseLineAccepts(line, decode);
    ParseLineFields(line, decode);
    m := None;
    var parts := Split(line, ':');
    if |parts| < 4 {
      return;
    }
    var payload := Strip(parts[|parts| - 1]);
    if payload == "" {
      return;
    }
    var rssi := ScanRssi(parts);
    var bytes := Hex.FromHex(payload);
    if bytes.None? {
      return;
    }
    var data := decode(bytes.value);
    if data.None? {
      return;
    }
    m := Some(LoraMessage("lora", data.value, rssi, payload));
  }

  // ---------------------------------------------------------------------------
  // The receiver
  // ---------------------------------------------------------------------------

  /** `LoRaReceiver`: the text buffer of its receive loop, the time data last arrived, and its queue. */
  class LoRaReceiver {
    var buffer: string
    var lastDataTime: real
    var queue: seq<LoraMessage>

    /** Between iterations the buffer holds at most one unfinished line. */
    predicate Valid()
      reads this
    {
      '\n' !in buffer
    }

    constructor (now: real)
      ensures Valid() && buffer == "" && lastDataTime == now && queue == []
    {
      buffer := "";
      lastDataTime := now;
      queue := [];
    }

    /** `_parse_lora_message`: queue the message a line yields, if any. */
    method ParseLoraMessage(line: string, decode: seq<byte> -> Option<Record>)
      modifies this
      ensures queue == old(queue) + AsSeq(ParseLine(line, decode))
      ensures buffer == old(buffer) && lastDataTime == old(lastDataTime)
    {
      var m := ReadMessage(line, decode);
      if m.Some? {
        queue := queue + [m.value];
      }
    }

    /** One line of `_receive_loop`: stripped, and parsed only if it carries the marker. */
    method HandleLine(line: string, decode: seq<byte> -> Option<Record>)
      modifies this
      ensures queue == old(queue) + LineMessage(line, decode)
      ensures buffer == old(buffer) && lastDataTime == old(lastDataTime)
    {
      var stripped := Strip(line);
      if Contains(stripped, Marker) {
        ParseLoraMessage(stripped, decode);
      }
    }

    /** Takes the first finished line out of the buffer and handles it. */
    method TakeLine(decode: seq<byte> -> Option<Record>) returns (line: string)
      requires '\n' in buffer
      modifies this
      ensures Split(old(buffer), '\n') == [line] + Split(buffer, '\n')
      ensures |buffer| < |old(buffer)|
      ensures queue == old(queue) + LineMessage(line, decode)
      ensures lastDataTime == old(lastDataTime)
    {
      var i := IndexOf(buffer, '\n');
      line := buffer[..i];
      SplitAtFirst(line, '\n', buffer[i + 1..]);
      assert buffer == line + ['\n'] + buffer[i + 1..];
      buffer := buffer[i + 1..];
      HandleLine(line, decode);
    }

    /**
     * The inner loop of `_receive_loop`: each finished line in the buffer is taken out and
     * handled in order; the unfinished rest stays in the buffer.
     */
    method DrainLines(decode: seq<byte> -> Option<Record>)
      modifies this
      ensures var f := Frame(old(buffer));
        queue == old(queue) + LineMessages(f.lines, decode) && buffer == f.rest
      ensures lastDataTime == old(lastDataTime)
    {
      ghost var text, queued := buffer, queue;
      ghost var done: seq<string> := [];
      while '\n' in buffer
        invariant Split(text, '\n') == done + Split(buffer, '\n')
        invariant queue == queued + LineMessages(done, decode)
        invariant lastDataTime == old(lastDataTime)
        decreases |buffer|
      {
        var line := TakeLine(decode);
        LineMessagesSnoc(done, line, decode);
        AppendAssoc(done, [line], Split(buffer, '\n'));
        AppendAssoc(queued, LineMessages(done, decode), LineMessage(line, decode));
        done := done + [line];
      }
      SplitWithoutSep(buffer, '\n');
      FrameOfPieces(text, done, buffer);
    }

    /**
     * One pass of `_receive_loop`. `incoming` is the decoded text of a serial read, None when
     * nothing was waiting; `now` is the clock reading, taken once for the pass.
     */
    method Tick(incoming: Option<string>, now: real, decode: seq<byte> -> Option<Record>)
      requires Valid()
      modifies this
      ensures Valid()
      ensures lastDataTime == if incoming.Some? then now else old(lastDataTime)
      ensures incoming.None? ==> queue == old(queue)
      ensures incoming.Some? ==>
        var f := Frame(old(buffer) + incoming.value);
        queue == old(queue) + LineMessages(f.lines, decode) && buffer == f.rest
      ensures incoming.None? ==>
        buffer == if now - old(lastDataTime) > StaleSeconds then "" else old(buffer)
    {
      if incoming.Some? {
        buffer := buffer + incoming.value;
        lastDataTime := now;
        DrainLines(decode);
      }
      if now - lastDataTime > StaleSeconds && buffer != "" {
        buffer := "";
      }
    }
  }

  // ---------------------------------------------------------------------------
  // Classification and conversion
  // ---------------------------------------------------------------------------

  /** `_is_ear_tag_data`: the keys `id`, `t` and `hr` are all present. */
  predicate IsEarTagData(d: Record)
  {
    "id" in d && "t" in d && "hr" in d
  }

  /** `_is_sprinkler_data`: the keys `type`, `device_id` and `timestamp` are all present. */
  predicate IsSprinklerData(d: Record)
  {
    "type" in d && "device_id" in d && "timestamp" in d
  }

  datatype Kind = EarTag | Sprinkler | Unknown

  /** `_process_lora_data`'s dispatch: ear-tag data is recognised first. */
  function Classify(d: Record): (k: Kind)
    ensures k == EarTag <==> IsEarTagData(d)
    ensures k == Sprinkler <==> !IsEarTagData(d) && IsSprinklerData(d)
    ensures k == Unknown <==> !IsEarTagData(d) && !IsSprinklerData(d)
  {
    if IsEarTagData(d) then EarTag else if IsSprinklerData(d) then Sprinkler else Unknown
  }

  /** `EarTagData` as stored; `timestamp` is None when the hub's own clock reading stands in. */
  datatype EarTagRow = EarTagRow(
    deviceId: string,
    timestamp: Option<Value>,
    temperature: real,
    accelX: real,
    accelY: real,
    accelZ: real,
    heartRate: int,
    spo2: real)

  /** `SprinklerData` as stored; absent optional keys are JNull. */
  datatype SprinklerRow = SprinklerRow(
    deviceId: string,
    timestamp: Value,
    messageType: Value,
    rfidUid: Value,
    action: Value,
    moistureLevel: Value,
    alert: Value)

  /**
   * The `EarTagData` built from a record: readings missing from the record count as 0, and a
   * reading `float()`/`int()` rejects, a missing `id` or one that is not text is the failure
   * case (None). `float()` also reads decimal text, and `int()` integer text.
   */
  function EarTagFrom(d: Record): (r: Option<EarTagRow>)
    ensures r.Some? ==> "id" in d && d["id"] == JStr(r.value.deviceId)
    ensures r.Some? ==> FloatOf(Get(d, "t", JInt(0))) == Some(r.value.temperature)
    ensures r.Some? ==> FloatOf(Get(d, "ax", JInt(0))) == Some(r.value.accelX)
    ensures r.Some? ==> FloatOf(Get(d, "ay", JInt(0))) == Some(r.value.accelY)
    ensures r.Some? ==> FloatOf(Get(d, "az", JInt(0))) == Some(r.value.accelZ)
    ensures r.Some? ==> ToInt(Get(d, "hr", JInt(0))) == Some(r.value.heartRate)
    ensures r.Some? ==> FloatOf(Get(d, "spo2", JInt(0))) == Some(r.value.spo2)
    ensures r.Some? ==> r.value.timestamp == if "timestamp" in d then Some(d["timestamp"]) else None
    ensures r.None? <==> (
      || "id" !in d || !d["id"].JStr?
      || FloatOf(Get(d, "t", JInt(0))).None? || FloatOf(Get(d, "ax", JInt(0))).None?
      || FloatOf(Get(d, "ay", JInt(0))).None? || FloatOf(Get(d, "az", JInt(0))).None?
      || ToInt(Get(d, "hr", JInt(0))).None? || FloatOf(Get(d, "spo2", JInt(0))).None?)
  {
    if "id" !in d || !d["id"].JStr? then None
    else
      var t := FloatOf(Get(d, "t", JInt(0)));
      var ax := FloatOf(Get(d, "ax", JInt(0)));
      var ay := FloatOf(Get(d, "ay", JInt(0)));
      var az := FloatOf(Get(d, "az", JInt(0)));
      var hr := ToInt(Get(d, "hr", JInt(0)));
      var spo2 := FloatOf(Get(d, "spo2", JInt(0)));
      if t.None? || ax.None? || ay.None? || az.None? || hr.None? || spo2.None? then None
      else
        var ts := if "timestamp" in d then Some(d["timestamp"]) else None;
        Some(EarTagRow(d["id"].s, ts, t.value, ax.value, ay.value, az.value, hr.value, spo2.value))
  }

  /** A record carrying only the required ear-tag keys gets 0 for every other reading. */
  lemma EarTagDefaults(id: string, t: real, hr: int)
    ensures var r := EarTagFrom(map["id" := JStr(id), "t" := JReal(t), "hr" := JInt(hr)]);
      r == Some(EarTagRow(id, None, t, 0.0, 0.0, 0.0, hr, 0.0))
  {
  }

  /**
   * The `SprinklerData` built from a record: `device_id`, `timestamp` and `type` are required
   * (a missing one is the KeyError case, None), the rest default to JNull.
   */
  function SprinklerFrom(d: Record): (r: Option<SprinklerRow>)
    ensures r.Some? <==> "device_id" in d && d["device_id"].JStr? && "timestamp" in d && "type" in d
    ensures r.Some? ==> (
      && r.value.messageType == d["type"] && r.value.timestamp == d["timestamp"]
      && JStr(r.value.deviceId) == d["device_id"] && r.value.moistureLevel == Get(d, "moisture_level", JNull)
      && r.value.rfidUid == Get(d, "rfid_uid", JNull) && r.value.action == Get(d, "action", JNull)
      && r.value.alert == Get(d, "alert", JNull))
  {
    if "device_id" !in d || !d["device_id"].JStr? || "timestamp" !in d || "type" !in d then None
    else Some(SprinklerRow(d["device_id"].s, d["timestamp"], d["type"],
                           Get(d, "rfid_uid", JNull), Get(d, "action", JNull),
                           Get(d, "moisture_level", JNull), Get(d, "alert", JNull)))
  }

  // ---------------------------------------------------------------------------
  // The database insert
  // ---------------------------------------------------------------------------

  /**
   * Whether `sqlite3` binds a decoded value as a query parameter: lists and objects are not
   * bound, and an integer must fit SQLite's signed 64-bit INTEGER.
   */
  predicate Bindable(v: Value)
  {
    !v.JOther? && (v.JInt? ==> -0x8000_0000_0000_0000 <= v.i < 0x8000_0000_0000_0000)
  }

  /** A value a `NOT NULL` column accepts: bindable and not None. */
  predicate BindableNotNull(v: Value)
  {
    Bindable(v) && !v.JNull?
  }

  /**
   * `insert_ear_tag_data` succeeds: `timestamp` is `NOT NULL` (the hub's own clock text when
   * the record has none) and the heart rate fits 64 bits; the readings are floats and bind.
   */
  predicate EarTagInsertable(row: EarTagRow)
  {
    && (row.timestamp.Some? ==> BindableNotNull(row.timestamp.value))
    && -0x8000_0000_0000_0000 <= row.heartRate < 0x8000_0000_0000_0000
  }

  /** `insert_sprinkler_data` succeeds: `timestamp` and `message_type` are `NOT NULL`, the rest nullable. */
  predicate SprinklerInsertable(row: SprinklerRow)
  {
    && BindableNotNull(row.timestamp) && BindableNotNull(row.messageType)
    && Bindable(row.rfidUid) && Bindable(row.action) && Bindable(row.moistureLevel) && Bindable(row.alert)
  }

  /** The ear-tag row a record leaves in the database: built, and accepted by the insert. */
  function EarTagInserted(d: Record): Option<EarTagRow>
  {
    match EarTagFrom(d)
    case Some(row) => if EarTagInsertable(row) then Some(row) else None
    case None => None
  }

  /** The sprinkler row a record leaves in the database: built, and accepted by the insert. */
  function SprinklerInserted(d: Record): Option<SprinklerRow>
  {
    match SprinklerFrom(d)
    case Some(row) => if SprinklerInsertable(row) then Some(row) else None
    case None => None
  }

  /** `_convert_nh3_voltage`: ppm from the MQ-137 output voltage. */
  function ConvertNh3Voltage(v: real): (ppm: real)
    ensures ppm >= 0.0
    ensures v < 0.4 ==> ppm == 0.0
    ensures v >= 0.4 ==> ppm == (v - 0.4) * 50.0
  {
    if v < 0.4 then 0.0 else Max(0.0, (v - 0.4) * 50.0)
  }

  /** `_convert_co_voltage`: ppm from the MQ-7 output voltage. */
  function ConvertCoVoltage(v: real): (ppm: real)
    ensures ppm >= 0.0
    ensures v < 0.1 ==> ppm == 0.0
    ensures v >= 0.1 ==> ppm == (v - 0.1) * 100.0
  {
    if v < 0.1 then 0.0 else Max(0.0, (v - 0.1) * 100.0)
  }

  function Max(a: real, b: real): real
  {
    if a >= b then a else b
  }

  // ---------------------------------------------------------------------------
  // Processing a queued message
  // ---------------------------------------------------------------------------

  /** The readings the ear-tag path hands to the animal-health check: every one of them present. */
  function HealthOf(row: EarTagRow): Alerts.HealthData
  {
    Alerts.HealthData(Some(row.heartRate as real), Some(row.spo2), Some(row.temperature),
                      Some(Alerts.Accel(row.accelX, row.accelY, row.accelZ)))
  }

  /** The system check's input for a sprinkler row: its moisture level, as a number if it is one. */
  function SystemOf(row: SprinklerRow): Alerts.SystemData
  {
    var reading := match ToFloat(row.moistureLevel) {
      case Some(x) => Alerts.Numeric(x)
      case None => Alerts.NotNumeric
    };
    Alerts.SystemData(reading, Some(row.deviceId))
  }

  /** Only water alerts and moisture reports are checked against the tank rule. */
  predicate ChecksSystem(messageType: Value)
  {
    messageType == JStr("WATER_ALERT") || messageType == JStr("MOISTURE_STATUS")
  }

  /** What processing one record does: the row stored, the alerts raised and the cooldown map after. */
  datatype Outcome = Outcome(
    earTag: Option<EarTagRow>,
    sprinkler: Option<SprinklerRow>,
    alerts: seq<Alert>,
    recent: map<string, int>)

  type Alert = Alerts.Alert

  /**
   * `_process_ear_tag_data`: a readable row is stored and its health checked; a row the insert
   * rejects ends in the handler's `except`, before the health check.
   */
  function EarTagOutcome(rules: map<string, Alerts.Rule>, recent: map<string, int>, d: Record, now: int): Outcome
  {
    match EarTagInserted(d)
    case None => Outcome(None, None, [], recent)
    case Some(row) =>
      var scan := Alerts.HealthScan(rules, recent, row.deviceId, HealthOf(row), now);
      Outcome(Some(row), None, scan.alerts, scan.recent)
  }

  /**
   * `_process_sprinkler_data`: a readable row is stored; only water-alert and moisture-status
   * rows are checked. A row the insert rejects ends in the `except`, before the check.
   */
  function SprinklerOutcome(rules: map<string, Alerts.Rule>, recent: map<string, int>, d: Record, now: int): Outcome
  {
    match SprinklerInserted(d)
    case None => Outcome(None, None, [], recent)
    case Some(row) =>
      if !ChecksSystem(row.messageType) then Outcome(None, Some(row), [], recent)
      else
        match Alerts.SystemScan(rules, recent, SystemOf(row), now)
        case Raised => Outcome(None, Some(row), [], recent)
        case Checked(scan) => Outcome(None, Some(row), scan.alerts, scan.recent)
  }

  /** `_process_lora_data`: ear-tag data first, then sprinkler data, anything else ignored. */
  function Process(rules: map<string, Alerts.Rule>, recent: map<string, int>, d: Record, now: int): Outcome
  {
    match Classify(d)
    case EarTag => EarTagOutcome(rules, recent, d, now)
    case Sprinkler => SprinklerOutcome(rules, recent, d, now)
    case Unknown => Outcome(None, None, [], recent)
  }

  /** A record with both the ear-tag and the sprinkler keys is handled as ear-tag data only. */
  lemma EarTagTakesPriority(rules: map<string, Alerts.Rule>, recent: map<string, int>, d: Record, now: int)
    requires IsEarTagData(d) && IsSprinklerData(d)
    ensures Process(rules, recent, d, now).sprinkler == None
    ensures Process(rules, recent, d, now) == EarTagOutcome(rules, recent, d, now)
  {
  }

  /**
   * Sprinkler messages of any type other than WATER_ALERT and MOISTURE_STATUS are stored but
   * raise no alert and leave the cooldowns alone.
   */
  lemma OtherSprinklerTypesRaiseNothing(rules: map<string, Alerts.Rule>, recent: map<string, int>, d: Record, now: int)
    requires Classify(d) == Sprinkler && !ChecksSystem(Get(d, "type", JNull))
    ensures Process(rules, recent, d, now) == Outcome(None, SprinklerInserted(d), [], recent)
  {
  }

  /** Whatever record arrives, at most one row is stored, and only a stored row can raise alerts. */
  lemma AtMostOneRow(rules: map<string, Alerts.Rule>, recent: map<string, int>, d: Record, now: int)
    ensures var o := Process(rules, recent, d, now);
      !(o.earTag.Some? && o.sprinkler.Some?)
      && (o.earTag.None? && o.sprinkler.None? ==> o.alerts == [] && o.recent == recent)
  {
  }

  /**
   * A record whose `timestamp` is null stores no row, raises no alert and leaves the cooldowns
   * alone, whatever its kind: the `NOT NULL` insert raises before any check.
   */
  lemma NullTimestampNotStored(rules: map<string, Alerts.Rule>, recent: map<string, int>, d: Record, now: int)
    requires "timestamp" in d && d["timestamp"] == JNull
    ensures Process(rules, recent, d, now) == Outcome(None, None, [], recent)
  {
  }

  /**
   * A sprinkler record carrying a list or an object in any stored field stores no row and
   * reaches no system check.
   */
  lemma UnbindableSprinklerNotStored(rules: map<string, Alerts.Rule>, recent: map<string, int>, d: Record, now: int, key: string)
    requires Classify(d) == Sprinkler
    requires key in ["timestamp", "type", "rfid_uid", "action", "moisture_level", "alert"]
    requires key in d && d[key] == JOther
    ensures Process(rules, recent, d, now) == Outcome(None, None, [], recent)
  {
  }

  /** An ear-tag record touches only its own device's cooldown keys. */
  lemma EarTagKeepsOtherDevices(rules: map<string, Alerts.Rule>, recent: map<string, int>, d: Record, now: int, other: string)
    requires Classify(d) == EarTag && EarTagFrom(d).Some? && EarTagFrom(d).value.deviceId != other
    ensures var after := Process(rules, recent, d, now).recent;
      forall k :: k in Alerts.HealthKeys(other) ==> (k in after <==> k in recent) && (k in recent ==> after[k] == recent[k])
  {
    var row := EarTagFrom(d).value;
    Alerts.HealthTouchesOnlyOwnKeys(rules, recent, row.deviceId, HealthOf(row), now, other);
  }

  /** The hub's processing side: its alert manager, statistics and stored rows. */
  class Hub {
    const alerts: Alerts.AlertManager
    var loraMessagesReceived: nat
    var alertsGenerated: nat
    var earTagRows: seq<EarTagRow>
    var sprinklerRows: seq<SprinklerRow>

    constructor (manager: Alerts.AlertManager)
      ensures alerts == manager
      ensures loraMessagesReceived == 0 && alertsGenerated == 0 && earTagRows == [] && sprinklerRows == []
    {
      alerts := manager;
      loraMessagesReceived := 0;
      alertsGenerated := 0;
      earTagRows := [];
      sprinklerRows := [];
    }

    /** One message taken off the queue by `_data_processing_loop`; LoRa messages go on to ProcessRecord. */
    method HandleMessage(msg: LoraMessage, now: int) returns (raised: seq<Alert>)
      modifies this, alerts
      ensures loraMessagesReceived == old(loraMessagesReceived) + 1
      ensures msg.source != "lora" ==> (
        && raised == [] && alerts.recentAlerts == old(alerts.recentAlerts)
        && earTagRows == old(earTagRows) && sprinklerRows == old(sprinklerRows) && alertsGenerated == old(alertsGenerated))
      ensures msg.source == "lora" ==>
        var o := Process(alerts.rules, old(alerts.recentAlerts), msg.data, now);
        && raised == o.alerts
        && alerts.recentAlerts == o.recent
        && alertsGenerated == old(alertsGenerated) + |o.alerts|
        && earTagRows == old(earTagRows) + (if o.earTag.Some? then [o.earTag.value] else [])
        && sprinklerRows == old(sprinklerRows) + (if o.sprinkler.Some? then [o.sprinkler.value] else [])
    {
      loraMessagesReceived := loraMessagesReceived + 1;
      raised := [];
      if msg.source == "lora" {
        raised := ProcessRecord(msg.data, now);
      }
    }

    /** `_process_lora_data`: stores the row of an ear-tag or sprinkler record and runs its alert checks. */
    method ProcessRecord(d: Record, now: int) returns (raised: seq<Alert>)
      modifies this, alerts
      ensures loraMessagesReceived == old(loraMessagesReceived)
      ensures var o := Process(alerts.rules, old(alerts.recentAlerts), d, now);
        && raised == o.alerts
        && alerts.recentAlerts == o.recent
        && alertsGenerated == old(alertsGenerated) + |o.alerts|
        && earTagRows == old(earTagRows) + (if o.earTag.Some? then [o.earTag.value] else [])
        && sprinklerRows == old(sprinklerRows) + (if o.sprinkler.Some? then [o.sprinkler.value] else [])
    {
      match Classify(d)
      case EarTag => raised := ProcessEarTag(d, now);
      case Sprinkler => raised := ProcessSprinkler(d, now);
      case Unknown => raised := [];
    }

    /** `_process_ear_tag_data`. */
    method ProcessEarTag(d: Record, now: int) returns (raised: seq<Alert>)
      modifies this, alerts
      ensures loraMessagesReceived == old(loraMessagesReceived)
      ensures var o := EarTagOutcome(alerts.rules, old(alerts.recentAlerts), d, now);
        && raised == o.alerts
        && alerts.recentAlerts == o.recent
        && alertsGenerated == old(alertsGenerated) + |o.alerts|
        && earTagRows == old(earTagRows) + (if o.earTag.Some? then [o.earTag.value] else [])
        && sprinklerRows == old(sprinklerRows) + (if o.sprinkler.Some? then [o.sprinkler.value] else [])
    {
      raised := [];
      var row := EarTagFrom(d);
      if row.Some? && EarTagInsertable(row.value) {
        earTagRows := earTagRows + [row.value];
        raised := alerts.CheckAnimalHealthAlerts(row.value.deviceId, HealthOf(row.value), now);
        alertsGenerated := alertsGenerated + |raised|;
      }
    }

    /** `_process_sprinkler_data`. */
    method ProcessSprinkler(d: Record, now: int) returns (raised: seq<Alert>)
      modifies this, alerts
      ensures loraMessagesReceived == old(loraMessagesReceived)
      ensures var o := SprinklerOutcome(alerts.rules, old(alerts.recentAlerts), d, now);
        && raised == o.alerts
        && alerts.recentAlerts == o.recent
        && alertsGenerated == old(alertsGenerated) + |o.alerts|
        && earTagRows == old(earTagRows) + (if o.earTag.Some? then [o.earTag.value] else [])
        && sprinklerRows == old(sprinklerRows) + (if o.sprinkler.Some? then [o.sprinkler.value] else [])
    {
      raised := [];
      var row := SprinklerFrom(d);
      if row.Some? && SprinklerInsertable(row.value) {
        sprinklerRows := sprinklerRows + [row.value];
        if ChecksSystem(row.value.messageType) {
          var found, failed := alerts.CheckSystemAlerts(SystemOf(row.value), now);
          if !failed {
            raised := found;
            alertsGenerated := alertsGenerated + |raised|;
          }
        }
      }
    }
  }
}
