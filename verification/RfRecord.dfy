/** The records of the RF log: their format, and how to read it back. */
module RfRecord {
  import opened Common

  // ---------------------------------------------------------------------------
  // The record

  function HexDigit(n: nat): char
    requires n < 16
  {
    if n < 10 then ('0' as int + n) as char else ('a' as int + n - 10) as char
  }

  function Hex(data: Bytes): string {
    if data == [] then "" else [HexDigit(data[0] / 16), HexDigit(data[0] % 16)] + Hex(data[1..])
  }

  /** Printable ASCII; the quote, the backslash and everything else become dots. */
  function Printable(b: Byte): char {
    if 0x20 <= b < 0x7F && b != 0x22 && b != 0x5C then b as char else '.'
  }

  function Ascii(data: Bytes): string {
    if data == [] then "" else [Printable(data[0])] + Ascii(data[1..])
  }

  function Decimal(n: nat): string {
    if n < 10 then [HexDigit(n)] else Decimal(n / 10) + [HexDigit(n % 10)]
  }

  datatype Outcome = Confirmed | Unconfirmed

  function OutcomeWord(outcome: Outcome): string {
    if outcome.Confirmed? then "ok" else "unconfirmed"
  }

  /** A received frame; the time stamp and the two measurements are already formatted. */
  function FormatRx(utc: string, rssi: string, snr: string, data: Bytes): string {
    utc + " RX rssi=" + rssi + " snr=" + snr + " len=" + Decimal(|data|)
    + " hex=" + Hex(data) + " ascii=\"" + Ascii(data) + "\"\n"
  }

  function FormatTx(utc: string, outcome: Outcome, data: Bytes): string {
    utc + " TX rssi=- snr=- len=" + Decimal(|data|) + " outcome=" + OutcomeWord(outcome)
    + " hex=" + Hex(data) + " ascii=\"" + Ascii(data) + "\"\n"
  }

  /** What the time stamp and the two-decimal numbers are made of. */
  predicate Field(text: string) {
    forall c <- text :: c in "0123456789-:.TZnaif"
  }

  /** ASCII with no newline and no quote. */
  predicate Clean(text: string) {
    forall c <- text :: c as int < 128 && c != '\n' && c != '"'
  }

  /** Text before the hex field of a record. */
  predicate Plain(text: string) {
    Clean(text) && 'x' !in text
  }

  const MARK := " hex="
  const QUOTE := " ascii=\""
  const CLOSE := "\"\n"

  function Line(prefix: string, data: Bytes): string {
    prefix + MARK + Hex(data) + QUOTE + Ascii(data) + CLOSE
  }

  // ---------------------------------------------------------------------------
  // Reading back

  function IndexOf(text: string, c: char): nat {
    if text == "" || text[0] == c then 0 else 1 + IndexOf(text[1..], c)
  }

  function HexValue(c: char): Option<int> {
    if '0' <= c <= '9' then Some(c as int - '0' as int)
    else if 'a' <= c <= 'f' then Some(c as int - 'a' as int + 10)
    else None
  }

  function Unhex(text: string): Option<Bytes> {
    if text == "" then Some([])
    else if |text| < 2 then None
    else
      var hi, lo, rest := HexValue(text[0]), HexValue(text[1]), Unhex(text[2..]);
      if hi.Some? && lo.Some? && rest.Some? && 0 <= hi.value < 16 && 0 <= lo.value < 16
      then Some([hi.value * 16 + lo.value] + rest.value) else None
  }

  /** The payload of a record: the characters after the first `x=`, up to the next space, as hex. */
  function Parse(record: string): Option<Bytes> {
    var i := IndexOf(record, 'x');
    if i + 2 > |record| then None
    else
      var tail := record[i + 2..];
      var j := IndexOf(tail, ' ');
      if j <= |tail| then Unhex(tail[..j]) else None
  }

  /** Cut a log into its lines and read each. */
  function ParseLog(text: string): seq<Option<Bytes>>
    decreases |text|
  {
    var i := IndexOf(text, '\n');
    if i >= |text| then [] else [Parse(text[..i + 1])] + ParseLog(text[i + 1..])
  }

  // ---------------------------------------------------------------------------
  // Format properties

  lemma {:induction false} IndexOfFirst(a: string, c: char, b: string)
    requires c !in a
    ensures IndexOf(a + [c] + b, c) == |a|
  {
    if a != "" {
      assert (a + [c] + b)[1..] == a[1..] + [c] + b;
      IndexOfFirst(a[1..], c, b);
    }
  }

  lemma {:induction false} HexChars(data: Bytes)
    ensures forall c <- Hex(data) :: '0' <= c <= '9' || 'a' <= c <= 'f'
  {
    if data != [] {
      HexChars(data[1..]);
    }
  }

  lemma DigitRoundTrip(n: nat)
    requires n < 16
    ensures HexValue(HexDigit(n)) == Some(n)
  {
  }

  lemma UnhexPair(hi: nat, lo: nat, rest: string, tail: Bytes)
    requires hi < 16 && lo < 16 && Unhex(rest) == Some(tail)
    ensures Unhex([HexDigit(hi), HexDigit(lo)] + rest) == Some([hi * 16 + lo] + tail)
  {
    DigitRoundTrip(hi);
    DigitRoundTrip(lo);
    assert ([HexDigit(hi), HexDigit(lo)] + rest)[2..] == rest;
  }

  lemma {:induction false} HexRoundTrip(data: Bytes)
    ensures Unhex(Hex(data)) == Some(data)
  {
    if data != [] {
      var hi, lo, rest := data[0] / 16, data[0] % 16, data[1..];
      HexRoundTrip(rest);
      UnhexPair(hi, lo, Hex(rest), rest);
      assert Hex(data) == [HexDigit(hi), HexDigit(lo)] + Hex(rest);
      assert hi * 16 + lo == data[0];
      assert [data[0]] + rest == data;
    }
  }

  lemma {:induction false} AsciiIsHarmless(data: Bytes)
    ensures |Ascii(data)| == |data|
    ensures forall c <- Ascii(data) :: 0x20 <= c as int < 0x7F && c != '"' && c != '\\'
  {
    if data != [] {
      AsciiIsHarmless(data[1..]);
    }
  }

  /** The printable field, character by character: printable ASCII other than the quote and the backslash
      is shown, everything else is a dot. */
  lemma {:induction false} AsciiShows(data: Bytes, i: nat)
    requires i < |data|
    ensures |Ascii(data)| == |data|
    ensures Ascii(data)[i] as int ==
            if 0x20 <= data[i] <= 0x7E && data[i] != '"' as int && data[i] != '\\' as int then data[i] else '.' as int
  {
    AsciiIsHarmless(data);
    if i > 0 {
      AsciiShows(data[1..], i - 1);
    }
  }

  function Undecimal(text: string): int {
    if text == "" then 0 else Undecimal(text[..|text| - 1]) * 10 + (text[|text| - 1] as int - '0' as int)
  }

  /** The length field reads back as the number, and has no leading zero. */
  lemma {:induction false} DecimalRoundTrip(n: nat)
    ensures Undecimal(Decimal(n)) == n
    ensures Decimal(n) != "" && (n > 0 ==> Decimal(n)[0] != '0')
  {
    if n >= 10 {
      DecimalRoundTrip(n / 10);
      var front := Decimal(n / 10);
      assert (front + [HexDigit(n % 10)])[..|front|] == front;
    } else {
      assert [HexDigit(n)][..0] == "";
    }
  }

  lemma {:induction false} DecimalIsPlain(n: nat)
    ensures forall c <- Decimal(n) :: '0' <= c <= '9'
  {
    if n >= 10 {
      DecimalIsPlain(n / 10);
    }
  }

  lemma PlainConcat(a: string, b: string)
    requires Plain(a) && Plain(b)
    ensures Plain(a + b)
  {
  }

  lemma FieldIsPlain(text: string)
    requires Field(text)
    ensures Plain(text)
  {
    assert Plain("0123456789-:.TZnaif");
  }

  function RxPrefix(utc: string, rssi: string, snr: string, len: nat): string {
    utc + " RX rssi=" + rssi + " snr=" + snr + " len=" + Decimal(len)
  }

  function TxPrefix(utc: string, outcome: Outcome, len: nat): string {
    utc + " TX rssi=- snr=- len=" + Decimal(len) + " outcome=" + OutcomeWord(outcome)
  }

  lemma RxIsLine(utc: string, rssi: string, snr: string, data: Bytes)
    requires Field(utc) && Field(rssi) && Field(snr)
    ensures Plain(RxPrefix(utc, rssi, snr, |data|))
    ensures FormatRx(utc, rssi, snr, data) == Line(RxPrefix(utc, rssi, snr, |data|), data)
  {
    DecimalIsPlain(|data|);
    FieldIsPlain(utc);
    FieldIsPlain(rssi);
    FieldIsPlain(snr);
    PlainConcat(utc, " RX rssi=");
    PlainConcat(utc + " RX rssi=", rssi);
    PlainConcat(utc + " RX rssi=" + rssi, " snr=");
    PlainConcat(utc + " RX rssi=" + rssi + " snr=", snr);
    PlainConcat(utc + " RX rssi=" + rssi + " snr=" + snr, " len=");
    PlainConcat(utc + " RX rssi=" + rssi + " snr=" + snr + " len=", Decimal(|data|));
  }

  lemma OutcomeIsPlain(outcome: Outcome)
    ensures Plain(OutcomeWord(outcome))
  {
  }

  lemma TxPrefixIsPlain(utc: string, outcome: Outcome, len: nat)
    requires Field(utc)
    ensures Plain(TxPrefix(utc, outcome, len))
  {
    var head, word := utc + " TX rssi=- snr=- len=" + Decimal(len), OutcomeWord(outcome);
    TxHeadIsPlain(utc, len);
    OutcomeIsPlain(outcome);
    PlainConcat(head, " outcome=");
    PlainConcat(head + " outcome=", word);
  }

  lemma TxHeadIsPlain(utc: string, len: nat)
    requires Field(utc)
    ensures Plain(utc + " TX rssi=- snr=- len=" + Decimal(len))
  {
    DecimalIsPlain(len);
    FieldIsPlain(utc);
    PlainConcat(utc, " TX rssi=- snr=- len=");
    PlainConcat(utc + " TX rssi=- snr=- len=", Decimal(len));
  }

  lemma TxIsLine(utc: string, outcome: Outcome, data: Bytes)
    requires Field(utc)
    ensures Plain(TxPrefix(utc, outcome, |data|))
    ensures FormatTx(utc, outcome, data) == Line(TxPrefix(utc, outcome, |data|), data)
  {
    TxPrefixIsPlain(utc, outcome, |data|);
  }

  lemma CleanConcat(a: string, b: string)
    requires Clean(a) && Clean(b)
    ensures Clean(a + b)
  {
  }

  /** The text of a record before its quoted field. */
  function BeforeQuote(prefix: string, data: Bytes): string {
    prefix + MARK + Hex(data) + " ascii="
  }

  /** A record is ASCII; its one newline is its last character; its two quotes enclose the printable
      field, which holds no quote and one character per payload byte. */
  lemma RecordShape(prefix: string, data: Bytes)
    requires Plain(prefix)
    ensures Line(prefix, data) == BeforeQuote(prefix, data) + "\"" + Ascii(data) + "\"" + "\n"
    ensures Clean(BeforeQuote(prefix, data)) && Clean(Ascii(data)) && |Ascii(data)| == |data|
  {
    HexChars(data);
    AsciiIsHarmless(data);
    CleanConcat(prefix, MARK);
    CleanConcat(prefix + MARK, Hex(data));
    CleanConcat(prefix + MARK + Hex(data), " ascii=");
    assert QUOTE == " ascii=" + "\"" && CLOSE == "\"" + "\n";
  }

  lemma ParseFinds(before: string, hex: string, after: string)
    requires 'x' !in before && ' ' !in hex
    ensures Parse(before + "x" + ("=" + hex + " " + after)) == Unhex(hex)
  {
    var tail := hex + " " + after;
    var record := before + "x" + ("=" + tail);
    assert "=" + hex + " " + after == "=" + tail;
    IndexOfFirst(before, 'x', "=" + tail);
    assert record[|before| + 2..] == tail;
    IndexOfFirst(hex, ' ', after);
    assert tail[..|hex|] == hex;
  }

  /** The same text, cut where the reader looks. */
  lemma LineCut(prefix: string, hex: string, text: string)
    ensures prefix + MARK + hex + QUOTE + text + CLOSE
         == (prefix + " he") + "x" + ("=" + hex + " " + ("ascii=\"" + text + CLOSE))
  {
    assert MARK == " he" + ("x" + "=") && QUOTE == " " + "ascii=\"";
    var tail := " " + ("ascii=\"" + text + CLOSE);
    assert QUOTE + text + CLOSE == tail;
    assert prefix + MARK + hex + QUOTE + text + CLOSE == prefix + MARK + (hex + tail);
    assert prefix + MARK == (prefix + " he") + ("x" + "=");
  }

  /** Reading a record gives back the payload. */
  lemma RecordRoundTrip(prefix: string, data: Bytes)
    requires Plain(prefix)
    ensures Parse(Line(prefix, data)) == Some(data)
  {
    HexRoundTrip(data);
    HexChars(data);
    LineCut(prefix, Hex(data), Ascii(data));
    ParseFinds(prefix + " he", Hex(data), "ascii=\"" + Ascii(data) + CLOSE);
  }

  datatype Record = Record(prefix: string, data: Bytes)

  function Text(records: seq<Record>): string {
    if records == [] then "" else Line(records[0].prefix, records[0].data) + Text(records[1..])
  }

  function Payloads(records: seq<Record>): seq<Option<Bytes>> {
    if records == [] then [] else [Some(records[0].data)] + Payloads(records[1..])
  }

  /** A log of any number of records reads back as the same sequence of payloads. */
  lemma {:induction false} LogRoundTrip(records: seq<Record>)
    requires forall r <- records :: Plain(r.prefix)
    ensures ParseLog(Text(records)) == Payloads(records)
    decreases |records|
  {
    if records != [] {
      var line, rest := Line(records[0].prefix, records[0].data), Text(records[1..]);
      var body := BeforeQuote(records[0].prefix, records[0].data) + "\"" + Ascii(records[0].data) + "\"";
      assert records[0] in records;
      RecordShape(records[0].prefix, records[0].data);
      RecordRoundTrip(records[0].prefix, records[0].data);
      assert line == body + "\n";
      assert '\n' !in body;
      assert Text(records) == body + "\n" + rest;
      IndexOfFirst(body, '\n', rest);
      assert Text(records)[..|line|] == line && Text(records)[|line|..] == rest;
      LogRoundTrip(records[1..]);
    }
  }

  /** One call of `rx` or `tx` on the log. */
  datatype Event =
    | Received(utc: string, rssi: string, snr: string, data: Bytes)
    | Sent(utc: string, outcome: Outcome, data: Bytes)

  predicate Formatted(e: Event) {
    Field(e.utc) && (e.Received? ==> Field(e.rssi) && Field(e.snr))
  }

  function Format(e: Event): string {
    match e
    case Received(utc, rssi, snr, data) => FormatRx(utc, rssi, snr, data)
    case Sent(utc, outcome, data) => FormatTx(utc, outcome, data)
  }

  function LogText(events: seq<Event>): string {
    if events == [] then "" else Format(events[0]) + LogText(events[1..])
  }

  function RecordOf(e: Event): Record {
    match e
    case Received(utc, rssi, snr, data) => Record(RxPrefix(utc, rssi, snr, |data|), data)
    case Sent(utc, outcome, data) => Record(TxPrefix(utc, outcome, |data|), data)
  }

  lemma EventIsLine(e: Event)
    requires Formatted(e)
    ensures Plain(RecordOf(e).prefix) && Format(e) == Line(RecordOf(e).prefix, e.data)
  {
    match e
    case Received(utc, rssi, snr, data) => RxIsLine(utc, rssi, snr, data);
    case Sent(utc, outcome, data) => TxIsLine(utc, outcome, data);
  }

  lemma {:induction false} EventsAreLines(events: seq<Event>) returns (records: seq<Record>)
    requires forall e <- events :: Formatted(e)
    ensures |records| == |events| && forall i :: 0 <= i < |events| ==> records[i].data == events[i].data
    ensures (forall r <- records :: Plain(r.prefix)) && LogText(events) == Text(records)
    decreases |events|
  {
    records := [];
    if events != [] {
      assert events[0] in events;
      EventIsLine(events[0]);
      var rest := EventsAreLines(events[1..]);
      records := [RecordOf(events[0])] + rest;
      assert records[1..] == rest;
    }
  }

  lemma {:induction false} PayloadsAt(records: seq<Record>)
    ensures |Payloads(records)| == |records|
    ensures forall i :: 0 <= i < |records| ==> Payloads(records)[i] == Some(records[i].data)
    decreases |records|
  {
    if records != [] {
      PayloadsAt(records[1..]);
    }
  }

  /** Any sequence of received and sent frames, in the formats the log writes, reads back as exactly
      their payloads, in order. */
  lemma EventsRoundTrip(events: seq<Event>)
    requires forall e <- events :: Formatted(e)
    ensures var read := ParseLog(LogText(events));
            |read| == |events| && forall i :: 0 <= i < |events| ==> read[i] == Some(events[i].data)
  {
    var records := EventsAreLines(events);
    LogRoundTrip(records);
    PayloadsAt(records);
  }

  // ---------------------------------------------------------------------------
  // The fields of a record, in order

  /** The text cut at its spaces. */
  function Words(text: string): seq<string>
    decreases |text|
  {
    var i := IndexOf(text, ' ');
    if i >= |text| then [text] else [text[..i]] + Words(text[i + 1..])
  }

  lemma FirstWord(word: string, rest: string)
    requires ' ' !in word
    ensures Words(word + " " + rest) == [word] + Words(rest)
  {
    var text := word + " " + rest;
    assert text == word + [' '] + rest;
    IndexOfFirst(word, ' ', rest);
    assert text[..|word|] == word && text[|word| + 1..] == rest;
  }

  /** These words, then the rest of the text. */
  function Spaced(words: seq<string>, rest: string): string {
    if words == [] then rest else words[0] + " " + Spaced(words[1..], rest)
  }

  lemma {:induction false} WordsOfSpaced(words: seq<string>, rest: string)
    requires forall w <- words :: ' ' !in w
    ensures Words(Spaced(words, rest)) == words + Words(rest)
  {
    if words == [] {
      assert [] + Words(rest) == Words(rest);
    } else {
      assert words[0] in words;
      FirstWord(words[0], Spaced(words[1..], rest));
      WordsOfSpaced(words[1..], rest);
      HeadAndTail(words, Words(rest));
    }
  }

  lemma HeadAndTail(words: seq<string>, more: seq<string>)
    requires words != []
    ensures [words[0]] + (words[1..] + more) == words + more
  {
  }

  lemma Associative(x: string, y: string, z: string)
    ensures x + y + z == x + (y + z)
  {
  }

  /** Text that ends in a complete word, before some more words. */
  lemma {:induction false} SpacedSnoc(words: seq<string>, word: string, rest: string)
    ensures Spaced(words + [word], rest) == Spaced(words, word + " " + rest)
  {
    if words == [] {
      assert [] + [word] == [word] && [word][1..] == [];
    } else {
      assert (words + [word])[1..] == words[1..] + [word];
      SpacedSnoc(words[1..], word, rest);
    }
  }

  /** Appending to the last word appends to the text. */
  lemma {:induction false} SpacedAppend(words: seq<string>, text: string, more: string)
    ensures Spaced(words, text) + more == Spaced(words, text + more)
  {
    if words != [] {
      SpacedAppend(words[1..], text, more);
      Associative(words[0] + " ", Spaced(words[1..], text), more);
    }
  }

  /** The next field: a space, its name, and its value. */
  lemma NextField(words: seq<string>, word: string, name: string, value: string)
    ensures Spaced(words, word) + (" " + name) + value == Spaced(words + [word], name + value)
  {
    SpacedAppend(words, word, " " + name);
    SpacedAppend(words, word + (" " + name), value);
    Associative(word, " ", name);
    Associative(word + " ", name, value);
    SpacedSnoc(words, word, name + value);
  }

  /** The fields of a receive record, as the line contract lists them. */
  function RxFields(utc: string, rssi: string, snr: string, data: Bytes): seq<string> {
    [utc, "RX", "rssi=" + rssi, "snr=" + snr, "len=" + Decimal(|data|), "hex=" + Hex(data)]
  }

  function TxFields(utc: string, outcome: Outcome, data: Bytes): seq<string> {
    [utc, "TX", "rssi=-", "snr=-", "len=" + Decimal(|data|),
     if outcome.Confirmed? then "outcome=ok" else "outcome=unconfirmed", "hex=" + Hex(data)]
  }

  /** The quoted field and the end of the line. */
  function Quoted(data: Bytes): string {
    "ascii=\"" + Ascii(data) + "\"\n"
  }

  lemma RxHead(utc: string, rssi: string)
    ensures utc + " RX rssi=" + rssi == Spaced([utc, "RX"], "rssi=" + rssi)
  {
    NextField([], utc, "RX", "");
    assert [] + [utc] == [utc] && "RX" + "" == "RX" && utc + (" " + "RX") + "" == utc + " RX";
    NextField([utc], "RX", "rssi=", rssi);
    assert [utc] + ["RX"] == [utc, "RX"];
    assert " RX rssi=" == " RX" + (" " + "rssi=");
    Associative(utc, " RX", " " + "rssi=");
  }

  lemma RxPrefixFields(utc: string, rssi: string, snr: string, len: nat)
    ensures RxPrefix(utc, rssi, snr, len) == Spaced([utc, "RX", "rssi=" + rssi, "snr=" + snr], "len=" + Decimal(len))
  {
    RxHead(utc, rssi);
    NextField([utc, "RX"], "rssi=" + rssi, "snr=", snr);
    assert [utc, "RX"] + ["rssi=" + rssi] == [utc, "RX", "rssi=" + rssi] && " " + "snr=" == " snr=";
    NextField([utc, "RX", "rssi=" + rssi], "snr=" + snr, "len=", Decimal(len));
    assert [utc, "RX", "rssi=" + rssi] + ["snr=" + snr] == [utc, "RX", "rssi=" + rssi, "snr=" + snr];
    assert " " + "len=" == " len=";
  }

  lemma TxHeadRssi(utc: string)
    ensures utc + " TX rssi=-" == Spaced([utc, "TX"], "rssi=-")
  {
    NextField([], utc, "TX", "");
    assert [] + [utc] == [utc] && "TX" + "" == "TX" && utc + (" " + "TX") + "" == utc + " TX";
    NextField([utc], "TX", "rssi=-", "");
    assert [utc] + ["TX"] == [utc, "TX"] && "rssi=-" + "" == "rssi=-";
    assert " TX rssi=-" == " TX" + (" " + "rssi=-");
    Associative(utc, " TX", " " + "rssi=-");
    assert utc + " TX" + (" " + "rssi=-") + "" == utc + " TX" + (" " + "rssi=-");
  }

  lemma TxHeadSnr(utc: string)
    ensures utc + " TX rssi=-" + " snr=-" == Spaced([utc, "TX", "rssi=-"], "snr=-")
  {
    TxHeadRssi(utc);
    NextField([utc, "TX"], "rssi=-", "snr=-", "");
    assert [utc, "TX"] + ["rssi=-"] == [utc, "TX", "rssi=-"] && "snr=-" + "" == "snr=-";
    var text := utc + " TX rssi=-" + " snr=-";
    assert " " + "snr=-" == " snr=-" && text + "" == text;
  }

  lemma TxHead(utc: string, len: nat)
    ensures utc + " TX rssi=- snr=- len=" + Decimal(len)
         == Spaced([utc, "TX", "rssi=-", "snr=-"], "len=" + Decimal(len))
  {
    TxHeadSnr(utc);
    NextField([utc, "TX", "rssi=-"], "snr=-", "len=", Decimal(len));
    assert [utc, "TX", "rssi=-"] + ["snr=-"] == [utc, "TX", "rssi=-", "snr=-"] && " " + "len=" == " len=";
    assert " TX rssi=- snr=- len=" == " TX rssi=-" + (" snr=-" + " len=");
    Associative(utc, " TX rssi=-", " snr=-" + " len=");
    Associative(utc + " TX rssi=-", " snr=-", " len=");
  }

  lemma TxPrefixFields(utc: string, outcome: Outcome, len: nat)
    ensures TxPrefix(utc, outcome, len)
         == Spaced([utc, "TX", "rssi=-", "snr=-", "len=" + Decimal(len)],
                   if outcome.Confirmed? then "outcome=ok" else "outcome=unconfirmed")
  {
    TxHead(utc, len);
    NextField([utc, "TX", "rssi=-", "snr=-"], "len=" + Decimal(len), "outcome=", OutcomeWord(outcome));
    assert [utc, "TX", "rssi=-", "snr=-"] + ["len=" + Decimal(len)]
        == [utc, "TX", "rssi=-", "snr=-", "len=" + Decimal(len)];
    assert " " + "outcome=" == " outcome=";
    assert "outcome=" + "ok" == "outcome=ok" && "outcome=" + "unconfirmed" == "outcome=unconfirmed";
  }

  /** A line whose prefix has these fields has them and the hex field, and then the quoted one. */
  lemma LineFields(words: seq<string>, word: string, prefix: string, data: Bytes)
    requires prefix == Spaced(words, word) && (forall w <- words :: ' ' !in w) && ' ' !in word
    ensures Words(Line(prefix, data)) == words + [word, "hex=" + Hex(data)] + Words(Quoted(data))
  {
    HexChars(data);
    NextField(words, word, "hex=", Hex(data));
    assert " " + "hex=" == MARK;
    SpacedAppend(words + [word], "hex=" + Hex(data), " " + Quoted(data));
    LineEnds(prefix, data);
    var fields := words + [word];
    SpacedSnoc(fields, "hex=" + Hex(data), Quoted(data));
    Associative("hex=" + Hex(data), " ", Quoted(data));
    assert fields + ["hex=" + Hex(data)] == words + [word, "hex=" + Hex(data)];
    WordsOfSpaced(words + [word, "hex=" + Hex(data)], Quoted(data));
  }

  lemma LineEnds(prefix: string, data: Bytes)
    ensures Line(prefix, data) == prefix + MARK + Hex(data) + (" " + Quoted(data))
  {
    assert QUOTE == " " + "ascii=\"" && CLOSE == "\"\n";
    var head := prefix + MARK + Hex(data);
    Associative(head + QUOTE, Ascii(data), CLOSE);
    Associative(head, QUOTE, Ascii(data) + CLOSE);
    Associative("ascii=\"", Ascii(data), CLOSE);
    Associative(" ", "ascii=\"", Ascii(data) + CLOSE);
  }

  lemma NoSpaceInside(text: string)
    requires Field(text)
    ensures ' ' !in text
  {
    assert ' ' !in "0123456789-:.TZnaif";
  }

  /** The fields of every record, between single spaces: the documented names in the documented order, with
      the values written, before the quoted one. */
  lemma RxFieldsReadBack(utc: string, rssi: string, snr: string, data: Bytes)
    requires Field(utc) && Field(rssi) && Field(snr)
    ensures Words(FormatRx(utc, rssi, snr, data)) == RxFields(utc, rssi, snr, data) + Words(Quoted(data))
  {
    RxIsLine(utc, rssi, snr, data);
    RxPrefixFields(utc, rssi, snr, |data|);
    NoSpaceInside(utc);
    NoSpaceInside(rssi);
    NoSpaceInside(snr);
    DecimalIsPlain(|data|);
    var words := [utc, "RX", "rssi=" + rssi, "snr=" + snr];
    LineFields(words, "len=" + Decimal(|data|), RxPrefix(utc, rssi, snr, |data|), data);
    assert words + ["len=" + Decimal(|data|), "hex=" + Hex(data)] == RxFields(utc, rssi, snr, data);
  }

  lemma TxFieldsReadBack(utc: string, outcome: Outcome, data: Bytes)
    requires Field(utc)
    ensures Words(FormatTx(utc, outcome, data)) == TxFields(utc, outcome, data) + Words(Quoted(data))
  {
    TxIsLine(utc, outcome, data);
    TxPrefixFields(utc, outcome, |data|);
    NoSpaceInside(utc);
    DecimalIsPlain(|data|);
    var words := [utc, "TX", "rssi=-", "snr=-", "len=" + Decimal(|data|)];
    var word := if outcome.Confirmed? then "outcome=ok" else "outcome=unconfirmed";
    LineFields(words, word, TxPrefix(utc, outcome, |data|), data);
    assert words + [word, "hex=" + Hex(data)] == TxFields(utc, outcome, data);
  }
}
