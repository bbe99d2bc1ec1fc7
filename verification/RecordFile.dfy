/** The pruner's temporary file: one CID per line, padded with spaces to a fixed
    width, used as a random-access array. Text is ASCII, so a character is a byte. */
module RecordFile {
  import opened Common

  /** CID text: printing and parsing belong to the CID library. */
  datatype Codec = Codec(show: Cid -> string, parse: string -> Option<Cid>)

  predicate IsSpace(c: char) {
    c == ' ' || c == '\t' || c == '\n' || c == '\r' || c == '\U{0B}' || c == '\U{0C}'
  }

  ghost predicate NoSpace(s: string) {
    forall c | c in s :: !IsSpace(c)
  }

  /** Parsing undoes printing, and a printed CID contains no white space. */
  ghost predicate Faithful(codec: Codec) {
    forall c :: codec.parse(codec.show(c)) == Some(c) && codec.show(c) != "" && NoSpace(codec.show(c))
  }

  const PAD_LENGTH: nat := 64

  function Spaces(n: nat): string {
    seq(n, _ => ' ')
  }

  /** `%-*s`: pads short text, never truncates long text. */
  function Record(text: string): string {
    text + (if |text| < PAD_LENGTH then Spaces(PAD_LENGTH - |text|) else "") + "\n"
  }

  /** What the writer has written after these CID texts. */
  function Encode(texts: seq<string>): string {
    if texts == [] then "" else Encode(texts[..|texts| - 1]) + Record(texts[|texts| - 1])
  }

  /** The first line of s, without its end. */
  function Line(s: string): string {
    if s == "" || s[0] == '\n' then "" else [s[0]] + Line(s[1..])
  }

  /** bufio.ScanLines also drops a carriage return at the end of the line. */
  function DropReturn(s: string): string {
    if s != "" && s[|s| - 1] == '\r' then s[..|s| - 1] else s
  }

  /** Seek to the offset and scan one line; past the end there is only "". */
  function ReadLine(file: string, offset: nat): string {
    if offset <= |file| then DropReturn(Line(file[offset..])) else ""
  }

  function TrimLeft(s: string): string {
    if s != "" && IsSpace(s[0]) then TrimLeft(s[1..]) else s
  }

  function TrimRight(s: string): string {
    if s != "" && IsSpace(s[|s| - 1]) then TrimRight(s[..|s| - 1]) else s
  }

  function ReadCid(codec: Codec, file: string, i: nat): Option<Cid> {
    codec.parse(TrimRight(TrimLeft(ReadLine(file, (PAD_LENGTH + 1) * i))))
  }

  function Texts(codec: Codec, cids: seq<Cid>): seq<string> {
    seq(|cids|, i requires 0 <= i < |cids| => codec.show(cids[i]))
  }

  predicate Short(text: string) {
    |text| <= PAD_LENGTH
  }

  lemma SplitLast(texts: seq<string>, i: nat)
    requires i < |texts|
    ensures var n := |texts| - 1;
      && texts[..n][..i] == texts[..i] && texts[..n][i..] == texts[i..][..n - i]
      && Encode(texts[i..]) == Encode(texts[..n][i..]) + Record(texts[n])
  {
    var n := |texts| - 1;
    assert texts[i..][..n - i] == texts[..n][i..];
    assert texts[i..][n - i] == texts[n];
  }

  lemma {:induction false} EncodeSplit(texts: seq<string>, i: nat)
    requires i <= |texts|
    ensures Encode(texts) == Encode(texts[..i]) + Encode(texts[i..])
    decreases |texts|
  {
    var n := |texts| - 1;
    if i == |texts| {
      assert texts[..i] == texts;
    } else {
      EncodeSplit(texts[..n], i);
      SplitLast(texts, i);
      Assoc(Encode(texts[..i]), Encode(texts[..n][i..]), Record(texts[n]));
    }
  }

  /** Short records are all 65 characters, so record i starts at 65 * i. */
  lemma {:induction false} ShortLength(texts: seq<string>)
    requires forall t | t in texts :: Short(t)
    ensures |Encode(texts)| == (PAD_LENGTH + 1) * |texts|
  {
    if texts != [] {
      var n := |texts| - 1;
      assert texts[n] in texts && forall t | t in texts[..n] :: t in texts;
      ShortLength(texts[..n]);
    }
  }

  lemma {:induction false} LineStops(text: string, rest: string)
    requires '\n' !in text
    ensures Line(text + "\n" + rest) == text
  {
    var s := text + "\n" + rest;
    if text == "" {
      assert s[0] == '\n';
    } else {
      assert s[1..] == text[1..] + "\n" + rest;
      LineStops(text[1..], rest);
    }
  }

  lemma {:induction false} TrimPadding(text: string, n: nat)
    requires NoSpace(text) && text != ""
    ensures TrimRight(text + Spaces(n)) == text
  {
    var s := text + Spaces(n);
    if n == 0 {
      assert s == text && text[|text| - 1] in text;
    } else {
      assert s[|s| - 1] == ' ' && s[..|s| - 1] == text + Spaces(n - 1);
      TrimPadding(text, n - 1);
    }
  }

  /** Any suffix of a padded text reads back as the suffix of the text. */
  lemma ReadPadded(text: string, n: nat, rest: string)
    requires NoSpace(text)
    ensures text != "" ==> TrimRight(TrimLeft(DropReturn(Line(text + Spaces(n) + "\n" + rest)))) == text
    ensures n == 0 ==> TrimRight(TrimLeft(DropReturn(Line(text + Spaces(n) + "\n" + rest)))) == text
  {
    var line := text + Spaces(n);
    assert forall c | c in line :: c in text || c == ' ';
    LineStops(line, rest);
    assert line != "" ==> line[|line| - 1] in line;
    if text != "" {
      assert line[0] == text[0] && text[0] in text;
      TrimPadding(text, n);
    }
  }

  /** Where record i starts when every record before it is short. */
  lemma RecordStarts(texts: seq<string>, i: nat)
    requires i < |texts| && forall j | 0 <= j < i :: Short(texts[j])
    ensures (PAD_LENGTH + 1) * i <= |Encode(texts)|
    ensures Encode(texts)[(PAD_LENGTH + 1) * i..] == Record(texts[i]) + Encode(texts[i + 1..])
  {
    EncodeSplit(texts, i);
    ShortLength(texts[..i]);
    EncodeSplit(texts[i..], 1);
    assert texts[i..][..1] == [texts[i]] && texts[i..][1..] == texts[i + 1..];
    assert Encode([texts[i]]) == Record(texts[i]) by {
      assert [texts[i]][..0] == [];
    }
  }

  /** Record i reads back exactly, whenever every record before it is short. */
  lemma RecordRoundTrip(codec: Codec, cids: seq<Cid>, i: nat)
    requires Faithful(codec) && i < |cids|
    requires forall j | 0 <= j < i :: |codec.show(cids[j])| <= 64
    ensures ReadCid(codec, Encode(Texts(codec, cids)), i) == Some(cids[i])
  {
    var texts := Texts(codec, cids);
    var text := texts[i];
    RecordStarts(texts, i);
    ReadPadded(text, if |text| < PAD_LENGTH then PAD_LENGTH - |text| else 0, Encode(texts[i + 1..]));
    assert text + Spaces(0) == text;
  }

  lemma RecordTail(text: string, rest: string)
    requires !Short(text)
    ensures (Record(text) + rest)[PAD_LENGTH + 1..] == text[PAD_LENGTH + 1..] + "\n" + rest
  {
  }

  /** Behind the first long record the file is shifted: index j + 1 reads the tail
      of record j instead. */
  lemma LongRecordShifts(codec: Codec, cids: seq<Cid>, j: nat)
    requires Faithful(codec) && j + 1 < |cids| && |codec.show(cids[j])| > 64
    requires forall i | 0 <= i < j :: |codec.show(cids[i])| <= 64
    ensures ReadCid(codec, Encode(Texts(codec, cids)), j + 1) == codec.parse(codec.show(cids[j])[65..])
  {
    var texts := Texts(codec, cids);
    var file, text, rest := Encode(texts), texts[j], Encode(texts[j + 1..]);
    RecordStarts(texts, j);
    var start := (PAD_LENGTH + 1) * j;
    assert file[start + PAD_LENGTH + 1..] == file[start..][PAD_LENGTH + 1..];
    RecordTail(text, rest);
    var tail := text[PAD_LENGTH + 1..];
    assert tail + Spaces(0) == tail;
    ReadPadded(tail, 0, rest);
  }

  /** The first text but the last that is too long. */
  lemma FirstLong(codec: Codec, cids: seq<Cid>) returns (j: nat)
    requires exists k :: 0 <= k < |cids| - 1 && !Short(codec.show(cids[k]))
    ensures j < |cids| - 1 && !Short(codec.show(cids[j])) && forall i | 0 <= i < j :: Short(codec.show(cids[i]))
  {
    j := 0;
    while Short(codec.show(cids[j]))
      invariant 0 <= j < |cids| - 1 && (exists k :: j <= k < |cids| - 1 && !Short(codec.show(cids[k])))
      invariant forall i | 0 <= i < j :: Short(codec.show(cids[i]))
      decreases |cids| - j
    {
      j := j + 1;
    }
  }

  /** No text but the last is too long. */
  ghost predicate ShortButLast(codec: Codec, cids: seq<Cid>) {
    forall j | 0 <= j < |cids| - 1 :: Short(codec.show(cids[j]))
  }

  /** Record j is the first whose text is too long. */
  ghost predicate IsFirstLong(codec: Codec, cids: seq<Cid>, j: nat) {
    j < |cids| && !Short(codec.show(cids[j])) && forall i | 0 <= i < j :: Short(codec.show(cids[i]))
  }

  /** The first long CID text does not continue, behind its 65th character, with its
      successor's. */
  ghost predicate NoTail(codec: Codec, cids: seq<Cid>) {
    forall j | 0 <= j < |cids| - 1 && IsFirstLong(codec, cids, j) ::
      codec.parse(codec.show(cids[j])[PAD_LENGTH + 1..]) != Some(cids[j + 1])
  }

  /** The file works as an array of CIDs exactly when no record but the last is
      longer than 64 characters. */
  lemma RoundTripExactly(codec: Codec, cids: seq<Cid>)
    requires Faithful(codec) && NoTail(codec, cids)
    ensures (forall i | 0 <= i < |cids| :: ReadCid(codec, Encode(Texts(codec, cids)), i) == Some(cids[i]))
        <==> forall j | 0 <= j < |cids| - 1 :: |codec.show(cids[j])| <= 64
  {
    if ShortButLast(codec, cids) {
      forall i | 0 <= i < |cids| ensures ReadCid(codec, Encode(Texts(codec, cids)), i) == Some(cids[i]) {
        RecordRoundTrip(codec, cids, i);
      }
    } else {
      var j := FirstLong(codec, cids);
      LongRecordShifts(codec, cids, j);
      assert IsFirstLong(codec, cids, j);
      assert ReadCid(codec, Encode(Texts(codec, cids)), j + 1) != Some(cids[j + 1]);
    }
  }
}
