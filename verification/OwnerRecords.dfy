/** The owner record and its text form. */
module OwnerRecords {
  import opened Decimals
  import opened Options
  import opened TextLines

  datatype OwnerRecord = OwnerRecord(
    processId: nat, processStartedAt: nat, desktopId: nat, childProcessId: Option<nat>, childStartedAt: Option<nat>)

  datatype VersionOneRecord = VersionOneRecord(processId: nat, desktopId: nat, childProcessId: Option<nat>)

  datatype StoredRecord = Exact(owner: OwnerRecord) | VersionOne(legacy: VersionOneRecord)

  const U32_MAX: nat := 0xFFFF_FFFF
  const U64_MAX: nat := 0xFFFF_FFFF_FFFF_FFFF

  /** The integer widths of the record's fields. */
  predicate Fits(r: OwnerRecord) {
    && r.processId <= U32_MAX && r.processStartedAt <= U64_MAX && r.desktopId <= U32_MAX
    && (r.childProcessId.Some? ==> r.childProcessId.value <= U32_MAX)
    && (r.childStartedAt.Some? ==> r.childStartedAt.value <= U64_MAX)
  }

  // ----- Lines and fields -----

  datatype Field = Field(key: string, value: string)

  function Line(field: Field): string {
    field.key + "=" + field.value
  }

  function Render(fields: seq<Field>): string {
    if fields == [] then "" else Line(fields[0]) + "\n" + Render(fields[1..])
  }

  /** Lines end at a line feed, optionally preceded by a carriage return; no empty last line. */
  function Lines(text: string): seq<string> {
    if text == [] then []
    else
      var end := LineEnd(text);
      if end == |text| then [text]
      else
        var line := text[..end];
        [if line != [] && line[|line| - 1] == '\r' then line[..|line| - 1] else line] + Lines(text[end + 1..])
  }

  /** The rest of the first line that starts with `name=`. */
  function Find(lines: seq<string>, name: string): Option<string> {
    if lines == [] then None
    else if name + "=" <= lines[0] then Some(lines[0][|name| + 1..])
    else Find(lines[1..], name)
  }

  predicate Plain(field: Field) {
    '=' !in field.key && '\n' !in field.key && '\n' !in field.value && '\r' !in field.value
  }

  lemma LineEndOf(line: string, rest: string)
    requires '\n' !in line
    ensures LineEnd(line + "\n" + rest) == |line|
  {
    var text := line + "\n" + rest;
    assert forall i | 0 <= i < |line| :: text[i] == line[i];
    LineEndExact(text, |line|);
  }

  lemma LinesOfLine(line: string, rest: string)
    requires '\n' !in line && line != "" && line[|line| - 1] != '\r'
    ensures Lines(line + "\n" + rest) == [line] + Lines(rest)
  {
    LineEndOf(line, rest);
    var text := line + "\n" + rest;
    assert text[..|line|] == line && text[|line| + 1..] == rest;
    hide LineEnd;
  }

  lemma LineIsPlain(field: Field)
    requires Plain(field)
    ensures var line := Line(field); '\n' !in line && line != "" && line[|line| - 1] != '\r'
  {
    if field.value != [] {
      assert Line(field)[|Line(field)| - 1] == field.value[|field.value| - 1];
    }
  }

  lemma LinesOfFirst(fields: seq<Field>)
    requires fields != [] && Plain(fields[0])
    ensures Lines(Render(fields)) == [Line(fields[0])] + Lines(Render(fields[1..]))
  {
    LineIsPlain(fields[0]);
    LinesOfLine(Line(fields[0]), Render(fields[1..]));
    hide Lines, Line;
  }

  lemma NoLines()
    ensures Lines(Render([])) == []
  {
  }

  lemma {:induction false} LinesOfRendered(fields: seq<Field>)
    requires forall f | f in fields :: Plain(f)
    ensures |Lines(Render(fields))| == |fields|
    ensures forall i | 0 <= i < |fields| :: Lines(Render(fields))[i] == Line(fields[i])
  {
    hide *;
    if fields == [] {
      NoLines();
    } else {
      assert fields[0] in fields;
      LinesOfFirst(fields);
      LinesOfRendered(fields[1..]);
    }
  }

  /** The value of the first field with this key. */
  function Lookup(fields: seq<Field>, name: string): Option<string> {
    if fields == [] then None
    else if fields[0].key == name then Some(fields[0].value)
    else Lookup(fields[1..], name)
  }

  lemma PrefixIsTheKey(field: Field, name: string)
    requires '=' !in field.key && '=' !in name
    ensures name + "=" <= Line(field) <==> name == field.key
    ensures Line(field)[|field.key| + 1..] == field.value
  {
    var line := Line(field);
    assert line[|field.key|] == '=';
    assert forall i | 0 <= i < |field.key| :: line[i] == field.key[i];
    if name + "=" <= line {
      assert (name + "=")[|name|] == '=' && line[|name|] == '=';
      assert forall i | 0 <= i < |name| :: (name + "=")[i] == name[i] == line[i];
      assert |name| == |field.key|;
      assert name == line[..|name|] == field.key;
    }
  }

  lemma {:induction false} FindInLines(fields: seq<Field>, lines: seq<string>, name: string)
    requires '=' !in name && forall f | f in fields :: Plain(f)
    requires |lines| == |fields| && forall i | 0 <= i < |fields| :: lines[i] == Line(fields[i])
    ensures Find(lines, name) == Lookup(fields, name)
  {
    if fields != [] {
      assert Plain(fields[0]);
      PrefixIsTheKey(fields[0], name);
      FindInLines(fields[1..], lines[1..], name);
    }
  }

  lemma FindRendered(fields: seq<Field>, name: string)
    requires '=' !in name && forall f | f in fields :: Plain(f)
    ensures Find(Lines(Render(fields)), name) == Lookup(fields, name)
  {
    LinesOfRendered(fields);
    FindInLines(fields, Lines(Render(fields)), name);
  }

  // ----- The record -----

  function OptionalDecimal(n: Option<nat>): string {
    if n.Some? then Decimal(n.value) else ""
  }

  function Fields(r: OwnerRecord): seq<Field> {
    [Field("version", "1"),
     Field("process_id", Decimal(r.processId)),
     Field("process_started_at_micros", Decimal(r.processStartedAt)),
     Field("desktop_process_id", Decimal(r.desktopId)),
     Field("child_process_id", OptionalDecimal(r.childProcessId)),
     Field("child_process_started_at_micros", OptionalDecimal(r.childStartedAt))]
  }

  function Encode(r: OwnerRecord): string {
    Render(Fields(r))
  }

  function ParseField(lines: seq<string>, name: string, max: nat): Option<nat> {
    var value := Find(lines, name);
    if value.Some? then Parse(value.value, max) else None
  }

  function Decode(text: string): Option<StoredRecord> {
    var lines := Lines(text);
    var version := Find(lines, "version");
    var processId := ParseField(lines, "process_id", U32_MAX);
    var desktopId := ParseField(lines, "desktop_process_id", U32_MAX);
    var childProcessId := ParseField(lines, "child_process_id", U32_MAX);
    if version.None? || processId.None? || desktopId.None? then None
    else if version.value == "1" && Find(lines, "process_started_at_micros").None? then
      Some(VersionOne(VersionOneRecord(processId.value, desktopId.value, childProcessId)))
    else if version.value != "2" && version.value != "1" then None
    else
      var childStartedAt := ParseField(lines, "child_process_started_at_micros", U64_MAX);
      var processStartedAt := ParseField(lines, "process_started_at_micros", U64_MAX);
      if childProcessId.Some? != childStartedAt.Some? || processStartedAt.None? then None
      else Some(Exact(OwnerRecord(processId.value, processStartedAt.value, desktopId.value, childProcessId,
          childStartedAt)))
  }

  /** The decoder of the released Shims, which know no start times. */
  function DecodeReleased(text: string): Option<VersionOneRecord> {
    var lines := Lines(text);
    var processId := ParseField(lines, "process_id", U32_MAX);
    var desktopId := ParseField(lines, "desktop_process_id", U32_MAX);
    if Find(lines, "version") != Some("1") || processId.None? || desktopId.None? then None
    else Some(VersionOneRecord(processId.value, desktopId.value, ParseField(lines, "child_process_id", U32_MAX)))
  }

  lemma DecimalIsPlain(key: string, n: Option<nat>)
    requires forall c | c in key :: c > '='
    ensures Plain(Field(key, OptionalDecimal(n)))
  {
  }

  lemma {:induction false} LookupAt(fields: seq<Field>, i: nat)
    requires i < |fields| && forall k | 0 <= k < i :: fields[k].key != fields[i].key
    ensures Lookup(fields, fields[i].key) == Some(fields[i].value)
  {
    if i > 0 {
      assert fields[0].key != fields[i].key;
      LookupAt(fields[1..], i - 1);
    }
  }

  lemma FieldIsPlain(r: OwnerRecord, i: nat)
    requires i < |Fields(r)|
    ensures Plain(Fields(r)[i])
  {
    hide Decimal, OptionalDecimal;
    var field := Fields(r)[i];
    if i > 0 {
      KeysHaveNoEquals(r, i);
      DecimalIsPlain(field.key, [Some(r.processId), Some(r.processStartedAt), Some(r.desktopId), r.childProcessId,
                                 r.childStartedAt][i - 1]);
    }
  }

  /** Every character of a key is above the equals sign. */
  lemma KeysHaveNoEquals(r: OwnerRecord, i: nat)
    requires i < |Fields(r)|
    ensures forall c | c in Fields(r)[i].key :: c > '='
  {
    hide Decimal, OptionalDecimal;
    OwnerKeysHaveNoEquals();
    ChildKeysHaveNoEquals();
  }

  lemma OwnerKeysHaveNoEquals()
    ensures forall c | c in "version" || c in "process_id" || c in "process_started_at_micros" :: c > '='
    ensures forall c | c in "desktop_process_id" :: c > '='
  {
  }

  lemma ChildKeysHaveNoEquals()
    ensures forall c | c in "child_process_id" :: c > '='
    ensures forall c | c in "child_process_started_at_micros" :: c > '='
  {
  }

  lemma KeyLengths(r: OwnerRecord)
    ensures var fields := Fields(r);
            |fields[0].key| == 7 && |fields[1].key| == 10 && |fields[2].key| == 25
            && |fields[3].key| == 18 && |fields[4].key| == 16 && |fields[5].key| == 31
  {
  }

  /** Each of the six fields is found in the written text. */
  lemma ReadField(r: OwnerRecord, i: nat)
    requires i < 6
    ensures Find(Lines(Encode(r)), Fields(r)[i].key) == Some(Fields(r)[i].value)
  {
    hide Lines, Find, Render, Lookup, OptionalDecimal, Decimal;
    var fields := Fields(r);
    KeyLengths(r);
    forall f | f in fields ensures Plain(f) {
      var k :| 0 <= k < 6 && fields[k] == f;
      FieldIsPlain(r, k);
    }
    assert fields[i] in fields;
    FindRendered(fields, fields[i].key);
    forall k | 0 <= k < i ensures fields[k].key != fields[i].key {
      assert |fields[k].key| != |fields[i].key|;
    }
    LookupAt(fields, i);
  }

  lemma ReadBack(r: OwnerRecord)
    requires Fits(r)
    ensures var lines := Lines(Encode(r));
            && Find(lines, "version") == Some("1")
            && Find(lines, "process_started_at_micros").Some?
            && ParseField(lines, "process_id", U32_MAX) == Some(r.processId)
            && ParseField(lines, "desktop_process_id", U32_MAX) == Some(r.desktopId)
            && ParseField(lines, "process_started_at_micros", U64_MAX) == Some(r.processStartedAt)
            && ParseField(lines, "child_process_id", U32_MAX) == r.childProcessId
            && ParseField(lines, "child_process_started_at_micros", U64_MAX) == r.childStartedAt
  {
    hide Encode, Lines, Find, Decimal, DigitsValue, Parse;
    ReadField(r, 0);
    ReadField(r, 1);
    ReadField(r, 2);
    ReadField(r, 3);
    ReadField(r, 4);
    ReadField(r, 5);
    ParseDecimal(r.processId, U32_MAX);
    ParseDecimal(r.desktopId, U32_MAX);
    ParseDecimal(r.processStartedAt, U64_MAX);
    ParseOptional(r.childProcessId, U32_MAX);
    ParseOptional(r.childStartedAt, U64_MAX);
  }

  lemma ParseOptional(n: Option<nat>, max: nat)
    requires n.Some? ==> n.value <= max
    ensures Parse(OptionalDecimal(n), max) == n
  {
    if n.Some? {
      ParseDecimal(n.value, max);
    }
  }

  /** Reading back a written record gives that very record, exactly when its child id and child start are
      both present or both absent; otherwise the text is rejected. */
  lemma DecodeOfEncode(r: OwnerRecord)
    requires Fits(r)
    ensures Decode(Encode(r)) ==
            if r.childProcessId.Some? == r.childStartedAt.Some? then Some(Exact(r)) else None
  {
    ReadBack(r);
  }

  /** A released Shim reads the same text as the record without its start times. */
  lemma ReleasedDecodeOfEncode(r: OwnerRecord)
    requires Fits(r)
    ensures DecodeReleased(Encode(r)) == Some(VersionOneRecord(r.processId, r.desktopId, r.childProcessId))
  {
    ReadBack(r);
  }

  /** Both decoders agree on every text without start times. */
  lemma DecodersAgreeOnReleasedText(text: string)
    requires Find(Lines(text), "version") == Some("1")
    requires Find(Lines(text), "process_started_at_micros").None?
    ensures DecodeReleased(text).Some? <==> Decode(text).Some?
    ensures DecodeReleased(text).Some? ==> Decode(text) == Some(VersionOne(DecodeReleased(text).value))
  {
  }

  /** Exact records are read from texts of version 1 or 2 with both numbers of the Shim, its Desktop, and both or
      neither of the child's; released records from texts of version 1 without start times; nothing else. */
  lemma DecodesExactly(text: string, r: OwnerRecord, legacy: VersionOneRecord)
    ensures var lines := Lines(text);
            Decode(text) == Some(Exact(r)) <==>
              && (Find(lines, "version") == Some("1") || Find(lines, "version") == Some("2"))
              && ParseField(lines, "process_id", U32_MAX) == Some(r.processId)
              && ParseField(lines, "process_started_at_micros", U64_MAX) == Some(r.processStartedAt)
              && ParseField(lines, "desktop_process_id", U32_MAX) == Some(r.desktopId)
              && ParseField(lines, "child_process_id", U32_MAX) == r.childProcessId
              && ParseField(lines, "child_process_started_at_micros", U64_MAX) == r.childStartedAt
              && (r.childProcessId.Some? <==> r.childStartedAt.Some?)
    ensures var lines := Lines(text);
            Decode(text) == Some(VersionOne(legacy)) <==>
              && Find(lines, "version") == Some("1") && Find(lines, "process_started_at_micros").None?
              && ParseField(lines, "process_id", U32_MAX) == Some(legacy.processId)
              && ParseField(lines, "desktop_process_id", U32_MAX) == Some(legacy.desktopId)
              && ParseField(lines, "child_process_id", U32_MAX) == legacy.childProcessId
  {
    hide Lines, Parse, Find;
  }
}
