/** The rooms configuration: lines `name = password`, with blank lines and `#` comments between. */
module RoomsConfig {
  import Proto
  import opened Texts

  const MIN_PW_LEN: nat := 12

  datatype RoomConfig = RoomConfig(name: Text, password: Text)

  datatype ConfigError = MissingEquals | BadNameLength | BadNameCharacter | PasswordTooShort | DuplicateRoom | NoRooms

  datatype Result<+T> = Ok(value: T) | Err(error: ConfigError)

  // ----- text -----

  /** Length in bytes of the UTF-8 form. */
  function Utf8Length(s: Text): nat {
    if s == [] then 0
    else Utf8Length(s[1..]) +
         var n := s[0] as int;
         if n < 0x80 then 1 else if n < 0x800 then 2 else if n < 0x1_0000 then 3 else 4
  }

  /** Where the first `c` is, or the end. */
  function IndexOf(s: Text, c: char): (i: nat)
    ensures i <= |s|
    ensures i < |s| ==> s[i] == c
    ensures forall j | 0 <= j < i :: s[j] != c
  {
    if s == [] || s[0] == c then 0 else 1 + IndexOf(s[1..], c)
  }

  /** A line without the carriage return that may stand before its line feed. */
  function DropCr(line: Text): Text {
    if line != [] && line[|line| - 1] == '\r' then line[..|line| - 1] else line
  }

  /** Lines end in LF or CRLF; the last one may lack its end. */
  function Lines(text: Text): seq<Text>
    decreases |text|
  {
    if text == [] then []
    else
      var i := IndexOf(text, '\n');
      if i == |text| then [text] else [DropCr(text[..i])] + Lines(text[i + 1..])
  }

  // ----- the parser -----

  predicate IsNameChar(c: char) {
    '0' <= c <= '9' || 'A' <= c <= 'Z' || 'a' <= c <= 'z' || c == '_' || c == '-'
  }

  predicate NameCharsOnly(name: Text) {
    forall i | 0 <= i < |name| :: IsNameChar(name[i])
  }

  function NameError(name: Text): (r: Result<()>) {
    if name == [] || Utf8Length(name) > Proto.MAX_ROOM_ID_LEN then Err(BadNameLength)
    else if !NameCharsOnly(name) then Err(BadNameCharacter)
    else Ok(())
  }

  /** Blank lines and comments say nothing. */
  predicate IsNoise(line: Text) {
    var l := Trim(line);
    l == [] || l[0] == '#'
  }

  /** What a line that says something says, before it is compared with the others. */
  function ParseEntry(line: Text): Result<RoomConfig> {
    var l := Trim(line);
    var i := IndexOf(l, '=');
    if i == |l| then Err(MissingEquals)
    else
      var name, password := Trim(l[..i]), Trim(l[i + 1..]);
      if NameError(name).Err? then Err(NameError(name).error)
      else if Utf8Length(password) < MIN_PW_LEN then Err(PasswordTooShort)
      else Ok(RoomConfig(name, password))
  }

  function Names(rooms: seq<RoomConfig>): set<Text> {
    set i | 0 <= i < |rooms| :: rooms[i].name
  }

  /** Reads on from the rooms found so far; the first bad line decides the error. */
  function ParseLines(lines: seq<Text>, rooms: seq<RoomConfig>): Result<seq<RoomConfig>> {
    if lines == [] then (if rooms == [] then Err(NoRooms) else Ok(rooms))
    else if IsNoise(lines[0]) then ParseLines(lines[1..], rooms)
    else match ParseEntry(lines[0])
      case Err(e) => Err(e)
      case Ok(room) =>
        if room.name in Names(rooms) then Err(DuplicateRoom) else ParseLines(lines[1..], rooms + [room])
  }

  method ValidateName(name: Text) returns (r: Result<()>)
    ensures r == NameError(name)
  {
    if name == [] || Utf8Length(name) > Proto.MAX_ROOM_ID_LEN {
      return Err(BadNameLength);
    }
    for i := 0 to |name|
      invariant forall j | 0 <= j < i :: IsNameChar(name[j])
    {
      if !IsNameChar(name[i]) {
        return Err(BadNameCharacter);
      }
    }
    r := Ok(());
  }

  method Parse(text: Text) returns (r: Result<seq<RoomConfig>>)
    ensures r == ParseLines(Lines(text), [])
  {
    var rooms: seq<RoomConfig> := [];
    var seen: set<Text> := {};
    var lines := Lines(text);
    for n := 0 to |lines|
      invariant seen == Names(rooms)
      invariant ParseLines(lines[n..], rooms) == ParseLines(lines, [])
    {
      assert lines[n..][1..] == lines[n + 1..];
      var line := Trim(lines[n]);
      if line == [] || line[0] == '#' {
        continue;
      }
      var i := IndexOf(line, '=');
      if i == |line| {
        return Err(MissingEquals);
      }
      var name, password := Trim(line[..i]), Trim(line[i + 1..]);
      var valid := ValidateName(name);
      if valid.Err? {
        return Err(valid.error);
      }
      if Utf8Length(password) < MIN_PW_LEN {
        return Err(PasswordTooShort);
      }
      if name in seen {
        return Err(DuplicateRoom);
      }
      NamesAppend(rooms, RoomConfig(name, password));
      seen := seen + {name};
      rooms := rooms + [RoomConfig(name, password)];
    }
    if rooms == [] {
      return Err(NoRooms);
    }
    r := Ok(rooms);
  }

  lemma NamesAppend(rooms: seq<RoomConfig>, room: RoomConfig)
    ensures Names(rooms + [room]) == Names(rooms) + {room.name}
  {
    var all := rooms + [room];
    assert all[|rooms|] == room;
    assert forall i | 0 <= i < |rooms| :: all[i] == rooms[i];
  }

  // ----- what a successful parse guarantees -----

  /** A room as it may stand in a configuration. */
  ghost predicate GoodRoom(room: RoomConfig) {
    && room.name != [] && |room.name| <= Proto.MAX_ROOM_ID_LEN && NameCharsOnly(room.name)
    && Utf8Length(room.password) >= MIN_PW_LEN
    && Trim(room.password) == room.password
    && '\n' !in room.password
  }

  ghost predicate GoodRooms(rooms: seq<RoomConfig>) {
    && (forall i | 0 <= i < |rooms| :: GoodRoom(rooms[i]))
    && forall i, j | 0 <= i < j < |rooms| :: rooms[i].name != rooms[j].name
  }

  lemma {:induction false} AsciiLength(s: Text)
    requires NameCharsOnly(s)
    ensures Utf8Length(s) == |s|
  {
    if s != [] { AsciiLength(s[1..]); }
  }

  lemma EntryIsGood(line: Text)
    requires '\n' !in line && ParseEntry(line).Ok?
    ensures GoodRoom(ParseEntry(line).value)
  {
    var l := Trim(line);
    var i := IndexOf(l, '=');
    TrimEnds(line);
    TrimEnds(l[i + 1..]);
    AsciiLength(ParseEntry(line).value.name);
  }

  lemma {:induction false} LinesHaveNoBreaks(text: Text)
    ensures forall k | 0 <= k < |Lines(text)| :: '\n' !in Lines(text)[k]
    decreases |text|
  {
    if text != [] {
      var i := IndexOf(text, '\n');
      if i < |text| { LinesHaveNoBreaks(text[i + 1..]); }
    }
  }

  lemma {:induction false} ParsedRoomsGood(lines: seq<Text>, rooms: seq<RoomConfig>)
    requires forall k | 0 <= k < |lines| :: '\n' !in lines[k]
    requires GoodRooms(rooms)
    ensures ParseLines(lines, rooms).Ok? ==>
              ParseLines(lines, rooms).value != [] && rooms <= ParseLines(lines, rooms).value && GoodRooms(ParseLines(lines, rooms).value)
    decreases |lines|
  {
    if lines != [] {
      if IsNoise(lines[0]) {
        ParsedRoomsGood(lines[1..], rooms);
      } else if ParseEntry(lines[0]).Ok? {
        var room := ParseEntry(lines[0]).value;
        EntryIsGood(lines[0]);
        if room.name !in Names(rooms) {
          assert forall i | 0 <= i < |rooms| :: rooms[i].name in Names(rooms);
          ParsedRoomsGood(lines[1..], rooms + [room]);
        }
      }
    }
  }

  /** Every successful parse gives at least one room; the names are valid and distinct, the passwords
      at least MIN_PW_LEN bytes and trimmed. */
  lemma ParseSound(text: Text)
    ensures ParseLines(Lines(text), []).Ok? ==>
              ParseLines(Lines(text), []).value != [] && GoodRooms(ParseLines(Lines(text), []).value)
  {
    LinesHaveNoBreaks(text);
    ParsedRoomsGood(Lines(text), []);
  }

  // ----- printing and parsing back -----

  /** A line of a configuration file: noise, or a room with any white space around its parts. */
  datatype DocLine =
    | Noise(text: Text)
    | Entry(room: RoomConfig, pad1: Text, pad2: Text, pad3: Text, pad4: Text)

  function Show(line: DocLine): Text {
    match line
    case Noise(text) => text
    case Entry(room, p1, p2, p3, p4) => p1 + room.name + p2 + ['='] + p3 + room.password + p4
  }

  ghost predicate GoodLine(line: DocLine) {
    match line
    case Noise(text) => '\n' !in text && IsNoise(text)
    case Entry(room, p1, p2, p3, p4) =>
      && GoodRoom(room)
      && Blank(p1) && Blank(p2) && Blank(p3) && Blank(p4)
      && '\n' !in p1 && '\n' !in p2 && '\n' !in p3 && '\n' !in p4
  }

  function Print(doc: seq<DocLine>): Text {
    if doc == [] then [] else Show(doc[0]) + ['\n'] + Print(doc[1..])
  }

  function RoomsOf(doc: seq<DocLine>): seq<RoomConfig> {
    if doc == [] then []
    else (if doc[0].Entry? then [doc[0].room] else []) + RoomsOf(doc[1..])
  }

  lemma IndexOfFirst(s: Text, c: char, rest: Text)
    requires c !in s
    ensures IndexOf(s + [c] + rest, c) == |s|
  {
    var t := s + [c] + rest;
    assert t[|s|] == c;
    assert forall j | 0 <= j < |s| :: t[j] == s[j];
  }

  /** A carriage return at the end of a line is white space, so dropping it changes nothing. */
  lemma DropCrHarmless(line: Text)
    ensures Trim(DropCr(line)) == Trim(line)
  {
    if DropCr(line) != line {
      TrimStartFacts(line);
      var n := |line| - 1;
      var start := |line| - |TrimStart(line)|;
      if TrimStart(line) == [] {
        assert Blank(line[..n]);
        assert line[..n] + [] == line[..n];
        TrimStartSkips(line[..n], []);
      } else {
        assert line[..n] == line[..start] + line[start..n];
        TrimStartSkips(line[..start], line[start..n]);
        assert TrimStart(line) == line[start..n] + ['\r'];
        assert (line[start..n] + ['\r'])[..|line[start..n]|] == line[start..n];
      }
    }
  }

  lemma ShownNoBreaks(line: DocLine)
    requires GoodLine(line)
    ensures '\n' !in Show(line)
  {
    if line.Entry? {
      assert forall c | c in line.room.name :: IsNameChar(c);
    }
  }

  lemma PrintedLine(line: DocLine, rest: Text)
    requires GoodLine(line)
    ensures Lines(Show(line) + ['\n'] + rest) == [DropCr(Show(line))] + Lines(rest)
  {
    ShownNoBreaks(line);
    IndexOfFirst(Show(line), '\n', rest);
    var text := Show(line) + ['\n'] + rest;
    assert text[..|Show(line)|] == Show(line) && text[|Show(line)| + 1..] == rest;
  }

  /** What is left of a shown room after trimming the line. */
  function Core(line: DocLine): Text
    requires line.Entry?
  {
    line.room.name + line.pad2 + ['='] + (line.pad3 + line.room.password)
  }

  lemma CoreOfEntry(line: DocLine)
    requires GoodLine(line) && line.Entry?
    ensures Trim(Show(line)) == Core(line) && !IsNoise(Show(line))
  {
    var core := Core(line);
    TrimEnds(line.room.password);
    assert line.room.password != [];
    assert core[0] == line.room.name[0] && IsNameChar(core[0]);
    assert core[|core| - 1] == line.room.password[|line.room.password| - 1];
    assert Show(line) == line.pad1 + core + line.pad4;
    TrimPadded(line.pad1, core, line.pad4);
  }

  lemma CoreSplits(line: DocLine)
    requires GoodLine(line) && line.Entry?
    ensures var i := |line.room.name + line.pad2|;
            && IndexOf(Core(line), '=') == i < |Core(line)|
            && Core(line)[..i] == line.room.name + line.pad2
            && Core(line)[i + 1..] == line.pad3 + line.room.password
  {
    forall c | c in line.room.name + line.pad2 ensures c != '=' {
      assert IsNameChar(c) || IsWhitespace(c);
    }
    IndexOfFirst(line.room.name + line.pad2, '=', line.pad3 + line.room.password);
  }

  lemma PartsTrim(line: DocLine)
    requires GoodLine(line) && line.Entry?
    ensures Trim(line.room.name + line.pad2) == line.room.name
    ensures Trim(line.pad3 + line.room.password) == line.room.password
  {
    TrimEnds(line.room.password);
    var name, password := line.room.name, line.room.password;
    assert [] + name + line.pad2 == name + line.pad2 && line.pad3 + password + [] == line.pad3 + password;
    assert IsNameChar(name[0]) && IsNameChar(name[|name| - 1]);
    TrimPadded([], name, line.pad2);
    TrimPadded(line.pad3, password, []);
  }

  /** Reading a shown room: the first `=` follows the name, whatever the password contains. */
  lemma EntryReadsBack(line: DocLine)
    requires GoodLine(line) && line.Entry?
    ensures !IsNoise(Show(line)) && ParseEntry(Show(line)) == Ok(line.room)
  {
    CoreOfEntry(line);
    CoreSplits(line);
    PartsTrim(line);
    AsciiLength(line.room.name);
  }

  lemma SameTrimSameReading(a: Text, b: Text)
    requires Trim(a) == Trim(b)
    ensures IsNoise(a) == IsNoise(b) && ParseEntry(a) == ParseEntry(b)
  {
  }

  /** The lines read like the lines of the document. */
  ghost predicate ReadsLike(lines: seq<Text>, doc: seq<DocLine>) {
    && |lines| == |doc|
    && (forall k | 0 <= k < |doc| :: GoodLine(doc[k]))
    && forall k | 0 <= k < |doc| :: Trim(lines[k]) == Trim(Show(doc[k]))
  }

  lemma {:induction false} DocReadsBack(lines: seq<Text>, doc: seq<DocLine>, rooms: seq<RoomConfig>)
    requires ReadsLike(lines, doc)
    requires GoodRooms(rooms + RoomsOf(doc)) && rooms + RoomsOf(doc) != []
    ensures ParseLines(lines, rooms) == Ok(rooms + RoomsOf(doc))
    decreases |doc|
  {
    if doc == [] {
      assert rooms + RoomsOf(doc) == rooms;
    } else {
      var line := doc[0];
      SameTrimSameReading(lines[0], Show(line));
      if line.Entry? {
        EntryReadsBack(line);
        assert rooms + RoomsOf(doc) == (rooms + [line.room]) + RoomsOf(doc[1..]);
        forall i | 0 <= i < |rooms| ensures rooms[i].name != line.room.name {
          var all := rooms + RoomsOf(doc);
          assert all[i] == rooms[i] && all[|rooms|] == line.room;
        }
        DocReadsBack(lines[1..], doc[1..], rooms + [line.room]);
      } else {
        assert RoomsOf(doc) == RoomsOf(doc[1..]);
        DocReadsBack(lines[1..], doc[1..], rooms);
      }
    }
  }

  lemma {:induction false} LinesOfPrint(doc: seq<DocLine>)
    requires forall k | 0 <= k < |doc| :: GoodLine(doc[k])
    ensures ReadsLike(Lines(Print(doc)), doc)
  {
    if doc != [] {
      PrintedLine(doc[0], Print(doc[1..]));
      DropCrHarmless(Show(doc[0]));
      LinesOfPrint(doc[1..]);
      forall k | 0 <= k < |doc| ensures Trim(Lines(Print(doc))[k]) == Trim(Show(doc[k])) {
        if k > 0 { assert Lines(Print(doc))[k] == Lines(Print(doc[1..]))[k - 1] && doc[k] == doc[1..][k - 1]; }
      }
    }
  }

  /** Printing distinct valid rooms, with any white space around names and passwords and any blank
      lines and comments in between, and parsing the result gives the rooms back in order. */
  lemma PrintParse(doc: seq<DocLine>)
    requires forall k | 0 <= k < |doc| :: GoodLine(doc[k])
    requires GoodRooms(RoomsOf(doc)) && RoomsOf(doc) != []
    ensures ParseLines(Lines(Print(doc)), []) == Ok(RoomsOf(doc))
  {
    LinesOfPrint(doc);
    DocParses(Lines(Print(doc)), doc);
  }

  lemma DocParses(lines: seq<Text>, doc: seq<DocLine>)
    requires ReadsLike(lines, doc) && GoodRooms(RoomsOf(doc)) && RoomsOf(doc) != []
    ensures ParseLines(lines, []) == Ok(RoomsOf(doc))
  {
    assert [] + RoomsOf(doc) == RoomsOf(doc);
    DocReadsBack(lines, doc, []);
  }

  // ----- and nothing else parses -----

  /** Whatever the parser takes for a room is that room, shown with some white space. */
  lemma EntryIsShown(line: Text) returns (doc: DocLine)
    requires '\n' !in line && !IsNoise(line) && ParseEntry(line).Ok?
    ensures GoodLine(doc) && doc.Entry? && doc.room == ParseEntry(line).value && Show(doc) == line
  {
    var l := Trim(line);
    var i := IndexOf(l, '=');
    var room := ParseEntry(line).value;
    EntryIsGood(line);
    var p1, p4 := TrimSplits(line);
    var n1, p2 := TrimSplits(l[..i]);
    var p3, n4 := TrimSplits(l[i + 1..]);
    doc := Entry(room, p1 + n1, p2, p3, n4 + p4);
    assert l == l[..i] + ['='] + l[i + 1..];
    EntryText(room, p1, n1, p2, p3, n4, p4);
    NoBreakInParts(line, p1, l, p4);
    NoBreakInParts(l, l[..i], ['='], l[i + 1..]);
    NoBreakInParts(l[..i], n1, room.name, p2);
    NoBreakInParts(l[i + 1..], p3, room.password, n4);
  }

  lemma EntryText(room: RoomConfig, p1: Text, n1: Text, p2: Text, p3: Text, n4: Text, p4: Text)
    ensures Show(Entry(room, p1 + n1, p2, p3, n4 + p4))
         == p1 + ((n1 + room.name + p2) + ['='] + (p3 + room.password + n4)) + p4
  {
  }

  lemma NoBreakInParts(whole: Text, a: Text, b: Text, c: Text)
    requires whole == a + b + c && '\n' !in whole
    ensures '\n' !in a && '\n' !in b && '\n' !in c
  {
    assert forall x | x in a || x in b || x in c :: x in whole;
  }

  lemma ReadsLikeCons(lines: seq<Text>, first: DocLine, rest: seq<DocLine>)
    requires lines != [] && ReadsLike(lines[1..], rest)
    requires GoodLine(first) && Trim(lines[0]) == Trim(Show(first))
    ensures ReadsLike(lines, [first] + rest)
    ensures RoomsOf([first] + rest) == (if first.Entry? then [first.room] else []) + RoomsOf(rest)
  {
    var doc := [first] + rest;
    assert doc[1..] == rest;
    forall k | 0 <= k < |doc| ensures GoodLine(doc[k]) && Trim(lines[k]) == Trim(Show(doc[k])) {
      if k > 0 { assert doc[k] == rest[k - 1] && lines[k] == lines[1..][k - 1]; }
    }
  }

  lemma ShownCons(lines: seq<Text>, rooms: seq<RoomConfig>, first: DocLine, rest: seq<DocLine>) returns (doc: seq<DocLine>)
    requires lines != [] && ReadsLike(lines[1..], rest)
    requires GoodLine(first) && Trim(lines[0]) == Trim(Show(first))
    ensures ReadsLike(lines, doc)
    ensures rooms + RoomsOf(doc) == (if first.Entry? then rooms + [first.room] else rooms) + RoomsOf(rest)
  {
    doc := [first] + rest;
    ReadsLikeCons(lines, first, rest);
  }

  lemma {:induction false} ParsedIsShown(lines: seq<Text>, rooms: seq<RoomConfig>) returns (doc: seq<DocLine>)
    requires forall k | 0 <= k < |lines| :: '\n' !in lines[k]
    requires ParseLines(lines, rooms).Ok?
    ensures ReadsLike(lines, doc) && ParseLines(lines, rooms).value == rooms + RoomsOf(doc)
    decreases |lines|
  {
    if lines == [] {
      doc := [];
    } else {
      var first := if IsNoise(lines[0]) then Noise(lines[0]) else Entry(ParseEntry(lines[0]).value, [], [], [], []);
      if first.Entry? { first := EntryIsShown(lines[0]); }
      var found := if first.Entry? then rooms + [first.room] else rooms;
      var rest := ParsedIsShown(lines[1..], found);
      doc := ShownCons(lines, rooms, first, rest);
    }
  }

  /** A text parses to `rooms` exactly when these are distinct valid rooms, at least one, and the text's
      lines are those rooms in order, with white space around their parts and noise in between. */
  lemma ParseExactly(text: Text, rooms: seq<RoomConfig>)
    ensures ParseLines(Lines(text), []) == Ok(rooms) <==>
              rooms != [] && GoodRooms(rooms) && exists doc :: ReadsLike(Lines(text), doc) && RoomsOf(doc) == rooms
  {
    var lines := Lines(text);
    LinesHaveNoBreaks(text);
    if ParseLines(lines, []) == Ok(rooms) {
      ParseSound(text);
      var doc := ParsedIsShown(lines, []);
      assert [] + RoomsOf(doc) == RoomsOf(doc);
    }
    if rooms != [] && GoodRooms(rooms) && exists doc :: ReadsLike(lines, doc) && RoomsOf(doc) == rooms {
      var doc :| ReadsLike(lines, doc) && RoomsOf(doc) == rooms;
      assert [] + RoomsOf(doc) == RoomsOf(doc);
      DocReadsBack(lines, doc, []);
    }
  }
}
