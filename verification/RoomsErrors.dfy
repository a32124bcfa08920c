/** Which error a rooms configuration gets, read off its lines. */
module RoomsErrors {
  import Proto
  import opened Texts
  import opened RoomsConfig

  /** A letter or digit of ASCII, a hyphen or an underscore. */
  ghost predicate Allowed(c: char) {
    c == '-' || c == '_' || ('a' <= c && c <= 'z') || ('A' <= c && c <= 'Z') || ('0' <= c && c <= '9')
  }

  /** Nothing but white space, or a comment. */
  ghost predicate Quiet(line: Text) { Trim(line) == [] || Trim(line)[0] == '#' }

  /** What stands before the first `=`, trimmed. */
  ghost function NameIn(line: Text): Text { Trim(Trim(line)[..IndexOf(Trim(line), '=')]) }

  /** What stands after the first `=`, trimmed. */
  ghost function PasswordIn(line: Text): Text {
    var l := Trim(line);
    if IndexOf(l, '=') < |l| then Trim(l[IndexOf(l, '=') + 1..]) else []
  }

  ghost predicate Entry(line: Text) { !Quiet(line) && '=' in Trim(line) }

  ghost predicate LengthOk(name: Text) { name != [] && Utf8Length(name) <= Proto.MAX_ROOM_ID_LEN }

  ghost predicate CharsOk(name: Text) { forall c | c in name :: Allowed(c) }

  /** An earlier line has the same name. */
  ghost predicate Taken(lines: seq<Text>, k: nat)
    requires k < |lines|
  {
    exists j :: 0 <= j < k && !Quiet(lines[j]) && NameIn(lines[j]) == NameIn(lines[k])
  }

  /** What is wrong with line `k`: each error presupposes that those named before it are absent. */
  ghost predicate Fault(lines: seq<Text>, k: nat, e: ConfigError)
    requires k < |lines|
  {
    var line := lines[k];
    match e
    case MissingEquals => !Quiet(line) && '=' !in Trim(line)
    case BadNameLength => Entry(line) && !LengthOk(NameIn(line))
    case BadNameCharacter => Entry(line) && LengthOk(NameIn(line)) && !CharsOk(NameIn(line))
    case PasswordTooShort =>
      Entry(line) && LengthOk(NameIn(line)) && CharsOk(NameIn(line)) && Utf8Length(PasswordIn(line)) < MIN_PW_LEN
    case DuplicateRoom =>
      Entry(line) && LengthOk(NameIn(line)) && CharsOk(NameIn(line)) && Utf8Length(PasswordIn(line)) >= MIN_PW_LEN
      && Taken(lines, k)
    case NoRooms => false
  }

  ghost predicate Sound(lines: seq<Text>, k: nat)
    requires k < |lines|
  {
    forall e :: !Fault(lines, k, e)
  }

  /** Line `k` is the first with a fault, from line `from` on, and this is its fault. */
  ghost predicate FirstFault(lines: seq<Text>, from: nat, k: nat, e: ConfigError) {
    from <= k < |lines| && Fault(lines, k, e) && forall j | from <= j < k :: Sound(lines, j)
  }

  ghost predicate AllQuiet(lines: seq<Text>, n: nat) {
    forall j | 0 <= j < n && j < |lines| :: Quiet(lines[j])
  }

  ghost predicate ErrorFrom(lines: seq<Text>, from: nat, e: ConfigError) {
    (exists k: nat :: FirstFault(lines, from, k, e)) || (e == NoRooms && AllQuiet(lines, |lines|))
  }

  // ----- one line -----

  lemma CharsAgree(name: Text)
    ensures NameCharsOnly(name) <==> CharsOk(name)
  {
    if CharsOk(name) {
      forall i | 0 <= i < |name| ensures IsNameChar(name[i]) { assert name[i] in name; }
    }
  }

  /** The two errors about a name, the length coming first. */
  lemma NameErrors(name: Text)
    ensures NameError(name) ==
              if !LengthOk(name) then Err(BadNameLength) else if !CharsOk(name) then Err(BadNameCharacter) else Ok(())
  {
    CharsAgree(name);
  }

  lemma EqualsFound(l: Text)
    ensures '=' in l <==> IndexOf(l, '=') < |l|
  {
  }

  lemma LineReads(lines: seq<Text>, k: nat)
    requires k < |lines| && !Quiet(lines[k])
    ensures match ParseEntry(lines[k])
            case Err(error) => forall e :: Fault(lines, k, e) <==> e == error
            case Ok(room) =>
              && room.name == NameIn(lines[k])
              && forall e :: Fault(lines, k, e) <==> e == DuplicateRoom && Taken(lines, k)
  {
    EqualsFound(Trim(lines[k]));
    NameErrors(NameIn(lines[k]));
  }

  // ----- all lines -----

  /** The rooms read from the first `k` lines bear the names of their entries. */
  ghost predicate ReadSoFar(lines: seq<Text>, k: nat, rooms: seq<RoomConfig>)
    requires k <= |lines|
  {
    && (forall name :: name in Names(rooms) <==> exists j :: 0 <= j < k && !Quiet(lines[j]) && NameIn(lines[j]) == name)
    && (rooms == [] <==> AllQuiet(lines, k))
  }

  lemma EntryStep(lines: seq<Text>, k: nat, rooms: seq<RoomConfig>, room: RoomConfig)
    requires k < |lines| && !Quiet(lines[k]) && ReadSoFar(lines, k, rooms) && room.name == NameIn(lines[k])
    ensures ReadSoFar(lines, k + 1, rooms + [room])
  {
    NamesAppend(rooms, room);
  }

  lemma SoundStep(lines: seq<Text>, k: nat, e: ConfigError)
    requires k < |lines| && Sound(lines, k)
    ensures ErrorFrom(lines, k, e) <==> ErrorFrom(lines, k + 1, e)
  {
    var next := k + 1;
    forall n: nat ensures FirstFault(lines, k, n, e) <==> FirstFault(lines, next, n, e) {
      if n == k { assert !Fault(lines, k, e); }
    }
  }

  lemma FaultStep(lines: seq<Text>, k: nat, error: ConfigError, e: ConfigError)
    requires k < |lines| && !Quiet(lines[k]) && forall e' :: Fault(lines, k, e') <==> e' == error
    ensures ErrorFrom(lines, k, e) <==> e == error
  {
    assert !Sound(lines, k) by { assert Fault(lines, k, error); }
    if e == error { assert FirstFault(lines, k, k, e); }
    forall n: nat | FirstFault(lines, k, n, e) ensures n == k {}
  }

  /** The error the loop stops with at the entry of line `k`, if it stops. */
  ghost function StopsAt(line: Text, rooms: seq<RoomConfig>): Proto.Option<ConfigError> {
    match ParseEntry(line)
    case Err(error) => Proto.Some(error)
    case Ok(room) => if room.name in Names(rooms) then Proto.Some(DuplicateRoom) else Proto.None
  }

  lemma QuietReads(lines: seq<Text>, k: nat, rooms: seq<RoomConfig>, e: ConfigError)
    requires k < |lines| && Quiet(lines[k]) && ReadSoFar(lines, k, rooms)
    ensures ErrorFrom(lines, k, e) <==> ErrorFrom(lines, k + 1, e)
    ensures ReadSoFar(lines, k + 1, rooms)
  {
    SoundStep(lines, k, e);
  }

  lemma EntryReads(lines: seq<Text>, k: nat, rooms: seq<RoomConfig>, e: ConfigError)
    requires k < |lines| && !Quiet(lines[k]) && ReadSoFar(lines, k, rooms)
    ensures match StopsAt(lines[k], rooms)
            case Some(error) => ErrorFrom(lines, k, e) <==> e == error
            case None =>
              && Sound(lines, k) && (ErrorFrom(lines, k, e) <==> ErrorFrom(lines, k + 1, e))
              && ReadSoFar(lines, k + 1, rooms + [ParseEntry(lines[k]).value])
  {
    LineReads(lines, k);
    match StopsAt(lines[k], rooms) {
      case Some(error) => FaultStep(lines, k, error, e);
      case None =>
        SoundStep(lines, k, e);
        EntryStep(lines, k, rooms, ParseEntry(lines[k]).value);
    }
  }

  lemma ParseStep(lines: seq<Text>, k: nat, rooms: seq<RoomConfig>)
    requires k < |lines|
    ensures ParseLines(lines[k..], rooms) ==
              if Quiet(lines[k]) then ParseLines(lines[k + 1..], rooms)
              else match StopsAt(lines[k], rooms)
                   case Some(error) => Err(error)
                   case None => ParseLines(lines[k + 1..], rooms + [ParseEntry(lines[k]).value])
  {
    assert lines[k..][1..] == lines[k + 1..] && lines[k..][0] == lines[k];
  }

  lemma NothingLeft(lines: seq<Text>, rooms: seq<RoomConfig>, e: ConfigError)
    requires ReadSoFar(lines, |lines|, rooms)
    ensures ParseLines(lines[|lines|..], rooms) == Err(e) <==> ErrorFrom(lines, |lines|, e)
  {
  }

  lemma {:induction false} ErrorOfRest(lines: seq<Text>, k: nat, rooms: seq<RoomConfig>, e: ConfigError)
    requires k <= |lines| && ReadSoFar(lines, k, rooms)
    ensures ParseLines(lines[k..], rooms) == Err(e) <==> ErrorFrom(lines, k, e)
    decreases |lines| - k
  {
    if k == |lines| {
      NothingLeft(lines, rooms, e);
      return;
    }
    ParseStep(lines, k, rooms);
    if Quiet(lines[k]) {
      QuietReads(lines, k, rooms, e);
      ErrorOfRest(lines, k + 1, rooms, e);
    } else {
      EntryReads(lines, k, rooms, e);
      if StopsAt(lines[k], rooms).None? {
        ErrorOfRest(lines, k + 1, rooms + [ParseEntry(lines[k]).value], e);
      }
    }
  }

  /** A configuration gets an error exactly if it is the fault of the first line that has one, or there is
      no entry at all. */
  lemma ErrorExactly(text: Text, e: ConfigError)
    ensures ParseLines(Lines(text), []) == Err(e) <==>
              || (exists k: nat :: FirstFault(Lines(text), 0, k, e))
              || (e == NoRooms && AllQuiet(Lines(text), |Lines(text)|))
  {
    ErrorOfRest(Lines(text), 0, [], e);
    assert Lines(text)[0..] == Lines(text);
  }
}
