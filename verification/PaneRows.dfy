/** The rows of a running client's pane, which is capped and whose ephemeral rows expire: which messages
    they show, exactly, and how that differs from the screen the frames alone would leave. */
module PaneRows {
  import opened Proto
  import opened Texts
  import opened ClientUi
  import opened Client
  import opened Screens

  // ----- the rows of the pane -----

  /** A row of the pane: what is displayed, the message it shows if it is not a notice, and a number
      that tells rows apart: history entries come first, then each event has its own. */
  datatype Row = Row(display: DisplayMsg, what: Option<RoomMessage>, born: nat)

  ghost function Displays(rows: seq<Row>): seq<DisplayMsg> {
    seq(|rows|, i requires 0 <= i < |rows| => rows[i].display)
  }

  ghost predicate On(rows: seq<Row>, m: RoomMessage) {
    exists i :: 0 <= i < |rows| && rows[i].what == Some(m)
  }

  /** Which rows there are, and what they show. */
  ghost function Tags(rows: seq<Row>): set<(nat, Option<RoomMessage>)> {
    set i | 0 <= i < |rows| :: (rows[i].born, rows[i].what)
  }

  ghost predicate Has(rows: seq<Row>, b: nat) {
    exists t :: t in Tags(rows) && t.0 == b
  }

  ghost function PushRow(rows: seq<Row>, row: Row): seq<Row> {
    (if |rows| == HISTORY_CAP then rows[1..] else rows) + [row]
  }

  ghost function LivingRows(rows: seq<Row>, now: nat): seq<Row> {
    if rows == [] then []
    else
      var n := |rows| - 1;
      LivingRows(rows[..n], now) + if Lives(rows[n].display, now) then [rows[n]] else []
  }

  ghost function RevealedRows(rows: seq<Row>, until: nat): seq<Row> {
    seq(|rows|, i requires 0 <= i < |rows| => rows[i].(display := Revealed(rows[i].display, until)))
  }

  ghost function RemaskedRows(rows: seq<Row>, now: nat): seq<Row> {
    seq(|rows|, i requires 0 <= i < |rows| => rows[i].(display := Remasked(rows[i].display, now)))
  }

  ghost function SeedRows(open: Opener, w: seq<RoomMessage>, joined: nat): seq<Row> {
    if w == [] then []
    else
      var n := |w| - 1;
      PushRow(SeedRows(open, w[..n], joined), Row(DecryptToDisplay(open, w[n], joined), Some(w[n]), n))
  }

  /** Enter would send a message, and sealing it fails. */
  ghost predicate SealFails(v: View, env: Env) {
    var line := TrimEnd(v.input);
    && line != [] && !Command(line)
    && env.seal(BodyOf(line), MessageAd(v.userId, v.username, v.nextCounter, env.wallMs, SecretLine(line))) == None
  }

  /** The row an event adds, if it adds one. */
  ghost function NewRow(v: View, open: Opener, e: Event, born: nat): Option<Row> {
    match e
    case Arrival(Message(m), now, wallMs) =>
      Some(if AcceptCounter(v, m.ad.from, m.ad.counter).1 then Row(DecryptToDisplay(open, m, now), Some(m), born)
           else Row(SystemMsg(DROPPED_REPLAY + m.username, wallMs), None, born))
    case Arrival(Cleared(_, username), _, wallMs) => Some(Row(SystemMsg(CLEARED_BY + username, wallMs), None, born))
    case Pressed(Enter, env) =>
      if SealFails(v, env) then Some(Row(SystemMsg(ENCRYPTION_FAILED, env.wallMs), None, born)) else None
    case _ => None
  }

  /** What an event does to the rows there are: a clear wipes them, a tick drops what has expired and
      masks what was revealed too long, Ctrl-R reveals. */
  ghost function Redrawn(rows: seq<Row>, e: Event): seq<Row> {
    match e
    case Arrival(Cleared(_, _), _, _) => []
    case Ticked(now) => RemaskedRows(LivingRows(rows, now), now)
    case Pressed(CtrlR, env) => RevealedRows(rows, env.now + REVEAL)
    case _ => rows
  }

  /** The rows that the events add, each with its own number. */
  ghost function Adds(v: View, open: Opener, es: seq<Event>, base: nat): (adds: seq<Option<Row>>)
    ensures |adds| == |es|
  {
    seq(|es|, n requires 0 <= n < |es| => NewRow(Live(v, open, es[..n]), open, es[n], base + n))
  }

  ghost function EventRows(rows: seq<Row>, e: Event, add: Option<Row>): seq<Row> {
    if add.Some? then PushRow(Redrawn(rows, e), add.value) else Redrawn(rows, e)
  }

  /** The rows after the events, given those that the events add. */
  ghost function LiveRows(rows: seq<Row>, es: seq<Event>, adds: seq<Option<Row>>): seq<Row>
    requires |adds| == |es|
  {
    if es == [] then rows
    else
      var n := |es| - 1;
      EventRows(LiveRows(rows, es[..n], adds[..n]), es[n], adds[n])
  }

  // ----- the rows are the pane -----

  lemma PushDisplays(rows: seq<Row>, row: Row, v: View)
    requires Displays(rows) == v.messages
    ensures Displays(PushRow(rows, row)) == Push(v, row.display).messages
  {
  }

  lemma {:induction false} LivingDisplays(rows: seq<Row>, now: nat)
    ensures Displays(LivingRows(rows, now)) == Living(Displays(rows), now)
  {
    if rows != [] {
      var n := |rows| - 1;
      LivingDisplays(rows[..n], now);
      assert Displays(rows)[..n] == Displays(rows[..n]);
    }
  }

  lemma {:induction false} SeedDisplays(v: View, open: Opener, w: seq<RoomMessage>, joined: nat)
    requires v.messages == []
    ensures Displays(SeedRows(open, w, joined)) == Seed(v, open, w, joined).messages
  {
    if w != [] {
      var n := |w| - 1;
      SeedDisplays(v, open, w[..n], joined);
      var v1 := AcceptCounter(Seed(v, open, w[..n], joined), w[n].ad.from, w[n].ad.counter).0;
      PushDisplays(SeedRows(open, w[..n], joined), Row(DecryptToDisplay(open, w[n], joined), Some(w[n]), n), v1);
    }
  }

  lemma EnterMessages(v: View, env: Env)
    ensures var v1 := v.(input := [], nextCounter := Following(v.nextCounter));
            OnEnter(v, env).0.messages ==
              if SealFails(v, env) then Push(v1, SystemMsg(ENCRYPTION_FAILED, env.wallMs)).messages else v.messages
  {
    LineEffect(v, env);
  }

  lemma PressDisplays(v: View, rows: seq<Row>, open: Opener, key: Key, env: Env, born: nat)
    requires Displays(rows) == v.messages
    ensures var e := Pressed(key, env);
            Displays(EventRows(rows, e, NewRow(v, open, e, born))) == OnKey(v, key, env).0.messages
  {
    match key
    case CtrlR =>
      assert Displays(RevealedRows(rows, env.now + REVEAL)) == RevealedAll(v.messages, env.now + REVEAL);
    case Enter =>
      EnterMessages(v, env);
      var v1 := v.(input := [], nextCounter := Following(v.nextCounter));
      PushDisplays(rows, Row(SystemMsg(ENCRYPTION_FAILED, env.wallMs), None, born), v1);
    case _ =>
  }

  lemma FrameDisplays(v: View, rows: seq<Row>, open: Opener, f: ServerFrame, now: nat, wallMs: u64, born: nat)
    requires Displays(rows) == v.messages
    ensures var e := Arrival(f, now, wallMs);
            Displays(EventRows(rows, e, NewRow(v, open, e, born))) == OnFrame(v, open, f, now, wallMs).0.messages
  {
    if f.Message? {
      PushDisplays(rows, NewRow(v, open, Arrival(f, now, wallMs), born).value, AcceptCounter(v, f.msg.ad.from, f.msg.ad.counter).0);
    }
  }

  lemma EventDisplays(v: View, rows: seq<Row>, open: Opener, e: Event, born: nat)
    requires Displays(rows) == v.messages
    ensures Displays(EventRows(rows, e, NewRow(v, open, e, born))) == OnEvent(v, open, e).messages
  {
    match e
    case Arrival(f, now, wallMs) => FrameDisplays(v, rows, open, f, now, wallMs, born);
    case Pressed(key, env) => PressDisplays(v, rows, open, key, env, born);
    case Ticked(now) =>
      LivingDisplays(rows, now);
      assert Displays(RemaskedRows(LivingRows(rows, now), now)) == RemaskedAll(Displays(LivingRows(rows, now)), now);
    case Rendered(_) =>
  }

  lemma AddsPrefix(v: View, open: Opener, es: seq<Event>, k: nat, base: nat)
    requires k <= |es|
    ensures Adds(v, open, es, base)[..k] == Adds(v, open, es[..k], base)
  {
    forall n | 0 <= n < k ensures es[..k][..n] == es[..n] {}
  }

  /** Whatever happens, the rows show what the client's state holds. */
  lemma {:induction false} RowsAreThePane(v: View, rows: seq<Row>, open: Opener, es: seq<Event>, base: nat)
    requires Displays(rows) == v.messages
    ensures Displays(LiveRows(rows, es, Adds(v, open, es, base))) == Live(v, open, es).messages
  {
    if es != [] {
      var n := |es| - 1;
      RowsAreThePane(v, rows, open, es[..n], base);
      AddsPrefix(v, open, es, n, base);
      EventDisplays(Live(v, open, es[..n]), LiveRows(rows, es[..n], Adds(v, open, es[..n], base)), open, es[n], base + n);
    }
  }

  // ----- the fate of a row -----

  /** The rows younger than a given one, as if nothing were ever pushed out. */
  ghost function Young(young: seq<Row>, es: seq<Event>, adds: seq<Option<Row>>): seq<Row>
    requires |adds| == |es|
  {
    if es == [] then young
    else
      var n := |es| - 1;
      YoungRows(Young(young, es[..n], adds[..n]), es[n], adds[n])
  }

  ghost function YoungRows(young: seq<Row>, e: Event, add: Option<Row>): seq<Row> {
    if add.Some? then Redrawn(young, e) + [add.value] else Redrawn(young, e)
  }

  /** An event neither wipes the row nor finds it expired. */
  ghost predicate Survives(display: DisplayMsg, e: Event) {
    && !(e.Arrival? && e.frame.Cleared?)
    && (e.Ticked? ==> Lives(display, e.now))
  }

  /** What must hold for a row to last through the events, given the rows below it: no clear comes, no
      tick finds it expired, and at no moment do HISTORY_CAP younger rows stand. */
  ghost predicate Stands(display: DisplayMsg, young: seq<Row>, es: seq<Event>, adds: seq<Option<Row>>)
    requires |adds| == |es|
  {
    && |Young(young, es, adds)| < HISTORY_CAP
    && (es != [] ==>
          var n := |es| - 1;
          Stands(display, young, es[..n], adds[..n]) && Survives(display, es[n]))
  }

  ghost predicate Spared(display: DisplayMsg, es: seq<Event>) {
    forall n | 0 <= n < |es| :: Survives(display, es[n])
  }

  ghost predicate Uncrowded(young: seq<Row>, es: seq<Event>, adds: seq<Option<Row>>)
    requires |adds| == |es|
  {
    forall n | 0 <= n <= |es| :: YoungAt(young, es, adds, n) < HISTORY_CAP
  }

  lemma SparedStep(display: DisplayMsg, es: seq<Event>)
    requires es != []
    ensures Spared(display, es) <==> Spared(display, es[..|es| - 1]) && Survives(display, es[|es| - 1])
  {
    assert forall k | 0 <= k < |es| - 1 :: es[..|es| - 1][k] == es[k];
  }

  lemma Slices<T>(es: seq<T>, k: nat)
    requires k < |es|
    ensures var n := |es| - 1;
            && es[..n][..k] == es[..k] && es[..n][k..] == es[k..][..n - k] && es[k..][n - k] == es[n]
  {
  }

  /** How many young rows there are after `k` events. */
  ghost function YoungAt(young: seq<Row>, es: seq<Event>, adds: seq<Option<Row>>, k: nat): nat
    requires k <= |es| == |adds|
  {
    |Young(young, es[..k], adds[..k])|
  }

  lemma YoungAtEarlier(young: seq<Row>, es: seq<Event>, adds: seq<Option<Row>>, k: nat)
    requires k < |es| == |adds|
    ensures YoungAt(young, es[..|es| - 1], adds[..|es| - 1], k) == YoungAt(young, es, adds, k)
  {
    Slices(es, k);
    Slices(adds, k);
  }

  lemma UncrowdedStep(young: seq<Row>, es: seq<Event>, adds: seq<Option<Row>>)
    requires |adds| == |es| && es != []
    ensures Uncrowded(young, es, adds) <==>
              Uncrowded(young, es[..|es| - 1], adds[..|es| - 1]) && |Young(young, es, adds)| < HISTORY_CAP
  {
    var n := |es| - 1;
    assert es[..|es|] == es && adds[..|es|] == adds;
    forall k | 0 <= k <= n ensures YoungAt(young, es[..n], adds[..n], k) == YoungAt(young, es, adds, k) {
      YoungAtEarlier(young, es, adds, k);
    }
    assert YoungAt(young, es, adds, |es|) == |Young(young, es, adds)|;
  }

  /** The same, read off all moments at once. */
  lemma {:induction false} StandsMeans(display: DisplayMsg, young: seq<Row>, es: seq<Event>, adds: seq<Option<Row>>)
    requires |adds| == |es|
    ensures Stands(display, young, es, adds) <==> Spared(display, es) && Uncrowded(young, es, adds)
  {
    if es == [] {
      assert es[..0] == es && adds[..0] == adds;
      assert YoungAt(young, es, adds, 0) == |Young(young, es, adds)|;
    } else {
      StandsMeans(display, young, es[..|es| - 1], adds[..|es| - 1]);
      SparedStep(display, es);
      UncrowdedStep(young, es, adds);
    }
  }

  /** Displays that expire together. */
  ghost predicate SameFate(d: DisplayMsg, d': DisplayMsg) {
    && (d.ephemeral.Some? <==> d'.ephemeral.Some?)
    && (d.ephemeral.Some? ==> d.ephemeral.value.receivedAt == d'.ephemeral.value.receivedAt)
  }

  ghost predicate SameRow(row: Row, row': Row) {
    row.born == row'.born && row.what == row'.what && SameFate(row.display, row'.display)
  }

  /** The row stands, with just these rows below it. */
  ghost predicate StandsAmong(rows: seq<Row>, row: Row, young: seq<Row>) {
    |young| < |rows| &&
    var at := |rows| - |young| - 1;
    rows[at + 1..] == young && SameRow(rows[at], row) && !Has(rows[..at], row.born) && !Has(young, row.born)
  }

  lemma TagsJoin(a: seq<Row>, b: seq<Row>)
    ensures Tags(a + b) == Tags(a) + Tags(b)
  {
    forall t | t in Tags(a) + Tags(b) ensures t in Tags(a + b) {
      if t in Tags(a) {
        var i :| 0 <= i < |a| && t == (a[i].born, a[i].what);
        assert (a + b)[i] == a[i];
      } else {
        var i :| 0 <= i < |b| && t == (b[i].born, b[i].what);
        assert (a + b)[|a| + i] == b[i];
      }
    }
  }

  lemma {:induction false} LivingSplits(a: seq<Row>, b: seq<Row>, now: nat)
    ensures LivingRows(a + b, now) == LivingRows(a, now) + LivingRows(b, now)
  {
    if b == [] {
      assert a + b == a;
    } else {
      var n := |b| - 1;
      LivingSplits(a, b[..n], now);
      assert (a + b)[..|a| + n] == a + b[..n];
    }
  }

  lemma MasksSplit(a: seq<Row>, b: seq<Row>, at: nat)
    ensures RevealedRows(a + b, at) == RevealedRows(a, at) + RevealedRows(b, at)
    ensures RemaskedRows(a + b, at) == RemaskedRows(a, at) + RemaskedRows(b, at)
  {
  }

  lemma RedrawnSplits(a: seq<Row>, b: seq<Row>, e: Event)
    ensures Redrawn(a + b, e) == Redrawn(a, e) + Redrawn(b, e)
  {
    match e
    case Ticked(now) =>
      LivingSplits(a, b, now);
      MasksSplit(LivingRows(a, now), LivingRows(b, now), now);
    case Pressed(_, env) => MasksSplit(a, b, env.now + REVEAL);
    case _ =>
  }

  lemma RedrawnOne(row: Row, e: Event)
    ensures Survives(row.display, e) ==> |Redrawn([row], e)| == 1 && SameRow(Redrawn([row], e)[0], row)
    ensures !Survives(row.display, e) ==> Redrawn([row], e) == []
  {
    if e.Ticked? {
      assert [row][..0] == [];
      assert LivingRows([row], e.now) == if Lives(row.display, e.now) then [row] else [];
    }
  }

  lemma {:induction false} RedrawnKeepsTags(rows: seq<Row>, e: Event)
    ensures |Redrawn(rows, e)| <= |rows| && Tags(Redrawn(rows, e)) <= Tags(rows)
  {
    if rows == [] {
      assert Redrawn(rows, e) == [];
    } else {
      var before, row := rows[..|rows| - 1], rows[|rows| - 1];
      RedrawnKeepsTags(before, e);
      assert rows == before + [row];
      RedrawnSplits(before, [row], e);
      RedrawnOne(row, e);
      TagsJoin(before, [row]);
      TagsJoin(Redrawn(before, e), Redrawn([row], e));
    }
  }

  lemma JoinedStands(older: seq<Row>, one: seq<Row>, young: seq<Row>, row: Row)
    requires |one| == 1 && SameRow(one[0], row) && !Has(older, row.born) && !Has(young, row.born)
    ensures StandsAmong(older + one + young, row, young)
  {
    var rows := older + one + young;
    assert rows[..|older|] == older && rows[|older| + 1..] == young && rows[|older|] == one[0];
  }

  lemma RedrawnFate(rows: seq<Row>, row: Row, young: seq<Row>, e: Event)
    requires StandsAmong(rows, row, young)
    ensures Survives(row.display, e) ==> StandsAmong(Redrawn(rows, e), row, Redrawn(young, e))
    ensures !Survives(row.display, e) ==> !Has(Redrawn(rows, e), row.born)
    ensures |Redrawn(rows, e)| <= |rows|
  {
    var at := |rows| - |young| - 1;
    var older, one := rows[..at], [rows[at]];
    assert rows == older + one + young;
    RedrawnSplits(older + one, young, e);
    RedrawnSplits(older, one, e);
    RedrawnOne(rows[at], e);
    RedrawnKeepsTags(rows, e);
    RedrawnKeepsTags(older, e);
    RedrawnKeepsTags(young, e);
    if Survives(row.display, e) {
      JoinedStands(Redrawn(older, e), Redrawn(one, e), Redrawn(young, e), row);
    } else {
      TagsJoin(Redrawn(older, e) + Redrawn(one, e), Redrawn(young, e));
    }
  }

  lemma PushTags(rows: seq<Row>, added: Row)
    ensures Tags(PushRow(rows, added)) <= Tags(rows) + {(added.born, added.what)}
  {
    TagsJoin(if |rows| == HISTORY_CAP then rows[1..] else rows, [added]);
    if |rows| == HISTORY_CAP {
      TagsJoin(rows[..1], rows[1..]);
      assert rows[..1] + rows[1..] == rows;
    }
  }

  lemma PushKeeps(rows: seq<Row>, row: Row, young: seq<Row>, added: Row)
    requires StandsAmong(rows, row, young) && |rows| <= HISTORY_CAP && added.born != row.born
    requires |young| + 1 < HISTORY_CAP
    ensures StandsAmong(PushRow(rows, added), row, young + [added])
  {
    var at := |rows| - |young| - 1;
    var older := if |rows| == HISTORY_CAP then rows[1..at] else rows[..at];
    TagsJoin(young, [added]);
    if |rows| == HISTORY_CAP {
      TagsJoin(rows[..1], older);
      assert rows[..1] + older == rows[..at];
    }
    JoinedStands(older, [rows[at]], young + [added], row);
    assert PushRow(rows, added) == older + [rows[at]] + (young + [added]);
  }

  lemma PushDrops(rows: seq<Row>, row: Row, young: seq<Row>, added: Row)
    requires StandsAmong(rows, row, young) && |rows| <= HISTORY_CAP && added.born != row.born
    requires |young| + 1 >= HISTORY_CAP
    ensures !Has(PushRow(rows, added), row.born)
  {
    TagsJoin(young, [added]);
    assert PushRow(rows, added) == young + [added];
  }

  lemma FateStep(rows: seq<Row>, row: Row, young: seq<Row>, e: Event, add: Option<Row>)
    requires StandsAmong(rows, row, young) && |rows| <= HISTORY_CAP && (add.Some? ==> add.value.born != row.born)
    ensures var rows', young' := EventRows(rows, e, add), YoungRows(young, e, add);
            && |rows'| <= HISTORY_CAP
            && (Survives(row.display, e) && |young'| < HISTORY_CAP ==> StandsAmong(rows', row, young'))
            && (!(Survives(row.display, e) && |young'| < HISTORY_CAP) ==> !Has(rows', row.born))
  {
    RedrawnFate(rows, row, young, e);
    if add.Some? {
      if !Survives(row.display, e) {
        PushTags(Redrawn(rows, e), add.value);
      } else if |Redrawn(young, e)| + 1 < HISTORY_CAP {
        PushKeeps(Redrawn(rows, e), row, Redrawn(young, e), add.value);
      } else {
        PushDrops(Redrawn(rows, e), row, Redrawn(young, e), add.value);
      }
    }
  }

  lemma GoneStays(rows: seq<Row>, b: nat, e: Event, add: Option<Row>)
    requires !Has(rows, b) && (add.Some? ==> add.value.born != b) && |rows| <= HISTORY_CAP
    ensures !Has(EventRows(rows, e, add), b) && |EventRows(rows, e, add)| <= HISTORY_CAP
  {
    RedrawnKeepsTags(rows, e);
    if add.Some? { PushTags(Redrawn(rows, e), add.value); }
  }

  /** The row stands among the rows, with these below it, or it is gone. */
  ghost predicate Fate(rows: seq<Row>, row: Row, young: seq<Row>, stands: bool) {
    && |rows| <= HISTORY_CAP
    && (stands ==> StandsAmong(rows, row, young))
    && (!stands ==> !Has(rows, row.born))
  }

  lemma NextFate(rows: seq<Row>, row: Row, young: seq<Row>, stands: bool, e: Event, add: Option<Row>)
    requires Fate(rows, row, young, stands) && (add.Some? ==> add.value.born != row.born)
    ensures var young' := YoungRows(young, e, add);
            Fate(EventRows(rows, e, add), row, young', stands && Survives(row.display, e) && |young'| < HISTORY_CAP)
  {
    if stands {
      FateStep(rows, row, young, e, add);
    } else {
      GoneStays(rows, row.born, e, add);
    }
  }

  ghost predicate Others(b: nat, adds: seq<Option<Row>>) {
    forall n | 0 <= n < |adds| && adds[n].Some? :: adds[n].value.born != b
  }

  /** A row lasts through the events exactly if it `Stands`; and then the rows below it are the young
      ones. This holds for every row and whatever rows the events add. */
  lemma {:induction false} StandsExactly(rows: seq<Row>, row: Row, young: seq<Row>, es: seq<Event>, adds: seq<Option<Row>>)
    requires |adds| == |es| && StandsAmong(rows, row, young) && |rows| <= HISTORY_CAP && Others(row.born, adds)
    ensures Fate(LiveRows(rows, es, adds), row, Young(young, es, adds), Stands(row.display, young, es, adds))
  {
    if es != [] {
      var n := |es| - 1;
      StandsExactly(rows, row, young, es[..n], adds[..n]);
      NextFate(LiveRows(rows, es[..n], adds[..n]), row, Young(young, es[..n], adds[..n]),
               Stands(row.display, young, es[..n], adds[..n]), es[n], adds[n]);
    }
  }

  // ----- where the messages on the rows come from -----

  lemma LiveSnoc(rows: seq<Row>, es: seq<Event>, adds: seq<Option<Row>>, e: Event, add: Option<Row>)
    requires |adds| == |es|
    ensures LiveRows(rows, es + [e], adds + [add]) == EventRows(LiveRows(rows, es, adds), e, add)
  {
    assert (es + [e])[..|es|] == es && (adds + [add])[..|adds|] == adds;
  }

  lemma {:induction false} RowsJoin(rows: seq<Row>, es: seq<Event>, adds: seq<Option<Row>>, es': seq<Event>, adds': seq<Option<Row>>)
    requires |adds| == |es| && |adds'| == |es'|
    ensures LiveRows(rows, es + es', adds + adds') == LiveRows(LiveRows(rows, es, adds), es', adds')
  {
    if es' == [] {
      assert es + es' == es && adds + adds' == adds;
    } else {
      var n := |es'| - 1;
      var mid := LiveRows(rows, es, adds);
      RowsJoin(rows, es, adds, es'[..n], adds'[..n]);
      LiveSnoc(mid, es'[..n], adds'[..n], es'[n], adds'[n]);
      LiveSnoc(rows, es + es'[..n], adds + adds'[..n], es'[n], adds'[n]);
      assert es'[..n] + [es'[n]] == es' && adds'[..n] + [adds'[n]] == adds';
      assert es + es' == (es + es'[..n]) + [es'[n]] && adds + adds' == (adds + adds'[..n]) + [adds'[n]];
    }
  }

  /** The event brings the message, and the client accepts it. */
  ghost predicate AcceptsNow(v: View, e: Event, m: RoomMessage) {
    e.Arrival? && e.frame == Message(m) && AcceptCounter(v, m.ad.from, m.ad.counter).1
  }

  ghost predicate Accepts(v: View, open: Opener, es: seq<Event>, n: nat, m: RoomMessage)
    requires n < |es|
  {
    AcceptsNow(Live(v, open, es[..n]), es[n], m)
  }

  /** No clear arrives from event `k` on. */
  ghost predicate Unwiped(es: seq<Event>, k: nat) {
    forall j | k <= j < |es| :: !(es[j].Arrival? && es[j].frame.Cleared?)
  }

  /** The row of a message displayed at `receivedAt` lasts through the events, given the rows below it:
      no clear comes, no tick finds it TTL old if it is ephemeral and opened, and at no moment do
      HISTORY_CAP younger rows stand. */
  ghost predicate MessageLasts(m: RoomMessage, open: Opener, receivedAt: nat, young: seq<Row>, es: seq<Event>, adds: seq<Option<Row>>)
    requires |adds| == |es|
  {
    && Unwiped(es, 0)
    && (m.ad.ephemeral && open(m).Some? ==> forall n | 0 <= n < |es| && es[n].Ticked? :: es[n].now - receivedAt < TTL)
    && Uncrowded(young, es, adds)
  }

  lemma LastsIsStands(d: DisplayMsg, m: RoomMessage, open: Opener, receivedAt: nat, young: seq<Row>, es: seq<Event>, adds: seq<Option<Row>>)
    requires |adds| == |es| && IsDisplayOf(d, m, open, receivedAt)
    ensures Stands(d, young, es, adds) <==> MessageLasts(m, open, receivedAt, young, es, adds)
  {
    StandsMeans(d, young, es, adds);
    forall n | 0 <= n < |es|
      ensures Survives(d, es[n]) <==>
                && !(es[n].Arrival? && es[n].frame.Cleared?)
                && (m.ad.ephemeral && open(m).Some? && es[n].Ticked? ==> es[n].now - receivedAt < TTL)
    {
    }
  }

  /** A tick takes the row of a message exactly if the message is ephemeral, opened, and was displayed
      TTL ago or longer. */
  lemma TickTakes(rows: seq<Row>, row: Row, young: seq<Row>, m: RoomMessage, open: Opener, receivedAt: nat, now: nat)
    requires StandsAmong(rows, row, young) && |rows| <= HISTORY_CAP && IsDisplayOf(row.display, m, open, receivedAt)
    ensures Has(EventRows(rows, Ticked(now), None), row.born) <==>
              !(m.ad.ephemeral && open(m).Some? && now - receivedAt >= TTL)
  {
    RedrawnFate(rows, row, young, Ticked(now));
    RedrawnKeepsTags(young, Ticked(now));
    if Survives(row.display, Ticked(now)) { StandingHas(Redrawn(rows, Ticked(now)), row, Redrawn(young, Ticked(now))); }
  }

  lemma StandingHas(rows: seq<Row>, row: Row, young: seq<Row>)
    requires StandsAmong(rows, row, young)
    ensures Has(rows, row.born)
  {
    var at := |rows| - |young| - 1;
    assert (rows[at].born, rows[at].what) in Tags(rows);
  }

  /** The message from the history's entry `i` stands after the events. */
  ghost predicate SeedStands(open: Opener, w: seq<RoomMessage>, joined: nat, es: seq<Event>, adds: seq<Option<Row>>, i: nat)
    requires i < |w| && |adds| == |es|
  {
    var rows := SeedRows(open, w, joined);
    MessageLasts(w[i], open, joined, if i + 1 <= |rows| then rows[i + 1..] else [], es, adds)
  }

  /** The message that event `n` brought stands after the events. */
  ghost predicate ArrivalStands(open: Opener, es: seq<Event>, adds: seq<Option<Row>>, n: nat, m: RoomMessage)
    requires n < |es| == |adds| && es[n].Arrival?
  {
    MessageLasts(m, open, es[n].now, [], es[n + 1..], adds[n + 1..])
  }

  /** The rows of a client that was sent `w` and lived through `es`. */
  ghost function RowsOf(v: View, open: Opener, w: seq<RoomMessage>, joined: nat, es: seq<Event>): seq<Row> {
    LiveRows(SeedRows(open, w, joined), es, Adds(v, open, es, |w|))
  }

  lemma {:induction false} SeedIs(open: Opener, w: seq<RoomMessage>, joined: nat)
    requires |w| <= HISTORY_CAP
    ensures |SeedRows(open, w, joined)| == |w|
    ensures forall i | 0 <= i < |w| :: SeedRows(open, w, joined)[i] == Row(DecryptToDisplay(open, w[i], joined), Some(w[i]), i)
  {
    if w != [] { SeedIs(open, w[..|w| - 1], joined); }
  }

  /** Every row stems from the history or from one of the events. */
  ghost predicate FromSource(t: (nat, Option<RoomMessage>), v: View, open: Opener, w: seq<RoomMessage>, es: seq<Event>) {
    || (t.0 < |w| && t.1 == Some(w[t.0]))
    || (|w| <= t.0 < |w| + |es| && (t.1.Some? ==> Accepts(v, open, es, t.0 - |w|, t.1.value)))
  }

  lemma SourceLater(t: (nat, Option<RoomMessage>), v: View, open: Opener, w: seq<RoomMessage>, es: seq<Event>, e: Event)
    requires FromSource(t, v, open, w, es)
    ensures FromSource(t, v, open, w, es + [e])
  {
    if |w| <= t.0 {
      var n := t.0 - |w|;
      assert (es + [e])[n] == es[n] && (es + [e])[..n] == es[..n];
    }
  }

  lemma RowsOfStep(v: View, open: Opener, w: seq<RoomMessage>, joined: nat, es: seq<Event>)
    requires es != []
    ensures var n := |es| - 1;
            RowsOf(v, open, w, joined, es)
              == EventRows(RowsOf(v, open, w, joined, es[..n]), es[n], NewRow(Live(v, open, es[..n]), open, es[n], |w| + n))
  {
    AddsPrefix(v, open, es, |es| - 1, |w|);
  }

  lemma SourcesStep(rows: seq<Row>, v: View, open: Opener, w: seq<RoomMessage>, es: seq<Event>)
    requires es != [] && forall t | t in Tags(rows) :: FromSource(t, v, open, w, es[..|es| - 1])
    ensures var n := |es| - 1;
            forall t | t in Tags(EventRows(rows, es[n], NewRow(Live(v, open, es[..n]), open, es[n], |w| + n))) ::
              FromSource(t, v, open, w, es)
  {
    var n := |es| - 1;
    assert es == es[..n] + [es[n]];
    forall t | t in Tags(rows) ensures FromSource(t, v, open, w, es) { SourceLater(t, v, open, w, es[..n], es[n]); }
    EventTags(Live(v, open, es[..n]), rows, open, es[n], |w| + n);
  }

  lemma {:induction false} RowsHaveSources(v: View, open: Opener, w: seq<RoomMessage>, joined: nat, es: seq<Event>)
    requires |w| <= HISTORY_CAP
    ensures forall t | t in Tags(RowsOf(v, open, w, joined, es)) :: FromSource(t, v, open, w, es)
    ensures |RowsOf(v, open, w, joined, es)| <= HISTORY_CAP
  {
    if es == [] {
      SeedIs(open, w, joined);
    } else {
      var n := |es| - 1;
      var had := RowsOf(v, open, w, joined, es[..n]);
      RowsHaveSources(v, open, w, joined, es[..n]);
      SourcesStep(had, v, open, w, es);
      EventTags(Live(v, open, es[..n]), had, open, es[n], |w| + n);
      RowsOfStep(v, open, w, joined, es);
    }
  }

  /** An event adds at most one row, and what that row shows is what the client accepts from it. */
  lemma EventTags(v: View, rows: seq<Row>, open: Opener, e: Event, born: nat)
    ensures forall t | t in Tags(EventRows(rows, e, NewRow(v, open, e, born))) ::
              t in Tags(rows) || (t.0 == born && (t.1.Some? ==> AcceptsNow(v, e, t.1.value)))
    ensures |rows| <= HISTORY_CAP ==> |EventRows(rows, e, NewRow(v, open, e, born))| <= HISTORY_CAP
  {
    RedrawnKeepsTags(rows, e);
    var added := NewRow(v, open, e, born);
    if added.Some? { PushTags(Redrawn(rows, e), added.value); }
  }

  lemma AddsLater(v: View, open: Opener, es: seq<Event>, base: nat)
    ensures forall n | 0 <= n < |es| && Adds(v, open, es, base)[n].Some? :: Adds(v, open, es, base)[n].value.born == base + n
  {
  }

  lemma FateShows(rows: seq<Row>, row: Row, young: seq<Row>, stands: bool, m: RoomMessage)
    requires Fate(rows, row, young, stands) && row.what == Some(m)
    ensures stands ==> On(rows, m)
  {
  }

  lemma SeedFate(v: View, open: Opener, w: seq<RoomMessage>, joined: nat, es: seq<Event>, i: nat)
    requires i < |w| <= HISTORY_CAP
    ensures var rows, stands := RowsOf(v, open, w, joined, es), SeedStands(open, w, joined, es, Adds(v, open, es, |w|), i);
            (stands ==> On(rows, w[i])) && (!stands ==> !Has(rows, i))
  {
    var rows, adds := SeedRows(open, w, joined), Adds(v, open, es, |w|);
    SeedIs(open, w, joined);
    AddsLater(v, open, es, |w|);
    forall t | t in Tags(rows[..i]) ensures t.0 != i {}
    forall t | t in Tags(rows[i + 1..]) ensures t.0 != i {}
    assert StandsAmong(rows, rows[i], rows[i + 1..]);
    StandsExactly(rows, rows[i], rows[i + 1..], es, adds);
    LastsIsStands(rows[i].display, w[i], open, joined, rows[i + 1..], es, adds);
    FateShows(LiveRows(rows, es, adds), rows[i], Young(rows[i + 1..], es, adds), SeedStands(open, w, joined, es, adds, i), w[i]);
  }

  lemma NumberIsNew(v: View, open: Opener, w: seq<RoomMessage>, joined: nat, es: seq<Event>)
    requires |w| <= HISTORY_CAP
    ensures !Has(RowsOf(v, open, w, joined, es), |w| + |es|) && |RowsOf(v, open, w, joined, es)| <= HISTORY_CAP
  {
    RowsHaveSources(v, open, w, joined, es);
  }

  lemma BirthOf(v: View, open: Opener, w: seq<RoomMessage>, joined: nat, es: seq<Event>, m: RoomMessage)
    requires |w| <= HISTORY_CAP && es != [] && Accepts(v, open, es, |es| - 1, m)
    ensures var n := |es| - 1;
            var rows := RowsOf(v, open, w, joined, es);
            |rows| <= HISTORY_CAP && StandsAmong(rows, Row(DecryptToDisplay(open, m, es[n].now), Some(m), |w| + n), [])
  {
    var n := |es| - 1;
    NumberIsNew(v, open, w, joined, es[..n]);
    RowsOfStep(v, open, w, joined, es);
    PushedStands(RowsOf(v, open, w, joined, es[..n]), Row(DecryptToDisplay(open, m, es[n].now), Some(m), |w| + n));
  }

  lemma PushedStands(rows: seq<Row>, row: Row)
    requires |rows| <= HISTORY_CAP && !Has(rows, row.born)
    ensures |PushRow(rows, row)| <= HISTORY_CAP && StandsAmong(PushRow(rows, row), row, [])
  {
    var older := if |rows| == HISTORY_CAP then rows[1..] else rows;
    assert PushRow(rows, row) == older + [row] + [];
    if |rows| == HISTORY_CAP {
      TagsJoin(rows[..1], rows[1..]);
      assert rows[..1] + rows[1..] == rows;
    }
    JoinedStands(older, [row], [], row);
  }

  lemma LastsFrom(rows: seq<Row>, es: seq<Event>, adds: seq<Option<Row>>, k: nat, row: Row)
    requires k <= |es| == |adds| && Others(row.born, adds[k..])
    requires var born := LiveRows(rows, es[..k], adds[..k]); |born| <= HISTORY_CAP && StandsAmong(born, row, [])
    ensures Fate(LiveRows(rows, es, adds), row, Young([], es[k..], adds[k..]), Stands(row.display, [], es[k..], adds[k..]))
  {
    assert es == es[..k] + es[k..] && adds == adds[..k] + adds[k..];
    RowsJoin(rows, es[..k], adds[..k], es[k..], adds[k..]);
    StandsExactly(LiveRows(rows, es[..k], adds[..k]), row, [], es[k..], adds[k..]);
  }

  lemma ArrivalFate(v: View, open: Opener, w: seq<RoomMessage>, joined: nat, es: seq<Event>, n: nat, m: RoomMessage)
    requires |w| <= HISTORY_CAP && n < |es| && Accepts(v, open, es, n, m)
    ensures var rows, stands := RowsOf(v, open, w, joined, es), ArrivalStands(open, es, Adds(v, open, es, |w|), n, m);
            (stands ==> On(rows, m)) && (!stands ==> !Has(rows, |w| + n))
  {
    var adds, early := Adds(v, open, es, |w|), es[..n + 1];
    var row := Row(DecryptToDisplay(open, m, es[n].now), Some(m), |w| + n);
    assert early[..n] == es[..n] && early[n] == es[n];
    BirthOf(v, open, w, joined, early, m);
    AddsPrefix(v, open, es, n + 1, |w|);
    AddsLater(v, open, es, |w|);
    LastsFrom(SeedRows(open, w, joined), es, adds, n + 1, row);
    LastsIsStands(row.display, m, open, es[n].now, [], es[n + 1..], adds[n + 1..]);
    FateShows(RowsOf(v, open, w, joined, es), row, Young([], es[n + 1..], adds[n + 1..]),
              ArrivalStands(open, es, adds, n, m), m);
  }

  /** Which messages the rows of a running client show, exactly, for any history that fits the pane and
      any life after it: those of the history and those accepted since whose rows still stand. */
  lemma OnExactly(v: View, open: Opener, w: seq<RoomMessage>, joined: nat, es: seq<Event>, m: RoomMessage)
    requires |w| <= HISTORY_CAP
    ensures var adds := Adds(v, open, es, |w|);
            On(RowsOf(v, open, w, joined, es), m) <==>
              || (exists i :: 0 <= i < |w| && w[i] == m && SeedStands(open, w, joined, es, adds, i))
              || (exists n :: 0 <= n < |es| && Accepts(v, open, es, n, m) && ArrivalStands(open, es, adds, n, m))
  {
    var rows, adds := RowsOf(v, open, w, joined, es), Adds(v, open, es, |w|);
    if On(rows, m) {
      var j :| 0 <= j < |rows| && rows[j].what == Some(m);
      var b := rows[j].born;
      assert (b, Some(m)) in Tags(rows);
      RowsHaveSources(v, open, w, joined, es);
      assert Has(rows, b);
      if b < |w| {
        SeedFate(v, open, w, joined, es, b);
      } else {
        ArrivalFate(v, open, w, joined, es, b - |w|, m);
      }
    }
    forall i | 0 <= i < |w| && w[i] == m && SeedStands(open, w, joined, es, adds, i) ensures On(rows, m) {
      SeedFate(v, open, w, joined, es, i);
    }
    forall n | 0 <= n < |es| && Accepts(v, open, es, n, m) && ArrivalStands(open, es, adds, n, m) ensures On(rows, m) {
      ArrivalFate(v, open, w, joined, es, n, m);
    }
  }

  // ----- the rows and the screen -----

  /** The frames among what happens to a client. */
  ghost function Frames(es: seq<Event>): seq<ServerFrame> {
    if es == [] then []
    else Frames(es[..|es| - 1]) + if es[|es| - 1].Arrival? then [es[|es| - 1].frame] else []
  }

  lemma MessagesAppend(fs: seq<ServerFrame>, f: ServerFrame)
    ensures MessagesIn(fs + [f]) == MessagesIn(fs) + if f.Message? then [f.msg] else []
  {
    assert (fs + [f])[..|fs|] == fs;
  }

  lemma {:induction false} FramesReceived(es: seq<Event>)
    ensures MessagesIn(Frames(es)) == Received(es)
  {
    if es != [] {
      var n := |es| - 1;
      FramesReceived(es[..n]);
      if es[n].Arrival? {
        MessagesAppend(Frames(es[..n]), es[n].frame);
      } else {
        assert Frames(es) == Frames(es[..n]) && Received(es) == Received(es[..n]);
      }
    }
  }

  /** A frame's place in the stream is how many came before it. */
  lemma {:induction false} FrameAt(es: seq<Event>, p: nat)
    requires p < |es| && es[p].Arrival?
    ensures |Frames(es[..p])| < |Frames(es)| && Frames(es)[|Frames(es[..p])|] == es[p].frame
    ensures Frames(es)[..|Frames(es[..p])|] == Frames(es[..p])
  {
    var n := |es| - 1;
    if p < n {
      FrameAt(es[..n], p);
      assert es[..n][..p] == es[..p];
    }
  }

  lemma FramesOrder(es: seq<Event>, p: nat, q: nat)
    requires p < q < |es| && es[p].Arrival?
    ensures |Frames(es[..p])| < |Frames(es[..q])|
  {
    FrameAt(es[..q], p);
    assert es[..q][..p] == es[..p];
  }

  lemma AcceptsShows(v: View, open: Opener, w: seq<RoomMessage>, es: seq<Event>, n: nat, m: RoomMessage)
    requires SeenExactly(v, w) && n < |es|
    ensures Accepts(v, open, es, n, m) <==>
              es[n].Arrival? && es[n].frame == Message(m) && Shows(w + MessagesIn(Frames(es[..n])), m)
  {
    LiveSees(v, open, w, es[..n]);
    FramesReceived(es[..n]);
    AcceptIsShows(Live(v, open, es[..n]), w + Received(es[..n]), m);
  }

  lemma UnwipedStep(es: seq<Event>, k: nat)
    requires es != [] && k < |es|
    ensures Unwiped(es, k) <==> Unwiped(es[..|es| - 1], k) && !(es[|es| - 1].Arrival? && es[|es| - 1].frame.Cleared?)
  {
    assert forall j | 0 <= j < |es| - 1 :: es[..|es| - 1][j] == es[j];
  }

  /** Accepted at event `n`, and not wiped since. */
  ghost predicate Showing(v: View, open: Opener, es: seq<Event>, m: RoomMessage, n: nat) {
    n < |es| && Accepts(v, open, es, n, m) && Unwiped(es, n + 1)
  }

  lemma ShowingStep(v: View, open: Opener, es: seq<Event>, m: RoomMessage, n: nat)
    requires es != [] && n < |es| - 1
    ensures Showing(v, open, es, m, n) <==>
              Showing(v, open, es[..|es| - 1], m, n) && !(es[|es| - 1].Arrival? && es[|es| - 1].frame.Cleared?)
  {
    UnwipedStep(es, n + 1);
    assert es[..|es| - 1][n] == es[n] && es[..|es| - 1][..n] == es[..n];
  }

  lemma ScreenStep(w: seq<RoomMessage>, fs: seq<ServerFrame>, f: ServerFrame)
    ensures Screen(w, fs + [f]) ==
              match f
              case Message(m) => Screen(w, fs) + if Shows(w + MessagesIn(fs), m) then [m] else []
              case Cleared(_, _) => []
              case _ => Screen(w, fs)
  {
    assert (fs + [f])[..|fs|] == fs;
  }

  /** The screen holds what the rows would hold without cap and expiry: what the history had or the
      client accepted, and no clear has wiped. */
  lemma {:induction false} ScreenHolds(v: View, open: Opener, w: seq<RoomMessage>, es: seq<Event>, m: RoomMessage)
    requires SeenExactly(v, w)
    ensures m in Screen(w, Frames(es)) <==>
              (m in w && Unwiped(es, 0)) || exists n :: Showing(v, open, es, m, n)
  {
    if es != [] {
      var n := |es| - 1;
      var before := es[..n];
      ScreenHolds(v, open, w, before, m);
      UnwipedStep(es, 0);
      forall i | 0 <= i < n
        ensures Showing(v, open, es, m, i) <==> Showing(v, open, before, m, i) && !(es[n].Arrival? && es[n].frame.Cleared?)
      {
        ShowingStep(v, open, es, m, i);
      }
      AcceptsShows(v, open, w, es, n, m);
      assert Showing(v, open, es, m, n) <==> Accepts(v, open, es, n, m);
      if es[n].Arrival? {
        ScreenStep(w, Frames(before), es[n].frame);
      } else {
        assert Frames(es) == Frames(before);
      }
    }
  }

  lemma SeedOnScreen(v: View, open: Opener, w: seq<RoomMessage>, joined: nat, es: seq<Event>, adds: seq<Option<Row>>, i: nat)
    requires SeenExactly(v, w) && i < |w| <= HISTORY_CAP && |adds| == |es| && SeedStands(open, w, joined, es, adds, i)
    ensures w[i] in Screen(w, Frames(es))
  {
    ScreenHolds(v, open, w, es, w[i]);
  }

  lemma ArrivalOnScreen(v: View, open: Opener, w: seq<RoomMessage>, es: seq<Event>, adds: seq<Option<Row>>, n: nat, m: RoomMessage)
    requires SeenExactly(v, w) && n < |es| == |adds| && Accepts(v, open, es, n, m) && ArrivalStands(open, es, adds, n, m)
    ensures m in Screen(w, Frames(es))
  {
    forall j | n + 1 <= j < |es| ensures !(es[j].Arrival? && es[j].frame.Cleared?) { assert es[n + 1..][j - n - 1] == es[j]; }
    assert Showing(v, open, es, m, n);
    ScreenHolds(v, open, w, es, m);
  }

  /** A row shows nothing that is not on the screen. */
  lemma OnIsOnScreen(v: View, open: Opener, w: seq<RoomMessage>, joined: nat, es: seq<Event>, m: RoomMessage)
    requires SeenExactly(v, w) && |w| <= HISTORY_CAP && On(RowsOf(v, open, w, joined, es), m)
    ensures m in Screen(w, Frames(es))
  {
    var adds := Adds(v, open, es, |w|);
    OnExactly(v, open, w, joined, es, m);
    if i :| 0 <= i < |w| && w[i] == m && SeedStands(open, w, joined, es, adds, i) {
      SeedOnScreen(v, open, w, joined, es, adds, i);
    } else {
      var n :| 0 <= n < |es| && Accepts(v, open, es, n, m) && ArrivalStands(open, es, adds, n, m);
      ArrivalOnScreen(v, open, w, es, adds, n, m);
    }
  }

  /** A running client after a Welcome with history `w`, through any life: its rows are its pane. They
      show a message exactly if the message's row stands; and then it is on the screen. */
  lemma RowsShowScreen(username: Bytes, userId: Uuid, open: Opener, w: seq<RoomMessage>, joined: nat, es: seq<Event>, m: RoomMessage)
    requires |w| <= HISTORY_CAP
    ensures var v := Seed(NewView(username, userId), open, w, joined);
            var rows, adds := RowsOf(v, open, w, joined, es), Adds(v, open, es, |w|);
            && Displays(rows) == Live(v, open, es).messages
            && (On(rows, m) <==>
                  || (exists i :: 0 <= i < |w| && w[i] == m && SeedStands(open, w, joined, es, adds, i))
                  || (exists n :: 0 <= n < |es| && Accepts(v, open, es, n, m) && ArrivalStands(open, es, adds, n, m)))
            && (On(rows, m) ==> m in Screen(w, Frames(es)))
  {
    var v := Seed(NewView(username, userId), open, w, joined);
    SeedDisplays(NewView(username, userId), open, w, joined);
    SeedSees(NewView(username, userId), open, w, joined);
    RowsAreThePane(v, SeedRows(open, w, joined), open, es, |w|);
    OnExactly(v, open, w, joined, es, m);
    if On(RowsOf(v, open, w, joined, es), m) { OnIsOnScreen(v, open, w, joined, es, m); }
  }

  lemma GivenNotShown(w: seq<RoomMessage>, live: seq<RoomMessage>, i: nat)
    requires i < |w|
    ensures !Shows(w + live, w[i])
  {
    TopCounterBounds(w + live, w[i].ad.from);
    assert (w + live)[i] == w[i];
  }

  /** A message the history held once is on the rows exactly if that entry's row still stands: the
      stream never brings it back. */
  lemma HistoryRowExactly(username: Bytes, userId: Uuid, open: Opener, w: seq<RoomMessage>, joined: nat, es: seq<Event>, i: nat)
    requires i < |w| <= HISTORY_CAP && forall j | 0 <= j < |w| && w[j] == w[i] :: j == i
    ensures var v := Seed(NewView(username, userId), open, w, joined);
            On(RowsOf(v, open, w, joined, es), w[i]) <==> SeedStands(open, w, joined, es, Adds(v, open, es, |w|), i)
  {
    var v := Seed(NewView(username, userId), open, w, joined);
    SeedSees(NewView(username, userId), open, w, joined);
    OnExactly(v, open, w, joined, es, w[i]);
    forall n | 0 <= n < |es| ensures !Accepts(v, open, es, n, w[i]) {
      AcceptsShows(v, open, w, es, n, w[i]);
      GivenNotShown(w, MessagesIn(Frames(es[..n])), i);
    }
  }

  // ----- counting rows -----

  /** How many rows the events add. */
  ghost function Pushes(adds: seq<Option<Row>>): nat {
    if adds == [] then 0 else Pushes(adds[..|adds| - 1]) + if adds[|adds| - 1].Some? then 1 else 0
  }

  /** No young row is wiped or found expired. */
  ghost predicate NoneLost(young: seq<Row>, es: seq<Event>, adds: seq<Option<Row>>)
    requires |adds| == |es|
  {
    es != [] ==>
      var n := |es| - 1;
      && NoneLost(young, es[..n], adds[..n])
      && forall row | row in Young(young, es[..n], adds[..n]) :: Survives(row.display, es[n])
  }

  lemma {:induction false} AllSurvive(rows: seq<Row>, e: Event)
    requires forall row | row in rows :: Survives(row.display, e)
    ensures |Redrawn(rows, e)| == |rows|
  {
    if rows == [] {
      RedrawnKeepsTags(rows, e);
    } else {
      var n := |rows| - 1;
      AllSurvive(rows[..n], e);
      assert rows == rows[..n] + [rows[n]];
      RedrawnSplits(rows[..n], [rows[n]], e);
      RedrawnOne(rows[n], e);
    }
  }

  lemma {:induction false} YoungCount(young: seq<Row>, es: seq<Event>, adds: seq<Option<Row>>)
    requires |adds| == |es|
    ensures |Young(young, es, adds)| <= |young| + Pushes(adds)
    ensures NoneLost(young, es, adds) ==> |Young(young, es, adds)| == |young| + Pushes(adds)
  {
    if es != [] {
      var n := |es| - 1;
      YoungCount(young, es[..n], adds[..n]);
      RedrawnKeepsTags(Young(young, es[..n], adds[..n]), es[n]);
      if NoneLost(young, es, adds) { AllSurvive(Young(young, es[..n], adds[..n]), es[n]); }
    }
  }

  /** While fewer than HISTORY_CAP rows have come below it, neither wiped nor expired, a row stands. */
  lemma {:induction false} FewLeaveStanding(display: DisplayMsg, young: seq<Row>, es: seq<Event>, adds: seq<Option<Row>>)
    requires |adds| == |es| && |young| + Pushes(adds) < HISTORY_CAP && Spared(display, es)
    ensures Stands(display, young, es, adds)
  {
    YoungCount(young, es, adds);
    if es != [] {
      SparedStep(display, es);
      FewLeaveStanding(display, young, es[..|es| - 1], adds[..|es| - 1]);
    }
  }

  /** HISTORY_CAP rows below it, none of them lost, have pushed a row out. */
  lemma ManyPushOut(display: DisplayMsg, young: seq<Row>, es: seq<Event>, adds: seq<Option<Row>>)
    requires |adds| == |es| && |young| + Pushes(adds) >= HISTORY_CAP && NoneLost(young, es, adds)
    ensures !Stands(display, young, es, adds)
  {
    YoungCount(young, es, adds);
  }
}
