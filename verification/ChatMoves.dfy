/** Who is connected after a call on the chat server, with which sender, and in which room, in terms of before. */
module ChatMoves {
  import opened Wrappers
  import opened ChatRegistry
  import opened ChatRuns

  /** The dead who share a room with `id`; the notices that reveal them never go to id 0. */
  ghost function DeadMates<S>(w: Registry<S>, gone: set<S>, id: Id): set<Id> {
    set y | y in w.sessions && Dead(w, gone, y) && y != id && y != 0
            && exists room :: room in w.rooms && InRoom(w, room, id) && InRoom(w, room, y)
  }

  /** Who is connected no longer. */
  ghost function Removed<S>(w: Registry<S>, e: Event<S>, gone: set<S>): set<Id> {
    match e
    case Connect(_, _) => DeadIn(w, gone, MAIN) - {0}
    case Send(room, _, skip) =>
      if DeadIn(w, gone, room) <= {skip} then {}
      else if skip == 0 then DeadIn(w, gone, room) - {0}
      else DeadIn(w, gone, room)
    case Disconnect(id) => if id in w.sessions then {id} + DeadMates(w, gone, id) else {}
    case Join(id, name) =>
      var met := DeadIn(w, gone, name) - DeadMates(w, gone, id) - {id};
      DeadMates(w, gone, id) + met + if met != {} && id != 0 && Dead(w, gone, id) then {id} else {}
  }

  /** The room that the event itself moves somebody into. */
  function Entered<S>(e: Event<S>): Option<(Id, Room)> {
    match e
    case Connect(id, _) => Some((id, MAIN))
    case Join(id, name) => Some((id, name))
    case _ => None
  }

  /** A call leaves every session with its own sender, whoever else comes and goes. This needs no rules at all. */
  lemma SendersAreKept<S>(w: Registry<S>, e: Event<S>, gone: set<S>)
    ensures forall id | id in Next(w, e, gone).sessions ::
              if e.Connect? && id == e.id then Next(w, e, gone).sessions[id] == e.tx
              else id in w.sessions && Next(w, e, gone).sessions[id] == w.sessions[id]
  {
  }

  /** The sender with which an id has connected last. */
  function LastSender<S>(run: seq<(Event<S>, set<S>)>, id: Id): Option<S> {
    if run == [] then None else
      var e := run[|run| - 1].0;
      if e.Connect? && e.id == id then Some(e.tx) else LastSender(run[..|run| - 1], id)
  }

  /** In every run whatever, a message for an id goes to the sender with which that id has connected last. */
  lemma {:induction false} SendersAreTheirOwn<S>(run: seq<(Event<S>, set<S>)>, id: Id)
    requires id in After(Registry(map[], map[MAIN := {}]), run).sessions
    ensures LastSender(run, id) == Some(After(Registry(map[], map[MAIN := {}]), run).sessions[id])
  {
    if run != [] {
      var last := |run| - 1;
      var start: Registry<S> := Registry(map[], map[MAIN := {}]);
      SendersAreKept(After(start, run[..last]), run[last].0, run[last].1);
      if !(run[last].0.Connect? && run[last].0.id == id) {
        SendersAreTheirOwn(run[..last], id);
      }
    }
  }

  /** The whole effect of a call on who is connected and who is where. */
  ghost predicate Moves<S>(w: Registry<S>, e: Event<S>, removed: set<Id>, after: Registry<S>) {
    && after.sessions.Keys == w.sessions.Keys - removed + (if e.Connect? then {e.id} else {})
    && after.rooms.Keys == w.rooms.Keys + (if Entered(e).Some? then {Entered(e).value.1} else {})
    && forall room, y ::
         InRoom(after, room, y) <==>
         if Entered(e).Some? && y == Entered(e).value.0 then room == Entered(e).value.1 && (e.Connect? || y !in removed)
         else InRoom(w, room, y) && y !in removed
  }

  /** Every well-behaved call moves exactly whom it should, removes exactly the dead that it reveals, and touches
      nobody else. */
  lemma NextMoves<S>(w: Registry<S>, e: Event<S>, gone: set<S>)
    requires Partition(w) && Legal(w, e)
    ensures Moves(w, e, Removed(w, e, gone), Next(w, e, gone))
  {
    match e
    case Send(room, _, skip) => SendRemovesExactlyTheDead(w, gone, room, skip);
    case Connect(id, tx) => ConnectMoves(w, id, tx, gone);
    case Disconnect(id) => DisconnectMoves(w, id, gone);
    case Join(id, name) => JoinMovesAll(w, id, name, gone);
  }

  lemma MatesAreRoommates<S>(w: Registry<S>, gone: set<S>, id: Id, room: Room)
    requires OneRoomEach(w) && InRoom(w, room, id)
    ensures DeadMates(w, gone, id) == LeftBehind(w, gone, id, room)
  {
    forall y ensures y in DeadMates(w, gone, id) <==> y in LeftBehind(w, gone, id, room) {
      if y in DeadMates(w, gone, id) {
        var r :| r in w.rooms && InRoom(w, r, id) && InRoom(w, r, y);
        assert r == room;
      }
    }
  }

  lemma ConnectMoves<S>(w: Registry<S>, id: Id, tx: S, gone: set<S>)
    requires Partition(w) && Legal(w, Connect(id, tx))
    ensures Moves(w, Connect(id, tx), DeadIn(w, gone, MAIN) - {0}, ConnectState(w, gone, id, tx))
  {
    hide Doomed;
    SendRemovesExactlyTheDead(w, gone, MAIN, 0);
    var removed := DeadIn(w, gone, MAIN) - {0};
    assert Doomed(w, gone, MAIN, 0) == removed;
    var told := Evict(w, removed);
    var after := Enter(told.(sessions := told.sessions[id := tx]), id, MAIN);
    assert forall room, y :: InRoom(after, room, y) <==> InRoom(told, room, y) || (room == MAIN && y == id);
    assert forall room, y :: InRoom(told, room, y) <==> InRoom(w, room, y) && y !in removed;
    assert forall room | InRoom(w, room, id) :: room == MAIN;
  }

  lemma DisconnectMoves<S>(w: Registry<S>, id: Id, gone: set<S>)
    requires Partition(w)
    ensures Moves(w, Event<S>.Disconnect(id), Removed(w, Event<S>.Disconnect(id), gone), DisconnectState(w, gone, id))
  {
    if id in w.sessions {
      var room :| InRoom(w, room, id);
      DisconnectRemovesExactly(w, gone, id, room);
      MatesAreRoommates(w, gone, id, room);
      assert {id} + (DeadIn(w, gone, room) - {0}) == {id} + LeftBehind(w, gone, id, room);
    } else {
      assert {id} * w.sessions.Keys == {};
      LeastOfNothing(w, gone);
    }
  }

  lemma JoinMovesAll<S>(w: Registry<S>, id: Id, name: Room, gone: set<S>)
    requires Partition(w) && id in w.sessions
    ensures Moves(w, Event<S>.Join(id, name), Removed(w, Event<S>.Join(id, name), gone), JoinState(w, gone, id, name))
  {
    hide JoinState;
    var room :| InRoom(w, room, id);
    JoinMeans(w, gone, id, room, name);
    MatesAreRoommates(w, gone, id, room);
    var removed := LeftBehind(w, gone, id, room) + MetThere(w, gone, id, room, name);
    assert Removed(w, Event<S>.Join(id, name), gone) == removed;
    MovedIs(w, removed, id, name);
  }

  lemma MovedIs<S>(w: Registry<S>, removed: set<Id>, id: Id, name: Room)
    ensures Moves(w, Event<S>.Join(id, name), removed, Evict(Enter(LeaveRooms(w, id), id, name), removed))
  {
    var left := LeaveRooms(w, id);
    var entered := Enter(left, id, name);
    assert forall room, y :: InRoom(left, room, y) <==> InRoom(w, room, y) && y != id;
    assert forall room, y :: InRoom(entered, room, y) <==> InRoom(left, room, y) || (room == name && y == id);
    assert forall room, y :: InRoom(Evict(entered, removed), room, y) <==> InRoom(entered, room, y) && y !in removed;
  }

  /** Main hears of a connect: its live members the text and one notice per member found dead, id 0 nothing. */
  lemma ConnectTells<S>(w: Registry<S>, gone: set<S>, to: Id)
    requires OneRoomEach(w)
    ensures SendMail(w, gone, MAIN, JOINED, 0, to)
         == if Live(w, gone, to) && InRoom(w, MAIN, to) && to != 0
            then ["Someone joined"] + Repeat("Someone disconnected", |DeadIn(w, gone, MAIN) - {0}|) else []
  {
    SendDelivers(w, gone, MAIN, JOINED, 0, to);
    SendRemovesExactlyTheDead(w, gone, MAIN, 0);
    if DeadIn(w, gone, MAIN) <= {0} {
      assert DeadIn(w, gone, MAIN) - {0} == {};
    }
  }
}
