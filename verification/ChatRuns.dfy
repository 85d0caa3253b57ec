/** What the cascade comes to when every id is in at most one room, and what every run keeps. */
module ChatRuns {
  import opened ChatRegistry

  // ---- One cascade ----

  ghost predicate OneRoomEach<S>(w: Registry<S>) {
    forall a, b, id :: InRoom(w, a, id) && InRoom(w, b, id) ==> a == b
  }

  ghost function DeadIn<S>(w: Registry<S>, gone: set<S>, room: Room): set<Id> {
    set y | y in w.sessions && InRoom(w, room, y) && Dead(w, gone, y)
  }

  /** A cascade only ever removes dead sessions, in any state whatever. */
  lemma SendSparesTheLiving<S>(w: Registry<S>, gone: set<S>, room: Room, skip: Id)
    ensures Doomed(w, gone, room, skip) <= DeadIds(w, gone)
    ensures forall id :: Live(w, gone, id) ==> Live(SendState(w, gone, room, skip), gone, id)
  {
    LeastIsDead(w, gone, Failing(w, gone, room, skip));
  }

  /** Either nobody else is dead and nothing happens, or all the room's dead go, `skip` included. Id 0 stays
      when `skip` is 0, for then no send of the whole cascade is ever addressed to it. */
  lemma SendRemovesExactlyTheDead<S>(w: Registry<S>, gone: set<S>, room: Room, skip: Id)
    requires OneRoomEach(w)
    ensures Doomed(w, gone, room, skip)
         == if DeadIn(w, gone, room) <= {skip} then {}
            else if skip == 0 then DeadIn(w, gone, room) - {0}
            else DeadIn(w, gone, room)
  {
    var seeds := Failing(w, gone, room, skip);
    assert seeds == DeadIn(w, gone, room) - {skip};
    if seeds == {} {
      LeastOfNothing(w, gone);
    } else {
      var one :| one in seeds;
      var all := if skip == 0 then DeadIn(w, gone, room) - {0} else DeadIn(w, gone, room);
      forall z: set<Id> | seeds <= z && Spreads(w, gone, z) ensures all <= z {
        forall y | y in all ensures y in z {
          assert one in z && InRoom(w, room, one) && InRoom(w, room, y);
        }
      }
      assert Spreads(w, gone, all);
      LeastIsUnique(w, gone, seeds, all);
    }
  }

  lemma SendLeavesOtherRooms<S>(w: Registry<S>, gone: set<S>, room: Room, skip: Id, other: Room)
    requires OneRoomEach(w) && other in w.rooms && other != room
    ensures SendState(w, gone, room, skip).rooms[other] == w.rooms[other]
  {
    SendRemovesExactlyTheDead(w, gone, room, skip);
    forall y | y in w.rooms[other] ensures y !in Doomed(w, gone, room, skip) {
      assert InRoom(w, other, y);
    }
  }

  /** A live member is sent the text first, once, and then one notice per session removed from its room. */
  lemma SendDelivers<S>(w: Registry<S>, gone: set<S>, room: Room, text: string, skip: Id, to: Id)
    requires OneRoomEach(w)
    ensures SendMail(w, gone, room, text, skip, to)
         == (if Live(w, gone, to) && InRoom(w, room, to) && to != skip then [text] else [])
            + (if Live(w, gone, to) && InRoom(w, room, to) && to != 0
               then Repeat(LEFT, |Doomed(w, gone, room, skip)|) else [])
  {
    if Live(w, gone, to) {
      SendRemovesExactlyTheDead(w, gone, room, skip);
      var x := Doomed(w, gone, room, skip);
      assert x <= DeadIn(w, gone, room);
      if InRoom(w, room, to) {
        WitnessedInOneRoom(w, room, x, to);
      } else {
        forall p | p in Witnessed(w, x, to) ensures false {
          assert InRoom(w, p.0, p.1) && InRoom(w, room, p.1) && InRoom(w, p.0, to);
        }
      }
    }
  }

  lemma {:induction false} WitnessedInOneRoom<S>(w: Registry<S>, room: Room, x: set<Id>, to: Id)
    requires OneRoomEach(w) && InRoom(w, room, to) && x <= w.rooms[room]
    ensures |Witnessed(w, x, to)| == |x|
    decreases x
  {
    if x == {} {
      assert Witnessed(w, x, to) == {};
    } else {
      var y :| y in x;
      WitnessedInOneRoom(w, room, x - {y}, to);
      forall p | p in Witnessed(w, x, to) ensures p in Witnessed(w, x - {y}, to) + {(room, y)} {
        assert InRoom(w, p.0, to);
      }
      assert Witnessed(w, x, to) == Witnessed(w, x - {y}, to) + {(room, y)};
    }
  }

  /** Disconnecting takes along the dead of the session's room, id 0 excepted, whether they failed before or not. */
  lemma DisconnectRemovesExactly<S>(w: Registry<S>, gone: set<S>, id: Id, room: Room)
    requires OneRoomEach(w) && id in w.sessions && InRoom(w, room, id)
    ensures Dropped(w, gone, id) == {id} + (DeadIn(w, gone, room) - {0})
    ensures forall to :: DisconnectMail(w, gone, id, to)
                      == if to != id && to != 0 && Live(w, gone, to) && InRoom(w, room, to)
                         then Repeat(LEFT, |Dropped(w, gone, id)|) else []
  {
    var all := {id} + (DeadIn(w, gone, room) - {0});
    assert {id} * w.sessions.Keys == {id};
    forall z: set<Id> | {id} <= z && Spreads(w, gone, z) ensures all <= z {
      forall y | y in all ensures y in z {
        assert id in z && InRoom(w, room, y);
      }
    }
    assert Spreads(w, gone, all);
    LeastIsUnique(w, gone, {id}, all);
    forall to
      ensures DisconnectMail(w, gone, id, to)
           == if to != id && to != 0 && Live(w, gone, to) && InRoom(w, room, to)
              then Repeat(LEFT, |Dropped(w, gone, id)|) else []
    {
      if InRoom(w, room, to) {
        WitnessedInOneRoom(w, room, all, to);
      } else {
        forall p | p in Witnessed(w, all, to) ensures false {
          assert InRoom(w, p.0, p.1) && InRoom(w, room, p.1) && InRoom(w, p.0, to);
        }
        assert Witnessed(w, all, to) == {};
      }
    }
  }

  // ---- Runs ----

  /** What callers of the server do; the third argument of `Next` says which senders fail during the call. */
  datatype Event<S> =
    | Connect(id: Id, tx: S)
    | Join(id: Id, name: Room)
    | Send(room: Room, text: string, skip: Id)
    | Disconnect(id: Id)

  ghost function Next<S>(w: Registry<S>, e: Event<S>, gone: set<S>): Registry<S> {
    match e
    case Connect(id, tx) => ConnectState(w, gone, id, tx)
    case Join(id, name) => JoinState(w, gone, id, name)
    case Send(room, _, skip) => SendState(w, gone, room, skip)
    case Disconnect(id) => DisconnectState(w, gone, id)
  }

  ghost function After<S>(w: Registry<S>, run: seq<(Event<S>, set<S>)>): Registry<S> {
    if run == [] then w else
      var last := |run| - 1;
      Next(After(w, run[..last]), run[last].0, run[last].1)
  }

  /** The rooms partition the connected sessions. */
  ghost predicate Partition<S>(w: Registry<S>) {
    && OneRoomEach(w)
    && (forall id | id in w.sessions :: exists room :: InRoom(w, room, id))
    && (forall room, id | InRoom(w, room, id) :: id in w.sessions)
  }

  /** A caller connects an id that is in no room but the main one, and joins only with a connected id. */
  ghost predicate Legal<S>(w: Registry<S>, e: Event<S>) {
    match e
    case Connect(id, _) => forall room | InRoom(w, room, id) :: room == MAIN
    case Join(id, _) => id in w.sessions
    case Send(_, _, _) => true
    case Disconnect(_) => true
  }

  /** What the session code of the example does: ids are fresh when they connect. */
  ghost predicate Fresh<S>(w: Registry<S>, e: Event<S>) {
    match e
    case Connect(id, _) => id !in w.sessions
    case Join(id, _) => id in w.sessions
    case Send(_, _, _) => true
    case Disconnect(_) => true
  }

  lemma EvictKeepsPartition<S>(w: Registry<S>, removed: set<Id>)
    requires Partition(w)
    ensures Partition(Evict(w, removed))
  {
    var after := Evict(w, removed);
    assert forall room, id :: InRoom(after, room, id) <==> InRoom(w, room, id) && id !in removed;
    forall id | id in after.sessions ensures exists room :: InRoom(after, room, id) {
      var room :| InRoom(w, room, id);
      assert InRoom(after, room, id);
    }
    forall a, b, id | InRoom(after, a, id) && InRoom(after, b, id) ensures a == b {
      assert InRoom(w, a, id) && InRoom(w, b, id);
    }
  }

  lemma EnterKeepsPartition<S>(w: Registry<S>, id: Id, name: Room)
    requires OneRoomEach(w) && id in w.sessions
    requires forall room :: !InRoom(w, room, id) || room == name
    requires forall y | y in w.sessions && y != id :: exists room :: InRoom(w, room, y)
    requires forall room, y | InRoom(w, room, y) :: y in w.sessions
    ensures Partition(Enter(w, id, name))
  {
    var after := Enter(w, id, name);
    assert forall room, y :: InRoom(after, room, y) <==> InRoom(w, room, y) || (room == name && y == id);
    forall y | y in after.sessions ensures exists room :: InRoom(after, room, y) {
      if y == id {
        assert InRoom(after, name, y);
      } else {
        var room :| InRoom(w, room, y);
        assert InRoom(after, room, y);
      }
    }
  }

  /** The state `join` passes through: everybody but `id` is in exactly one room, and `id` in none. */
  lemma ExitLeavesOneHomeless<S>(w: Registry<S>, gone: set<S>, id: Id)
    requires Partition(w)
    ensures var out := ExitState(w, gone, id);
            && OneRoomEach(out)
            && (forall room :: !InRoom(out, room, id))
            && (id in w.sessions <==> id in out.sessions)
            && (forall y | y in out.sessions && y != id :: exists room :: InRoom(out, room, y))
            && (forall room, y | InRoom(out, room, y) :: y in out.sessions)
  {
    var left := LeaveRooms(w, id);
    var seeds := FailingIn(left, gone, RoomsOf(w, id));
    assert Spreads(left, gone, left.sessions.Keys - {id});
    assert id !in seeds;
    assert id !in Least(left, gone, seeds);
    var out := ExitState(w, gone, id);
    assert forall room, y :: InRoom(out, room, y) ==> InRoom(w, room, y);
    forall y | y in out.sessions && y != id ensures exists room :: InRoom(out, room, y) {
      var room :| InRoom(w, room, y);
      assert InRoom(out, room, y);
    }
  }

  lemma EvictKeeps<S>(w: Registry<S>, removed: set<Id>, id: Id)
    requires id !in removed
    ensures forall room :: InRoom(Evict(w, removed), room, id) <==> InRoom(w, room, id)
  {
  }

  /** A session that joins with a live sender is afterwards in the room it joined and in no other. */
  lemma JoinMoves<S>(w: Registry<S>, gone: set<S>, id: Id, name: Room)
    requires Partition(w) && Live(w, gone, id)
    ensures var after := JoinState(w, gone, id, name);
            && Live(after, gone, id)
            && (forall room :: InRoom(after, room, id) <==> room == name)
  {
    ExitLeavesOneHomeless(w, gone, id);
    var out := ExitState(w, gone, id);
    var joined := Enter(out, id, name);
    assert forall room, y :: InRoom(joined, room, y) <==> InRoom(out, room, y) || (room == name && y == id);
    SendSparesTheLiving(joined, gone, name, id);
    assert id !in Doomed(joined, gone, name, id);
    EvictKeeps(joined, Doomed(joined, gone, name, id), id);
  }

  /** Leaving the one room an id is in is one notice to that room. */
  lemma ExitIsOneNotice<S>(w: Registry<S>, gone: set<S>, id: Id, room: Room)
    requires OneRoomEach(w) && InRoom(w, room, id)
    ensures ExitState(w, gone, id) == SendState(LeaveRooms(w, id), gone, room, 0)
    ensures forall to :: ExitMail(w, gone, id, to) == SendMail(LeaveRooms(w, id), gone, room, LEFT, 0, to)
  {
    var left := LeaveRooms(w, id);
    forall r | r in RoomsOf(w, id) ensures r == room {
      assert InRoom(w, r, id);
    }
    assert RoomsOf(w, id) == {} + {room};
    TellNothing(left, gone);
    TellNext(left, gone, {}, room);
  }

  /** The dead that the leave of `id` from `room` reveals. */
  ghost function LeftBehind<S>(w: Registry<S>, gone: set<S>, id: Id, room: Room): set<Id> {
    DeadIn(w, gone, room) - {id, 0}
  }

  /** The dead that it then meets in the room it joins, and itself if it is dead and one of them reveals that. */
  ghost function MetThere<S>(w: Registry<S>, gone: set<S>, id: Id, room: Room, name: Room): set<Id> {
    var met := DeadIn(w, gone, name) - LeftBehind(w, gone, id, room) - {id};
    if met == {} || id == 0 || !Dead(w, gone, id) then met else met + {id}
  }

  lemma LeftBehindIsDoomed<S>(w: Registry<S>, gone: set<S>, id: Id, room: Room)
    requires OneRoomEach(w) && InRoom(w, room, id)
    ensures OneRoomEach(LeaveRooms(w, id))
    ensures Doomed(LeaveRooms(w, id), gone, room, 0) == LeftBehind(w, gone, id, room)
  {
    hide Doomed;
    var left := LeaveRooms(w, id);
    assert forall r, y :: InRoom(left, r, y) <==> InRoom(w, r, y) && y != id;
    SendRemovesExactlyTheDead(left, gone, room, 0);
    assert DeadIn(left, gone, room) - {0} == LeftBehind(w, gone, id, room);
  }

  /** What `to` hears of the leave of `id` from `room`, which finds `n` members dead. */
  ghost function LeaveHeard<S>(w: Registry<S>, gone: set<S>, id: Id, room: Room, n: nat, to: Id): seq<string> {
    if to != id && to != 0 && Live(w, gone, to) && InRoom(w, room, to) then Repeat(LEFT, 1 + n) else []
  }

  /** And what it hears of the entry of `id` into room `name`, which finds `n` sessions dead. */
  ghost function EntryHeard<S>(w: Registry<S>, gone: set<S>, id: Id, name: Room, n: nat, to: Id): seq<string> {
    (if to != id && Live(w, gone, to) && InRoom(w, name, to) then ["Someone connected"] else [])
    + (if to != 0 && Live(w, gone, to) && (to == id || InRoom(w, name, to)) then Repeat(LEFT, n) else [])
  }

  /** The old room is told first: its dead go, and its live members hear of each. */
  lemma ExitMeans<S>(w: Registry<S>, gone: set<S>, id: Id, room: Room, to: Id)
    requires OneRoomEach(w) && InRoom(w, room, id)
    ensures ExitState(w, gone, id) == Evict(LeaveRooms(w, id), LeftBehind(w, gone, id, room))
    ensures ExitMail(w, gone, id, to) == LeaveHeard(w, gone, id, room, |LeftBehind(w, gone, id, room)|, to)
  {
    hide Doomed, ExitState, ExitMail, SendMail, LeftBehind, OneRoomEach;
    var left := LeaveRooms(w, id);
    ExitIsOneNotice(w, gone, id, room);
    LeftBehindIsDoomed(w, gone, id, room);
    SendDelivers(left, gone, room, LEFT, 0, to);
    assert InRoom(left, room, to) <==> InRoom(w, room, to) && to != id;
    assert [LEFT] + Repeat(LEFT, |Doomed(left, gone, room, 0)|) == Repeat(LEFT, 1 + |Doomed(left, gone, room, 0)|);
  }

  /** Who is in the room that `id` has entered after the dead of `behind` went, and who of them is dead. */
  lemma EnteredIs<S>(w: Registry<S>, gone: set<S>, behind: set<Id>, id: Id, name: Room)
    requires behind <= DeadIds(w, gone) && id !in behind && id in w.sessions
    ensures var joined := Enter(Evict(LeaveRooms(w, id), behind), id, name);
            && (forall to :: Live(joined, gone, to) <==> Live(w, gone, to))
            && (forall to :: InRoom(joined, name, to) <==> to == id || (InRoom(w, name, to) && to !in behind))
            && DeadIn(joined, gone, name)
               == (DeadIn(w, gone, name) - behind - {id}) + if Dead(w, gone, id) then {id} else {}
  {
    var joined := Enter(Evict(LeaveRooms(w, id), behind), id, name);
    assert joined.sessions == w.sessions - behind;
    assert forall to :: InRoom(joined, name, to) <==> to == id || (InRoom(w, name, to) && to !in behind);
  }

  lemma JoinedIs<S>(w: Registry<S>, gone: set<S>, id: Id, room: Room, name: Room)
    requires Partition(w) && InRoom(w, room, id)
    ensures var joined := Enter(ExitState(w, gone, id), id, name);
            && Partition(joined)
            && (forall to :: Live(joined, gone, to) <==> Live(w, gone, to))
            && (forall to :: InRoom(joined, name, to) <==>
                  to == id || (InRoom(w, name, to) && to !in LeftBehind(w, gone, id, room)))
            && DeadIn(joined, gone, name)
               == (DeadIn(w, gone, name) - LeftBehind(w, gone, id, room) - {id}) + if Dead(w, gone, id) then {id} else {}
  {
    var out := ExitState(w, gone, id);
    assert Partition(Enter(out, id, name)) by {
      ExitLeavesOneHomeless(w, gone, id);
      EnterKeepsPartition(out, id, name);
    }
    ExitMeans(w, gone, id, room, 0);
    hide Partition, Enter, Evict, ExitState, OneRoomEach;
    EnteredIs(w, gone, LeftBehind(w, gone, id, room), id, name);
  }

  lemma MetThereIsDoomed<S>(w: Registry<S>, gone: set<S>, id: Id, room: Room, name: Room)
    requires Partition(w) && InRoom(w, room, id)
    ensures Doomed(Enter(ExitState(w, gone, id), id, name), gone, name, id) == MetThere(w, gone, id, room, name)
  {
    hide Doomed, ExitState, Enter, LeftBehind, DeadIn;
    JoinedIs(w, gone, id, room, name);
    SendRemovesExactlyTheDead(Enter(ExitState(w, gone, id), id, name), gone, name, id);
  }

  /** What a join comes to, whether the joiner is alive or not: who is where afterwards, and who is removed. A dead
      joiner goes exactly if some other member of the room is found dead. */
  lemma JoinMeans<S>(w: Registry<S>, gone: set<S>, id: Id, room: Room, name: Room)
    requires Partition(w) && InRoom(w, room, id)
    ensures JoinState(w, gone, id, name)
         == Evict(Enter(LeaveRooms(w, id), id, name), LeftBehind(w, gone, id, room) + MetThere(w, gone, id, room, name))
  {
    hide Doomed, ExitState, MetThere, Enter, Evict;
    var behind, met := LeftBehind(w, gone, id, room), MetThere(w, gone, id, room, name);
    ExitMeans(w, gone, id, room, 0);
    MetThereIsDoomed(w, gone, id, room, name);
    EnterEvict(LeaveRooms(w, id), behind, id, name);
    EvictInStages(Enter(LeaveRooms(w, id), id, name), behind, met);
  }

  /** And what everybody is sent: the old room of the leave, the new room of the entry, both of who was found dead. */
  lemma JoinTells<S>(w: Registry<S>, gone: set<S>, id: Id, room: Room, name: Room, to: Id)
    requires Partition(w) && InRoom(w, room, id)
    ensures JoinMail(w, gone, id, name, to)
         == LeaveHeard(w, gone, id, room, |LeftBehind(w, gone, id, room)|, to)
            + EntryHeard(w, gone, id, name, |MetThere(w, gone, id, room, name)|, to)
  {
    var joined := Enter(ExitState(w, gone, id), id, name);
    assert Live(w, gone, to) ==> to !in LeftBehind(w, gone, id, room);
    hide Doomed, ExitState, ExitMail, SendMail, LeftBehind, MetThere, Enter, DeadIn, OneRoomEach;
    ExitMeans(w, gone, id, room, to);
    JoinedIs(w, gone, id, room, name);
    MetThereIsDoomed(w, gone, id, room, name);
    SendDelivers(joined, gone, name, CONNECTED, id, to);
  }

  lemma EnterEvict<S>(w: Registry<S>, removed: set<Id>, id: Id, name: Room)
    requires id !in removed
    ensures Enter(Evict(w, removed), id, name) == Evict(Enter(w, id, name), removed)
  {
    var a, b := Enter(Evict(w, removed), id, name), Evict(Enter(w, id, name), removed);
    assert a.rooms.Keys == b.rooms.Keys;
    assert forall r | r in a.rooms :: a.rooms[r] == b.rooms[r];
  }

  /** A fresh id is afterwards in the main room and in no other, whoever else had to go. */
  lemma ConnectEnters<S>(w: Registry<S>, gone: set<S>, id: Id, tx: S)
    requires Partition(w) && id !in w.sessions
    ensures var after := ConnectState(w, gone, id, tx);
            && id in after.sessions && after.sessions[id] == tx
            && (forall room :: InRoom(after, room, id) <==> room == MAIN)
            && after.sessions.Keys == w.sessions.Keys - Doomed(w, gone, MAIN, 0) + {id}
  {
    var told := SendState(w, gone, MAIN, 0);
    assert forall room :: !InRoom(w, room, id);
    assert forall room, y :: InRoom(told, room, y) ==> InRoom(w, room, y);
    var added := told.(sessions := told.sessions[id := tx]);
    var after := Enter(added, id, MAIN);
    assert forall room, y :: InRoom(after, room, y) <==> InRoom(told, room, y) || (room == MAIN && y == id);
  }

  /** An operation keeps the partition exactly when its caller plays by the rules. */
  lemma NextKeepsPartition<S>(w: Registry<S>, e: Event<S>, gone: set<S>)
    requires Partition(w)
    ensures Partition(Next(w, e, gone)) <==> Legal(w, e)
  {
    match e
    case Send(room, _, skip) =>
      EvictKeepsPartition(w, Doomed(w, gone, room, skip));
    case Disconnect(id) =>
      EvictKeepsPartition(w, Dropped(w, gone, id));
    case Connect(id, tx) =>
      var told := SendState(w, gone, MAIN, 0);
      EvictKeepsPartition(w, Doomed(w, gone, MAIN, 0));
      var added := told.(sessions := told.sessions[id := tx]);
      assert forall room, y :: InRoom(added, room, y) <==> InRoom(told, room, y);
      if Legal(w, e) {
        assert forall room, y :: InRoom(told, room, y) ==> InRoom(w, room, y);
        EnterKeepsPartition(added, id, MAIN);
      } else {
        var room :| InRoom(w, room, id) && room != MAIN;
        SendLeavesOtherRooms(w, gone, MAIN, 0, room);
        assert InRoom(Next(w, e, gone), room, id) && InRoom(Next(w, e, gone), MAIN, id);
      }
    case Join(id, name) =>
      var out := ExitState(w, gone, id);
      ExitLeavesOneHomeless(w, gone, id);
      var joined := Enter(out, id, name);
      if id in w.sessions {
        EnterKeepsPartition(out, id, name);
        EvictKeepsPartition(joined, Doomed(joined, gone, name, id));
      } else {
        LeastContains(joined, gone, Failing(joined, gone, name, id));
        assert InRoom(Next(w, e, gone), name, id);
      }
  }

  /** From the initial registry, every run of well-behaved callers keeps the partition at every point. */
  lemma {:induction false} RunsKeepPartition<S>(run: seq<(Event<S>, set<S>)>)
    requires forall k | 0 <= k < |run| :: Fresh(After(Registry(map[], map[MAIN := {}]), run[..k]), run[k].0)
    ensures Partition(After(Registry(map[], map[MAIN := {}]), run))
    decreases |run|
  {
    var start: Registry<S> := Registry(map[], map[MAIN := {}]);
    if run != [] {
      var last := |run| - 1;
      var before := run[..last];
      forall k | 0 <= k < |before| ensures Fresh(After(start, before[..k]), before[k].0) {
        assert before[..k] == run[..k] && before[k] == run[k];
      }
      RunsKeepPartition(before);
      assert Legal(After(start, before), run[last].0);
      NextKeepsPartition(After(start, before), run[last].0, run[last].1);
    }
  }
}
