/** The values a chat server goes through, and what a cascade of failed sends means for them.

A send that fails disconnects its receiver; the receiver leaves its rooms; each of those rooms is told;
those sends can fail in turn. `Doomed` says who is gone at the end, as the least set with a closure
property and without mentioning any order. Everything here is about values; the class that updates
them in place is in `ChatServer`.
*/
module ChatRegistry {
  import opened Ranges

  type Id = nat
  type Room = string

  const MAIN: Room := "Main"
  const JOINED := "Someone joined"
  const CONNECTED := "Someone connected"
  const LEFT := "Someone disconnected"

  datatype Registry<S> = Registry(sessions: map<Id, S>, rooms: map<Room, set<Id>>)

  /** `gone` is the set of senders whose websocket no longer exists: sending to one of them fails. */
  predicate Dead<S(==)>(w: Registry<S>, gone: set<S>, id: Id) {
    id in w.sessions && w.sessions[id] in gone
  }

  function DeadIds<S(==)>(w: Registry<S>, gone: set<S>): set<Id> {
    set id | id in w.sessions && w.sessions[id] in gone
  }

  predicate Live<S(==)>(w: Registry<S>, gone: set<S>, id: Id) {
    id in w.sessions && w.sessions[id] !in gone
  }

  predicate InRoom<S>(w: Registry<S>, room: Room, id: Id) {
    room in w.rooms && id in w.rooms[room]
  }

  /** Whoever shares a room with a removed id is told, so is removed too when dead. The notices skip id 0. */
  ghost predicate Spreads<S>(w: Registry<S>, gone: set<S>, removed: set<Id>) {
    forall x, room, y ::
      x in removed && InRoom(w, room, x) && InRoom(w, room, y) && Dead(w, gone, y) && y != 0 ==> y in removed
  }

  /** The least set that contains `seeds` and spreads. */
  ghost function Least<S>(w: Registry<S>, gone: set<S>, seeds: set<Id>): set<Id> {
    set y | y in w.sessions && forall z: set<Id> :: seeds <= z && Spreads(w, gone, z) ==> y in z
  }

  /** The receivers of a message for `room` whose send fails. */
  ghost function Failing<S>(w: Registry<S>, gone: set<S>, room: Room, skip: Id): set<Id> {
    set y | y in w.sessions && InRoom(w, room, y) && y != skip && Dead(w, gone, y)
  }

  ghost function Doomed<S>(w: Registry<S>, gone: set<S>, room: Room, skip: Id): set<Id> {
    Least(w, gone, Failing(w, gone, room, skip))
  }

  ghost function Evict<S>(w: Registry<S>, removed: set<Id>): Registry<S> {
    Registry(w.sessions - removed, map room | room in w.rooms :: w.rooms[room] - removed)
  }

  function Repeat(text: string, n: nat): (r: seq<string>)
    ensures |r| == n
  {
    seq(n, _ => text)
  }

  ghost function Elements<T>(s: seq<T>): set<T> {
    set x | x in s
  }

  function Mail(inbox: map<Id, seq<string>>, id: Id): seq<string> {
    if id in inbox then inbox[id] else []
  }

  lemma Append<T>(a: seq<T>, b: seq<T>, c: seq<T>)
    ensures (a + b) + c == a + (b + c)
  {
  }

  /** Every way in which `id` sees a member of `removed` leave a room. */
  ghost function Witnessed<S>(w: Registry<S>, removed: set<Id>, id: Id): set<(Room, Id)> {
    set room, x | room in w.rooms && x in w.rooms[room] && x in removed && id in w.rooms[room] :: (room, x)
  }

  ghost function Notices<S>(w: Registry<S>, gone: set<S>, removed: set<Id>, id: Id): seq<string> {
    if Live(w, gone, id) && id != 0 then Repeat(LEFT, |Witnessed(w, removed, id)|) else []
  }

  // ---- The least set ----

  lemma LeastContains<S>(w: Registry<S>, gone: set<S>, seeds: set<Id>)
    requires seeds <= w.sessions.Keys
    ensures seeds <= Least(w, gone, seeds) <= w.sessions.Keys
    ensures Spreads(w, gone, Least(w, gone, seeds))
  {
  }

  lemma LeastIsUnique<S>(w: Registry<S>, gone: set<S>, seeds: set<Id>, x: set<Id>)
    requires seeds <= x <= w.sessions.Keys
    requires Spreads(w, gone, x)
    requires forall z: set<Id> | seeds <= z && Spreads(w, gone, z) :: x <= z
    ensures x == Least(w, gone, seeds)
  {
    forall y | y in x ensures y in Least(w, gone, seeds) {
      forall z: set<Id> | seeds <= z && Spreads(w, gone, z) ensures y in z {
        assert x <= z;
      }
    }
  }

  lemma LeastOfNothing<S>(w: Registry<S>, gone: set<S>)
    ensures Least(w, gone, {}) == {}
    ensures Evict(w, {}) == w
  {
    LeastIsUnique(w, gone, {}, {});
    assert forall room | room in w.rooms :: Evict(w, {}).rooms[room] == w.rooms[room];
  }

  /** Only the seeds and dead sessions other than 0 are ever removed. */
  lemma LeastIsDead<S>(w: Registry<S>, gone: set<S>, seeds: set<Id>)
    requires seeds <= w.sessions.Keys
    ensures forall y | y in Least(w, gone, seeds) && y !in seeds :: Dead(w, gone, y) && y != 0
  {
    var z := seeds + set y | y in w.sessions && Dead(w, gone, y) && y != 0;
    assert Spreads(w, gone, z);
  }

  /** Removing in two stages, the second on what the first left, is removing at once. */
  lemma LeastInStages<S>(w: Registry<S>, gone: set<S>, a: set<Id>, b: set<Id>)
    requires a <= w.sessions.Keys && b <= w.sessions.Keys
    ensures var first := Least(w, gone, a);
            var rest := Evict(w, first);
            var second := Least(rest, gone, b - first);
            && first !! second
            && Least(w, gone, a + b) == first + second
            && Evict(rest, second) == Evict(w, first + second)
  {
    var first := Least(w, gone, a);
    var rest := Evict(w, first);
    var second := Least(rest, gone, b - first);
    LeastContains(w, gone, a);
    LeastContains(rest, gone, b - first);
    assert Spreads(w, gone, first + second) by {
      forall x, room, y | x in first + second && InRoom(w, room, x) && InRoom(w, room, y) && Dead(w, gone, y) && y != 0
        ensures y in first + second
      {
        if x !in first && y !in first {
          assert InRoom(rest, room, x) && InRoom(rest, room, y) && Dead(rest, gone, y);
        }
      }
    }
    forall z: set<Id> | a + b <= z && Spreads(w, gone, z) ensures first + second <= z {
      assert a <= z;
      assert Spreads(rest, gone, z - first) by {
        forall x, room, y | x in z - first && InRoom(rest, room, x) && InRoom(rest, room, y) && Dead(rest, gone, y) && y != 0
          ensures y in z - first
        {
          assert InRoom(w, room, x) && InRoom(w, room, y) && Dead(w, gone, y);
        }
      }
      assert second <= z - first;
    }
    LeastIsUnique(w, gone, a + b, first + second);
    EvictInStages(w, first, second);
  }

  lemma EvictInStages<S>(w: Registry<S>, first: set<Id>, second: set<Id>)
    ensures Evict(Evict(w, first), second) == Evict(w, first + second)
  {
    var stages, once := Evict(Evict(w, first), second), Evict(w, first + second);
    assert stages.sessions == once.sessions;
    assert forall room | room in w.rooms :: stages.rooms[room] == once.rooms[room];
  }

  /** The notices of two stages add up to the notices of the whole. */
  lemma NoticesInStages<S>(w: Registry<S>, gone: set<S>, first: set<Id>, second: set<Id>, id: Id)
    requires first !! second
    requires Live(w, gone, id) ==> id !in first
    ensures Notices(w, gone, first + second, id)
         == Notices(w, gone, first, id) + Notices(Evict(w, first), gone, second, id)
  {
    if Live(w, gone, id) && id != 0 {
      var rest := Evict(w, first);
      var a, b := Witnessed(w, first, id), Witnessed(rest, second, id);
      assert Witnessed(w, first + second, id) == a + b;
      assert a !! b;
      assert |a + b| == |a| + |b|;
      assert Live(rest, gone, id);
    }
  }

  // ---- Leaving every room ----

  ghost function LeaveRooms<S>(w: Registry<S>, id: Id): Registry<S> {
    w.(rooms := map room | room in w.rooms :: w.rooms[room] - {id})
  }

  ghost function RoomsOf<S>(w: Registry<S>, id: Id): set<Room> {
    set room | room in w.rooms && id in w.rooms[room]
  }

  /** The dead ids that are told about a leave of every room in `told`. */
  ghost function FailingIn<S>(w: Registry<S>, gone: set<S>, told: set<Room>): set<Id> {
    set y | y in w.sessions && Dead(w, gone, y) && y != 0 && exists room :: room in told && InRoom(w, room, y)
  }

  /** The notices of a leave from every room in `told`, and of the removals that followed. */
  ghost function LeaveNotices<S>(w: Registry<S>, gone: set<S>, told: set<Room>, removed: set<Id>, id: Id): seq<string> {
    if Live(w, gone, id) && id != 0 then
      Repeat(LEFT, |told * RoomsOf(w, id)| + |Witnessed(w, removed, id)|)
    else []
  }

  /** What `id` receives once each room in `told` has been sent a notice. */
  ghost function ToldMail<S>(w: Registry<S>, gone: set<S>, told: set<Room>, id: Id): seq<string> {
    LeaveNotices(w, gone, told, Least(w, gone, FailingIn(w, gone, told)), id)
  }

  ghost function ToldState<S>(w: Registry<S>, gone: set<S>, told: set<Room>): Registry<S> {
    Evict(w, Least(w, gone, FailingIn(w, gone, told)))
  }

  ghost function ExitState<S>(w: Registry<S>, gone: set<S>, id: Id): Registry<S> {
    ToldState(LeaveRooms(w, id), gone, RoomsOf(w, id))
  }

  ghost function ExitMail<S>(w: Registry<S>, gone: set<S>, id: Id, to: Id): seq<string> {
    ToldMail(LeaveRooms(w, id), gone, RoomsOf(w, id), to)
  }

  // ---- What the operations mean ----

  ghost function SendState<S>(w: Registry<S>, gone: set<S>, room: Room, skip: Id): Registry<S> {
    Evict(w, Doomed(w, gone, room, skip))
  }

  ghost function Direct<S>(w: Registry<S>, gone: set<S>, room: Room, text: string, skip: Id, to: Id): seq<string> {
    if Live(w, gone, to) && InRoom(w, room, to) && to != skip then [text] else []
  }

  ghost function SendMail<S>(w: Registry<S>, gone: set<S>, room: Room, text: string, skip: Id, to: Id): seq<string> {
    Direct(w, gone, room, text, skip, to) + Notices(w, gone, Doomed(w, gone, room, skip), to)
  }

  ghost function Dropped<S>(w: Registry<S>, gone: set<S>, id: Id): set<Id> {
    Least(w, gone, {id} * w.sessions.Keys)
  }

  ghost function DisconnectState<S>(w: Registry<S>, gone: set<S>, id: Id): Registry<S> {
    Evict(w, Dropped(w, gone, id))
  }

  /** A disconnected id is sent nothing, live or not. */
  ghost function DisconnectMail<S>(w: Registry<S>, gone: set<S>, id: Id, to: Id): seq<string> {
    if to == id then [] else Notices(w, gone, Dropped(w, gone, id), to)
  }

  ghost function Enter<S>(w: Registry<S>, id: Id, name: Room): Registry<S> {
    w.(rooms := w.rooms[name := (if name in w.rooms then w.rooms[name] else {}) + {id}])
  }

  ghost function JoinState<S>(w: Registry<S>, gone: set<S>, id: Id, name: Room): Registry<S> {
    SendState(Enter(ExitState(w, gone, id), id, name), gone, name, id)
  }

  ghost function JoinMail<S>(w: Registry<S>, gone: set<S>, id: Id, name: Room, to: Id): seq<string> {
    ExitMail(w, gone, id, to) + SendMail(Enter(ExitState(w, gone, id), id, name), gone, name, CONNECTED, id, to)
  }

  ghost function ConnectState<S>(w: Registry<S>, gone: set<S>, id: Id, tx: S): Registry<S> {
    var told := SendState(w, gone, MAIN, 0);
    Enter(told.(sessions := told.sessions[id := tx]), id, MAIN)
  }

  // ---- Steps of the cascade ----

  /** Telling one more room. */
  lemma TellOne<S>(w: Registry<S>, gone: set<S>, told: set<Room>, room: Room)
    requires room !in told
    ensures var first := Least(w, gone, FailingIn(w, gone, told));
            var now := Evict(w, first);
            && first !! Doomed(now, gone, room, 0)
            && Least(w, gone, FailingIn(w, gone, told + {room})) == first + Doomed(now, gone, room, 0)
            && SendState(now, gone, room, 0) == Evict(w, Least(w, gone, FailingIn(w, gone, told + {room})))
  {
    var a, b := FailingIn(w, gone, told), Failing(w, gone, room, 0);
    var first := Least(w, gone, a);
    var now := Evict(w, first);
    assert FailingIn(w, gone, told + {room}) == a + b by {
      assert forall y :: y in b ==> room in told + {room} && InRoom(w, room, y);
    }
    assert Failing(now, gone, room, 0) == b - first;
    LeastInStages(w, gone, a, b);
  }

  lemma WitnessedInStages<S>(w: Registry<S>, first: set<Id>, second: set<Id>, id: Id)
    requires first !! second && id !in first
    ensures |Witnessed(w, first + second, id)| == |Witnessed(w, first, id)| + |Witnessed(Evict(w, first), second, id)|
  {
    var a, b := Witnessed(w, first, id), Witnessed(Evict(w, first), second, id);
    assert Witnessed(w, first + second, id) == a + b;
    assert a !! b;
  }

  lemma RoomsToldInStages<S>(w: Registry<S>, told: set<Room>, room: Room, id: Id)
    requires room !in told
    ensures |(told + {room}) * RoomsOf(w, id)|
         == |told * RoomsOf(w, id)| + if InRoom(w, room, id) then 1 else 0
  {
    var before, after := told * RoomsOf(w, id), (told + {room}) * RoomsOf(w, id);
    assert after == if InRoom(w, room, id) then before + {room} else before;
  }

  lemma LeaveNoticesInStages<S>(w: Registry<S>, gone: set<S>, told: set<Room>, room: Room,
                                first: set<Id>, second: set<Id>, to: Id)
    requires room !in told && first !! second
    requires Live(w, gone, to) ==> to !in first
    ensures LeaveNotices(w, gone, told + {room}, first + second, to)
         == LeaveNotices(w, gone, told, first, to)
            + (Direct(Evict(w, first), gone, room, LEFT, 0, to) + Notices(Evict(w, first), gone, second, to))
  {
    if Live(w, gone, to) && to != 0 {
      var now := Evict(w, first);
      WitnessedInStages(w, first, second, to);
      RoomsToldInStages(w, told, room, to);
      assert Live(now, gone, to) && (InRoom(now, room, to) <==> InRoom(w, room, to));
    }
  }

  lemma TellOneMail<S>(w: Registry<S>, gone: set<S>, told: set<Room>, room: Room, to: Id)
    requires room !in told
    ensures ToldMail(w, gone, told + {room}, to)
         == ToldMail(w, gone, told, to)
            + SendMail(Evict(w, Least(w, gone, FailingIn(w, gone, told))), gone, room, LEFT, 0, to)
  {
    var first := Least(w, gone, FailingIn(w, gone, told));
    TellOne(w, gone, told, room);
    LeastIsDead(w, gone, FailingIn(w, gone, told));
    LeaveNoticesInStages(w, gone, told, room, first, Doomed(Evict(w, first), gone, room, 0), to);
  }

  lemma TellNext<S>(w: Registry<S>, gone: set<S>, told: set<Room>, room: Room)
    requires room !in told
    ensures var now := ToldState(w, gone, told);
            && SendState(now, gone, room, 0) == ToldState(w, gone, told + {room})
            && forall to :: ToldMail(w, gone, told + {room}, to)
                         == ToldMail(w, gone, told, to) + SendMail(now, gone, room, LEFT, 0, to)
  {
    TellOne(w, gone, told, room);
    forall to
      ensures ToldMail(w, gone, told + {room}, to)
           == ToldMail(w, gone, told, to)
              + SendMail(Evict(w, Least(w, gone, FailingIn(w, gone, told))), gone, room, LEFT, 0, to)
    {
      TellOneMail(w, gone, told, room, to);
    }
  }

  lemma TellNothing<S>(w: Registry<S>, gone: set<S>)
    ensures ToldState(w, gone, {}) == w
    ensures forall to :: ToldMail(w, gone, {}, to) == []
  {
    LeastOfNothing(w, gone);
    assert FailingIn(w, gone, {}) == {};
    forall to ensures ToldMail(w, gone, {}, to) == [] {
      assert Witnessed(w, {}, to) == {};
      assert {} * RoomsOf(w, to) == {};
    }
  }

  lemma ToldFits<S>(w: Registry<S>, gone: set<S>, told: set<Room>)
    ensures |ToldState(w, gone, told).sessions| <= |w.sessions|
  {
    SubsetSize(ToldState(w, gone, told).sessions.Keys, w.sessions.Keys);
  }

  /** Disconnecting is forgetting the session, leaving every room, and the cascade that follows. */
  lemma DisconnectIsExit<S>(w: Registry<S>, gone: set<S>, id: Id)
    requires id in w.sessions
    ensures var forgot := w.(sessions := w.sessions - {id});
            var left := LeaveRooms(forgot, id);
            var x := Least(left, gone, FailingIn(left, gone, RoomsOf(forgot, id)));
            && id !in x
            && Dropped(w, gone, id) == {id} + x
            && ExitState(forgot, gone, id) == DisconnectState(w, gone, id)
  {
    var forgot := w.(sessions := w.sessions - {id});
    var left := LeaveRooms(forgot, id);
    var seeds := FailingIn(left, gone, RoomsOf(forgot, id));
    var x := Least(left, gone, seeds);
    LeastContains(left, gone, seeds);
    ExitSpreads(w, gone, id);
    forall z: set<Id> | {id} <= z && Spreads(w, gone, z) ensures {id} + x <= z {
      ExitIsLeast(w, gone, id, z);
    }
    LeastIsUnique(w, gone, {id}, {id} + x);
    assert {id} * w.sessions.Keys == {id};
    assert Evict(left, x).sessions == Evict(w, {id} + x).sessions;
    assert forall room | room in w.rooms :: Evict(left, x).rooms[room] == Evict(w, {id} + x).rooms[room];
  }

  lemma ExitSpreads<S>(w: Registry<S>, gone: set<S>, id: Id)
    requires id in w.sessions
    ensures var forgot := w.(sessions := w.sessions - {id});
            var left := LeaveRooms(forgot, id);
            Spreads(w, gone, {id} + Least(left, gone, FailingIn(left, gone, RoomsOf(forgot, id))))
  {
    var forgot := w.(sessions := w.sessions - {id});
    var left := LeaveRooms(forgot, id);
    var seeds := FailingIn(left, gone, RoomsOf(forgot, id));
    var x := Least(left, gone, seeds);
    LeastContains(left, gone, seeds);
    forall p, room, y | p in {id} + x && InRoom(w, room, p) && InRoom(w, room, y) && Dead(w, gone, y) && y != 0
      ensures y in {id} + x
    {
      if y != id {
        assert InRoom(left, room, y) && Dead(left, gone, y);
        if p == id {
          assert room in RoomsOf(forgot, id);
          assert y in seeds;
        } else {
          assert InRoom(left, room, p);
        }
      }
    }
  }

  lemma ExitIsLeast<S>(w: Registry<S>, gone: set<S>, id: Id, z: set<Id>)
    requires id in w.sessions && id in z && Spreads(w, gone, z)
    ensures var forgot := w.(sessions := w.sessions - {id});
            var left := LeaveRooms(forgot, id);
            Least(left, gone, FailingIn(left, gone, RoomsOf(forgot, id))) <= z
  {
    var forgot := w.(sessions := w.sessions - {id});
    var left := LeaveRooms(forgot, id);
    assert Spreads(left, gone, z) by {
      forall p, room, y | p in z && InRoom(left, room, p) && InRoom(left, room, y) && Dead(left, gone, y) && y != 0
        ensures y in z
      {
        assert InRoom(w, room, p) && InRoom(w, room, y) && Dead(w, gone, y);
      }
    }
    forall y | y in FailingIn(left, gone, RoomsOf(forgot, id)) ensures y in z {
      var room :| room in RoomsOf(forgot, id) && InRoom(left, room, y);
      assert InRoom(w, room, id) && InRoom(w, room, y) && Dead(w, gone, y);
    }
  }

  lemma WitnessedLeave<S>(w: Registry<S>, id: Id, x: set<Id>, to: Id)
    requires id !in x && to != id
    ensures |Witnessed(w, {id} + x, to)| == |RoomsOf(w, id) * RoomsOf(w, to)| + |Witnessed(LeaveRooms(w, id), x, to)|
  {
    var rooms := RoomsOf(w, id) * RoomsOf(w, to);
    var here := set room | room in rooms :: (room, id);
    PairsCount(rooms, id);
    var all, later := Witnessed(w, {id} + x, to), Witnessed(LeaveRooms(w, id), x, to);
    assert all == here + later;
    assert here !! later;
  }

  lemma LeaveIsNoticed<S>(w: Registry<S>, gone: set<S>, id: Id, x: set<Id>, to: Id)
    requires id in w.sessions && id !in x
    ensures var forgot := w.(sessions := w.sessions - {id});
            LeaveNotices(LeaveRooms(forgot, id), gone, RoomsOf(forgot, id), x, to)
            == (if to == id then [] else Notices(w, gone, {id} + x, to))
  {
    if to != id && Live(w, gone, to) && to != 0 {
      var forgot := w.(sessions := w.sessions - {id});
      var left := LeaveRooms(forgot, id);
      assert Live(left, gone, to);
      WitnessedLeave(w, id, x, to);
      assert Witnessed(LeaveRooms(w, id), x, to) == Witnessed(left, x, to);
      assert RoomsOf(forgot, id) == RoomsOf(w, id) && RoomsOf(left, to) == RoomsOf(w, to);
    }
  }

  lemma DisconnectMailIsExitMail<S>(w: Registry<S>, gone: set<S>, id: Id, to: Id)
    requires id in w.sessions
    ensures ExitMail(w.(sessions := w.sessions - {id}), gone, id, to) == DisconnectMail(w, gone, id, to)
  {
    var forgot := w.(sessions := w.sessions - {id});
    var left := LeaveRooms(forgot, id);
    DisconnectIsExit(w, gone, id);
    LeaveIsNoticed(w, gone, id, Least(left, gone, FailingIn(left, gone, RoomsOf(forgot, id))), to);
  }

  lemma DisconnectMeansExit<S>(w: Registry<S>, gone: set<S>, id: Id)
    requires id in w.sessions
    ensures var forgot := w.(sessions := w.sessions - {id});
            && ExitState(forgot, gone, id) == DisconnectState(w, gone, id)
            && forall to :: ExitMail(forgot, gone, id, to) == DisconnectMail(w, gone, id, to)
  {
    DisconnectIsExit(w, gone, id);
    forall to ensures ExitMail(w.(sessions := w.sessions - {id}), gone, id, to) == DisconnectMail(w, gone, id, to) {
      DisconnectMailIsExitMail(w, gone, id, to);
    }
  }

  lemma {:induction false} PairsCount(rooms: set<Room>, id: Id)
    ensures |set room | room in rooms :: (room, id)| == |rooms|
  {
    var pairs := set room | room in rooms :: (room, id);
    if rooms != {} {
      var r :| r in rooms;
      PairsCount(rooms - {r}, id);
      assert pairs == (set room | room in rooms - {r} :: (room, id)) + {(r, id)};
    }
  }

  ghost function DropState<S>(w: Registry<S>, gone: set<S>, seeds: set<Id>): Registry<S> {
    Evict(w, Least(w, gone, seeds))
  }

  ghost function DropMail<S>(w: Registry<S>, gone: set<S>, seeds: set<Id>, to: Id): seq<string> {
    Notices(w, gone, Least(w, gone, seeds), to)
  }

  /** One more failed receiver of a message is disconnected. */
  lemma DropOne<S>(w: Registry<S>, gone: set<S>, done: set<Id>, id: Id)
    requires done + {id} <= DeadIds(w, gone)
    ensures var now := DropState(w, gone, done);
            && DisconnectState(now, gone, id) == DropState(w, gone, done + {id})
            && forall to :: DropMail(w, gone, done + {id}, to)
                         == DropMail(w, gone, done, to) + DisconnectMail(now, gone, id, to)
  {
    assert Dead(w, gone, id) by { assert id in done + {id}; }
    var first := Least(w, gone, done);
    var now := Evict(w, first);
    LeastContains(w, gone, done);
    LeastIsDead(w, gone, done);
    LeastInStages(w, gone, done, {id});
    assert {id} * now.sessions.Keys == {id} - first;
    forall to
      ensures DropMail(w, gone, done + {id}, to) == DropMail(w, gone, done, to) + DisconnectMail(now, gone, id, to)
    {
      NoticesInStages(w, gone, first, Least(now, gone, {id} - first), to);
    }
  }

  lemma DropNothing<S>(w: Registry<S>, gone: set<S>)
    ensures DropState(w, gone, {}) == w
    ensures forall to :: DropMail(w, gone, {}, to) == []
  {
    LeastOfNothing(w, gone);
    forall to ensures DropMail(w, gone, {}, to) == [] {
      assert Witnessed(w, {}, to) == {};
    }
  }

  lemma DropFits<S>(w: Registry<S>, gone: set<S>, seeds: set<Id>)
    ensures |DropState(w, gone, seeds).sessions| <= |w.sessions|
  {
    SubsetSize(DropState(w, gone, seeds).sessions.Keys, w.sessions.Keys);
  }
}
