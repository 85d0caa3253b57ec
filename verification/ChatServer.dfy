/** The chat server itself: two maps, updated in place by methods that call each other.

Every hash iteration is a loop that takes any remaining element, so each postcondition holds for every
iteration order. No method has a precondition: the promises hold in every state, also in states no
well-behaved caller produces.
*/
module ChatServer {
  import opened ChatRegistry

  class ChatServer<S(==)> {
    var sessions: map<Id, S>
    var rooms: map<Room, set<Id>>
    /** What each id has been sent successfully, oldest first. */
    ghost var inbox: map<Id, seq<string>>

    constructor ()
      ensures View() == Registry(map[], map["Main" := {}])
      ensures forall id :: Received(id) == []
    {
      sessions := map[];
      rooms := map[MAIN := {}];
      inbox := map[];
    }

    ghost function View(): Registry<S>
      reads this
    {
      Registry(sessions, rooms)
    }

    ghost function Received(id: Id): seq<string>
      reads this
    {
      Mail(inbox, id)
    }

    /** Send `message` to the members of `room` except `skip`, then disconnect those who could not be reached. */
    method SendMessage(room: Room, message: string, skip: Id, gone: set<S>)
      modifies this
      ensures View() == SendState(old(View()), gone, room, skip)
      ensures forall to :: Received(to) == old(Received(to)) + SendMail(old(View()), gone, room, message, skip, to)
      decreases |sessions|, 3
    {
      if room !in rooms {
        assert Failing(View(), gone, room, skip) == {};
        LeastOfNothing(View(), gone);
        return;
      }
      var failed := TrySend(room, message, skip, gone);
      DisconnectAll(failed, gone);
    }

    method DisconnectAll(failed: seq<Id>, gone: set<S>)
      requires Elements(failed) <= DeadIds(View(), gone)
      modifies this
      ensures View() == DropState(old(View()), gone, Elements(failed))
      ensures forall to :: Received(to) == old(Received(to)) + DropMail(old(View()), gone, Elements(failed), to)
      decreases |sessions|, 2
    {
      hide DropState, DropMail, DeadIds;
      ghost var w, box := View(), inbox;
      ghost var done: set<Id> := {};
      DropNothing(w, gone);
      for i := 0 to |failed|
        invariant done == Elements(failed[..i]) <= Elements(failed)
        invariant View() == DropState(w, gone, done)
        invariant forall to :: Received(to) == Mail(box, to) + DropMail(w, gone, done, to)
      {
        assert failed[i] in Elements(failed);
        DropFits(w, gone, done);
        DisconnectNext(w, box, done, failed[i], gone);
        done := done + {failed[i]};
      }
      assert failed[..|failed|] == failed;
    }

    /** One round of `DisconnectAll`: `w` and `box` are the registry and the inboxes it started from. */
    method DisconnectNext(ghost w: Registry<S>, ghost box: map<Id, seq<string>>, ghost done: set<Id>, id: Id, gone: set<S>)
      requires done + {id} <= DeadIds(w, gone)
      requires View() == DropState(w, gone, done)
      requires forall to :: Received(to) == Mail(box, to) + DropMail(w, gone, done, to)
      modifies this
      ensures View() == DropState(w, gone, done + {id})
      ensures forall to :: Received(to) == Mail(box, to) + DropMail(w, gone, done + {id}, to)
      decreases |sessions|, 1
    {
      DropOne(w, gone, done, id);
      Disconnect(id, gone);
      forall to ensures Received(to) == Mail(box, to) + DropMail(w, gone, done + {id}, to) {
        Append(Mail(box, to), DropMail(w, gone, done, to), DisconnectMail(old(View()), gone, id, to));
      }
    }

    /** The sends themselves, collecting the ids whose send failed. */
    method TrySend(room: Room, message: string, skip: Id, gone: set<S>) returns (failed: seq<Id>)
      requires room in rooms
      modifies this`inbox
      ensures Elements(failed) == Failing(View(), gone, room, skip)
      ensures forall to :: Received(to) == old(Received(to)) + Direct(View(), gone, room, message, skip, to)
    {
      failed := [];
      var todo := rooms[room];
      while todo != {}
        invariant todo <= rooms[room]
        invariant forall y :: y in failed <==> y in Failing(View(), gone, room, skip) && y !in todo
        invariant forall to :: Received(to)
                    == old(Received(to)) + (if to in todo then [] else Direct(View(), gone, room, message, skip, to))
      {
        var id :| id in todo;
        todo := todo - {id};
        if id != skip && id in sessions {
          if sessions[id] in gone {
            failed := failed + [id];
          } else {
            inbox := inbox[id := Received(id) + [message]];
          }
        }
      }
    }

    method Connect(id: Id, tx: S, gone: set<S>)
      modifies this
      ensures View() == ConnectState(old(View()), gone, id, tx)
      ensures forall to :: Received(to) == old(Received(to)) + SendMail(old(View()), gone, MAIN, JOINED, 0, to)
    {
      SendMessage(MAIN, JOINED, 0, gone);
      sessions := sessions[id := tx];
      JoinRoom(id, MAIN);
    }

    method Disconnect(id: Id, gone: set<S>)
      modifies this
      ensures View() == DisconnectState(old(View()), gone, id)
      ensures forall to :: Received(to) == old(Received(to)) + DisconnectMail(old(View()), gone, id, to)
      decreases |sessions|, 0
    {
      ghost var w := View();
      LeastOfNothing(w, gone);
      if id in sessions {
        DisconnectMeansExit(w, gone, id);
        Forget(id);
        ExitRooms(id, gone);
      } else {
        assert {id} * w.sessions.Keys == {};
      }
    }

    method Forget(id: Id)
      requires id in sessions
      modifies this`sessions
      ensures View() == old(View()).(sessions := old(sessions) - {id})
      ensures |sessions| < |old(sessions)|
    {
      sessions := sessions - {id};
      assert sessions.Keys == old(sessions.Keys) - {id};
      assert |sessions.Keys| < |old(sessions.Keys)|;
    }

    method JoinRoom(id: Id, name: Room)
      modifies this`rooms
      ensures View() == Enter(old(View()), id, name)
    {
      if name !in rooms {
        rooms := rooms[name := {}];
      }
      rooms := rooms[name := rooms[name] + {id}];
    }

    method Join(id: Id, name: Room, gone: set<S>)
      modifies this
      ensures View() == JoinState(old(View()), gone, id, name)
      ensures forall to :: Received(to) == old(Received(to)) + JoinMail(old(View()), gone, id, name, to)
    {
      ExitRooms(id, gone);
      label exited:
      JoinRoom(id, name);
      assert forall to :: Received(to) == old@exited(Received(to));
      SendMessage(name, CONNECTED, id, gone);
    }

    /** Remove `id` from every room, then tell each room it was in. */
    method ExitRooms(id: Id, gone: set<S>)
      modifies this
      ensures View() == ExitState(old(View()), gone, id)
      ensures forall to :: Received(to) == old(Received(to)) + ExitMail(old(View()), gone, id, to)
      decreases |sessions|, 6
    {
      var names := RemoveFromRooms(id);
      TellAll(names, gone);
    }

    /** Send the notice of a leave to every room in `names`. */
    method TellAll(names: seq<Room>, gone: set<S>)
      requires forall i, j :: 0 <= i < j < |names| ==> names[i] != names[j]
      modifies this
      ensures View() == ToldState(old(View()), gone, Elements(names))
      ensures forall to :: Received(to) == old(Received(to)) + ToldMail(old(View()), gone, Elements(names), to)
      decreases |sessions|, 5
    {
      hide ToldState, ToldMail;
      ghost var w, box := View(), inbox;
      ghost var told: set<Room> := {};
      TellNothing(w, gone);
      for i := 0 to |names|
        invariant told == Elements(names[..i])
        invariant View() == ToldState(w, gone, told)
        invariant forall to :: Received(to) == Mail(box, to) + ToldMail(w, gone, told, to)
      {
        ToldFits(w, gone, told);
        SendNext(w, box, told, names[i], gone);
        told := told + {names[i]};
      }
      assert names[..|names|] == names;
    }

    /** One round of `TellAll`: `w` and `box` are the registry and the inboxes it started from. */
    method SendNext(ghost w: Registry<S>, ghost box: map<Id, seq<string>>, ghost told: set<Room>, name: Room, gone: set<S>)
      requires name !in told
      requires View() == ToldState(w, gone, told)
      requires forall to :: Received(to) == Mail(box, to) + ToldMail(w, gone, told, to)
      modifies this
      ensures View() == ToldState(w, gone, told + {name})
      ensures forall to :: Received(to) == Mail(box, to) + ToldMail(w, gone, told + {name}, to)
      decreases |sessions|, 4
    {
      TellNext(w, gone, told, name);
      SendMessage(name, LEFT, 0, gone);
      forall to ensures Received(to) == Mail(box, to) + ToldMail(w, gone, told + {name}, to) {
        Append(Mail(box, to), ToldMail(w, gone, told, to), SendMail(old(View()), gone, name, LEFT, 0, to));
      }
    }

    method RemoveFromRooms(id: Id) returns (names: seq<Room>)
      modifies this`rooms
      ensures View() == LeaveRooms(old(View()), id)
      ensures Elements(names) == RoomsOf(old(View()), id)
      ensures forall i, j :: 0 <= i < j < |names| ==> names[i] != names[j]
    {
      names := [];
      var todo := rooms.Keys;
      while todo != {}
        invariant todo <= rooms.Keys == old(rooms.Keys)
        invariant forall room :: room in names <==> room in RoomsOf(old(View()), id) && room !in todo
        invariant forall room | room in rooms ::
                    rooms[room] == if room in todo then old(rooms[room]) else old(rooms[room]) - {id}
        invariant forall i, j :: 0 <= i < j < |names| ==> names[i] != names[j]
      {
        var room :| room in todo;
        todo := todo - {room};
        if id in rooms[room] {
          names := names + [room];
          rooms := rooms[room := rooms[room] - {id}];
        }
      }
    }
  }
}
