/**
 * What one pass of the phase scheduler guarantees, stated on the store
 * before and after the pass, room by room.
 */
module PassProperties {
  import opened Wrappers
  import opened Rooms
  import opened Engine
  import opened Scoring
  import opened Scheduler

  /** The room was returned by the expired-room query. */
  predicate Listed(st: State, id: RoomId, now: int)
  {
    id in st.rooms && Expired(st.rooms[id], now)
  }

  /**
   * A pass leaves each expired room as its own iteration leaves it, and every
   * other room and its result rows as they were, whatever the listing order.
   */
  lemma PassRoom(t: Tables, st: State, order: seq<RoomId>, now: int, o: Oracle, id: RoomId)
    requires Enumerates(order, ExpiredRooms(st.rooms, now).Keys)
    ensures var s := Pass(t, st, order, now, o);
            && s.rooms.Keys == st.rooms.Keys
            && Get(s.rooms, id) ==
                 (if Listed(st, id, now) then Get(ProcessRoom(t, st, id, st.rooms[id], now, o).rooms, id)
                  else Get(st.rooms, id))
            && forall u: UserId :: Get(s.results, (id, u)) ==
                 (if Listed(st, id, now) then Get(ProcessRoom(t, st, id, st.rooms[id], now, o).results, (id, u))
                  else Get(st.results, (id, u)))
  {
    var snap := ExpiredRooms(st.rooms, now);
    PassAt(t, st, snap, order, now, o);
  }

  /** A listed room whose transition runs to the end is among the counted rooms. */
  lemma DoneCounted(t: Tables, st: State, id: RoomId, now: int, o: Oracle)
    requires Listed(st, id, now) && OutcomeOf(t, id, st.rooms[id], now, o) == Done
    ensures id in DoneRooms(t, st, now, o)
  {
    assert ExpiredRooms(st.rooms, now)[id] == st.rooms[id];
  }

  /** A listed room whose plan is a single write that succeeds: the pass applies it and counts the room. */
  lemma UpdatedPass(t: Tables, st: State, order: seq<RoomId>, now: int, o: Oracle, id: RoomId)
    requires Enumerates(order, ExpiredRooms(st.rooms, now).Keys)
    requires Listed(st, id, now) && PlanOf(t, id, st.rooms[id], now, o).Update?
    requires !Breaks(FaultOf(o, id), 1)
    ensures var room, s := st.rooms[id], Pass(t, st, order, now, o);
            && id in s.rooms
            && id in DoneRooms(t, st, now, o)
            && s.rooms[id] == Apply(room, PlanOf(t, id, room, now, o).update)
            && forall u: UserId :: Get(s.results, (id, u)) == Get(st.results, (id, u))
  {
    PassRoom(t, st, order, now, o, id);
    DoneCounted(t, st, id, now, o);
    UpdatedRoomAt(t, st, id, st.rooms[id], now, o);
  }

  /** Only playing rooms with an elapsed, non-null deadline are touched; a finished room never is. */
  lemma UnlistedRoomUntouched(t: Tables, st: State, order: seq<RoomId>, now: int, o: Oracle, id: RoomId)
    requires Enumerates(order, ExpiredRooms(st.rooms, now).Keys)
    requires !Listed(st, id, now)
    ensures var s := Pass(t, st, order, now, o);
            && Get(s.rooms, id) == Get(st.rooms, id)
            && forall u: UserId :: Get(s.results, (id, u)) == Get(st.results, (id, u))
  {
    PassRoom(t, st, order, now, o, id);
  }

  /** drawing -> voting: index 0 and a voting deadline; round, prompt and status stay. */
  lemma DrawingOpensVoting(t: Tables, st: State, order: seq<RoomId>, now: int, o: Oracle, id: RoomId)
    requires Enumerates(order, ExpiredRooms(st.rooms, now).Keys)
    requires Listed(st, id, now) && st.rooms[id].phase == Drawing
    requires !Breaks(FaultOf(o, id), 1)
    ensures var room, s := st.rooms[id], Pass(t, st, order, now, o);
            && id in s.rooms
            && id in DoneRooms(t, st, now, o)
            && s.rooms[id] == room.(phase := Voting, drawingIndex := 0, phaseEnd := Some(now + room.votingTime))
            && forall u: UserId :: Get(s.results, (id, u)) == Get(st.results, (id, u))
  {
    assert PlanOf(t, id, st.rooms[id], now, o) == Update(OpenVoting(now));
    UpdatedPass(t, st, order, now, o, id);
  }

  /**
   * voting, below the last round, with no drawings or past the last one:
   * the next round starts with the drawn prompt and a drawing deadline, and
   * the round stays within the total.
   */
  lemma RoundAdvances(t: Tables, st: State, order: seq<RoomId>, now: int, o: Oracle, id: RoomId)
    requires Enumerates(order, ExpiredRooms(st.rooms, now).Keys)
    requires Listed(st, id, now) && st.rooms[id].phase == Voting
    requires var room, n := st.rooms[id], CountDrawings(t.drawings, id, st.rooms[id].currentRound);
             room.currentRound < room.rounds && (n == 0 || room.drawingIndex >= n - 1)
    requires DrawOf(o, id).Some? && !Breaks(FaultOf(o, id), 1)
    ensures var room, s := st.rooms[id], Pass(t, st, order, now, o);
            && id in s.rooms
            && id in DoneRooms(t, st, now, o)
            && s.rooms[id] == room.(phase := Drawing, currentRound := room.currentRound + 1,
                                    promptId := DrawOf(o, id), phaseEnd := Some(now + room.drawingTime))
            && s.rooms[id].currentRound <= room.rounds
            && forall u: UserId :: Get(s.results, (id, u)) == Get(st.results, (id, u))
  {
    assert PlanOf(t, id, st.rooms[id], now, o) == Update(StartRound(DrawOf(o, id).value, now));
    UpdatedPass(t, st, order, now, o, id);
  }

  /** voting on the final round with no drawings: the game ends and no result row is written. */
  lemma EmptyFinalRoundEnds(t: Tables, st: State, order: seq<RoomId>, now: int, o: Oracle, id: RoomId)
    requires Enumerates(order, ExpiredRooms(st.rooms, now).Keys)
    requires Listed(st, id, now) && st.rooms[id].phase == Voting
    requires CountDrawings(t.drawings, id, st.rooms[id].currentRound) == 0
    requires st.rooms[id].currentRound >= st.rooms[id].rounds
    requires !Breaks(FaultOf(o, id), 1)
    ensures var room, s := st.rooms[id], Pass(t, st, order, now, o);
            && id in s.rooms
            && id in DoneRooms(t, st, now, o)
            && s.rooms[id] == room.(phase := Results, status := Completed, phaseEnd := None)
            && forall u: UserId :: Get(s.results, (id, u)) == Get(st.results, (id, u))
  {
    assert PlanOf(t, id, st.rooms[id], now, o) == Update(Finish);
    UpdatedPass(t, st, order, now, o, id);
  }

  /**
   * voting on the last drawing of the final round: the game ends, and every
   * member has exactly one result row for the room with its score and rank 0
   * (an earlier row keeps its username); rows of non-members are untouched.
   */
  lemma FinalRoundScored(t: Tables, st: State, order: seq<RoomId>, now: int, o: Oracle, id: RoomId)
    requires Enumerates(order, ExpiredRooms(st.rooms, now).Keys)
    requires Listed(st, id, now) && st.rooms[id].phase == Voting
    requires var room, n := st.rooms[id], CountDrawings(t.drawings, id, st.rooms[id].currentRound);
             n > 0 && room.drawingIndex >= n - 1 && room.currentRound >= room.rounds
    requires !Breaks(FaultOf(o, id), |Players(t.members, t.users, id)| + 1)
    ensures var room, s := st.rooms[id], Pass(t, st, order, now, o);
            && id in s.rooms
            && id in DoneRooms(t, st, now, o)
            && s.rooms[id] == room.(phase := Results, status := Completed, phaseEnd := None)
            && forall u: UserId :: Get(s.results, (id, u)) ==
                 if u in MemberIds(t, id)
                 then Some(GameResult(if (id, u) in st.results then st.results[(id, u)].username else t.users[u],
                                      PlayerScore(t, id, u), 0))
                 else Get(st.results, (id, u))
  {
    PassRoom(t, st, order, now, o, id);
    assert PlanOf(t, id, st.rooms[id], now, o) == ScoreAndFinish;
    DoneCounted(t, st, id, now, o);
    ScoredRoomAt(t, st, id, st.rooms[id], now, o);
    forall u: UserId
      ensures Get(ProcessRoom(t, st, id, st.rooms[id], now, o).results, (id, u)) ==
                if u in MemberIds(t, id)
                then Some(GameResult(if (id, u) in st.results then st.results[(id, u)].username else t.users[u],
                                     PlayerScore(t, id, u), 0))
                else Get(st.results, (id, u))
    {
      ScoredResultsAt(t, st, id, st.rooms[id], now, o, u);
    }
  }

  /** voting with more drawings to show: only the index moves on, with a fresh voting deadline. */
  lemma NextDrawingShown(t: Tables, st: State, order: seq<RoomId>, now: int, o: Oracle, id: RoomId)
    requires Enumerates(order, ExpiredRooms(st.rooms, now).Keys)
    requires Listed(st, id, now) && st.rooms[id].phase == Voting
    requires var n := CountDrawings(t.drawings, id, st.rooms[id].currentRound);
             n > 0 && st.rooms[id].drawingIndex < n - 1
    requires !Breaks(FaultOf(o, id), 1)
    ensures var room, s := st.rooms[id], Pass(t, st, order, now, o);
            && id in s.rooms
            && id in DoneRooms(t, st, now, o)
            && s.rooms[id] == room.(drawingIndex := room.drawingIndex + 1, phaseEnd := Some(now + room.votingTime))
            && forall u: UserId :: Get(s.results, (id, u)) == Get(st.results, (id, u))
  {
    assert PlanOf(t, id, st.rooms[id], now, o) == Update(ShowNextDrawing(now));
    UpdatedPass(t, st, order, now, o, id);
  }

  /** A room in the results phase is listed but neither changed nor counted. */
  lemma ResultsPhaseIgnored(t: Tables, st: State, order: seq<RoomId>, now: int, o: Oracle, id: RoomId)
    requires Enumerates(order, ExpiredRooms(st.rooms, now).Keys)
    requires Listed(st, id, now) && st.rooms[id].phase == Results
    ensures var s := Pass(t, st, order, now, o);
            && Get(s.rooms, id) == Get(st.rooms, id)
            && (forall u: UserId :: Get(s.results, (id, u)) == Get(st.results, (id, u)))
            && id !in DoneRooms(t, st, now, o)
  {
    PassRoom(t, st, order, now, o, id);
  }

  /**
   * In this fault model a write that throws has no effect, so after a failed
   * transition the re-read still shows the snapshot's phase: recovery pushes
   * only the deadline to now + 30, unless recovery itself throws, and then
   * the room is left as it was.
   */
  lemma FailedRoomRecovered(t: Tables, st: State, order: seq<RoomId>, now: int, o: Oracle, id: RoomId)
    requires Enumerates(order, ExpiredRooms(st.rooms, now).Keys)
    requires Listed(st, id, now) && OutcomeOf(t, id, st.rooms[id], now, o) == Failed
    ensures var room, s := st.rooms[id], Pass(t, st, order, now, o);
            && id in s.rooms
            && s.rooms[id] == (if id in o.recoveryFaults then room
                               else room.(phaseEnd := Some(now + RecoveryDelay)))
            && id !in DoneRooms(t, st, now, o)
            && (PlanOf(t, id, room, now, o) != ScoreAndFinish ==>
                  forall u: UserId :: Get(s.results, (id, u)) == Get(st.results, (id, u)))
  {
    PassRoom(t, st, order, now, o, id);
    if PlanOf(t, id, st.rooms[id], now, o) != ScoreAndFinish {
      forall u: UserId
        ensures Get(ProcessRoom(t, st, id, st.rooms[id], now, o).results, (id, u)) == Get(st.results, (id, u))
      {
        ProcessResultsAt(t, st, id, st.rooms[id], now, o, (id, u));
      }
    }
  }

  /**
   * A scoring branch that throws after k upserts keeps those k rows (there is
   * no rollback) and leaves every other result row of the room as it was.
   */
  lemma FailedScoringKeepsRows(t: Tables, st: State, order: seq<RoomId>, now: int, o: Oracle, id: RoomId)
    requires Enumerates(order, ExpiredRooms(st.rooms, now).Keys)
    requires Listed(st, id, now) && PlanOf(t, id, st.rooms[id], now, o) == ScoreAndFinish
    requires Breaks(FaultOf(o, id), |Players(t.members, t.users, id)| + 1)
    ensures var s, k := Pass(t, st, order, now, o), FaultOf(o, id).value;
            var written := UsersOf(Players(t.members, t.users, id)[..k]);
            forall u: UserId :: Get(s.results, (id, u)) ==
              if u in written && u in t.users
              then Some(GameResult(if (id, u) in st.results then st.results[(id, u)].username else t.users[u],
                                   PlayerScore(t, id, u), 0))
              else Get(st.results, (id, u))
  {
    PassRoom(t, st, order, now, o, id);
    var ps := Players(t.members, t.users, id);
    var k := FaultOf(o, id).value;
    forall u: UserId
      ensures Get(ProcessRoom(t, st, id, st.rooms[id], now, o).results, (id, u)) ==
                if u in UsersOf(ps[..k]) && u in t.users
                then Some(GameResult(if (id, u) in st.results then st.results[(id, u)].username else t.users[u],
                                     PlayerScore(t, id, u), 0))
                else Get(st.results, (id, u))
    {
      PartialResultsAt(t, st, id, st.rooms[id], now, o, u);
    }
  }

  /** The processed-room counter is the number of expired rooms whose transition completed. */
  lemma PassCountsDone(t: Tables, st: State, order: seq<RoomId>, now: int, o: Oracle)
    requires Enumerates(order, ExpiredRooms(st.rooms, now).Keys)
    ensures PassCounter(t, st, order, now, o) == |DoneRooms(t, st, now, o)|
    ensures forall id :: id in DoneRooms(t, st, now, o) ==> Listed(st, id, now) && st.rooms[id].phase != Results
  {
    var done := DoneRooms(t, st, now, o);
    CountInSize(order, done);
    assert Within(order, done) == done;
  }

  /** One room's iteration keeps the room invariants. */
  lemma ProcessRoomSteady(t: Tables, st: State, id: RoomId, now: int, o: Oracle)
    requires Listed(st, id, now) && Steady(st.rooms[id])
    ensures var r := ProcessRoom(t, st, id, st.rooms[id], now, o).rooms;
            id in r && Steady(r[id])
  {
    var room := st.rooms[id];
    PlanKeepsSteady(room, CountDrawings(t.drawings, id, room.currentRound), now, DrawOf(o, id));
  }

  /** A pass keeps the room invariants of every room: status, phase, deadline and round bound agree. */
  lemma PassKeepsSteady(t: Tables, st: State, order: seq<RoomId>, now: int, o: Oracle)
    requires Enumerates(order, ExpiredRooms(st.rooms, now).Keys)
    ensures var s := Pass(t, st, order, now, o);
            forall id :: id in st.rooms && Steady(st.rooms[id]) ==> id in s.rooms && Steady(s.rooms[id])
  {
    forall id | id in st.rooms && Steady(st.rooms[id])
      ensures var s := Pass(t, st, order, now, o); id in s.rooms && Steady(s.rooms[id])
    {
      PassRoom(t, st, order, now, o, id);
      if Listed(st, id, now) {
        ProcessRoomSteady(t, st, id, now, o);
      }
    }
  }

  /**
   * After its iteration a steady room is no longer expired at the same time:
   * every new deadline is `now` plus a non-negative duration, or null once
   * the game is over; only a room whose recovery threw stays due.
   */
  lemma ProcessedRoomSettles(t: Tables, st: State, id: RoomId, now: int, o: Oracle)
    requires Listed(st, id, now) && Steady(st.rooms[id])
    requires OutcomeOf(t, id, st.rooms[id], now, o) == Failed ==> id !in o.recoveryFaults
    ensures var r := ProcessRoom(t, st, id, st.rooms[id], now, o).rooms;
            id in r && !Expired(r[id], now)
  {
  }

  /**
   * Two passes in immediate succession: a room the first pass settled is left
   * exactly as the first pass left it by the second.
   */
  lemma SecondPassLeavesSettled(t: Tables, st: State, order1: seq<RoomId>, order2: seq<RoomId>,
                                now: int, o1: Oracle, o2: Oracle, id: RoomId)
    requires Enumerates(order1, ExpiredRooms(st.rooms, now).Keys)
    requires Enumerates(order2, ExpiredRooms(Pass(t, st, order1, now, o1).rooms, now).Keys)
    requires id in st.rooms && Steady(st.rooms[id])
    requires Listed(st, id, now) && OutcomeOf(t, id, st.rooms[id], now, o1) == Failed ==> id !in o1.recoveryFaults
    ensures var s1 := Pass(t, st, order1, now, o1);
            var s2 := Pass(t, s1, order2, now, o2);
            && Get(s2.rooms, id) == Get(s1.rooms, id)
            && forall u: UserId :: Get(s2.results, (id, u)) == Get(s1.results, (id, u))
  {
    var s1 := Pass(t, st, order1, now, o1);
    PassRoom(t, st, order1, now, o1, id);
    if Listed(st, id, now) {
      ProcessedRoomSettles(t, st, id, now, o1);
    }
    UnlistedRoomUntouched(t, s1, order2, now, o2, id);
  }

  /**
   * A one-round game voting on its only drawing, which got ratings 4 and 5:
   * one pass ends the game and gives the artist one result row with score
   * round(4.5 * 20) = 90 and rank 0.
   */
  lemma SingleRoundGameEnds()
    ensures var t := Tables([Submission(7, 1, 1, 42)], [Star(7, 4), Star(7, 5)],
                            [Membership(1, 42)], map[42 := "ann"]);
            var room := Room(Playing, Voting, 1, 1, 0, Some(3), Some(100), 60, 30);
            var st := State(map[1 := room], map[]);
            var s := Pass(t, st, [1], 200, Oracle(map[], map[], {}));
            && s.rooms == map[1 := room.(phase := Results, status := Completed, phaseEnd := None)]
            && s.results == map[(1, 42) := GameResult("ann", 90, 0)]
  {
    var t := Tables([Submission(7, 1, 1, 42)], [Star(7, 4), Star(7, 5)],
                    [Membership(1, 42)], map[42 := "ann"]);
    var room := Room(Playing, Voting, 1, 1, 0, Some(3), Some(100), 60, 30);
    var st := State(map[1 := room], map[]);
    var o := Oracle(map[], map[], {});
    SingleRoundFacts(t, room, o);
    var snap := ExpiredRooms(st.rooms, 200);
    assert snap == map[1 := room];
    PassAt(t, st, snap, [1], 200, o);
    ScoredRoomAt(t, st, 1, room, 200, o);
    var s := Pass(t, st, [1], 200, o);
    var expected := map[(1, 42) := GameResult("ann", 90, 0)];
    forall k: ResultKey ensures Get(s.results, k) == Get(expected, k) {
      if k.0 == 1 {
        ScoredResultsAt(t, st, 1, room, 200, o, k.1);
      }
    }
    assert s.results.Keys == expected.Keys;
  }

  /** The scenario of `SingleRoundGameEnds`, before the pass: the plan, the member set and the score. */
  lemma SingleRoundFacts(t: Tables, room: Room, o: Oracle)
    requires t == Tables([Submission(7, 1, 1, 42)], [Star(7, 4), Star(7, 5)],
                         [Membership(1, 42)], map[42 := "ann"])
    requires room == Room(Playing, Voting, 1, 1, 0, Some(3), Some(100), 60, 30)
    requires o == Oracle(map[], map[], {})
    ensures PlanOf(t, 1, room, 200, o) == ScoreAndFinish
    ensures !Breaks(FaultOf(o, 1), |Players(t.members, t.users, 1)| + 1)
    ensures MemberIds(t, 1) == {42}
    ensures PlayerScore(t, 1, 42) == 90
  {
    assert CountDrawings(t.drawings, 1, 1) == 1;
    assert Players(t.members, t.users, 1) == [Player(42, "ann")];
    assert RatingsIn(t.drawings, t.stars, 1, 42) == [4, 5];
  }
}
