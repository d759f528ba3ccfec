/**
 * The cron handler over an in-memory game store: the loop over expired
 * rooms, the per-room failure boundary, the score upsert loop and the
 * recovery write, each proved against the pass specification.
 */
module Store {
  import opened Wrappers
  import opened Rooms
  import opened Engine
  import opened Scoring
  import opened Scheduler
  import opened PassProperties

  /** The HTTP replies of the handler: 401, 500, or the processed-room count. */
  datatype Response = Unauthorized | ServerError | Processed(rooms: nat)

  class GameStore {
    /** The `rooms` table, keyed by room id. */
    var rooms: map<RoomId, Room>
    /** The `game_results` table, keyed by (room id, user id). */
    var results: map<ResultKey, GameResult>
    /** drawings, stars, room_players and users, which the pass only reads. */
    const tables: Tables

    constructor (tables: Tables, rooms: map<RoomId, Room>, results: map<ResultKey, GameResult>)
      ensures this.tables == tables && this.rooms == rooms && this.results == results
    {
      this.tables := tables;
      this.rooms := rooms;
      this.results := results;
    }

    function Current(): State
      reads this
    {
      State(rooms, results)
    }

    /**
     * The loop over the room's players, upserting each one's score. The
     * (k+1)-th write throws when the room's fault is k, so at most k rows are
     * written.
     */
    method SaveScores(id: RoomId, fault: Option<nat>) returns (written: nat)
      modifies this`results
      ensures var ps := Players(tables.members, tables.users, id);
              written == if fault.Some? && fault.value < |ps| then fault.value else |ps|
      ensures results == UpsertScores(old(results), tables, id, Players(tables.members, tables.users, id)[..written])
    {
      var players := Players(tables.members, tables.users, id);
      ghost var start := results;
      written := 0;
      while written < |players| && !Breaks(fault, written + 1)
        invariant written <= |players|
        invariant fault.Some? ==> written <= fault.value
        invariant results == UpsertScores(start, tables, id, players[..written])
      {
        var p := players[written];
        var score := PlayerScore(tables, id, p.user);
        UpsertScoresStep(start, tables, id, players, written);
        results := Upsert(results, id, p, score);
        written := written + 1;
      }
    }

    /** The try block for one room: count the drawings, take the engine's branch, write. */
    method Advance(id: RoomId, snap: Room, now: int, o: Oracle) returns (outcome: Outcome)
      modifies this`rooms, this`results
      ensures outcome == OutcomeOf(tables, id, snap, now, o)
      ensures Current() == Attempt(tables, old(Current()), id, snap, now, o)
    {
      var fault := FaultOf(o, id);
      var totalDrawings := CountDrawings(tables.drawings, id, snap.currentRound);
      var plan := PlanFor(snap, totalDrawings, now, DrawOf(o, id));
      match plan {
        case Ignore =>
          outcome := Ignored;
        case PromptMissing =>
          outcome := Failed;
        case Update(u) =>
          if Breaks(fault, 1) {
            outcome := Failed;
          } else {
            rooms := Write(rooms, id, u);
            outcome := Done;
          }
        case ScoreAndFinish =>
          var written := SaveScores(id, fault);
          var ps := Players(tables.members, tables.users, id);
          if Breaks(fault, |ps| + 1) {
            assert written == fault.value;
            outcome := Failed;
          } else {
            assert ps[..written] == ps;
            rooms := Write(rooms, id, Finish);
            outcome := Done;
          }
      }
    }

    /** The recovery block; a throwing re-read or update is swallowed. */
    method RecoverRoom(id: RoomId, snapPhase: Phase, now: int, fails: bool)
      modifies this`rooms
      ensures rooms == Recover(old(rooms), id, snapPhase, now, fails)
    {
      if fails {
        return;
      }
      var check := Get(rooms, id);
      if check.Some? && check.value.phase == snapPhase {
        rooms := Write(rooms, id, ExtendDeadline(now));
      }
    }

    /** One iteration of the loop over expired rooms: the try block, and the recovery block when it threw. */
    method ProcessOne(id: RoomId, snap: Room, now: int, o: Oracle) returns (outcome: Outcome)
      modifies this`rooms, this`results
      ensures outcome == OutcomeOf(tables, id, snap, now, o)
      ensures Current() == ProcessRoom(tables, old(Current()), id, snap, now, o)
    {
      outcome := Advance(id, snap, now, o);
      if outcome == Failed {
        RecoverRoom(id, snap.phase, now, id in o.recoveryFaults);
      }
    }

    /**
     * The cron endpoint. Unauthorized callers and a failing listing query
     * change nothing; otherwise every expired room is processed once, in the
     * order the listing returned them (`order`), and the reply counts the
     * rooms whose transition completed.
     */
    method CheckGamePhases(authorized: bool, listingFails: bool, now: int, o: Oracle)
      returns (resp: Response, ghost order: seq<RoomId>)
      modifies this`rooms, this`results
      ensures !authorized || listingFails ==> rooms == old(rooms) && results == old(results)
      ensures !authorized ==> resp == Unauthorized
      ensures authorized && listingFails ==> resp == ServerError
      ensures authorized && !listingFails ==>
                && Enumerates(order, ExpiredRooms(old(rooms), now).Keys)
                && resp == Processed(PassCounter(tables, old(Current()), order, now, o))
                && Current() == Pass(tables, old(Current()), order, now, o)
      ensures authorized && !listingFails ==> resp == Processed(|DoneRooms(tables, old(Current()), now, o)|)
    {
      order := [];
      if !authorized {
        return Unauthorized, order;
      }
      if listingFails {
        return ServerError, order;
      }
      ghost var st0 := Current();
      var expired := ExpiredRooms(rooms, now);
      var pending := expired.Keys;
      ghost var done := DoneIn(tables, expired, now, o);
      var processedRooms := 0;
      while pending != {}
        invariant pending <= expired.Keys
        invariant forall id :: id in order ==> id in expired
        invariant forall id :: id in expired ==> (id in order <==> id !in pending)
        invariant NoDup(order)
        invariant Current() == RunPass(tables, st0, expired, order, now, o)
        invariant processedRooms == CountIn(order, done)
        decreases pending
      {
        var id :| id in pending;
        RunPassStep(tables, st0, expired, order, id, done, now, o);
        NoDupSnoc(order, id);
        var outcome := ProcessOne(id, expired[id], now, o);
        if outcome == Done {
          processedRooms := processedRooms + 1;
        }
        order := order + [id];
        pending := pending - {id};
      }
      resp := Processed(processedRooms);
      PassCountsDone(tables, st0, order, now, o);
    }
  }
}
