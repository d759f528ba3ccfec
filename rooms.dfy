/**
 * The data model of the game store: rooms and the read-only tables
 * (drawings, stars, room players, users) that the phase pass consults,
 * plus the game results it writes.
 */
module Rooms {
  import opened Wrappers

  type RoomId = nat
  type UserId = nat
  type PromptId = nat
  type DrawingId = nat

  datatype Status = Waiting | Playing | Completed
  datatype Phase = Drawing | Voting | Results

  /** One row of the `rooms` table (its id is the key it is stored under). */
  datatype Room = Room(
    status: Status,
    phase: Phase,
    currentRound: int,
    rounds: int,
    drawingIndex: int,
    promptId: Option<PromptId>,
    phaseEnd: Option<int>,   // absolute time in seconds; None is SQL NULL
    drawingTime: int,        // seconds
    votingTime: int)         // seconds

  /** The grace period the recovery path gives a stuck room. */
  const RecoveryDelay: int := 30

  /** The UPDATE statements the pass issues against one room row. */
  datatype RoomUpdate =
    | OpenVoting(now: int)
    | StartRound(prompt: PromptId, now: int)
    | ShowNextDrawing(now: int)
    | Finish
    | ExtendDeadline(now: int)

  /** The row an UPDATE leaves; it reads the durations and counters of the row itself. */
  function Apply(row: Room, u: RoomUpdate): Room
  {
    match u
    case OpenVoting(now) =>
      row.(phase := Voting, drawingIndex := 0, phaseEnd := Some(now + row.votingTime))
    case StartRound(prompt, now) =>
      row.(phase := Drawing, currentRound := row.currentRound + 1, promptId := Some(prompt),
           phaseEnd := Some(now + row.drawingTime))
    case ShowNextDrawing(now) =>
      row.(drawingIndex := row.drawingIndex + 1, phaseEnd := Some(now + row.votingTime))
    case Finish =>
      row.(phase := Results, status := Completed, phaseEnd := None)
    case ExtendDeadline(now) =>
      row.(phaseEnd := Some(now + RecoveryDelay))
  }

  /** `UPDATE rooms SET ... WHERE id = $1`: a missing id matches no row and changes nothing. */
  function Write(rooms: map<RoomId, Room>, id: RoomId, u: RoomUpdate): (r: map<RoomId, Room>)
    ensures r.Keys == rooms.Keys
    ensures forall j :: j != id ==> Get(r, j) == Get(rooms, j)
    ensures id in rooms ==> r[id] == Apply(rooms[id], u)
  {
    if id in rooms then rooms[id := Apply(rooms[id], u)] else rooms
  }

  /** The selection condition: playing, with a non-null deadline earlier than `now`. */
  predicate Expired(room: Room, now: int)
  {
    room.status == Playing && room.phaseEnd.Some? && room.phaseEnd.value < now
  }

  /** The rows the expired-room query returns, keyed by room id. */
  function ExpiredRooms(rooms: map<RoomId, Room>, now: int): (snap: map<RoomId, Room>)
    ensures forall id :: id in snap <==> id in rooms && Expired(rooms[id], now)
    ensures forall id :: id in snap ==> snap[id] == rooms[id]
  {
    map id | id in rooms && Expired(rooms[id], now) :: rooms[id]
  }

  /**
   * The room invariants the engine maintains: a playing room is in drawing or
   * voting with a deadline, a completed room is in results with no deadline,
   * the round never passes the total, and durations are not negative.
   */
  predicate Steady(room: Room)
  {
    && (room.status == Playing ==> room.phase != Results && room.phaseEnd.Some?)
    && (room.status == Completed ==> room.phase == Results && room.phaseEnd.None?)
    && (room.phase == Results ==> room.status == Completed)
    && room.currentRound <= room.rounds
    && room.drawingTime >= 0 && room.votingTime >= 0
  }

  /** A row of `drawings` (a submission: one drawing by one artist in one round). */
  datatype Submission = Submission(id: DrawingId, room: RoomId, round: int, artist: UserId)
  /** A row of `stars`: one rating given to one drawing. */
  datatype Star = Star(drawing: DrawingId, rating: int)
  /** A row of `room_players`. */
  datatype Membership = Membership(room: RoomId, user: UserId)
  /** A row of `game_results` (keyed by room and user). */
  datatype GameResult = GameResult(username: string, score: int, rank: int)
  type ResultKey = (RoomId, UserId)

  /** The tables the pass reads but never writes; `users` maps a user id to its username. */
  datatype Tables = Tables(
    drawings: seq<Submission>,
    stars: seq<Star>,
    members: seq<Membership>,
    users: map<UserId, string>)

  /** `SELECT COUNT(*) FROM drawings WHERE room_id = $1 AND round_number = $2`. */
  function CountDrawings(drawings: seq<Submission>, room: RoomId, round: int): (n: nat)
    ensures n <= |drawings|
    ensures n == 0 <==> forall d :: d in drawings ==> !(d.room == room && d.round == round)
  {
    if drawings == [] then 0
    else
      (if drawings[0].room == room && drawings[0].round == round then 1 else 0)
      + CountDrawings(drawings[1..], room, round)
  }

  /** The positions of the drawing rows of `room` made in `round`. */
  function MatchingRows(drawings: seq<Submission>, room: RoomId, round: int): set<int>
  {
    set i | 0 <= i < |drawings| && drawings[i].room == room && drawings[i].round == round
  }

  /** Counting is additive over one more row at the end. */
  lemma {:induction false} CountDrawingsSnoc(drawings: seq<Submission>, d: Submission, room: RoomId, round: int)
    ensures CountDrawings(drawings + [d], room, round) ==
              CountDrawings(drawings, room, round) + if d.room == room && d.round == round then 1 else 0
  {
    if drawings != [] {
      assert (drawings + [d])[1..] == drawings[1..] + [d];
      CountDrawingsSnoc(drawings[1..], d, room, round);
    }
  }

  /** `COUNT(*)`: the count is exactly the number of drawing rows of the room in that round. */
  lemma {:induction false} CountDrawingsExact(drawings: seq<Submission>, room: RoomId, round: int)
    ensures CountDrawings(drawings, room, round) == |MatchingRows(drawings, room, round)|
    decreases |drawings|
  {
    if drawings != [] {
      var init, last := drawings[..|drawings| - 1], drawings[|drawings| - 1];
      assert drawings == init + [last];
      CountDrawingsSnoc(init, last, room, round);
      CountDrawingsExact(init, room, round);
      var before := MatchingRows(init, room, round);
      var after := MatchingRows(drawings, room, round);
      if last.room == room && last.round == round {
        assert after == before + {|init|};
        assert |init| !in before;
      } else {
        assert after == before;
      }
    }
  }


}
