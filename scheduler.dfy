/**
 * The phase scheduler as a specification: what one pass over the expired
 * rooms does to the store, room by room, including the failure boundary
 * around each room and the best-effort recovery behind it.
 */
module Scheduler {
  import opened Wrappers
  import opened Rooms
  import opened Engine
  import opened Scoring

  /** The tables the pass writes. */
  datatype State = State(rooms: map<RoomId, Room>, results: map<ResultKey, GameResult>)

  /**
   * What the pass cannot decide itself. `draws[id]` is the row the random
   * prompt query returns for room `id` (no entry: the prompts table is empty,
   * so reading the row's id throws). `faults[id] == k` lets the first k store
   * writes for the room succeed and makes the next one (or a read before it)
   * throw. A room in `recoveryFaults` has its recovery block throw.
   */
  datatype Oracle = Oracle(draws: map<RoomId, PromptId>, faults: map<RoomId, nat>, recoveryFaults: set<RoomId>)

  /** How the try block for one room ended: counted, thrown, or skipped. */
  datatype Outcome = Done | Failed | Ignored

  function DrawOf(o: Oracle, id: RoomId): Option<PromptId>
  {
    Get(o.draws, id)
  }

  function FaultOf(o: Oracle, id: RoomId): Option<nat>
  {
    Get(o.faults, id)
  }

  /** Whether a transition that issues `writes` writes runs into the fault. */
  predicate Breaks(fault: Option<nat>, writes: nat)
  {
    fault.Some? && fault.value < writes
  }

  /** The engine's decision for a room, from its snapshot and a fresh drawing count. */
  function PlanOf(t: Tables, id: RoomId, snap: Room, now: int, o: Oracle): Plan
  {
    PlanFor(snap, CountDrawings(t.drawings, id, snap.currentRound), now, DrawOf(o, id))
  }

  /** How the transition ends; the scoring branch issues one upsert per member and one room update. */
  function OutcomeOf(t: Tables, id: RoomId, snap: Room, now: int, o: Oracle): (r: Outcome)
    ensures r == Ignored <==> snap.phase == Results
    // a drawing room fails exactly when its single write throws
    ensures snap.phase == Drawing ==> (r == Failed <==> FaultOf(o, id) == Some(0))
    // an empty prompts table fails the new-round branch
    ensures PlanOf(t, id, snap, now, o) == PromptMissing ==> r == Failed
    // a voting room outside the scoring branch is counted exactly when its one write succeeds
    ensures snap.phase == Voting && PlanOf(t, id, snap, now, o).Update? ==>
              (r == Done <==> FaultOf(o, id) != Some(0))
    // the scoring branch is counted exactly when all its upserts and the final write succeed
    ensures PlanOf(t, id, snap, now, o) == ScoreAndFinish ==>
              (r == Done <==> !Breaks(FaultOf(o, id), |Players(t.members, t.users, id)| + 1))
  {
    match PlanOf(t, id, snap, now, o)
    case Ignore => Ignored
    case PromptMissing => Failed
    case Update(_) => if Breaks(FaultOf(o, id), 1) then Failed else Done
    case ScoreAndFinish =>
      if Breaks(FaultOf(o, id), |Players(t.members, t.users, id)| + 1) then Failed else Done
  }

  /**
   * The store after the try block for one room. A failed scoring branch keeps
   * the result rows it had already upserted: nothing is rolled back.
   */
  function Attempt(t: Tables, st: State, id: RoomId, snap: Room, now: int, o: Oracle): State
  {
    var fault := FaultOf(o, id);
    match PlanOf(t, id, snap, now, o)
    case Ignore => st
    case PromptMissing => st
    case Update(u) => if Breaks(fault, 1) then st else st.(rooms := Write(st.rooms, id, u))
    case ScoreAndFinish =>
      var ps := Players(t.members, t.users, id);
      if Breaks(fault, |ps| + 1) then st.(results := UpsertScores(st.results, t, id, ps[..fault.value]))
      else State(Write(st.rooms, id, Finish), UpsertScores(st.results, t, id, ps))
  }

  /**
   * The recovery block: re-read the room and, when it still has the phase of
   * the snapshot, push only its deadline to `now + 30`. A missing room, a
   * changed phase or a throwing recovery writes nothing.
   */
  function Recover(rooms: map<RoomId, Room>, id: RoomId, snapPhase: Phase, now: int, fails: bool)
    : (r: map<RoomId, Room>)
    ensures r.Keys == rooms.Keys
    ensures forall j :: j != id ==> Get(r, j) == Get(rooms, j)
    ensures id in rooms ==>
              r[id] == if !fails && rooms[id].phase == snapPhase
                       then rooms[id].(phaseEnd := Some(now + RecoveryDelay))
                       else rooms[id]
  {
    if fails then rooms
    else
      match Get(rooms, id)
      case None => rooms
      case Some(row) => if row.phase == snapPhase then Write(rooms, id, ExtendDeadline(now)) else rooms
  }

  /** One iteration of the loop over expired rooms: the try block, then recovery if it threw. */
  function ProcessRoom(t: Tables, st: State, id: RoomId, snap: Room, now: int, o: Oracle): State
  {
    var s := Attempt(t, st, id, snap, now, o);
    if OutcomeOf(t, id, snap, now, o) == Failed
    then s.(rooms := Recover(s.rooms, id, snap.phase, now, id in o.recoveryFaults))
    else s
  }

  /** The store after the loop over the expired rooms in the order `order`. */
  function RunPass(t: Tables, st: State, snap: map<RoomId, Room>, order: seq<RoomId>, now: int, o: Oracle)
    : State
    requires forall id :: id in order ==> id in snap
    decreases |order|
  {
    if order == [] then st
    else
      var prefix := order[..|order| - 1];
      var id := order[|order| - 1];
      assert forall j :: j in prefix ==> j in order;
      ProcessRoom(t, RunPass(t, st, snap, prefix, now, o), id, snap[id], now, o)
  }

  /** How many entries of `order` are in `done`: the `processedRooms` counter. */
  function CountIn(order: seq<RoomId>, done: set<RoomId>): nat
    decreases |order|
  {
    if order == [] then 0
    else CountIn(order[..|order| - 1], done) + if order[|order| - 1] in done then 1 else 0
  }

  predicate NoDup(s: seq<RoomId>)
  {
    forall i, j :: 0 <= i < j < |s| ==> s[i] != s[j]
  }

  /** `order` lists every id of `ids` exactly once. */
  predicate Enumerates(order: seq<RoomId>, ids: set<RoomId>)
  {
    NoDup(order) && (forall id :: id in order ==> id in ids) && (forall id :: id in ids ==> id in order)
  }

  /** The store after a whole pass at time `now`: the expired-room query, then the loop in the order the database returned. */
  function Pass(t: Tables, st: State, order: seq<RoomId>, now: int, o: Oracle): State
    requires Enumerates(order, ExpiredRooms(st.rooms, now).Keys)
  {
    RunPass(t, st, ExpiredRooms(st.rooms, now), order, now, o)
  }

  /** The rooms of a snapshot whose transition ran to the end. */
  function DoneIn(t: Tables, snap: map<RoomId, Room>, now: int, o: Oracle): set<RoomId>
  {
    set id | id in snap && OutcomeOf(t, id, snap[id], now, o) == Done
  }

  /** The rooms the pass counts: expired rooms whose transition ran to the end. */
  function DoneRooms(t: Tables, st: State, now: int, o: Oracle): set<RoomId>
  {
    DoneIn(t, ExpiredRooms(st.rooms, now), now, o)
  }

  /** The count a whole pass replies with. */
  function PassCounter(t: Tables, st: State, order: seq<RoomId>, now: int, o: Oracle): nat
    requires Enumerates(order, ExpiredRooms(st.rooms, now).Keys)
  {
    CountIn(order, DoneRooms(t, st, now, o))
  }

  // ----- one room -----

  lemma PlayersKnown(t: Tables, id: RoomId, n: nat)
    requires n <= |Players(t.members, t.users, id)|
    ensures KnownPlayers(t, Players(t.members, t.users, id)[..n])
  {
    var ps := Players(t.members, t.users, id);
    PlayersMembers(t.members, t.users, id);
    assert forall p :: p in ps[..n] ==> p in ps;
  }

  /** The result rows one room's iteration leaves, key by key. */
  lemma ProcessResultsAt(t: Tables, st: State, id: RoomId, snap: Room, now: int, o: Oracle, k: ResultKey)
    ensures var ps := Players(t.members, t.users, id);
            var fault := FaultOf(o, id);
            Get(ProcessRoom(t, st, id, snap, now, o).results, k) ==
              if PlanOf(t, id, snap, now, o) != ScoreAndFinish then Get(st.results, k)
              else if Breaks(fault, |ps| + 1) then Get(UpsertScores(st.results, t, id, ps[..fault.value]), k)
              else Get(UpsertScores(st.results, t, id, ps), k)
  {
  }

  /** A scoring branch that runs to the end leaves one fresh row per member of the room, with rank 0. */
  lemma ScoredResultsAt(t: Tables, st: State, id: RoomId, snap: Room, now: int, o: Oracle, u: UserId)
    requires PlanOf(t, id, snap, now, o) == ScoreAndFinish
    requires !Breaks(FaultOf(o, id), |Players(t.members, t.users, id)| + 1)
    ensures Get(ProcessRoom(t, st, id, snap, now, o).results, (id, u)) ==
              if u in MemberIds(t, id)
              then Some(GameResult(if (id, u) in st.results then st.results[(id, u)].username else t.users[u],
                                   PlayerScore(t, id, u), 0))
              else Get(st.results, (id, u))
  {
    var ps := Players(t.members, t.users, id);
    ProcessResultsAt(t, st, id, snap, now, o, (id, u));
    PlayersKnown(t, id, |ps|);
    assert ps[..|ps|] == ps;
    UpsertScoresAt(st.results, t, id, ps, (id, u));
  }

  /** A single-update branch whose write goes through changes only that room's row, as the update says. */
  lemma UpdatedRoomAt(t: Tables, st: State, id: RoomId, snap: Room, now: int, o: Oracle)
    requires id in st.rooms
    requires PlanOf(t, id, snap, now, o).Update?
    requires !Breaks(FaultOf(o, id), 1)
    ensures var s := ProcessRoom(t, st, id, snap, now, o);
            && Get(s.rooms, id) == Some(Apply(st.rooms[id], PlanOf(t, id, snap, now, o).update))
            && s.results == st.results
  {
    assert OutcomeOf(t, id, snap, now, o) == Done;
  }

  /** A scoring branch that throws after k upserts leaves the rows of the first k players, and no others. */
  lemma PartialResultsAt(t: Tables, st: State, id: RoomId, snap: Room, now: int, o: Oracle, u: UserId)
    requires PlanOf(t, id, snap, now, o) == ScoreAndFinish
    requires Breaks(FaultOf(o, id), |Players(t.members, t.users, id)| + 1)
    ensures var k := FaultOf(o, id).value;
            Get(ProcessRoom(t, st, id, snap, now, o).results, (id, u)) ==
              if u in UsersOf(Players(t.members, t.users, id)[..k]) && u in t.users
              then Some(GameResult(if (id, u) in st.results then st.results[(id, u)].username else t.users[u],
                                   PlayerScore(t, id, u), 0))
              else Get(st.results, (id, u))
  {
    var ps := Players(t.members, t.users, id);
    var k := FaultOf(o, id).value;
    ProcessResultsAt(t, st, id, snap, now, o, (id, u));
    PlayersKnown(t, id, k);
    UpsertScoresAt(st.results, t, id, ps[..k], (id, u));
  }

  /** A scoring branch that runs to the end leaves the room completed, in the results phase, without a deadline. */
  lemma ScoredRoomAt(t: Tables, st: State, id: RoomId, snap: Room, now: int, o: Oracle)
    requires id in st.rooms
    requires PlanOf(t, id, snap, now, o) == ScoreAndFinish
    requires !Breaks(FaultOf(o, id), |Players(t.members, t.users, id)| + 1)
    ensures Get(ProcessRoom(t, st, id, snap, now, o).rooms, id) ==
              Some(st.rooms[id].(phase := Results, status := Completed, phaseEnd := None))
  {
    assert OutcomeOf(t, id, snap, now, o) == Done;
    assert ProcessRoom(t, st, id, snap, now, o) == Attempt(t, st, id, snap, now, o);
    assert Attempt(t, st, id, snap, now, o).rooms == Write(st.rooms, id, Finish);
  }

  /** One room's iteration touches no other room and no other room's result rows. */
  lemma ProcessRoomFrame(t: Tables, st: State, id: RoomId, snap: Room, now: int, o: Oracle)
    ensures var s := ProcessRoom(t, st, id, snap, now, o);
            && s.rooms.Keys == st.rooms.Keys
            && (forall j :: j != id ==> Get(s.rooms, j) == Get(st.rooms, j))
            && (forall k: ResultKey :: k.0 != id ==> Get(s.results, k) == Get(st.results, k))
  {
    var ps := Players(t.members, t.users, id);
    var fault := FaultOf(o, id);
    forall k: ResultKey | k.0 != id
      ensures Get(ProcessRoom(t, st, id, snap, now, o).results, k) == Get(st.results, k)
    {
      ProcessResultsAt(t, st, id, snap, now, o, k);
      if PlanOf(t, id, snap, now, o) == ScoreAndFinish {
        if Breaks(fault, |ps| + 1) {
          PlayersKnown(t, id, fault.value);
          UpsertScoresAt(st.results, t, id, ps[..fault.value], k);
        } else {
          PlayersKnown(t, id, |ps|);
          assert ps[..|ps|] == ps;
          UpsertScoresAt(st.results, t, id, ps, k);
        }
      }
    }
  }

  /** What one room's iteration leaves in one of its result rows depends only on that row. */
  lemma ProcessResultLocal(t: Tables, st1: State, st2: State, id: RoomId, snap: Room, now: int, o: Oracle,
                           k: ResultKey)
    requires k.0 == id && Get(st1.results, k) == Get(st2.results, k)
    ensures Get(ProcessRoom(t, st1, id, snap, now, o).results, k) == Get(ProcessRoom(t, st2, id, snap, now, o).results, k)
  {
    var ps := Players(t.members, t.users, id);
    var fault := FaultOf(o, id);
    ProcessResultsAt(t, st1, id, snap, now, o, k);
    ProcessResultsAt(t, st2, id, snap, now, o, k);
    if PlanOf(t, id, snap, now, o) == ScoreAndFinish {
      var written := if Breaks(fault, |ps| + 1) then ps[..fault.value] else ps;
      PlayersKnown(t, id, |written|);
      assert written == ps[..|written|];
      UpsertScoresAt(st1.results, t, id, written, k);
      UpsertScoresAt(st2.results, t, id, written, k);
    }
  }

  /** What one room's iteration leaves for that room depends only on that room's row and result rows. */
  lemma ProcessRoomLocal(t: Tables, st1: State, st2: State, id: RoomId, snap: Room, now: int, o: Oracle)
    requires Get(st1.rooms, id) == Get(st2.rooms, id)
    requires forall k: ResultKey :: k.0 == id ==> Get(st1.results, k) == Get(st2.results, k)
    ensures Get(ProcessRoom(t, st1, id, snap, now, o).rooms, id) == Get(ProcessRoom(t, st2, id, snap, now, o).rooms, id)
    ensures forall k: ResultKey :: k.0 == id ==>
              Get(ProcessRoom(t, st1, id, snap, now, o).results, k) == Get(ProcessRoom(t, st2, id, snap, now, o).results, k)
  {
    forall k: ResultKey | k.0 == id
      ensures Get(ProcessRoom(t, st1, id, snap, now, o).results, k) == Get(ProcessRoom(t, st2, id, snap, now, o).results, k)
    {
      ProcessResultLocal(t, st1, st2, id, snap, now, o, k);
    }
  }

  // ----- the loop -----

  /**
   * Rooms do not interfere: after the loop, each listed room is as its own
   * iteration alone would leave it, and every other room and result row is
   * as before, whatever the order of the list.
   */
  lemma {:induction false} PassAt(t: Tables, st: State, snap: map<RoomId, Room>, order: seq<RoomId>, now: int, o: Oracle)
    requires forall id :: id in order ==> id in snap
    requires NoDup(order)
    ensures RunPass(t, st, snap, order, now, o).rooms.Keys == st.rooms.Keys
    ensures forall j :: Get(RunPass(t, st, snap, order, now, o).rooms, j) ==
              if j in order then Get(ProcessRoom(t, st, j, snap[j], now, o).rooms, j) else Get(st.rooms, j)
    ensures forall k: ResultKey :: Get(RunPass(t, st, snap, order, now, o).results, k) ==
              if k.0 in order then Get(ProcessRoom(t, st, k.0, snap[k.0], now, o).results, k)
              else Get(st.results, k)
    decreases |order|
  {
    if order != [] {
      var prefix := order[..|order| - 1];
      var x := order[|order| - 1];
      assert order == prefix + [x];
      assert forall j :: j in prefix ==> j in order;
      assert NoDup(prefix);
      assert x !in prefix by {
        forall i | 0 <= i < |prefix| ensures prefix[i] != x {
          assert order[i] == prefix[i];
        }
      }
      PassAt(t, st, snap, prefix, now, o);
      var s := RunPass(t, st, snap, prefix, now, o);
      ProcessRoomFrame(t, s, x, snap[x], now, o);
      ProcessRoomLocal(t, s, st, x, snap[x], now, o);
    }
  }

  /** The entries of `order` that are in `done`. */
  function Within(order: seq<RoomId>, done: set<RoomId>): set<RoomId>
  {
    set id | id in order && id in done
  }

  /** One more loop iteration: the store and the counter after `order + [id]`. */
  lemma RunPassStep(t: Tables, st: State, snap: map<RoomId, Room>, order: seq<RoomId>, id: RoomId,
                    done: set<RoomId>, now: int, o: Oracle)
    requires forall j :: j in order ==> j in snap
    requires id in snap
    ensures forall j :: j in order + [id] ==> j in snap
    ensures RunPass(t, st, snap, order + [id], now, o) ==
              ProcessRoom(t, RunPass(t, st, snap, order, now, o), id, snap[id], now, o)
    ensures CountIn(order + [id], done) == CountIn(order, done) + if id in done then 1 else 0
  {
    assert (order + [id])[..|order|] == order;
  }

  /** Appending an id not yet listed keeps a list free of duplicates. */
  lemma NoDupSnoc(order: seq<RoomId>, id: RoomId)
    requires NoDup(order) && id !in order
    ensures NoDup(order + [id])
  {
    var next := order + [id];
    forall i, j | 0 <= i < j < |next| ensures next[i] != next[j] {
      if j == |order| {
        assert next[i] == order[i];
      } else {
        assert next[i] == order[i] && next[j] == order[j];
      }
    }
  }

  /** Without duplicates, the count is the number of distinct entries in `done`. */
  lemma {:induction false} CountInSize(order: seq<RoomId>, done: set<RoomId>)
    requires NoDup(order)
    ensures CountIn(order, done) == |Within(order, done)|
    decreases |order|
  {
    if order != [] {
      var prefix := order[..|order| - 1];
      var x := order[|order| - 1];
      assert order == prefix + [x];
      assert NoDup(prefix);
      assert x !in prefix by {
        forall i | 0 <= i < |prefix| ensures prefix[i] != x {
          assert order[i] == prefix[i];
        }
      }
      CountInSize(prefix, done);
      var before := Within(prefix, done);
      var after := Within(order, done);
      assert forall id :: id in order <==> id in prefix || id == x;
      if x in done {
        assert x !in before;
        assert after == before + {x};
      } else {
        assert after == before;
      }
    }
  }
}
