/**
 * The score calculator run when a game ends: the average of the stars a
 * member's drawings in the room received, scaled to 0..100, and the upsert
 * of one game result per room member.
 */
module Scoring {
  import opened Wrappers
  import opened Rooms

  /** A row of `room_players JOIN users`: a member together with its username. */
  datatype Player = Player(user: UserId, username: string)

  /** The room's members that have a users row, in `room_players` order. */
  function Players(members: seq<Membership>, users: map<UserId, string>, room: RoomId): seq<Player>
  {
    if members == [] then []
    else
      var m := members[0];
      (if m.room == room && m.user in users then [Player(m.user, users[m.user])] else [])
      + Players(members[1..], users, room)
  }

  /** A player is listed exactly for a membership row whose user has a users row, with that username. */
  lemma {:induction false} PlayersMembers(members: seq<Membership>, users: map<UserId, string>, room: RoomId)
    ensures |Players(members, users, room)| <= |members|
    ensures forall p :: p in Players(members, users, room) <==>
              Membership(room, p.user) in members && p.user in users && p.username == users[p.user]
  {
    if members != [] {
      PlayersMembers(members[1..], users, room);
      assert forall m :: m in members <==> m == members[0] || m in members[1..];
    }
  }

  /** The user ids of a list of players. */
  function UsersOf(ps: seq<Player>): set<UserId>
  {
    set p | p in ps :: p.user
  }

  /** The users the score loop visits for a room: its members that have a users row. */
  function MemberIds(t: Tables, room: RoomId): (r: set<UserId>)
    ensures forall u :: u in r <==> Membership(room, u) in t.members && u in t.users
  {
    var ps := Players(t.members, t.users, room);
    PlayersMembers(t.members, t.users, room);
    assert forall u :: Membership(room, u) in t.members && u in t.users ==> Player(u, t.users[u]) in ps;
    UsersOf(ps)
  }

  /** The ratings of the stars given to one drawing, in `stars` order. */
  function StarRatings(stars: seq<Star>, drawing: DrawingId): seq<int>
  {
    if stars == [] then []
    else
      (if stars[0].drawing == drawing then [stars[0].rating] else [])
      + StarRatings(stars[1..], drawing)
  }

  /**
   * A value is among a drawing's ratings exactly when some star on it has
   * that rating, and it occurs as often as there are such stars, so the
   * average counts every star once.
   */
  lemma {:induction false} StarRatingsMembers(stars: seq<Star>, drawing: DrawingId)
    ensures forall x :: x in StarRatings(stars, drawing) <==>
              exists s :: s in stars && s.drawing == drawing && s.rating == x
    ensures forall x :: multiset(StarRatings(stars, drawing))[x] == multiset(stars)[Star(drawing, x)]
  {
    if stars != [] {
      StarRatingsMembers(stars[1..], drawing);
      assert forall s :: s in stars <==> s == stars[0] || s in stars[1..];
      assert stars == [stars[0]] + stars[1..];
      assert multiset(stars) == multiset([stars[0]]) + multiset(stars[1..]);
      var head := if stars[0].drawing == drawing then [stars[0].rating] else [];
      assert StarRatings(stars, drawing) == head + StarRatings(stars[1..], drawing);
      assert multiset(StarRatings(stars, drawing)) == multiset(head) + multiset(StarRatings(stars[1..], drawing));
    }
  }

  /**
   * `drawings JOIN stars WHERE room_id = room AND artist_id = user`: every
   * rating of every drawing the user made in the room, in any round.
   */
  function RatingsIn(drawings: seq<Submission>, stars: seq<Star>, room: RoomId, user: UserId): seq<int>
  {
    if drawings == [] then []
    else
      var d := drawings[0];
      var rest := RatingsIn(drawings[1..], stars, room, user);
      (if d.room == room && d.artist == user then StarRatings(stars, d.id) else []) + rest
  }

  /**
   * A value is among a member's ratings exactly when a star on one of the
   * member's drawings in the room has it; without such a drawing there are none.
   */
  lemma {:induction false} RatingsInMembers(drawings: seq<Submission>, stars: seq<Star>, room: RoomId, user: UserId)
    ensures forall x :: x in RatingsIn(drawings, stars, room, user) <==>
              exists d, s :: d in drawings && s in stars && d.room == room && d.artist == user
                             && s.drawing == d.id && s.rating == x
    ensures (forall d :: d in drawings ==> !(d.room == room && d.artist == user)) ==>
              RatingsIn(drawings, stars, room, user) == []
  {
    if drawings != [] {
      var d := drawings[0];
      RatingsInMembers(drawings[1..], stars, room, user);
      StarRatingsMembers(stars, d.id);
      assert forall e :: e in drawings <==> e == d || e in drawings[1..];
    }
  }

  function Sum(xs: seq<int>): int
  {
    if xs == [] then 0 else xs[0] + Sum(xs[1..])
  }

  /** `Math.round(n / d)`: the nearest integer, halves rounded up. */
  function RoundHalfUp(n: int, d: int): int
    requires d > 0
  {
    (2 * n + d) / (2 * d)
  }

  /** The rounded value r is the integer nearest to n/d, halves going up: n/d - 1/2 <= r < n/d + 1/2. */
  lemma RoundHalfUpBounds(n: int, d: int)
    requires d > 0
    ensures d * (2 * RoundHalfUp(n, d)) <= 2 * n + d < d * (2 * RoundHalfUp(n, d) + 2)
  {
    var q, r := (2 * n + d) / (2 * d), (2 * n + d) % (2 * d);
    assert 2 * n + d == 2 * d * q + r && 0 <= r < 2 * d;
    assert d * (2 * q) == 2 * d * q;
    assert d * (2 * q + 2) == 2 * d * q + 2 * d;
  }

  /**
   * `Math.round((AVG(rating) || 0) * 20)`: twenty times the mean, rounded
   * half up; SQL AVG over no rows is NULL, which counts as 0.
   */
  function MeanScore(ratings: seq<int>): int
  {
    if ratings == [] then 0 else RoundHalfUp(20 * Sum(ratings), |ratings|)
  }

  /** The score a user earns in a room. */
  function PlayerScore(t: Tables, room: RoomId, user: UserId): int
  {
    MeanScore(RatingsIn(t.drawings, t.stars, room, user))
  }

  lemma {:induction false} SumBounds(xs: seq<int>)
    requires forall x :: x in xs ==> 0 <= x <= 5
    ensures 0 <= Sum(xs) <= 5 * |xs|
  {
    if xs != [] {
      assert xs[0] in xs;
      assert forall x :: x in xs[1..] ==> x in xs;
      SumBounds(xs[1..]);
    }
  }

  lemma FactorBelow(c: int, x: int, y: int)
    requires c > 0 && c * x < c * y
    ensures x < y
  {
    assert c * (y - x) > 0;
  }

  /** Ratings on the 0..5 star scale give a score in 0..100. */
  lemma ScoreInRange(ratings: seq<int>)
    requires forall x :: x in ratings ==> 0 <= x <= 5
    ensures 0 <= MeanScore(ratings) <= 100
  {
    if ratings != [] {
      SumBounds(ratings);
      RoundHalfUpBounds(20 * Sum(ratings), |ratings|);
      var c, s := |ratings|, MeanScore(ratings);
      assert c * (2 * s) <= 201 * c;
      FactorBelow(c, 2 * s, 202);
      FactorBelow(c, 1, 2 * s + 2);
    }
  }

  /** With every star in 0..5, every player's score is in 0..100. */
  lemma PlayerScoreInRange(t: Tables, room: RoomId, user: UserId)
    requires forall s :: s in t.stars ==> 0 <= s.rating <= 5
    ensures 0 <= PlayerScore(t, room, user) <= 100
  {
    RatingsInMembers(t.drawings, t.stars, room, user);
    ScoreInRange(RatingsIn(t.drawings, t.stars, room, user));
  }

  /** A member none of whose drawings in the room was rated scores exactly 0. */
  lemma UnratedScoresZero(t: Tables, room: RoomId, user: UserId)
    requires forall d, s :: d in t.drawings && s in t.stars && d.room == room && d.artist == user
                            ==> s.drawing != d.id
    ensures PlayerScore(t, room, user) == 0
  {
    var r := RatingsIn(t.drawings, t.stars, room, user);
    RatingsInMembers(t.drawings, t.stars, room, user);
    assert forall i :: 0 <= i < |r| ==> r[i] in r;
  }

  /**
   * `INSERT ... ON CONFLICT (room_id, user_id) DO UPDATE SET score, rank`:
   * an existing row keeps its username and takes the new score and rank 0.
   */
  function Upsert(m: map<ResultKey, GameResult>, room: RoomId, p: Player, score: int): map<ResultKey, GameResult>
  {
    var key := (room, p.user);
    if key in m then m[key := m[key].(score := score, rank := 0)]
    else m[key := GameResult(p.username, score, 0)]
  }

  /** The score loop over the players `ps`, in order. */
  function UpsertScores(m: map<ResultKey, GameResult>, t: Tables, room: RoomId, ps: seq<Player>)
    : map<ResultKey, GameResult>
  {
    if ps == [] then m
    else
      var last := ps[|ps| - 1];
      Upsert(UpsertScores(m, t, room, ps[..|ps| - 1]), room, last, PlayerScore(t, room, last.user))
  }

  /** Upserting one more player is one more `Upsert` on the table so far. */
  lemma UpsertScoresStep(m: map<ResultKey, GameResult>, t: Tables, room: RoomId, ps: seq<Player>, i: nat)
    requires i < |ps|
    ensures UpsertScores(m, t, room, ps[..i + 1]) ==
              Upsert(UpsertScores(m, t, room, ps[..i]), room, ps[i], PlayerScore(t, room, ps[i].user))
  {
    assert ps[..i + 1][..i] == ps[..i];
  }

  /** Players as the members query returns them: each with its own username. */
  predicate KnownPlayers(t: Tables, ps: seq<Player>)
  {
    forall p :: p in ps ==> p.user in t.users && p.username == t.users[p.user]
  }

  /**
   * After the score loop each visited member has exactly one row for the
   * room, with its score and rank 0; a row that existed keeps its username
   * and a new row takes the member's; every other row is unchanged.
   */
  lemma {:induction false} UpsertScoresAt(m: map<ResultKey, GameResult>, t: Tables, room: RoomId,
                                          ps: seq<Player>, k: ResultKey)
    requires KnownPlayers(t, ps)
    ensures Get(UpsertScores(m, t, room, ps), k) ==
              if k.0 == room && k.1 in UsersOf(ps)
              then Some(GameResult(if k in m then m[k].username else t.users[k.1],
                                   PlayerScore(t, room, k.1), 0))
              else Get(m, k)
  {
    if ps != [] {
      var last := ps[|ps| - 1];
      var prefix := ps[..|ps| - 1];
      assert ps == prefix + [last];
      assert last in ps;
      assert forall p :: p in prefix ==> p in ps;
      assert UsersOf(ps) == UsersOf(prefix) + {last.user};
      UpsertScoresAt(m, t, room, prefix, k);
    }
  }

  /**
   * Scoring is safe to retry: re-running the loop after a run that threw
   * after k upserts leaves the same rows as one clean run.
   */
  lemma RescoringConverges(m: map<ResultKey, GameResult>, t: Tables, room: RoomId,
                           ps: seq<Player>, k: nat, key: ResultKey)
    requires KnownPlayers(t, ps) && k <= |ps|
    ensures Get(UpsertScores(UpsertScores(m, t, room, ps[..k]), t, room, ps), key) ==
            Get(UpsertScores(m, t, room, ps), key)
  {
    var partial := UpsertScores(m, t, room, ps[..k]);
    assert forall p :: p in ps[..k] ==> p in ps;
    UpsertScoresAt(m, t, room, ps[..k], key);
    UpsertScoresAt(partial, t, room, ps, key);
    UpsertScoresAt(m, t, room, ps, key);
  }
}
