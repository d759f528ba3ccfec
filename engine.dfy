/**
 * The phase transition engine: which UPDATE an expired room gets, decided
 * from the room as the expired-room query returned it and the number of
 * drawings submitted for its current round.
 */
module Engine {
  import opened Wrappers
  import opened Rooms

  /** What the pass does with one expired room. */
  datatype Plan =
    | Ignore            // neither drawing nor voting: no write, not counted
    | PromptMissing     // a new round needs a prompt and the prompt query returned no row
    | Update(update: RoomUpdate)
    | ScoreAndFinish    // write every member's result, then finish the room

  /** The next-round branch: it needs the prompt the random prompt query picked. */
  function NewRound(draw: Option<PromptId>, now: int): Plan
  {
    if draw.None? then PromptMissing else Update(StartRound(draw.value, now))
  }

  /**
   * The branches in their precedence order: drawing, then voting with no
   * drawings, then voting on the last drawing, then the next drawing.
   */
  function PlanFor(snap: Room, totalDrawings: nat, now: int, draw: Option<PromptId>): (p: Plan)
    // drawing always opens voting
    ensures p == Update(OpenVoting(now)) <==> snap.phase == Drawing
    // a round ends with no drawings, or after the last drawing was shown
    ensures (p == PromptMissing || (p.Update? && p.update.StartRound?)) <==>
              snap.phase == Voting && snap.currentRound < snap.rounds
              && (totalDrawings == 0 || snap.drawingIndex >= totalDrawings - 1)
    ensures p == PromptMissing ==> draw.None?
    ensures p.Update? && p.update.StartRound? ==> draw.Some? && p.update == StartRound(draw.value, now)
    // the game ends without scores only when the final round had no drawings
    ensures p == Update(Finish) <==>
              snap.phase == Voting && totalDrawings == 0 && snap.currentRound >= snap.rounds
    ensures p == ScoreAndFinish <==>
              snap.phase == Voting && totalDrawings > 0
              && snap.drawingIndex >= totalDrawings - 1 && snap.currentRound >= snap.rounds
    ensures p == Update(ShowNextDrawing(now)) <==>
              snap.phase == Voting && totalDrawings > 0 && snap.drawingIndex < totalDrawings - 1
    ensures p == Ignore <==> snap.phase == Results
    ensures p.Update? ==> !p.update.ExtendDeadline?
  {
    match snap.phase
    case Drawing => Update(OpenVoting(now))
    case Voting =>
      if totalDrawings == 0 then
        if snap.currentRound >= snap.rounds then Update(Finish) else NewRound(draw, now)
      else if snap.drawingIndex >= totalDrawings - 1 then
        if snap.currentRound >= snap.rounds then ScoreAndFinish else NewRound(draw, now)
      else Update(ShowNextDrawing(now))
    case Results => Ignore
  }

  /**
   * Applied to the room it was planned for, every write keeps the room
   * invariants: in particular a round is only added below the total.
   */
  lemma PlanKeepsSteady(snap: Room, totalDrawings: nat, now: int, draw: Option<PromptId>)
    requires Steady(snap) && Expired(snap, now)
    ensures var p := PlanFor(snap, totalDrawings, now, draw);
            (p.Update? ==> Steady(Apply(snap, p.update)))
            && (p == ScoreAndFinish ==> Steady(Apply(snap, Finish)))
  {
  }
}
