/** The record of one whole battle (pokesage/battle/battle.py): the snapshots
    taken before each decision, the decisions, and the administrative details
    the processor learns from the battle's opening messages.
 */
module Battles {
  import opened Results
  import opened Targeting
  import opened Choices
  import opened State

  datatype Battle = Battle(
    states: seq<BattleState>,
    actions: Option<seq<AnyChoice>>,
    playerName: Option<string>,
    playerRating: Option<int>,
    playerId: Option<string>,
    opponentName: Option<string>,
    opponentRating: Option<int>,
    opponentId: Option<string>,
    rated: bool,
    gametype: Option<string>,
    format: Option<string>,
    gen: Option<int>,
    turn: Option<int>,
    playerVictory: Option<bool>,
    playerTeamSize: Option<int>,
    opponentTeamSize: Option<int>)

  /** `Battle()`: no snapshots and every optional field unset. */
  function NewBattle(): (b: Battle)
    ensures b.states == [] && b.actions.None? && !b.rated
    ensures b.playerName.None? && b.playerRating.None? && b.playerId.None?
    ensures b.opponentName.None? && b.opponentRating.None? && b.opponentId.None?
    ensures b.gametype.None? && b.format.None? && b.gen.None? && b.turn.None?
    ensures b.playerVictory.None? && b.playerTeamSize.None? && b.opponentTeamSize.None?
  {
    Battle([], None, None, None, None, None, None, None, false, None, None, None, None, None, None, None)
  }

  /** The battle a new processor starts from: an empty action list and the player's name. */
  function ProcessorBattle(playerName: string): (b: Battle)
    ensures b.states == [] && b.actions == Some([]) && b.playerName == Some(playerName)
    ensures b == NewBattle().(actions := Some([]), playerName := Some(playerName))
  {
    NewBattle().(actions := Some([]), playerName := Some(playerName))
  }

  /** `slot_length`: the number of active slots per side, a `RuntimeError` when the
      game type is unset or unknown. */
  function SlotLength(gametype: Option<string>): (r: Result<int>)
    ensures r.Ok? <==> gametype in {Some("singles"), Some("doubles"), Some("triples")}
    ensures r.Ok? ==> 1 <= r.value <= 3
    ensures gametype == Some("singles") ==> r == Ok(1)
    ensures gametype == Some("doubles") ==> r == Ok(2)
    ensures gametype == Some("triples") ==> r == Ok(3)
    ensures r.Err? ==> r.error.RuntimeError?
  {
    match gametype
    case None => Err(RuntimeError("slot_length was called but no gametype was set!"))
    case Some(g) =>
      if g == "singles" then Ok(1)
      else if g == "doubles" then Ok(2)
      else if g == "triples" then Ok(3)
      else Err(RuntimeError("Unknown gametype: " + g))
  }

  /** For the games with more than one slot, the slot count is the largest slot number
      the targeting geometry works with. */
  lemma SlotLengthMatchesTargeting(gametype: Option<string>)
    requires SlotLength(gametype).Ok? && gametype != Some("singles")
    ensures SlotLength(gametype).value == MaxSlot(gametype)
  {
  }

  /** `battle_states[-1]`: an `IndexError` before the first snapshot. */
  function LastState(b: Battle): (r: Result<BattleState>)
    ensures r.Ok? <==> |b.states| > 0
    ensures r.Ok? ==> r.value == b.states[|b.states| - 1]
    ensures r.Err? ==> r.error == IndexError
  {
    if |b.states| == 0 then Err(IndexError) else Ok(b.states[|b.states| - 1])
  }

  /** Every snapshot's dictionaries are well formed. */
  predicate WellFormed(b: Battle) {
    forall i :: 0 <= i < |b.states| ==> b.states[i].Valid()
  }

  /** `battle_states[-1] = s`: replaces the last snapshot and keeps the others. */
  function SetLastState(b: Battle, s: BattleState): (c: Battle)
    requires |b.states| > 0
    ensures |c.states| == |b.states| && c.states[|c.states| - 1] == s
    ensures c.states[..|c.states| - 1] == b.states[..|b.states| - 1]
    ensures c == b.(states := c.states)
    ensures WellFormed(b) && s.Valid() ==> WellFormed(c)
  {
    b.(states := b.states[..|b.states| - 1] + [s])
  }
}
