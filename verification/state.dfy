/** One snapshot of a battle (pokesage/battle/state.py).

    The original record keeps each field twice, once for the player and once
    for the opponent (`player_team`/`opponent_team`, `player_slots`/
    `opponent_slots`, `player_has_megad`/`opponent_has_megad`, ...). The model
    groups each pair into one `Side` so that every event handler is written
    once and applied to the side the event names.
 */
module State {
  import opened Results
  import opened OrderedDict
  import opened Pokemon
  import opened Choices

  /** Records keyed by their identity string, in insertion order. */
  type Roster = ODict<string, BattlePokemon>

  /** Battle slot number to the identity of its occupant, or `None` when empty. */
  type SlotTable = ODict<int, Option<string>>

  datatype Side = Side(
    team: Roster,
    slots: SlotTable,
    hasMegad: bool,
    hasZmoved: bool,
    hasDynamaxed: bool,
    hasTeratyped: bool)
  {
    predicate Valid() {
      team.Valid() && slots.Valid()
    }

    /** The occupant of slot `s`: a `KeyError` for a slot the table lacks. */
    function Occupant(s: int): (r: Result<Option<string>>)
      ensures r.Ok? <==> s in slots.entries
      ensures r.Ok? ==> r.value == slots.entries[s]
    {
      slots.Get(s)
    }
  }

  datatype BattleState = BattleState(
    turn: int,
    player: Side,
    opponent: Side,
    weather: Option<string>,
    choice: Option<BattleChoice>)
  {
    predicate Valid() {
      player.Valid() && opponent.Valid()
    }
  }

  /** A side with no records, no slots and no one-time resource used. */
  function FreshSide(): (s: Side)
    ensures s.Valid() && s.team.Size() == 0 && s.slots.Size() == 0
    ensures !s.hasMegad && !s.hasZmoved && !s.hasDynamaxed && !s.hasTeratyped
  {
    Side(Empty(), Empty(), false, false, false, false)
  }

  /** `BattleState(turn=turn)`: only the turn is mandatory. */
  function NewState(turn: int): (s: BattleState)
    ensures s.Valid() && s.turn == turn
    ensures s.player == FreshSide() && s.opponent == FreshSide()
    ensures s.weather.None? && s.choice.None?
  {
    BattleState(turn, FreshSide(), FreshSide(), None, None)
  }

  /** The numbers 1 to `n`, in order: the slots of a side, or the positions of a team. */
  function OneTo(n: nat): (keys: seq<int>)
    ensures |keys| == n && Distinct(keys)
    ensures forall i :: 0 <= i < n ==> keys[i] == i + 1
    ensures forall s :: s in keys <==> 1 <= s <= n
  {
    if n == 0 then []
    else
      var prefix := OneTo(n - 1);
      DistinctSnoc(prefix, n);
      prefix + [n]
  }

  /** `{1: None, ..., n: None}`. */
  function EmptySlots(n: nat): (t: SlotTable)
    ensures t.Valid() && t.order == OneTo(n)
    ensures forall s :: 1 <= s <= n ==> t.Get(s) == Ok(None)
    ensures forall s :: s < 1 || s > n ==> t.Get(s).Err?
  {
    FromKeys(OneTo(n), None)
  }
}
