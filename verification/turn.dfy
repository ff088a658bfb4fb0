/** The turn handler of the processor (pokesage/processors/showdownprocessor.py,
    `processbm_turn`). A request arrives before the switches of the turn are
    seen, so its move options carry no target. When the turn starts, every
    move that must be aimed is expanded into one option per slot it can reach,
    given which slots are now occupied.
 */
module Turns {
  import opened Results
  import opened OrderedDict
  import opened Targeting
  import opened Choices
  import opened State
  import opened Battles

  // ---------------------------------------------------------------------------
  // Occupied slots.

  /** A slot number as seen from the player: own slots are negative. */
  function Signed(s: int, own: bool): int {
    if own then -s else s
  }

  /** The occupied slots of a table from position `k` of its key order on, negated for
      the player's own table. */
  function Occupied(t: SlotTable, own: bool, k: nat): (xs: seq<int>)
    requires t.Valid() && k <= |t.order|
    ensures forall j :: k <= j < |t.order| && t.entries[t.order[j]].Some? ==> Signed(t.order[j], own) in xs
    ensures forall x :: x in xs ==> exists j :: k <= j < |t.order| && t.entries[t.order[j]].Some? && x == Signed(t.order[j], own)
    decreases |t.order| - k
  {
    if k == |t.order| then []
    else
      var rest := Occupied(t, own, k + 1);
      if t.entries[t.order[k]].Some? then [Signed(t.order[k], own)] + rest else rest
  }

  /** The occupied slots of a whole table: exactly its keys holding an occupant. */
  lemma OccupiedSlots(t: SlotTable, own: bool)
    requires t.Valid()
    ensures forall s :: s in t.entries && t.entries[s].Some? ==> Signed(s, own) in Occupied(t, own, 0)
    ensures forall x :: x in Occupied(t, own, 0) ==>
              exists s :: s in t.entries && t.entries[s].Some? && x == Signed(s, own)
  {
    forall s | s in t.entries && t.entries[s].Some? ensures Signed(s, own) in Occupied(t, own, 0) {
      var j :| 0 <= j < |t.order| && t.order[j] == s;
    }
  }

  /** Every occupied slot of the field: the player's own negated, in table order, then
      the opponent's. */
  function FilledSlots(st: BattleState): (filled: seq<int>)
    requires st.Valid()
    ensures forall s :: s in st.player.slots.entries && st.player.slots.entries[s].Some? ==> -s in filled
    ensures forall s :: s in st.opponent.slots.entries && st.opponent.slots.entries[s].Some? ==> s in filled
    ensures forall x :: x in filled ==>
              (exists s :: s in st.player.slots.entries && st.player.slots.entries[s].Some? && x == -s)
              || (x in st.opponent.slots.entries && st.opponent.slots.entries[x].Some?)
  {
    var own := Occupied(st.player.slots, true, 0);
    var foes := Occupied(st.opponent.slots, false, 0);
    OccupiedSlots(st.player.slots, true);
    OccupiedSlots(st.opponent.slots, false);
    forall x | x in own + foes
      ensures (exists s :: s in st.player.slots.entries && st.player.slots.entries[s].Some? && x == -s)
              || (x in st.opponent.slots.entries && st.opponent.slots.entries[x].Some?)
    {
      if x !in own {
        var s :| s in st.opponent.slots.entries && st.opponent.slots.entries[s].Some? && x == Signed(s, false);
      }
    }
    own + foes
  }

  // ---------------------------------------------------------------------------
  // Expansion.

  /** The move `mc` aimed at `target`. As written the new choice is built from the move
      number and target type alone, so the gimmick flags of `mc` are lost; the corrected
      form keeps them. */
  function Aimed(mc: MoveChoice, target: int, asWritten: bool): (a: MoveChoice)
    ensures a.moveNumber == mc.moveNumber && a.targetType == mc.targetType && a.targetNumber == Some(target)
    ensures asWritten ==> !a.tera && !a.mega && !a.dyna && !a.zmove
    ensures !asWritten ==> a == mc.(targetNumber := Some(target))
  {
    if asWritten then PlainMove(mc.moveNumber, mc.targetType).(targetNumber := Some(target))
    else mc.(targetNumber := Some(target))
  }

  /** One choice per target, in target order. */
  function AimedAll(mc: MoveChoice, targets: seq<int>, asWritten: bool): (v: seq<SlotChoice>)
    ensures |v| == |targets|
    ensures forall i :: 0 <= i < |targets| ==> v[i] == Move(Aimed(mc, targets[i], asWritten))
  {
    seq(|targets|, i requires 0 <= i < |targets| => Move(Aimed(mc, targets[i], asWritten)))
  }

  /** The options a move option of the slot `source` becomes: itself when it needs no
      target, otherwise one option per occupied slot it can reach. A target type missing
      from the table is a `KeyError`. */
  function ExpandMove(mc: MoveChoice, source: int, filled: seq<int>, gametype: Option<string>, asWritten: bool)
    : (r: Result<seq<SlotChoice>>)
    ensures r.Err? <==> mc.targetType.Some? && mc.targetType.value.Unlisted?
    ensures r.Err? ==> r.error == KeyError
    ensures NeedsTarget(mc.targetType) == Ok(false) ==> r == Ok([Move(mc)])
    ensures NeedsTarget(mc.targetType) == Ok(true) ==>
              r.Ok? && mc.targetType.Some?
              && (forall c :: c in r.value ==>
                    c.Move? && c.move.targetNumber.Some? && c.move.targetNumber.value in filled
                    && Reaches(source, c.move.targetNumber.value, mc.targetType.value, gametype)
                    && c.move == Aimed(mc, c.move.targetNumber.value, asWritten))
              && (forall t :: t in filled && Reaches(source, t, mc.targetType.value, gametype) ==>
                    Move(Aimed(mc, t, asWritten)) in r.value)
  {
    var needs :- NeedsTarget(mc.targetType);
    if !needs then Ok([Move(mc)])
    else
      var targets := GetValidTargetSlots(source, filled, mc.targetType.value, gametype);
      if targets.Ok? then Ok(AimedAll(mc, targets.value, asWritten)) else Err(KeyError)
  }

  /** The options of one slot from position `k` on: every move option expanded, every
      other option kept, in order. */
  function ExpandOptions(opts: seq<SlotChoice>, source: int, filled: seq<int>, gametype: Option<string>,
                         asWritten: bool, k: nat): (r: Result<seq<SlotChoice>>)
    requires k <= |opts|
    ensures r.Err? <==> exists j :: k <= j < |opts| && opts[j].Move? && ExpandMove(opts[j].move, source, filled, gametype, asWritten).Err?
    ensures r.Err? ==> r.error == KeyError
    ensures r.Ok? ==> forall j :: k <= j < |opts| && !opts[j].Move? ==> opts[j] in r.value
    ensures r.Ok? ==> forall j, c :: k <= j < |opts| && opts[j].Move? && c in ExpandMove(opts[j].move, source, filled, gametype, asWritten).value
                                     ==> c in r.value
    ensures r.Ok? ==> forall c :: c in r.value ==>
                        exists j :: k <= j < |opts|
                                    && (if opts[j].Move? then c in ExpandMove(opts[j].move, source, filled, gametype, asWritten).value
                                        else c == opts[j])
    decreases |opts| - k
  {
    if k == |opts| then Ok([])
    else
      var here :- if opts[k].Move? then ExpandMove(opts[k].move, source, filled, gametype, asWritten) else Ok([opts[k]]);
      var rest :- ExpandOptions(opts, source, filled, gametype, asWritten, k + 1);
      Ok(here + rest)
  }

  /** The options of own slot `e + 1` (field slot `-(e + 1)`). A pass, or a slot that is
      now empty, becomes a pass; the options of an occupied slot are expanded. A slot the
      player's table lacks is a `KeyError`. */
  function ExpandSlot(opts: SlotOptions, own: SlotTable, e: nat, filled: seq<int>, gametype: Option<string>,
                      asWritten: bool): (r: Result<SlotOptions>)
    ensures r.Err? ==> r.error == KeyError
    ensures opts.PassOption? ==> r == Ok(PassOption)
    ensures opts.Options? ==> (r.Ok? <==> own.Get(e + 1).Ok?
                                          && (own.Get(e + 1).value.Some? ==>
                                                ExpandOptions(opts.options, -(e + 1), filled, gametype, asWritten, 0).Ok?))
    ensures opts.Options? && own.Get(e + 1) == Ok(None) ==> r == Ok(PassOption)
    ensures r.Ok? && r.value.Options? ==>
              opts.Options? && own.Get(e + 1).Ok? && own.Get(e + 1).value.Some?
              && ExpandOptions(opts.options, -(e + 1), filled, gametype, asWritten, 0) == Ok(r.value.options)
  {
    if opts.PassOption? then Ok(PassOption)
    else
      var occupant :- own.Get(e + 1);
      if occupant.None? then Ok(PassOption)
      else
        var expanded :- ExpandOptions(opts.options, -(e + 1), filled, gametype, asWritten, 0);
        Ok(Options(expanded))
  }

  /** The options of every slot from index `e` on, each expanded for its own slot. */
  function ExpandSlots(slots: seq<SlotOptions>, own: SlotTable, filled: seq<int>, gametype: Option<string>,
                       asWritten: bool, e: nat): (r: Result<seq<SlotOptions>>)
    requires e <= |slots|
    ensures r.Err? ==> r.error == KeyError
    ensures r.Ok? <==> forall i :: e <= i < |slots| ==> ExpandSlot(slots[i], own, i, filled, gametype, asWritten).Ok?
    ensures r.Ok? ==> |r.value| == |slots| - e
    ensures r.Ok? ==> forall i :: e <= i < |slots| ==>
                        Ok(r.value[i - e]) == ExpandSlot(slots[i], own, i, filled, gametype, asWritten)
    decreases |slots| - e
  {
    if e == |slots| then Ok([])
    else
      var here :- ExpandSlot(slots[e], own, e, filled, gametype, asWritten);
      var rest :- ExpandSlots(slots, own, filled, gametype, asWritten, e + 1);
      Ok([here] + rest)
  }

  // ---------------------------------------------------------------------------
  // The handler.

  /** `processbm_turn`: the turn number is recorded; outside singles, per-slot options of
      the last snapshot are expanded with the slots occupied now. A team order is left
      alone; a snapshot without options cannot be iterated (`TypeError`). */
  function HandleTurn(b: Battle, number: int, asWritten: bool): (r: Result<Battle>)
    requires WellFormed(b)
    ensures b.gametype == Some("singles") ==> r == Ok(b.(turn := Some(number)))
    ensures b.gametype != Some("singles") && |b.states| == 0 ==> r == Err(IndexError)
    ensures b.gametype != Some("singles") && |b.states| > 0 && b.states[|b.states| - 1].choice.None?
            ==> r == Err(TypeError)
    ensures (|b.states| > 0 && b.states[|b.states| - 1].choice.Some?
             && b.states[|b.states| - 1].choice.value.TeamOrder?) ==> r == Ok(b.(turn := Some(number)))
    ensures r.Ok? ==> WellFormed(r.value) && r.value == b.(turn := Some(number), states := r.value.states)
    ensures r.Ok? ==> |r.value.states| == |b.states|
    ensures r.Ok? && |b.states| > 0 ==>
              r.value.states[..|b.states| - 1] == b.states[..|b.states| - 1]
              && r.value.states[|b.states| - 1] == b.states[|b.states| - 1].(choice := r.value.states[|b.states| - 1].choice)
  {
    var numbered := b.(turn := Some(number));
    if b.gametype == Some("singles") then Ok(numbered)
    else
      var st :- LastState(numbered);
      match st.choice
      case None => Err(TypeError)
      case Some(TeamOrder(_)) => Ok(numbered)
      case Some(PerSlot(slots)) =>
        var expanded :- ExpandSlots(slots, st.player.slots, FilledSlots(st), b.gametype, asWritten, 0);
        Ok(SetLastState(numbered, st.(choice := Some(PerSlot(expanded)))))
  }

  // ---------------------------------------------------------------------------
  // The lost gimmicks.

  /** As written, every aimed option is a bare move: no option that needs a target keeps
      its terastallize, mega, dynamax or z-move flag. */
  lemma AsWrittenAimedAreBare(mc: MoveChoice, source: int, filled: seq<int>, gametype: Option<string>)
    requires NeedsTarget(mc.targetType) == Ok(true)
    ensures forall c :: c in ExpandMove(mc, source, filled, gametype, true).value ==>
              !c.move.tera && !c.move.mega && !c.move.dyna && !c.move.zmove
  {
  }

  /** An instance: in doubles, the terastallizing option of a normal move from own slot 1
      at foe slot 1 loses its flag as written and keeps it once corrected. */
  lemma TeraLostAsWritten()
    ensures var mc := PlainMove(1, Some(Normal)).(tera := true);
            ExpandMove(mc, -1, [1], Some("doubles"), true) == Ok([Move(PlainMove(1, Some(Normal)).(targetNumber := Some(1)))])
            && ExpandMove(mc, -1, [1], Some("doubles"), false) == Ok([Move(mc.(targetNumber := Some(1)))])
  {
    var mc := PlainMove(1, Some(Normal)).(tera := true);
    assert NeedsTarget(mc.targetType) == Ok(true);
    assert CanTargetSlot(-1, 1, Normal, Some("doubles")) == Ok(true);
    var filled := [1];
    assert filled[..|filled| - 1] == [] && filled[|filled| - 1] == 1;
    assert GetValidTargetSlots(-1, [], Normal, Some("doubles")) == Ok([]);
    var targets := GetValidTargetSlots(-1, filled, Normal, Some("doubles"));
    assert targets.Ok? && targets.value == [1];
    assert AimedAll(mc, [1], true) == [Move(PlainMove(1, Some(Normal)).(targetNumber := Some(1)))];
    assert AimedAll(mc, [1], false) == [Move(mc.(targetNumber := Some(1)))];
  }

  /** Corrected, an aimed option is the original one with a target: every gimmick flag the
      request offered survives the expansion. */
  lemma CorrectedKeepsGimmicks(mc: MoveChoice, source: int, filled: seq<int>, gametype: Option<string>)
    requires NeedsTarget(mc.targetType) == Ok(true)
    ensures forall c :: c in ExpandMove(mc, source, filled, gametype, false).value ==>
              c.move.tera == mc.tera && c.move.mega == mc.mega && c.move.dyna == mc.dyna && c.move.zmove == mc.zmove
              && c.move.moveNumber == mc.moveNumber
  {
  }
}
