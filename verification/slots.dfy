/** The slot bookkeeping of the processor
    (pokesage/processors/showdownprocessor.py, the switch, drag, detailschange,
    replace, swap, faint, terastallize, mega and zpower handlers).

    Each side keeps a roster (identity to record) and a slot table (slot number
    to the identity of its occupant). The handlers keep the two in step: the
    slot table names the occupant, and the occupant's record points back at
    the slot and is marked active.

    A handler that raises leaves the battle unusable (the exception escapes to
    the connection), so an `Err` here carries no state.
 */
module SlotEvents {
  import opened Results
  import opened Text
  import opened OrderedDict
  import opened Pokemon
  import opened State
  import opened Messages

  /** The status name of a fainted pokemon. */
  const FaintedStatus: string := "fnt"

  // ---------------------------------------------------------------------------
  // Slot letters.

  /** `"abc".find(letter) + 1`: 1, 2 and 3 for the letters a, b and c, 0 for a string
      that does not occur in "abc". */
  function SlotIndex(letter: string): (s: int)
    ensures 0 <= s <= 3
    ensures s == 0 <==> !IsSubstring(letter, "abc")
  {
    var i := Find("abc", letter);
    assert |letter| == 0 ==> OccursAt("abc", letter, 0);
    i + 1
  }

  lemma SlotLetters()
    ensures SlotIndex("a") == 1 && SlotIndex("b") == 2 && SlotIndex("c") == 3
    ensures SlotIndex("d") == 0
  {
    assert OccursAt("abc", "a", 0);
    assert OccursAt("abc", "b", 1) && !OccursAt("abc", "b", 0);
    assert OccursAt("abc", "c", 2) && !OccursAt("abc", "c", 0) && !OccursAt("abc", "c", 1);
    assert !IsSubstring("d", "abc") by {
      assert "abc"[..1] != "d" && "abc"[1..][..1] != "d" && "abc"[1..][1..][..1] != "d";
      assert "abc"[1..][1..][1..] == [];
    }
  }

  /** The slot of a reference, after `assert slot is not None`. */
  function CheckedSlot(ref: PokemonRef): (r: Result<int>)
    ensures r.Ok? <==> ref.slot.Some?
    ensures r.Ok? ==> r.value == SlotIndex(ref.slot.value)
    ensures r.Err? ==> r.error == AssertionError
  {
    match ref.slot
    case None => Err(AssertionError)
    case Some(letter) => Ok(SlotIndex(letter))
  }

  /** The slot of a reference in the handlers without the assertion: `"abc".find(None)`
      raises a `TypeError`. */
  function UncheckedSlot(ref: PokemonRef): (r: Result<int>)
    ensures r.Ok? <==> ref.slot.Some?
    ensures r.Ok? ==> r.value == SlotIndex(ref.slot.value)
    ensures r.Err? ==> r.error == TypeError
  {
    match ref.slot
    case None => Err(TypeError)
    case Some(letter) => Ok(SlotIndex(letter))
  }

  // ---------------------------------------------------------------------------
  // Sides.

  /** The player's side when the event names the player's id, the opponent's otherwise. */
  function SideOf(st: BattleState, mine: bool): Side {
    if mine then st.player else st.opponent
  }

  function WithSide(st: BattleState, mine: bool, side: Side): (t: BattleState)
    ensures SideOf(t, mine) == side
    ensures SideOf(t, !mine) == SideOf(st, !mine)
    ensures t.turn == st.turn && t.weather == st.weather && t.choice == st.choice
  {
    if mine then st.(player := side) else st.(opponent := side)
  }

  /** The record left behind by a pokemon that leaves its slot. */
  function Vacate(p: BattlePokemon): BattlePokemon {
    p.(slot := None, active := false)
  }

  /** The record of a pokemon that takes slot `s`. */
  function Enter(p: BattlePokemon, s: int): BattlePokemon {
    p.(slot := Some(s), active := true)
  }

  /** Slot `s` of `side` holds `id`, and the record of `id` points back at `s` as active. */
  predicate Occupies(side: Side, s: int, id: string) {
    side.slots.Get(s) == Ok(Some(id))
    && id in side.team.entries
    && side.team.entries[id].slot == Some(s)
    && side.team.entries[id].active
  }

  /** Slot `s` exists, is not empty, and its occupant has a record. */
  predicate Occupied(side: Side, s: int) {
    s in side.slots.entries && side.slots.entries[s].Some? && side.slots.entries[s].value in side.team.entries
  }

  function OccupantOf(side: Side, s: int): string
    requires Occupied(side, s)
  {
    side.slots.entries[s].value
  }

  /** The records of `side` other than `a` and `b` are as in `before`, and no key is added
      or removed. */
  predicate OthersKept(before: Roster, after: Roster, a: string, b: string) {
    after.entries.Keys == before.entries.Keys
    && after.order == before.order
    && forall k :: k in before.entries && k != a && k != b ==> after.entries[k] == before.entries[k]
  }

  /** The roster after the pokemon `prev` (if any) leaves its slot: a `KeyError` when it
      has no record. */
  function VacateRecord(team: Roster, prev: Option<string>): (t: Result<Roster>)
    requires team.Valid()
    ensures t.Ok? <==> prev.None? || prev.value in team.entries
    ensures t.Err? ==> t.error == KeyError
    ensures t.Ok? ==> t.value.Valid() && t.value.order == team.order
    ensures t.Ok? && prev.None? ==> t.value == team
    ensures t.Ok? && prev.Some? ==> t.value.entries == team.entries[prev.value := Vacate(team.entries[prev.value])]
  {
    match prev
    case None => Ok(team)
    case Some(o) =>
      var p :- team.Get(o);
      Ok(team.Put(o, Vacate(p)))
  }

  /** The roster after the pokemon `id` takes slot `s`: a `KeyError` when it has no record. */
  function EnterRecord(team: Roster, id: string, s: int): (t: Result<Roster>)
    requires team.Valid()
    ensures t.Ok? <==> id in team.entries
    ensures t.Err? ==> t.error == KeyError
    ensures t.Ok? ==> t.value.Valid() && t.value.order == team.order
    ensures t.Ok? ==> t.value.entries == team.entries[id := Enter(team.entries[id], s)]
  {
    var p :- team.Get(id);
    Ok(team.Put(id, Enter(p, s)))
  }

  /** Puts `id` into slot `s`: the previous occupant, if any, is vacated first. Reading a
      slot the table lacks, or a record the roster lacks, raises a `KeyError`. */
  function Occupy(side: Side, s: int, id: string): (r: Result<Side>)
    requires side.Valid()
    ensures r.Ok? <==> s in side.slots.entries
                       && (side.slots.entries[s].Some? ==> side.slots.entries[s].value in side.team.entries)
                       && id in side.team.entries
    ensures r.Err? ==> r.error == KeyError
    ensures r.Ok? ==> r.value.Valid() && Occupies(r.value, s, id)
    ensures r.Ok? ==> r.value.slots.entries == side.slots.entries[s := Some(id)]
                      && r.value.slots.order == side.slots.order
    ensures r.Ok? ==> r.value.team.entries[id] == Enter(side.team.entries[id], s)
    ensures r.Ok? ==> var prev := side.slots.entries[s];
                      OthersKept(side.team, r.value.team, id, if prev.Some? then prev.value else id)
    ensures r.Ok? && side.slots.entries[s].Some? && side.slots.entries[s].value != id ==>
              var prev := side.slots.entries[s].value;
              r.value.team.entries[prev] == Vacate(side.team.entries[prev])
    ensures r.Ok? ==> r.value.(team := side.team, slots := side.slots) == side
  {
    var prev :- side.slots.Get(s);
    var team1 :- VacateRecord(side.team, prev);
    var team2 :- EnterRecord(team1, id, s);
    Ok(side.(team := team2, slots := side.slots.Put(s, Some(id))))
  }

  /** Renames the record stored under `base` to `full`, giving it the species and nickname
      now known; a `KeyError` when `base` is absent. */
  function Promote(team: Roster, base: string, full: string, species: string, identity: string): (r: Result<Roster>)
    requires team.Valid()
    ensures r.Ok? <==> base in team.entries
    ensures r.Err? ==> r.error == KeyError
    ensures r.Ok? ==> r.value.Valid()
    ensures r.Ok? && (full == base || full !in team.entries) ==>
              var t := r.value;
              t.Size() == team.Size()
              && t.order == Remove(team.order, base) + [full]
              && t.Get(full) == Ok(team.entries[base].(species := species, nickname := Some(identity)))
              && (full != base ==> t.Get(base).Err?)
              && (forall k :: k != base && k != full ==> t.Get(k) == team.Get(k))
  {
    var popped :- team.Pop(base);
    var p := popped.0.(species := species, nickname := Some(identity));
    if full == base || full !in team.entries then
      PopThenPut(team, base, full, p);
      Ok(popped.1.Put(full, p))
    else
      Ok(popped.1.Put(full, p))
  }

  // ---------------------------------------------------------------------------
  // switch and drag.

  /** The record built for a pokemon of the opponent seen for the first time. */
  function Newcomer(e: Entrance, cf: string -> string): (p: BattlePokemon)
    ensures p.playerId == e.pokemon.player && p.species == e.species && p.baseSpecies == cf(e.species)
    ensures p.nickname == Some(e.pokemon.identity) && p.level == e.level && p.gender == e.gender
    ensures p.teraType == e.tera && !p.active && p.slot.None? && p.status.None?
  {
    Defaults(e.pokemon.player, e.species, cf(e.species))
      .(nickname := Some(e.pokemon.identity), level := e.level, gender := e.gender, teraType := e.tera)
  }

  function FullIdent(e: Entrance, cf: string -> string): string {
    Ident(e.pokemon.player, cf(e.species), e.gender, Some(e.pokemon.identity))
  }

  function BaseIdent(e: Entrance, cf: string -> string): string {
    Ident(e.pokemon.player, cf(e.species), e.gender, None)
  }

  /** The switch and drag handlers (identical): a pokemon enters its slot. A record known
      under the full identity on either side is moved in; an opponent record known only
      under the base identity is first renamed; any other pokemon must belong to the
      opponent and gets a new record. */
  function SwitchIn(st: BattleState, opponentId: Option<string>, e: Entrance, cf: string -> string): (r: Result<BattleState>)
    requires st.Valid()
    ensures e.pokemon.slot.None? ==> r == Err(AssertionError)
    ensures r.Ok? ==> e.pokemon.slot.Some? && r.value.Valid()
                      && r.value.turn == st.turn && r.value.weather == st.weather && r.value.choice == st.choice
    ensures r.Ok? && FullIdent(e, cf) in st.player.team.entries ==>
              Occupies(r.value.player, SlotIndex(e.pokemon.slot.value), FullIdent(e, cf))
              && r.value.opponent == st.opponent
    ensures r.Ok? && FullIdent(e, cf) !in st.player.team.entries ==>
              Occupies(r.value.opponent, SlotIndex(e.pokemon.slot.value), FullIdent(e, cf))
              && r.value.player == st.player
    ensures r.Ok? && FullIdent(e, cf) !in st.player.team.entries ==>
              r.value.opponent.team.Size() == st.opponent.team.Size()
                + (if FullIdent(e, cf) in st.opponent.team.entries || BaseIdent(e, cf) in st.opponent.team.entries then 0 else 1)
    ensures e.pokemon.slot.Some? && FullIdent(e, cf) !in st.player.team.entries && FullIdent(e, cf) !in st.opponent.team.entries
            && BaseIdent(e, cf) !in st.opponent.team.entries && Some(e.pokemon.player) != opponentId
            ==> r == Err(AssertionError)
    // Each branch is Occupy on the owning side, so Occupy's frame carries over: the other
    // slots keep their entries, the previous occupant is vacated, other records are kept.
    ensures r.Ok? && FullIdent(e, cf) in st.player.team.entries ==>
              Occupy(st.player, SlotIndex(e.pokemon.slot.value), FullIdent(e, cf)) == Ok(r.value.player)
    ensures r.Ok? && FullIdent(e, cf) !in st.player.team.entries && FullIdent(e, cf) in st.opponent.team.entries ==>
              Occupy(st.opponent, SlotIndex(e.pokemon.slot.value), FullIdent(e, cf)) == Ok(r.value.opponent)
    ensures r.Ok? && FullIdent(e, cf) !in st.player.team.entries && FullIdent(e, cf) !in st.opponent.team.entries
            && BaseIdent(e, cf) in st.opponent.team.entries ==>
              var renamed := st.opponent.team.entries[BaseIdent(e, cf)].(species := e.species, nickname := Some(e.pokemon.identity));
              r.value.opponent.team.entries[FullIdent(e, cf)] == Enter(renamed, SlotIndex(e.pokemon.slot.value))
              && BaseIdent(e, cf) !in r.value.opponent.team.entries
    ensures r.Ok? && FullIdent(e, cf) !in st.player.team.entries && FullIdent(e, cf) !in st.opponent.team.entries
            && BaseIdent(e, cf) !in st.opponent.team.entries ==>
              Some(e.pokemon.player) == opponentId
              && Occupy(st.opponent.(team := st.opponent.team.Put(FullIdent(e, cf), Newcomer(e, cf))),
                        SlotIndex(e.pokemon.slot.value), FullIdent(e, cf)) == Ok(r.value.opponent)
              && r.value.opponent.team.entries[FullIdent(e, cf)] == Enter(Newcomer(e, cf), SlotIndex(e.pokemon.slot.value))
  {
    var s :- CheckedSlot(e.pokemon);
    var full := FullIdent(e, cf);
    var base := BaseIdent(e, cf);
    if full in st.player.team.entries then
      var side :- Occupy(st.player, s, full);
      Ok(st.(player := side))
    else if full in st.opponent.team.entries then
      var side :- Occupy(st.opponent, s, full);
      Ok(st.(opponent := side))
    else if base in st.opponent.team.entries then
      var team := Promote(st.opponent.team, base, full, e.species, e.pokemon.identity).value;
      var side :- Occupy(st.opponent.(team := team), s, full);
      Ok(st.(opponent := side))
    else
      var _ :- Check(Some(e.pokemon.player) == opponentId);
      var side :- Occupy(st.opponent.(team := st.opponent.team.Put(full, Newcomer(e, cf))), s, full);
      Ok(st.(opponent := side))
  }

  // ---------------------------------------------------------------------------
  // Events about the occupant of a slot.

  /** The occupant of slot `s`, after `assert slots[s] is not None`: a `KeyError` for a
      missing slot, an `AssertionError` for an empty one. */
  function RequireOccupant(side: Side, s: int): (r: Result<string>)
    ensures r.Ok? <==> s in side.slots.entries && side.slots.entries[s].Some?
    ensures r.Ok? ==> side.slots.entries[s] == Some(r.value)
    ensures r.Err? ==> r.error == (if s in side.slots.entries then AssertionError else KeyError)
  {
    var occupant :- side.slots.Get(s);
    var _ :- Check(occupant.Some?);
    Ok(occupant.value)
  }

  /** The error an occupant lookup raises: an `AssertionError` for an empty slot, a
      `KeyError` for a missing slot or record. */
  function OccupantFault(side: Side, s: int): Fault {
    if s in side.slots.entries && side.slots.entries[s].None? then AssertionError else KeyError
  }

  /** Applies `f` to the record of the occupant of slot `s`. */
  function UpdateOccupant(side: Side, s: int, f: BattlePokemon -> BattlePokemon): (r: Result<Side>)
    requires side.Valid()
    ensures r.Ok? <==> Occupied(side, s)
    ensures r.Err? ==> r.error == OccupantFault(side, s)
    ensures r.Ok? ==> r.value.Valid() && OthersKept(side.team, r.value.team, OccupantOf(side, s), OccupantOf(side, s))
    ensures r.Ok? ==> r.value.team.entries[OccupantOf(side, s)] == f(side.team.entries[OccupantOf(side, s)])
    ensures r.Ok? ==> r.value == side.(team := r.value.team)
  {
    var id :- RequireOccupant(side, s);
    var p :- side.team.Get(id);
    Ok(side.(team := side.team.Put(id, f(p))))
  }

  /** Whether an event about `ref` concerns the player's own side. */
  predicate Mine(ref: PokemonRef, playerId: Option<string>) {
    Some(ref.player) == playerId
  }

  /** The side-level result of an event, carried back into the state: the other side and
      the rest of the state are untouched. */
  predicate Lifted(st: BattleState, mine: bool, r: Result<BattleState>, side: Result<Side>) {
    (r.Ok? <==> side.Ok?)
    && (r.Err? ==> r.error == side.error)
    && (r.Ok? ==> SideOf(r.value, mine) == side.value && SideOf(r.value, !mine) == SideOf(st, !mine)
                  && r.value.turn == st.turn && r.value.weather == st.weather && r.value.choice == st.choice)
  }

  // ---------------------------------------------------------------------------
  // detailschange and replace.

  /** A forme change of the occupant of slot `s`: its record moves to the key `full` with
      the new species and base species, and the slot names `full`. */
  function ChangeSide(side: Side, s: int, full: string, species: string, baseSpecies: string): (r: Result<Side>)
    requires side.Valid()
    ensures r.Ok? <==> Occupied(side, s)
    ensures r.Err? ==> r.error == OccupantFault(side, s)
    ensures r.Ok? ==> var prev := OccupantOf(side, s);
              r.value.Valid()
              && r.value.slots.entries == side.slots.entries[s := Some(full)]
              && r.value.slots.order == side.slots.order
              && r.value.team.entries
                 == (side.team.entries - {prev})[full := side.team.entries[prev].(species := species, baseSpecies := baseSpecies)]
              && r.value == side.(team := r.value.team, slots := r.value.slots)
    ensures r.Ok? && (full == OccupantOf(side, s) || full !in side.team.entries) ==>
              r.value.team.order == Remove(side.team.order, OccupantOf(side, s)) + [full]
              && r.value.team.Size() == side.team.Size()
  {
    var prev :- RequireOccupant(side, s);
    var popped :- side.team.Pop(prev);
    var p := popped.0.(species := species, baseSpecies := baseSpecies);
    var team := popped.1.Put(full, p);
    if full == prev || full !in side.team.entries then
      PopThenPut(side.team, prev, full, p);
      Ok(side.(team := team, slots := side.slots.Put(s, Some(full))))
    else
      Ok(side.(team := team, slots := side.slots.Put(s, Some(full))))
  }

  /** The detailschange handler: the occupant of the slot changes forme. */
  function ChangeDetails(st: BattleState, playerId: Option<string>, ref: PokemonRef, species: string,
                         gender: Option<Gender>, cf: string -> string): (r: Result<BattleState>)
    requires st.Valid()
    ensures ref.slot.None? ==> r == Err(AssertionError)
    ensures ref.slot.Some? ==>
              var mine := Mine(ref, playerId);
              var full := Ident(ref.player, cf(species), gender, Some(ref.identity));
              Lifted(st, mine, r, ChangeSide(SideOf(st, mine), SlotIndex(ref.slot.value), full, species, cf(species)))
    ensures r.Ok? ==> r.value.Valid()
  {
    var s :- CheckedSlot(ref);
    var mine := Mine(ref, playerId);
    var full := Ident(ref.player, cf(species), gender, Some(ref.identity));
    var side :- ChangeSide(SideOf(st, mine), s, full, species, cf(species));
    Ok(WithSide(st, mine, side))
  }

  /** The slots other than `s` whose occupant is `id`, in table order. */
  function OtherSlotsOf(order: seq<int>, table: map<int, Option<string>>, s: int, id: Option<string>): (ks: seq<int>)
    requires forall i :: 0 <= i < |order| ==> order[i] in table
    ensures forall k :: k in ks <==> k in order && k != s && table[k] == id
    ensures |ks| <= |order|
  {
    if |order| == 0 then []
    else
      var rest := OtherSlotsOf(order[1..], table, s, id);
      if order[0] != s && table[order[0]] == id then [order[0]] + rest else rest
  }

  /** The other slots the occupant of slot `s` also occupies. */
  function Doubles(side: Side, s: int): seq<int>
    requires side.Valid() && s in side.slots.entries
  {
    OtherSlotsOf(side.slots.order, side.slots.entries, s, side.slots.entries[s])
  }

  const IllusionMessage: string := "More than 1 pokemon with the ability Illusion!"

  /** The slot the illusion's record points at after the reveal: the one other slot its
      identity still occupies, or none. */
  function IllusionSlot(ds: seq<int>): Option<int> {
    if |ds| == 0 then None else Some(ds[0])
  }

  /** An illusion in slot `s` is revealed to be `full`. The illusion's record points at the
      other slot its identity occupies, or at none; two such slots raise a `RuntimeError`.
      On the opponent's side (`mine` false) a `full` without a record takes over the record
      stored under `base`, which must exist. */
  function ReplaceSide(side: Side, s: int, mine: bool, full: string, base: string,
                       species: string, baseSpecies: string, identity: string): (r: Result<Side>)
    requires side.Valid()
    ensures r.Ok? ==> Occupied(side, s) && |Doubles(side, s)| <= 1
    ensures Occupied(side, s) && |Doubles(side, s)| >= 2 ==> r == Err(RuntimeError(IllusionMessage))
    ensures Occupied(side, s) && |Doubles(side, s)| <= 1 ==>
              (r.Ok? <==> mine || full in side.team.entries || base in side.team.entries)
    ensures r.Ok? ==>
              r.value.Valid()
              && r.value.slots.entries == side.slots.entries[s := Some(full)]
              && r.value.slots.order == side.slots.order
              && r.value == side.(team := r.value.team, slots := r.value.slots)
    ensures r.Ok? && (mine || full in side.team.entries) ==>
              var id := OccupantOf(side, s);
              r.value.team.entries == side.team.entries[id := side.team.entries[id].(slot := IllusionSlot(Doubles(side, s)))]
    ensures r.Ok? && !mine && full !in side.team.entries ==>
              full in r.value.team.entries && base !in r.value.team.entries
              && r.value.team.Size() == side.team.Size()
              && r.value.team.entries[full].species == species
              && r.value.team.entries[full].baseSpecies == baseSpecies
              && r.value.team.entries[full].nickname == Some(identity)
  {
    var prev :- RequireOccupant(side, s);
    var matches := Doubles(side, s);
    var _ :- if |matches| >= 2 then Err(RuntimeError(IllusionMessage)) else Ok(());
    var unmasked :- UpdateOccupant(side, s, (p: BattlePokemon) => p.(slot := IllusionSlot(matches)));
    var team :- Adopt(unmasked.team, mine, full, base, species, baseSpecies, identity);
    Ok(unmasked.(team := team, slots := unmasked.slots.Put(s, Some(full))))
  }

  /** On the opponent's side, a revealed pokemon without a record takes over the record
      stored under its base identity, which must exist. */
  function Adopt(team: Roster, mine: bool, full: string, base: string,
                 species: string, baseSpecies: string, identity: string): (r: Result<Roster>)
    requires team.Valid()
    ensures r.Ok? <==> mine || full in team.entries || base in team.entries
    ensures r.Err? ==> r.error == AssertionError
    ensures r.Ok? ==> r.value.Valid()
    ensures r.Ok? && (mine || full in team.entries) ==> r.value == team
    ensures r.Ok? && !mine && full !in team.entries ==>
              full in r.value.entries && base !in r.value.entries
              && r.value.Size() == team.Size()
              && r.value.entries[full] == team.entries[base].(baseSpecies := baseSpecies, species := species, nickname := Some(identity))
  {
    if mine || full in team.entries then Ok(team)
    else
      var _ :- Check(base in team.entries);
      var popped := team.Pop(base).value;
      var q := popped.0.(baseSpecies := baseSpecies, species := species, nickname := Some(identity));
      PopThenPut(team, base, full, q);
      Ok(popped.1.Put(full, q))
  }

  /** The replace handler: the occupant of the slot was an illusion. */
  function Replace(st: BattleState, playerId: Option<string>, ref: PokemonRef, species: string,
                   gender: Option<Gender>, cf: string -> string): (r: Result<BattleState>)
    requires st.Valid()
    ensures ref.slot.None? ==> r == Err(AssertionError)
    ensures ref.slot.Some? ==>
              var mine := Mine(ref, playerId);
              Lifted(st, mine, r, ReplaceSide(SideOf(st, mine), SlotIndex(ref.slot.value), mine,
                                              Ident(ref.player, cf(species), gender, Some(ref.identity)),
                                              Ident(ref.player, cf(species), gender, None),
                                              species, cf(species), ref.identity))
    ensures r.Ok? ==> r.value.Valid()
  {
    var s :- CheckedSlot(ref);
    var mine := Mine(ref, playerId);
    var side :- ReplaceSide(SideOf(st, mine), s, mine,
                            Ident(ref.player, cf(species), gender, Some(ref.identity)),
                            Ident(ref.player, cf(species), gender, None),
                            species, cf(species), ref.identity);
    Ok(WithSide(st, mine, side))
  }

  // ---------------------------------------------------------------------------
  // swap and faint.

  /** A record pointing at slot `s`. */
  function Pointing(p: BattlePokemon, s: int): BattlePokemon {
    p.(slot := Some(s))
  }

  /** Points the record of `id` at slot `s`: a `KeyError` when it has no record. */
  function Repoint(team: Roster, id: string, s: int): (t: Result<Roster>)
    requires team.Valid()
    ensures t.Ok? <==> id in team.entries
    ensures t.Err? ==> t.error == KeyError
    ensures t.Ok? ==> t.value.Valid() && t.value.order == team.order
    ensures t.Ok? ==> t.value.entries == team.entries[id := Pointing(team.entries[id], s)]
  {
    var p :- team.Get(id);
    Ok(team.Put(id, p.(slot := Some(s))))
  }

  /** Exchanges the occupants of slots `a` and `b` and the slots their records point at.
      Both slots must be occupied. */
  function SwapSide(side: Side, a: int, b: int): (r: Result<Side>)
    requires side.Valid()
    ensures r.Ok? <==> Occupied(side, a) && Occupied(side, b)
    ensures r.Ok? ==>
              var ia := OccupantOf(side, a);
              var ib := OccupantOf(side, b);
              var t := r.value;
              t.Valid()
              && t.slots.order == side.slots.order
              && t.slots.entries == side.slots.entries[a := Some(ib)][b := Some(ia)]
              && t.team.order == side.team.order
              && t.team.entries == side.team.entries[ia := Pointing(side.team.entries[ia], b)]
                                                    [ib := Pointing(side.team.entries[ib], a)]
              && t == side.(team := t.team, slots := t.slots)
  {
    var origId :- RequireOccupant(side, a);
    var newId :- RequireOccupant(side, b);
    var team1 :- Repoint(side.team, origId, b);
    var team2 :- Repoint(team1, newId, a);
    Ok(side.(team := team2, slots := side.slots.Put(a, Some(newId)).Put(b, Some(origId))))
  }

  /** After one swap, slot `a` holds what `b` held and `b` what `a` held. */
  lemma SwapOnce(side: Side, a: int, b: int)
    requires side.Valid() && SwapSide(side, a, b).Ok?
    ensures var once := SwapSide(side, a, b).value;
            once.Valid() && Occupied(once, a) && Occupied(once, b)
            && OccupantOf(once, a) == OccupantOf(side, b) && OccupantOf(once, b) == OccupantOf(side, a)
  {
    var once := SwapSide(side, a, b).value;
    var ia := OccupantOf(side, a);
    var ib := OccupantOf(side, b);
    if a == b {
      assert ia == ib;
    }
    assert once.slots.entries[a] == Some(ib);
  }

  /** Swapping the same two slots twice restores the slot table. */
  lemma SwapTwiceSlots(side: Side, a: int, b: int)
    requires side.Valid() && SwapSide(side, a, b).Ok?
    ensures SwapSide(SwapSide(side, a, b).value, a, b).Ok?
    ensures SwapSide(SwapSide(side, a, b).value, a, b).value.slots == side.slots
  {
    SwapOnce(side, a, b);
    var once := SwapSide(side, a, b).value;
    var ia := OccupantOf(side, a);
    var ib := OccupantOf(side, b);
    var twice := SwapSide(once, a, b).value;
    var m := side.slots.entries;
    assert once.slots.entries == m[a := Some(ib)][b := Some(ia)];
    assert twice.slots.entries == once.slots.entries[a := Some(ia)][b := Some(ib)];
    RestoreTwo(m, a, Some(ib), Some(ia), b, Some(ia), Some(ib));
  }

  /** Writing two keys and then writing back their old values restores the map. */
  lemma RestoreTwo<K, V>(m: map<K, V>, a: K, x: V, ma: V, b: K, y: V, mb: V)
    requires a in m && b in m && m[a] == ma && m[b] == mb
    requires a == b ==> ma == mb
    ensures m[a := x][b := y][a := ma][b := mb] == m
  {
  }

  /** When both records pointed at their own slots, swapping twice restores the roster. */
  lemma SwapTwiceTeam(side: Side, a: int, b: int)
    requires side.Valid() && SwapSide(side, a, b).Ok?
    requires side.team.entries[OccupantOf(side, a)].slot == Some(a)
    requires side.team.entries[OccupantOf(side, b)].slot == Some(b)
    ensures SwapSide(SwapSide(side, a, b).value, a, b).Ok?
    ensures SwapSide(SwapSide(side, a, b).value, a, b).value.team == side.team
  {
    SwapOnce(side, a, b);
    var once := SwapSide(side, a, b).value;
    var twice := SwapSide(once, a, b).value;
    TeamRestored(side.team.entries, OccupantOf(side, a), OccupantOf(side, b), a, b, once.team.entries, twice.team.entries);
  }

  lemma TeamRestored(m: map<string, BattlePokemon>, ia: string, ib: string, a: int, b: int,
                     once: map<string, BattlePokemon>, twice: map<string, BattlePokemon>)
    requires ia in m && ib in m && m[ia].slot == Some(a) && m[ib].slot == Some(b)
    requires once == m[ia := Pointing(m[ia], b)][ib := Pointing(m[ib], a)]
    requires twice == once[ib := Pointing(once[ib], b)][ia := Pointing(once[ia], a)]
    ensures twice == m
  {
    var x := Pointing(m[ia], b);
    var y := Pointing(m[ib], a);
    assert once[ib] == y;
    assert once[ia] == (if ia == ib then y else x);
    PointingBack(m[ib], a, b);
    PointingBack(m[ia], b, a);
    assert Pointing(once[ib], b) == m[ib];
    assert Pointing(once[ia], a) == m[ia];
    RestoreSwapped(m, ia, x, ib, y);
  }

  lemma PointingBack(p: BattlePokemon, s: int, t: int)
    requires p.slot == Some(t)
    ensures Pointing(Pointing(p, s), t) == p
  {
  }

  /** When both records pointed at their own slots, swapping twice restores the whole side. */
  lemma SwapTwice(side: Side, a: int, b: int)
    requires side.Valid() && SwapSide(side, a, b).Ok?
    requires side.team.entries[OccupantOf(side, a)].slot == Some(a)
    requires side.team.entries[OccupantOf(side, b)].slot == Some(b)
    ensures SwapSide(SwapSide(side, a, b).value, a, b) == Ok(side)
  {
    SwapTwiceSlots(side, a, b);
    SwapTwiceTeam(side, a, b);
  }

  /** Writing two keys and then writing back their old values in reverse order restores the map. */
  lemma RestoreSwapped<K, V>(m: map<K, V>, a: K, x: V, b: K, y: V)
    requires a in m && b in m
    ensures m[a := x][b := y][b := m[b]][a := m[a]] == m
  {
  }

  /** The swap handler: slot letter `a` and position `p` (counted from 0) exchange occupants. */
  function SwapSlots(st: BattleState, playerId: Option<string>, ref: PokemonRef, position: int): (r: Result<BattleState>)
    requires st.Valid()
    ensures ref.slot.None? ==> r == Err(AssertionError)
    ensures ref.slot.Some? ==>
              Lifted(st, Mine(ref, playerId), r, SwapSide(SideOf(st, Mine(ref, playerId)), SlotIndex(ref.slot.value), position + 1))
    ensures r.Ok? ==> r.value.Valid()
  {
    var a :- CheckedSlot(ref);
    var mine := Mine(ref, playerId);
    var side :- SwapSide(SideOf(st, mine), a, position + 1);
    Ok(WithSide(st, mine, side))
  }

  /** The record of a pokemon that has fainted. */
  function Fainted(p: BattlePokemon): BattlePokemon {
    p.(status := Some(FaintedStatus), active := false, slot := None)
  }

  /** The occupant of slot `s` faints: its record is marked fainted, inactive and out of
      every slot, and the slot becomes empty. */
  function FaintSide(side: Side, s: int): (r: Result<Side>)
    requires side.Valid()
    ensures r.Ok? <==> Occupied(side, s)
    ensures r.Err? ==> r.error == OccupantFault(side, s)
    ensures r.Ok? ==> var id := OccupantOf(side, s);
              r.value.Valid()
              && r.value.slots.entries == side.slots.entries[s := None]
              && r.value.slots.order == side.slots.order
              && OthersKept(side.team, r.value.team, id, id)
              && r.value.team.entries[id].status == Some(FaintedStatus)
              && !r.value.team.entries[id].active && r.value.team.entries[id].slot.None?
              && r.value.team.entries[id] == side.team.entries[id].(status := Some(FaintedStatus), active := false, slot := None)
              && r.value == side.(team := r.value.team, slots := r.value.slots)
  {
    var t :- UpdateOccupant(side, s, Fainted);
    Ok(t.(slots := t.slots.Put(s, None)))
  }

  /** The faint handler. */
  function FaintSlot(st: BattleState, playerId: Option<string>, ref: PokemonRef): (r: Result<BattleState>)
    requires st.Valid()
    ensures ref.slot.None? ==> r == Err(AssertionError)
    ensures ref.slot.Some? ==>
              Lifted(st, Mine(ref, playerId), r, FaintSide(SideOf(st, Mine(ref, playerId)), SlotIndex(ref.slot.value)))
    ensures r.Ok? ==> r.value.Valid()
  {
    var s :- CheckedSlot(ref);
    var mine := Mine(ref, playerId);
    var side :- FaintSide(SideOf(st, mine), s);
    Ok(WithSide(st, mine, side))
  }

  // ---------------------------------------------------------------------------
  // One-time resources.

  /** The occupant of slot `s` terastallizes into `teraType`, and the side has used its
      terastallization. */
  function TeraSide(side: Side, s: int, teraType: string): (r: Result<Side>)
    requires side.Valid()
    ensures r.Ok? <==> Occupied(side, s)
    ensures r.Err? ==> r.error == OccupantFault(side, s)
    ensures r.Ok? ==> var id := OccupantOf(side, s);
              r.value.Valid() && r.value.hasTeratyped
              && OthersKept(side.team, r.value.team, id, id)
              && r.value.team.entries[id] == side.team.entries[id].(teraType := Some(teraType), isTera := true)
              && r.value == side.(team := r.value.team, hasTeratyped := true)
  {
    var t :- UpdateOccupant(side, s, (p: BattlePokemon) => p.(teraType := Some(teraType), isTera := true));
    Ok(t.(hasTeratyped := true))
  }

  /** The terastallize handler; without a slot letter `"abc".find(None)` raises a `TypeError`. */
  function Terastallize(st: BattleState, playerId: Option<string>, ref: PokemonRef, teraType: string): (r: Result<BattleState>)
    requires st.Valid()
    ensures ref.slot.None? ==> r == Err(TypeError)
    ensures ref.slot.Some? ==>
              Lifted(st, Mine(ref, playerId), r, TeraSide(SideOf(st, Mine(ref, playerId)), SlotIndex(ref.slot.value), teraType))
    ensures r.Ok? ==> r.value.Valid()
  {
    var s :- UncheckedSlot(ref);
    var mine := Mine(ref, playerId);
    var side :- TeraSide(SideOf(st, mine), s, teraType);
    Ok(WithSide(st, mine, side))
  }

  /** The occupant of slot `s` mega-evolves and is known to hold `stone`, and the side has
      used its mega evolution. */
  function MegaSide(side: Side, s: int, stone: string): (r: Result<Side>)
    requires side.Valid()
    ensures r.Ok? <==> Occupied(side, s)
    ensures r.Err? ==> r.error == OccupantFault(side, s)
    ensures r.Ok? ==> var id := OccupantOf(side, s);
              r.value.Valid() && r.value.hasMegad
              && OthersKept(side.team, r.value.team, id, id)
              && r.value.team.entries[id] == side.team.entries[id].(isMega := true, items := [stone])
              && r.value == side.(team := r.value.team, hasMegad := true)
  {
    var t :- UpdateOccupant(side, s, (p: BattlePokemon) => p.(isMega := true, items := [stone]));
    Ok(t.(hasMegad := true))
  }

  /** The mega handler; without a slot letter it raises a `TypeError`. */
  function MegaEvolve(st: BattleState, playerId: Option<string>, ref: PokemonRef, stone: string): (r: Result<BattleState>)
    requires st.Valid()
    ensures ref.slot.None? ==> r == Err(TypeError)
    ensures ref.slot.Some? ==>
              Lifted(st, Mine(ref, playerId), r, MegaSide(SideOf(st, Mine(ref, playerId)), SlotIndex(ref.slot.value), stone))
    ensures r.Ok? ==> r.value.Valid()
  {
    var s :- UncheckedSlot(ref);
    var mine := Mine(ref, playerId);
    var side :- MegaSide(SideOf(st, mine), s, stone);
    Ok(WithSide(st, mine, side))
  }

  /** The zpower handler: only the side's flag changes. */
  function ZPower(st: BattleState, playerId: Option<string>, ref: PokemonRef): (t: BattleState)
    ensures var mine := Mine(ref, playerId);
            SideOf(t, mine) == SideOf(st, mine).(hasZmoved := true)
            && SideOf(t, !mine) == SideOf(st, !mine)
  {
    var mine := Mine(ref, playerId);
    WithSide(st, mine, SideOf(st, mine).(hasZmoved := true))
  }
}
