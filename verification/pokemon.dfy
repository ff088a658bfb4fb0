/** One pokemon as the battle tracks it (pokesage/battle/pokemon.py): the record,
    its field defaults, the slot bound checked on construction, and the two
    identity strings `to_id` and `to_base_id`.

    Species, abilities, items, moves, statuses and types are enumeration values
    of an external library; here they are their names. Boosts, conditions and
    the probability attached to each possible item, ability and move are not
    part of this model.
 */
module Pokemon {
  import opened Results
  import opened Text

  datatype Gender = M | F

  datatype HpType = Exact | Fraction

  /** Minimum and maximum of each stat; equal when the stat is known exactly. */
  datatype StatBlock = StatBlock(
    minAttack: Option<int>, minDefence: Option<int>, minSpattack: Option<int>,
    minSpdefence: Option<int>, minSpeed: Option<int>, minHp: Option<int>,
    maxAttack: Option<int>, maxDefence: Option<int>, maxSpattack: Option<int>,
    maxSpdefence: Option<int>, maxSpeed: Option<int>, maxHp: Option<int>)

  const UnknownStats: StatBlock :=
    StatBlock(None, None, None, None, None, None, None, None, None, None, None, None)

  datatype BattlePokemon = BattlePokemon(
    playerId: string,
    species: string,
    baseSpecies: string,
    nickname: Option<string>,
    level: int,
    gender: Option<Gender>,
    hpType: HpType,
    maxHp: Option<int>,
    curHp: Option<int>,
    teamPos: Option<int>,
    slot: Option<int>,
    active: bool,
    stats: StatBlock,
    hasItem: Option<bool>,
    items: seq<string>,
    abilities: seq<string>,
    overwrittenAbility: Option<string>,
    moveset: seq<string>,
    status: Option<string>,
    teraType: Option<string>,
    isTera: bool,
    isMega: bool,
    isDynamax: bool,
    isReviving: bool)

  /** A record built from the three mandatory fields, every other field at its default. */
  function Defaults(playerId: string, species: string, baseSpecies: string): (p: BattlePokemon)
    ensures p.playerId == playerId && p.species == species && p.baseSpecies == baseSpecies
    ensures p.level == 100 && p.hpType == Fraction
    ensures p.nickname.None? && p.gender.None? && p.maxHp.None? && p.curHp.None?
    ensures p.teamPos.None? && p.slot.None? && p.hasItem.None? && p.status.None? && p.teraType.None?
    ensures !p.active && !p.isTera && !p.isMega && !p.isDynamax && !p.isReviving
    ensures p.items == [] && p.abilities == [] && p.moveset == [] && p.overwrittenAbility.None?
    ensures p.stats == UnknownStats
    ensures ValidSlot(p.slot)
  {
    BattlePokemon(playerId, species, baseSpecies, None, 100, None, Fraction, None, None, None, None, false,
                  UnknownStats, None, [], [], None, [], None, None, false, false, false, false)
  }

  /** The bound on `slot` checked when a record is built: absent, or 1 to 3. */
  predicate ValidSlot(slot: Option<int>) {
    slot.None? || 1 <= slot.value <= 3
  }

  /** Building a record: a `ValidationError` when the slot is out of bounds. Later
      assignments to `slot` are not checked again. */
  function Validate(p: BattlePokemon): (r: Result<BattlePokemon>)
    ensures r.Ok? <==> p.slot.None? || 1 <= p.slot.value <= 3
    ensures r.Ok? ==> r.value == p
    ensures r.Err? ==> r.error == ValidationError
  {
    if ValidSlot(p.slot) then Ok(p) else Err(ValidationError)
  }

  // ---------------------------------------------------------------------------
  // Identity strings.

  /** How an optional gender shows inside an f-string. */
  function GenderText(g: Option<Gender>): (s: string)
    ensures |s| > 0 && (s[0] == 'M' || s[0] == 'F' || s[0] == 'N')
    ensures Excludes(s, '_')
  {
    match g
    case Some(M) => "M"
    case Some(F) => "F"
    case None => "None"
  }

  /** How an optional name shows inside an f-string. */
  function NameText(n: Option<string>): string {
    match n
    case Some(s) => s
    case None => "None"
  }

  /** Fields joined by underscores, as the f-strings of the original build keys. */
  function Underscored(fields: seq<string>): string {
    Join(fields, "_")
  }

  /** `to_id`: player, species, level, gender and nickname. */
  function ToId(p: BattlePokemon): (r: string)
    ensures p.nickname.None? && p.species == p.baseSpecies ==> r == ToBaseId(p)
  {
    Underscored([p.playerId, p.species, IntToString(p.level), GenderText(p.gender), NameText(p.nickname)])
  }

  /** `to_base_id`: player, base species, level, gender and a literal "None". */
  function ToBaseId(p: BattlePokemon): string {
    Underscored([p.playerId, p.baseSpecies, IntToString(p.level), GenderText(p.gender), "None"])
  }

  /** The key the processor looks records up by: player, species with its forme
      cleaned away, gender and nickname (or "None"), without the level. */
  function Ident(player: string, base: string, gender: Option<Gender>, name: Option<string>): string {
    Underscored([player, base, GenderText(gender), NameText(name)])
  }

  lemma Join4(a: string, b: string, c: string, d: string, sep: string)
    ensures Join([a, b, c, d], sep) == a + sep + b + sep + c + sep + d
  {
    JoinSnoc([a], b, sep);
    assert [a] + [b] == [a, b];
    JoinSnoc([a, b], c, sep);
    assert [a, b] + [c] == [a, b, c];
    JoinSnoc([a, b, c], d, sep);
    assert [a, b, c] + [d] == [a, b, c, d];
  }

  lemma Join5(a: string, b: string, c: string, d: string, e: string, sep: string)
    ensures Join([a, b, c, d, e], sep) == a + sep + b + sep + c + sep + d + sep + e
  {
    Join4(a, b, c, d, sep);
    JoinSnoc([a, b, c, d], e, sep);
    assert [a, b, c, d] + [e] == [a, b, c, d, e];
  }

  /** The base id can be read back field by field when the player id and the base
      species hold no underscore: it depends on exactly those four fields. */
  lemma BaseIdFields(p: BattlePokemon)
    requires Excludes(p.playerId, '_') && Excludes(p.baseSpecies, '_')
    ensures Split(ToBaseId(p), '_') == [p.playerId, p.baseSpecies, IntToString(p.level), GenderText(p.gender), "None"]
  {
    var fields := [p.playerId, p.baseSpecies, IntToString(p.level), GenderText(p.gender), "None"];
    IntToStringExcludes(p.level, '_');
    assert forall k :: 0 <= k < |fields| ==> Excludes(fields[k], '_');
    SplitJoin(fields, '_');
  }

  /** Two records with the same base id agree on player, base species, level and gender,
      whatever their species, nickname or any other field. */
  lemma BaseIdDetermines(p: BattlePokemon, q: BattlePokemon)
    requires Excludes(p.playerId, '_') && Excludes(p.baseSpecies, '_')
    requires Excludes(q.playerId, '_') && Excludes(q.baseSpecies, '_')
    requires ToBaseId(p) == ToBaseId(q)
    ensures p.playerId == q.playerId && p.baseSpecies == q.baseSpecies
    ensures p.level == q.level && p.gender == q.gender
  {
    BaseIdFields(p);
    BaseIdFields(q);
    var sp := Split(ToBaseId(p), '_');
    assert sp[2] == IntToString(p.level) && sp[2] == IntToString(q.level);
    IntToStringInjective(p.level, q.level);
    assert GenderText(p.gender) == GenderText(q.gender);
    assert "M" != "None" && "F" != "None" && "M" != "F";
  }

  /** The lookup key is never the base id of a record with the same player, base
      species and gender: after the player and species, the base id continues with
      the level (a digit or `-`) and the lookup key with the gender (`M`, `F` or `N`). */
  lemma BaseIdNeverMatchesIdent(p: BattlePokemon, name: Option<string>)
    ensures ToBaseId(p) != Ident(p.playerId, p.baseSpecies, p.gender, name)
  {
    var lvl := IntToString(p.level);
    var g := GenderText(p.gender);
    Join5(p.playerId, p.baseSpecies, lvl, g, "None", "_");
    Join4(p.playerId, p.baseSpecies, g, NameText(name), "_");
    var prefix := p.playerId + "_" + p.baseSpecies + "_";
    var a := ToBaseId(p);
    var b := Ident(p.playerId, p.baseSpecies, p.gender, name);
    assert a == prefix + (lvl + "_" + g + "_" + "None");
    assert b == prefix + (g + "_" + NameText(name));
    assert a[|prefix|] == lvl[0];
    assert b[|prefix|] == g[0];
    IntToStringChars(p.level, 0);
  }
}
