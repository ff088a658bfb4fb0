/** The battle messages the processor reacts to, already classified, and the
    progress states it answers with (pokesage/processors/abstractprocessor.py).

    Classifying a raw simulator line into one of these records is done by an
    external library and is not part of this model; each constructor carries
    exactly the fields its handler reads.
 */
module Messages {
  import opened Results
  import opened Targeting
  import opened Pokemon

  /** What the processor asks of the decision maker after one message. */
  datatype Progress = NoAction | TeamOrderNeeded | MoveNeeded | SwitchNeeded | GameEnd | FullEnd

  /** A pokemon reference `p1a: Name`: the player, the slot letter if any, and the name shown. */
  datatype PokemonRef = PokemonRef(player: string, slot: Option<string>, identity: string)

  /** The details a switch or drag line carries about the incoming pokemon. */
  datatype Entrance = Entrance(
    pokemon: PokemonRef,
    species: string,
    level: int,
    gender: Option<Gender>,
    tera: Option<string>)

  /** The exact stats a request reports for one of the player's pokemon. */
  datatype ReportedStats = ReportedStats(atk: int, def: int, spa: int, spd: int, spe: int)

  /** One entry of the `side` list of a request. */
  datatype RequestPokemon = RequestPokemon(
    identity: string,
    species: string,
    level: int,
    gender: Option<Gender>,
    maxHp: Option<int>,
    curHp: Option<int>,
    stats: ReportedStats,
    item: Option<string>,
    baseAbility: string,
    ability: string,
    moves: seq<string>,
    status: Option<string>,
    teraType: Option<string>,
    terastallized: Option<string>,
    active: bool,
    reviving: bool)

  /** One move of an active pokemon as the request offers it. */
  datatype MoveOption = MoveOption(
    disabled: bool,
    curPp: int,
    target: Option<MoveTarget>,
    canDynamax: bool,
    dynamaxTarget: Option<MoveTarget>,
    canZmove: bool,
    zmoveTarget: Option<MoveTarget>)

  /** The options of one active slot. */
  datatype ActiveOption = ActiveOption(moves: seq<MoveOption>, canTera: bool, canMega: bool, trapped: bool)

  /** A request: the player's team and what the simulator expects next. `kind` is one of
      "TEAMPREVIEW", "ACTIVE", "FORCESWITCH" and "WAIT". */
  datatype Request = Request(
    username: string,
    player: string,
    kind: string,
    pokemon: seq<RequestPokemon>,
    forceSwitch: seq<bool>,
    active: seq<ActiveOption>)

  datatype BattleMessage =
    | Player(username: string, player: string, rating: Option<int>)
    | TeamSize(player: string, number: int)
    | GameType(gametype: string)
    | Gen(gen: int)
    | Tier(formatName: string)
    | Rated
    | Poke(player: string, species: string, level: int, gender: Option<Gender>, tera: Option<string>, hasItem: Option<bool>)
    | TeamPreview
    | RequestMsg(request: Request)
    | Turn(number: int)
    | Win(winner: string)
    | Tie
    | Expire
    | Switch(entrance: Entrance)
    | Drag(entrance: Entrance)
    | DetailsChange(pokemon: PokemonRef, species: string, gender: Option<Gender>)
    | Replace(pokemon: PokemonRef, species: string, gender: Option<Gender>)
    | Swap(pokemon: PokemonRef, position: int)
    | Faint(pokemon: PokemonRef)
    | Terastallize(pokemon: PokemonRef, teraType: string)
    | Mega(pokemon: PokemonRef, megaStone: string)
    | ZPower(pokemon: PokemonRef)
    | Error(message: string)
    | BigError(message: string)
    | Init
    /** Every kind whose handler records nothing (moves, damage, boosts, weather, chat, ...)
        and every kind the processor has no handler for. */
    | Other(kind: string)
}
