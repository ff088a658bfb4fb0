/** The message loop of the processor (pokesage/processors/showdownprocessor.py):
    the dispatch from a classified message to its handler and to the progress
    state returned, the handlers that record the opening details of a battle,
    and the snapshot taken when the player acts.

    The processor's own log (a list of raw lines) and its console output on an
    error are not modelled. Handlers that raise abandon the battle, so an `Err`
    carries no battle.
 */
module Processing {
  import opened Results
  import opened Text
  import opened OrderedDict
  import opened Pokemon
  import opened Choices
  import opened State
  import opened Battles
  import opened Messages
  import SlotEvents
  import Requests
  import Turns

  // ---------------------------------------------------------------------------
  // Opening details.

  /** `player`: the line naming the player fills the player's id and rating, any other
      line the opponent's name, id and rating. */
  function HandlePlayer(b: Battle, username: string, player: string, rating: Option<int>): (c: Battle)
    ensures b.playerName == Some(username) ==>
              c.playerId == Some(player) && c.playerRating == rating
              && c.opponentName == b.opponentName && c.opponentId == b.opponentId && c.opponentRating == b.opponentRating
    ensures b.playerName != Some(username) ==>
              c.opponentName == Some(username) && c.opponentId == Some(player) && c.opponentRating == rating
              && c.playerId == b.playerId && c.playerRating == b.playerRating
    ensures c.states == b.states && c.actions == b.actions && c.playerName == b.playerName
  {
    if b.playerName == Some(username) then b.(playerId := Some(player), playerRating := rating)
    else b.(opponentName := Some(username), opponentId := Some(player), opponentRating := rating)
  }

  /** `teamsize`: the size of the team of the side named. */
  function HandleTeamSize(b: Battle, player: string, number: int): (c: Battle)
    ensures c.playerTeamSize == (if b.playerId == Some(player) then Some(number) else b.playerTeamSize)
    ensures c.opponentTeamSize == (if b.playerId == Some(player) then b.opponentTeamSize else Some(number))
    ensures c == b.(playerTeamSize := c.playerTeamSize, opponentTeamSize := c.opponentTeamSize)
  {
    if b.playerId == Some(player) then b.(playerTeamSize := Some(number))
    else b.(opponentTeamSize := Some(number))
  }

  /** `gametype`: the game type is recorded; for singles, doubles and triples both slot
      tables of the last snapshot become slots 1 to n, all empty. Any other game type
      leaves the tables as they are. */
  function HandleGameType(b: Battle, gametype: string): (r: Result<Battle>)
    requires WellFormed(b)
    ensures SlotLength(Some(gametype)).Err? ==> r == Ok(b.(gametype := Some(gametype)))
    ensures SlotLength(Some(gametype)).Ok? && |b.states| == 0 ==> r == Err(IndexError)
    ensures r.Ok? ==> WellFormed(r.value) && r.value == b.(gametype := Some(gametype), states := r.value.states)
    ensures r.Ok? && SlotLength(Some(gametype)).Ok? ==>
              var n := SlotLength(Some(gametype)).value;
              var st := b.states[|b.states| - 1];
              |r.value.states| == |b.states|
              && r.value.states[..|b.states| - 1] == b.states[..|b.states| - 1]
              && r.value.states[|b.states| - 1] == st.(player := st.player.(slots := EmptySlots(n)),
                                                      opponent := st.opponent.(slots := EmptySlots(n)))
  {
    var named := b.(gametype := Some(gametype));
    match SlotLength(Some(gametype))
    case Err(_) => Ok(named)
    case Ok(n) =>
      var st :- LastState(named);
      Ok(SetLastState(named, st.(player := st.player.(slots := EmptySlots(n)),
                                opponent := st.opponent.(slots := EmptySlots(n)))))
  }

  /** After a game type message the slots of both sides are exactly 1 to n, all empty. */
  lemma GameTypeSlots(b: Battle, gametype: string, s: int)
    requires WellFormed(b) && |b.states| > 0 && SlotLength(Some(gametype)).Ok?
    ensures var r := HandleGameType(b, gametype);
            var n := SlotLength(Some(gametype)).value;
            var st := r.value.states[|r.value.states| - 1];
            r.Ok? && st.player.slots.order == OneTo(n) && st.opponent.slots.order == OneTo(n)
            && (st.player.slots.Get(s) == Ok(None) <==> 1 <= s <= n)
            && (st.opponent.slots.Get(s) == Ok(None) <==> 1 <= s <= n)
  {
  }

  /** The record of an opponent's pokemon seen at team preview. */
  function Previewed(player: string, species: string, level: int, gender: Option<Gender>, tera: Option<string>,
                     hasItem: Option<bool>, cf: string -> string): (p: BattlePokemon)
    ensures p.playerId == player && p.species == species && p.baseSpecies == cf(species)
    ensures p.nickname.None? && p.level == level && p.gender == gender && p.teraType == tera && p.hasItem == hasItem
    ensures p.slot.None? && !p.active && p.teamPos.None?
  {
    Defaults(player, species, cf(species)).(level := level, gender := gender, teraType := tera, hasItem := hasItem)
  }

  /** The key a previewed record is filed under: as written its base id, which holds the
      level; corrected, the base identity the switch handler looks for. */
  function PreviewKey(p: BattlePokemon, asWritten: bool): string {
    if asWritten then ToBaseId(p) else Ident(p.playerId, p.baseSpecies, p.gender, None)
  }

  /** `poke`: a team preview line about the opponent adds a record to the opponent's
      roster; a line about the player is ignored (the request tells more). */
  function HandlePoke(b: Battle, player: string, species: string, level: int, gender: Option<Gender>,
                      tera: Option<string>, hasItem: Option<bool>, cf: string -> string, asWritten: bool)
    : (r: Result<Battle>)
    requires WellFormed(b)
    ensures b.playerId == Some(player) ==> r == Ok(b)
    ensures b.playerId != Some(player) && |b.states| == 0 ==> r == Err(IndexError)
    ensures r.Ok? ==> WellFormed(r.value) && r.value == b.(states := r.value.states) && |r.value.states| == |b.states|
    ensures r.Ok? && b.playerId != Some(player) ==>
              var p := Previewed(player, species, level, gender, tera, hasItem, cf);
              var st := b.states[|b.states| - 1];
              r.value.states[..|b.states| - 1] == b.states[..|b.states| - 1]
              && r.value.states[|b.states| - 1]
                 == st.(opponent := st.opponent.(team := st.opponent.team.Put(PreviewKey(p, asWritten), p)))
  {
    if b.playerId == Some(player) then Ok(b)
    else
      var st :- LastState(b);
      var p := Previewed(player, species, level, gender, tera, hasItem, cf);
      Ok(SetLastState(b, st.(opponent := st.opponent.(team := st.opponent.team.Put(PreviewKey(p, asWritten), p)))))
  }

  /** As written, a pokemon previewed into an empty roster is never found when it switches
      in: the roster holds only its base id, which is neither its full nor its base identity,
      so the switch handler files a second record for the same pokemon. */
  lemma PreviewNotFoundAsWritten(b: Battle, species: string, level: int, gender: Option<Gender>,
                                 tera: Option<string>, hasItem: Option<bool>, e: Entrance, cf: string -> string)
    requires WellFormed(b) && |b.states| > 0 && b.playerId != Some(e.pokemon.player)
    requires b.states[|b.states| - 1].opponent.team.Size() == 0
    requires b.states[|b.states| - 1].player.team.Size() == 0
    requires cf(e.species) == cf(species) && e.gender == gender
    ensures var r := HandlePoke(b, e.pokemon.player, species, level, gender, tera, hasItem, cf, true);
            r.Ok? &&
            var st := r.value.states[|b.states| - 1];
            st.opponent.team.Size() == 1
            && var s := SlotEvents.SwitchIn(st, b.opponentId, e, cf);
               s.Ok? ==> s.value.opponent.team.Size() == 2
  {
    var p := Previewed(e.pokemon.player, species, level, gender, tera, hasItem, cf);
    var prev := b.states[|b.states| - 1];
    Pokemon.BaseIdNeverMatchesIdent(p, None);
    Pokemon.BaseIdNeverMatchesIdent(p, Some(e.pokemon.identity));
  }

  /** Corrected, the previewed record is the one the switch handler finds: switching the
      pokemon in renames that record and adds none. */
  lemma PreviewFoundCorrected(b: Battle, species: string, level: int, gender: Option<Gender>,
                              tera: Option<string>, hasItem: Option<bool>, e: Entrance, cf: string -> string)
    requires WellFormed(b) && |b.states| > 0 && b.playerId != Some(e.pokemon.player)
    requires b.states[|b.states| - 1].opponent.team.Size() == 0
    requires b.states[|b.states| - 1].player.team.Size() == 0
    requires cf(e.species) == cf(species) && e.gender == gender
    ensures var r := HandlePoke(b, e.pokemon.player, species, level, gender, tera, hasItem, cf, false);
            r.Ok? &&
            var st := r.value.states[|b.states| - 1];
            st.opponent.team.Size() == 1
            && var s := SlotEvents.SwitchIn(st, b.opponentId, e, cf);
               s.Ok? ==> s.value.opponent.team.Size() == 1
  {
    var prev := b.states[|b.states| - 1];
  }

  // ---------------------------------------------------------------------------
  // Events about the last snapshot.

  /** Stores the outcome of a handler that works on the last snapshot. */
  function Commit(b: Battle, step: Result<BattleState>): (r: Result<Battle>)
    requires WellFormed(b) && |b.states| > 0
    requires step.Ok? ==> step.value.Valid()
    ensures r.Ok? <==> step.Ok?
    ensures r.Err? ==> r.error == step.error
    ensures r.Ok? ==> WellFormed(r.value) && r.value == SetLastState(b, step.value)
  {
    if step.Err? then Err(step.error) else Ok(SetLastState(b, step.value))
  }

  /** The handlers of the opening messages, which record the battle's details.
      `asWritten` chooses the `poke` handler as written or as corrected. */
  function Opening(b: Battle, bm: BattleMessage, cf: string -> string, asWritten: bool): (r: Result<Battle>)
    requires WellFormed(b)
    requires bm.Player? || bm.TeamSize? || bm.GameType? || bm.Gen? || bm.Tier? || bm.Rated? || bm.Poke?
    ensures r.Ok? ==> WellFormed(r.value) && |r.value.states| == |b.states|
    ensures r.Ok? ==> r.value.actions == b.actions && r.value.playerName == b.playerName
    ensures bm.Gen? ==> r == Ok(b.(gen := Some(bm.gen)))
    ensures bm.Tier? ==> r == Ok(b.(format := Some(NormalizeFormat(bm.formatName))))
    ensures bm.Rated? ==> r == Ok(b.(rated := true))
  {
    match bm
    case Player(username, player, rating) => Ok(HandlePlayer(b, username, player, rating))
    case TeamSize(player, number) => Ok(HandleTeamSize(b, player, number))
    case GameType(gametype) => HandleGameType(b, gametype)
    case Gen(gen) => Ok(b.(gen := Some(gen)))
    case Tier(formatName) => Ok(b.(format := Some(NormalizeFormat(formatName))))
    case Rated => Ok(b.(rated := true))
    case Poke(player, species, level, gender, tera, hasItem) =>
      HandlePoke(b, player, species, level, gender, tera, hasItem, cf, asWritten)
  }

  /** The handlers of the events that change who is in which slot, or what a pokemon
      has become, in the last snapshot. */
  /** The reference whose slot letter a handler asserts before it reads the current
      snapshot: switch, drag, detailschange, replace and swap do; faint, terastallize,
      mega and zpower read the snapshot first. */
  function CheckedFirst(bm: BattleMessage): Option<PokemonRef> {
    match bm
    case Switch(e) => Some(e.pokemon)
    case Drag(e) => Some(e.pokemon)
    case DetailsChange(ref, _, _) => Some(ref)
    case Replace(ref, _, _) => Some(ref)
    case Swap(ref, _) => Some(ref)
    case _ => None
  }

  function SlotEvent(b: Battle, bm: BattleMessage, cf: string -> string): (r: Result<Battle>)
    requires WellFormed(b)
    requires bm.Switch? || bm.Drag? || bm.DetailsChange? || bm.Replace? || bm.Swap? || bm.Faint?
             || bm.Terastallize? || bm.Mega? || bm.ZPower?
    ensures CheckedFirst(bm).Some? && CheckedFirst(bm).value.slot.None? ==> r == Err(AssertionError)
    ensures |b.states| == 0 && (CheckedFirst(bm).None? || CheckedFirst(bm).value.slot.Some?) ==> r == Err(IndexError)
    ensures r.Ok? ==> WellFormed(r.value) && |r.value.states| == |b.states|
    ensures r.Ok? ==> r.value == b.(states := r.value.states)
    ensures r.Ok? ==> r.value.states[..|b.states| - 1] == b.states[..|b.states| - 1]
  {
    if CheckedFirst(bm).Some? && CheckedFirst(bm).value.slot.None? then Err(AssertionError)
    else
    var st :- LastState(b);
    match bm
    case Switch(e) => Commit(b, SlotEvents.SwitchIn(st, b.opponentId, e, cf))
    case Drag(e) => Commit(b, SlotEvents.SwitchIn(st, b.opponentId, e, cf))
    case DetailsChange(ref, species, gender) => Commit(b, SlotEvents.ChangeDetails(st, b.playerId, ref, species, gender, cf))
    case Replace(ref, species, gender) => Commit(b, SlotEvents.Replace(st, b.playerId, ref, species, gender, cf))
    case Swap(ref, position) => Commit(b, SlotEvents.SwapSlots(st, b.playerId, ref, position))
    case Faint(ref) => Commit(b, SlotEvents.FaintSlot(st, b.playerId, ref))
    case Terastallize(ref, teraType) => Commit(b, SlotEvents.Terastallize(st, b.playerId, ref, teraType))
    case Mega(ref, stone) => Commit(b, SlotEvents.MegaEvolve(st, b.playerId, ref, stone))
    case ZPower(ref) => Commit(b, Ok(SlotEvents.ZPower(st, b.playerId, ref)))
  }

  /** The handlers of the messages that end the game, stop the processor or open a battle. */
  function Closing(b: Battle, bm: BattleMessage): (r: Result<Battle>)
    requires WellFormed(b)
    requires bm.Win? || bm.Tie? || bm.Expire? || bm.Error? || bm.BigError? || bm.Init?
    ensures r.Ok? ==> WellFormed(r.value)
    ensures bm.Init? ==> r == Ok(b.(states := b.states + [NewState(1)]))
    ensures bm.Error? || bm.BigError? ==> r.Err? && r.error.RuntimeError?
    ensures bm.Win? ==> r == Ok(b.(playerVictory := Some(Some(bm.winner) == b.playerName)))
    ensures bm.Tie? || bm.Expire? ==> r == Ok(b.(playerVictory := Some(false)))
  {
    match bm
    case Win(winner) => Ok(b.(playerVictory := Some(Some(winner) == b.playerName)))
    case Tie => Ok(b.(playerVictory := Some(false)))
    case Expire => Ok(b.(playerVictory := Some(false)))
    case Error(message) => Err(RuntimeError("Reached error state: " + message))
    case BigError(message) => Err(RuntimeError("Reached big error state: " + message))
    case Init => Ok(b.(states := b.states + [NewState(1)]))
  }

  /** The handler of one message, on the battle record. Messages that record nothing, and
      kinds without a handler, leave the battle as it is. `asWritten` chooses the code as
      written for the request, turn and `poke` handlers, or the code as corrected. */
  function Handle(b: Battle, bm: BattleMessage, cf: string -> string, asWritten: bool): (r: Result<Battle>)
    requires WellFormed(b)
    ensures r.Ok? ==> WellFormed(r.value)
    ensures r.Ok? && !bm.Init? ==> |r.value.states| == |b.states|
    ensures bm.Other? || bm.TeamPreview? ==> r == Ok(b)
  {
    match bm
    case RequestMsg(request) => Requests.HandleRequest(b, request, cf, asWritten)
    case Turn(number) => Turns.HandleTurn(b, number, asWritten)
    case TeamPreview => Ok(b)
    case Other(_) => Ok(b)
    case Win(_) => Closing(b, bm)
    case Tie => Closing(b, bm)
    case Expire => Closing(b, bm)
    case Error(_) => Closing(b, bm)
    case BigError(_) => Closing(b, bm)
    case Init => Closing(b, bm)
    case Switch(_) => SlotEvent(b, bm, cf)
    case Drag(_) => SlotEvent(b, bm, cf)
    case DetailsChange(_, _, _) => SlotEvent(b, bm, cf)
    case Replace(_, _, _) => SlotEvent(b, bm, cf)
    case Swap(_, _) => SlotEvent(b, bm, cf)
    case Faint(_) => SlotEvent(b, bm, cf)
    case Terastallize(_, _) => SlotEvent(b, bm, cf)
    case Mega(_, _) => SlotEvent(b, bm, cf)
    case ZPower(_) => SlotEvent(b, bm, cf)
    case _ => Opening(b, bm, cf, asWritten)
  }

  // ---------------------------------------------------------------------------
  // Dispatch.

  /** The progress state a message kind yields: a team order after a team preview, a
      switch after a forced-switch request, a move at the start of a turn, the end of the
      game after a win, tie or expiry, and nothing to do otherwise. */
  function KindProgress(bm: BattleMessage): (p: Progress)
    ensures p == TeamOrderNeeded <==> bm.TeamPreview?
    ensures p == SwitchNeeded <==> bm.RequestMsg? && bm.request.kind == "FORCESWITCH"
    ensures p == MoveNeeded <==> bm.Turn?
    ensures p == GameEnd <==> bm.Win? || bm.Tie? || bm.Expire?
    ensures p != FullEnd
  {
    match bm
    case TeamPreview => TeamOrderNeeded
    case RequestMsg(request) => if request.kind == "FORCESWITCH" then SwitchNeeded else NoAction
    case Turn(_) => MoveNeeded
    case Win(_) => GameEnd
    case Tie => GameEnd
    case Expire => GameEnd
    case _ => NoAction
  }

  /** `process_bm`: the hook run before the handler may answer at once, the handler runs,
      and the hook run after it may replace the progress state. The hooks belong to
      subclasses; both answer nothing in this processor. */
  function ProcessBm(b: Battle, bm: BattleMessage, cf: string -> string, asWritten: bool,
                     pre: Option<Progress>, post: Option<Progress>)
    : (r: Result<(Battle, Progress)>)
    requires WellFormed(b)
    ensures pre.Some? ==> r == Ok((b, pre.value))
    ensures pre.None? ==> (r.Ok? <==> Handle(b, bm, cf, asWritten).Ok?)
    ensures pre.None? && r.Ok? ==> r.value.0 == Handle(b, bm, cf, asWritten).value && WellFormed(r.value.0)
    ensures pre.None? && r.Ok? ==> r.value.1 == if post.Some? then post.value else KindProgress(bm)
    ensures pre.None? && r.Err? ==> r.error == Handle(b, bm, cf, asWritten).error
  {
    if pre.Some? then Ok((b, pre.value))
    else
      var c :- Handle(b, bm, cf, asWritten);
      Ok((c, if post.Some? then post.value else KindProgress(bm)))
  }

  /** With the hooks of this processor, a message the processor has no handler for asks
      for nothing and changes nothing. */
  lemma UnhandledIsNoAction(b: Battle, kind: string, cf: string -> string, asWritten: bool)
    requires WellFormed(b)
    ensures ProcessBm(b, Other(kind), cf, asWritten, None, None) == Ok((b, NoAction))
  {
  }

  /** A request the player accepts: addressed to the player, to the player id already
      known if any, with a snapshot to answer. */
  predicate Addressed(b: Battle, req: Request) {
    b.playerName == Some(req.username) && (b.playerId.None? || b.playerId == Some(req.player))
    && |b.states| > 0
  }

  /** As written, a battle whose player has a one-pokemon team cannot take a second
      request: the first files the record under its base id, and the second message fails
      with a `KeyError` looking it up. */
  lemma SecondRequestFailsInHandle(b: Battle, req: Request, cf: string -> string)
    requires WellFormed(b) && Addressed(b, req) && b.states[|b.states| - 1].player.team == Empty()
    requires |req.pokemon| == 1
    requires Handle(b, RequestMsg(req), cf, true).Ok?
    ensures Handle(Handle(b, RequestMsg(req), cf, true).value, RequestMsg(req), cf, true) == Err(KeyError)
  {
    var first := Handle(b, RequestMsg(req), cf, true).value;
    var n := |b.states| - 1;
    var team := first.states[n].player.team;
    assert Requests.Absorb(Empty(), req.player, req.pokemon, cf, true) == Ok(team);
    assert req.pokemon == [req.pokemon[0]];
    Requests.SecondRequestFailsAsWritten(req.player, req.pokemon[0], cf);
    assert Requests.Absorb(team, req.player, req.pokemon, cf, true) == Err(KeyError);
    assert first.playerId == Some(req.player) && first.playerName == b.playerName;
    assert LastState(first) == Ok(first.states[n]);
  }

  /** An addressed request whose last snapshot can be answered is handled by answering
      it and naming the player. */
  lemma RequestInHandle(b: Battle, req: Request, cf: string -> string, asWritten: bool)
    requires WellFormed(b) && Addressed(b, req)
    requires Requests.Answered(b.states[|b.states| - 1], req, cf, b.gametype, asWritten).Ok?
    ensures Handle(b, RequestMsg(req), cf, asWritten)
            == Ok(SetLastState(b.(playerId := Some(req.player)),
                               Requests.Answered(b.states[|b.states| - 1], req, cf, b.gametype, asWritten).value))
  {
    assert LastState(b.(playerId := Some(req.player))) == Ok(b.states[|b.states| - 1]);
  }

  /** As corrected, the same request twice is taken: after the second, every reported
      pokemon (with distinct lookup keys) has the record the first built for it, apart from
      its reviving flag, in report order. */
  lemma SecondRequestAcceptedInHandle(b: Battle, req: Request, cf: string -> string)
    requires WellFormed(b) && Addressed(b, req) && b.states[|b.states| - 1].player.team == Empty()
    requires req.kind == "WAIT" || req.kind == "TEAMPREVIEW"
    requires Distinct(Requests.Keys(req.player, req.pokemon, cf))
    ensures var first := Handle(b, RequestMsg(req), cf, false);
            first.Ok? &&
            var second := Handle(first.value, RequestMsg(req), cf, false);
            second.Ok? &&
            var team := second.value.states[|b.states| - 1].player.team;
            team.order == Requests.Keys(req.player, req.pokemon, cf)
            && forall i :: 0 <= i < |req.pokemon| ==>
                 var k := Requests.RequestKey(req.player, req.pokemon[i], cf);
                 k in team.entries
                 && team.entries[k] == Requests.Created(req.player, i, req.pokemon[i], cf, false).(isReviving := req.pokemon[i].reviving)
  {
    var n := |b.states| - 1;
    var st := b.states[n];
    Requests.AnsweredTwice(st, req, cf, b.gametype);
    Requests.SecondRequestRefreshes(req.player, req.pokemon, cf);
    var st1 := Requests.Answered(st, req, cf, b.gametype, false).value;
    var st2 := Requests.Answered(st1, req, cf, b.gametype, false).value;
    RequestInHandle(b, req, cf, false);
    var first := SetLastState(b.(playerId := Some(req.player)), st1);
    assert first.states[n] == st1 && first.gametype == b.gametype;
    assert Addressed(first, req);
    RequestInHandle(first, req, cf, false);
    var second := SetLastState(first.(playerId := Some(req.player)), st2);
    assert Handle(first, RequestMsg(req), cf, false) == Ok(second);
    assert second.states[n].player.team == st2.player.team;
  }


  // ---------------------------------------------------------------------------
  // Acting.

  /** `process_action`: the action is recorded and the last snapshot duplicated, so the
      state before the decision is kept. Recording needs an action list (a processor's
      battle starts with an empty one) and a snapshot. */
  function ProcessAction(b: Battle, action: AnyChoice): (r: Result<Battle>)
    ensures b.actions.None? ==> r == Err(AttributeError)
    ensures b.actions.Some? && |b.states| == 0 ==> r == Err(IndexError)
    ensures r.Ok? <==> b.actions.Some? && |b.states| > 0
    ensures r.Ok? ==> r.value.actions == Some(b.actions.value + [action])
    ensures r.Ok? ==> |r.value.states| == |b.states| + 1 && r.value.states[..|b.states|] == b.states
                      && r.value.states[|b.states|] == b.states[|b.states| - 1]
    ensures r.Ok? ==> r.value == b.(actions := r.value.actions, states := r.value.states)
    ensures WellFormed(b) && r.Ok? ==> WellFormed(r.value)
  {
    if b.actions.None? then Err(AttributeError)
    else
      var st :- LastState(b);
      Ok(b.(actions := Some(b.actions.value + [action]), states := b.states + [st]))
  }
}
