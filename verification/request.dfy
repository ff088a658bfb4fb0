/** The request handler of the processor (pokesage/processors/showdownprocessor.py,
    `processbm_request`): the simulator reports the player's own team with exact
    figures, and says what it expects next. The handler files or refreshes one
    record per reported pokemon and lists the options of the coming decision.

    Targets are not known when a request arrives; the turn handler fills them in.
 */
module Requests {
  import opened Results
  import opened OrderedDict
  import opened Pokemon
  import opened Choices
  import opened State
  import opened Battles
  import opened Messages
  import opened Targeting
  import SlotEvents

  // ---------------------------------------------------------------------------
  // Stats.

  /** Every minimum equals its maximum: the stat is known exactly. */
  predicate Precise(b: StatBlock) {
    b.minAttack == b.maxAttack && b.minDefence == b.maxDefence && b.minSpattack == b.maxSpattack
    && b.minSpdefence == b.maxSpdefence && b.minSpeed == b.maxSpeed && b.minHp == b.maxHp
  }

  /** The stat block of a reported pokemon: each stat, and the hit points, known exactly. */
  function ReportedBlock(s: ReportedStats, maxHp: Option<int>): (b: StatBlock)
    ensures Precise(b)
    ensures b.maxAttack == Some(s.atk) && b.maxDefence == Some(s.def) && b.maxSpattack == Some(s.spa)
    ensures b.maxSpdefence == Some(s.spd) && b.maxSpeed == Some(s.spe) && b.maxHp == maxHp
  {
    StatBlock(Some(s.atk), Some(s.def), Some(s.spa), Some(s.spd), Some(s.spe), maxHp,
              Some(s.atk), Some(s.def), Some(s.spa), Some(s.spd), Some(s.spe), maxHp)
  }

  /** The block as the handler builds it: the maximum special attack is passed under a
      misspelt keyword that the record ignores, so it keeps its default, unknown. */
  function ReportedBlockAsWritten(s: ReportedStats, maxHp: Option<int>): StatBlock {
    StatBlock(Some(s.atk), Some(s.def), Some(s.spa), Some(s.spd), Some(s.spe), maxHp,
              Some(s.atk), Some(s.def), None, Some(s.spd), Some(s.spe), maxHp)
  }

  /** As written, the special attack of a reported pokemon is never known exactly, and the
      block differs from the intended one in that field alone. */
  lemma AsWrittenBlockNotExact(s: ReportedStats, maxHp: Option<int>)
    ensures !Precise(ReportedBlockAsWritten(s, maxHp))
    ensures ReportedBlockAsWritten(s, maxHp) == ReportedBlock(s, maxHp).(maxSpattack := None)
  {
  }

  // ---------------------------------------------------------------------------
  // Records.

  /** The possible items: the reported item with certainty, or none. */
  function KnownItems(item: Option<string>): (items: seq<string>)
    ensures |items| <= 1
    ensures forall x :: x in items <==> item == Some(x)
  {
    if item.None? then [] else [item.value]
  }

  /** The key under which a reported pokemon is looked up: player, species with its forme
      cleaned away, gender and name. */
  function RequestKey(player: string, rp: RequestPokemon, cf: string -> string): string {
    Ident(player, cf(rp.species), rp.gender, Some(rp.identity))
  }

  /** The record built for the `e`-th reported pokemon (counting from 0) the first time
      it is seen. The reviving flag keeps its default. `asWritten` chooses the stat block
      the handler builds, whose maximum special attack stays unknown, or the intended one. */
  function Created(player: string, e: nat, rp: RequestPokemon, cf: string -> string, asWritten: bool): (p: BattlePokemon)
    ensures p.playerId == player && p.species == rp.species && p.baseSpecies == cf(rp.species)
    ensures p.nickname == Some(rp.identity) && p.level == rp.level && p.gender == rp.gender
    ensures p.hpType == Exact && p.maxHp == rp.maxHp && p.curHp == rp.curHp
    ensures p.teamPos == Some(e + 1) && p.slot.None? && p.active == rp.active
    ensures p.stats.(maxSpattack := Some(rp.stats.spa)) == ReportedBlock(rp.stats, rp.maxHp)
    ensures Precise(p.stats) <==> !asWritten
    ensures p.hasItem == Some(rp.item.Some?) && p.items == KnownItems(rp.item)
    ensures p.abilities == [rp.baseAbility]
    ensures p.overwrittenAbility == (if rp.ability == rp.baseAbility then None else Some(rp.ability))
    ensures p.moveset == rp.moves && p.status == rp.status && p.teraType == rp.teraType
    ensures p.isTera == rp.terastallized.Some? && !p.isMega && !p.isDynamax && !p.isReviving
  {
    BattlePokemon(
      player, rp.species, cf(rp.species), Some(rp.identity), rp.level, rp.gender, Exact,
      rp.maxHp, rp.curHp, Some(e + 1), None, rp.active,
      if asWritten then ReportedBlockAsWritten(rp.stats, rp.maxHp) else ReportedBlock(rp.stats, rp.maxHp),
      Some(rp.item.Some?), KnownItems(rp.item), [rp.baseAbility], Overwriting(rp, rp.baseAbility),
      rp.moves, rp.status, rp.teraType, rp.terastallized.Some?, false, false, false)
  }

  /** A known record brought up to date by the `e`-th reported pokemon. The maximum hit
      points are kept when the report has none; abilities and moves are filled in only
      when still empty; the ability counts as overwritten unless it is the base ability or
      the first known one. Identity, level, slot and stats are kept. */
  function Refreshed(p: BattlePokemon, e: nat, rp: RequestPokemon): (q: BattlePokemon)
    ensures q.playerId == p.playerId && q.species == p.species && q.baseSpecies == p.baseSpecies
    ensures q.nickname == p.nickname && q.level == p.level && q.gender == p.gender
    ensures q.slot == p.slot && q.stats == p.stats && q.hpType == p.hpType
    ensures q.isMega == p.isMega && q.isDynamax == p.isDynamax
    ensures q.maxHp == (if rp.maxHp.Some? then rp.maxHp else p.maxHp) && q.curHp == rp.curHp
    ensures q.hasItem == Some(rp.item.Some?) && q.items == KnownItems(rp.item)
    ensures |q.abilities| > 0 && (|p.abilities| > 0 ==> q.abilities == p.abilities)
    ensures q.overwrittenAbility.Some? <==> rp.ability != rp.baseAbility && rp.ability != q.abilities[0]
    ensures q.overwrittenAbility.Some? ==> q.overwrittenAbility == Some(rp.ability)
    ensures q.moveset == (if |p.moveset| == 0 then rp.moves else p.moveset)
    ensures q.status == rp.status && q.teraType == rp.teraType && q.isTera == rp.terastallized.Some?
    ensures q.teamPos == Some(e + 1) && q.active == rp.active && q.isReviving == rp.reviving
  {
    var abilities := if |p.abilities| == 0 then [rp.baseAbility] else p.abilities;
    BattlePokemon(
      p.playerId, p.species, p.baseSpecies, p.nickname, p.level, p.gender, p.hpType,
      if rp.maxHp.Some? then rp.maxHp else p.maxHp, rp.curHp, Some(e + 1), p.slot, rp.active, p.stats,
      Some(rp.item.Some?), KnownItems(rp.item), abilities, Overwriting(rp, abilities[0]),
      if |p.moveset| == 0 then rp.moves else p.moveset, rp.status, rp.teraType, rp.terastallized.Some?,
      p.isMega, p.isDynamax, rp.reviving)
  }

  /** The reported ability when it is neither the base ability nor the first known one. */
  function Overwriting(rp: RequestPokemon, first: string): (r: Option<string>)
    ensures r.Some? <==> rp.ability != rp.baseAbility && rp.ability != first
    ensures r.Some? ==> r.value == rp.ability
  {
    if rp.ability == rp.baseAbility || rp.ability == first then None else Some(rp.ability)
  }

  /** Refreshing a record twice with the same report is refreshing it once. */
  lemma RefreshIdempotent(p: BattlePokemon, e: nat, rp: RequestPokemon)
    ensures Refreshed(Refreshed(p, e, rp), e, rp) == Refreshed(p, e, rp)
  {
  }

  /** Refreshing a record with the report that created it changes only the reviving flag,
      which creation leaves at its default. */
  lemma CreatedThenRefreshed(player: string, e: nat, rp: RequestPokemon, cf: string -> string, asWritten: bool)
    ensures Refreshed(Created(player, e, rp, cf, asWritten), e, rp) == Created(player, e, rp, cf, asWritten).(isReviving := rp.reviving)
  {
  }

  /** The lookup keys of reported pokemon, in report order. */
  function Keys(player: string, rps: seq<RequestPokemon>, cf: string -> string): (ks: seq<string>)
    ensures |ks| == |rps|
    ensures forall i :: 0 <= i < |rps| ==> ks[i] == RequestKey(player, rps[i], cf)
  {
    seq(|rps|, i requires 0 <= i < |rps| => RequestKey(player, rps[i], cf))
  }

  /** The base ids of the records the handler creates for reported pokemon, in report
      order. They depend neither on the team position nor on the stat block. */
  function BaseIds(player: string, rps: seq<RequestPokemon>, cf: string -> string): (ids: seq<string>)
    ensures |ids| == |rps|
    ensures forall i :: 0 <= i < |rps| ==> ids[i] == ToBaseId(Created(player, i, rps[i], cf, true))
  {
    seq(|rps|, i requires 0 <= i < |rps| => ToBaseId(Created(player, i, rps[i], cf, true)))
  }

  /** One pass of the loop over the reported pokemon, for the report `rp` at index `e`,
      whose lookup key is `key`. While the team has exactly `e` records the pokemon is
      new: its record `create(e, rp)` is filed under `filed`. Otherwise its record is
      looked up, a `KeyError` when missing, and replaced by `refresh(p, e, rp)`. */
  function FileOne(team: Roster, key: string, filed: string, rp: RequestPokemon, e: nat,
                   create: (nat, RequestPokemon) -> BattlePokemon,
                   refresh: (BattlePokemon, nat, RequestPokemon) -> BattlePokemon): (r: Result<Roster>)
    requires team.Valid()
    ensures r.Ok? ==> r.value.Valid()
    ensures r.Err? ==> r.error == KeyError
    ensures team.Size() == e ==> r == Ok(team.Put(filed, create(e, rp)))
    ensures team.Size() != e ==> (r.Ok? <==> key in team.entries)
    ensures team.Size() != e && r.Ok? ==> r.value == team.Put(key, refresh(team.entries[key], e, rp))
  {
    if team.Size() == e then Ok(team.Put(filed, create(e, rp)))
    else
      var p :- team.Get(key);
      Ok(team.Put(key, refresh(p, e, rp)))
  }

  /** The loop over the reported pokemon `rps`, from the one at index `e` on; `ks` are
      their lookup keys and `filed` the keys new records are filed under. */
  function Filing(team: Roster, rps: seq<RequestPokemon>, ks: seq<string>, filed: seq<string>, e: nat,
                  create: (nat, RequestPokemon) -> BattlePokemon,
                  refresh: (BattlePokemon, nat, RequestPokemon) -> BattlePokemon): (r: Result<Roster>)
    requires team.Valid() && |ks| == |rps| && |filed| == |rps| && e <= |rps|
    ensures r.Ok? ==> r.value.Valid()
    ensures r.Err? ==> r.error == KeyError
    decreases |rps| - e
  {
    if e == |rps| then Ok(team)
    else
      var next :- FileOne(team, ks[e], filed[e], rps[e], e, create, refresh);
      Filing(next, rps, ks, filed, e + 1, create, refresh)
  }

  /** The loop over all reported pokemon of a request. Keys depend on the report alone, so
      they are computed up front. `asWritten` chooses the handler's code as written, which
      files a new record under its base id with the stat block it builds, or as intended,
      under its lookup key with every stat known. */
  function Absorb(team: Roster, player: string, rps: seq<RequestPokemon>, cf: string -> string,
                  asWritten: bool): (r: Result<Roster>)
    requires team.Valid()
    ensures r.Ok? ==> r.value.Valid()
    ensures r.Err? ==> r.error == KeyError
  {
    var ks := Keys(player, rps, cf);
    Filing(team, rps, ks, if asWritten then BaseIds(player, rps, cf) else ks, 0, Creator(player, cf, asWritten), Refreshed)
  }

  /** `Created` for the player's pokemon, as the loop's record builder. */
  function Creator(player: string, cf: string -> string, asWritten: bool): (create: (nat, RequestPokemon) -> BattlePokemon)
    ensures forall e: nat, rp :: create(e, rp) == Created(player, e, rp, cf, asWritten)
  {
    (e: nat, rp: RequestPokemon) => Created(player, e, rp, cf, asWritten)
  }

  // ---------------------------------------------------------------------------
  // What the loop builds.

  /** The records created for the reports from index `e` on, under their keys. */
  function NewRecords(rps: seq<RequestPokemon>, ks: seq<string>, e: nat,
                      create: (nat, RequestPokemon) -> BattlePokemon): (m: map<string, BattlePokemon>)
    requires |ks| == |rps| && e <= |rps|
    ensures e < |rps| ==> ks[e] in m && m[ks[e]] == create(e, rps[e])
    decreases |rps| - e
  {
    if e == |rps| then map[] else NewRecords(rps, ks, e + 1, create)[ks[e] := create(e, rps[e])]
  }

  /** With distinct keys, the report at index `i` has its own record under its key. */
  lemma {:induction false} NewRecordsAt(rps: seq<RequestPokemon>, ks: seq<string>, e: nat,
                                        create: (nat, RequestPokemon) -> BattlePokemon, i: nat)
    requires |ks| == |rps| && Distinct(ks) && e <= i < |rps|
    ensures ks[i] in NewRecords(rps, ks, e, create) && NewRecords(rps, ks, e, create)[ks[i]] == create(i, rps[i])
    decreases i - e
  {
    if e < i {
      DistinctIndex(ks, e, i);
      NewRecordsAt(rps, ks, e + 1, create, i);
    }
  }

  /** A key no report from index `e` on has gets no record. */
  lemma {:induction false} NewRecordsOut(rps: seq<RequestPokemon>, ks: seq<string>, e: nat,
                                         create: (nat, RequestPokemon) -> BattlePokemon, k: string)
    requires |ks| == |rps| && e <= |rps|
    requires forall i :: e <= i < |rps| ==> ks[i] != k
    ensures k !in NewRecords(rps, ks, e, create)
    decreases |rps| - e
  {
    if e < |rps| {
      NewRecordsOut(rps, ks, e + 1, create, k);
    }
  }

  /** The records of `m` under the keys from index `e` on, each refreshed by its report. */
  function Refreshes(m: map<string, BattlePokemon>, rps: seq<RequestPokemon>, ks: seq<string>, e: nat,
                     refresh: (BattlePokemon, nat, RequestPokemon) -> BattlePokemon): (u: map<string, BattlePokemon>)
    requires |ks| == |rps| && e <= |rps|
    requires forall i :: e <= i < |rps| ==> ks[i] in m
    ensures e < |rps| ==> ks[e] in u && u[ks[e]] == refresh(m[ks[e]], e, rps[e])
    decreases |rps| - e
  {
    if e == |rps| then map[] else Refreshes(m, rps, ks, e + 1, refresh)[ks[e] := refresh(m[ks[e]], e, rps[e])]
  }

  /** With distinct keys, the record under the key at index `i` is refreshed by report `i`. */
  lemma {:induction false} RefreshesAt(m: map<string, BattlePokemon>, rps: seq<RequestPokemon>, ks: seq<string>,
                                       e: nat, refresh: (BattlePokemon, nat, RequestPokemon) -> BattlePokemon, i: nat)
    requires |ks| == |rps| && Distinct(ks) && e <= i < |rps|
    requires forall j :: e <= j < |rps| ==> ks[j] in m
    ensures ks[i] in Refreshes(m, rps, ks, e, refresh)
            && Refreshes(m, rps, ks, e, refresh)[ks[i]] == refresh(m[ks[i]], i, rps[i])
    decreases i - e
  {
    if e < i {
      DistinctIndex(ks, e, i);
      RefreshesAt(m, rps, ks, e + 1, refresh, i);
    }
  }

  /** A key no report from index `e` on has is not refreshed. */
  lemma {:induction false} RefreshesOut(m: map<string, BattlePokemon>, rps: seq<RequestPokemon>, ks: seq<string>,
                                        e: nat, refresh: (BattlePokemon, nat, RequestPokemon) -> BattlePokemon, k: string)
    requires |ks| == |rps| && e <= |rps|
    requires forall i :: e <= i < |rps| ==> ks[i] in m && ks[i] != k
    ensures k !in Refreshes(m, rps, ks, e, refresh)
    decreases |rps| - e
  {
    if e < |rps| {
      RefreshesOut(m, rps, ks, e + 1, refresh, k);
    }
  }

  /** Refreshing reads only the records under the keys from index `e` on. */
  lemma {:induction false} RefreshesFrame(m: map<string, BattlePokemon>, n: map<string, BattlePokemon>,
                                          rps: seq<RequestPokemon>, ks: seq<string>, e: nat,
                                          refresh: (BattlePokemon, nat, RequestPokemon) -> BattlePokemon)
    requires |ks| == |rps| && e <= |rps|
    requires forall i :: e <= i < |rps| ==> ks[i] in m && ks[i] in n && m[ks[i]] == n[ks[i]]
    ensures Refreshes(m, rps, ks, e, refresh) == Refreshes(n, rps, ks, e, refresh)
    decreases |rps| - e
  {
    if e < |rps| {
      RefreshesFrame(m, n, rps, ks, e + 1, refresh);
    }
  }

  /** Reported pokemon the team does not know yet, with distinct keys, each get a new record
      under their key, appended in report order; the known records are kept. */
  lemma {:induction false} FilingFresh(team: Roster, rps: seq<RequestPokemon>, ks: seq<string>, e: nat,
                                       create: (nat, RequestPokemon) -> BattlePokemon,
                                       refresh: (BattlePokemon, nat, RequestPokemon) -> BattlePokemon)
    requires team.Valid() && team.Size() == e && |ks| == |rps| && e <= |rps|
    requires Distinct(ks) && forall i :: e <= i < |rps| ==> ks[i] !in team.entries
    ensures var r := Filing(team, rps, ks, ks, e, create, refresh);
            r.Ok? && r.value.order == team.order + ks[e..]
            && r.value.entries == team.entries + NewRecords(rps, ks, e, create)
    decreases |rps| - e
  {
    if e < |rps| {
      var c := create(e, rps[e]);
      var next := team.Put(ks[e], c);
      assert FileOne(team, ks[e], ks[e], rps[e], e, create, refresh) == Ok(next);
      forall i | e < i < |rps| ensures ks[i] != ks[e] {
        DistinctIndex(ks, e, i);
      }
      FilingFresh(next, rps, ks, e + 1, create, refresh);
      NewRecordsOut(rps, ks, e + 1, create, ks[e]);
      UpdateUnion(team.entries, NewRecords(rps, ks, e + 1, create), ks[e], c);
      SuffixCons(team.order, ks, e);
    } else {
      assert team.order + ks[e..] == team.order;
      assert team.entries + map[] == team.entries;
    }
  }

  /** Reported pokemon whose records are all known, with distinct keys, refresh those
      records in place: the key order and every other record are kept. */
  lemma {:induction false} FilingKnown(team: Roster, rps: seq<RequestPokemon>, ks: seq<string>, filed: seq<string>,
                                       e: nat, create: (nat, RequestPokemon) -> BattlePokemon,
                                       refresh: (BattlePokemon, nat, RequestPokemon) -> BattlePokemon)
    requires team.Valid() && team.Size() >= |rps| && |ks| == |rps| && |filed| == |rps| && e <= |rps|
    requires Distinct(ks) && forall i :: e <= i < |rps| ==> ks[i] in team.entries
    ensures var r := Filing(team, rps, ks, filed, e, create, refresh);
            r.Ok? && r.value.order == team.order
            && r.value.entries == team.entries + Refreshes(team.entries, rps, ks, e, refresh)
    decreases |rps| - e
  {
    if e < |rps| {
      var u := refresh(team.entries[ks[e]], e, rps[e]);
      var next := team.Put(ks[e], u);
      assert FileOne(team, ks[e], filed[e], rps[e], e, create, refresh) == Ok(next);
      forall i | e < i < |rps| ensures ks[i] != ks[e] {
        DistinctIndex(ks, e, i);
      }
      FilingKnown(next, rps, ks, filed, e + 1, create, refresh);
      RefreshesFrame(team.entries, next.entries, rps, ks, e + 1, refresh);
      RefreshesOut(team.entries, rps, ks, e + 1, refresh, ks[e]);
      UpdateUnion(team.entries, Refreshes(team.entries, rps, ks, e + 1, refresh), ks[e], u);
    } else {
      assert team.entries + map[] == team.entries;
    }
  }

  /** Reports with distinct keys filed into an empty team: each gets its own record,
      in report order. */
  lemma FilingIntoEmpty(rps: seq<RequestPokemon>, ks: seq<string>,
                        create: (nat, RequestPokemon) -> BattlePokemon,
                        refresh: (BattlePokemon, nat, RequestPokemon) -> BattlePokemon)
    requires |ks| == |rps| && Distinct(ks)
    ensures var first := Filing(Empty(), rps, ks, ks, 0, create, refresh);
            first.Ok? && first.value.order == ks
            && forall i :: 0 <= i < |rps| ==> ks[i] in first.value.entries && first.value.entries[ks[i]] == create(i, rps[i])
  {
    var empty := Empty<string, BattlePokemon>();
    FilingFresh(empty, rps, ks, 0, create, refresh);
    forall i | 0 <= i < |rps| {
      NewRecordsAt(rps, ks, 0, create, i);
    }
  }

  /** The same reports filed twice into an empty team, with distinct keys: the first pass
      creates every record in report order, the second refreshes each created record. */
  lemma FilingTwice(rps: seq<RequestPokemon>, ks: seq<string>,
                    create: (nat, RequestPokemon) -> BattlePokemon,
                    refresh: (BattlePokemon, nat, RequestPokemon) -> BattlePokemon)
    requires |ks| == |rps| && Distinct(ks)
    ensures var first := Filing(Empty(), rps, ks, ks, 0, create, refresh);
            first.Ok? && first.value.order == ks &&
            var second := Filing(first.value, rps, ks, ks, 0, create, refresh);
            second.Ok? && second.value.order == ks
            && forall i :: 0 <= i < |rps| ==>
                 ks[i] in second.value.entries
                 && second.value.entries[ks[i]] == refresh(create(i, rps[i]), i, rps[i])
  {
    FilingIntoEmpty(rps, ks, create, refresh);
    var first := Filing(Empty(), rps, ks, ks, 0, create, refresh).value;
    FilingKnown(first, rps, ks, ks, 0, create, refresh);
    forall i | 0 <= i < |rps| {
      RefreshesAt(first.entries, rps, ks, 0, refresh, i);
    }
  }

  /** One report whose new record is filed under a key other than its lookup key: the
      first pass files it, the second finds nothing under the lookup key. */
  lemma FilingMismatch(rp: RequestPokemon, key: string, filed: string,
                       create: (nat, RequestPokemon) -> BattlePokemon,
                       refresh: (BattlePokemon, nat, RequestPokemon) -> BattlePokemon)
    requires key != filed
    ensures var first := Filing(Empty(), [rp], [key], [filed], 0, create, refresh);
            first.Ok? && first.value.entries.Keys == {filed}
            && Filing(first.value, [rp], [key], [filed], 0, create, refresh) == Err(KeyError)
  {
    var first := Empty<string, BattlePokemon>().Put(filed, create(0, rp));
    assert Filing(Empty(), [rp], [key], [filed], 0, create, refresh) == Filing(first, [rp], [key], [filed], 1, create, refresh);
    assert first.entries.Keys == {filed};
  }

  /** As written, the second request of a battle fails for any one-pokemon team: the first
      files the record under its base id, the second looks it up under its lookup key, and
      the two never coincide. */
  lemma SecondRequestFailsAsWritten(player: string, rp: RequestPokemon, cf: string -> string)
    ensures var first := Absorb(Empty(), player, [rp], cf, true);
            first.Ok? && Absorb(first.value, player, [rp], cf, true) == Err(KeyError)
  {
    var p := Created(player, 0, rp, cf, true);
    BaseIdNeverMatchesIdent(p, Some(rp.identity));
    var ks := Keys(player, [rp], cf);
    var ids := BaseIds(player, [rp], cf);
    assert ks == [RequestKey(player, rp, cf)] && ids == [ToBaseId(p)];
    FilingMismatch(rp, ks[0], ids[0], Creator(player, cf, true), Refreshed);
  }

  /** With records filed under their lookup keys, the same request twice (with distinct
      keys) leaves the team as the first one built it, apart from the reviving flags. */
  lemma SecondRequestRefreshes(player: string, rps: seq<RequestPokemon>, cf: string -> string)
    requires Distinct(Keys(player, rps, cf))
    ensures var first := Absorb(Empty(), player, rps, cf, false);
            first.Ok? && first.value.order == Keys(player, rps, cf) &&
            var second := Absorb(first.value, player, rps, cf, false);
            second.Ok? && second.value.order == first.value.order
            && forall i :: 0 <= i < |rps| ==>
                 var k := RequestKey(player, rps[i], cf);
                 k in second.value.entries
                 && second.value.entries[k] == Created(player, i, rps[i], cf, false).(isReviving := rps[i].reviving)
  {
    var ks := Keys(player, rps, cf);
    FilingTwice(rps, ks, Creator(player, cf, false), Refreshed);
    forall i | 0 <= i < |rps| ensures Refreshed(Created(player, i, rps[i], cf, false), i, rps[i])
                                      == Created(player, i, rps[i], cf, false).(isReviving := rps[i].reviving) {
      CreatedThenRefreshed(player, i, rps[i], cf, false);
    }
  }

  // ---------------------------------------------------------------------------
  // The options of the coming decision.

  predicate IsFainted(p: BattlePokemon) {
    p.status == Some(SlotEvents.FaintedStatus)
  }

  /** Whether a record is offered as a switch target: a fainted one when `revive`
      holds (a revival), a living benched one otherwise. */
  predicate Eligible(p: BattlePokemon, revive: bool) {
    if revive then IsFainted(p) else !IsFainted(p) && !p.active
  }

  /** One switch choice to the team position of every eligible record, in record order.
      A switch choice needs a whole number: an eligible record without a team position
      is a `ValidationError`. */
  function Switches(records: seq<BattlePokemon>, revive: bool): (r: Result<seq<SlotChoice>>)
    ensures r.Err? <==> exists i :: 0 <= i < |records| && Eligible(records[i], revive) && records[i].teamPos.None?
    ensures r.Err? ==> r.error == ValidationError
    ensures r.Ok? ==> |r.value| <= |records| && forall c :: c in r.value ==> c.Switch?
    ensures r.Ok? ==> forall c :: c in r.value <==>
                        exists i :: 0 <= i < |records| && Eligible(records[i], revive)
                                    && records[i].teamPos.Some? && c == SlotChoice.Switch(records[i].teamPos.value)
  {
    if |records| == 0 then Ok([])
    else
      assert forall i :: 1 <= i < |records| ==> records[1..][i - 1] == records[i];
      var rest :- Switches(records[1..], revive);
      if !Eligible(records[0], revive) then Ok(rest)
      else if records[0].teamPos.None? then Err(ValidationError)
      else Ok([SlotChoice.Switch(records[0].teamPos.value)] + rest)
  }

  /** `slots[s]`, and whether its occupant is being revived: a `KeyError` for a slot the
      table lacks or an occupant the team lacks. */
  function SlotReviving(side: Side, s: int): (r: Result<bool>)
    requires side.Valid()
    ensures r.Ok? <==> s in side.slots.entries
                       && (side.slots.entries[s].Some? ==> side.slots.entries[s].value in side.team.entries)
    ensures r.Err? ==> r.error == KeyError
    ensures r.Ok? && r.value ==> side.slots.entries[s].Some?
    ensures r.Ok? && side.slots.entries[s].Some? ==> r.value == side.team.entries[side.slots.entries[s].value].isReviving
  {
    var occupant :- side.Occupant(s);
    if occupant.None? then Ok(false)
    else
      var p :- side.team.Get(occupant.value);
      Ok(p.isReviving)
  }

  /** The options of a forced switch for the slots from index `i` on: a pass for a slot not
      flagged, the revivals for a flagged slot whose occupant is being revived, the switches
      for any other flagged slot. */
  function ForcedFrom(side: Side, flags: seq<bool>, n: nat, switches: seq<SlotChoice>, revives: seq<SlotChoice>,
                      i: nat): (r: Result<seq<SlotOptions>>)
    requires side.Valid() && i <= n
    ensures r.Ok? <==> (i < n ==> n <= |flags|) && forall j :: i <= j < n && flags[j] ==> SlotReviving(side, j + 1).Ok?
    ensures r.Err? ==> r.error == IndexError || r.error == KeyError
    ensures r.Ok? ==> |r.value| == n - i
    ensures r.Ok? ==> forall j :: i <= j < n ==> (r.value[j - i].PassOption? <==> !flags[j])
    ensures r.Ok? ==> forall j :: i <= j < n && flags[j] ==>
                        r.value[j - i] == Options(if SlotReviving(side, j + 1).value then revives else switches)
    decreases n - i
  {
    if i == n then Ok([])
    else if i >= |flags| then Err(IndexError)
    else
      var here :- if flags[i] then
                    var reviving :- SlotReviving(side, i + 1);
                    Ok(Options(if reviving then revives else switches))
                  else Ok(PassOption);
      var rest :- ForcedFrom(side, flags, n, switches, revives, i + 1);
      Ok([here] + rest)
  }

  /** A move that can be chosen: not disabled and with power points left. */
  predicate Usable(m: MoveOption) {
    !m.disabled && m.curPp != 0
  }

  /** A gimmick the side has not used and the slot offers. */
  function Gimmick(offered: bool, used: bool, c: MoveChoice): (g: seq<SlotChoice>)
    ensures forall x :: x in g <==> offered && !used && x == Move(c)
  {
    if offered && !used then [Move(c)] else []
  }

  /** At most one of the four gimmicks is used. */
  predicate OneGimmick(c: MoveChoice) {
    (c.tera ==> !c.mega && !c.dyna && !c.zmove) && (c.mega ==> !c.dyna && !c.zmove) && (c.dyna ==> !c.zmove)
  }

  /** The target type a move choice aims with: dynamax and z-moves have their own. */
  function Aim(m: MoveOption, c: MoveChoice): Option<MoveTarget> {
    if c.dyna then m.dynamaxTarget else if c.zmove then m.zmoveTarget else m.target
  }

  /** A choice of move number `number` of move `m`, untargeted, with at most one gimmick,
      aiming with the target type of that gimmick. */
  predicate VariantOf(c: SlotChoice, m: MoveOption, number: int) {
    c.Move? && c.move.moveNumber == number && c.move.targetNumber.None? && OneGimmick(c.move)
    && c.move.targetType == Aim(m, c.move)
  }

  /** The choices for move number `number`: the plain move first, then one variant per
      gimmick the slot offers and the side has not used, in the order tera, mega, dynamax,
      z-move. */
  function Variants(m: MoveOption, number: int, ao: ActiveOption, side: Side): (v: seq<SlotChoice>)
    ensures 1 <= |v| <= 5 && v[0] == Move(PlainMove(number, m.target))
    ensures forall c :: c in v ==> VariantOf(c, m, number)
  {
    var plain := PlainMove(number, m.target);
    var g1 := Gimmick(ao.canTera, side.hasTeratyped, plain.(tera := true));
    var g2 := Gimmick(ao.canMega, side.hasMegad, plain.(mega := true));
    var g3 := Gimmick(m.canDynamax, side.hasDynamaxed, PlainMove(number, m.dynamaxTarget).(dyna := true));
    var g4 := Gimmick(m.canZmove, side.hasZmoved, PlainMove(number, m.zmoveTarget).(zmove := true));
    var v := [Move(plain)] + g1 + g2 + g3 + g4;
    assert forall c :: c in v <==> c == Move(plain) || c in g1 || c in g2 || c in g3 || c in g4;
    v
  }

  /** A variant with a gimmick is offered exactly when the slot offers the gimmick and the
      side has not used it yet. */
  lemma VariantsOffered(m: MoveOption, number: int, ao: ActiveOption, side: Side)
    ensures var v := Variants(m, number, ao, side);
            ((exists c :: c in v && c.move.tera) <==> ao.canTera && !side.hasTeratyped)
            && ((exists c :: c in v && c.move.mega) <==> ao.canMega && !side.hasMegad)
            && ((exists c :: c in v && c.move.dyna) <==> m.canDynamax && !side.hasDynamaxed)
            && ((exists c :: c in v && c.move.zmove) <==> m.canZmove && !side.hasZmoved)
  {
    var v := Variants(m, number, ao, side);
    var plain := PlainMove(number, m.target);
    assert ao.canTera && !side.hasTeratyped ==> Move(plain.(tera := true)) in v;
    assert ao.canMega && !side.hasMegad ==> Move(plain.(mega := true)) in v;
    assert m.canDynamax && !side.hasDynamaxed ==> Move(PlainMove(number, m.dynamaxTarget).(dyna := true)) in v;
    assert m.canZmove && !side.hasZmoved ==> Move(PlainMove(number, m.zmoveTarget).(zmove := true)) in v;
  }

  /** The move choices of a slot for its moves from index `k` on; move numbers count from 1. */
  function MovesFrom(ao: ActiveOption, side: Side, k: nat): (v: seq<SlotChoice>)
    requires k <= |ao.moves|
    ensures forall c :: c in v ==>
              (c.Move? && k < c.move.moveNumber <= |ao.moves| && Usable(ao.moves[c.move.moveNumber - 1])
               && c in Variants(ao.moves[c.move.moveNumber - 1], c.move.moveNumber, ao, side))
    ensures forall j :: k <= j < |ao.moves| && Usable(ao.moves[j]) ==> Move(PlainMove(j + 1, ao.moves[j].target)) in v
    decreases |ao.moves| - k
  {
    if k == |ao.moves| then []
    else
      var here := if Usable(ao.moves[k]) then Variants(ao.moves[k], k + 1, ao, side) else [];
      here + MovesFrom(ao, side, k + 1)
  }

  /** The choices of one active slot: its moves, then the switches unless it is trapped. */
  function SlotChoices(ao: ActiveOption, side: Side, switches: seq<SlotChoice>): (v: seq<SlotChoice>)
    ensures forall c :: c in v ==> (c.Move? && c in MovesFrom(ao, side, 0)) || (c in switches && !ao.trapped)
    ensures !ao.trapped ==> forall c :: c in switches ==> c in v
    ensures forall c :: c in MovesFrom(ao, side, 0) ==> c in v
  {
    if ao.trapped then MovesFrom(ao, side, 0) else MovesFrom(ao, side, 0) + switches
  }

  /** The options of every slot on an ACTIVE request: the slots the request describes get
      their choices, the rest (fewer living pokemon than slots) a pass. */
  function ActiveOptions(side: Side, active: seq<ActiveOption>, n: nat, switches: seq<SlotChoice>): (o: seq<SlotOptions>)
    ensures |o| == n
    ensures forall i :: 0 <= i < n ==> (o[i].PassOption? <==> i >= |active|)
    ensures forall i :: 0 <= i < n && i < |active| ==> o[i] == Options(SlotChoices(active[i], side, switches))
  {
    seq(n, i requires 0 <= i < n => if i < |active| then Options(SlotChoices(active[i], side, switches)) else PassOption)
  }

  /** The options of a FORCESWITCH request: one entry per slot of the game type. */
  function ForcedChoice(side: Side, flags: seq<bool>, gametype: Option<string>,
                        switches: seq<SlotChoice>, revives: seq<SlotChoice>): (r: Result<BattleChoice>)
    requires side.Valid()
    requires forall c :: c in switches + revives ==> c.Switch?
    ensures r.Ok? ==> SlotLength(gametype).Ok? && r.value.PerSlot? && |r.value.slots| == SlotLength(gametype).value
    ensures r.Ok? ==> forall i :: 0 <= i < |r.value.slots| ==>
                        i < |flags| && (r.value.slots[i].PassOption? <==> !flags[i])
                        && (r.value.slots[i].Options? ==> forall c :: c in r.value.slots[i].options ==> c.Switch?)
    ensures SlotLength(gametype).Err? ==> r == Err(SlotLength(gametype).error)
  {
    var n :- SlotLength(gametype);
    var forced :- ForcedFrom(side, flags, n, switches, revives, 0);
    Ok(PerSlot(forced))
  }

  /** The options of an ACTIVE request: one entry per slot of the game type. */
  function ActiveChoice(side: Side, active: seq<ActiveOption>, gametype: Option<string>,
                        switches: seq<SlotChoice>): (r: Result<BattleChoice>)
    ensures r.Ok? <==> SlotLength(gametype).Ok?
    ensures r.Ok? ==> r.value.PerSlot? && |r.value.slots| == SlotLength(gametype).value
    ensures r.Ok? ==> forall i :: 0 <= i < |r.value.slots| ==> (r.value.slots[i].PassOption? <==> i >= |active|)
  {
    var n :- SlotLength(gametype);
    Ok(PerSlot(ActiveOptions(side, active, n, switches)))
  }

  /** The decision a request asks for, given the refreshed side: none while waiting, the
      team in its current order at team preview, the forced switches, or the options of
      every active slot. Switch and revival lists are built before the kind is checked;
      an unknown kind fails the handler's assertion. */
  function RequestChoice(side: Side, req: Request, gametype: Option<string>): (r: Result<Option<BattleChoice>>)
    requires side.Valid()
    ensures req.kind == "WAIT" ==> r == Ok(None)
    ensures req.kind == "TEAMPREVIEW" ==> r == Ok(Some(TeamOrder(OneTo(side.team.Size()))))
    ensures req.kind !in {"WAIT", "TEAMPREVIEW", "FORCESWITCH", "ACTIVE"} ==> r.Err?
    ensures r.Ok? && req.kind in {"FORCESWITCH", "ACTIVE"} ==>
              SlotLength(gametype).Ok? && r.value.Some? && r.value.value.PerSlot?
              && |r.value.value.slots| == SlotLength(gametype).value
    ensures r.Ok? && req.kind == "FORCESWITCH" ==>
              forall i :: 0 <= i < |r.value.value.slots| ==>
                i < |req.forceSwitch| && (r.value.value.slots[i].PassOption? <==> !req.forceSwitch[i])
    ensures r.Ok? && req.kind == "ACTIVE" ==>
              forall i :: 0 <= i < |r.value.value.slots| ==> (r.value.value.slots[i].PassOption? <==> i >= |req.active|)
  {
    if req.kind == "WAIT" then Ok(None)
    else if req.kind == "TEAMPREVIEW" then Ok(Some(TeamOrder(OneTo(side.team.Size()))))
    else
      var switches :- Switches(side.team.Values(), false);
      var revives :- Switches(side.team.Values(), true);
      if req.kind == "FORCESWITCH" then
        var c :- ForcedChoice(side, req.forceSwitch, gametype, switches, revives);
        Ok(Some(c))
      else if req.kind == "ACTIVE" then
        var c :- ActiveChoice(side, req.active, gametype, switches);
        Ok(Some(c))
      else Err(AssertionError)
  }

  // ---------------------------------------------------------------------------
  // The handler.

  /** The last snapshot after a request: the player's records filed or refreshed and the
      choice replaced by the new options; the turn, the opponent, the weather and the
      player's slots and gimmick flags are kept. */
  function Answered(st: BattleState, req: Request, cf: string -> string, gametype: Option<string>, asWritten: bool)
    : (r: Result<BattleState>)
    requires st.Valid()
    ensures r.Ok? ==> r.value.Valid()
    ensures r.Ok? ==> r.value.turn == st.turn && r.value.opponent == st.opponent && r.value.weather == st.weather
                      && r.value.player == st.player.(team := r.value.player.team)
                      && Absorb(st.player.team, req.player, req.pokemon, cf, asWritten) == Ok(r.value.player.team)
                      && RequestChoice(r.value.player, req, gametype) == Ok(r.value.choice)
    ensures Absorb(st.player.team, req.player, req.pokemon, cf, asWritten).Err? ==> r == Err(KeyError)
  {
    var team :- Absorb(st.player.team, req.player, req.pokemon, cf, asWritten);
    var side := st.player.(team := team);
    var choice :- RequestChoice(side, req, gametype);
    Ok(st.(player := side, choice := choice))
  }

  /** As corrected, a snapshot with no records answers the same request twice (one that
      asks for no decision over the team's slots), the second refreshing what the first
      filed. */
  lemma AnsweredTwice(st: BattleState, req: Request, cf: string -> string, gametype: Option<string>)
    requires st.Valid() && st.player.team == Empty()
    requires req.kind == "WAIT" || req.kind == "TEAMPREVIEW"
    requires Distinct(Keys(req.player, req.pokemon, cf))
    ensures var first := Answered(st, req, cf, gametype, false);
            first.Ok? &&
            var second := Answered(first.value, req, cf, gametype, false);
            second.Ok? && Absorb(first.value.player.team, req.player, req.pokemon, cf, false) == Ok(second.value.player.team)
  {
    SecondRequestRefreshes(req.player, req.pokemon, cf);
  }

  /** `processbm_request`: the request must be addressed to the player (and to the player
      id already known, if any); the last snapshot is answered, and nothing else changes. */
  function HandleRequest(b: Battle, req: Request, cf: string -> string, asWritten: bool): (r: Result<Battle>)
    requires WellFormed(b)
    ensures b.playerName != Some(req.username) ==> r == Err(AssertionError)
    ensures b.playerId.Some? && b.playerId != Some(req.player) ==> r == Err(AssertionError)
    ensures (b.playerName == Some(req.username) && (b.playerId.None? || b.playerId == Some(req.player))
             && |b.states| == 0) ==> r == Err(IndexError)
    ensures r.Ok? ==> WellFormed(r.value) && |r.value.states| == |b.states| > 0
    ensures r.Ok? ==> r.value == b.(playerId := Some(req.player), states := r.value.states)
    ensures r.Ok? ==> r.value.states[..|b.states| - 1] == b.states[..|b.states| - 1]
    ensures r.Ok? ==> Answered(b.states[|b.states| - 1], req, cf, b.gametype, asWritten) == Ok(r.value.states[|b.states| - 1])
  {
    if b.playerName != Some(req.username) then Err(AssertionError)
    else if b.playerId.Some? && b.playerId != Some(req.player) then Err(AssertionError)
    else
      var named := b.(playerId := Some(req.player));
      var st :- LastState(named);
      var now :- Answered(st, req, cf, b.gametype, asWritten);
      Ok(SetLastState(named, now))
  }
}
