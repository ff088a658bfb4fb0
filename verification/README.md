# pokesage battle core in Dafny

pokesage is a Python client for Pokémon Showdown, the battle simulator. It
connects to a Showdown server, reads the simulator's battle log line by line,
and rebuilds what it has learned into battle snapshots: rosters, slot tables,
one-time resource flags and the legal choices for the next decision. It asks a
decision maker (a "sage") for a choice, writes that choice in the simulator's
wire syntax, and sends it back.

This project models the deterministic core of that client as pure functions
over immutable datatypes, and proves properties about it:

- the signed-slot targeting geometry for doubles and triples (`Targeting`);
- the wire rendering of every choice, with parsers that prove the renderings
  can be read back (`Choices`, over the string helpers in `Text`);
- the battle, snapshot and pokemon records and their identity keys (`Battles`,
  `State`, `Pokemon`, over an insertion-ordered dictionary `OrderedDict`);
- the processor:
  - slot bookkeeping for switch, drag, detailschange, replace, swap, faint,
    terastallize, mega and zpower (`SlotEvents`);
  - legal-choice enumeration on requests (`Requests`);
  - target expansion on turns (`Turns`);
  - dispatch from message kind to progress state, and the snapshot taken per
    action (`Processing`);
- the connection controller's decisions (`Connection`):
  - admission and matchmaking on `updatesearch`;
  - the counters kept from server messages;
  - validation and framing of submitted actions;
  - the mapping from exceptions to termination codes;
  - the short-circuit for finished battles.

Modelling conventions:

- A Python exception becomes `Err(fault)` of `Results.Result`. The fault names
  the exception class, and a processor error aborts the whole message.
- The external species-cleaning function `clean_forme` is a parameter
  `cf: string -> string`.
- The login exchange with the Showdown login server is a parameter
  (`LoginOutcome`).
- Every frame written to the websocket becomes an element of an output
  sequence of strings.
- Messages reach the model already classified, as constructors of
  `Messages.BattleMessage` and `Connection.GeneralMessage`.
- Where the processor's code has a defect (see "Findings"), the handler takes a
  flag `asWritten`. With `true` it behaves as the code is written, and with
  `false` as evidently intended. The flag reaches the request, turn and `poke`
  handlers from the message dispatch (`Processing.Handle`, `Processing.ProcessBm`)
  and from the connector (`Connection.HandleBattleMessage`).

Where the code and its documentation disagree, the model follows the code:

- The two slot diagrams in the docstrings of `utilities.py` look different,
  but one is the other turned half a turn, so they give every pair of slots
  the same distance (`Targeting.DiagramsAgree`). The sign-product formula in
  the code agrees with that layout (`Targeting.CanTargetSlotMatchesField`).
- The constructor of the connector checks `len(whitelist_users) == 0` before
  it defaults the whitelist. So a challenge objective without any whitelist
  fails with a `TypeError`, not with the intended `RuntimeError`
  (`Connection.NewConnector`).

## Model

| member | source | states |
|---|---|---|
| Targeting.NeedsTarget | pokesage/battle/utilities.py:53-83 | no target type needs no target; exactly adjacentAlly, adjacentAllyOrSelf, any, normal and adjacentFoe need one; a category outside the table is a KeyError |
| Targeting.MaxSlot | pokesage/battle/utilities.py:128 | the widest slot number is 2 exactly for doubles and 3 for every other game type |
| Targeting.CanTargetSlot | pokesage/battle/utilities.py:86-149 | categories that address no single slot can target nothing; an unlisted category is a KeyError |
| Targeting.GetValidTargetSlots | pokesage/battle/utilities.py:44-50 | the result holds exactly the filled slots the move can reach, is no longer than the input, and fails only for an unlisted category with some filled slot |
| Targeting.ValidTargetsStep | pokesage/battle/utilities.py:46-48 | one more filled slot is appended to the result exactly when it is reachable, so the result keeps input order |
| Targeting.ValidTargetsAreSubsequence | pokesage/battle/utilities.py:44-50 | the valid targets are a subsequence of the filled slots |
| Targeting.DiagramsAgree | pokesage/battle/utilities.py:25-31 | the two docstring layouts give every pair of slots the same column distance |
| Targeting.CanTargetSlotMatchesField | pokesage/battle/utilities.py:99-147 | on real slots, the sign-product formula agrees with an independent adjacency definition read off the field layout |
| Targeting.NoTargetNeededMeansNoTargets | pokesage/battle/utilities.py:125-126 | a category that needs no target yields an empty target list for any filled slots |
| Targeting.UnknownTargetUnreachable | pokesage/battle/utilities.py:138-149 | the "Unknown move target" error is never raised |
| Targeting.AllyAndFoeDisjoint | pokesage/battle/utilities.py:131-147 | adjacentAlly reaches only same-side slots, adjacentFoe only opposite-side slots, so no slot is reached by both |
| Targeting.AnyAndSelf | pokesage/battle/utilities.py:140-143 | "any" reaches every slot but the source, and adjacentAllyOrSelf reaches the source |
| Targeting.DoublesFromMinusOne | pokesage/battle/utilities.py:128-147 | in doubles, -2 is the adjacent ally of -1, 2 the foe straight across and 1 the corner foe |
| Targeting.DoublesNormalTargets | pokesage/battle/utilities.py:44-50 | a normal move from -1 in a full doubles field may target -2, 1 and 2 in that order |
| Targeting.TriplesReach | pokesage/battle/utilities.py:128-147 | in triples, -1 cannot reach foe 1 with normal or adjacentFoe, while -2 reaches foes 1, 2 and 3 |
| Text.IntToStringRoundTrip | pokesage/battle/choices.py:37-39 | reading back `str(i)` gives `i` for every integer, negative ones included |
| Text.SplitJoin | pokesage/battle/choices.py:37 | splitting a comma-joined list of comma-free parts gives the parts back |
| Text.NormalizeFormat | pokesage/processors/showdownprocessor.py:489 | a normalised format name is no longer than the input and has no ASCII capitals, brackets or spaces |
| Text.NormalizeFormatIdempotent | pokesage/connectors/websocketconnector.py:240 | normalising a format name twice is the same as normalising it once |
| Text.Strip | pokesage/connectors/websocketconnector.py:357 | the result is a slice of the input, everything cut before and after it is whitespace in Python's sense (the ASCII controls 9-13 and 28-31, space, and the Unicode spaces and separators), and the result neither starts nor ends with whitespace |
| Text.StripSurrounded | pokesage/connectors/websocketconnector.py:357 | any run of whitespace on either side of a text whose ends are not whitespace is removed, and the text is kept whole |
| Choices.PlainMove | pokesage/battle/choices.py:57-69 | a move choice built from number and target type has no target number and all four flags off |
| Choices.LongTeamRoundTrip | pokesage/battle/choices.py:36-37 | a team order of ten or more entries can be read back from its rendering |
| Choices.ShortTeamRoundTrip | pokesage/battle/choices.py:38-39 | a short team order of single-digit positions can be read back digit by digit |
| Choices.ShortTeamAmbiguity | pokesage/battle/choices.py:38-39 | concatenation loses information when a short order holds a position of 10 or more: [1, 12] and [11, 2] both render "team 112" |
| Choices.MoveTokens | pokesage/battle/choices.py:77-80 | the words of a move choice start with "move" and the move number |
| Choices.MoveToShowdown | pokesage/battle/choices.py:71-90 | the rendering is the space-joined words, so the final strip changes nothing |
| Choices.JoinHasNoBlanks | pokesage/battle/choices.py:90 | a move rendering neither starts nor ends with whitespace |
| Choices.MoveTokensAreWords | pokesage/battle/choices.py:77-88 | every word of a move rendering is non-empty and space-free |
| Choices.MoveRoundTrip | pokesage/battle/choices.py:77-90 | parsing a move rendering gives back number, target number and the four flags |
| Choices.MoveRenderingInjective | pokesage/battle/choices.py:77-90 | two move choices with the same rendering agree on number, target number and flags |
| Choices.PlainMoveRendering | pokesage/battle/choices.py:64-69 | a move with default fields renders exactly "move N" |
| Choices.MoveFlagsShow | pokesage/battle/choices.py:81-88 | each flag is set exactly when its keyword appears in the rendering |
| Choices.SwitchToShowdown | pokesage/battle/choices.py:104-112 | a switch renders "switch N" |
| Choices.SwitchRoundTrip | pokesage/battle/choices.py:110-112 | the slot can be read back from a switch rendering |
| Choices.SlotToShowdown | pokesage/battle/choices.py:124-149 | an item choice fails with NotImplementedError, pass renders "pass", a switch "switch N" |
| Choices.RenderSlots | pokesage/battle/choices.py:124-133 | rendering a slot list fails exactly when some entry is an item choice |
| Choices.SlotsToShowdown | pokesage/connectors/websocketconnector.py:515 | a slot list renders as its entries' renderings joined by commas, and fails exactly when one of them is an item |
| Choices.ChoiceToShowdown | pokesage/battle/choices.py:159-195 | resign and quit render "forfeit", default "default", a team choice its team rendering; lists and no choice have no single rendering |
| Choices.ChoiceShapes | pokesage/battle/choices.py:216-224 | every force-switch choice is a move-decision choice; a team-order choice is neither a list nor "no choice"; a list holding a move or an item is a move decision but not a force switch; "no choice" fits none of the three |
| OrderedDict.Get | pokesage/processors/showdownprocessor.py:625 | a lookup succeeds exactly for a present key and otherwise is a KeyError |
| OrderedDict.Put | pokesage/processors/showdownprocessor.py:622 | assignment keeps the position of an existing key and appends a new key |
| OrderedDict.Pop | pokesage/processors/showdownprocessor.py:917 | pop returns the value, removes the key from the order and shrinks the size by one; a missing key is a KeyError |
| OrderedDict.Values | pokesage/processors/showdownprocessor.py:678-687 | the values come in insertion order |
| OrderedDict.PopThenPut | pokesage/processors/showdownprocessor.py:917-920 | moving a record to a fresh key keeps the size, moves the key to the end and changes no other entry |
| OrderedDict.PutPut | pokesage/processors/showdownprocessor.py:661 | the second of two assignments to one key wins |
| Pokemon.Defaults | pokesage/battle/pokemon.py:172-236 | a fresh record has level 100, fraction hp, no slot, and every flag false |
| Pokemon.Validate | pokesage/battle/pokemon.py:198 | a slot, when present, must lie in 1..3, otherwise validation fails |
| Pokemon.ToId | pokesage/battle/pokemon.py:238-248 | without a nickname and in its base forme, a pokemon's id equals its base id |
| Pokemon.BaseIdFields | pokesage/battle/pokemon.py:250-260 | the base id splits on "_" into player, base species, level, gender and "None" |
| Pokemon.BaseIdDetermines | pokesage/battle/pokemon.py:258 | two pokemon with the same base id agree on player, base species, level and gender |
| Pokemon.BaseIdNeverMatchesIdent | pokesage/battle/pokemon.py:258 | the base id, with five fields, never equals the four-field key the processor looks records up with |
| State.FreshSide | pokesage/battle/state.py:43-69 | a side starts with empty roster and slot table and all four one-time flags false |
| State.NewState | pokesage/battle/state.py:38-75 | a new snapshot has the given turn, two fresh sides, no weather and no choice |
| State.EmptySlots | pokesage/processors/showdownprocessor.py:465-473 | the slot table for n slots has keys 1..n in order, all empty, and no other key |
| Battles.NewBattle | pokesage/battle/battle.py:54-83 | a fresh battle has no states, is unrated, and has every optional field unset |
| Battles.ProcessorBattle | pokesage/connectors/websocketconnector.py:383-386 | a new processor's battle is a fresh battle with an empty action list and the player's name |
| Battles.SlotLength | pokesage/battle/battle.py:85-105 | 1, 2 or 3 for singles, doubles or triples; a RuntimeError when unset or unknown |
| Battles.SlotLengthMatchesTargeting | pokesage/battle/utilities.py:128 | for doubles and triples the slot count is the widest slot of the targeting geometry |
| Battles.LastState | pokesage/processors/showdownprocessor.py:39 | `battle_states[-1]` is the last snapshot, an IndexError when there is none |
| Battles.SetLastState | pokesage/processors/showdownprocessor.py:959 | writing back the last snapshot keeps every earlier snapshot and every other field |
| SlotEvents.SlotIndex | pokesage/processors/showdownprocessor.py:884 | `"abc".find(letter) + 1` is 0 exactly when the letter is not in "abc", otherwise 1..3 |
| SlotEvents.SlotLetters | pokesage/processors/showdownprocessor.py:884 | letters a, b, c map to slots 1, 2, 3 and any other letter to 0 |
| SlotEvents.CheckedSlot | pokesage/processors/showdownprocessor.py:881-884 | a missing slot letter fails the assertion |
| SlotEvents.UncheckedSlot | pokesage/processors/showdownprocessor.py:1438-1439 | without the assertion, a missing slot letter is a TypeError in `find` |
| SlotEvents.WithSide | pokesage/processors/showdownprocessor.py:1441-1458 | writing one side of a snapshot changes neither the other side nor turn, weather or choice |
| SlotEvents.VacateRecord | pokesage/processors/showdownprocessor.py:890-893 | the previous occupant gets no slot and becomes inactive; a missing record is a KeyError |
| SlotEvents.EnterRecord | pokesage/processors/showdownprocessor.py:897-898 | the incoming record gets the slot and becomes active; a missing record is a KeyError |
| SlotEvents.Occupy | pokesage/processors/showdownprocessor.py:888-899 | the table entry becomes the incoming id, the previous occupant is vacated, the newcomer entered, and nothing else changes |
| SlotEvents.Promote | pokesage/processors/showdownprocessor.py:914-920 | promotion moves the base record to the full key with species and nickname replaced, keeps the roster size and every other entry |
| SlotEvents.Newcomer | pokesage/processors/showdownprocessor.py:938-946 | an unseen opponent pokemon is recorded with its species, cleaned base species, nickname, level, gender and tera type |
| SlotEvents.SwitchIn | pokesage/processors/showdownprocessor.py:864-1052 | switch and drag put the full id in the slot on the owning side and leave the other side alone. A known record is moved in exactly as Occupy moves it, so the other slots are kept and the previous occupant is vacated. A base-id record is renamed to the full id with the new species and nickname. A newcomer gets the record built from the switch line. The opponent roster grows by one only for a first sighting, and a pokemon known to neither side and not the opponent's fails the assertion |
| SlotEvents.RequireOccupant | pokesage/processors/showdownprocessor.py:1075-1077 | reading an occupant fails the assertion for an empty slot and is a KeyError for an unknown slot |
| SlotEvents.UpdateOccupant | pokesage/processors/showdownprocessor.py:1441-1448 | updating the occupant changes only that record |
| SlotEvents.ChangeSide | pokesage/processors/showdownprocessor.py:1073-1099 | detailschange re-keys the occupant under its full id with the new species, and points the slot at it |
| SlotEvents.ChangeDetails | pokesage/processors/showdownprocessor.py:1054-1101 | detailschange acts on the side chosen by the player id and fails without a slot letter |
| SlotEvents.OtherSlotsOf | pokesage/processors/showdownprocessor.py:1130 | the other slots holding the same id are exactly the keys that match |
| SlotEvents.ReplaceSide | pokesage/processors/showdownprocessor.py:1124-1173 | replace raises the Illusion RuntimeError for two or more twins; otherwise it sets the old occupant's slot to its twin's slot or none, puts the full id in the slot and, for the opponent, adopts the base record |
| SlotEvents.Adopt | pokesage/processors/showdownprocessor.py:1165-1173 | an unseen opponent identity takes over the base record with species and nickname set; a missing base record fails the assertion |
| SlotEvents.Replace | pokesage/processors/showdownprocessor.py:1103-1178 | replace acts on the side chosen by the player id and fails without a slot letter |
| SlotEvents.Repoint | pokesage/processors/showdownprocessor.py:1208-1209 | only the named record's slot field changes |
| SlotEvents.SwapSide | pokesage/processors/showdownprocessor.py:1200-1225 | swap requires both slots occupied and exchanges the two table entries and the occupants' slot fields |
| SlotEvents.SwapOnce | pokesage/processors/showdownprocessor.py:1205-1212 | after a swap each slot holds the other's former occupant |
| SlotEvents.SwapTwiceSlots | pokesage/processors/showdownprocessor.py:1200-1225 | swapping the same two slots twice restores the slot table |
| SlotEvents.SwapTwice | pokesage/processors/showdownprocessor.py:1200-1225 | when each occupant's slot field named its own slot, swapping twice restores the whole side |
| SlotEvents.SwapSlots | pokesage/processors/showdownprocessor.py:1180-1227 | swap acts on the side chosen by the player id, with the new slot being position + 1 |
| SlotEvents.FaintSide | pokesage/processors/showdownprocessor.py:1249-1270 | faint requires an occupied slot, marks the occupant fainted, inactive and slotless, and empties the entry |
| SlotEvents.FaintSlot | pokesage/processors/showdownprocessor.py:1236-1272 | faint acts on the side chosen by the player id and fails without a slot letter |
| SlotEvents.TeraSide | pokesage/processors/showdownprocessor.py:1441-1458 | terastallizing sets the occupant's tera type, marks it terastallized and spends the side's tera flag |
| SlotEvents.Terastallize | pokesage/processors/showdownprocessor.py:1430-1460 | terastallize acts on the side chosen by the player id; a missing slot letter is a TypeError |
| SlotEvents.MegaSide | pokesage/processors/showdownprocessor.py:1586-1603 | mega evolution marks the occupant, records the stone as its only item and spends the side's mega flag |
| SlotEvents.MegaEvolve | pokesage/processors/showdownprocessor.py:1575-1605 | mega acts on the side chosen by the player id; a missing slot letter is a TypeError |
| SlotEvents.ZPower | pokesage/processors/showdownprocessor.py:1621-1634 | zpower spends the z-move flag of the acting side and leaves the other side alone |
| Requests.ReportedBlock | pokesage/processors/showdownprocessor.py:585-598 | the intended stat block: exact bounds for all six stats from the request |
| Requests.AsWrittenBlockNotExact | pokesage/processors/showdownprocessor.py:591 | the block as written leaves the special-attack upper bound unset |
| Requests.Created | pokesage/processors/showdownprocessor.py:583-620 | a first request records each field of the reported pokemon, with team position e + 1. The stats are exact apart from the maximum special attack; that one is known exactly if and only if the code runs as corrected |
| Requests.Refreshed | pokesage/processors/showdownprocessor.py:627-659 | a later request refreshes hp, item, status, tera, position, activity and reviving, keeps known abilities and moves, and overrides the ability only when it differs from base and first |
| Requests.Overwriting | pokesage/processors/showdownprocessor.py:638-642 | the ability is recorded as overwritten exactly when it differs from both the base ability and the first known one |
| Requests.RefreshIdempotent | pokesage/processors/showdownprocessor.py:627-659 | refreshing twice with the same report is refreshing once |
| Requests.CreatedThenRefreshed | pokesage/processors/showdownprocessor.py:583-661 | refreshing a freshly created record changes only its reviving flag, as written and as corrected |
| Requests.FileOne | pokesage/processors/showdownprocessor.py:583-661 | a record is created when the roster size equals its index, otherwise looked up and refreshed, with a KeyError when the key is missing |
| Requests.FilingFresh | pokesage/processors/showdownprocessor.py:580-622 | filing into a roster of matching size appends every new key in order |
| Requests.FilingIntoEmpty | pokesage/processors/showdownprocessor.py:580-622 | the first request into an empty roster creates one record per pokemon, keyed and ordered as reported |
| Requests.FilingKnown | pokesage/processors/showdownprocessor.py:623-661 | filing into a roster that holds every key keeps its order and refreshes each record in place |
| Requests.FilingTwice | pokesage/processors/showdownprocessor.py:580-661 | with one key for insert and lookup, a second request refreshes every record the first created |
| Requests.FilingMismatch | pokesage/processors/showdownprocessor.py:622-625 | when the insert key differs from the lookup key, the second request is a KeyError |
| Requests.SecondRequestFailsAsWritten | pokesage/processors/showdownprocessor.py:622-625 | as written, the second request for any pokemon fails with a KeyError |
| Requests.SecondRequestRefreshes | pokesage/processors/showdownprocessor.py:580-661 | with the corrected key, the second request keeps the roster order and refreshes every record |
| Requests.Switches | pokesage/processors/showdownprocessor.py:678-687 | switch options are exactly the team positions of eligible records, and there are no more of them than records; an eligible record without a position fails validation |
| Requests.SlotReviving | pokesage/processors/showdownprocessor.py:695-696 | a slot counts as reviving only when its occupant is marked reviving; a missing slot or record is a KeyError |
| Requests.ForcedFrom | pokesage/processors/showdownprocessor.py:693-701 | an unflagged slot passes; a flagged slot offers revive options when its occupant is reviving and switch options otherwise |
| Requests.Gimmick | pokesage/processors/showdownprocessor.py:731-745 | a variant is offered exactly when the option is available and the side's flag is unused |
| Requests.Variants | pokesage/processors/showdownprocessor.py:728-745 | the variants of a move start with the plain move and number at most five |
| Requests.VariantsOffered | pokesage/processors/showdownprocessor.py:731-745 | a tera, mega, dynamax or z-move variant appears exactly when offered and that side's flag is unused |
| Requests.MovesFrom | pokesage/processors/showdownprocessor.py:723-745 | disabled and 0-PP moves are skipped, and every usable move appears with its plain form |
| Requests.SlotChoices | pokesage/processors/showdownprocessor.py:747-750 | a trapped pokemon gets only moves; otherwise moves and switch options |
| Requests.ActiveOptions | pokesage/processors/showdownprocessor.py:710-752 | one entry per slot, Pass for slots with no active option |
| Requests.ForcedChoice | pokesage/processors/showdownprocessor.py:689-706 | a force switch has one entry per slot of the game type, Pass exactly for unflagged slots, and only switches otherwise |
| Requests.ActiveChoice | pokesage/processors/showdownprocessor.py:708-755 | an active request has one entry per slot of the game type, Pass exactly beyond the active options |
| Requests.RequestChoice | pokesage/processors/showdownprocessor.py:663-755 | WAIT leaves no choice, TEAMPREVIEW gives positions 1..team size, FORCESWITCH and ACTIVE give per-slot choices, any other kind fails |
| Requests.Answered | pokesage/processors/showdownprocessor.py:576-755 | a request refreshes only the player's roster and choice, leaving the opponent, turn and weather alone; the roster is the filing loop's, as written or as corrected, and a failed lookup is a KeyError |
| Requests.AnsweredTwice | pokesage/processors/showdownprocessor.py:576-661 | as corrected, a snapshot with no records answers the same wait or team-preview request twice, the second refreshing what the first filed |
| Requests.HandleRequest | pokesage/processors/showdownprocessor.py:562-755 | a request for another user or another player id fails its assertion, and one before any snapshot is an IndexError; otherwise the player id is set and only the last snapshot changes, to the answer of the request as written or as corrected |
| Turns.Occupied | pokesage/processors/showdownprocessor.py:794-795 | the signed numbers of exactly the occupied slots of one side |
| Turns.FilledSlots | pokesage/processors/showdownprocessor.py:794-795 | own occupied slots appear negated and opponent occupied slots as they are, and nothing else |
| Turns.Aimed | pokesage/processors/showdownprocessor.py:813-817 | as written, an aimed move keeps number and target type and drops all four flags; corrected, it keeps them |
| Turns.ExpandMove | pokesage/processors/showdownprocessor.py:804-818 | a move needing no target is kept; otherwise it becomes exactly one aimed move per reachable filled slot |
| Turns.ExpandOptions | pokesage/processors/showdownprocessor.py:803-821 | the expanded options hold every non-move option and every expansion of every move, and nothing else |
| Turns.ExpandSlot | pokesage/processors/showdownprocessor.py:799-822 | a Pass entry or an empty own slot becomes Pass; otherwise the slot's options are expanded |
| Turns.ExpandSlots | pokesage/processors/showdownprocessor.py:798-822 | every slot is expanded position by position |
| Turns.HandleTurn | pokesage/processors/showdownprocessor.py:778-824 | singles and a team-order choice only record the turn number; otherwise there is an IndexError without a snapshot and a TypeError without a choice, and only the last snapshot's choice is rewritten |
| Turns.AsWrittenAimedAreBare | pokesage/processors/showdownprocessor.py:813-817 | as written, no expanded move carries a tera, mega, dynamax or z-move flag |
| Turns.TeraLostAsWritten | pokesage/processors/showdownprocessor.py:813-817 | a tera move aimed at one foe loses its tera flag as written and keeps it when corrected |
| Turns.CorrectedKeepsGimmicks | pokesage/processors/showdownprocessor.py:813-817 | corrected, every expanded move keeps the number and all four flags of the original |
| Processing.HandlePlayer | pokesage/processors/showdownprocessor.py:432-444 | a player line with our name sets our id and rating; any other name sets the opponent's name, id and rating |
| Processing.HandleTeamSize | pokesage/processors/showdownprocessor.py:446-455 | the team size goes to us when the player id is ours and to the opponent otherwise; the other side's size and every other field of the battle are unchanged |
| Processing.HandleGameType | pokesage/processors/showdownprocessor.py:457-473 | the game type is stored; a known one resets both slot tables of the last snapshot, an unknown one leaves them |
| Processing.GameTypeSlots | pokesage/processors/showdownprocessor.py:465-473 | after a known game type both tables have keys exactly 1..n, all empty |
| Processing.Previewed | pokesage/processors/showdownprocessor.py:526-535 | a previewed opponent pokemon has species, cleaned base species, level, gender, tera type and item flag, and no nickname |
| Processing.HandlePoke | pokesage/processors/showdownprocessor.py:513-539 | our own preview line changes nothing; an opponent's adds the record under the preview key to the last snapshot |
| Processing.PreviewNotFoundAsWritten | pokesage/processors/showdownprocessor.py:537-539 | as written, the first switch-in of a previewed pokemon does not find its preview record and the roster grows to two |
| Processing.PreviewFoundCorrected | pokesage/processors/showdownprocessor.py:914-920 | with the corrected key, the switch-in promotes the preview record and the roster stays at one |
| Processing.Commit | pokesage/processors/showdownprocessor.py:959 | a successful event writes back the last snapshot, and a failure propagates |
| Processing.Opening | pokesage/processors/showdownprocessor.py:475-497 | gen, tier and rated lines set their fields, the tier in normalised form; `poke` goes to the preview handler as written or as corrected |
| Processing.SlotEvent | pokesage/processors/showdownprocessor.py:864-1634 | switch, drag, detailschange, replace and swap without a slot letter fail their assertion before the snapshot is read. Otherwise a slot event before the first snapshot is an IndexError, and a slot event changes only the last snapshot |
| Processing.Closing | pokesage/processors/showdownprocessor.py:826-848 | win records whether we won, tie and expire record a loss, error and bigerror raise a RuntimeError, init appends a snapshot of turn 1 |
| Processing.Handle | pokesage/processors/showdownprocessor.py:124-423 | only init adds a snapshot; teampreview and unhandled kinds change nothing |
| Processing.RequestInHandle | pokesage/processors/showdownprocessor.py:562-575 | a request addressed to the player, whose last snapshot can be answered, names the player and replaces the last snapshot by the answer |
| Processing.SecondRequestFailsInHandle | pokesage/processors/showdownprocessor.py:622-625 | as written, once a request has filed a one-pokemon team into an empty roster, the same request message fails with a KeyError |
| Processing.SecondRequestAcceptedInHandle | pokesage/processors/showdownprocessor.py:580-661 | as corrected, the same request message twice is taken, and afterwards the roster holds every reported pokemon in report order with the record the first request built |
| Processing.KindProgress | pokesage/processors/showdownprocessor.py:124-423 | turn gives MOVE, teampreview TEAM_ORDER, a FORCESWITCH request SWITCH, win, tie and expire GAME_END, and nothing gives FULL_END |
| Processing.ProcessBm | pokesage/processors/showdownprocessor.py:100-430 | a pre-hook result short-circuits; a post-hook result overrides the kind's progress state |
| Processing.UnhandledIsNoAction | pokesage/processors/showdownprocessor.py:421-423 | an unhandled kind leaves the battle alone and yields NO_ACTION |
| Processing.ProcessAction | pokesage/processors/showdownprocessor.py:28-39 | recording an action appends it and a copy of the last snapshot, and keeps the earlier snapshots; it is an AttributeError without an action list and an IndexError without a snapshot |
| Connection.NewConnector | pokesage/connectors/websocketconnector.py:76-118 | a challenge objective without a whitelist is a TypeError and with an empty one a RuntimeError; otherwise all counters and maps start empty |
| Connection.NextChallenge | pokesage/connectors/websocketconnector.py:292-297 | the user to challenge is the first whitelisted user with no pending challenge, or none when all are pending |
| Connection.HandleUpdateSearch | pokesage/connectors/websocketconnector.py:275-310 | the completion and concurrency gates; at most one frame per call, counted in pending; accept sends nothing; challenge and ladder send exactly when their conditions hold |
| Connection.NoUserChallengedTwice | pokesage/connectors/websocketconnector.py:292-297 | two successive challenge frames name different users |
| Connection.FrameNamesUser | pokesage/connectors/websocketconnector.py:294 | challenge frames for different users differ |
| Connection.ChallengedAreWhitelisted | pokesage/connectors/websocketconnector.py:292-295 | only whitelisted users are ever recorded as pending |
| Connection.NormalizeAll | pokesage/connectors/websocketconnector.py:240 | every stored format is the normalised form of the reported one |
| Connection.StoredFormatsAreNormal | pokesage/connectors/websocketconnector.py:240 | stored formats are already normal |
| Connection.HandleGeneral | pokesage/connectors/websocketconnector.py:219-258 | updateuser sets the login flag; updatesearch recounts pending and active battles; formats are stored normalised; challstr sends the login token or ends with SETUP_ERROR; the progress is FULL_END exactly when the connection ends |
| Connection.HandleBattleMessage | pokesage/connectors/websocketconnector.py:380-392 | a finished battle yields NO_ACTION and no snapshot; any other runs its processor, created on first use, and returns the last snapshot |
| Connection.Payload | pokesage/connectors/websocketconnector.py:509-517 | a list action must have as many entries as the game type has slots, and its payload is the comma-joined slot renderings |
| Connection.Record | pokesage/connectors/websocketconnector.py:539-540 | the action is recorded in its battle's processor, then the choose frame is sent; an unknown battle is a KeyError |
| Connection.SubmitAction | pokesage/connectors/websocketconnector.py:471-540 | quit ends the connection, resign needs a battle id, each progress state admits only its choice shape, and NO_ACTION accepts only no choice |
| Connection.ProcessAction | pokesage/connectors/websocketconnector.py:415-443 | FULL_END completes the objective; GAME_END moves the battle to the completed map and is a KeyError for an unknown battle; a submit failure becomes a termination: INVALID_CHOICE for an assertion or not-implemented error, OTHER_ERROR for any other |
| Connection.FinishedBattleIgnored | pokesage/connectors/websocketconnector.py:380-381 | after GAME_END, any further message for that battle is ignored |
| Connection.QuitAlwaysShutsDown | pokesage/connectors/websocketconnector.py:472-479 | quit gives OTHER_ERROR "USER REQUESTED SHUTDOWN" for any battle id |
| Connection.ResignOutcomes | pokesage/connectors/websocketconnector.py:480-486 | resign without a battle id becomes INVALID_CHOICE; with one it ends nothing and sends nothing |
| Connection.WrongLengthIsInvalid | pokesage/connectors/websocketconnector.py:509-514 | a list action of the wrong length for the game type becomes INVALID_CHOICE and sends nothing |

## Left out

- The websocket loop (`launch_connection`), the login HTTP request and its JSON reply are I/O. The login reply is a parameter of `HandleGeneral`, and frames are an output sequence.
- Writing logs and JSON files on GAME_END, the processor's own log, and the debug prints are file or console side effects.
- Turning raw server lines into messages happens in an external library. Messages arrive already classified.
- `clean_forme` and the Dex enumerations come from an external library. `clean_forme` is a function parameter, and enumerations are strings or datatypes.
- Private messages (`pm`) are ignored by the source, like the other unhandled general messages.
- The probability fields on items, abilities and moves are floats fixed at 1.0. They are left out of the records.
- `beartype.is_bearable` runtime checks become constructor tests that check every list element.
- `deepcopy` needs no counterpart: Dafny values are already independent copies.
- The handlers that only record a log line (damage, boost, weather and the rest) share one `Other` message kind that changes nothing.
- The decision makers in the sages package, the abstract base classes and the legacy state stubs are outside the core.
- Exception messages are modelled only where a caller sees them: the termination texts, the Illusion error and the slot-length errors. Everywhere else only the exception class is kept.
- A Python exception raised halfway through a handler leaves earlier mutations in place. The model drops the whole message instead, because the exception also ends the connection.
- Text.NormalizeFormat: lowercases ASCII letters only. Python's `lower()` also folds every other Unicode capital, and can lengthen the string (`İ` becomes two characters). Showdown format names are ASCII, so the model keeps to ASCII.
- Pokemon: the `boosts` (pokemon.py:206) and `conditions` (pokemon.py:226) fields keep their defaults, and a move's `use_count` (pokemon.py:98) is always 0. No handler of the processor writes them, so the records leave them out.
- Pokemon.Validate: pydantic validates the slot bound only at construction. The handlers assign slots after construction without validation, so the model does not enforce the bound there either.

## Findings

| source | as written | input that shows it | evidently intended | confidence | as-written member | corrected member |
|---|---|---|---|---|---|---|
| pokesage/processors/showdownprocessor.py:622-625 | the first request stores each pokemon under `to_base_id` (player, base species, level, gender, "None"); later requests look it up under player, cleaned species, gender and nickname | any two requests in a row that report one pokemon | one key for insert and lookup, so the second request refreshes the record | high, not executed | Processing.SecondRequestFailsInHandle | Processing.SecondRequestAcceptedInHandle |
| pokesage/processors/showdownprocessor.py:591 | the stat block is given `max_apattack`, which pydantic ignores as an unknown field | any request | `max_spattack` set to the reported special attack | high, not executed | Requests.AsWrittenBlockNotExact | Requests.ReportedBlock |
| pokesage/processors/showdownprocessor.py:813-817 | target expansion rebuilds each aimed move from number, target and target type only | a tera move choice with target type normal, in doubles with one foe | the aimed copies keep the tera, mega, dynamax and z-move flags | medium, not executed | Turns.TeraLostAsWritten | Turns.CorrectedKeepsGimmicks |
| pokesage/processors/showdownprocessor.py:537-539 | a previewed opponent pokemon is stored under `to_base_id`, which has five fields; the switch handler looks for the four-field base key at line 879 | a team preview line followed by the switch-in of the same pokemon | the switch-in finds the preview record and promotes it, leaving one record | high, not executed | Processing.PreviewNotFoundAsWritten | Processing.PreviewFoundCorrected |
