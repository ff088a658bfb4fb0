/** The decisions of the websocket connection controller
    (pokesage/connectors/websocketconnector.py): when to challenge a user or
    search the ladder, how the counters follow the server's search updates,
    how an action is checked against the decision asked for and turned into
    the line sent to the server, and how failures end the connection.

    Everything the controller sends is collected as a list of frames in an
    `Outcome` instead of being written to a socket. The login exchange with
    the login server is a parameter of the challenge-string message: its
    outcome is either a token or the reason it failed.
 */
module Connection {
  import opened Results
  import opened Text
  import opened Choices
  import opened State
  import opened Battles
  import opened Messages
  import Processing

  datatype Objective = Accept | Challenge | Ladder

  datatype TerminationCode =
    | ObjectiveComplete
    | InvalidChoice
    | SetupError
    | ConnectionError
    | ProcessorError
    | OtherError

  /** What a termination says: nothing, a fixed text, or the exception that caused it
      (which the program renders as text). */
  datatype Detail = NoDetail | Says(text: string) | Raised(fault: Fault)

  datatype Termination = Termination(code: TerminationCode, detail: Detail)

  /** The body of an `updatesearch` message: the formats being searched and the ids of the
      games in progress, absent when there are none. */
  datatype Search = Search(searching: seq<string>, games: Option<seq<string>>)

  datatype LoginOutcome = Token(token: string) | LoginFailed(reason: string)

  /** The messages outside any battle the controller acts on; every other kind is `Unhandled`. */
  datatype GeneralMessage =
    | UpdateUser(named: bool)
    | UpdateSearch(search: Search)
    | Formats(formats: seq<string>)
    | ChallStr(login: LoginOutcome)
    | Unhandled

  /** The controller. A processor is represented by the battle it builds. */
  datatype Connector = Connector(
    username: string,
    targetFormat: string,
    gametype: string,
    objective: Objective,
    whitelist: seq<string>,
    maxConcurrent: int,
    totalBattles: int,
    loggedIn: bool,
    lastSearch: Option<Search>,
    validFormats: seq<string>,
    pendingChallenges: map<string, string>,
    processors: map<string, Battle>,
    completed: map<string, Battle>,
    pendingAmt: int,
    activeAmt: int)

  /** Every battle a processor holds is well formed. */
  predicate Valid(c: Connector) {
    forall id :: id in c.processors ==> WellFormed(c.processors[id])
  }

  /** The controller after a step, the termination it asks for, and the frames it sent. */
  datatype Outcome = Outcome(conn: Connector, term: Option<Termination>, sent: seq<string>)

  // ---------------------------------------------------------------------------
  // Construction.

  const NoWhitelistMessage: string := "Objective was set to challenge but no users were in the whitelist!"

  /** The constructor: the challenge objective needs someone to challenge. A missing
      whitelist fails on taking its length before the intended check can run. */
  function NewConnector(username: string, targetFormat: string, gametype: string, objective: Objective,
                        whitelist: Option<seq<string>>, maxConcurrent: int, totalBattles: int)
    : (r: Result<Connector>)
    ensures r.Ok? <==> objective != Challenge || (whitelist.Some? && |whitelist.value| > 0)
    ensures objective == Challenge && whitelist.None? ==> r == Err(TypeError)
    ensures objective == Challenge && whitelist == Some([]) ==> r == Err(RuntimeError(NoWhitelistMessage))
    ensures r.Ok? ==> Valid(r.value) && r.value.objective == objective
                      && r.value.whitelist == (if whitelist.Some? then whitelist.value else [])
                      && r.value.processors == map[] && r.value.completed == map[]
                      && r.value.pendingChallenges == map[]
                      && r.value.pendingAmt == 0 && r.value.activeAmt == 0
                      && !r.value.loggedIn && r.value.lastSearch.None? && r.value.validFormats == []
  {
    if objective == Challenge && whitelist.None? then Err(TypeError)
    else if objective == Challenge && |whitelist.value| == 0 then Err(RuntimeError(NoWhitelistMessage))
    else
      Ok(Connector(username, targetFormat, gametype, objective, whitelist.GetOr([]), maxConcurrent, totalBattles,
                   false, None, [], map[], map[], map[], 0, 0))
  }

  // ---------------------------------------------------------------------------
  // Matchmaking.

  /** The position of the first user from `i` on who has not been challenged yet,
      `|users|` when there is none. */
  function FirstUnchallenged(users: seq<string>, pending: map<string, string>, i: nat): (r: nat)
    requires i <= |users|
    ensures i <= r <= |users|
    ensures forall k :: i <= k < r ==> users[k] in pending
    ensures r < |users| ==> users[r] !in pending
    decreases |users| - i
  {
    if i == |users| then i
    else if users[i] !in pending then i
    else FirstUnchallenged(users, pending, i + 1)
  }

  /** The user the challenge objective challenges next, if anyone is left. */
  function NextChallenge(c: Connector): (u: Option<string>)
    ensures u.None? <==> forall k :: 0 <= k < |c.whitelist| ==> c.whitelist[k] in c.pendingChallenges
    ensures u.Some? ==> exists k :: 0 <= k < |c.whitelist| && c.whitelist[k] == u.value
                                    && (forall j :: 0 <= j < k ==> c.whitelist[j] in c.pendingChallenges)
    ensures u.Some? ==> u.value !in c.pendingChallenges
  {
    var k := FirstUnchallenged(c.whitelist, c.pendingChallenges, 0);
    if k == |c.whitelist| then None else Some(c.whitelist[k])
  }

  function ChallengeFrame(user: string, format: string): string {
    "|/challenge " + user + ", " + format
  }

  function SearchFrame(format: string): string {
    "|/search, " + format
  }

  const CompletedMessage: string := "REQUIRED NUMBER OF GAMES COMPLETED"

  /** `handle_updatesearch`: stop once enough games are over and none is running, wait
      while games are still running or too many are under way, and otherwise start at most
      one new game as the objective says. */
  function HandleUpdateSearch(c: Connector, s: Search): (o: Outcome)
    ensures |c.completed| >= c.totalBattles && s.games.None? ==>
              o == Outcome(c, Some(Termination(ObjectiveComplete, Says(CompletedMessage))), [])
    ensures o.term.Some? ==> |c.completed| >= c.totalBattles && s.games.None?
    ensures |c.completed| >= c.totalBattles || c.pendingAmt + c.activeAmt >= c.maxConcurrent ==>
              o.conn == c && o.sent == []
    ensures |o.sent| <= 1 && o.conn.pendingAmt == c.pendingAmt + |o.sent|
    ensures o.conn == c.(pendingChallenges := o.conn.pendingChallenges, pendingAmt := o.conn.pendingAmt)
    ensures c.objective == Accept ==> o.conn == c && o.sent == []
    ensures c.objective != Challenge ==> o.conn.pendingChallenges == c.pendingChallenges
    ensures c.objective == Challenge && |o.sent| == 1 ==>
              NextChallenge(c).Some?
              && o.sent == [ChallengeFrame(NextChallenge(c).value, c.targetFormat)]
              && o.conn.pendingChallenges == c.pendingChallenges[NextChallenge(c).value := c.targetFormat]
    ensures c.objective == Challenge && |o.sent| == 0 ==> o.conn.pendingChallenges == c.pendingChallenges
    ensures (c.objective == Challenge && |c.completed| < c.totalBattles && c.pendingAmt + c.activeAmt < c.maxConcurrent)
            ==> (|o.sent| == 1 <==> exists k :: 0 <= k < |c.whitelist| && c.whitelist[k] !in c.pendingChallenges)
    ensures c.objective == Ladder && |o.sent| == 1 ==> o.sent == [SearchFrame(c.targetFormat)]
    ensures (c.objective == Ladder && |c.completed| < c.totalBattles && c.pendingAmt + c.activeAmt < c.maxConcurrent)
            ==> (|o.sent| == 1 <==> c.targetFormat !in s.searching
                                    && (s.games.None? || forall g :: g in s.games.value ==> !IsSubstring(c.targetFormat, g)))
  {
    if |c.completed| >= c.totalBattles && s.games.None? then
      Outcome(c, Some(Termination(ObjectiveComplete, Says(CompletedMessage))), [])
    else if |c.completed| >= c.totalBattles then Outcome(c, None, [])
    else if c.pendingAmt + c.activeAmt >= c.maxConcurrent then Outcome(c, None, [])
    else
      match c.objective
      case Accept => Outcome(c, None, [])
      case Challenge =>
        (match NextChallenge(c)
         case None => Outcome(c, None, [])
         case Some(u) =>
           Outcome(c.(pendingChallenges := c.pendingChallenges[u := c.targetFormat], pendingAmt := c.pendingAmt + 1),
                   None, [ChallengeFrame(u, c.targetFormat)]))
      case Ladder =>
        if c.targetFormat !in s.searching && (s.games.None? || forall g :: g in s.games.value ==> !IsSubstring(c.targetFormat, g))
        then Outcome(c.(pendingAmt := c.pendingAmt + 1), None, [SearchFrame(c.targetFormat)])
        else Outcome(c, None, [])
  }

  /** The same user is never challenged twice: a second search update challenges someone
      else, whatever the two updates say. */
  lemma NoUserChallengedTwice(c: Connector, s1: Search, s2: Search)
    requires c.objective == Challenge
    requires |HandleUpdateSearch(c, s1).sent| == 1
    requires |HandleUpdateSearch(HandleUpdateSearch(c, s1).conn, s2).sent| == 1
    ensures HandleUpdateSearch(c, s1).sent[0] != HandleUpdateSearch(HandleUpdateSearch(c, s1).conn, s2).sent[0]
  {
    var o1 := HandleUpdateSearch(c, s1);
    var o2 := HandleUpdateSearch(o1.conn, s2);
    var u1 := NextChallenge(c).value;
    var u2 := NextChallenge(o1.conn).value;
    assert o1.sent == [ChallengeFrame(u1, c.targetFormat)];
    assert o2.sent == [ChallengeFrame(u2, c.targetFormat)];
    assert u1 in o1.conn.pendingChallenges;
    FrameNamesUser(u1, u2, c.targetFormat);
  }

  /** Different users get different challenge lines. */
  lemma FrameNamesUser(u1: string, u2: string, format: string)
    requires u1 != u2
    ensures ChallengeFrame(u1, format) != ChallengeFrame(u2, format)
  {
    var prefix := "|/challenge ";
    if |u1| == |u2| {
      assert ChallengeFrame(u1, format)[|prefix|..|prefix| + |u1|] == u1;
      assert ChallengeFrame(u2, format)[|prefix|..|prefix| + |u2|] == u2;
    }
  }

  /** Challenges only go to whitelisted users, one per slot of room: the users with an
      open challenge are the earlier ones plus the user just challenged. */
  lemma ChallengedAreWhitelisted(c: Connector, s: Search)
    requires c.objective == Challenge
    requires forall u :: u in c.pendingChallenges ==> u in c.whitelist
    ensures forall u :: u in HandleUpdateSearch(c, s).conn.pendingChallenges ==> u in c.whitelist
  {
  }

  // ---------------------------------------------------------------------------
  // Messages outside any battle.

  /** `[normalise(f) for f in formats]`. */
  function NormalizeAll(formats: seq<string>): (r: seq<string>)
    ensures |r| == |formats|
    ensures forall k :: 0 <= k < |r| ==> r[k] == NormalizeFormat(formats[k])
  {
    seq(|formats|, k requires 0 <= k < |formats| => NormalizeFormat(formats[k]))
  }

  /** Every stored format name is already normalised. */
  lemma StoredFormatsAreNormal(formats: seq<string>, k: int)
    requires 0 <= k < |formats|
    ensures NormalizeFormat(NormalizeAll(formats)[k]) == NormalizeAll(formats)[k]
  {
    NormalizeFormatIdempotent(formats[k]);
  }

  /** The progress reported with an outcome: the end of everything when it terminates. */
  function Reported(o: Outcome): (r: (Progress, Outcome))
    ensures r.1 == o && (r.0 == FullEnd <==> o.term.Some?) && (r.0 != FullEnd ==> r.0 == NoAction)
  {
    (if o.term.Some? then FullEnd else NoAction, o)
  }

  /** `handle_general_message`. A search update sets the counters (the pending count only
      for the ladder, which learns it from the server) and is acted on once logged in, or
      kept until then; the login reply acts on the kept update. */
  function HandleGeneral(c: Connector, m: GeneralMessage): (r: (Progress, Outcome))
    ensures (r.0 == FullEnd <==> r.1.term.Some?) && (r.0 != FullEnd ==> r.0 == NoAction)
    ensures Valid(c) ==> Valid(r.1.conn)
    ensures r.1.conn.processors == c.processors && r.1.conn.completed == c.completed
    ensures m.UpdateSearch? && c.objective == Ladder ==>
              r.1.conn.pendingAmt == |m.search.searching| + |r.1.sent|
    ensures m.UpdateSearch? && c.objective != Ladder ==> r.1.conn.pendingAmt == c.pendingAmt + |r.1.sent|
    ensures m.UpdateSearch? ==>
              r.1.conn.activeAmt == (if m.search.games.None? then 0 else |m.search.games.value|)
    ensures m.UpdateSearch? && !c.loggedIn ==> r.1.conn.lastSearch == Some(m.search) && r.1.sent == []
    ensures m.UpdateUser? ==> r.1.conn.loggedIn == m.named
    ensures m.UpdateUser? && (!m.named || c.lastSearch.None?) ==> r == (NoAction, Outcome(c.(loggedIn := m.named), None, []))
    ensures m.Formats? ==> r == (NoAction, Outcome(c.(validFormats := NormalizeAll(m.formats)), None, []))
    ensures m.ChallStr? && m.login.Token? ==>
              r == (NoAction, Outcome(c, None, ["|/trn " + c.username + ",0," + Strip(m.login.token)]))
    ensures m.ChallStr? && m.login.LoginFailed? ==>
              r == (FullEnd, Outcome(c, Some(Termination(SetupError, Says(m.login.reason))), []))
    ensures m.Unhandled? ==> r == (NoAction, Outcome(c, None, []))
  {
    match m
    case UpdateUser(named) =>
      var c1 := c.(loggedIn := named);
      if named && c1.lastSearch.Some? then Reported(HandleUpdateSearch(c1, c1.lastSearch.value))
      else (NoAction, Outcome(c1, None, []))
    case UpdateSearch(s) =>
      var c1 := if c.objective == Ladder then c.(pendingAmt := |s.searching|) else c;
      var c2 := c1.(activeAmt := if s.games.None? then 0 else |s.games.value|);
      if c2.loggedIn then Reported(HandleUpdateSearch(c2, s))
      else (NoAction, Outcome(c2.(lastSearch := Some(s)), None, []))
    case Formats(formats) => (NoAction, Outcome(c.(validFormats := NormalizeAll(formats)), None, []))
    case ChallStr(login) =>
      (match login
       case Token(token) => (NoAction, Outcome(c, None, ["|/trn " + c.username + ",0," + Strip(token)]))
       case LoginFailed(reason) => (FullEnd, Outcome(c, Some(Termination(SetupError, Says(reason))), [])))
    case Unhandled => (NoAction, Outcome(c, None, []))
  }

  // ---------------------------------------------------------------------------
  // Battle messages.

  /** `handle_battle_message`: a message for a finished battle is ignored; any other goes
      to the battle's processor, created on its first message, and the processor's last
      snapshot is handed to the player. `asWritten` chooses the processor's handlers as
      written or as corrected. */
  function HandleBattleMessage(c: Connector, battleId: string, bm: BattleMessage, cf: string -> string,
                               asWritten: bool)
    : (r: Result<(Progress, Option<BattleState>, Connector)>)
    requires Valid(c)
    ensures battleId in c.completed ==> r == Ok((NoAction, None, c))
    ensures r.Ok? ==> Valid(r.value.2)
    ensures r.Ok? && battleId !in c.completed ==>
              var b := if battleId in c.processors then c.processors[battleId] else ProcessorBattle(c.username);
              var step := Processing.ProcessBm(b, bm, cf, asWritten, None, None);
              step.Ok? && |step.value.0.states| > 0
              && r.value == (step.value.1, Some(step.value.0.states[|step.value.0.states| - 1]),
                             c.(processors := c.processors[battleId := step.value.0]))
    ensures battleId !in c.completed && r.Err? ==>
              var b := if battleId in c.processors then c.processors[battleId] else ProcessorBattle(c.username);
              var step := Processing.ProcessBm(b, bm, cf, asWritten, None, None);
              step.Err? || |step.value.0.states| == 0
  {
    if battleId in c.completed then Ok((NoAction, None, c))
    else
      var b := if battleId in c.processors then c.processors[battleId] else ProcessorBattle(c.username);
      var step :- Processing.ProcessBm(b, bm, cf, asWritten, None, None);
      var st :- LastState(step.0);
      Ok((step.1, Some(st), c.(processors := c.processors[battleId := step.0])))
  }

  // ---------------------------------------------------------------------------
  // Acting.

  /** The list length each game type accepts. */
  predicate FitsGametype(gametype: string, n: int) {
    (gametype == "singles" && n == 1) || (gametype == "doubles" && n == 2) || (gametype == "triples" && n == 3)
  }

  /** What follows `/choose`: the slot choices joined by commas, or the choice's own rendering. */
  function Payload(gametype: string, action: AnyChoice): (r: Result<string>)
    ensures action.Slots? && r.Ok? ==> SlotLength(Some(gametype)) == Ok(|action.choices|)
    ensures action.Slots? ==> (r.Ok? <==> FitsGametype(gametype, |action.choices|)
                                          && forall k :: 0 <= k < |action.choices| ==> !action.choices[k].Item?)
    ensures action.Slots? && r.Ok? ==> r == SlotsToShowdown(action.choices)
    ensures !action.Slots? ==> r == ChoiceToShowdown(action)
  {
    if action.Slots? then
      var _ :- Check(FitsGametype(gametype, |action.choices|));
      SlotsToShowdown(action.choices)
    else ChoiceToShowdown(action)
  }

  /** The line sent for a choice in battle `battleId`. */
  function ChooseFrame(battleId: string, payload: string): string {
    battleId + "|/choose " + payload
  }

  /** The processor records the action and its snapshot, then the line is sent. */
  function Record(c: Connector, battleId: string, action: AnyChoice, payload: string): (r: Result<Outcome>)
    requires Valid(c)
    ensures r.Ok? <==> battleId in c.processors && Processing.ProcessAction(c.processors[battleId], action).Ok?
    ensures battleId !in c.processors ==> r == Err(KeyError)
    ensures r.Ok? ==> Valid(r.value.conn) && r.value.term.None? && r.value.sent == [ChooseFrame(battleId, payload)]
    ensures r.Ok? ==> r.value.conn == c.(processors := c.processors[battleId := Processing.ProcessAction(c.processors[battleId], action).value])
  {
    if battleId !in c.processors then Err(KeyError)
    else
      var b :- Processing.ProcessAction(c.processors[battleId], action);
      Ok(Outcome(c.(processors := c.processors[battleId := b]), None, [ChooseFrame(battleId, payload)]))
  }

  const ShutdownMessage: string := "USER REQUESTED SHUTDOWN"

  /** `submit_action`: quitting ends the connection; resigning needs a battle; otherwise
      the action must have the shape the decision asks for and is sent to its battle. When
      nothing is asked for, only "no action" is accepted. */
  function SubmitAction(c: Connector, progress: Progress, action: AnyChoice, battleId: Option<string>)
    : (r: Result<Outcome>)
    requires Valid(c)
    ensures action.Quit? ==> r == Ok(Outcome(c, Some(Termination(OtherError, Says(ShutdownMessage))), []))
    ensures action.Resign? ==> (r.Ok? <==> battleId.Some?) && (r.Ok? ==> r.value == Outcome(c, None, []))
                               && (r.Err? ==> r.error == AssertionError)
    ensures (!action.Quit? && !action.Resign? && !progress.TeamOrderNeeded? && !progress.SwitchNeeded? && !progress.MoveNeeded?)
            ==> (r.Ok? <==> action.NoChoice?) && (r.Ok? ==> r.value == Outcome(c, None, []))
                && (r.Err? ==> r.error == AssertionError)
    ensures r.Ok? ==> Valid(r.value.conn) && |r.value.sent| <= 1 && (r.value.term.Some? <==> action.Quit?)
    ensures r.Ok? && |r.value.sent| == 1 ==>
              battleId.Some? && battleId.value in c.processors
              && (progress.TeamOrderNeeded? ==> IsTeamOrderChoice(action))
              && (progress.SwitchNeeded? ==> IsForceSwitchChoice(action))
              && (progress.MoveNeeded? ==> IsMoveDecisionChoice(action))
              && Payload(c.gametype, action).Ok?
              && r.value.sent == [ChooseFrame(battleId.value, Payload(c.gametype, action).value)]
              && var b := c.processors[battleId.value];
                 Processing.ProcessAction(b, action).Ok?
                 && r.value.conn == c.(processors := c.processors[battleId.value := Processing.ProcessAction(b, action).value])
    ensures r.Ok? && |r.value.sent| == 0 ==> r.value.conn == c
  {
    if action.Quit? then Ok(Outcome(c, Some(Termination(OtherError, Says(ShutdownMessage))), []))
    else if action.Resign? then
      var _ :- Check(battleId.Some?);
      Ok(Outcome(c, None, []))
    else if progress.TeamOrderNeeded? || progress.SwitchNeeded? || progress.MoveNeeded? then
      var shaped := if progress.TeamOrderNeeded? then IsTeamOrderChoice(action)
                    else if progress.SwitchNeeded? then IsForceSwitchChoice(action)
                    else IsMoveDecisionChoice(action);
      var _ :- Check(shaped);
      var _ :- Check(battleId.Some?);
      var payload :- Payload(c.gametype, action);
      Record(c, battleId.value, action, payload)
    else
      var _ :- Check(action.NoChoice?);
      Ok(Outcome(c, None, []))
  }

  /** `process_action`: the end of everything completes the objective; the end of a game
      moves its battle to the finished ones; anything else is submitted, and a failure to
      submit ends the connection, as an invalid choice when an assertion failed or a
      rendering is not implemented and as another error otherwise. */
  function ProcessAction(c: Connector, progress: Progress, action: AnyChoice, battleId: Option<string>)
    : (r: Result<Outcome>)
    requires Valid(c)
    ensures r.Err? <==> progress == GameEnd && (battleId.None? || battleId.value !in c.processors)
    ensures r.Err? ==> r.error == KeyError
    ensures r.Ok? ==> Valid(r.value.conn)
    ensures progress == FullEnd ==> r == Ok(Outcome(c, Some(Termination(ObjectiveComplete, NoDetail)), []))
    ensures progress == GameEnd && r.Ok? ==>
              var id := battleId.value;
              r.value == Outcome(c.(completed := c.completed[id := c.processors[id]], processors := c.processors - {id}), None, [])
    ensures !progress.FullEnd? && !progress.GameEnd? ==>
              var s := SubmitAction(c, progress, action, battleId);
              (s.Ok? ==> r == s)
              && (s.Err? ==> r == Ok(Outcome(c, Some(Termination(FaultCode(s.error), Raised(s.error))), [])))
  {
    if progress == FullEnd then Ok(Outcome(c, Some(Termination(ObjectiveComplete, NoDetail)), []))
    else if progress == GameEnd then
      if battleId.None? || battleId.value !in c.processors then Err(KeyError)
      else
        var id := battleId.value;
        Ok(Outcome(c.(completed := c.completed[id := c.processors[id]], processors := c.processors - {id}), None, []))
    else
      match SubmitAction(c, progress, action, battleId)
      case Ok(o) => Ok(o)
      case Err(f) => Ok(Outcome(c, Some(Termination(FaultCode(f), Raised(f))), []))
  }

  /** The termination code of a failed submission. */
  function FaultCode(f: Fault): (code: TerminationCode)
    ensures code == InvalidChoice <==> f == AssertionError || f == NotImplementedError
    ensures code != InvalidChoice ==> code == OtherError
  {
    if f == AssertionError || f == NotImplementedError then InvalidChoice else OtherError
  }

  /** Once its game has ended, further messages for a battle are ignored and change nothing. */
  lemma FinishedBattleIgnored(c: Connector, battleId: string, action: AnyChoice, bm: BattleMessage,
                              cf: string -> string, asWritten: bool)
    requires Valid(c) && battleId in c.processors
    ensures var r := ProcessAction(c, GameEnd, action, Some(battleId));
            r.Ok? && Valid(r.value.conn) && battleId !in r.value.conn.processors
            && r.value.conn.completed[battleId] == c.processors[battleId]
            && HandleBattleMessage(r.value.conn, battleId, bm, cf, asWritten) == Ok((NoAction, None, r.value.conn))
  {
  }

  /** Quitting ends the connection with the shutdown message whatever the decision asked
      for and whether or not a battle is named; nothing is sent. */
  lemma QuitAlwaysShutsDown(c: Connector, progress: Progress, battleId: Option<string>)
    requires Valid(c) && !progress.FullEnd? && !progress.GameEnd?
    ensures ProcessAction(c, progress, Quit, battleId) == Ok(Outcome(c, Some(Termination(OtherError, Says(ShutdownMessage))), []))
  {
  }

  /** Resigning outside a battle is an invalid choice; inside one it sends nothing and
      keeps the connection. */
  lemma ResignOutcomes(c: Connector, progress: Progress, battleId: Option<string>)
    requires Valid(c) && !progress.FullEnd? && !progress.GameEnd?
    ensures battleId.None? ==>
              ProcessAction(c, progress, Resign, battleId) == Ok(Outcome(c, Some(Termination(InvalidChoice, Raised(AssertionError))), []))
    ensures battleId.Some? ==> ProcessAction(c, progress, Resign, battleId) == Ok(Outcome(c, None, []))
  {
  }

  /** A list answer of the wrong length for the game type is an invalid choice, and the
      battle's record is left as it was. */
  lemma WrongLengthIsInvalid(c: Connector, progress: Progress, choices: seq<SlotChoice>, battleId: string)
    requires Valid(c) && (progress.MoveNeeded? || progress.SwitchNeeded?)
    requires SlotLength(Some(c.gametype)) != Ok(|choices|)
    ensures var r := ProcessAction(c, progress, Slots(choices), Some(battleId));
            r.Ok? && r.value.conn == c && r.value.sent == [] && r.value.term.Some?
            && r.value.term.value.code == InvalidChoice
  {
  }
}
