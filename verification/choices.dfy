/** The choices a player can make in a battle and their simulator wire strings
    (pokesage/battle/choices.py).

    Every choice class of the original has a `to_showdown` rendering. Each
    rendering is paired here with a parser that reads the wire string back,
    and the lemmas show that the rendering determines the choice.
 */
module Choices {
  import opened Results
  import opened Text
  import opened Targeting

  /** One move option. `targetType` is kept for the target expansion of a turn
      but never rendered. */
  datatype MoveChoice = MoveChoice(
    moveNumber: int,
    targetType: Option<MoveTarget>,
    targetNumber: Option<int>,
    tera: bool,
    mega: bool,
    dyna: bool,
    zmove: bool)

  /** A move choice built with the field defaults: no target, no gimmick. */
  function PlainMove(moveNumber: int, targetType: Option<MoveTarget>): (m: MoveChoice)
    ensures m.moveNumber == moveNumber && m.targetType == targetType
    ensures m.targetNumber.None? && !m.tera && !m.mega && !m.dyna && !m.zmove
  {
    MoveChoice(moveNumber, targetType, None, false, false, false, false)
  }

  /** What one active slot does. `Item` exists but cannot be sent to the simulator. */
  datatype SlotChoice = Move(move: MoveChoice) | Switch(slot: int) | Item | Pass

  /** Anything the decision maker may answer with; `NoChoice` is Python's `None`. */
  datatype AnyChoice =
    | Slots(choices: seq<SlotChoice>)
    | Team(order: seq<int>)
    | Resign
    | Default
    | Quit
    | NoChoice

  /** The options of one slot: a list of alternatives, or a bare pass. */
  datatype SlotOptions = Options(options: seq<SlotChoice>) | PassOption

  /** The options the processor offers: per-slot alternatives, or a team order. */
  datatype BattleChoice = PerSlot(slots: seq<SlotOptions>) | TeamOrder(order: seq<int>)

  // ---------------------------------------------------------------------------
  // Renderings.

  function Render(order: seq<int>): (parts: seq<string>)
    ensures |parts| == |order|
    ensures forall k :: 0 <= k < |order| ==> parts[k] == IntToString(order[k])
  {
    if |order| == 0 then [] else Render(order[..|order| - 1]) + [IntToString(order[|order| - 1])]
  }

  /** "team " and the positions: run together below ten entries, comma separated from ten on. */
  function TeamToShowdown(order: seq<int>): (s: string)
    ensures |order| >= 10 ==> s == "team " + Join(Render(order), ",")
    ensures |order| < 10 ==> s == "team " + Concat(Render(order))
  {
    if |order| >= 10 then "team " + Join(Render(order), ",") else "team " + Concat(Render(order))
  }

  /** `choice += " " + word` when `on` holds. */
  function AddWord(choice: string, on: bool, word: string): string {
    if on then choice + " " + word else choice
  }

  function AddToken(tokens: seq<string>, on: bool, word: string): seq<string> {
    if on then tokens + [word] else tokens
  }

  /** The words of a move rendering, in their fixed order. */
  function MoveTokens(m: MoveChoice): (t: seq<string>)
    ensures |t| >= 2 && t[0] == "move" && t[1] == IntToString(m.moveNumber)
  {
    var t0 := ["move", IntToString(m.moveNumber)];
    var t1 := if m.targetNumber.Some? then t0 + [IntToString(m.targetNumber.value)] else t0;
    AddToken(AddToken(AddToken(AddToken(t1, m.tera, "terastallize"), m.mega, "mega"), m.dyna, "dynamax"), m.zmove, "zmove")
  }

  /** The string `to_showdown` builds before its final `strip`. */
  function AssembleMove(m: MoveChoice): string {
    var choice := "move " + IntToString(m.moveNumber);
    var c1 := if m.targetNumber.Some? then choice + " " + IntToString(m.targetNumber.value) else choice;
    AddWord(AddWord(AddWord(AddWord(c1, m.tera, "terastallize"), m.mega, "mega"), m.dyna, "dynamax"), m.zmove, "zmove")
  }

  function MoveToShowdown(m: MoveChoice): (s: string)
    ensures s == Join(MoveTokens(m), " ")
  {
    AssembleIsJoin(m);
    JoinHasNoBlanks(m);
    StripUnchanged(AssembleMove(m));
    Strip(AssembleMove(m))
  }

  lemma AddTokenJoin(t: seq<string>, on: bool, word: string)
    requires |t| >= 1
    ensures Join(AddToken(t, on, word), " ") == AddWord(Join(t, " "), on, word)
  {
    if on {
      JoinSnoc(t, word, " ");
    }
  }

  /** A non-empty piece of text without blanks. */
  predicate IsWord(w: string) {
    |w| > 0 && Excludes(w, ' ') && !IsSpace(w[0]) && !IsSpace(w[|w| - 1])
  }

  predicate AllWords(t: seq<string>) {
    forall k :: 0 <= k < |t| ==> IsWord(t[k])
  }

  lemma IntIsWord(i: int)
    ensures IsWord(IntToString(i))
  {
    var s := IntToString(i);
    IntToStringExcludes(i, ' ');
    IntToStringChars(i, 0);
    IntToStringChars(i, |s| - 1);
  }

  lemma AddTokenWords(t: seq<string>, on: bool, word: string)
    requires AllWords(t) && IsWord(word)
    ensures AllWords(AddToken(t, on, word))
  {
  }

  /** Every word of a move rendering is non-empty and free of blanks. */
  lemma MoveTokensAreWords(m: MoveChoice)
    ensures AllWords(MoveTokens(m))
  {
    MoveTokensSplit(m);
    HeadWordsAreWords(m);
    FlagWordsAreWords(m);
    AllWordsConcat(HeadWords(m), FlagWords(m));
  }

  lemma FixedWordsAreWords()
    ensures IsWord("move") && IsWord("terastallize") && IsWord("mega") && IsWord("dynamax") && IsWord("zmove")
  {
  }

  lemma AllWordsConcat(a: seq<string>, b: seq<string>)
    requires AllWords(a) && AllWords(b)
    ensures AllWords(a + b)
  {
  }

  lemma HeadWordsAreWords(m: MoveChoice)
    ensures AllWords(HeadWords(m))
  {
    FixedWordsAreWords();
    IntIsWord(m.moveNumber);
    var t0 := ["move", IntToString(m.moveNumber)];
    assert AllWords(t0);
    if m.targetNumber.Some? {
      IntIsWord(m.targetNumber.value);
      AllWordsConcat(t0, [IntToString(m.targetNumber.value)]);
    } else {
      assert HeadWords(m) == t0;
    }
  }

  lemma FlagWordsAreWords(m: MoveChoice)
    ensures AllWords(FlagWords(m))
  {
    FixedWordsAreWords();
    var a := Opt(m.tera, "terastallize");
    var b := Opt(m.mega, "mega");
    var c := Opt(m.dyna, "dynamax");
    var d := Opt(m.zmove, "zmove");
    AllWordsConcat(a, b);
    AllWordsConcat(a + b, c);
    AllWordsConcat(a + b + c, d);
  }

  /** The string built piece by piece is the space-joined word list. */
  lemma AssembleIsJoin(m: MoveChoice)
    ensures AssembleMove(m) == Join(MoveTokens(m), " ")
  {
    var n := IntToString(m.moveNumber);
    var t0: seq<string> := ["move", n];
    var choice := "move " + n;
    assert Join(t0, " ") == choice by {
      JoinSnoc(["move"], n, " ");
      assert ["move"] + [n] == t0;
    }
    var t1 := if m.targetNumber.Some? then t0 + [IntToString(m.targetNumber.value)] else t0;
    var c1 := if m.targetNumber.Some? then choice + " " + IntToString(m.targetNumber.value) else choice;
    assert Join(t1, " ") == c1 by {
      if m.targetNumber.Some? {
        JoinSnoc(t0, IntToString(m.targetNumber.value), " ");
      }
    }
    var t2 := AddToken(t1, m.tera, "terastallize");
    var t3 := AddToken(t2, m.mega, "mega");
    var t4 := AddToken(t3, m.dyna, "dynamax");
    AddTokenJoin(t1, m.tera, "terastallize");
    AddTokenJoin(t2, m.mega, "mega");
    AddTokenJoin(t3, m.dyna, "dynamax");
    AddTokenJoin(t4, m.zmove, "zmove");
  }

  /** The joined words have no blank at either end, so the final `strip` changes nothing. */
  lemma JoinHasNoBlanks(m: MoveChoice)
    ensures var s := Join(MoveTokens(m), " ");
            |s| > 0 && !IsSpace(s[0]) && !IsSpace(s[|s| - 1])
  {
    var t := MoveTokens(m);
    MoveTokensAreWords(m);
    assert IsWord(t[0]) && IsWord(t[|t| - 1]);
    JoinEnds(t, " ");
  }

  function SwitchToShowdown(slot: int): (s: string)
    ensures s == "switch " + IntToString(slot)
  {
    var choice := "switch " + IntToString(slot);
    assert choice[0] == 's';
    assert choice[|choice| - 1] == IntToString(slot)[|IntToString(slot)| - 1];
    IntToStringChars(slot, |IntToString(slot)| - 1);
    StripUnchanged(choice);
    Strip(choice)
  }

  const PassString: string := "pass"
  const ForfeitString: string := "forfeit"
  const DefaultString: string := "default"

  /** The rendering of one slot choice; an item choice raises `NotImplementedError`. */
  function SlotToShowdown(c: SlotChoice): (r: Result<string>)
    ensures r.Err? <==> c.Item?
    ensures r.Err? ==> r.error == NotImplementedError
    ensures c.Pass? ==> r == Ok(PassString)
    ensures c.Switch? ==> r == Ok("switch " + IntToString(c.slot))
  {
    match c
    case Move(m) => Ok(MoveToShowdown(m))
    case Switch(slot) => Ok(SwitchToShowdown(slot))
    case Item => Err(NotImplementedError)
    case Pass => Ok(PassString)
  }

  /** The renderings of `cs` in order; the first item choice raises `NotImplementedError`. */
  function RenderSlots(cs: seq<SlotChoice>): (r: Result<seq<string>>)
    ensures r.Err? <==> exists k :: 0 <= k < |cs| && cs[k].Item?
    ensures r.Err? ==> r.error == NotImplementedError
    ensures r.Ok? ==> |r.value| == |cs|
  {
    if |cs| == 0 then Ok([])
    else
      var init :- RenderSlots(cs[..|cs| - 1]);
      var last :- SlotToShowdown(cs[|cs| - 1]);
      assert forall k :: 0 <= k < |cs| - 1 ==> cs[k] == cs[..|cs| - 1][k];
      Ok(init + [last])
  }

  /** Part `k` of the list rendering is the rendering of choice `k`. */
  lemma {:induction false} RenderSlotsAt(cs: seq<SlotChoice>, k: int)
    requires RenderSlots(cs).Ok? && 0 <= k < |cs|
    ensures SlotToShowdown(cs[k]) == Ok(RenderSlots(cs).value[k])
    decreases |cs|
  {
    if k < |cs| - 1 {
      RenderSlotsAt(cs[..|cs| - 1], k);
    }
  }

  /** `",".join(c.to_showdown() for c in cs)`. */
  function SlotsToShowdown(cs: seq<SlotChoice>): (r: Result<string>)
    ensures r.Err? <==> exists k :: 0 <= k < |cs| && cs[k].Item?
    ensures r.Ok? ==> r == Ok(Join(RenderSlots(cs).value, ","))
  {
    var parts :- RenderSlots(cs);
    Ok(Join(parts, ","))
  }

  /** `to_showdown` of a choice that is not a list. Lists and `None` have no such method. */
  function ChoiceToShowdown(c: AnyChoice): (r: Result<string>)
    ensures r.Err? <==> c.Slots? || c.NoChoice?
    ensures c.Resign? || c.Quit? ==> r == Ok(ForfeitString)
    ensures c.Default? ==> r == Ok(DefaultString)
    ensures c.Team? ==> r == Ok(TeamToShowdown(c.order))
  {
    match c
    case Team(order) => Ok(TeamToShowdown(order))
    case Resign => Ok(ForfeitString)
    case Default => Ok(DefaultString)
    case Quit => Ok(ForfeitString)
    case Slots(_) => Err(AttributeError)
    case NoChoice => Err(AttributeError)
  }

  // ---------------------------------------------------------------------------
  // The union shapes accepted at each decision point.

  predicate IsTeamOrderChoice(c: AnyChoice) {
    c.Team? || c.Resign? || c.Default? || c.Quit?
  }

  predicate IsMoveDecisionChoice(c: AnyChoice) {
    c.Slots? || c.Resign? || c.Default? || c.Quit?
  }

  predicate IsForceSwitchChoice(c: AnyChoice) {
    (c.Slots? && forall k :: 0 <= k < |c.choices| ==> c.choices[k].Switch? || c.choices[k].Pass?)
    || c.Resign? || c.Default? || c.Quit?
  }

  /** Every force-switch answer is also a valid move decision; a team order is never a list,
      and a list holding a move or an item is a move decision but not a force-switch answer. */
  lemma ChoiceShapes(c: AnyChoice)
    ensures IsForceSwitchChoice(c) ==> IsMoveDecisionChoice(c)
    ensures IsTeamOrderChoice(c) ==> !c.Slots? && !c.NoChoice?
    ensures c.Slots? && (exists k :: 0 <= k < |c.choices| && (c.choices[k].Move? || c.choices[k].Item?))
            ==> IsMoveDecisionChoice(c) && !IsForceSwitchChoice(c)
    ensures c.NoChoice? ==> !IsTeamOrderChoice(c) && !IsMoveDecisionChoice(c) && !IsForceSwitchChoice(c)
  {
  }

  // ---------------------------------------------------------------------------
  // Reading the wire strings back.

  /** The part of a move choice that reaches the wire. */
  datatype MoveWire = MoveWire(moveNumber: int, targetNumber: Option<int>, tera: bool, mega: bool, dyna: bool, zmove: bool)

  function Wire(m: MoveChoice): MoveWire {
    MoveWire(m.moveNumber, m.targetNumber, m.tera, m.mega, m.dyna, m.zmove)
  }

  /** Consumes `word` when it is next. */
  function Flag(t: seq<string>, word: string): (bool, seq<string>) {
    if |t| > 0 && t[0] == word then (true, t[1..]) else (false, t)
  }

  /** Reads the optional gimmick words, in their fixed order; anything left over is refused. */
  function ParseFlags(r1: seq<string>): Option<(bool, bool, bool, bool)> {
    var (tera, r2) := Flag(r1, "terastallize");
    var (mega, r3) := Flag(r2, "mega");
    var (dyna, r4) := Flag(r3, "dynamax");
    var (zmove, r5) := Flag(r4, "zmove");
    if |r5| == 0 then Some((tera, mega, dyna, zmove)) else None
  }

  function ParseMoveTokens(t: seq<string>): Option<MoveWire> {
    if |t| < 2 || t[0] != "move" then None
    else
      match ParseInt(t[1])
      case None => None
      case Some(n) =>
        var rest := t[2..];
        var target := if |rest| > 0 then ParseInt(rest[0]) else None;
        var r1 := if target.Some? then rest[1..] else rest;
        match ParseFlags(r1)
        case None => None
        case Some((tera, mega, dyna, zmove)) => Some(MoveWire(n, target, tera, mega, dyna, zmove))
  }

  /** Reads a move rendering back. */
  function ParseMove(s: string): Option<MoveWire> {
    ParseMoveTokens(Split(s, ' '))
  }

  lemma WordsAreNotNumbers()
    ensures ParseInt("terastallize") == None && ParseInt("mega") == None
    ensures ParseInt("dynamax") == None && ParseInt("zmove") == None
  {
    assert !IsDigit("terastallize"[0]) && !IsDigit("mega"[0]) && !IsDigit("dynamax"[0]) && !IsDigit("zmove"[0]);
  }

  function Opt(on: bool, word: string): seq<string> {
    if on then [word] else []
  }

  /** The gimmick words of a move rendering. */
  function FlagWords(m: MoveChoice): seq<string> {
    Opt(m.tera, "terastallize") + Opt(m.mega, "mega") + Opt(m.dyna, "dynamax") + Opt(m.zmove, "zmove")
  }

  /** The words before the gimmick words. */
  function HeadWords(m: MoveChoice): seq<string> {
    ["move", IntToString(m.moveNumber)] + (if m.targetNumber.Some? then [IntToString(m.targetNumber.value)] else [])
  }

  lemma MoveTokensSplit(m: MoveChoice)
    ensures MoveTokens(m) == HeadWords(m) + FlagWords(m)
  {
    var h := HeadWords(m);
    var a := Opt(m.tera, "terastallize");
    var b := Opt(m.mega, "mega");
    var c := Opt(m.dyna, "dynamax");
    var d := Opt(m.zmove, "zmove");
    var t2 := AddToken(h, m.tera, "terastallize");
    var t3 := AddToken(t2, m.mega, "mega");
    var t4 := AddToken(t3, m.dyna, "dynamax");
    var t5 := AddToken(t4, m.zmove, "zmove");
    HeadIsStart(m);
    assert MoveTokens(m) == t5;
    AddTokenOpt(h, m.tera, "terastallize");
    AddTokenOpt(t2, m.mega, "mega");
    AddTokenOpt(t3, m.dyna, "dynamax");
    AddTokenOpt(t4, m.zmove, "zmove");
    Regroup(h, a, b, c, d);
  }

  lemma HeadIsStart(m: MoveChoice)
    ensures var t0 := ["move", IntToString(m.moveNumber)];
            (if m.targetNumber.Some? then t0 + [IntToString(m.targetNumber.value)] else t0) == HeadWords(m)
  {
    var t0 := ["move", IntToString(m.moveNumber)];
    if m.targetNumber.None? {
      assert t0 + [] == t0;
    }
  }

  lemma Regroup<T>(h: seq<T>, a: seq<T>, b: seq<T>, c: seq<T>, d: seq<T>)
    ensures h + a + b + c + d == h + (a + b + c + d)
  {
  }

  lemma AddTokenOpt(t: seq<string>, on: bool, word: string)
    ensures AddToken(t, on, word) == t + Opt(on, word)
  {
    if !on {
      assert t + [] == t;
    }
  }

  lemma FlagStep(on: bool, word: string, rest: seq<string>)
    requires |rest| == 0 || rest[0] != word
    ensures Flag(Opt(on, word) + rest, word) == (on, rest)
  {
    if on {
      assert (Opt(on, word) + rest)[1..] == rest;
    } else {
      assert Opt(on, word) + rest == rest;
    }
  }

  /** The gimmick words parse back to the flags that produced them. */
  lemma FlagsParse(m: MoveChoice)
    ensures ParseFlags(FlagWords(m)) == Some((m.tera, m.mega, m.dyna, m.zmove))
  {
    var d := Opt(m.zmove, "zmove");
    var c := Opt(m.dyna, "dynamax") + d;
    var b := Opt(m.mega, "mega") + c;
    assert FlagWords(m) == Opt(m.tera, "terastallize") + b;
    FlagStep(m.tera, "terastallize", b);
    FlagStep(m.mega, "mega", c);
    FlagStep(m.dyna, "dynamax", d);
    FlagStep(m.zmove, "zmove", []);
    assert d + [] == d;
  }

  lemma MoveTokensParse(m: MoveChoice)
    ensures ParseMoveTokens(MoveTokens(m)) == Some(Wire(m))
  {
    var t := MoveTokens(m);
    var f := FlagWords(m);
    RestAfterHead(m);
    IntToStringRoundTrip(m.moveNumber);
    FlagsParse(m);
    if m.targetNumber.Some? {
      var v := IntToString(m.targetNumber.value);
      IntToStringRoundTrip(m.targetNumber.value);
      assert ([v] + f)[1..] == f;
    } else {
      FlagWordsAreNotNumbers(m);
    }
  }

  /** After "move N" come the target, if any, and then the gimmick words. */
  lemma RestAfterHead(m: MoveChoice)
    ensures var t := MoveTokens(m);
            t[2..] == (if m.targetNumber.Some? then [IntToString(m.targetNumber.value)] + FlagWords(m) else FlagWords(m))
  {
    MoveTokensSplit(m);
    var h := HeadWords(m);
    var t := MoveTokens(m);
    assert t[2..] == h[2..] + FlagWords(m);
    if m.targetNumber.None? {
      assert h[2..] == [];
    }
  }

  lemma FlagWordsAreNotNumbers(m: MoveChoice)
    ensures |FlagWords(m)| == 0 || ParseInt(FlagWords(m)[0]) == None
  {
    WordsAreNotNumbers();
    var f := FlagWords(m);
    assert |f| == 0 || f[0] in {"terastallize", "mega", "dynamax", "zmove"};
  }

  /** The move rendering determines every rendered field: parsing it gives them back. */
  lemma MoveRoundTrip(m: MoveChoice)
    ensures ParseMove(MoveToShowdown(m)) == Some(Wire(m))
  {
    var t := MoveTokens(m);
    MoveTokensAreWords(m);
    assert forall k :: 0 <= k < |t| ==> Excludes(t[k], ' ') by {
      forall k | 0 <= k < |t|
        ensures Excludes(t[k], ' ')
      {
        assert IsWord(t[k]);
      }
    }
    SplitJoin(t, ' ');
    MoveTokensParse(m);
  }

  /** Two move choices with the same rendering agree on everything but the target category. */
  lemma MoveRenderingInjective(a: MoveChoice, b: MoveChoice)
    requires MoveToShowdown(a) == MoveToShowdown(b)
    ensures Wire(a) == Wire(b)
  {
    MoveRoundTrip(a);
    MoveRoundTrip(b);
  }

  /** A move choice with the default fields renders as exactly "move N". */
  lemma PlainMoveRendering(n: int, t: Option<MoveTarget>)
    ensures MoveToShowdown(PlainMove(n, t)) == "move " + IntToString(n)
  {
    var m := PlainMove(n, t);
    assert MoveTokens(m) == ["move", IntToString(n)];
    JoinSnoc(["move"], IntToString(n), " ");
    assert ["move"] + [IntToString(n)] == ["move", IntToString(n)];
  }

  /** Every flag that is set shows up as its word, after "move N". */
  lemma MoveFlagsShow(m: MoveChoice)
    ensures m.tera <==> "terastallize" in MoveTokens(m)
    ensures m.mega <==> "mega" in MoveTokens(m)
    ensures m.dyna <==> "dynamax" in MoveTokens(m)
    ensures m.zmove <==> "zmove" in MoveTokens(m)
  {
    var t := MoveTokens(m);
    IntToStringExcludes(m.moveNumber, 't');
    assert t[1] != "terastallize" && t[1] != "mega" && t[1] != "dynamax" && t[1] != "zmove" by {
      assert "terastallize"[0] == 't' && "mega"[1] == 'e' && "dynamax"[0] == 'd' && "zmove"[0] == 'z';
      IntToStringChars(m.moveNumber, 0);
      if |t[1]| > 1 {
        IntToStringChars(m.moveNumber, 1);
      }
    }
    if m.targetNumber.Some? {
      var s := IntToString(m.targetNumber.value);
      IntToStringChars(m.targetNumber.value, 0);
      if |s| > 1 {
        IntToStringChars(m.targetNumber.value, 1);
      }
      assert s != "terastallize" && s != "mega" && s != "dynamax" && s != "zmove";
    }
  }

  function ParseSwitch(s: string): Option<int> {
    if |s| >= 7 && s[..7] == "switch " then ParseInt(s[7..]) else None
  }

  lemma SwitchRoundTrip(slot: int)
    ensures ParseSwitch(SwitchToShowdown(slot)) == Some(slot)
  {
    var s := SwitchToShowdown(slot);
    assert s[7..] == IntToString(slot);
    IntToStringRoundTrip(slot);
  }

  /** Reads the positions of a team rendering of ten or more entries. */
  function ParseNumbers(parts: seq<string>): Option<seq<int>> {
    if |parts| == 0 then Some([])
    else
      match (ParseNumbers(parts[..|parts| - 1]), ParseInt(parts[|parts| - 1]))
      case (Some(init), Some(x)) => Some(init + [x])
      case _ => None
  }

  lemma {:induction false} ParseRendered(order: seq<int>)
    ensures ParseNumbers(Render(order)) == Some(order)
    decreases |order|
  {
    if |order| > 0 {
      ParseRendered(order[..|order| - 1]);
      ParseRenderedStep(order);
    }
  }

  lemma ParseRenderedStep(order: seq<int>)
    requires |order| > 0
    requires ParseNumbers(Render(order[..|order| - 1])) == Some(order[..|order| - 1])
    ensures ParseNumbers(Render(order)) == Some(order)
  {
    var init := order[..|order| - 1];
    var x := order[|order| - 1];
    assert Render(order) == Render(init) + [IntToString(x)];
    ParseNumbersSnoc(Render(init), x);
    InitLast(order);
  }

  /** One more rendered number parses as one more number. */
  lemma ParseNumbersSnoc(parts: seq<string>, x: int)
    requires ParseNumbers(parts).Some?
    ensures ParseNumbers(parts + [IntToString(x)]) == Some(ParseNumbers(parts).value + [x])
  {
    assert (parts + [IntToString(x)])[..|parts|] == parts;
    IntToStringRoundTrip(x);
  }

  /** From ten entries on, the team rendering determines the order. */
  lemma LongTeamRoundTrip(order: seq<int>)
    requires |order| >= 10
    ensures var s := TeamToShowdown(order);
            s[..5] == "team " && ParseNumbers(Split(s[5..], ',')) == Some(order)
  {
    var parts := Render(order);
    forall k | 0 <= k < |parts|
      ensures Excludes(parts[k], ',')
    {
      IntToStringExcludes(order[k], ',');
    }
    SplitJoin(parts, ',');
    ParseRendered(order);
    var s := TeamToShowdown(order);
    assert s[5..] == Join(parts, ",");
  }

  /** Below ten entries the positions are run together, which is only readable when
      each is a single digit: then each character is one position. */
  function DigitPositions(s: string): (r: seq<int>)
    requires AllDigits(s)
    ensures |r| == |s|
  {
    if |s| == 0 then [] else DigitPositions(s[..|s| - 1]) + [DigitValue(s[|s| - 1])]
  }

  /** Single-digit positions run together give one character per position. */
  lemma {:induction false} ConcatDigits(order: seq<int>)
    requires forall k :: 0 <= k < |order| ==> 0 <= order[k] < 10
    ensures var s := Concat(Render(order));
            |s| == |order| && forall k :: 0 <= k < |order| ==> s[k] == DigitChar(order[k])
    decreases |order|
  {
    if |order| > 0 {
      var init := order[..|order| - 1];
      var x := order[|order| - 1];
      ConcatDigits(init);
      var p := Render(order);
      assert p[..|order| - 1] == Render(init);
      assert p[|order| - 1] == [DigitChar(x)];
      if |order| > 1 {
        assert Concat(p) == Concat(Render(init)) + [DigitChar(x)];
      }
    }
  }

  lemma {:induction false} DigitPositionsAt(s: string)
    requires AllDigits(s)
    ensures forall k :: 0 <= k < |s| ==> DigitPositions(s)[k] == DigitValue(s[k])
    decreases |s|
  {
    if |s| > 0 {
      DigitPositionsAt(s[..|s| - 1]);
    }
  }

  lemma ConcatSingleDigits(order: seq<int>)
    requires forall k :: 0 <= k < |order| ==> 0 <= order[k] < 10
    ensures var s := Concat(Render(order));
            AllDigits(s) && DigitPositions(s) == order
  {
    ConcatDigits(order);
    ConcatIsDigits(order);
    PositionsOfDigits(order, Concat(Render(order)));
  }

  lemma ConcatIsDigits(order: seq<int>)
    requires forall k :: 0 <= k < |order| ==> 0 <= order[k] < 10
    requires var s := Concat(Render(order));
             |s| == |order| && forall k :: 0 <= k < |order| ==> s[k] == DigitChar(order[k])
    ensures AllDigits(Concat(Render(order)))
  {
    var s := Concat(Render(order));
    forall k | 0 <= k < |s|
      ensures IsDigit(s[k])
    {
      assert s[k] == DigitChar(order[k]);
    }
  }

  /** The characters that spell single-digit positions read back as those positions. */
  lemma PositionsOfDigits(order: seq<int>, s: string)
    requires forall k :: 0 <= k < |order| ==> 0 <= order[k] < 10
    requires |s| == |order| && forall k :: 0 <= k < |order| ==> s[k] == DigitChar(order[k])
    requires AllDigits(s)
    ensures DigitPositions(s) == order
  {
    DigitPositionsAt(s);
    var r := DigitPositions(s);
    forall k | 0 <= k < |order|
      ensures r[k] == order[k]
    {
      assert r[k] == DigitValue(DigitChar(order[k]));
    }
    SameElements(r, order);
  }

  lemma SameElements<T>(a: seq<T>, b: seq<T>)
    requires |a| == |b| && forall k :: 0 <= k < |a| ==> a[k] == b[k]
    ensures a == b
  {
  }

  lemma ShortTeamRoundTrip(order: seq<int>)
    requires |order| < 10
    requires forall k :: 0 <= k < |order| ==> 0 <= order[k] < 10
    ensures var s := TeamToShowdown(order);
            s[..5] == "team " && AllDigits(s[5..]) && DigitPositions(s[5..]) == order
  {
    ConcatSingleDigits(order);
    var s := TeamToShowdown(order);
    assert s[5..] == Concat(Render(order));
  }

  /** With fewer than ten entries, a position of two digits makes the rendering ambiguous. */
  lemma ShortTeamAmbiguity()
    ensures TeamToShowdown([1, 12]) == TeamToShowdown([11, 2]) == "team 112"
  {
    assert NatToString(12) == "12" by {
      assert NatToString(1) == "1";
    }
    assert NatToString(11) == "11" by {
      assert NatToString(1) == "1";
    }
    var a := Render([1, 12]);
    var b := Render([11, 2]);
    assert a == ["1", "12"];
    assert b == ["11", "2"];
    assert Concat(a) == "112" by {
      assert a[..1] == ["1"];
    }
    assert Concat(b) == "112" by {
      assert b[..1] == ["11"];
    }
  }
}
