/** Targeting geometry for doubles and triples (pokesage/battle/utilities.py).

    Slots are written the simulator's way: the player's own slots are -1, -2,
    -3 and the opponent's are 1, 2, 3. A move's target category decides which
    filled slots it may address from the slot of the user.
 */
module Targeting {
  import opened Results

  /** The move-target categories of the dex. `Unlisted` stands for any category
      value that the table of `needs_target` does not mention. */
  datatype MoveTarget =
    | SelfTarget | AdjacentAlly | AdjacentAllyOrSelf | All | AllAdjacent | AllAdjacentFoes
    | Allies | AllySide | AllyTeam | Any | FoeSide | Normal | RandomNormal | Scripted | AdjacentFoe
    | Unlisted(code: int)

  /** The five categories that address one chosen slot. */
  predicate AddressesOneSlot(t: MoveTarget) {
    t == AdjacentAlly || t == AdjacentAllyOrSelf || t == Any || t == Normal || t == AdjacentFoe
  }

  /** Whether a move of category `t` must be given a target slot. A missing
      category needs none; a category absent from the table is a `KeyError`. */
  function NeedsTarget(t: Option<MoveTarget>): (r: Result<bool>)
    ensures t.None? ==> r == Ok(false)
    ensures r.Err? <==> t.Some? && t.value.Unlisted?
    ensures r.Err? ==> r.error == KeyError
    ensures r == Ok(true) <==> t.Some? && AddressesOneSlot(t.value)
  {
    match t
    case None => Ok(false)
    case Some(c) =>
      match c
      case SelfTarget => Ok(false)
      case AdjacentAlly => Ok(true)
      case AdjacentAllyOrSelf => Ok(true)
      case All => Ok(false)
      case AllAdjacent => Ok(false)
      case AllAdjacentFoes => Ok(false)
      case Allies => Ok(false)
      case AllySide => Ok(false)
      case AllyTeam => Ok(false)
      case Any => Ok(true)
      case FoeSide => Ok(false)
      case Normal => Ok(true)
      case RandomNormal => Ok(false)
      case Scripted => Ok(false)
      case AdjacentFoe => Ok(true)
      case Unlisted(_) => Err(KeyError)
  }

  function Abs(x: int): nat {
    if x < 0 then -x else x
  }

  /** Slots per side used by the geometry: 2 for doubles, 3 for anything else. */
  function MaxSlot(gametype: Option<string>): (m: int)
    ensures m == 2 || m == 3
    ensures m == 2 <==> gametype == Some("doubles")
  {
    if gametype == Some("doubles") then 2 else 3
  }

  /** Whether the user in `source` may address `target` with a move of category `mt`. */
  function CanTargetSlot(source: int, target: int, mt: MoveTarget, gametype: Option<string>): (r: Result<bool>)
    ensures r.Err? <==> mt.Unlisted?
    ensures r.Err? ==> r.error == KeyError
    ensures !AddressesOneSlot(mt) && !mt.Unlisted? ==> r == Ok(false)
  {
    var needs :- NeedsTarget(Some(mt));
    if !needs then Ok(false)
    else
      var maxNum := MaxSlot(gametype);
      var isSelf := source == target;
      var isSameSide := source * target > 0;
      var isOppositeSide := source * target < 0;
      var isAdjAlly := isSameSide && Abs(source - target) == 1;
      var isAdjFoe := isOppositeSide && Abs(Abs(source) - maxNum - 1) == Abs(target);
      var isCornerFoe := isOppositeSide && Abs(Abs(Abs(source) - maxNum - 1) - Abs(target)) == 1;
      var isAdjacent := isAdjAlly || isAdjFoe;
      match mt
      case AdjacentAlly => Ok(isAdjAlly)
      case AdjacentAllyOrSelf => Ok(isAdjAlly || isSelf)
      case Any => Ok(!isSelf)
      case Normal => Ok(isAdjacent || isCornerFoe)
      case AdjacentFoe => Ok(isAdjFoe || isCornerFoe)
      case _ => Err(RuntimeError("Unknown move target"))
  }

  predicate Reaches(source: int, target: int, mt: MoveTarget, gametype: Option<string>) {
    CanTargetSlot(source, target, mt, gametype) == Ok(true)
  }

  /** The targets of the move among `filled`, kept in the order of `filled`. */
  function GetValidTargetSlots(source: int, filled: seq<int>, mt: MoveTarget, gametype: Option<string>)
    : (r: Result<seq<int>>)
    ensures r.Err? <==> |filled| > 0 && mt.Unlisted?
    ensures r.Err? ==> r.error == KeyError
    ensures r.Ok? ==> |r.value| <= |filled|
    ensures r.Ok? ==> forall x :: x in r.value <==> x in filled && Reaches(source, x, mt, gametype)
    decreases |filled|
  {
    if |filled| == 0 then Ok([])
    else
      var init :- GetValidTargetSlots(source, filled[..|filled| - 1], mt, gametype);
      var keep :- CanTargetSlot(source, filled[|filled| - 1], mt, gametype);
      Ok(if keep then init + [filled[|filled| - 1]] else init)
  }

  // ---------------------------------------------------------------------------
  // An independent description of the field.
  //
  // Seen from above, the two rows face each other and column c of one row is
  // directly opposite column c of the other. Own slot -k stands in column k,
  // foe slot k in column max+1-k (the second docstring diagram: `2 1` over
  // `-1 -2` in doubles). The first docstring diagram (`-2 -1` over `1 2`) is
  // the same field turned half a circle, so it yields the same neighbours.

  predicate IsSlot(slot: int, maxNum: int) {
    slot != 0 && Abs(slot) <= maxNum
  }

  function Column(slot: int, maxNum: int): int {
    if slot < 0 then -slot else maxNum + 1 - slot
  }

  /** The column of the first docstring diagram. */
  function MirroredColumn(slot: int, maxNum: int): int {
    if slot < 0 then maxNum + 1 + slot else slot
  }

  /** Both diagrams measure the same distance between any two slots. */
  lemma DiagramsAgree(a: int, b: int, maxNum: int)
    ensures Abs(Column(a, maxNum) - Column(b, maxNum)) == Abs(MirroredColumn(a, maxNum) - MirroredColumn(b, maxNum))
  {
  }

  /** Which slots a category reaches, read off the field picture. */
  predicate FieldReaches(source: int, target: int, mt: MoveTarget, maxNum: int) {
    var sameRow := (source < 0) == (target < 0);
    var gap := Abs(Column(source, maxNum) - Column(target, maxNum));
    match mt
    case AdjacentAlly => sameRow && gap == 1
    case AdjacentAllyOrSelf => (sameRow && gap == 1) || source == target
    case Any => source != target
    case Normal => (sameRow && gap == 1) || (!sameRow && gap <= 1)
    case AdjacentFoe => !sameRow && gap <= 1
    case _ => false
  }

  lemma SignOfProduct(a: int, b: int)
    requires a != 0 && b != 0
    ensures a * b > 0 <==> (a < 0) == (b < 0)
    ensures a * b < 0 <==> (a < 0) != (b < 0)
  {
    if a > 0 && b > 0 {
      assert a * b > 0;
    } else if a < 0 && b < 0 {
      assert a * b == (-a) * (-b);
    } else if a > 0 {
      assert a * b == -(a * (-b));
    } else {
      assert a * b == -((-a) * b);
    }
  }

  /** On real slots the formula of the source and the field picture agree for every category. */
  lemma CanTargetSlotMatchesField(source: int, target: int, mt: MoveTarget, gametype: Option<string>)
    requires IsSlot(source, MaxSlot(gametype)) && IsSlot(target, MaxSlot(gametype))
    requires !mt.Unlisted?
    ensures CanTargetSlot(source, target, mt, gametype) == Ok(FieldReaches(source, target, mt, MaxSlot(gametype)))
  {
    SignOfProduct(source, target);
  }

  // ---------------------------------------------------------------------------
  // Consequences.

  /** A category that needs no target never reaches anything. */
  lemma NoTargetNeededMeansNoTargets(source: int, filled: seq<int>, mt: MoveTarget, gametype: Option<string>)
    requires NeedsTarget(Some(mt)) == Ok(false)
    ensures GetValidTargetSlots(source, filled, mt, gametype) == Ok([])
  {
    var r := GetValidTargetSlots(source, filled, mt, gametype);
    if r.Ok? && |r.value| > 0 {
      assert r.value[0] in r.value;
    }
  }

  /** The "Unknown move target" branch is dead: every listed category that needs a target is handled. */
  lemma UnknownTargetUnreachable(source: int, target: int, mt: MoveTarget, gametype: Option<string>)
    ensures CanTargetSlot(source, target, mt, gametype) != Err(RuntimeError("Unknown move target"))
  {
  }

  /** No slot is both an adjacent ally and an adjacent foe. */
  lemma AllyAndFoeDisjoint(source: int, target: int, gametype: Option<string>)
    ensures !(Reaches(source, target, AdjacentAlly, gametype) && Reaches(source, target, AdjacentFoe, gametype))
    ensures Reaches(source, target, AdjacentAlly, gametype) ==> source * target > 0
    ensures Reaches(source, target, AdjacentFoe, gametype) ==> source * target < 0
  {
  }

  /** "any" reaches every slot but the user's own; "adjacentAllyOrSelf" reaches the user's own. */
  lemma AnyAndSelf(source: int, target: int, gametype: Option<string>)
    ensures Reaches(source, target, Any, gametype) <==> source != target
    ensures Reaches(source, source, AdjacentAllyOrSelf, gametype)
  {
  }

  /** One more filled slot adds itself to the end of the targets exactly when it is reachable. */
  lemma ValidTargetsStep(source: int, filled: seq<int>, x: int, mt: MoveTarget, gametype: Option<string>)
    requires !mt.Unlisted?
    ensures GetValidTargetSlots(source, filled + [x], mt, gametype)
         == (var before := GetValidTargetSlots(source, filled, mt, gametype).value;
             Ok(if Reaches(source, x, mt, gametype) then before + [x] else before))
  {
    var f := filled + [x];
    assert f[..|f| - 1] == filled && f[|f| - 1] == x;
    var init := GetValidTargetSlots(source, filled, mt, gametype);
    var keep := CanTargetSlot(source, x, mt, gametype);
    assert init.Ok? && keep.Ok?;
    assert GetValidTargetSlots(source, f, mt, gametype) == Ok(if keep.value then init.value + [x] else init.value);
  }

  /** Doubles, from the left own slot -1: -2 is the adjacent ally, 2 the foe straight
      across and 1 the foe on the corner. A normal move may pick any of them, but not the user. */
  lemma DoublesFromMinusOne()
    ensures Reaches(-1, -2, AdjacentAlly, Some("doubles"))
    ensures !Reaches(-1, -2, AdjacentFoe, Some("doubles"))
    ensures Reaches(-1, 2, AdjacentFoe, Some("doubles"))
    ensures Reaches(-1, 1, AdjacentFoe, Some("doubles"))
  {
  }

  lemma DoublesNormalTargets()
    ensures GetValidTargetSlots(-1, [-1, -2, 1, 2], Normal, Some("doubles")) == Ok([-2, 1, 2])
  {
    DoublesNormalPrefix();
    assert Reaches(-1, 2, Normal, Some("doubles"));
    ValidTargetsStep(-1, [-1, -2, 1], 2, Normal, Some("doubles"));
    assert [-1, -2, 1] + [2] == [-1, -2, 1, 2] && [-2, 1] + [2] == [-2, 1, 2];
  }

  /** The first three slots of `DoublesNormalTargets`: the user is skipped, the ally and the corner foe kept. */
  lemma DoublesNormalPrefix()
    ensures GetValidTargetSlots(-1, [-1, -2, 1], Normal, Some("doubles")) == Ok([-2, 1])
  {
    DoublesNormalStart();
    assert Reaches(-1, 1, Normal, Some("doubles"));
    ValidTargetsStep(-1, [-1, -2], 1, Normal, Some("doubles"));
    assert [-1, -2] + [1] == [-1, -2, 1] && [-2] + [1] == [-2, 1];
  }

  lemma DoublesNormalStart()
    ensures GetValidTargetSlots(-1, [-1, -2], Normal, Some("doubles")) == Ok([-2])
  {
    var d := Some("doubles");
    assert !Reaches(-1, -1, Normal, d);
    ValidTargetsStep(-1, [], -1, Normal, d);
    assert [] + [-1] == [-1];
    assert Reaches(-1, -2, Normal, d);
    ValidTargetsStep(-1, [-1], -2, Normal, d);
    assert [-1] + [-2] == [-1, -2] && [] + [-2] == [-2];
  }

  /** Triples (any gametype other than doubles): from -1 the far foe 1 is out of reach,
      while the middle slot -2 reaches all three foes. */
  lemma TriplesReach()
    ensures !Reaches(-1, 1, Normal, Some("triples")) && !Reaches(-1, 1, AdjacentFoe, Some("triples"))
    ensures GetValidTargetSlots(-2, [1, 2, 3], Normal, Some("triples")) == Ok([1, 2, 3])
  {
    var t := Some("triples");
    assert Reaches(-2, 1, Normal, t) && Reaches(-2, 2, Normal, t) && Reaches(-2, 3, Normal, t);
    ValidTargetsStep(-2, [], 1, Normal, t);
    assert [] + [1] == [1];
    ValidTargetsStep(-2, [1], 2, Normal, t);
    assert [1] + [2] == [1, 2];
    ValidTargetsStep(-2, [1, 2], 3, Normal, t);
    assert [1, 2] + [3] == [1, 2, 3];
  }

  // ---------------------------------------------------------------------------
  // The result keeps the order of the filled slots.

  /** `a` can be obtained from `b` by deleting elements. */
  ghost predicate Subsequence(a: seq<int>, b: seq<int>)
    decreases |b|
  {
    |a| == 0 ||
    (|b| > 0 &&
     ((a[|a| - 1] == b[|b| - 1] && Subsequence(a[..|a| - 1], b[..|b| - 1])) || Subsequence(a, b[..|b| - 1])))
  }

  lemma {:induction false} ValidTargetsAreSubsequence(source: int, filled: seq<int>, mt: MoveTarget, gametype: Option<string>)
    requires GetValidTargetSlots(source, filled, mt, gametype).Ok?
    ensures Subsequence(GetValidTargetSlots(source, filled, mt, gametype).value, filled)
    decreases |filled|
  {
    if |filled| > 0 {
      var init := filled[..|filled| - 1];
      ValidTargetsAreSubsequence(source, init, mt, gametype);
      var r := GetValidTargetSlots(source, filled, mt, gametype).value;
      var r0 := GetValidTargetSlots(source, init, mt, gametype).value;
      if r == r0 + [filled[|filled| - 1]] {
        assert r[..|r| - 1] == r0;
      } else {
        assert r == r0;
        if |r| > 0 {
          assert Subsequence(r, init);
        }
      }
    }
  }
}
