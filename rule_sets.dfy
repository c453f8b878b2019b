/**
 * The eight embedded roll-decider rule sets of server/service/config/default.ts,
 * each rule's boolean expression over `roll`, `targetValue` and `baseValue`
 * written as a predicate. The expressions are JavaScript: `/` is division of
 * numbers (no truncation) and `%` is the truncating remainder. The predicates
 * clear the denominators; `JsHolds` transcribes the expressions over reals and
 * the two are proved equal.
 */
module RuleSets {
  import Defaults

  datatype RuleSet = Coc0 | Dnd0 | Coc1 | Coc2 | Coc3 | Coc4 | Coc5 | Coc6

  /** The four rules of a rule set, in the order they are written and evaluated. */
  datatype Outcome = Worst | Best | Fail | Success

  /** The context a rule is evaluated in. */
  datatype Ctx = Ctx(roll: int, targetValue: int, baseValue: int)

  /** The rule sets in the order `getEmbedRollDecider` lists them. */
  const AllRuleSets: seq<RuleSet> := [Coc0, Dnd0, Coc1, Coc2, Coc3, Coc4, Coc5, Coc6]

  function LocalId(rs: RuleSet): string {
    match rs
    case Coc0 => "coc0"
    case Dnd0 => "dnd0"
    case Coc1 => "coc1"
    case Coc2 => "coc2"
    case Coc3 => "coc3"
    case Coc4 => "coc4"
    case Coc5 => "coc5"
    case Coc6 => "coc6"
  }

  /** Each predicate below belongs to the embedded rule set listed at the same position. */
  lemma RuleSetsMatchEmbedded()
    ensures |AllRuleSets| == |Defaults.EmbedRollDeciders()|
    ensures forall i :: 0 <= i < |AllRuleSets| ==> LocalId(AllRuleSets[i]) == Defaults.EmbedRollDeciders()[i].id
  {
    Defaults.DeciderLocalIds();
  }

  /** Whether rule `kind` of rule set `rs` holds, with every division cleared by a positive constant. */
  predicate Holds(rs: RuleSet, kind: Outcome, c: Ctx) {
    var roll, t, base := c.roll, c.targetValue, c.baseValue;
    match (rs, kind)
    case (Dnd0, Worst) => false
    case (Dnd0, Best) => false
    case (Dnd0, Fail) => roll < t
    case (Dnd0, Success) => roll >= t
    case (_, Fail) => roll > t
    case (_, Success) => roll <= t
    case (Coc0, Worst) => (base < 50 && roll > 95) || (base >= 50 && roll == 100)
    case (Coc0, Best) => roll == 1
    case (Coc1, Worst) => (base < 50 && roll > 95) || (base >= 50 && roll == 100)
    case (Coc1, Best) => (base < 50 && roll == 1) || (base >= 50 && roll <= 5)
    case (Coc2, Worst) => roll == 100 || (roll > 95 && roll > t)
    case (Coc2, Best) => roll <= 5 && roll <= t
    case (Coc3, Worst) => roll > 95
    case (Coc3, Best) => roll <= 5
    case (Coc4, Worst) => (base < 50 && 10 * roll >= 960 + t) || (base >= 50 && roll == 100)
    case (Coc4, Best) => roll <= 5 && 10 * roll <= t
    case (Coc5, Worst) => (base < 50 && roll >= 96) || (base >= 50 && roll >= 99)
    case (Coc5, Best) => roll <= 2 && 5 * roll < t
    case (Coc6, Worst) => roll % 11 == 0 && roll > t
    case (Coc6, Best) => roll % 11 == 0 && roll <= t
  }

  /** JavaScript's `a % 11` on integers: the remainder takes the sign of the dividend. */
  function JsRem11(a: int): (r: int)
    ensures -11 < r < 11
    ensures a >= 0 ==> r == a % 11
    ensures r == 0 <==> a % 11 == 0
  {
    if a >= 0 then a % 11
    else
      var q, m := (-a) / 11, (-a) % 11;
      assert a == 11 * (-q - 1) + (11 - m) by { assert -a == 11 * q + m; }
      assert m != 0 ==> a % 11 == 11 - m;
      assert m == 0 ==> a == 11 * (-q);
      -m
  }

  /** The rule expressions as written, evaluated with JavaScript's number division and remainder. */
  predicate JsHolds(rs: RuleSet, kind: Outcome, c: Ctx) {
    var roll, t, base := c.roll as real, c.targetValue as real, c.baseValue as real;
    match (rs, kind)
    case (Dnd0, Worst) => false
    case (Dnd0, Best) => false
    case (Dnd0, Fail) => roll < t
    case (Dnd0, Success) => roll >= t
    case (_, Fail) => roll > t
    case (_, Success) => roll <= t
    case (Coc0, Worst) => (base < 50.0 && roll > 95.0) || (base >= 50.0 && roll == 100.0)
    case (Coc0, Best) => roll == 1.0
    case (Coc1, Worst) => (base < 50.0 && roll > 95.0) || (base >= 50.0 && roll == 100.0)
    case (Coc1, Best) => (base < 50.0 && roll == 1.0) || (base >= 50.0 && roll <= 5.0)
    case (Coc2, Worst) => roll == 100.0 || (roll > 95.0 && roll > t)
    case (Coc2, Best) => roll <= 5.0 && roll <= t
    case (Coc3, Worst) => roll > 95.0
    case (Coc3, Best) => roll <= 5.0
    case (Coc4, Worst) => (base < 50.0 && roll >= 96.0 + t / 10.0) || (base >= 50.0 && roll == 100.0)
    case (Coc4, Best) => roll <= 5.0 && roll <= t / 10.0
    case (Coc5, Worst) => (base < 50.0 && roll >= 96.0) || (base >= 50.0 && roll >= 99.0)
    case (Coc5, Best) => roll <= 2.0 && roll < t / 5.0
    case (Coc6, Worst) => JsRem11(c.roll) == 0 && roll > t
    case (Coc6, Best) => JsRem11(c.roll) == 0 && roll <= t
  }

  /** Clearing the denominators changes nothing: the predicates are the JavaScript expressions. */
  lemma HoldsIsJsHolds(rs: RuleSet, kind: Outcome, c: Ctx)
    ensures Holds(rs, kind, c) <==> JsHolds(rs, kind, c)
  {
    var roll, t := c.roll as real, c.targetValue as real;
    if rs == Coc4 {
      assert (roll >= 96.0 + t / 10.0) <==> (10.0 * roll >= 960.0 + t);
      assert (roll <= t / 10.0) <==> (10.0 * roll <= t);
    } else if rs == Coc5 {
      assert (roll < t / 5.0) <==> (5.0 * roll < t);
    }
  }

  /** `fail` and `success` are complements in every rule set, for all integers. */
  lemma FailSuccessComplement(rs: RuleSet, c: Ctx)
    ensures Holds(rs, Fail, c) <==> !Holds(rs, Success, c)
  {
  }

  /** No roll is both a worst and a best outcome, in any rule set. */
  lemma WorstBestExclusive(rs: RuleSet, c: Ctx)
    ensures !(Holds(rs, Worst, c) && Holds(rs, Best, c))
  {
  }

  /**
   * The first rule that holds, in the order worst, best, fail, success. As
   * `fail` and `success` are complements, some rule always holds.
   */
  function Classify(rs: RuleSet, c: Ctx): (o: Outcome)
    ensures Holds(rs, o, c)
    ensures o == Fail || o == Success ==> !Holds(rs, Worst, c) && !Holds(rs, Best, c)
    ensures o == Best ==> !Holds(rs, Worst, c)
  {
    if Holds(rs, Worst, c) then Worst
    else if Holds(rs, Best, c) then Best
    else if Holds(rs, Fail, c) then Fail
    else Success
  }

  /** coc0 as its description says it, over rolls 1 to 100. */
  lemma Coc0AgreesWithDescription(c: Ctx)
    requires 1 <= c.roll <= 100
    ensures Holds(Coc0, Best, c) <==> c.roll == 1
    ensures c.baseValue < 50 ==> (Holds(Coc0, Worst, c) <==> 96 <= c.roll <= 100)
    ensures c.baseValue >= 50 ==> (Holds(Coc0, Worst, c) <==> c.roll == 100)
  {
  }

  /** Three classifications under coc0: a worst, a best and a failing roll. */
  lemma Coc0Examples()
    ensures Classify(Coc0, Ctx(97, 50, 40)) == Worst
    ensures Classify(Coc0, Ctx(1, 50, 60)) == Best
    ensures Classify(Coc0, Ctx(60, 50, 60)) == Fail
  {
  }

  /**
   * Integer division would change the outcome: with skill 45 and base below 50,
   * `96 + 45 / 10` is 100.5, so a roll of 100 is not a worst outcome under coc4,
   * but it would be if the division truncated to 4.
   */
  lemma TruncatingDivisionDiffers()
    ensures !Holds(Coc4, Worst, Ctx(100, 45, 40))
    ensures !JsHolds(Coc4, Worst, Ctx(100, 45, 40))
    ensures 100 >= 96 + 45 / 10
  {
    HoldsIsJsHolds(Coc4, Worst, Ctx(100, 45, 40));
  }

  /** For rolls 1 to 99, `roll % 11 == 0` says that the tens digit equals the units digit. */
  lemma Coc6RepeatedDigit(roll: int)
    requires 1 <= roll <= 99
    ensures roll % 11 == 0 <==> roll / 10 == roll % 10
  {
    var a, b := roll / 10, roll % 10;
    assert roll == 11 * a + (b - a);
    if a == b {
      assert roll == 11 * a;
    } else if b > a {
      assert roll % 11 == b - a;
    } else {
      assert a >= 1;
      assert roll == 11 * (a - 1) + (11 + b - a);
      assert roll % 11 == 11 + b - a;
    }
  }

  /** Whatever the rule set, the decider never falls through without an outcome: `fail` and `success` cover every context. */
  lemma ClassifyTotal(rs: RuleSet, c: Ctx)
    ensures exists o :: Holds(rs, o, c)
  {
    assert Holds(rs, Classify(rs, c), c);
  }
}
