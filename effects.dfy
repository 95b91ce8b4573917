/**
 * The attribute vector of one life (PropertyState) and the effect payloads that change it.
 */
module Effects {
  import opened Wrappers
  import opened RandomSource

  datatype PropertyKey = CHR | INT | STR | MNY | SPR | AGE | LIF | TOTAL

  /** An effect payload: one delta per attribute (zero means "no change") and a bonus for
      one attribute among CHR, INT, STR, MNY and SPR chosen by a random draw. */
  datatype PropertyEffect = PropertyEffect(
    chr: int, intel: int, str: int, money: int, spirit: int,
    life: int, age: int, total: int, randomBonus: int)

  const NoEffect := PropertyEffect(0, 0, 0, 0, 0, 0, 0, 0, 0)

  /** Whether applying the payload can change anything. */
  function HasAnyEffect(e: PropertyEffect): (r: bool)
    ensures r <==> e != NoEffect
  {
    e.chr != 0 || e.intel != 0 || e.str != 0 || e.money != 0 || e.spirit != 0 ||
    e.life != 0 || e.age != 0 || e.total != 0 || e.randomBonus != 0
  }

  /** The value of a PropertyState object. */
  datatype Props = Props(
    chr: int, intel: int, str: int, mny: int, spr: int,
    age: int, lif: int, total: int, tms: int)

  /** The starting values (the field initialisers and Reset). */
  const ResetProps := Props(0, 0, 0, 0, 5, -1, 1, 20, 1)

  /** The attribute a key names; total on the keys (TMS has no key). */
  function Get(p: Props, key: PropertyKey): int
  {
    match key
    case CHR => p.chr
    case INT => p.intel
    case STR => p.str
    case MNY => p.mny
    case SPR => p.spr
    case AGE => p.age
    case LIF => p.lif
    case TOTAL => p.total
  }

  /** Get reads every attribute but TMS, each under its own key: two vectors agree on every
      key exactly when they differ at most in TMS. */
  lemma GetDetermines(p: Props, q: Props)
    ensures (forall key :: Get(p, key) == Get(q, key)) <==> p.(tms := q.tms) == q
  {
    if forall key :: Get(p, key) == Get(q, key) {
      assert Get(p, CHR) == Get(q, CHR) && Get(p, INT) == Get(q, INT) && Get(p, STR) == Get(q, STR);
      assert Get(p, MNY) == Get(q, MNY) && Get(p, SPR) == Get(q, SPR) && Get(p, AGE) == Get(q, AGE);
      assert Get(p, LIF) == Get(q, LIF) && Get(p, TOTAL) == Get(q, TOTAL);
    }
  }

  /** The delta a payload carries for a key. */
  function Delta(e: PropertyEffect, key: PropertyKey): int
  {
    match key
    case CHR => e.chr
    case INT => e.intel
    case STR => e.str
    case MNY => e.money
    case SPR => e.spirit
    case AGE => e.age
    case LIF => e.life
    case TOTAL => e.total
  }

  /** The attributes a random bonus may go to. */
  predicate IsBonusKey(key: PropertyKey)
  {
    key == CHR || key == INT || key == STR || key == MNY || key == SPR
  }

  /** The attribute the bonus goes to for a roll of Next(0, 5) (the switch of Apply). */
  function BonusSlot(roll: int): (key: PropertyKey)
    ensures IsBonusKey(key)
  {
    if roll == 0 then CHR
    else if roll == 1 then INT
    else if roll == 2 then STR
    else if roll == 3 then MNY
    else SPR
  }

  /** Whether applying the payload consumes a random draw. */
  predicate DrawsBonus(effect: Option<PropertyEffect>)
  {
    effect.Some? && HasAnyEffect(effect.value) && effect.value.randomBonus != 0
  }

  /** How many draws applying the payload consumes. */
  function ApplyDraws(effect: Option<PropertyEffect>): nat
  {
    if DrawsBonus(effect) then 1 else 0
  }

  /**
   * The attributes after Apply(effect), where `roll` is the value the draw Next(0, 5)
   * yields (ignored when no draw is made).  A missing or all-zero payload changes nothing;
   * otherwise every attribute grows by exactly its delta, and the bonus goes to exactly one
   * of CHR, INT, STR, MNY and SPR, never to AGE, LIF or TOTAL.
   */
  function Applied(p: Props, effect: Option<PropertyEffect>, roll: int): (q: Props)
    ensures effect.None? || !HasAnyEffect(effect.value) ==> q == p
    ensures q.tms == p.tms
  {
    match effect
    case None => p
    case Some(e) =>
      if !HasAnyEffect(e) then p
      else
        var slot := BonusSlot(roll);
        Props(
          p.chr + e.chr + (if slot == CHR then e.randomBonus else 0),
          p.intel + e.intel + (if slot == INT then e.randomBonus else 0),
          p.str + e.str + (if slot == STR then e.randomBonus else 0),
          p.mny + e.money + (if slot == MNY then e.randomBonus else 0),
          p.spr + e.spirit + (if slot == SPR then e.randomBonus else 0),
          p.age + e.age,
          p.lif + e.life,
          p.total + e.total,
          p.tms)
  }

  /** Attribute by attribute: each grows by its delta, the attribute the roll selects also
      by the bonus, and AGE, LIF and TOTAL never by the bonus. */
  lemma AppliedSound(p: Props, effect: Option<PropertyEffect>, roll: int)
    requires effect.Some? && HasAnyEffect(effect.value)
    ensures forall key ::
      Get(Applied(p, effect, roll), key) ==
        Get(p, key) + Delta(effect.value, key) + (if key == BonusSlot(roll) then effect.value.randomBonus else 0)
    ensures forall key :: !IsBonusKey(key) ==>
      Get(Applied(p, effect, roll), key) == Get(p, key) + Delta(effect.value, key)
  {
  }

  /** The sum of the five bonus attributes grows by exactly the sum of their deltas plus the
      bonus: the bonus is paid once, not once per attribute. */
  lemma BonusPaidOnce(p: Props, e: PropertyEffect, roll: int)
    requires HasAnyEffect(e)
    ensures var q := Applied(p, Some(e), roll);
      (q.chr + q.intel + q.str + q.mny + q.spr) - (p.chr + p.intel + p.str + p.mny + p.spr)
      == e.chr + e.intel + e.str + e.money + e.spirit + e.randomBonus
  {
  }

  /** The mutable attribute vector of the running life. */
  class PropertyState {
    var CHR: int
    var INT: int
    var STR: int
    var MNY: int
    var SPR: int
    var AGE: int
    var LIF: int
    var Total: int
    var TMS: int

    function Value(): Props
      reads this
    {
      Props(CHR, INT, STR, MNY, SPR, AGE, LIF, Total, TMS)
    }

    constructor ()
      ensures Value() == ResetProps
    {
      CHR, INT, STR, MNY := 0, 0, 0, 0;
      SPR, AGE, LIF, Total, TMS := 5, -1, 1, 20, 1;
    }

    method Reset()
      modifies this
      ensures Value() == ResetProps
    {
      CHR := 0;
      INT := 0;
      STR := 0;
      MNY := 0;
      SPR := 5;
      AGE := -1;
      LIF := 1;
      Total := 20;
      TMS := 1;
    }

    /** Adds the payload's deltas; draws once for the bonus attribute when there is a bonus. */
    method Apply(effect: Option<PropertyEffect>, random: Random)
      modifies this, random
      ensures random.pos == old(random.pos) + ApplyDraws(effect)
      ensures Value() == Applied(old(Value()), effect, Draw(random.raw, old(random.pos), 0, 5))
    {
      if effect.None? || !HasAnyEffect(effect.value) {
        return;
      }
      var e := effect.value;
      CHR := CHR + e.chr;
      INT := INT + e.intel;
      STR := STR + e.str;
      MNY := MNY + e.money;
      SPR := SPR + e.spirit;
      LIF := LIF + e.life;
      AGE := AGE + e.age;
      Total := Total + e.total;

      if e.randomBonus != 0 {
        var roll := random.Next(0, 5);
        if roll == 0 {
          CHR := CHR + e.randomBonus;
        } else if roll == 1 {
          INT := INT + e.randomBonus;
        } else if roll == 2 {
          STR := STR + e.randomBonus;
        } else if roll == 3 {
          MNY := MNY + e.randomBonus;
        } else {
          SPR := SPR + e.randomBonus;
        }
      }
    }
  }
}
