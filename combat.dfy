/// The combat rules on plain values: what a character's strength and health
/// imply, how one round between two distinct characters is decided and what
/// it does to their health, and how a fight repeats rounds until one is final.
/// The classes in module Arena are proved to behave as these functions say.
module Combat {
  import Numerics

  /** Character.Damage: C# `Strength / 2`, truncated toward zero. */
  function Damage(strength: int): (d: int)
    ensures strength >= 0 ==> 0 <= d <= strength && d == strength / 2
    ensures strength < 0 ==> strength <= d <= 0
    ensures strength < 0 ==> -1 <= strength - 2 * d <= 0
  {
    Numerics.HalfTowardZero(strength)
  }

  /** A damage of zero exactly for strengths -1, 0 and 1: two such
      characters can never hurt each other. */
  lemma DamageIsZero(strength: int)
    ensures Damage(strength) == 0 <==> -1 <= strength <= 1
  {
  }

  /** Character.IsDead. */
  predicate IsDead(health: int)
    ensures IsDead(health) <==> health <= 0
  {
    if health > 0 then false else true
  }

  /** Character.HealthString: "Dead" for a dead character, otherwise the
      decimal text of its health. */
  function HealthText(health: int): (s: string)
    ensures s == "Dead" <==> IsDead(health)
    ensures !IsDead(health) ==> Numerics.IsDecimal(s) && Numerics.DecimalValue(s) == health
    ensures !IsDead(health) ==> s == Numerics.DecimalText(health)
  {
    if health > 0 then
      Numerics.DecimalRoundTrip(health);
      var digits := Numerics.DecimalText(health);
      assert !Numerics.IsDigit("Dead"[0]);
      digits
    else
      "Dead"
  }

  /** Round.RollDice: a six-sided die. */
  predicate IsDie(n: int)
  {
    1 <= n <= 6
  }

  /** A supply of (player, opponent) die pairs, one pair per round. */
  predicate AreDice(rolls: seq<(int, int)>)
  {
    forall i :: 0 <= i < |rolls| ==> IsDie(rolls[i].0) && IsDie(rolls[i].1)
  }

  datatype Verdict = PlayerWins | Draw | OpponentWins

  /** The outcome of comparing the two effective values (strength + roll). */
  function Judge(playerTotal: int, opponentTotal: int): (v: Verdict)
    ensures v == PlayerWins <==> playerTotal > opponentTotal
    ensures v == Draw <==> playerTotal == opponentTotal
    ensures v == OpponentWins <==> playerTotal < opponentTotal
  {
    if playerTotal > opponentTotal then PlayerWins
    else if playerTotal == opponentTotal then Draw
    else OpponentWins
  }

  function Mirror(v: Verdict): Verdict
  {
    match v
    case PlayerWins => OpponentWins
    case Draw => Draw
    case OpponentWins => PlayerWins
  }

  /** Comparing the totals the other way round mirrors the verdict. */
  lemma JudgeIsAntisymmetric(playerTotal: int, opponentTotal: int)
    ensures Judge(opponentTotal, playerTotal) == Mirror(Judge(playerTotal, opponentTotal))
  {
  }

  /** The strength and health of two distinct characters facing each other. */
  datatype Duel = Duel(playerStrength: int, playerHealth: int, opponentStrength: int, opponentHealth: int)

  function Swap(d: Duel): Duel
  {
    Duel(d.opponentStrength, d.opponentHealth, d.playerStrength, d.playerHealth)
  }

  /** Round.IsFinal: one of the two is dead. */
  predicate IsOver(d: Duel)
    ensures IsOver(d) <==> d.playerHealth <= 0 || d.opponentHealth <= 0
  {
    IsDead(d.playerHealth) || IsDead(d.opponentHealth)
  }

  /** The verdict of a round with the given rolls. */
  function VerdictOf(d: Duel, playerRoll: int, opponentRoll: int): Verdict
  {
    Judge(d.playerStrength + playerRoll, d.opponentStrength + opponentRoll)
  }

  /** The Round constructor on values: the loser loses the winner's damage;
      a draw changes nothing; strengths never change. */
  function Resolve(d: Duel, playerRoll: int, opponentRoll: int): (r: Duel)
    ensures r.playerStrength == d.playerStrength && r.opponentStrength == d.opponentStrength
    ensures r.playerHealth == d.playerHealth || r.opponentHealth == d.opponentHealth
    ensures VerdictOf(d, playerRoll, opponentRoll) == Draw ==> r == d
  {
    match VerdictOf(d, playerRoll, opponentRoll)
    case PlayerWins => d.(opponentHealth := d.opponentHealth - Damage(d.playerStrength))
    case Draw => d
    case OpponentWins => d.(playerHealth := d.playerHealth - Damage(d.opponentStrength))
  }

  /** The round favours neither side: exchanging the two characters and
      their rolls exchanges the result. */
  lemma ResolveIsFair(d: Duel, playerRoll: int, opponentRoll: int)
    ensures Resolve(Swap(d), opponentRoll, playerRoll) == Swap(Resolve(d, playerRoll, opponentRoll))
  {
  }

  /** Unless the round is a draw, only the loser's health changes, by exactly
      the winner's damage; a draw is exactly equal totals. */
  lemma ResolveEffect(d: Duel, playerRoll: int, opponentRoll: int)
    ensures var r := Resolve(d, playerRoll, opponentRoll);
      r.playerStrength == d.playerStrength && r.opponentStrength == d.opponentStrength &&
      (VerdictOf(d, playerRoll, opponentRoll) == Draw <==> d.playerStrength + playerRoll == d.opponentStrength + opponentRoll) &&
      (VerdictOf(d, playerRoll, opponentRoll) == Draw ==> r == d) &&
      (VerdictOf(d, playerRoll, opponentRoll) == PlayerWins ==>
        r.playerHealth == d.playerHealth && r.opponentHealth == d.opponentHealth - Damage(d.playerStrength)) &&
      (VerdictOf(d, playerRoll, opponentRoll) == OpponentWins ==>
        r.opponentHealth == d.opponentHealth && r.playerHealth == d.playerHealth - Damage(d.opponentStrength))
  {
  }

  /** The result of Battle.Fight on values: the last state, how many rounds
      were resolved, and whether a final round was reached before the
      supply of rolls ran out. */
  datatype FightResult = FightResult(duel: Duel, rounds: nat, finished: bool)

  /** Battle.Fight: resolve rounds, at least one, until one is final. */
  function Play(d: Duel, rolls: seq<(int, int)>): (r: FightResult)
    ensures r.rounds <= |rolls|
    ensures rolls != [] ==> 1 <= r.rounds
    ensures r.finished ==> IsOver(r.duel)
    ensures !r.finished ==> r.rounds == |rolls| && (rolls != [] ==> !IsOver(r.duel))
    ensures r.duel.playerStrength == d.playerStrength && r.duel.opponentStrength == d.opponentStrength
    decreases |rolls|
  {
    if rolls == [] then FightResult(d, 0, false)
    else
      var next := Resolve(d, rolls[0].0, rolls[0].1);
      if IsOver(next) then FightResult(next, 1, true)
      else
        var rest := Play(next, rolls[1..]);
        FightResult(rest.duel, rest.rounds + 1, rest.finished)
  }

  /** The state after resolving every round in `rolls`, final or not. */
  function Replay(d: Duel, rolls: seq<(int, int)>): Duel
    decreases |rolls|
  {
    if rolls == [] then d else Replay(Resolve(d, rolls[0].0, rolls[0].1), rolls[1..])
  }

  /** A fight stops at its first final round and at no other: after k of the
      rounds it resolved, the state is final exactly when k is the last and
      the fight finished. */
  lemma {:induction false} PlayStopsAtFirstFinal(d: Duel, rolls: seq<(int, int)>)
    ensures Play(d, rolls).duel == Replay(d, rolls[..Play(d, rolls).rounds])
    ensures forall k :: 1 <= k <= Play(d, rolls).rounds ==>
      (IsOver(Replay(d, rolls[..k])) <==> k == Play(d, rolls).rounds && Play(d, rolls).finished)
    decreases |rolls|
  {
    if rolls != [] {
      var next := Resolve(d, rolls[0].0, rolls[0].1);
      var r := Play(d, rolls);
      forall k | 1 <= k <= |rolls|
        ensures Replay(d, rolls[..k]) == Replay(next, rolls[1..][..k - 1])
      {
        assert rolls[..k][0] == rolls[0];
        assert rolls[..k][1..] == rolls[1..][..k - 1];
      }
      if !IsOver(next) {
        PlayStopsAtFirstFinal(next, rolls[1..]);
        assert rolls[1..][..0] == [];
      } else {
        assert rolls[1..][..0] == [];
      }
    }
  }

  /** A finished fight between two living characters leaves exactly one of
      them dead. */
  lemma {:induction false} FinalRoundIsDecisive(d: Duel, rolls: seq<(int, int)>)
    requires !IsOver(d)
    ensures var r := Play(d, rolls);
      r.finished ==> IsDead(r.duel.playerHealth) != IsDead(r.duel.opponentHealth)
    decreases |rolls|
  {
    if rolls != [] {
      var next := Resolve(d, rolls[0].0, rolls[0].1);
      if !IsOver(next) {
        FinalRoundIsDecisive(next, rolls[1..]);
      }
    }
  }

  /** With non-negative strengths damage never heals, so health never rises
      during a fight. */
  lemma {:induction false} HealthNeverRises(d: Duel, rolls: seq<(int, int)>)
    requires d.playerStrength >= 0 && d.opponentStrength >= 0
    ensures Play(d, rolls).duel.playerHealth <= d.playerHealth
    ensures Play(d, rolls).duel.opponentHealth <= d.opponentHealth
    decreases |rolls|
  {
    if rolls != [] {
      var next := Resolve(d, rolls[0].0, rolls[0].1);
      if !IsOver(next) {
        HealthNeverRises(next, rolls[1..]);
      }
    }
  }

  /** A fight entered with a dead character still resolves one round, and
      with non-negative strengths that round is final. */
  lemma AlreadyOverLastsOneRound(d: Duel, rolls: seq<(int, int)>)
    requires IsOver(d) && rolls != []
    requires d.playerStrength >= 0 && d.opponentStrength >= 0
    ensures Play(d, rolls).rounds == 1 && Play(d, rolls).finished
  {
  }

  /** When both characters deal damage and no round is a draw, a fight of two
      living characters ends within as many rounds as their combined health
      less one. */
  lemma {:induction false} FightEndsWithoutDraws(d: Duel, rolls: seq<(int, int)>)
    requires !IsOver(d)
    requires Damage(d.playerStrength) >= 1 && Damage(d.opponentStrength) >= 1
    requires forall i :: 0 <= i < |rolls| ==> VerdictOf(d, rolls[i].0, rolls[i].1) != Draw
    requires |rolls| >= d.playerHealth + d.opponentHealth - 1
    ensures Play(d, rolls).finished
    decreases |rolls|
  {
    assert rolls != [];
    var next := Resolve(d, rolls[0].0, rolls[0].1);
    if !IsOver(next) {
      forall i | 0 <= i < |rolls[1..]|
        ensures VerdictOf(next, rolls[1..][i].0, rolls[1..][i].1) != Draw
      {
        assert rolls[1..][i] == rolls[i + 1];
      }
      FightEndsWithoutDraws(next, rolls[1..]);
    }
  }

  /** Two characters who deal no damage never finish a fight, however many
      rounds are rolled: Battle.Fight need not terminate. */
  lemma {:induction false} StalemateNeverEnds(d: Duel, rolls: seq<(int, int)>)
    requires !IsOver(d)
    requires Damage(d.playerStrength) == 0 && Damage(d.opponentStrength) == 0
    ensures !Play(d, rolls).finished
    decreases |rolls|
  {
    if rolls != [] {
      var next := Resolve(d, rolls[0].0, rolls[0].1);
      assert next.playerHealth == d.playerHealth && next.opponentHealth == d.opponentHealth;
      StalemateNeverEnds(next, rolls[1..]);
    }
  }
}
