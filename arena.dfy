/// The game's three classes. A Character keeps its strength and health and
/// a list of the battles it started; a Round is created to resolve one
/// opposed roll and changes the loser's health in place; a Battle creates
/// rounds until one is final. Character and Battle refer to each other, so
/// the three share one module.
module Arena {
  import Numerics
  import Combat
  import Scoring

  class Character {
    /** The name has a getter only: it never changes after construction. */
    const Name: string
    var Strength: int
    var Health: int
    /** The battles this character started as the player, in order. */
    var Battles: seq<Battle>

    constructor (name: string, strength: int, health: int)
      ensures Name == name && Strength == strength && Health == health
      ensures Battles == []
    {
      Name := name;
      Strength := strength;
      Health := health;
      Battles := [];
    }

    /** The default character: "Tester", strength 5, health 5. */
    constructor Default()
      ensures Name == "Tester" && Strength == 5 && Health == 5
      ensures Battles == []
    {
      Name := "Tester";
      Strength := 5;
      Health := 5;
      Battles := [];
    }

    /** A named character with default strength 5 and health 5. */
    constructor Named(name: string)
      ensures Name == name && Strength == 5 && Health == 5
      ensures Battles == []
    {
      Name := name;
      Strength := 5;
      Health := 5;
      Battles := [];
    }

    function Damage(): (d: int)
      reads this
      ensures d == Combat.Damage(Strength)
      ensures Strength >= 0 ==> 0 <= d <= Strength
    {
      Combat.Damage(Strength)
    }

    predicate IsDead()
      reads this
      ensures IsDead() <==> Health <= 0
    {
      Combat.IsDead(Health)
    }

    function HealthString(): (s: string)
      reads this
      ensures s == "Dead" <==> IsDead()
      ensures !IsDead() ==> s == Numerics.DecimalText(Health)
    {
      Combat.HealthText(Health)
    }

    /** For each battle, whether its last round named this character the winner. */
    function Victories(battles: seq<Battle>): (won: seq<bool>)
      requires forall b :: b in battles ==> b.LastRound != null
      reads battles, set b | b in battles :: b.LastRound
      ensures |won| == |battles|
      ensures forall i :: 0 <= i < |battles| ==> (won[i] <==> battles[i].LastRound.Winner == this)
      decreases |battles|
    {
      if battles == [] then []
      else Victories(battles[..|battles| - 1]) + [battles[|battles| - 1].LastRound.Winner == this]
    }

    /** The total ShowScore prints: five points for each battle this
        character won, two for each other one. Every battle must have been
        fought, or the source dereferences a null last round. */
    method ShowScore() returns (score: int)
      requires forall b :: b in Battles ==> b.LastRound != null
      ensures score == Scoring.Score(Victories(Battles))
      ensures 2 * |Battles| <= score <= 5 * |Battles|
    {
      score := 0;
      var i := 0;
      while i < |Battles|
        invariant 0 <= i <= |Battles|
        invariant score == Scoring.Score(Victories(Battles[..i]))
      {
        assert Battles[..i + 1][..i] == Battles[..i];
        if Battles[i].LastRound.Winner == this {
          score := score + 5;
        } else {
          score := score + 2;
        }
        i := i + 1;
      }
      assert Battles[..i] == Battles;
    }
  }

  class Round {
    var Player: Character
    var Opponent: Character
    /** Null on a draw. */
    var Winner: Character?
    /** Null on a draw. */
    var Loser: Character?
    var PlayerRoll: int
    var OpponentRoll: int
    var IsDraw: bool
    var IsFinal: bool

    /** The winner and loser this round records for the given effective values. */
    predicate Decided(playerTotal: int, opponentTotal: int)
      reads this
    {
      match Combat.Judge(playerTotal, opponentTotal)
      case PlayerWins => !IsDraw && Winner == Player && Loser == Opponent
      case Draw => IsDraw && Winner == null && Loser == null
      case OpponentWins => !IsDraw && Winner == Opponent && Loser == Player
    }

    /** One opposed roll. The dice are rolled only when `rollDice` holds, and
        then `playerDie` and `opponentDie` are what they show. */
    constructor (player: Character, opponent: Character, rollDice: bool, playerDie: int, opponentDie: int)
      requires rollDice ==> Combat.IsDie(playerDie) && Combat.IsDie(opponentDie)
      modifies player`Health, opponent`Health
      ensures Player == player && Opponent == opponent
      ensures PlayerRoll == (if rollDice then playerDie else 0)
      ensures OpponentRoll == (if rollDice then opponentDie else 0)
      ensures Decided(player.Strength + PlayerRoll, opponent.Strength + OpponentRoll)
      ensures IsDraw <==> Winner == null && Loser == null
      ensures !IsDraw ==> {Winner, Loser} == {player, opponent} && (player != opponent ==> Winner != Loser)
      ensures player.Strength == old(player.Strength) && opponent.Strength == old(opponent.Strength)
      ensures IsDraw ==> player.Health == old(player.Health) && opponent.Health == old(opponent.Health)
      ensures Winner == player ==> opponent.Health == old(opponent.Health) - old(player.Damage())
      ensures Winner == opponent ==> player.Health == old(player.Health) - old(opponent.Damage())
      ensures player != opponent && Winner == player ==> player.Health == old(player.Health)
      ensures player != opponent && Winner == opponent ==> opponent.Health == old(opponent.Health)
      ensures IsFinal <==> player.IsDead() || opponent.IsDead()
      ensures player != opponent ==>
        Combat.Resolve(Combat.Duel(old(player.Strength), old(player.Health), old(opponent.Strength), old(opponent.Health)),
                       PlayerRoll, OpponentRoll)
        == Combat.Duel(player.Strength, player.Health, opponent.Strength, opponent.Health)
    {
      var playerRoll := if rollDice then playerDie else 0;
      var opponentRoll := if rollDice then opponentDie else 0;
      Player := player;
      Opponent := opponent;
      IsDraw := false;
      IsFinal := false;
      PlayerRoll := playerRoll;
      OpponentRoll := opponentRoll;
      Winner := null;
      Loser := null;
      if player.Strength + playerRoll > opponent.Strength + opponentRoll {
        Winner := player;
        Loser := opponent;
      } else if player.Strength + playerRoll == opponent.Strength + opponentRoll {
        IsDraw := true;
      } else {
        Winner := opponent;
        Loser := player;
      }
      new;
      if !IsDraw {
        Loser.Health := Loser.Health - Winner.Damage();
      }
      if player.IsDead() || opponent.IsDead() {
        IsFinal := true;
      }
    }
  }

  class Battle {
    var Player: Character
    var Opponent: Character
    /** Null until the first round has been fought. */
    var LastRound: Round?
    /** Set only by Fight, once its last round is final. */
    var IsFinished: bool

    /** The player's and the opponent's strength and health, as values. */
    function State(): Combat.Duel
      reads this, Player, Opponent
    {
      Combat.Duel(Player.Strength, Player.Health, Opponent.Strength, Opponent.Health)
    }

    /** A new battle is registered in the player's list of battles, and only there. */
    constructor (player: Character, opponent: Character)
      modifies player`Battles
      ensures Player == player && Opponent == opponent
      ensures LastRound == null && !IsFinished
      ensures player.Battles == old(player.Battles) + [this]
      ensures player != opponent ==> opponent.Battles == old(opponent.Battles)
    {
      Player := player;
      Opponent := opponent;
      IsFinished := false;
      LastRound := null;
      new;
      player.Battles := player.Battles + [this];
    }

    /** Replaces LastRound with a fresh round between the same two characters. */
    method FightRound(rollDice: bool, playerDie: int, opponentDie: int)
      requires rollDice ==> Combat.IsDie(playerDie) && Combat.IsDie(opponentDie)
      modifies this`LastRound, Player`Health, Opponent`Health
      ensures LastRound != null && fresh(LastRound)
      ensures LastRound.Player == Player && LastRound.Opponent == Opponent
      ensures LastRound.PlayerRoll == (if rollDice then playerDie else 0)
      ensures LastRound.OpponentRoll == (if rollDice then opponentDie else 0)
      ensures LastRound.Decided(Player.Strength + LastRound.PlayerRoll, Opponent.Strength + LastRound.OpponentRoll)
      ensures LastRound.IsDraw <==> LastRound.Winner == null && LastRound.Loser == null
      ensures LastRound.IsDraw ==> Player.Health == old(Player.Health) && Opponent.Health == old(Opponent.Health)
      ensures LastRound.Winner == Player ==> Opponent.Health == old(Opponent.Health) - old(Player.Damage())
      ensures LastRound.Winner == Opponent ==> Player.Health == old(Player.Health) - old(Opponent.Damage())
      ensures Player != Opponent && LastRound.Winner == Player ==> Player.Health == old(Player.Health)
      ensures Player != Opponent && LastRound.Winner == Opponent ==> Opponent.Health == old(Opponent.Health)
      ensures LastRound.IsFinal <==> Player.IsDead() || Opponent.IsDead()
      ensures Player.Strength == old(Player.Strength) && Opponent.Strength == old(Opponent.Strength)
      ensures Player != Opponent ==>
        State() == Combat.Resolve(old(State()), LastRound.PlayerRoll, LastRound.OpponentRoll)
      ensures IsFinished == old(IsFinished)
    {
      LastRound := new Round(Player, Opponent, rollDice, playerDie, opponentDie);
    }

    /** Fights rounds, at least one, with the dice in `rolls` until a round
        is final, then marks the battle finished. `rounds` is how many were
        fought; `finished` is false only if the dice ran out first. */
    method Fight(rolls: seq<(int, int)>) returns (finished: bool, rounds: nat)
      requires Combat.AreDice(rolls)
      modifies this`LastRound, this`IsFinished, Player`Health, Opponent`Health
      ensures rounds <= |rolls| && (rolls != [] ==> 1 <= rounds)
      ensures finished ==> IsFinished && LastRound != null && LastRound.IsFinal
      ensures finished ==> Player.IsDead() || Opponent.IsDead()
      ensures !finished ==> rounds == |rolls| && IsFinished == old(IsFinished)
      ensures !finished && rolls != [] ==> !Player.IsDead() && !Opponent.IsDead()
      ensures rolls != [] ==> LastRound != null && fresh(LastRound)
      ensures rolls == [] ==> LastRound == old(LastRound)
      ensures finished && !old(Player.IsDead()) && !old(Opponent.IsDead()) ==>
        !LastRound.IsDraw && LastRound.Winner != null && LastRound.Loser != null
      ensures rolls != [] ==> LastRound.Player == Player && LastRound.Opponent == Opponent
      ensures rolls != [] ==>
        LastRound.PlayerRoll == rolls[rounds - 1].0 && LastRound.OpponentRoll == rolls[rounds - 1].1
      ensures rolls != [] ==> (LastRound.IsFinal <==> Player.IsDead() || Opponent.IsDead())
      ensures rolls != [] ==>
        LastRound.Decided(Player.Strength + LastRound.PlayerRoll, Opponent.Strength + LastRound.OpponentRoll)
      ensures rolls != [] && !LastRound.IsDraw ==> {LastRound.Winner, LastRound.Loser} == {Player, Opponent}
      ensures finished && Player != Opponent && !old(Player.IsDead()) && !old(Opponent.IsDead()) ==>
        !LastRound.Winner.IsDead() && LastRound.Loser.IsDead()
      ensures Player.Strength == old(Player.Strength) && Opponent.Strength == old(Opponent.Strength)
      ensures Player != Opponent ==> Combat.Play(old(State()), rolls) == Combat.FightResult(State(), rounds, finished)
    {
      rounds := 0;
      var done := false;
      while !done && rounds < |rolls|
        invariant rounds <= |rolls|
        invariant done ==> 1 <= rounds && LastRound != null && LastRound.IsFinal
        invariant rounds >= 1 ==> LastRound != null && (LastRound.IsFinal <==> Player.IsDead() || Opponent.IsDead())
        invariant rounds >= 1 ==> LastRound != null && fresh(LastRound)
        invariant !done && rounds >= 1 ==> !Player.IsDead() && !Opponent.IsDead()
        invariant rounds == 0 ==> LastRound == old(LastRound)
        invariant rounds == 0 ==> Player.Health == old(Player.Health) && Opponent.Health == old(Opponent.Health)
        invariant done && !old(Player.IsDead()) && !old(Opponent.IsDead()) ==>
          !LastRound.IsDraw && LastRound.Winner != null && LastRound.Loser != null
        invariant rounds >= 1 ==> LastRound.Player == Player && LastRound.Opponent == Opponent
        invariant rounds >= 1 ==>
          LastRound.PlayerRoll == rolls[rounds - 1].0 && LastRound.OpponentRoll == rolls[rounds - 1].1
        invariant rounds >= 1 ==>
          LastRound.Decided(Player.Strength + LastRound.PlayerRoll, Opponent.Strength + LastRound.OpponentRoll)
        invariant rounds >= 1 && !LastRound.IsDraw ==> {LastRound.Winner, LastRound.Loser} == {Player, Opponent}
        invariant done && Player != Opponent && !old(Player.IsDead()) && !old(Opponent.IsDead()) ==>
          !LastRound.Winner.IsDead() && LastRound.Loser.IsDead()
        invariant IsFinished == old(IsFinished)
        invariant Player.Strength == old(Player.Strength) && Opponent.Strength == old(Opponent.Strength)
        invariant Player != Opponent ==>
          (Combat.Play(old(State()), rolls) ==
           if done then Combat.FightResult(State(), rounds, true)
           else var rest := Combat.Play(State(), rolls[rounds..]);
             Combat.FightResult(rest.duel, rest.rounds + rounds, rest.finished))
      {
        assert rolls[rounds..][0] == rolls[rounds];
        assert rolls[rounds..][1..] == rolls[rounds + 1..];
        FightRound(true, rolls[rounds].0, rolls[rounds].1);
        rounds := rounds + 1;
        done := LastRound.IsFinal;
      }
      if done {
        IsFinished := true;
      }
      finished := done;
    }
  }
}
