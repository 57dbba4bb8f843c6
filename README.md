# Arena Fighter combat core in Dafny

This project models the combat core of the Arena Fighter console game. Two
characters, each with a strength and a health, fight in rounds. A round is
an opposed roll: each side adds a six-sided die to its strength. The higher
total wins. Equal totals are a draw. The loser loses the winner's damage,
which is half the winner's strength, truncated toward zero. A round is
final once either character is dead, meaning health at or below zero. A
battle fights rounds, at least one, until a round is final.

Files:

- `numerics.dfy` (module `Numerics`): C# integer division by two, and
  `int.ToString()` for positive numbers, with its inverse.
- `combat.dfy` (module `Combat`): the rules on plain values. `Resolve` is one
  round between two distinct characters. `Play` is a whole fight driven by a
  list of dice. Lemmas state what a fight guarantees and when it ends.
- `scoring.dfy` (module `Scoring`): the points of the score board.
- `arena.dfy` (module `Arena`): the classes `Character`, `Round` and
  `Battle`. `Round`'s constructor changes the loser's `Health` in place.
  `Battle.Fight` is a loop that replaces `LastRound` until a round is final.
  Each is proved against the value model in `Combat` and `Scoring`.

The dice are parameters. When dice are rolled, each is required to lie in
1..6, which is what `Random.Next(1, 7)` returns. `Fight` takes a finite list of die pairs, one
pair per round. It reports whether it reached a final round before the list
ran out, and how many rounds it fought.

The source does not forbid a battle of a character against itself, so the
classes allow `player == opponent`. The contracts of the `Round`
constructor and of `Battle.FightRound` say what one such round does. For
distinct characters those two are proved equal to `Combat.Resolve`, and
`Battle.Fight` to `Combat.Play`.

Facts of the source that the model keeps:

- Damage truncates toward zero, as C# `/` does. So strength -3 gives
  damage -1, not -2.
- `Battle.Rounds` is declared but never assigned or appended to. The model
  keeps no round history, only `LastRound`.
- With `rollDice` false both rolls are 0.

## Model

| member | source | states |
|---|---|---|
| `Numerics.HalfTowardZero` | ArenaFighter/Character.cs:61-64 | `s / 2` in C# leaves a remainder of at most one in size that has the sign of `s`, so the quotient is truncated toward zero |
| `Numerics.HalfTowardZeroCommutesWithNegation` | ArenaFighter/Character.cs:63 | halving commutes with negation, so -3 / 2 is -1 as in C# |
| `Numerics.DecimalText` | ArenaFighter/Character.cs:45-46 | `ToString()` of a positive health is a non-empty string of decimal digits with no leading zero |
| `Numerics.DecimalRoundTrip` | ArenaFighter/Character.cs:46 | reading the digits of a number back gives the number |
| `Numerics.DecimalTextInjective` | ArenaFighter/Character.cs:46 | two different healths never show the same text |
| `Combat.Damage` | ArenaFighter/Character.cs:61-64 | damage is half the strength truncated toward zero: for strength >= 0 it equals the floor of strength/2 (remainder 0 or 1) and lies in 0..strength; for negative strength it lies in strength..0 and the remainder is -1 or 0, so -3 gives -1 |
| `Combat.DamageIsZero` | ArenaFighter/Character.cs:61-64 | damage is zero exactly for strengths -1, 0 and 1 |
| `Combat.IsDead` | ArenaFighter/Character.cs:69-79 | a character is dead exactly when its health is at most zero |
| `Combat.HealthText` | ArenaFighter/Character.cs:42-51 | the health text is "Dead" exactly when the character is dead; otherwise it is exactly `DecimalText` of the health: digits with no leading zero that read back as the health |
| `Combat.Judge` | ArenaFighter/Round.cs:76-87 | the player wins iff its total is strictly greater, equal totals draw, and the opponent wins iff the player's total is smaller |
| `Combat.JudgeIsAntisymmetric` | ArenaFighter/Round.cs:76-87 | comparing the totals the other way round swaps the winner and keeps a draw |
| `Combat.IsOver` | ArenaFighter/Round.cs:93 | a round is final iff either character's health is at most zero |
| `Combat.Resolve` | ArenaFighter/Round.cs:76-90 | a round keeps both strengths, changes at most one health, and a draw changes nothing |
| `Combat.ResolveEffect` | ArenaFighter/Round.cs:76-90 | a round keeps both strengths; a draw changes no health; otherwise the loser's health drops by exactly the winner's damage and the winner's health is unchanged |
| `Combat.ResolveIsFair` | ArenaFighter/Round.cs:76-90 | exchanging the two characters and their dice exchanges the outcome of the round |
| `Combat.Play` | ArenaFighter/Battle.cs:50-60 | a fight resolves at least one round when there are dice; it finishes only in a final state; if it has not finished it used all dice and, with dice, both characters are alive; strengths never change |
| `Combat.PlayStopsAtFirstFinal` | ArenaFighter/Battle.cs:51-57 | the fight's end state is the state after its rounds, and after the k-th of those rounds the state is final exactly when k is the last round and the fight finished |
| `Combat.FinalRoundIsDecisive` | ArenaFighter/Battle.cs:57-63 | when a fight between two living characters finishes, exactly one of them is dead |
| `Combat.HealthNeverRises` | ArenaFighter/Round.cs:90 | with non-negative strengths no character's health rises during a fight |
| `Combat.AlreadyOverLastsOneRound` | ArenaFighter/Battle.cs:51-57 | a fight entered with a dead character still resolves one round, and with non-negative strengths stops after it |
| `Combat.FightEndsWithoutDraws` | ArenaFighter/Battle.cs:51-57 | when both sides deal damage and no round is a draw, a fight of two living characters finishes within their combined health less one rounds |
| `Combat.StalemateNeverEnds` | ArenaFighter/Battle.cs:51-57 | when neither side deals damage, a fight of two living characters never finishes, however many rounds are rolled |
| `Scoring.Score` | ArenaFighter/Character.cs:121-133 | the score over n battles lies between 2n and 5n |
| `Scoring.ScoreByCount` | ArenaFighter/Character.cs:122-131 | the score is 5 times the number of battles won plus 2 times the number of the others |
| `Arena.Character.Damage` | ArenaFighter/Character.cs:61-64 | the getter is `Combat.Damage(Strength)`, between 0 and the strength when the strength is non-negative |
| `Arena.Character.IsDead` | ArenaFighter/Character.cs:69-79 | the getter holds exactly when `Health` is at most zero |
| `Arena.Character.HealthString` | ArenaFighter/Character.cs:42-51 | the getter is "Dead" exactly when the character is dead, otherwise the decimal text of `Health` |
| `Arena.Character.constructor` | ArenaFighter/Character.cs:96-101 | the new character has the given name, strength and health and an empty list of battles |
| `Arena.Character.Default` | ArenaFighter/Character.cs:84 | the parameterless constructor yields "Tester" with strength 5 and health 5 |
| `Arena.Character.Named` | ArenaFighter/Character.cs:89 | the one-argument constructor keeps the name and sets strength 5 and health 5 |
| `Arena.Character.Victories` | ArenaFighter/Character.cs:123-124 | one flag per battle, true exactly when the battle's last round names this character the winner |
| `Arena.Character.ShowScore` | ArenaFighter/Character.cs:121-133 | the total is the score of this character's battle outcomes, in order, and lies between 2 and 5 points per battle |
| `Arena.Round.constructor` | ArenaFighter/Round.cs:65-94 | rolls are the dice or 0 without dice; winner, loser and draw follow the comparison of the totals; a draw leaves winner and loser unset and otherwise they are the two characters; only the loser's health changes, by the winner's damage; strengths are untouched; the round is final iff either character is dead afterwards; for distinct characters the effect equals `Combat.Resolve` |
| `Arena.Battle.constructor` | ArenaFighter/Battle.cs:39-44 | the battle is appended to the player's battles only, has no last round yet and is not finished |
| `Arena.Battle.FightRound` | ArenaFighter/Battle.cs:73-80 | `LastRound` becomes a new round between the same player and opponent; a draw leaves both healths and unsets winner and loser; otherwise the loser loses the winner's damage, and a distinct winner keeps its health, also when both sides are one character; for distinct characters the change equals `Combat.Resolve`; the round is final iff either is dead; `IsFinished` is unchanged |
| `Arena.Battle.Fight` | ArenaFighter/Battle.cs:50-60 | at least one round is fought when there are dice, and none with no dice (`LastRound` unchanged); with dice, `LastRound` is the round fought with the last pair used: between the battle's player and opponent, with those rolls, its verdict the comparison of the totals, final iff either character is dead, and when it is no draw its winner and loser are those two; it returns finished only when the last round is final, and then `IsFinished` holds; when both entered alive, that last round is no draw, and for distinct characters its winner is alive and its loser dead; otherwise it used all the dice, `IsFinished` is unchanged and, with dice, both characters are alive; for distinct characters the outcome equals `Combat.Play` |

## Left out

- The console: `Program.cs` as a whole, every `Print` method, colours, and
  the `ReadKey` pauses in `Fight`. `Fight`'s `inputRequired` parameter only
  controls those pauses, so the model does not have it.
- `System.Random` and `RollDice`. The dice are parameters that must lie in
  1..6 when dice are rolled.
- `Character.GenerateCharacters`: it relies on an external name and number
  generator that is not part of this model.
- `Battle.Rounds` and `Battle.Print`. The list is never created or filled.
  `Print` would fail on it.
- The message printed after a fight reads `LastRound.Winner.Name`. That
  fails when the final round is a draw. It can happen only if a character
  was already dead on entry. The contract of `Arena.Battle.Fight` shows
  that the last round has a winner when both characters entered alive.
- Arena.Battle.Fight: it is driven by a finite list of dice instead of an
  endless random source. When the list runs out before a final round, it
  returns unfinished. The source would go on rolling, possibly forever
  (`Combat.StalemateNeverEnds`). For a character fighting itself, its
  contract gives no end health: there is no value model of a self-fight, and
  only the per-round effect (from `Arena.Battle.FightRound`) and "finished
  iff the character is dead" are stated.
- Arena.Character.ShowScore: it requires every battle to have a last
  round. The source would dereference null otherwise.
- 32-bit overflow of `Strength + roll` and of `Health - Damage`. Dafny
  integers are unbounded.
- `Character.Battles` is a shared `List<Battle>` in the source. The model
  keeps it as a sequence field that the `Battle` constructor reassigns.
- The public setters of the `Round` and `Battle` properties are not
  modelled as operations of their own. Outside the constructors, only
  `FightRound` sets one (`LastRound`, every round) and only `Fight` sets
  `IsFinished`, whose setter is private; both are modelled.
