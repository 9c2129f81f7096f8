/**
 * The records of the guessing-game backend: the stored Player, the
 * PublicPlayer view handed to callers, the clues and the one error kind.
 */
module Players {

  /** The largest value of Rust's `u64`. */
  const MaxU64: int := 0xFFFF_FFFF_FFFF_FFFF

  /** Rust's `u64`: ids, scores, counters and timestamps. */
  type U64 = x: int | 0 <= x <= MaxU64

  /** Attempts granted at the start of every round. */
  const AttemptsPerRound: U64 := 7

  /** Secrets are drawn as `now % SecretRange`, so they lie in [0, 100]. */
  const SecretRange: U64 := 101

  /** Points awarded for a correct guess. */
  const WinBonus: U64 := 10

  datatype Option<T> = None | Some(value: T)

  /**
   * A stored player. A secret of 0 is read as "round not started yet", although
   * a draw can also produce 0 (see Game.ZeroSecretRestartsRound).
   */
  datatype Player = Player(
    id: U64,
    name: string,
    score: U64,
    secretNumber: U64,
    attemptsLeft: U64,
    createdAt: U64,
    updatedAt: Option<U64>)

  /** What a guess answers. */
  datatype Clue = Empty | Won | Higher | Lower
  {
    /** The message text the backend sends for this clue. */
    function Text(): (s: string)
      ensures s == "" <==> this == Empty
    {
      match this
      case Empty => ""
      case Won => "Congratulations! You've guessed the number! A new game has started."
      case Higher => "The secret number is higher than your guess."
      case Lower => "The secret number is lower than your guess."
    }
  }

  /** The externally visible part of a player: no secret, no timestamps. */
  datatype PublicPlayer = PublicPlayer(
    id: U64,
    name: string,
    score: U64,
    attemptsLeft: U64,
    clue: Clue)

  /** Why a call failed; the backend reports both through its only error variant. */
  datatype Cause = Absent | GameOver

  /** The backend's single error variant, `NotFound`, with the id it was about. */
  datatype Error = NotFound(id: U64, cause: Cause)

  datatype Result<T> = Ok(value: T) | Err(error: Error)

  /** The bounds every stored player keeps: at most a full round of attempts, a secret in [0, 100]. */
  predicate WellFormed(p: Player)
  {
    p.attemptsLeft <= AttemptsPerRound && p.secretNumber < SecretRange
  }

  /** The view projection: copies id, name, score and attempts, attaches the clue. */
  function Project(p: Player, clue: Clue): (v: PublicPlayer)
    ensures v.id == p.id && v.name == p.name && v.score == p.score && v.clue == clue
    ensures v.attemptsLeft == p.attemptsLeft
    ensures WellFormed(p) ==> v.attemptsLeft <= AttemptsPerRound
  {
    PublicPlayer(p.id, p.name, p.score, p.attemptsLeft, clue)
  }

  /** The view depends on nothing but the four public fields and the clue. */
  lemma ProjectionHidesSecret(p: Player, q: Player, clue: Clue)
    requires p.id == q.id && p.name == q.name && p.score == q.score
    requires p.attemptsLeft == q.attemptsLeft
    ensures Project(p, clue) == Project(q, clue)
  {
  }
}
