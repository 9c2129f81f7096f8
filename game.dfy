/**
 * The guessing-round engine: what one `play_game` call does to a stored
 * player, as a pure transition, and what a run of calls on one player does.
 * The clock is a parameter: `now` is the value of `time()` during the call.
 */
module Game {
  import opened Players

  /** What a guess does to a present player: the record to store and the clue, or game over. */
  datatype Outcome = Played(player: Player, clue: Clue) | RoundOver

  /** Fields no game step may change. */
  predicate SameIdentity(p: Player, q: Player)
  {
    q.id == p.id && q.name == p.name && q.createdAt == p.createdAt
  }

  /** The secret drawn from the clock. */
  function Draw(now: U64): (secret: U64)
    ensures secret < SecretRange
  {
    now % SecretRange
  }

  /**
   * Lazy initialisation: a secret of 0 is read as "no round yet", so a new one
   * is drawn and a full round granted, even when that 0 was itself drawn.
   */
  function Init(p: Player, now: U64): (q: Player)
    ensures SameIdentity(p, q) && q.score == p.score && q.updatedAt == p.updatedAt
    ensures p.secretNumber != 0 ==> q == p
    ensures p.secretNumber == 0 ==> q.attemptsLeft == AttemptsPerRound && q.secretNumber == Draw(now)
  {
    if p.secretNumber == 0 then p.(secretNumber := Draw(now), attemptsLeft := AttemptsPerRound)
    else p
  }

  /** The answer to a wrong guess: the direction of the secret. */
  function MissClue(guess: U64, secret: U64): (c: Clue)
    requires guess != secret
    ensures c == Higher <==> guess < secret
    ensures c == Lower <==> guess > secret
  {
    if guess < secret then Higher else Lower
  }

  /** The call cannot overflow the score: only a win adds to it. */
  predicate ScoreFits(p: Player, guess: U64, now: U64)
  {
    var q := Init(p, now);
    q.attemptsLeft != 0 && guess == q.secretNumber ==> p.score + WinBonus <= MaxU64
  }

  /**
   * One `play_game` call on a present player. The guess is judged against the
   * secret in force after lazy initialisation; an exhausted round answers
   * game over and stores nothing.
   */
  function Step(p: Player, guess: U64, now: U64): (o: Outcome)
    requires ScoreFits(p, guess, now)
    // game over exactly when a started round has no attempts left
    ensures o.RoundOver? <==> p.secretNumber != 0 && p.attemptsLeft == 0
    ensures o.Played? ==> SameIdentity(p, o.player) && o.clue != Empty
    ensures WellFormed(p) && o.Played? ==> WellFormed(o.player)
    // the clue compares the guess with the secret in force
    ensures o.Played? ==> (o.clue == Won <==> guess == Init(p, now).secretNumber)
    ensures o.Played? ==> (o.clue == Higher <==> guess < Init(p, now).secretNumber)
    ensures o.Played? ==> (o.clue == Lower <==> guess > Init(p, now).secretNumber)
    // a win scores ten and starts a new round
    ensures o.Played? && o.clue == Won ==>
      && o.player.score == p.score + WinBonus
      && o.player.attemptsLeft == AttemptsPerRound
      && o.player.secretNumber == Draw(now)
      && o.player.updatedAt == Some(now)
    // a miss costs exactly one attempt and touches nothing else
    ensures o.Played? && o.clue != Won ==>
      && Init(p, now).attemptsLeft > 0
      && o.player == Init(p, now).(attemptsLeft := Init(p, now).attemptsLeft - 1)
      && o.player.score == p.score
      && o.player.updatedAt == p.updatedAt
  {
    var q := Init(p, now);
    if q.attemptsLeft == 0 then RoundOver
    else if guess == q.secretNumber then
      Played(q.(score := q.score + WinBonus, updatedAt := Some(now),
                attemptsLeft := AttemptsPerRound, secretNumber := Draw(now)), Won)
    else
      Played(q.(attemptsLeft := q.attemptsLeft - 1), MissClue(guess, q.secretNumber))
  }

  /**
   * A player whose secret is 0 always gets a fresh round, whatever its attempts
   * were: a secret of 0 drawn mid-game silently restarts the round.
   */
  lemma ZeroSecretRestartsRound(p: Player, guess: U64, now: U64)
    requires p.secretNumber == 0 && ScoreFits(p, guess, now)
    ensures Step(p, guess, now).Played?
    ensures Step(p, guess, now).player.attemptsLeft ==
      if guess == Draw(now) then AttemptsPerRound else AttemptsPerRound - 1
  {
  }

  /** One call of a sequence: the guess and the clock. */
  datatype Call = Call(guess: U64, now: U64)

  /** The record stored after one call: a played step is written back, game over is not. */
  function After(p: Player, c: Call): (q: Player)
    requires ScoreFits(p, c.guess, c.now)
    ensures SameIdentity(p, q) && p.score <= q.score <= p.score + WinBonus
  {
    match Step(p, c.guess, c.now)
    case Played(q, _) => q
    case RoundOver => p
  }

  /** No call of the run overflows the score when it wins. */
  predicate WinsFit(p: Player, calls: seq<Call>)
    decreases |calls|
  {
    calls == [] ||
    (ScoreFits(p, calls[0].guess, calls[0].now) && WinsFit(After(p, calls[0]), calls[1..]))
  }

  /** The record stored after a run of calls, and the answer of each call. */
  datatype Session = Session(stored: Player, outcomes: seq<Outcome>)

  /** Successive `play_game` calls on one present player. */
  function Replay(p: Player, calls: seq<Call>): (s: Session)
    requires WinsFit(p, calls)
    ensures |s.outcomes| == |calls|
    ensures SameIdentity(p, s.stored)
    ensures WellFormed(p) ==> WellFormed(s.stored)
    ensures p.score <= s.stored.score <= p.score + WinBonus * |calls|
    decreases |calls|
  {
    if calls == [] then Session(p, [])
    else
      var rest := Replay(After(p, calls[0]), calls[1..]);
      Session(rest.stored, [Step(p, calls[0].guess, calls[0].now)] + rest.outcomes)
  }

  /** A run starting with call `c` is that call followed by the rest of the run. */
  lemma ReplayCons(p: Player, c: Call, rest: seq<Call>)
    requires ScoreFits(p, c.guess, c.now) && WinsFit(After(p, c), rest)
    ensures WinsFit(p, [c] + rest)
    ensures Replay(p, [c] + rest) ==
      Session(Replay(After(p, c), rest).stored, [Step(p, c.guess, c.now)] + Replay(After(p, c), rest).outcomes)
  {
    assert ([c] + rest)[1..] == rest;
  }

  /** Replaying two runs one after the other is replaying their concatenation. */
  lemma {:induction false} ReplayAppend(p: Player, a: seq<Call>, b: seq<Call>)
    requires WinsFit(p, a) && WinsFit(Replay(p, a).stored, b)
    ensures WinsFit(p, a + b)
    ensures Replay(p, a + b) ==
      Session(Replay(Replay(p, a).stored, b).stored,
              Replay(p, a).outcomes + Replay(Replay(p, a).stored, b).outcomes)
    decreases |a|
  {
    if a == [] {
      assert a + b == b;
    } else {
      var c, tail := a[0], a[1..];
      assert a == [c] + tail;
      assert a + b == [c] + (tail + b);
      ReplayCons(p, c, tail);
      ReplayAppend(After(p, c), tail, b);
      ReplayCons(p, c, tail + b);
    }
  }

  /**
   * As written, game over is never stored: a started round with no attempts
   * left answers game over on every later call and its record never changes.
   */
  lemma {:induction false} ExhaustedIsStuck(p: Player, calls: seq<Call>)
    requires p.secretNumber != 0 && p.attemptsLeft == 0
    ensures WinsFit(p, calls)
    ensures Replay(p, calls).stored == p
    ensures forall i :: 0 <= i < |calls| ==> Replay(p, calls).outcomes[i] == RoundOver
    decreases |calls|
  {
    if calls != [] {
      ExhaustedIsStuck(p, calls[1..]);
    }
  }

  /**
   * Inside a started round, each wrong guess costs one attempt and gives the
   * direction of the secret; score, secret and timestamps stay as they were.
   */
  lemma {:induction false} MissesCountDown(p: Player, calls: seq<Call>)
    requires p.secretNumber != 0 && |calls| <= p.attemptsLeft
    requires forall i :: 0 <= i < |calls| ==> calls[i].guess != p.secretNumber
    ensures WinsFit(p, calls)
    ensures Replay(p, calls).stored == p.(attemptsLeft := p.attemptsLeft - |calls|)
    ensures forall i :: 0 <= i < |calls| ==>
      Replay(p, calls).outcomes[i] ==
        Played(p.(attemptsLeft := p.attemptsLeft - i - 1), MissClue(calls[i].guess, p.secretNumber))
    decreases |calls|
  {
    if calls != [] {
      var next := p.(attemptsLeft := p.attemptsLeft - 1);
      MissesCountDown(next, calls[1..]);
      assert After(p, calls[0]) == next;
      var s := Replay(p, calls);
      forall i | 1 <= i < |calls|
        ensures s.outcomes[i] ==
          Played(p.(attemptsLeft := p.attemptsLeft - i - 1), MissClue(calls[i].guess, p.secretNumber))
      {
        assert s.outcomes[i] == Replay(next, calls[1..]).outcomes[i - 1];
      }
    }
  }

  /**
   * A full round of wrong guesses: the seventh miss still answers with a clue
   * and 0 attempts left; only the eighth call reports game over.
   */
  lemma SeventhMissEndsRound(p: Player, calls: seq<Call>)
    requires p.secretNumber != 0 && p.attemptsLeft == AttemptsPerRound
    requires |calls| == AttemptsPerRound + 1
    requires forall i :: 0 <= i < AttemptsPerRound ==> calls[i].guess != p.secretNumber
    ensures WinsFit(p, calls)
    ensures Replay(p, calls).outcomes[AttemptsPerRound - 1].Played?
    ensures Replay(p, calls).outcomes[AttemptsPerRound - 1].player.attemptsLeft == 0
    ensures Replay(p, calls).outcomes[AttemptsPerRound] == RoundOver
    ensures Replay(p, calls).stored == p.(attemptsLeft := 0)
  {
    var round, after := calls[..AttemptsPerRound], calls[AttemptsPerRound..];
    assert calls == round + after;
    MissesCountDown(p, round);
    ExhaustedIsStuck(p.(attemptsLeft := 0), after);
    ReplayAppend(p, round, after);
  }

  /**
   * The step the code evidently intends: on game over the reset (full round,
   * new secret, `updated_at`) is stored as well. Returns the record to store
   * and the answer, which is the same as the code's.
   */
  function StepWithReset(p: Player, guess: U64, now: U64): (r: (Player, Outcome))
    requires ScoreFits(p, guess, now)
    ensures r.1 == Step(p, guess, now)
    ensures r.1.Played? ==> r.0 == r.1.player
    ensures r.1.RoundOver? ==>
      && SameIdentity(p, r.0) && r.0.score == p.score
      && r.0.attemptsLeft == AttemptsPerRound && r.0.secretNumber == Draw(now)
      && r.0.updatedAt == Some(now)
  {
    match Step(p, guess, now)
    case Played(q, clue) => (q, Played(q, clue))
    case RoundOver =>
      (p.(updatedAt := Some(now), attemptsLeft := AttemptsPerRound, secretNumber := Draw(now)), RoundOver)
  }

  /** With the reset stored, the call after a game over is always played. */
  lemma ResetStartsNewRound(p: Player, guess: U64, now: U64, guess2: U64, now2: U64)
    requires p.secretNumber != 0 && p.attemptsLeft == 0
    requires p.score + WinBonus <= MaxU64
    ensures StepWithReset(p, guess, now).1 == RoundOver
    ensures ScoreFits(StepWithReset(p, guess, now).0, guess2, now2)
    ensures Step(StepWithReset(p, guess, now).0, guess2, now2).Played?
  {
  }
}
