/**
 * The backend's durable state and its entry points: an id counter and a
 * map from id to Player, updated in place by each call. `now` stands for
 * `time()`, read once per call.
 */
module Store {
  import opened Players
  import opened Game

  class PlayerStore {
    /** The next id to hand out. */
    var counter: U64
    /** The stored players, keyed by id. */
    var m: map<U64, Player>

    /**
     * Every record sits under its own id, below the counter (so the counter
     * never names a live record and ids are never reissued), and keeps the
     * bounds of a well-formed player.
     */
    ghost predicate Valid()
      reads this
    {
      forall k :: k in m ==> m[k].id == k && k < counter && WellFormed(m[k])
    }

    /** The store as first initialised: counter at 0, no players. */
    constructor ()
      ensures Valid()
      ensures counter == 0 && m == map[]
    {
      counter := 0;
      m := map[];
    }

    /** Looks up a stored record; changes nothing. */
    function Find(id: U64): (r: Option<Player>)
      reads this
      requires Valid()
      ensures r.Some? <==> id in m
      ensures r.Some? ==> r.value == m[id] && r.value.id == id && WellFormed(r.value)
    {
      if id in m then Some(m[id]) else None
    }

    /** The public view of a stored player, with an empty clue; changes nothing. */
    function GetPlayer(id: U64): (r: Result<PublicPlayer>)
      reads this
      requires Valid()
      ensures r.Ok? <==> id in m
      ensures r.Ok? ==>
        && r.value.id == id && r.value.name == m[id].name && r.value.score == m[id].score
        && r.value.attemptsLeft == m[id].attemptsLeft <= AttemptsPerRound
        && r.value.clue == Empty
      ensures r.Err? ==> r.error == NotFound(id, Absent)
    {
      match Find(id)
      case Some(player) => Ok(Project(player, Empty))
      case None => Err(NotFound(id, Absent))
    }

    /** Stores a record under its own id, replacing any previous one. */
    method DoInsert(player: Player)
      modifies this
      ensures m == old(m)[player.id := player]
      ensures counter == old(counter)
    {
      m := m[player.id := player];
    }

    /**
     * Creates a player under the next id: score 0, no round started yet
     * (secret 0), a full round of attempts, created now, never updated.
     */
    method AddPlayer(name: string, now: U64) returns (r: Option<PublicPlayer>)
      requires Valid()
      requires counter < MaxU64
      modifies this
      ensures Valid()
      ensures counter == old(counter) + 1
      ensures old(counter) !in old(m)
      ensures m == old(m)[old(counter) := Player(old(counter), name, 0, 0, AttemptsPerRound, now, None)]
      ensures r == Some(PublicPlayer(old(counter), name, 0, AttemptsPerRound, Empty))
    {
      var id := counter;
      counter := counter + 1;
      var player := Player(id, name, 0, 0, AttemptsPerRound, now, None);
      DoInsert(player);
      r := Some(Project(player, Empty));
    }

    /** Overwrites a player's score and marks it updated now. */
    method UpdateScore(id: U64, score: U64, now: U64) returns (r: Result<PublicPlayer>)
      requires Valid()
      modifies this
      ensures Valid()
      ensures counter == old(counter)
      ensures id in old(m) ==>
        && m == old(m)[id := old(m)[id].(score := score, updatedAt := Some(now))]
        && r == Ok(PublicPlayer(id, old(m)[id].name, score, old(m)[id].attemptsLeft, Empty))
      ensures id !in old(m) ==> m == old(m) && r == Err(NotFound(id, Absent))
    {
      if id in m {
        var player := m[id];
        player := player.(score := score);
        player := player.(updatedAt := Some(now));
        DoInsert(player);
        r := Ok(Project(player, Empty));
      } else {
        r := Err(NotFound(id, Absent));
      }
    }

    /** Removes a player and hands back the whole record, secret included. */
    method DeletePlayer(id: U64) returns (r: Result<Player>)
      requires Valid()
      modifies this
      ensures Valid()
      ensures counter == old(counter)
      ensures id in old(m) ==> r == Ok(old(m)[id]) && r.value.id == id && m == old(m) - {id}
      ensures id !in old(m) ==> m == old(m) && r == Err(NotFound(id, Absent))
      ensures id !in m
    {
      if id in m {
        var player := m[id];
        m := m - {id};
        r := Ok(player);
      } else {
        r := Err(NotFound(id, Absent));
      }
    }

    /**
     * One guess. The record is loaded into a local copy, the copy is updated
     * step by step and written back, except on game over: there the reset
     * touches the local copy only and the call returns before the write.
     */
    method PlayGame(id: U64, guess: U64, now: U64) returns (r: Result<PublicPlayer>)
      requires Valid()
      requires id in m ==> ScoreFits(m[id], guess, now)
      modifies this
      ensures Valid()
      ensures counter == old(counter)
      ensures id !in old(m) ==> m == old(m) && r == Err(NotFound(id, Absent))
      ensures id in old(m) ==>
        match Step(old(m)[id], guess, now)
        case RoundOver => m == old(m) && r == Err(NotFound(id, GameOver))
        case Played(q, clue) => m == old(m)[id := q] && r == Ok(Project(q, clue))
    {
      if id !in m {
        return Err(NotFound(id, Absent));
      }
      var player := m[id];
      if player.secretNumber == 0 {
        player := player.(secretNumber := Draw(now));
        player := player.(attemptsLeft := AttemptsPerRound);
      }
      if player.attemptsLeft == 0 {
        player := player.(updatedAt := Some(now));
        player := player.(attemptsLeft := AttemptsPerRound);
        player := player.(secretNumber := Draw(now));
        return Err(NotFound(id, GameOver));
      }
      var clue: Clue;
      if guess == player.secretNumber {
        player := player.(score := player.score + WinBonus);
        player := player.(updatedAt := Some(now));
        player := player.(attemptsLeft := AttemptsPerRound);
        player := player.(secretNumber := Draw(now));
        clue := Won;
      } else {
        player := player.(attemptsLeft := player.attemptsLeft - 1);
        clue := MissClue(guess, player.secretNumber);
      }
      DoInsert(player);
      r := Ok(Project(player, clue));
    }
  }
}
