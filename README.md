# Guessing-game player store, modelled in Dafny

The backend keeps players in a durable map keyed by a `u64` id. A durable counter supplies
the ids. On top of the store sits a number-guessing game. Each player has a secret in
[0, 100], drawn from the clock as `time() % 101`, and seven attempts per round. A correct
guess scores ten points and starts a new round. A wrong guess costs an attempt and answers
"higher" or "lower". A secret of 0 is read as "no round started yet". A draw can also give 0
(whenever the clock is a multiple of 101). The next call then silently restarts the round: a
new secret is drawn and the attempts are refilled to 7 (`Game.ZeroSecretRestartsRound`).

The model has three modules:

- `Players` (players.dfy): the `Player` record, the `PublicPlayer` view, the clues and the
  single error variant `NotFound`. The error carries the id and a cause: `Absent` for a
  missing id, `GameOver` for an exhausted round.
- `Game` (game.dfy): one `play_game` call on a present player as a pure transition (`Step`).
  It also models a run of calls on one player (`Replay`), with lemmas about whole rounds.
- `Store` (store.dfy): the class `PlayerStore`, holding the counter and the map. It has one
  method per entry point. Each method updates the fields in place and states the whole new
  state. `PlayGame` works on a local copy step by step, as the backend does, and is proved
  to agree with `Game.Step`.

The store invariant `PlayerStore.Valid` holds before and after every entry point:

- every record is stored under its own id;
- every key is below the counter, so a new id never overwrites a record and no id is
  reissued, even after a delete;
- every record has at most 7 attempts and a secret of at most 100.

Points about the code's behaviour that the model keeps as they are:

- On game over (lib.rs:176-183), the reset of attempts, secret and `updated_at` is applied to a
  local copy only. The call returns before the write at lib.rs:202, although the comment at
  lib.rs:178 calls it a reset for a new game. An exhausted player therefore stays exhausted
  (see Findings).
- The seventh wrong guess in a round answers `Ok` with a clue and 0 attempts left. Only the
  next call reports game over (`Game.SeventhMissEndsRound`).
- Game over is reported through the code's only error variant, `NotFound` (lib.rs:157-159).
  The model keeps that variant and tags the cause.
- A miss (lib.rs:193) and a lazy initialisation (lib.rs:171-174) change the stored record
  through the write at lib.rs:202, but leave `updated_at` as it was. Only a win (lib.rs:188)
  and a score update (lib.rs:122) set it.

## Model

| member | source | states |
|---|---|---|
| `Players.Clue.Text` | src/icp_rust_boilerplate_backend/src/lib.rs:185-198 | the clue text is empty exactly for the "no clue" answer of queries and score updates |
| `Players.Project` | src/icp_rust_boilerplate_backend/src/lib.rs:205-211 | the view copies id, name, score and attempts and attaches the clue; a well-formed record shows at most 7 attempts |
| `Players.ProjectionHidesSecret` | src/icp_rust_boilerplate_backend/src/lib.rs:22-31 | the public view depends only on id, name, score, attempts and clue; the secret and timestamps never reach it |
| `Game.Draw` | src/icp_rust_boilerplate_backend/src/lib.rs:172 | a secret drawn from the clock is at most 100 |
| `Game.MissClue` | src/icp_rust_boilerplate_backend/src/lib.rs:194-198 | a wrong guess answers Higher exactly when it is below the secret and Lower exactly when it is above |
| `Game.Init` | src/icp_rust_boilerplate_backend/src/lib.rs:171-174 | a secret of 0 is replaced by a fresh draw and attempts are refilled to 7; any other record is untouched; identity, score and timestamps never change |
| `Game.Step` | src/icp_rust_boilerplate_backend/src/lib.rs:170-199 | game over exactly when a started round has 0 attempts; the clue is Won, Higher or Lower exactly as the guess equals, is below or is above the secret in force after lazy initialisation; a win adds exactly 10, refills 7 attempts, draws a new secret and sets updated_at; a miss takes exactly one attempt (never from 0) and changes nothing else; id, name and created_at never change; well-formed records stay well-formed |
| `Game.ZeroSecretRestartsRound` | src/icp_rust_boilerplate_backend/src/lib.rs:171-174 | a record with secret 0 is never game over and leaves the call with 7 attempts after a win or 6 after a miss, whatever its attempts were |
| `Game.After` | src/icp_rust_boilerplate_backend/src/lib.rs:176-202 | the record stored after one call keeps its identity and gains at most 10 points |
| `Game.Replay` | src/icp_rust_boilerplate_backend/src/lib.rs:167-223 | a run of calls, with no win overflowing the score, answers once per call, keeps the player's identity and well-formedness, and never lowers the score |
| `Game.ReplayAppend` | src/icp_rust_boilerplate_backend/src/lib.rs:201-202 | running two sequences of calls one after the other is the same as running their concatenation |
| `Game.ExhaustedIsStuck` | src/icp_rust_boilerplate_backend/src/lib.rs:176-183 | a started round with 0 attempts answers game over on every later call and its stored record never changes |
| `Game.MissesCountDown` | src/icp_rust_boilerplate_backend/src/lib.rs:192-202 | in a started round, the i-th consecutive wrong guess leaves attempts - i - 1 and answers Higher or Lower by comparing with the unchanged secret; the stored record differs only in attempts |
| `Game.SeventhMissEndsRound` | src/icp_rust_boilerplate_backend/src/lib.rs:176-199 | from a full round, the 7th wrong guess still answers with 0 attempts left and the 8th call answers game over, with the record left at 0 attempts |
| `Game.StepWithReset` | src/icp_rust_boilerplate_backend/src/lib.rs:176-183 | corrected step: same answer as the code, and on game over the stored record gets 7 attempts, a new secret and updated_at, with identity and score kept |
| `Game.ResetStartsNewRound` | src/icp_rust_boilerplate_backend/src/lib.rs:176-183 | with the reset stored, the call after a game over is always played |
| `Store.PlayerStore.constructor` | src/icp_rust_boilerplate_backend/src/lib.rs:51-61 | the store starts with counter 0 and no players, and satisfies the store invariant |
| `Store.PlayerStore.Find` | src/icp_rust_boilerplate_backend/src/lib.rs:162-164 | finds a record exactly when the id is stored; the record found carries that id and is well-formed |
| `Store.PlayerStore.GetPlayer` | src/icp_rust_boilerplate_backend/src/lib.rs:70-85 | on a stored id, answers its id, name, score and attempts with an empty clue; otherwise NotFound for that id; reads only, so the store is unchanged |
| `Store.PlayerStore.DoInsert` | src/icp_rust_boilerplate_backend/src/lib.rs:152-154 | stores the record under its own id, replacing any previous one, and leaves the counter alone |
| `Store.PlayerStore.AddPlayer` | src/icp_rust_boilerplate_backend/src/lib.rs:89-114 | the new id is the counter's previous value, which no stored record used; the counter advances by exactly 1; the record has score 0, secret 0, 7 attempts, created_at now and no updated_at; the answer has an empty clue; the invariant is kept |
| `Store.PlayerStore.UpdateScore` | src/icp_rust_boilerplate_backend/src/lib.rs:118-137 | on a stored id, sets the score and updated_at and changes no other field or key; on a missing id, NotFound and the store unchanged |
| `Store.PlayerStore.DeletePlayer` | src/icp_rust_boilerplate_backend/src/lib.rs:142-148 | on a stored id, returns the whole prior record, secret included, and removes only that key; on a missing id, NotFound and the store unchanged; afterwards the id is absent |
| `Store.PlayerStore.PlayGame` | src/icp_rust_boilerplate_backend/src/lib.rs:167-223 | on a missing id, NotFound and the store unchanged; on game over, the game-over error and the store unchanged; otherwise the record computed by `Game.Step` is stored and its view returned with the clue; the counter and the invariant are kept |

## Left out

- The Candid encoding of stored records and the 1024-byte size bound: the stored value is the logical `Player`.
- The memory manager, the stable map and the counter cell: they become the two fields of one `PlayerStore` object. Durability across restarts is not modelled.
- `time()`: it becomes a `now` parameter, one value per call. The clock does not advance during one call. Only `now % 101` is modelled, with no claim about how secrets are distributed.
- Traps: the `.expect`/`.unwrap()` failures of the storage layer are not modelled.
- `Store.PlayerStore.AddPlayer`: requires the counter to be below the largest `u64`, instead of modelling the overflow of `counter + 1`.
- `Store.PlayerStore.PlayGame`: requires that a win has room for ten more points (`Game.ScoreFits`), instead of modelling the overflow of `score += 10`; `Game.Step` and `Game.StepWithReset` require the same.
- The error and clue message texts built with `format!`: errors carry the id and a cause tag. Clues are an enumeration whose `Text` gives the fixed messages.
- The RPC attributes and the Candid interface export.

## Findings

| source | as written | input that shows it | evidently intended | confidence | as-written member | corrected member |
|---|---|---|---|---|---|---|
| src/icp_rust_boilerplate_backend/src/lib.rs:176-183 | on game over, the reset of attempts, secret and updated_at is made to a local copy, and the call returns before the write at line 202 | a stored player with secret 5 and 0 attempts: every later `play_game` call answers game over and the record never changes | the reset is stored, so the next call starts a new round of 7 attempts | high; not executed | `Game.ExhaustedIsStuck` | `Game.StepWithReset` |

The store keeps the behaviour as written, so that `Store.PlayerStore.PlayGame` describes the
backend as it is. `Game.StepWithReset` and `Game.ResetStartsNewRound` state the intended
step and prove that it ends the deadlock.
