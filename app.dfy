/**
 * The application state of the score tracker (src/App.tsx): the game phase
 * and the roster of players, with the pure folds that build a roster and
 * add points to one player, and the handlers that commit them.
 *
 * The record id and timestamp, which the application takes from the clock
 * and a random number, are parameters here.
 */
module App {
  import opened Types
  import JsNumbers

  /** Every category at zero. */
  function EmptyBreakdown(): (b: Breakdown)
    ensures forall t :: b.Get(t) == 0
    ensures b.Total() == 0
  {
    Breakdown(0, 0, 0, 0, 0)
  }

  /** `Math.max(0, v)`. */
  function Clamp(v: int): (r: int)
    ensures r >= 0 && r >= v && (r == 0 || r == v)
  {
    if v < 0 then 0 else v
  }

  /** A player's derived state is consistent: no category below zero and
      the score is the sum of the categories. */
  predicate ValidPlayer(p: Player) {
    p.breakdown.NonNegative() && p.score == p.breakdown.Total()
  }

  /** A roster is consistent: every player is, and no two share an id. */
  predicate ValidRoster(ps: seq<Player>) {
    (forall i :: 0 <= i < |ps| ==> ValidPlayer(ps[i])) &&
    (forall i, j :: 0 <= i < j < |ps| ==> ps[i].id != ps[j].id)
  }

  /** The placeholder name of the player at position i: "玩家 " and i + 1. */
  function PlayerName(i: nat): string {
    "玩家 " + JsNumbers.NatToString(i + 1)
  }

  function NewPlayer(i: nat): Player
    requires i < |Palette|
  {
    Player(i + 1, PlayerName(i), 0, Palette[i], EmptyBreakdown(), [])
  }

  /** The roster for `count` players: ids 1..count, placeholder names,
      colours taken from the palette by position, nothing scored. */
  function NewRoster(count: nat): (r: seq<Player>)
    requires count <= |Palette|
    ensures |r| == count
    ensures forall i :: 0 <= i < count ==>
      r[i].id == i + 1 && r[i].name == PlayerName(i) && r[i].color == Palette[i] &&
      r[i].score == 0 && (forall t :: r[i].breakdown.Get(t) == 0) && r[i].history == []
    ensures forall i, j :: 0 <= i < j < count ==> r[i].color != r[j].color
    ensures ValidRoster(r)
  {
    seq(count, i requires 0 <= i < count => NewPlayer(i))
  }

  /** One player after `points` are added to category `t`: the category
      becomes max(0, old + points), the score is recomputed from the
      categories and one record is appended to the history. */
  function AddToPlayer(p: Player, points: int, t: ScoreType, recordId: string, now: int): (q: Player)
    ensures q.breakdown.Get(t) == Clamp(p.breakdown.Get(t) + points)
    ensures forall u :: u != t ==> q.breakdown.Get(u) == p.breakdown.Get(u)
    ensures q.score == q.breakdown.Total()
    ensures |q.history| == |p.history| + 1 && q.history[..|p.history|] == p.history
    ensures q.history[|p.history|] == ScoreRecord(recordId, now, Score(t), points)
    ensures q.id == p.id && q.name == p.name && q.color == p.color
    ensures p.breakdown.NonNegative() ==> ValidPlayer(q)
  {
    var b := p.breakdown.With(t, Clamp(p.breakdown.Get(t) + points));
    var r := ScoreRecord(recordId, now, Score(t), points);
    assert (p.history + [r])[..|p.history|] == p.history;
    p.(score := b.Total(), breakdown := b, history := p.history + [r])
  }

  /** The roster after `points` are added to category `t` of the player
      with id `playerId`: that player changes as `AddToPlayer` says, every
      other player is left as it was, an unknown id changes nothing, and a
      consistent roster stays consistent. */
  function AddScoreTo(players: seq<Player>, playerId: int, points: int, t: ScoreType,
                      recordId: string, now: int): (r: seq<Player>)
    ensures |r| == |players|
    ensures forall i :: 0 <= i < |players| && players[i].id != playerId ==> r[i] == players[i]
    ensures forall i :: 0 <= i < |players| && players[i].id == playerId ==>
      r[i] == AddToPlayer(players[i], points, t, recordId, now)
    ensures (forall i :: 0 <= i < |players| ==> players[i].id != playerId) ==> r == players
    ensures ValidRoster(players) ==> ValidRoster(r)
  {
    seq(|players|, i requires 0 <= i < |players| =>
      if players[i].id != playerId then players[i]
      else AddToPlayer(players[i], points, t, recordId, now))
  }

  /** Clamping happens at each addition, so the order of additions matters:
      a category at 3 that receives -10 and then +5 ends at 5, not at -2. */
  lemma ClampIsOrderDependent(p: Player, rid1: string, rid2: string, now1: int, now2: int)
    requires p.breakdown.Get(Castle) == 3
    ensures AddToPlayer(AddToPlayer(p, -10, Castle, rid1, now1), 5, Castle, rid2, now2).breakdown.Get(Castle) == 5
    ensures AddToPlayer(AddToPlayer(p, 5, Castle, rid1, now1), -10, Castle, rid2, now2).breakdown.Get(Castle) == 0
  {
  }

  /** The application's state: which screen is shown and the players. */
  class AppState {
    var gameState: GameState
    var players: seq<Player>

    ghost predicate Valid()
      reads this
    {
      ValidRoster(players)
    }

    constructor ()
      ensures gameState == Setup && players == []
      ensures Valid()
    {
      gameState := Setup;
      players := [];
    }

    /** The player count was chosen: a fresh roster, and play begins. */
    method SelectPlayerCount(count: nat)
      requires count <= |Palette|
      modifies this
      ensures players == NewRoster(count) && gameState == Playing
      ensures Valid()
    {
      players := NewRoster(count);
      gameState := Playing;
    }

    /** Back to the setup screen; the players are kept. */
    method Reset()
      requires Valid()
      modifies this
      ensures gameState == Setup && players == old(players)
      ensures Valid()
    {
      gameState := Setup;
    }

    /** Add `points` to category `t` of player `playerId`. */
    method AddScore(playerId: int, points: int, t: ScoreType, recordId: string, now: int)
      requires Valid()
      modifies this
      ensures players == AddScoreTo(old(players), playerId, points, t, recordId, now)
      ensures gameState == old(gameState)
      ensures Valid()
    {
      players := AddScoreTo(players, playerId, points, t, recordId, now);
    }
  }
}
