/**
 * The timeline's player movements: one per trade, with the clubs resolved
 * against the roster by name, and the per-club and per-frame views the map
 * derives from the movements shown so far.
 */
module Movements {
  import opened Wrappers
  import opened JsText
  import opened MlbApi
  import opened Geo
  import Seqs
  import StableSort
  import Positions

  /** `PlayerMovement`: a trade with its clubs resolved (or `None` for `null`). */
  datatype Movement = Movement(
    id: string,
    playerName: string,
    playerId: string,
    fromTeam: Option<Team>,
    toTeam: Option<Team>,
    date: int,
    description: string)

  /** `teams[i]` is the first roster entry named `name`. */
  predicate FirstNamed(teams: seq<Team>, name: Option<string>, i: int) {
    0 <= i < |teams| && name == Some(teams[i].name) &&
    forall j :: 0 <= j < i ==> name != Some(teams[j].name)
  }

  /** `teams.find(team => team.name === name) || null`. */
  function TeamNamed(teams: seq<Team>, name: Option<string>): (r: Option<Team>)
    ensures r.Some? ==> exists i :: FirstNamed(teams, name, i) && teams[i] == r.value
    ensures r.None? <==> forall i :: 0 <= i < |teams| ==> name != Some(teams[i].name)
  {
    Seqs.Find(teams, (team: Team) => Some(team.name) == name)
  }

  /** The movement built for one transaction. */
  function ToMovement(teams: seq<Team>, t: Transaction): (m: Movement)
    ensures m.id == t.id && m.date == t.date && m.description == t.description
    ensures m.playerName != ""
    ensures Truthy(t.playerName) ==> m.playerName == t.playerName.value
    ensures !Truthy(t.playerName) ==> m.playerName == "Unknown Player"
    ensures Truthy(t.playerId) <==> m.playerId != ""
    ensures Truthy(t.playerId) ==> m.playerId == t.playerId.value
    ensures m.fromTeam.Some? ==> exists i :: FirstNamed(teams, t.fromTeam, i) && teams[i] == m.fromTeam.value
    ensures m.toTeam.Some? ==> exists i :: FirstNamed(teams, t.toTeam, i) && teams[i] == m.toTeam.value
    ensures m.fromTeam.None? <==> forall i :: 0 <= i < |teams| ==> t.fromTeam != Some(teams[i].name)
    ensures m.toTeam.None? <==> forall i :: 0 <= i < |teams| ==> t.toTeam != Some(teams[i].name)
  {
    Movement(t.id, Or(t.playerName, "Unknown Player"), Or(t.playerId, ""),
             TeamNamed(teams, t.fromTeam), TeamNamed(teams, t.toTeam), t.date, t.description)
  }

  /** `transactions.map(...)`, before the sort. */
  function ToMovements(teams: seq<Team>, ts: seq<Transaction>): (ms: seq<Movement>)
    ensures |ms| == |ts|
    ensures forall i :: 0 <= i < |ts| ==> ms[i] == ToMovement(teams, ts[i])
  {
    seq(|ts|, i requires 0 <= i < |ts| => ToMovement(teams, ts[i]))
  }

  /** The sort key: the movement's timestamp, earliest first. */
  function MovementDate(m: Movement): int {
    m.date
  }

  /** The sorted movement list is in date order. */
  lemma {:induction false} SortedByDate(r: seq<Movement>, s: seq<Movement>, perm: seq<nat>)
    requires StableSort.StablySorted(r, s, MovementDate, perm)
    ensures forall k, l :: 0 <= k < l < |r| ==> r[k].date <= r[l].date
    ensures forall k :: 0 <= k < |r| ==> r[k] in s
  {
    forall k, l | 0 <= k < l < |r|
      ensures r[k].date <= r[l].date
    {
      assert StableSort.Precedes(MovementDate, r[k], perm[k], r[l], perm[l]);
    }
    forall k | 0 <= k < |r|
      ensures r[k] in s
    {
      assert r[k] == s[perm[k]];
    }
  }

  /** `movement.fromTeam?.id === id || movement.toTeam?.id === id`. */
  predicate Involves(m: Movement, teamId: int) {
    (m.fromTeam.Some? && m.fromTeam.value.id == teamId) || (m.toTeam.Some? && m.toTeam.value.id == teamId)
  }

  /** `movement.toTeam?.id === id`. */
  predicate Arrives(m: Movement, teamId: int) {
    m.toTeam.Some? && m.toTeam.value.id == teamId
  }

  /** Whether a club node is drawn as active. */
  function HasActiveMovements(active: seq<Movement>, team: Team): (r: bool)
    ensures r <==> exists i :: 0 <= i < |active| && Involves(active[i], team.id)
  {
    Seqs.Any(active, (m: Movement) => Involves(m, team.id))
  }

  /** The players listed under a club node: the shown movements into that club. */
  function TeamPlayers(active: seq<Movement>, team: Team): (r: seq<Movement>)
    ensures forall m :: m in r <==> m in active && Arrives(m, team.id)
    ensures Seqs.IsSubsequence(r, active)
    ensures forall m :: m in active ==> multiset(r)[m] == if Arrives(m, team.id) then multiset(active)[m] else 0
  {
    Seqs.FilterCount(active, (m: Movement) => Arrives(m, team.id));
    Seqs.Filter(active, (m: Movement) => Arrives(m, team.id))
  }

  /** A club listing a player is drawn as active; an inactive club lists nobody. */
  lemma PlayersImplyActive(active: seq<Movement>, team: Team)
    ensures |TeamPlayers(active, team)| > 0 ==> HasActiveMovements(active, team)
    ensures !HasActiveMovements(active, team) ==> TeamPlayers(active, team) == []
  {
    var r := TeamPlayers(active, team);
    if |r| > 0 {
      assert r[0] in r;
      var i :| 0 <= i < |active| && active[i] == r[0];
      assert Involves(active[i], team.id);
    }
  }

  /**
   * Showing more of the timeline only appends to a club's list: the players
   * listed for a prefix of the movements are a prefix of those listed later.
   */
  lemma PlayersGrowByAppending(active: seq<Movement>, more: seq<Movement>, team: Team)
    ensures TeamPlayers(active + more, team) == TeamPlayers(active, team) + TeamPlayers(more, team)
  {
    Seqs.FilterAppend(active, more, (m: Movement) => Arrives(m, team.id));
  }

  /** The flying headshot: the latest shown movement and its two endpoints. */
  datatype Flight = Flight(movement: Movement, from: Point, to: Point, headshot: string)

  /**
   * The animation drawn over the map: only the last shown movement flies,
   * and only when both of its clubs were resolved.
   */
  function FlightOf(active: seq<Movement>, c: MapConfig, custom: map<int, Point>): (r: Option<Flight>)
    requires Projectable(c)
    ensures r.Some? <==> |active| > 0 && active[|active| - 1].fromTeam.Some? && active[|active| - 1].toTeam.Some?
    ensures r.Some? ==> r.value.movement == active[|active| - 1]
    ensures r.Some? ==> r.value.from == Positions.TeamPosition(r.value.movement.fromTeam.value, c, custom)
    ensures r.Some? ==> r.value.to == Positions.TeamPosition(r.value.movement.toTeam.value, c, custom)
    ensures r.Some? ==> r.value.headshot == PlayerHeadshot(r.value.movement.playerId)
  {
    if |active| == 0 then None
    else
      var m := active[|active| - 1];
      if m.fromTeam.None? || m.toTeam.None? then None
      else
        Some(Flight(m, Positions.TeamPosition(m.fromTeam.value, c, custom),
                    Positions.TeamPosition(m.toTeam.value, c, custom), PlayerHeadshot(m.playerId)))
  }
}
