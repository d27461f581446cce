/**
 * The club card of the grid view: the players traded to and from the club,
 * and the image addresses it shows for them and for the club's logo.
 */
module TeamCircle {
  import opened Wrappers
  import opened JsText
  import opened MlbApi
  import Seqs
  import Visualizer

  /** `t.toTeam === team.name && t.playerId`. */
  predicate IncomingTo(t: Transaction, team: Team) {
    t.toTeam == Some(team.name) && Truthy(t.playerId)
  }

  /** `t.fromTeam === team.name && t.playerId`. */
  predicate OutgoingFrom(t: Transaction, team: Team) {
    t.fromTeam == Some(team.name) && Truthy(t.playerId)
  }

  /** The players traded to the club, in list order. */
  function IncomingPlayers(team: Team, ts: seq<Transaction>): (r: seq<Transaction>)
    ensures forall t :: t in r <==> t in ts && IncomingTo(t, team)
    ensures Seqs.IsSubsequence(r, ts)
    ensures forall t :: t in ts ==> multiset(r)[t] == if IncomingTo(t, team) then multiset(ts)[t] else 0
  {
    Seqs.FilterCount(ts, (t: Transaction) => IncomingTo(t, team));
    Seqs.Filter(ts, (t: Transaction) => IncomingTo(t, team))
  }

  /** The players traded away by the club, in list order. */
  function OutgoingPlayers(team: Team, ts: seq<Transaction>): (r: seq<Transaction>)
    ensures forall t :: t in r <==> t in ts && OutgoingFrom(t, team)
    ensures Seqs.IsSubsequence(r, ts)
    ensures forall t :: t in ts ==> multiset(r)[t] == if OutgoingFrom(t, team) then multiset(ts)[t] else 0
  {
    Seqs.FilterCount(ts, (t: Transaction) => OutgoingFrom(t, team));
    Seqs.Filter(ts, (t: Transaction) => OutgoingFrom(t, team))
  }

  /** A transaction without a player id is drawn on no card, however its clubs read. */
  lemma NoPlayerNoBadge(team: Team, ts: seq<Transaction>, t: Transaction)
    requires !Truthy(t.playerId)
    ensures t !in IncomingPlayers(team, ts) && t !in OutgoingPlayers(team, ts)
  {
  }

  /**
   * Every parsed trade is drawn on the card of the club it went to and on the
   * card of the club it came from, since the parser always sets a player id.
   */
  lemma ParsedTradesDrawn(team: Team, rs: seq<RawTransaction>, t: Transaction)
    requires t in Parsed(rs)
    ensures t.toTeam == Some(team.name) ==> t in IncomingPlayers(team, Parsed(rs))
    ensures t.fromTeam == Some(team.name) ==> t in OutgoingPlayers(team, Parsed(rs))
  {
    ParsedMembers(rs);
  }

  /**
   * A card's players are among the trades listed when its club is selected,
   * provided no earlier roster entry shares the club's id and the id is not 0.
   */
  lemma CardWithinSelection(teams: seq<Team>, i: int, ts: seq<Transaction>)
    requires 0 <= i < |teams| && teams[i].id != 0
    requires forall j :: 0 <= j < i ==> teams[j].id != teams[i].id
    ensures var shown := Visualizer.FilteredTransactions(teams, ts, Some(teams[i].id));
            (forall t :: t in IncomingPlayers(teams[i], ts) ==> t in shown) &&
            (forall t :: t in OutgoingPlayers(teams[i], ts) ==> t in shown)
  {
    var name := Visualizer.SelectedName(teams, teams[i].id);
    var k :| 0 <= k < |teams| && teams[k].id == teams[i].id && teams[k].name == name.value &&
             forall j :: 0 <= j < k ==> teams[j].id != teams[i].id;
    assert k == i;
  }

  /** The badge image: the cached URL, else the headshot address built from the raw player id. */
  function HeadshotSrc(t: Transaction): (u: string)
    ensures Truthy(t.headshotUrl) ==> u == t.headshotUrl.value
    ensures !Truthy(t.headshotUrl) ==> u == PlayerHeadshot(Interpolate(t.playerId))
  {
    Or(t.headshotUrl, HeadshotPrefix + Interpolate(t.playerId) + HeadshotSuffix)
  }

  /**
   * After preloading, a badge always points at the player's own headshot:
   * a reachable probe stored that address, and a failed one stored "",
   * which falls back to the same address.
   */
  lemma PreloadedBadgeIsHeadshot(cache: map<string, string>, ts: seq<Transaction>,
                                 reachable: string -> bool, i: int)
    requires 0 <= i < |ts| && Truthy(ts[i].playerId)
    ensures HeadshotSrc(AttachHeadshots(ts, WithProbes(cache, UniquePlayerIds(ts), reachable))[i])
         == PlayerHeadshot(ts[i].playerId.value)
  {
    PreloadAttachesProbes(cache, ts, reachable, i);
  }

  const PlayerPlaceholderPrefix: string := "https://via.placeholder.com/30x30?text="
  const LogoPlaceholderPrefix: string := "https://via.placeholder.com/80x80?text="

  /** `playerName?.charAt(0) || '?'`. */
  function Initial(playerName: Option<string>): (r: string)
    ensures |r| == 1
    ensures Truthy(playerName) ==> r[0] == playerName.value[0]
    ensures !Truthy(playerName) ==> r == "?"
  {
    if Truthy(playerName) then [playerName.value[0]] else "?"
  }

  /** The badge image shown when the headshot fails to load. */
  function PlayerPlaceholder(playerName: Option<string>): (u: string)
    ensures |u| == |PlayerPlaceholderPrefix| + 1 && u[..|PlayerPlaceholderPrefix|] == PlayerPlaceholderPrefix
    ensures u[|PlayerPlaceholderPrefix|] == (if Truthy(playerName) then playerName.value[0] else '?')
  {
    PlayerPlaceholderPrefix + Initial(playerName)
  }

  /** The logo image shown when the club's logo fails to load. */
  function LogoFallback(team: Team): (u: string)
    ensures |u| == |LogoPlaceholderPrefix| + |team.abbreviation|
    ensures u[..|LogoPlaceholderPrefix|] == LogoPlaceholderPrefix
    ensures u[|LogoPlaceholderPrefix|..] == team.abbreviation
  {
    LogoPlaceholderPrefix + team.abbreviation
  }
}
