/**
 * Where each club is drawn: a calibration override if the user dragged it,
 * otherwise its ballpark's coordinates projected onto the map, otherwise a
 * fixed fallback point; and the export of the overrides as coordinates.
 */
module Positions {
  import opened Wrappers
  import opened Geo
  import opened JsText
  import MlbApi
  import Seqs

  /** A row of the ballpark table: club name and the park's coordinates. */
  datatype Stadium = Stadium(team: string, latitude: real, longitude: real)

  const Stadiums: seq<Stadium> := [
    Stadium("Arizona Diamondbacks", 33.44527778, -112.0669444),
    Stadium("Atlanta Braves", 33.8906, -84.4678),
    Stadium("Baltimore Orioles", 39.28388889, -76.62166667),
    Stadium("Boston Red Sox", 42.34638889, -71.0975),
    Stadium("Chicago Cubs", 41.94833333, -87.65555556),
    Stadium("Chicago White Sox", 41.83, -87.63388889),
    Stadium("Cincinnati Reds", 39.0975, -84.50666667),
    Stadium("Cleveland Guardians", 41.49583333, -81.68527778),
    Stadium("Colorado Rockies", 39.75611111, -104.9941667),
    Stadium("Detroit Tigers", 42.33916667, -83.04861111),
    Stadium("Houston Astros", 29.75694444, -95.35555556),
    Stadium("Kansas City Royals", 39.05138889, -94.48055556),
    Stadium("Los Angeles Angels", 33.80027778, -117.8827778),
    Stadium("Los Angeles Dodgers", 34.07361111, -118.24),
    Stadium("Miami Marlins", 25.77805556, -80.21972222),
    Stadium("Milwaukee Brewers", 43.02833333, -87.97111111),
    Stadium("Minnesota Twins", 44.98166667, -93.27833333),
    Stadium("New York Mets", 40.75694444, -73.84583333),
    Stadium("New York Yankees", 40.82916667, -73.92638889),
    Stadium("Oakland Athletics", 37.75166667, -122.2005556),
    Stadium("Philadelphia Phillies", 39.90583333, -75.16638889),
    Stadium("Pittsburgh Pirates", 40.44694444, -80.00583333),
    Stadium("San Diego Padres", 32.70729983, -117.1565998),
    Stadium("San Francisco Giants", 37.77833333, -122.3894444),
    Stadium("Seattle Mariners", 47.59138889, -122.3325),
    Stadium("St. Louis Cardinals", 38.6225, -90.19305556),
    Stadium("Tampa Bay Rays", 27.76833333, -82.65333333),
    Stadium("Texas Rangers", 32.7475, -97.08277778),
    Stadium("Toronto Blue Jays", 43.64138889, -79.38916667),
    Stadium("Washington Nationals", 38.87277778, -77.0075)
  ]

  /** Where a club without a ballpark entry is drawn. */
  const FallbackPosition: Point := Point(400.0, 300.0)

  /** The ballpark row for a club name, matched exactly (the first such row). */
  function FindStadium(name: string): (r: Option<Stadium>)
    ensures r.Some? ==> r.value in Stadiums && r.value.team == name
    ensures r.None? <==> forall i :: 0 <= i < |Stadiums| ==> Stadiums[i].team != name
  {
    Seqs.Find(Stadiums, (s: Stadium) => s.team == name)
  }

  /** What `getTeamPosition` needs to avoid a division by zero. */
  predicate Resolvable(team: MlbApi.Team, c: MapConfig, custom: map<int, Point>) {
    team.id in custom || FindStadium(team.name).None? || Projectable(c)
  }

  /** `getTeamPosition` (its constant `division` field omitted). */
  function TeamPosition(team: MlbApi.Team, c: MapConfig, custom: map<int, Point>): (p: Point)
    requires Resolvable(team, c, custom)
    ensures team.id in custom ==> p == custom[team.id]
    ensures team.id !in custom && FindStadium(team.name).None? ==> p == FallbackPosition
    ensures team.id !in custom && FindStadium(team.name).Some? ==>
              p == ScreenPosition(c, LatLng(FindStadium(team.name).value.latitude, FindStadium(team.name).value.longitude))
  {
    if team.id in custom then custom[team.id]
    else match FindStadium(team.name)
      case Some(s) => ScreenPosition(c, LatLng(s.latitude, s.longitude))
      case None => FallbackPosition
  }

  /**
   * The three sources of a position, in priority order: the override wins
   * whatever the table says; a club with a ballpark and no override sits at
   * the park's projection; any other club sits at the fallback point.
   */
  lemma TeamPositionSources(team: MlbApi.Team, c: MapConfig, custom: map<int, Point>)
    requires Resolvable(team, c, custom)
    ensures team.id in custom ==> TeamPosition(team, c, custom) == custom[team.id]
    ensures team.id !in custom && (exists i :: 0 <= i < |Stadiums| && Stadiums[i].team == team.name) ==>
              exists s :: s in Stadiums && s.team == team.name &&
                          TeamPosition(team, c, custom) == ScreenPosition(c, LatLng(s.latitude, s.longitude))
    ensures team.id !in custom && (forall i :: 0 <= i < |Stadiums| ==> Stadiums[i].team != team.name) ==>
              TeamPosition(team, c, custom) == FallbackPosition
  {
  }

  /**
   * Setting the override of one club (a drag move) puts that club exactly at
   * the new point and leaves every other club where it was.
   */
  lemma OverrideFrame(team: MlbApi.Team, c: MapConfig, custom: map<int, Point>, id: int, p: Point)
    requires Resolvable(team, c, custom)
    ensures Resolvable(team, c, custom[id := p])
    ensures team.id == id ==> TeamPosition(team, c, custom[id := p]) == p
    ensures team.id != id ==> TeamPosition(team, c, custom[id := p]) == TeamPosition(team, c, custom)
  {
  }

  /** With the overrides cleared, every club is back at its geographic position. */
  lemma ResetRestoresGeography(team: MlbApi.Team, c: MapConfig, custom: map<int, Point>)
    requires Projectable(c)
    ensures TeamPosition(team, c, map[]) == TeamPosition(team, c, custom - {team.id})
  {
  }

  // ---------------------------------------------------------------- export

  /** One line of the export: the club, its implied coordinates and the override itself. */
  datatype ExportEntry = ExportEntry(teamId: int, teamName: string, coordinates: LatLng, screenPosition: Point)

  /** `team?.name || 'Unknown'` for the club with the given id. */
  function TeamNameOf(teams: seq<MlbApi.Team>, id: int): (r: string)
    ensures r != ""
    ensures (forall i :: 0 <= i < |teams| ==> teams[i].id != id) ==> r == "Unknown"
    ensures forall i ::
              (0 <= i < |teams| && teams[i].id == id && teams[i].name != "" &&
               forall j :: 0 <= j < i ==> teams[j].id != id) ==> r == teams[i].name
    ensures forall i ::
              (0 <= i < |teams| && teams[i].id == id && teams[i].name == "" &&
               forall j :: 0 <= j < i ==> teams[j].id != id) ==> r == "Unknown"
  {
    match Seqs.Find(teams, (t: MlbApi.Team) => t.id == id)
    case Some(t) => Or(Some(t.name), "Unknown")
    case None => "Unknown"
  }

  /** The list `exportCustomPositions` logs. */
  function ExportCustomPositions(teams: seq<MlbApi.Team>, c: MapConfig, custom: map<int, Point>)
    : (r: seq<ExportEntry>)
    requires Unprojectable(c)
    ensures |r| == |custom|
    ensures forall i, j :: 0 <= i < j < |r| ==> r[i].teamId < r[j].teamId
    ensures forall i :: 0 <= i < |r| ==>
              && r[i].teamId in custom
              && r[i].screenPosition == custom[r[i].teamId]
              && r[i].coordinates == Unproject(c, custom[r[i].teamId])
              && r[i].teamName == TeamNameOf(teams, r[i].teamId)
  {
    var ids := Seqs.AscendingKeys(custom.Keys);
    seq(|ids|, i requires 0 <= i < |ids| =>
      ExportEntry(ids[i], TeamNameOf(teams, ids[i]), Unproject(c, custom[ids[i]]), custom[ids[i]]))
  }

  /** Every override appears in the export. */
  lemma ExportListsEveryOverride(teams: seq<MlbApi.Team>, c: MapConfig, custom: map<int, Point>, id: int)
    requires Unprojectable(c) && id in custom
    ensures exists i :: 0 <= i < |ExportCustomPositions(teams, c, custom)| &&
                        ExportCustomPositions(teams, c, custom)[i].teamId == id
  {
    var ids := Seqs.AscendingKeys(custom.Keys);
    var i :| 0 <= i < |ids| && ids[i] == id;
    assert ExportCustomPositions(teams, c, custom)[i].teamId == id;
  }

  /**
   * The export is a faithful calibration record: projecting an exported
   * coordinate puts the club exactly where the user dragged it.
   */
  lemma ExportRoundTrip(teams: seq<MlbApi.Team>, c: MapConfig, custom: map<int, Point>,
                        team: MlbApi.Team, i: nat)
    requires Projectable(c) && Unprojectable(c)
    requires i < |ExportCustomPositions(teams, c, custom)|
    requires team.id == ExportCustomPositions(teams, c, custom)[i].teamId
    ensures ScreenPosition(c, ExportCustomPositions(teams, c, custom)[i].coordinates)
            == TeamPosition(team, c, custom)
  {
    var e := ExportCustomPositions(teams, c, custom)[i];
    ScreenPositionUnproject(c, custom[team.id]);
  }
}
