/**
 * The top-level page: the roster, the trades newest first, and the club
 * selection that narrows the trade list.
 */
module Visualizer {
  import opened Wrappers
  import opened MlbApi
  import Seqs
  import StableSort

  /** Clicking a club selects it, or clears the selection when it was already selected. */
  function Toggled(selected: Option<int>, teamId: int): (r: Option<int>)
    ensures r == Some(teamId) <==> selected != Some(teamId)
    ensures r.None? <==> selected == Some(teamId)
  {
    if selected == Some(teamId) then None else Some(teamId)
  }

  /**
   * Clicking the same club twice restores the selection exactly when nothing
   * or that club was selected; with another club selected, the second click
   * leaves this one selected.
   */
  lemma ToggleTwice(selected: Option<int>, teamId: int)
    ensures Toggled(Toggled(selected, teamId), teamId) == selected <==>
            selected.None? || selected == Some(teamId)
    ensures selected.Some? && selected != Some(teamId) ==>
            Toggled(Toggled(selected, teamId), teamId) == None
  {
  }

  /** `if (selectedTeam)`: a selection counts only when it is a non-zero id. */
  predicate Selects(selected: Option<int>) {
    selected.Some? && selected.value != 0
  }

  /** `teams.find(t => t.id === id)?.name`: `None` when no club has that id. */
  function SelectedName(teams: seq<Team>, id: int): (r: Option<string>)
    ensures r.Some? <==> exists i :: 0 <= i < |teams| && teams[i].id == id
    ensures r.Some? ==> exists i :: 0 <= i < |teams| && teams[i].id == id && teams[i].name == r.value &&
                                    forall j :: 0 <= j < i ==> teams[j].id != id
  {
    match Seqs.Find(teams, (t: Team) => t.id == id)
    case None => None
    case Some(t) => Some(t.name)
  }

  /** `t.fromTeam === name || t.toTeam === name`, where an absent name equals an absent club. */
  predicate Touches(t: Transaction, name: Option<string>) {
    t.fromTeam == name || t.toTeam == name
  }

  /** `getFilteredTransactions`. */
  function FilteredTransactions(teams: seq<Team>, ts: seq<Transaction>, selected: Option<int>)
    : (r: seq<Transaction>)
    ensures !Selects(selected) ==> r == ts
    ensures Seqs.IsSubsequence(r, ts)
    ensures Selects(selected) ==>
              forall t :: t in r <==> t in ts && Touches(t, SelectedName(teams, selected.value))
    ensures Selects(selected) ==>
              forall t :: t in ts ==>
                multiset(r)[t] == if Touches(t, SelectedName(teams, selected.value)) then multiset(ts)[t] else 0
  {
    if Selects(selected) then
      var name := SelectedName(teams, selected.value);
      Seqs.FilterCount(ts, (t: Transaction) => Touches(t, name));
      Seqs.Filter(ts, (t: Transaction) => Touches(t, name))
    else
      Seqs.SubsequenceOfItself(ts);
      ts
  }

  /**
   * Selecting an id no club has keeps only trades with a missing club; the
   * parser produces those only from a feed club without a name, so when
   * every trade names both clubs the list is empty.
   */
  lemma UnknownSelection(teams: seq<Team>, ts: seq<Transaction>, id: int)
    requires id != 0 && forall i :: 0 <= i < |teams| ==> teams[i].id != id
    ensures forall t :: t in FilteredTransactions(teams, ts, Some(id)) <==>
                        t in ts && (t.fromTeam.None? || t.toTeam.None?)
    ensures (forall t :: t in ts ==> t.fromTeam.Some? && t.toTeam.Some?) ==>
              FilteredTransactions(teams, ts, Some(id)) == []
  {
    if forall t :: t in ts ==> t.fromTeam.Some? && t.toTeam.Some? {
      var name := SelectedName(teams, id);
      Seqs.FilterNone(ts, (t: Transaction) => Touches(t, name));
    }
  }

  /** The sort key of the newest-first order. */
  function NewestFirstKey(t: Transaction): int {
    -t.date
  }

  /** The stored list is newest first, and equal dates keep the feed's order. */
  lemma NewestFirst(r: seq<Transaction>, s: seq<Transaction>, perm: seq<nat>)
    requires StableSort.StablySorted(r, s, NewestFirstKey, perm)
    ensures forall k, l :: 0 <= k < l < |r| ==> r[k].date >= r[l].date
    ensures forall k, l :: 0 <= k < l < |r| && r[k].date == r[l].date ==> perm[k] < perm[l]
  {
    forall k, l | 0 <= k < l < |r|
      ensures r[k].date >= r[l].date
      ensures r[k].date == r[l].date ==> perm[k] < perm[l]
    {
      assert StableSort.Precedes(NewestFirstKey, r[k], perm[k], r[l], perm[l]);
    }
  }

  class App {
    var teams: seq<Team>
    var transactions: seq<Transaction>
    var loading: bool
    var selectedTeam: Option<int>

    constructor ()
      ensures teams == [] && transactions == [] && loading && selectedTeam == None
    {
      teams := [];
      transactions := [];
      loading := true;
      selectedTeam := None;
    }

    /**
     * The end of the initial fetch: store the roster and the trades sorted
     * newest first (the service reports its own failures as empty lists).
     */
    method ReceiveData(teamsData: seq<Team>, all: seq<Transaction>) returns (ghost perm: seq<nat>)
      modifies this
      ensures teams == teamsData && !loading && selectedTeam == old(selectedTeam)
      ensures StableSort.StablySorted(transactions, all, NewestFirstKey, perm)
    {
      teams := teamsData;
      var a := new Transaction[|all|](i requires 0 <= i < |all| => all[i]);
      assert a[..] == all;
      perm := StableSort.SortBy(a, NewestFirstKey);
      transactions := a[..];
      loading := false;
    }

    method HandleTeamClick(teamId: int)
      modifies this
      ensures selectedTeam == Toggled(old(selectedTeam), teamId)
      ensures teams == old(teams) && transactions == old(transactions) && loading == old(loading)
    {
      selectedTeam := if selectedTeam == Some(teamId) then None else Some(teamId);
    }

    function GetFilteredTransactions(): seq<Transaction>
      reads this
    {
      FilteredTransactions(teams, transactions, selectedTeam)
    }
  }
}
