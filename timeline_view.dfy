/**
 * The timeline component's state and its handlers. Each piece of React state
 * is a field; each handler is a method that updates the fields as its
 * setters do, including the effect that re-derives the shown movements when
 * the index or the movement list changed. The playback part is specified by the `Playback` state
 * machine, the drag part by the functions below.
 *
 * The map configuration stays at its initial value: the debug panel's inputs
 * that would change it are not part of this model.
 */
module Timeline {
  import opened Wrappers
  import opened Geo
  import opened MlbApi
  import opened Movements
  import StableSort
  import Positions
  import Playback

  /** The debugging and dragging state, everything except playback. */
  datatype Tools = Tools(
    debugMode: bool,
    hoveredCoordinates: Option<LatLng>,
    draggedTeam: Option<int>,
    isDragging: bool,
    customPositions: map<int, Point>,
    moveListeners: seq<int>,
    dragRef: bool)

  /**
   * Every window `mousemove` listener still attached writes the same point
   * under the club id it captured; other overrides are kept.
   */
  function MovedTo(custom: map<int, Point>, ids: seq<int>, p: Point): (r: map<int, Point>)
    ensures r.Keys == custom.Keys + (set id | id in ids)
    ensures forall id :: id in ids ==> r[id] == p
    ensures forall id :: id in custom && id !in ids ==> r[id] == custom[id]
  {
    map id | id in custom.Keys + (set i | i in ids) :: if id in ids then p else custom[id]
  }

  /** A club drops where the pointer was released; other clubs stay where they were. */
  lemma MoveRepositions(team: Team, other: Team, custom: map<int, Point>, ids: seq<int>, p: Point)
    requires team.id in ids && other.id !in ids
    ensures Positions.TeamPosition(team, DefaultConfig, MovedTo(custom, ids, p)) == p
    ensures Positions.TeamPosition(other, DefaultConfig, MovedTo(custom, ids, p))
         == Positions.TeamPosition(other, DefaultConfig, custom)
  {
  }

  class TimelineView {
    var isPlaying: bool
    var currentTimeIndex: int
    var playerMovements: seq<Movement>
    var activeMovements: seq<Movement>
    var debugMode: bool
    var hoveredCoordinates: Option<LatLng>
    var draggedTeam: Option<int>
    var isDragging: bool
    var customPositions: map<int, Point>
    /** The captured club ids of the window `mousemove` listeners, oldest first (each has its `mouseup` partner). */
    var moveListeners: seq<int>
    /** Whether `dragHandlersRef` holds the newest listener pair (it is `{}` otherwise). */
    var dragRef: bool

    function Snapshot(): Playback.State
      reads this
    {
      Playback.State(isPlaying, currentTimeIndex, playerMovements, activeMovements)
    }

    function Debug(): Tools
      reads this
    {
      Tools(debugMode, hoveredCoordinates, draggedTeam, isDragging, customPositions, moveListeners, dragRef)
    }

    constructor ()
      ensures Snapshot() == Playback.Initial
      ensures Debug() == Tools(false, None, None, false, map[], [], false)
    {
      isPlaying := false;
      currentTimeIndex := 0;
      playerMovements := [];
      activeMovements := [];
      debugMode := false;
      hoveredCoordinates := None;
      draggedTeam := None;
      isDragging := false;
      customPositions := map[];
      moveListeners := [];
      dragRef := false;
    }

    // ---------------------------------------------------------- playback

    /** The effect that shows the movements up to the index. */
    method SyncActive()
      modifies this
      ensures Snapshot() == Playback.Sync(old(Snapshot()))
      ensures Debug() == old(Debug())
    {
      if 0 <= currentTimeIndex < |playerMovements| {
        activeMovements := playerMovements[..currentTimeIndex + 1];
      }
    }

    /**
     * The transactions effect: build one movement per transaction, sort them
     * by date (stably), store the list and re-derive the shown movements.
     */
    method ProcessTransactions(teams: seq<Team>, ts: seq<Transaction>) returns (ghost perm: seq<nat>)
      modifies this
      ensures |ts| == 0 ==> Snapshot() == old(Snapshot())
      ensures |ts| > 0 ==> StableSort.StablySorted(playerMovements, ToMovements(teams, ts), MovementDate, perm)
      ensures |ts| > 0 ==> Snapshot() == Playback.Load(old(Snapshot()), playerMovements)
      ensures Debug() == old(Debug())
    {
      perm := [];
      if |ts| == 0 {
        return;
      }
      var ms := ToMovements(teams, ts);
      var a := new Movement[|ms|](i requires 0 <= i < |ms| => ms[i]);
      assert a[..] == ms;
      perm := StableSort.SortBy(a, MovementDate);
      playerMovements := a[..];
      SyncActive();
    }

    /** One interval callback and the effect it triggers. */
    method Tick()
      requires Playback.Ticking(Snapshot())
      modifies this
      ensures Snapshot() == Playback.Advance(old(Snapshot()))
      ensures Debug() == old(Debug())
    {
      var before := currentTimeIndex;
      if currentTimeIndex >= |playerMovements| - 1 {
        isPlaying := false;
      } else {
        currentTimeIndex := currentTimeIndex + 1;
      }
      if currentTimeIndex != before {
        SyncActive();
      }
    }

    method HandlePlayPause()
      modifies this
      ensures Snapshot() == Playback.Settle(old(Snapshot()), Playback.PlayPause(old(Snapshot())))
      ensures Debug() == old(Debug())
    {
      var before := currentTimeIndex;
      if isPlaying {
        isPlaying := false;
      } else {
        isPlaying := true;
        if currentTimeIndex >= |playerMovements| - 1 {
          currentTimeIndex := 0;
        }
      }
      if currentTimeIndex != before {
        SyncActive();
      }
    }

    method HandleReset()
      modifies this
      ensures Snapshot() == Playback.Settle(old(Snapshot()), Playback.Reset(old(Snapshot())))
      ensures Debug() == old(Debug())
    {
      var before := currentTimeIndex;
      isPlaying := false;
      currentTimeIndex := 0;
      activeMovements := [];
      if currentTimeIndex != before {
        SyncActive();
      }
    }

    method HandleSkip()
      modifies this
      ensures Snapshot() == Playback.Settle(old(Snapshot()), Playback.Skip(old(Snapshot())))
      ensures Debug() == old(Debug())
    {
      var before := currentTimeIndex;
      currentTimeIndex := |playerMovements| - 1;
      isPlaying := false;
      if currentTimeIndex != before {
        SyncActive();
      }
    }

    // ---------------------------------------------------------- debugging

    /** The debug button. */
    method ToggleDebug()
      modifies this
      ensures debugMode == !old(debugMode)
      ensures Debug() == old(Debug()).(debugMode := debugMode)
      ensures Snapshot() == old(Snapshot())
    {
      debugMode := !debugMode;
    }

    /** A click on the map, at `p` relative to the map container, shows its coordinates in debug mode. */
    method HandleMapClick(p: Point)
      modifies this
      ensures old(debugMode) ==> hoveredCoordinates == Some(Unproject(DefaultConfig, p))
      ensures old(debugMode) ==> Debug() == old(Debug()).(hoveredCoordinates := hoveredCoordinates)
      ensures !old(debugMode) ==> Debug() == old(Debug())
      ensures Snapshot() == old(Snapshot())
    {
      if !debugMode {
        return;
      }
      DefaultConfigInvertible();
      hoveredCoordinates := Some(Unproject(DefaultConfig, p));
    }

    /** Mouse down on a club node: in debug mode, attach a new listener pair for that club. */
    method HandleDragStart(teamId: int)
      modifies this
      ensures old(debugMode) ==> Debug() == old(Debug()).(isDragging := true, draggedTeam := Some(teamId),
                                                          moveListeners := old(moveListeners) + [teamId],
                                                          dragRef := true)
      ensures !old(debugMode) ==> Debug() == old(Debug())
      ensures Snapshot() == old(Snapshot())
    {
      if !debugMode {
        return;
      }
      isDragging := true;
      draggedTeam := Some(teamId);
      moveListeners := moveListeners + [teamId];
      dragRef := true;
    }

    /**
     * A window `mousemove` at `p` relative to the map background, or `None`
     * when that element is not found: every attached listener moves its club.
     */
    method WindowMouseMove(p: Option<Point>)
      modifies this
      ensures p.Some? ==> Debug() == old(Debug()).(customPositions := MovedTo(old(customPositions), moveListeners, p.value))
      ensures p.None? ==> Debug() == old(Debug())
      ensures Snapshot() == old(Snapshot())
    {
      if p.Some? {
        customPositions := MovedTo(customPositions, moveListeners, p.value);
      }
    }

    /**
     * A window `mouseup`: the attached `mouseup` listeners end the drag, and
     * the first of them detaches the pair the ref holds (the newest one).
     */
    method WindowMouseUp()
      modifies this
      ensures |old(moveListeners)| == 0 ==> Debug() == old(Debug())
      ensures |old(moveListeners)| > 0 ==>
                Debug() == old(Debug()).(isDragging := false, draggedTeam := None, dragRef := false,
                                         moveListeners := if old(dragRef) then old(moveListeners)[..|old(moveListeners)| - 1]
                                                          else old(moveListeners))
      ensures Snapshot() == old(Snapshot())
    {
      if |moveListeners| == 0 {
        return;
      }
      isDragging := false;
      draggedTeam := None;
      if dragRef {
        moveListeners := moveListeners[..|moveListeners| - 1];
      }
      dragRef := false;
    }

    /** `handleDrag`: moves the dragged club to `p`, ignoring club id 0 as JavaScript treats it as false. */
    method HandleDrag(p: Point)
      modifies this
      ensures old(debugMode) && old(draggedTeam).Some? && old(draggedTeam).value != 0 ==>
                Debug() == old(Debug()).(customPositions := old(customPositions)[old(draggedTeam).value := p])
      ensures !(old(debugMode) && old(draggedTeam).Some? && old(draggedTeam).value != 0) ==> Debug() == old(Debug())
      ensures Snapshot() == old(Snapshot())
    {
      if !debugMode || draggedTeam.None? || draggedTeam.value == 0 {
        return;
      }
      customPositions := customPositions[draggedTeam.value := p];
    }

    method HandleDragEnd()
      modifies this
      ensures old(debugMode) ==> Debug() == old(Debug()).(draggedTeam := None, isDragging := false)
      ensures !old(debugMode) ==> Debug() == old(Debug())
      ensures Snapshot() == old(Snapshot())
    {
      if !debugMode {
        return;
      }
      draggedTeam := None;
      isDragging := false;
    }

    method ResetCustomPositions()
      modifies this
      ensures Debug() == old(Debug()).(customPositions := map[])
      ensures Snapshot() == old(Snapshot())
    {
      customPositions := map[];
    }

    // ---------------------------------------------------------- derived views

    /** Where a club node is drawn. */
    function Position(team: Team): Point
      reads this
    {
      DefaultConfigInvertible();
      Positions.TeamPosition(team, DefaultConfig, customPositions)
    }

    /** The list the export button logs. */
    function Export(teams: seq<Team>): seq<Positions.ExportEntry>
      reads this
    {
      DefaultConfigInvertible();
      Positions.ExportCustomPositions(teams, DefaultConfig, customPositions)
    }

    /** The flying headshot over the map. */
    function CurrentFlight(): Option<Flight>
      reads this
    {
      DefaultConfigInvertible();
      FlightOf(activeMovements, DefaultConfig, customPositions)
    }
  }

  // -------------------------------------------------------------- scenarios

  /**
   * Dragging a club in debug mode: press on it, move the pointer to `p` and
   * release. The club is drawn at `p`, the export lists exactly that club with
   * `p` as its screen position, and no listener stays attached.
   */
  method DragOneClub(team: Team, teams: seq<Team>, p: Point)
    returns (at: Point, exported: seq<Positions.ExportEntry>, listeners: seq<int>)
    ensures at == p
    ensures |exported| == 1 && exported[0].teamId == team.id && exported[0].screenPosition == p
    ensures listeners == []
  {
    var v := new TimelineView();
    v.ToggleDebug();
    v.HandleDragStart(team.id);
    v.WindowMouseMove(Some(p));
    v.WindowMouseUp();
    assert v.customPositions == map[team.id := p];
    at := v.Position(team);
    exported := v.Export(teams);
    listeners := v.moveListeners;
  }

  /**
   * Loading two trades of different dates and pressing play: the earlier
   * trade is shown as soon as the list loads, one tick shows both, and the next tick stops.
   */
  method PlayTwoTrades(teams: seq<Team>, t1: Transaction, t2: Transaction)
    returns (first: seq<Movement>, both: seq<Movement>, playing: bool)
    requires t1.date > t2.date
    ensures |first| == 1 && first[0].id == t2.id
    ensures |both| == 2 && both[0].id == t2.id && both[1].id == t1.id
    ensures !playing
  {
    var v := new TimelineView();
    ghost var perm := v.ProcessTransactions(teams, [t1, t2]);
    ghost var ms := v.playerMovements;
    SortedByDate(ms, ToMovements(teams, [t1, t2]), perm);
    assert perm[0] == 1 && perm[1] == 0;
    assert ms[0].id == t2.id && ms[1].id == t1.id;
    Playback.PlayTwo(ms);
    first := v.activeMovements;
    v.HandlePlayPause();
    v.Tick();
    v.Tick();
    both := v.activeMovements;
    playing := v.isPlaying;
  }
}
