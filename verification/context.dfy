// The station a simulation window shows: SimulationContext.java, with its widgets reduced to
// the state they display (the label's text and whether each of the two buttons is disabled).
module Context {
  import opened Common
  import opened Stations
  import opened Systems

  /**
   * The station index one step from `index` along a line of `n` stations, forwards (towards
   * the last station) or backwards, or `None` at the end the step would leave.
   */
  function Step(index: int, n: int, forward: bool): (r: Option<int>)
    requires 0 <= index < n
    ensures r.None? <==> (if forward then index == n - 1 else index == 0)
    ensures r.Some? ==> 0 <= r.value < n && r.value == (if forward then index + 1 else index - 1)
  {
    if forward then (if index == n - 1 then None else Some(index + 1))
    else (if index == 0 then None else Some(index - 1))
  }

  /** A step forwards and a step backwards undo each other. */
  lemma StepBack(index: int, n: int, forward: bool)
    requires 0 <= index < n && Step(index, n, forward).Some?
    ensures Step(Step(index, n, forward).value, n, !forward) == Some(index)
  {
  }

  /**
   * Which of the two buttons are disabled at station `index` of `n`, as (previous, next): the
   * first station disables the previous-station button only, even on a line of one station;
   * the last station disables the next-station button only; any other station neither.
   */
  function Buttons(index: int, n: int): (r: (bool, bool))
    ensures r.0 <==> index == 0
    ensures r.1 <==> index != 0 && index == n - 1
    ensures !(r.0 && r.1)
  {
    if index == 0 then (true, false)
    else if index == n - 1 then (false, true)
    else (false, false)
  }

  /**
   * A disabled button is one whose step goes nowhere, and on a line of two stations or more
   * an enabled button is one whose step moves. On a line of one station the next-station
   * button stays enabled although moving to the next station does nothing.
   */
  lemma ButtonsMatchSteps(index: int, n: int)
    requires 0 <= index < n
    ensures Buttons(index, n).0 <==> Step(index, n, false).None?
    ensures Buttons(index, n).1 ==> Step(index, n, true).None?
    ensures n >= 2 ==> (Buttons(index, n).1 <==> Step(index, n, true).None?)
    ensures n == 1 ==> !Buttons(index, n).1 && Step(index, n, true).None?
  {
  }

  /** The station a simulation window shows, with its label and its two navigation buttons. */
  class SimulationContext {
    const system: TrainSystem
    var stationIndex: int
    var currentStation: Station
    /** The text of the label naming the current station. */
    var stationText: string
    var previousDisabled: bool
    var nextDisabled: bool

    /** The index names a station of the system and the current station is that station. */
    predicate Valid()
      reads this, system
    {
      0 <= stationIndex < |system.stations| && currentStation == system.stations[stationIndex]
    }

    /** A window opens on the first station of the system; its system has at least one station. */
    constructor (system: TrainSystem)
      requires |system.stations| >= 1
      ensures this.system == system && Valid() && stationIndex == 0
      ensures stationText == "" && !previousDisabled && !nextDisabled
    {
      this.system := system;
      stationIndex := 0;
      currentStation := system.stations[0];
      stationText := "";
      previousDisabled := false;
      nextDisabled := false;
    }

    /** The label, once given, shows the current station's name. */
    method ShowStationText()
      requires Valid()
      modifies this`stationText
      ensures Valid() && stationText == currentStation.name
    {
      stationText := currentStation.name;
    }

    /** Disables the buttons whose step would leave the line, as `Buttons` gives them. */
    method ConfigureButtons()
      requires Valid()
      modifies this`previousDisabled, this`nextDisabled
      ensures Valid() && (previousDisabled, nextDisabled) == Buttons(stationIndex, |system.stations|)
    {
      if stationIndex == 0 {
        previousDisabled, nextDisabled := true, false;
      } else if stationIndex == |system.stations| - 1 {
        previousDisabled, nextDisabled := false, true;
      } else {
        previousDisabled, nextDisabled := false, false;
      }
    }

    /**
     * Moves to the station before the current one, showing its name and reconfiguring the
     * buttons, and tells whether it moved; at the first station nothing changes.
     */
    method MoveToPreviousStation() returns (moved: bool)
      requires Valid()
      modifies this`stationIndex, this`currentStation, this`stationText, this`previousDisabled, this`nextDisabled
      ensures Valid()
      ensures var step := Step(old(stationIndex), |system.stations|, false);
              moved == step.Some? && (moved ==> stationIndex == step.value)
      ensures moved ==> stationText == currentStation.name &&
                        (previousDisabled, nextDisabled) == Buttons(stationIndex, |system.stations|)
      ensures !moved ==> unchanged(this)
    {
      if stationIndex == 0 {
        return false;
      }
      stationIndex := stationIndex - 1;
      currentStation := system.stations[stationIndex];
      stationText := currentStation.name;
      ConfigureButtons();
      return true;
    }

    /**
     * Moves to the station after the current one, showing its name and reconfiguring the
     * buttons, and tells whether it moved; at the last station nothing changes.
     */
    method MoveToNextStation() returns (moved: bool)
      requires Valid()
      modifies this`stationIndex, this`currentStation, this`stationText, this`previousDisabled, this`nextDisabled
      ensures Valid()
      ensures var step := Step(old(stationIndex), |system.stations|, true);
              moved == step.Some? && (moved ==> stationIndex == step.value)
      ensures moved ==> stationText == currentStation.name &&
                        (previousDisabled, nextDisabled) == Buttons(stationIndex, |system.stations|)
      ensures !moved ==> unchanged(this)
    {
      if stationIndex == |system.stations| - 1 {
        return false;
      }
      stationIndex := stationIndex + 1;
      currentStation := system.stations[stationIndex];
      stationText := currentStation.name;
      ConfigureButtons();
      return true;
    }
  }
}
