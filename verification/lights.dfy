/**
 * Traffic lights and the command object that drives one directly
 * (TrafficLight and UpdateLightCommand in Trafic_management_system.py).
 */
module Lights {

  /** The three canonical light states. A light's state is a free-form string:
      `UpdateState` accepts any label, as the source does. */
  const RED: string := "RED"
  const YELLOW: string := "YELLOW"
  const GREEN: string := "GREEN"

  /** The two event labels that the light's transition table singles out. */
  const HEAVY_TRAFFIC: string := "Heavy Traffic"
  const MODERATE_TRAFFIC: string := "Moderate Traffic"

  /** The state a light takes on after seeing `event`: the decision inside
      `handle_event`. Total over all strings. */
  function StateFor(event: string): (s: string)
    ensures s == RED <==> event == HEAVY_TRAFFIC
    ensures s == YELLOW <==> event == MODERATE_TRAFFIC
    ensures s == GREEN <==> event != HEAVY_TRAFFIC && event != MODERATE_TRAFFIC
  {
    if event == HEAVY_TRAFFIC then RED
    else if event == MODERATE_TRAFFIC then YELLOW
    else GREEN
  }

  class TrafficLight {
    const location: string
    var state: string

    /** A new light starts RED at the location it was given. */
    constructor (location: string)
      ensures this.location == location && state == RED
    {
      this.location := location;
      state := RED;
    }

    /** Sets the state unconditionally; any string is accepted. */
    method UpdateState(newState: string)
      modifies this`state
      ensures state == newState
    {
      state := newState;
    }

    /** Moves the light to the state its transition table prescribes for `event`. */
    method HandleEvent(event: string)
      modifies this`state
      ensures state == StateFor(event)
    {
      if event == HEAVY_TRAFFIC {
        UpdateState(RED);
      } else if event == MODERATE_TRAFFIC {
        UpdateState(YELLOW);
      } else {
        UpdateState(GREEN);
      }
    }
  }

  /** A deferred `UpdateState` call on one light; the command refers to the
      light, it does not own it. */
  class UpdateLightCommand {
    const light: TrafficLight
    const newState: string

    constructor (light: TrafficLight, newState: string)
      ensures this.light == light && this.newState == newState
    {
      this.light := light;
      this.newState := newState;
    }

    /** Leaves the target light in the command's state, whatever its prior
        state; only that light's state field changes. */
    method Execute()
      modifies light`state
      ensures light.state == newState
    {
      light.UpdateState(newState);
    }
  }
}
