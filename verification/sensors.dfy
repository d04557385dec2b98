/** Traffic sensors (ConcreteTrafficSensor in Trafic_management_system.py). */
module Sensors {
  import opened Optional

  class ConcreteTrafficSensor {
    const location: string
    /** The last reading received; `None` until the first update. */
    var trafficInfo: Option<string>

    constructor (location: string)
      ensures this.location == location && trafficInfo == None
    {
      this.location := location;
      trafficInfo := None;
    }

    /** Stores the reading unconditionally. */
    method ReceiveUpdate(info: string)
      modifies this`trafficInfo
      ensures trafficInfo == Some(info)
    {
      trafficInfo := Some(info);
    }
  }
}
