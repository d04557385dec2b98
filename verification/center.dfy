/**
 * The mediator that relays sensor events to lights
 * (TrafficManagementCenter in Trafic_management_system.py) and the
 * construct-once registry behind its singleton variant (UniqueSingletonMeta).
 */
module Center {
  import opened Lights
  import opened Sensors
  import opened Violations

  /** Who calls `Notify`: a traffic sensor, or anything else. */
  datatype Sender = SensorSender(sensor: ConcreteTrafficSensor) | OtherSender

  class TrafficManagementCenter {
    var sensorUnits: seq<ConcreteTrafficSensor>
    var lights: seq<TrafficLight>
    const violationManager: ViolationManager

    /** A center with no sensors, no lights and an empty violation log. */
    predicate IsEmpty()
      reads this, violationManager
    {
      sensorUnits == [] && lights == [] && violationManager.violations == []
    }

    constructor ()
      ensures IsEmpty() && fresh(violationManager)
    {
      sensorUnits := [];
      lights := [];
      violationManager := new ViolationManager();
    }

    /** Appends `sensor`; duplicates are not rejected. */
    method RegisterSensor(sensor: ConcreteTrafficSensor)
      modifies this`sensorUnits
      ensures sensorUnits == old(sensorUnits) + [sensor]
    {
      sensorUnits := sensorUnits + [sensor];
    }

    /** Appends `light`; duplicates are not rejected. */
    method AddLight(light: TrafficLight)
      modifies this`lights
      ensures lights == old(lights) + [light]
    {
      lights := lights + [light];
    }

    /** Relays a sensor's event to every registered light, in registration
        order. Lights are shared references and may be registered more than
        once, so the effect is stated over the set of lights reached: each of
        them ends in the state the event prescribes. A sender that is not a
        sensor changes nothing. */
    method Notify(sender: Sender, event: string)
      modifies lights
      ensures sender.SensorSender? ==> forall l :: l in lights ==> l.state == StateFor(event)
      ensures !sender.SensorSender? ==> forall l :: l in lights ==> l.state == old(l.state)
      ensures sensorUnits == old(sensorUnits) && lights == old(lights)
    {
      if sender.SensorSender? {
        var i := 0;
        while i < |lights|
          invariant 0 <= i <= |lights|
          invariant forall j :: 0 <= j < i ==> lights[j].state == StateFor(event)
        {
          lights[i].HandleEvent(event);
          i := i + 1;
        }
      }
    }
  }

  /** The key under which the singleton center is registered. */
  const CENTER_CLASS: string := "SingletonTrafficManagementCenter"

  /** The process-wide class-to-instance dictionary of the singleton
      metaclass. The process-wide state is this object, passed explicitly. */
  class SingletonRegistry {
    var instances: map<string, TrafficManagementCenter>

    constructor ()
      ensures instances == map[]
    {
      instances := map[];
    }

    /** Constructing class `cls`: a new center is built and stored only when
        `cls` is not yet a key; every call returns the stored instance, and a
        stored instance is never replaced. */
    method Call(cls: string) returns (instance: TrafficManagementCenter)
      modifies this
      ensures cls in instances && instance == instances[cls]
      ensures cls in old(instances) ==> instances == old(instances)
      ensures cls !in old(instances) ==>
                && instances == old(instances)[cls := instance]
                && fresh(instance) && fresh(instance.violationManager)
                && instance.IsEmpty()
    {
      if cls !in instances {
        var created := new TrafficManagementCenter();
        instances := instances[cls := created];
      }
      instance := instances[cls];
    }

    /** Two successive constructions give the identical instance. */
    method ConstructTwice(cls: string) returns (first: TrafficManagementCenter, second: TrafficManagementCenter)
      modifies this
      ensures first == second && cls in instances && instances[cls] == first
      ensures cls in old(instances) ==> instances == old(instances)
      ensures cls !in old(instances) ==>
                && instances == old(instances)[cls := first]
                && fresh(first) && fresh(first.violationManager)
                && first.IsEmpty()
    {
      first := Call(cls);
      second := Call(cls);
    }
  }
}
