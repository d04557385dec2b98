/**
 * The single entry point over the singleton center (TrafficSystemFacade in
 * Trafic_management_system.py) and a deterministic form of the simulation
 * driver that runs it.
 */
module Facade {
  import opened Optional
  import opened Lights
  import opened Sensors
  import opened Violations
  import opened Center

  class TrafficSystemFacade {
    /** The shared singleton center, never a private copy. */
    const tms: TrafficManagementCenter

    /** Obtains the center through the registry: the instance already stored
        under the singleton's class, or a new empty one stored there now. */
    constructor (registry: SingletonRegistry)
      modifies registry
      ensures CENTER_CLASS in registry.instances && tms == registry.instances[CENTER_CLASS]
      ensures CENTER_CLASS in old(registry.instances) ==>
                registry.instances == old(registry.instances)
      ensures CENTER_CLASS !in old(registry.instances) ==>
                && registry.instances == old(registry.instances)[CENTER_CLASS := tms]
                && fresh(tms) && fresh(tms.violationManager) && tms.IsEmpty()
    {
      var center := registry.Call(CENTER_CLASS);
      tms := center;
    }

    /** Builds a sensor at `location`, registers it at the end of the center's
        sensor list and returns that same object. */
    method RegisterSensor(location: string) returns (sensor: ConcreteTrafficSensor)
      modifies tms`sensorUnits
      ensures fresh(sensor) && sensor.location == location && sensor.trafficInfo == None
      ensures tms.sensorUnits == old(tms.sensorUnits) + [sensor]
    {
      sensor := new ConcreteTrafficSensor(location);
      tms.RegisterSensor(sensor);
    }

    /** Builds a RED light at `location`, registers it at the end of the
        center's light list and returns that same object. */
    method AddTrafficLight(location: string) returns (light: TrafficLight)
      modifies tms`lights
      ensures fresh(light) && light.location == location && light.state == RED
      ensures tms.lights == old(tms.lights) + [light]
    {
      light := new TrafficLight(location);
      tms.AddLight(light);
    }

    /** Stores `data` in the sensor, then relays the same value through the
        center: every registered light ends in the state `data` prescribes. */
    method UpdateTrafficInfo(sensor: ConcreteTrafficSensor, data: string)
      modifies sensor`trafficInfo, tms.lights
      ensures sensor.trafficInfo == Some(data)
      ensures forall l :: l in tms.lights ==> l.state == StateFor(data)
      ensures tms.sensorUnits == old(tms.sensorUnits) && tms.lights == old(tms.lights)
    {
      sensor.ReceiveUpdate(data);
      tms.Notify(SensorSender(sensor), data);
    }

    /** Records the violation in the center's log. */
    method ReportViolation(vehicle: string, violationType: string)
      modifies tms.violationManager
      ensures tms.violationManager.violations
              == old(tms.violationManager.violations) + [TrafficViolation(vehicle, violationType)]
    {
      tms.violationManager.AddViolation(vehicle, violationType);
    }
  }

  /** One round of the driver: an event for each of the two sensors and, when
      one is drawn, a violation `(vehicle, violationType)` to report. */
  datatype Step = Step(event1: string, event2: string, violation: Option<(string, string)>)

  /** The violations the rounds `steps` report, in order: exactly the ones
      some round draws, at most one per round. */
  function Reported(steps: seq<Step>): (r: seq<(string, string)>)
    ensures |r| <= |steps|
    ensures forall p :: p in r <==> exists i :: 0 <= i < |steps| && steps[i].violation == Some(p)
  {
    if steps == [] then []
    else
      var last := steps[|steps| - 1];
      Reported(steps[..|steps| - 1]) + (if last.violation.Some? then [last.violation.value] else [])
  }

  /** Extending the rounds by one adds that round's violation, if any, at the end. */
  lemma ReportedPrefix(steps: seq<Step>, i: nat)
    requires i < |steps|
    ensures steps[i].violation.Some? ==>
              Reported(steps[..i + 1]) == Reported(steps[..i]) + [steps[i].violation.value]
    ensures steps[i].violation.None? ==> Reported(steps[..i + 1]) == Reported(steps[..i])
  {
    assert steps[..i + 1][..i] == steps[..i];
    assert Reported(steps[..i]) + [] == Reported(steps[..i]);
  }

  /** One round of the driver loop: the first sensor's event is propagated,
      then the second's, then the round's violation, if any, is reported. */
  method PlayRound(system: TrafficSystemFacade, sensor1: ConcreteTrafficSensor,
                   sensor2: ConcreteTrafficSensor, step: Step)
    modifies system.tms.lights, sensor1`trafficInfo, sensor2`trafficInfo, system.tms.violationManager
    ensures forall l :: l in system.tms.lights ==> l.state == StateFor(step.event2)
    ensures sensor1 != sensor2 ==> sensor1.trafficInfo == Some(step.event1)
    ensures sensor2.trafficInfo == Some(step.event2)
    ensures system.tms.violationManager.violations
            == old(system.tms.violationManager.violations)
               + LogOf(if step.violation.Some? then [step.violation.value] else [])
    ensures system.tms.lights == old(system.tms.lights)
  {
    system.UpdateTrafficInfo(sensor1, step.event1);
    system.UpdateTrafficInfo(sensor2, step.event2);
    if step.violation.Some? {
      var (vehicle, violationType) := step.violation.value;
      system.ReportViolation(vehicle, violationType);
      assert LogOf([(vehicle, violationType)]) == [TrafficViolation(vehicle, violationType)];
    }
  }

  /** The rounds of the driver loop, one after another. Afterwards every
      registered light shows the state the last event prescribes, each sensor
      holds its last reading and the log has grown by the reported
      violations, in order. */
  method RunRounds(system: TrafficSystemFacade, sensor1: ConcreteTrafficSensor,
                   sensor2: ConcreteTrafficSensor, steps: seq<Step>)
    modifies system.tms.lights, sensor1`trafficInfo, sensor2`trafficInfo, system.tms.violationManager
    ensures steps != [] ==> forall l :: l in system.tms.lights ==>
              l.state == StateFor(steps[|steps| - 1].event2)
    ensures steps == [] ==> forall l :: l in system.tms.lights ==> l.state == old(l.state)
    ensures steps != [] && sensor1 != sensor2 ==>
              sensor1.trafficInfo == Some(steps[|steps| - 1].event1)
    ensures steps != [] ==> sensor2.trafficInfo == Some(steps[|steps| - 1].event2)
    ensures steps == [] ==>
              sensor1.trafficInfo == old(sensor1.trafficInfo)
              && sensor2.trafficInfo == old(sensor2.trafficInfo)
    ensures system.tms.violationManager.violations
            == old(system.tms.violationManager.violations) + LogOf(Reported(steps))
    ensures system.tms.lights == old(system.tms.lights)
  {
    if steps == [] {
      return;
    }
    var log := system.tms.violationManager;
    var i := 0;
    while i < |steps|
      invariant 0 <= i <= |steps|
      invariant system.tms.lights == old(system.tms.lights)
      invariant i > 0 ==> forall l :: l in system.tms.lights ==> l.state == StateFor(steps[i - 1].event2)
      invariant i > 0 && sensor1 != sensor2 ==> sensor1.trafficInfo == Some(steps[i - 1].event1)
      invariant i > 0 ==> sensor2.trafficInfo == Some(steps[i - 1].event2)
      invariant log.violations == old(log.violations) + LogOf(Reported(steps[..i]))
    {
      PlayRound(system, sensor1, sensor2, steps[i]);
      ReportedPrefix(steps, i);
      if steps[i].violation.Some? {
        LogOfAppend(Reported(steps[..i]), steps[i].violation.value);
      }
      i := i + 1;
    }
    assert steps[..|steps|] == steps;
  }

  /** The driver's set-up: a facade over a new center, sensors at "Main
      Street" and "Second Avenue" and two lights, registered in that order. */
  method SetUp(registry: SingletonRegistry)
      returns (system: TrafficSystemFacade, sensor1: ConcreteTrafficSensor,
               sensor2: ConcreteTrafficSensor, light1: TrafficLight, light2: TrafficLight)
    requires CENTER_CLASS !in registry.instances
    modifies registry
    ensures registry.instances == old(registry.instances)[CENTER_CLASS := system.tms]
    ensures fresh(system.tms) && fresh(system.tms.violationManager)
    ensures fresh(sensor1) && fresh(sensor2) && sensor1 != sensor2
    ensures fresh(light1) && fresh(light2) && light1 != light2
    ensures sensor1.location == "Main Street" && sensor2.location == "Second Avenue"
    ensures sensor1.trafficInfo == None && sensor2.trafficInfo == None
    ensures light1.location == "Main St & First Ave" && light2.location == "Main St & Second Ave"
    ensures system.tms.sensorUnits == [sensor1, sensor2]
    ensures system.tms.lights == [light1, light2]
    ensures light1.state == RED && light2.state == RED
    ensures system.tms.violationManager.violations == []
  {
    system := new TrafficSystemFacade(registry);
    sensor1 := system.RegisterSensor("Main Street");
    sensor2 := system.RegisterSensor("Second Avenue");
    light1 := system.AddTrafficLight("Main St & First Ave");
    light2 := system.AddTrafficLight("Main St & Second Ave");
  }

  /** The driver with its random choices and pauses replaced by the explicit
      rounds `steps`: after the set-up the rounds run, a command forces the
      first light GREEN, the singleton's identity is checked and the
      violation report is produced. It runs at process start, when no center
      has been constructed yet. */
  method Simulate(registry: SingletonRegistry, steps: seq<Step>)
      returns (light1: TrafficLight, light2: TrafficLight, identical: bool, report: seq<string>)
    requires CENTER_CLASS !in registry.instances
    modifies registry
    ensures identical
    ensures light1.state == GREEN
    ensures light2.state == if steps == [] then RED else StateFor(steps[|steps| - 1].event2)
    ensures IsReportOf(report, LogOf(Reported(steps)))
    ensures CENTER_CLASS in registry.instances
    ensures registry.instances == old(registry.instances)[CENTER_CLASS := registry.instances[CENTER_CLASS]]
    ensures registry.instances[CENTER_CLASS].lights == [light1, light2]
    ensures registry.instances[CENTER_CLASS].violationManager.violations == LogOf(Reported(steps))
  {
    var system, sensor1, sensor2;
    system, sensor1, sensor2, light1, light2 := SetUp(registry);
    RunRounds(system, sensor1, sensor2, steps);
    assert light2 in system.tms.lights;
    assert system.tms.violationManager.violations == LogOf(Reported(steps));

    var command := new UpdateLightCommand(light1, GREEN);
    command.Execute();

    var first, second := registry.ConstructTwice(CENTER_CLASS);
    identical := first == second;

    report := first.violationManager.DisplayViolations();
  }
}
