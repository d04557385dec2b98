# Traffic management system — a verified model

This project models the traffic management simulation of
`Trafic_management_system.py`: traffic sensors report traffic conditions
through a facade to a singleton management center, which relays them
(mediator) to every registered traffic light; each light picks its colour from
a fixed transition table; a command object can set a light directly; and a
violation manager keeps an append-only log of infractions and renders it as
a numbered report.

Modules, one per component of the source:

- `Lights` — the transition table `StateFor`, the `TrafficLight` class and
  the `UpdateLightCommand` class.
- `Sensors` — the `ConcreteTrafficSensor` class.
- `Violations` — the `TrafficViolation` record, the `ViolationManager`
  class, the report format (`IsReportOf`) and the decimal numbering of its
  lines.
- `Center` — the `TrafficManagementCenter` mediator and the
  `SingletonRegistry`, the class-to-instance dictionary behind the singleton
  metaclass.
- `Facade` — the `TrafficSystemFacade` and a deterministic form of the
  simulation driver.
- `Optional` — an `Option` type for the sensor's empty reading.

Objects the source updates in place are classes whose methods carry
`modifies` clauses and state the whole new state; the pure decisions (the
transition table, the report's shape, the log that a sequence of recordings
produces) are functions and predicates, with lemmas about them.

Lights are shared references: the facade returns the same object the center
stores, and the center does not reject duplicates, so `Notify` is specified
over the set of lights it reaches, and it verifies for any aliasing.

A light's state is a free-form string, as in the code: `update_state`
accepts any string, not just the three colours RED, YELLOW and GREEN. The
singleton is a dictionary lookup, keyed here by the class's name.

## Model

| member | source | states |
|---|---|---|
| `Lights.StateFor` | Trafic_management_system.py:105-110 | "Heavy Traffic" and only it gives RED, "Moderate Traffic" and only it gives YELLOW, every other string (including "Light Traffic" and "") gives GREEN |
| `Lights.TrafficLight.constructor` | Trafic_management_system.py:91-95 | a new light is RED and keeps the location it was given |
| `Lights.TrafficLight.UpdateState` | Trafic_management_system.py:98-100 | the state becomes the given string, whatever it was; only this light's state changes |
| `Lights.TrafficLight.HandleEvent` | Trafic_management_system.py:103-110 | the light ends in the state the transition table prescribes for the event |
| `Lights.UpdateLightCommand.constructor` | Trafic_management_system.py:119-123 | the command refers to the given light and state |
| `Lights.UpdateLightCommand.Execute` | Trafic_management_system.py:126-127 | the target light ends in the command's state, whatever its prior state; nothing but that light's state changes |
| `Sensors.ConcreteTrafficSensor.constructor` | Trafic_management_system.py:29-33 | a new sensor has its location and no reading |
| `Sensors.ConcreteTrafficSensor.ReceiveUpdate` | Trafic_management_system.py:36-38 | the sensor holds the received value; nothing else changes |
| `Violations.TrafficViolation` | Trafic_management_system.py:112-115 | an immutable record of the vehicle and the violation type |
| `Violations.EntryText` | Trafic_management_system.py:86 | the report line for a record: its 1-based position, then "Vehicle", the vehicle, "committed" and the type |
| `Violations.IsReportOf` | Trafic_management_system.py:82-88 | the report of a log: the "no violations" line when it is empty, otherwise a header and one line per record, numbered from 1 in insertion order |
| `Violations.LogOf` | Trafic_management_system.py:77-79 | the log that recording a sequence of pairs one after another produces from an empty log |
| `Violations.ViolationManager.constructor` | Trafic_management_system.py:74-75 | a new log is empty |
| `Violations.ViolationManager.AddViolation` | Trafic_management_system.py:77-80 | the log grows by exactly the record (vehicle, type), at the end; earlier records are unchanged |
| `Violations.LogOfAppend` | Trafic_management_system.py:77-79 | the definition of the recorded log unfolded by one pair, used by the driver loop: one more recording appends exactly its record |
| `Violations.LogOfKeepsOrder` | Trafic_management_system.py:77-79 | N recordings give a log of length N whose i-th record holds exactly the i-th pair given |
| `Violations.ViolationManager.DisplayViolations` | Trafic_management_system.py:82-88 | an empty log gives only the "no violations" line; otherwise a header and one line per record, numbered from 1 in insertion order; the log is not modified |
| `Violations.ReportIsUnique` | Trafic_management_system.py:82-88 | a log has at most one report (`DisplayViolations` produces one) |
| `Violations.Decimal` | Trafic_management_system.py:86 | the position number is rendered as a non-empty string of decimal digits with no leading zero |
| `Violations.DecimalRoundTrip` | Trafic_management_system.py:85-86 | reading the rendered number back gives the number |
| `Violations.EntryNumber` | Trafic_management_system.py:85-86 | each report line starts with its own 1-based position, which can be read back from the line |
| `Center.Sender` | Trafic_management_system.py:66 | the sender of a notification is either a traffic sensor or something else, as the `isinstance` test distinguishes |
| `Center.TrafficManagementCenter.constructor` | Trafic_management_system.py:48-54 | a new center has no sensors, no lights and a new empty violation log |
| `Center.TrafficManagementCenter.RegisterSensor` | Trafic_management_system.py:56-58 | the sensor list grows by exactly the given sensor, at the end; duplicates are kept; the light list is unchanged |
| `Center.TrafficManagementCenter.AddLight` | Trafic_management_system.py:60-62 | the light list grows by exactly the given light, at the end; duplicates are kept; the sensor list is unchanged |
| `Center.TrafficManagementCenter.Notify` | Trafic_management_system.py:65-70 | from a sensor, every registered light ends in the state the event prescribes; from any other sender no light changes; both lists are unchanged and only registered lights are touched |
| `Center.SingletonRegistry.constructor` | Trafic_management_system.py:9 | the registry starts empty |
| `Center.SingletonRegistry.Call` | Trafic_management_system.py:11-14 | a new empty center is built and stored only when the class is not yet a key; otherwise the stored instance is returned and the registry is unchanged |
| `Center.SingletonRegistry.ConstructTwice` | Trafic_management_system.py:204-206 | two successive constructions return the identical instance, the one stored in the registry; if none was stored, exactly that key is added, holding a new empty center, and the other keys are kept |
| `Facade.TrafficSystemFacade.constructor` | Trafic_management_system.py:131-133 | the facade holds the registry's singleton center, reusing a stored one or storing a new empty one |
| `Facade.TrafficSystemFacade.RegisterSensor` | Trafic_management_system.py:136-141 | returns a new sensor at the location with no reading, and that same object is now last in the center's sensor list |
| `Facade.TrafficSystemFacade.AddTrafficLight` | Trafic_management_system.py:144-149 | returns a new RED light at the location, and that same object is now last in the center's light list |
| `Facade.TrafficSystemFacade.UpdateTrafficInfo` | Trafic_management_system.py:152-156 | the sensor holds the value and every registered light has the state that same value prescribes; the lists are unchanged |
| `Facade.TrafficSystemFacade.ReportViolation` | Trafic_management_system.py:159-160 | the center's log grows by exactly the record (vehicle, type), at the end |
| `Facade.Reported` | Trafic_management_system.py:191-195 | a violation is reported exactly when some round draws it, and there are at most as many as rounds |
| `Facade.ReportedPrefix` | Trafic_management_system.py:191-195 | the definition of the reported violations unfolded by one round, used by the driver loop: one more round adds its violation, if it has one, at the end |
| `Facade.PlayRound` | Trafic_management_system.py:184-195 | after one round every light shows the second sensor's event's state, each sensor holds its event and the log gains the round's violation, if any |
| `Facade.RunRounds` | Trafic_management_system.py:183-197 | after the rounds every light shows the state of the last event, each sensor holds its last reading, and the log gains all reported violations in order; with no rounds nothing changes |
| `Facade.SetUp` | Trafic_management_system.py:169-176 | the driver's facade holds a new center, stored in the registry, with sensors at "Main Street" and "Second Avenue" (no readings) and RED lights at "Main St & First Ave" and "Main St & Second Ave", all distinct and registered in call order, and an empty log |
| `Facade.Simulate` | Trafic_management_system.py:167-209 | after the run the first light is GREEN, the second shows the last event's state (RED if there were no rounds), the two constructions of the singleton are identical, the registry gains exactly the center, whose lights are the two registered ones and whose log holds the reported violations, and the report is that of those violations in order |

## Left out

- Console output of `print` calls (sensor updates, light changes, recorded violations, the notifying sensor's location, the identity check): not modelled; `display_violations` is modelled as the list of lines it prints, with the exact text.
- The `tkinter` and `messagebox` imports: unused by the program.
- The abstract base classes `TrafficSensor` and `TrafficMediator` and the combined metaclass: the mediator has a single variant; `isinstance(sender, TrafficSensor)` is the `Sender` datatype's sensor case.
- The singleton registry is global state of the metaclass; here it is the `SingletonRegistry` object passed explicitly, keyed by the class name, and only the management center is ever constructed through it.
- Readings, events, locations, vehicles and violation types are strings; the source would store any Python value.
- Center.TrafficManagementCenter.Notify: visits lights in registration order, but the contract states only the final states, since the order is observable only through the printed lines.
- Facade.Simulate: the random events, the 30% violation draw, the random vehicle number and type, and the one-second pauses are replaced by explicit rounds given as input, and the ten rounds become any number of rounds, including none; it requires that no center has been constructed yet, as at the program's single call at process start.
- Facade.RunRounds: when both sensor arguments are the same object, the contract states only the second reading that sensor ends with.
