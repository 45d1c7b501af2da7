/**
 * The two static lookup tables of the bridge and their total lookups.
 * Neither table is ever changed after start-up, so both are constants.
 */
module Mappings {

  /**
   * Device identities: each Homie node id is paired with its PiDome
   * device number, and the pair is entered in both directions.
   */
  const Devices: map<string, string> := map[
    "5ccf7fd3945b" := "17",
    "17" := "5ccf7fd3945b"
  ]

  /**
   * Command keys `<segment>/<segment>` and the command path they become on
   * the other bus. The same table is consulted in both directions.
   */
  const Commands: map<string, string> := map[
    "temperature/degrees" := "dht/temp",
    "humidity/relative" := "dht/humi",
    "LED/on" := "switch/on/set"
  ]

  /** Sentinel device identity for an id the table does not know. */
  const UnknownDevice: string := "0"

  /** Sentinel command for a key the table does not know. */
  const UnknownCommand: string := ""

  /**
   * The counterpart identity of `id`, or the unknown-device sentinel.
   * Total: never fails. The sentinel is not any device's counterpart, so a
   * miss can be told from a hit by the result alone, and the result is
   * always a single topic segment.
   */
  function MapDevice(id: string): (r: string)
    ensures id in Devices ==> r == Devices[id]
    ensures r == UnknownDevice <==> id !in Devices
    ensures r != "" && '/' !in r
  {
    if id in Devices then Devices[id] else UnknownDevice
  }

  /**
   * The command path for key `cmd`, or the empty sentinel.
   * Total: never fails. No mapped command is empty, so the result is empty
   * exactly when the key is unknown.
   */
  function MapCommand(cmd: string): (r: string)
    ensures cmd in Commands ==> r == Commands[cmd]
    ensures r == UnknownCommand <==> cmd !in Commands
  {
    if cmd in Commands then Commands[cmd] else UnknownCommand
  }

  /**
   * The device table is an involution: translating a known identity twice
   * gives it back, and an unknown one stays at the sentinel.
   */
  lemma DeviceInvolution(id: string)
    ensures MapDevice(MapDevice(id)) == if id in Devices then id else UnknownDevice
    ensures id in Devices ==> MapDevice(id) in Devices
  {
  }

  /**
   * No mapped command is itself a key: the command table translates in one
   * direction only, so a command path never maps back to the key it came from.
   */
  lemma CommandsOneWay(cmd: string)
    requires cmd in Commands
    ensures MapCommand(MapCommand(cmd)) == UnknownCommand
  {
  }
}
