/**
 * Topic translation between the Homie device bus (`homie/<node>/<property>/<attribute>`)
 * and the PiDome hub bus (`/hooks/devices/<device>/<command>`).
 *
 * The translators index fixed positions of the `/`-split topic. Where the
 * topic has too few segments, the positional access raises IndexError; the
 * model returns `Failure(IndexError)` there instead of assuming it away.
 */
module Translator {
  import opened Wrappers
  import opened Segments
  import opened Mappings

  /** The exception raised by indexing past the end of the segment list. */
  datatype Fault = IndexError

  const HomiePrefix: string := "homie/"
  const HubPrefix: string := "/hooks/devices/"
  const UnhandledPrefix: string := "Unhandled: "

  /**
   * PiDome to Homie: segment 3 is the device (segment 0 is empty because of
   * the leading `/`), segments 4 and 5 form the command key. The topic must
   * have at least five separators, otherwise the indexing raises.
   */
  function PiDomeToHomie(topic: string): (r: Result<string, Fault>)
    ensures r.Failure? <==> Occurrences(topic, '/') < 5
    ensures r.Success? ==> HomiePrefix <= r.value
  {
    var parts := Split(topic, '/');
    if |parts| < 6 then Failure(IndexError)
    else Success(HomiePrefix + MapDevice(parts[3]) + "/" + MapCommand(parts[4] + "/" + parts[5]))
  }

  /**
   * Homie to PiDome: segment 1 is the device, segments 2 and 3 form the
   * command key. The topic must have at least three separators, otherwise
   * the indexing raises.
   */
  function HomieToPiDome(topic: string): (r: Result<string, Fault>)
    ensures r.Failure? <==> Occurrences(topic, '/') < 3
    ensures r.Success? ==> HubPrefix <= r.value
  {
    var parts := Split(topic, '/');
    if |parts| < 4 then Failure(IndexError)
    else Success(HubPrefix + MapDevice(parts[1]) + "/" + MapCommand(parts[2] + "/" + parts[3]))
  }

  /**
   * Direction dispatch. The default is the "Unhandled" text; a Homie topic is
   * then translated to PiDome, and a hub topic to Homie. An exception raised
   * by a translator propagates. Every result that is produced is non-empty
   * and lies in one of three namespaces.
   */
  function TranslateTopic(topic: string): (r: Result<string, Fault>)
    ensures r.Failure? <==>
      (HomiePrefix <= topic && Occurrences(topic, '/') < 3) ||
      (HubPrefix <= topic && Occurrences(topic, '/') < 5)
    ensures r.Success? ==> r.value != ""
    ensures r.Success? ==>
      HubPrefix <= r.value || HomiePrefix <= r.value || UnhandledPrefix <= r.value
  {
    var res := UnhandledPrefix + topic;
    var res :- if HomiePrefix <= topic then HomieToPiDome(topic) else Success(res);
    if HubPrefix <= topic then PiDomeToHomie(topic) else Success(res)
  }

  /** A hub topic is `""`, `hooks`, `devices`, the device, then the command's segments. */
  lemma HubTopicSegments(dev: string, cmd: string)
    requires '/' !in dev
    ensures Split(HubPrefix + dev + "/" + cmd, '/') == ["", "hooks", "devices", dev] + Split(cmd, '/')
  {
    var ps := ["", "hooks", "devices", dev];
    assert Join(ps[3..], '/') == dev;
    assert Join(ps[2..], '/') == "devices/" + dev;
    assert Join(ps[1..], '/') == "hooks/devices/" + dev;
    assert Join(ps, '/') == HubPrefix + dev;
    SplitAfterParts(ps, cmd, '/');
  }

  /** A Homie topic is `homie`, the node id, then the command's segments. */
  lemma HomieTopicSegments(dev: string, cmd: string)
    requires '/' !in dev
    ensures Split(HomiePrefix + dev + "/" + cmd, '/') == ["homie", dev] + Split(cmd, '/')
  {
    SplitAfter(dev, cmd, '/');
    SplitAfter("homie", dev + "/" + cmd, '/');
    assert HomiePrefix + dev + "/" + cmd == "homie" + "/" + (dev + "/" + cmd);
  }

  /**
   * A well-formed Homie getter topic `homie/<node>/<property>/<attribute>`
   * becomes `/hooks/devices/<mapped node>/<mapped command>`.
   */
  lemma HomieGetterTranslation(node: string, property: string, attribute: string)
    requires '/' !in node && '/' !in property && '/' !in attribute
    ensures HomieToPiDome(HomiePrefix + node + "/" + property + "/" + attribute) ==
      Success(HubPrefix + MapDevice(node) + "/" + MapCommand(property + "/" + attribute))
  {
    SplitNoSeparator(attribute, '/');
    SplitAfter(property, attribute, '/');
    HomieTopicSegments(node, property + "/" + attribute);
    assert HomiePrefix + node + "/" + property + "/" + attribute ==
      HomiePrefix + node + "/" + (property + "/" + attribute);
  }

  /**
   * A well-formed hub topic `/hooks/devices/<device>/<a>/<b>` becomes
   * `homie/<mapped device>/<mapped command>`.
   */
  lemma HubCommandTranslation(device: string, a: string, b: string)
    requires '/' !in device && '/' !in a && '/' !in b
    ensures PiDomeToHomie(HubPrefix + device + "/" + a + "/" + b) ==
      Success(HomiePrefix + MapDevice(device) + "/" + MapCommand(a + "/" + b))
  {
    SplitNoSeparator(b, '/');
    SplitAfter(a, b, '/');
    HubTopicSegments(device, a + "/" + b);
    assert HubPrefix + device + "/" + a + "/" + b == HubPrefix + device + "/" + (a + "/" + b);
  }

  /**
   * A Homie topic that names only a node, `homie/<node>`, has two segments,
   * so reading segment 2 raises and the whole dispatch fails.
   */
  lemma NodeOnlyTopic(node: string)
    requires '/' !in node
    ensures TranslateTopic(HomiePrefix + node) == Failure(IndexError)
  {
    SplitNoSeparator(node, '/');
    SplitAfter("homie", node, '/');
    assert HomiePrefix + node == "homie" + "/" + node;
    TranslateTopicDispatch(HomiePrefix + node);
  }

  /** A command path spans at least two segments and its first two do not form a known key. */
  ghost predicate OneWayPath(cmd: string)
  {
    var c := Split(cmd, '/');
    |c| >= 2 && c[0] + "/" + c[1] !in Commands
  }

  /** The segments of a command path with two levels. */
  lemma TwoLevels(a: string, b: string)
    requires '/' !in a && '/' !in b
    ensures Split(a + "/" + b, '/') == [a, b]
  {
    SplitNoSeparator(b, '/');
    SplitAfter(a, b, '/');
  }

  /** The segments of a command path with three levels. */
  lemma ThreeLevels(a: string, b: string, c: string)
    requires '/' !in a && '/' !in b && '/' !in c
    ensures Split(a + "/" + b + "/" + c, '/') == [a, b, c]
  {
    var tail := b + "/" + c;
    var whole := a + "/" + b + "/" + c;
    assert whole == a + ['/'] + tail;
    assert Split(tail, '/') == [b, c] by { TwoLevels(b, c); }
    assert Split(whole, '/') == [a] + Split(tail, '/') by { SplitAfter(a, tail, '/'); }
  }

  /** The sensor readings' hub commands `dht/temp` and `dht/humi` are one-way paths. */
  lemma SensorOneWay(reading: string)
    requires reading == "temp" || reading == "humi"
    ensures OneWayPath("dht" + "/" + reading)
  {
    TwoLevels("dht", reading);
  }

  /** The LED's Homie setter `switch/on/set` is a one-way path. */
  lemma SwitchOneWay()
    ensures OneWayPath("switch" + "/" + "on" + "/" + "set")
  {
    ThreeLevels("switch", "on", "set");
  }

  /**
   * Every mapped command spans at least two segments, and its first two
   * segments do not form a known key.
   */
  lemma CommandSegments(key: string)
    requires key in Commands
    ensures OneWayPath(Commands[key])
  {
    if key == "LED/on" {
      assert Commands[key] == "switch" + "/" + "on" + "/" + "set";
      SwitchOneWay();
    } else if key == "temperature/degrees" {
      assert Commands[key] == "dht" + "/" + "temp";
      SensorOneWay("temp");
    } else {
      assert Commands[key] == "dht" + "/" + "humi";
      SensorOneWay("humi");
    }
  }

  /**
   * The Homie to PiDome output addresses, on the hub bus, the mapped device
   * with the segments of the mapped command; with an unknown command the
   * output ends in a bare `/`.
   */
  lemma HomieToPiDomeAddresses(topic: string)
    requires HomieToPiDome(topic).Success?
    ensures var p := Split(topic, '/');
      var key := p[2] + "/" + p[3];
      var out := HomieToPiDome(topic).value;
      Split(out, '/') == ["", "hooks", "devices", MapDevice(p[1])] + Split(MapCommand(key), '/') &&
      (key !in Commands ==> out == HubPrefix + MapDevice(p[1]) + "/" && out[|out| - 1] == '/')
  {
    var p := Split(topic, '/');
    HubTopicSegments(MapDevice(p[1]), MapCommand(p[2] + "/" + p[3]));
  }

  /**
   * The PiDome to Homie output addresses, on the device bus, the mapped node
   * with the segments of the mapped command; with an unknown command the
   * output ends in a bare `/`.
   */
  lemma PiDomeToHomieAddresses(topic: string)
    requires PiDomeToHomie(topic).Success?
    ensures var p := Split(topic, '/');
      var key := p[4] + "/" + p[5];
      var out := PiDomeToHomie(topic).value;
      Split(out, '/') == ["homie", MapDevice(p[3])] + Split(MapCommand(key), '/') &&
      (key !in Commands ==> out == HomiePrefix + MapDevice(p[3]) + "/" && out[|out| - 1] == '/')
  {
    var p := Split(topic, '/');
    HomieTopicSegments(MapDevice(p[3]), MapCommand(p[4] + "/" + p[5]));
  }

  /** Segments after index 3 of a Homie topic (a `/set` suffix, say) do not change the result. */
  lemma HomieIgnoresExtraSegments(topic: string, extra: string)
    requires Occurrences(topic, '/') >= 3
    ensures HomieToPiDome(topic + "/" + extra) == HomieToPiDome(topic)
  {
    SplitConcat(topic, extra, '/');
  }

  /** Segments after index 5 of a hub topic do not change the result. */
  lemma PiDomeIgnoresExtraSegments(topic: string, extra: string)
    requires Occurrences(topic, '/') >= 5
    ensures PiDomeToHomie(topic + "/" + extra) == PiDomeToHomie(topic)
  {
    SplitConcat(topic, extra, '/');
  }

  /**
   * A hub topic built from a single-segment device and a command path: with a
   * one-way path it translates back to the mapped node with no command, and
   * with the empty command it is one segment too short and raises.
   */
  lemma PiDomeOfHubTopic(dev: string, cmd: string)
    requires '/' !in dev
    requires cmd == UnknownCommand || OneWayPath(cmd)
    ensures PiDomeToHomie(HubPrefix + dev + "/" + cmd) ==
      if cmd == UnknownCommand then Failure(IndexError) else Success(HomiePrefix + MapDevice(dev) + "/")
  {
    HubTopicSegments(dev, cmd);
    var parts := Split(HubPrefix + dev + "/" + cmd, '/');
    if cmd == UnknownCommand {
      SplitNoSeparator(cmd, '/');
    } else {
      var c := Split(cmd, '/');
      assert parts[3] == dev && parts[4] + "/" + parts[5] == c[0] + "/" + c[1];
      assert HomiePrefix + MapDevice(dev) + "/" + MapCommand(c[0] + "/" + c[1]) == HomiePrefix + MapDevice(dev) + "/";
    }
  }

  /** The device-bus counterpart of PiDomeOfHubTopic. */
  lemma HomieOfHomieTopic(dev: string, cmd: string)
    requires '/' !in dev
    requires cmd == UnknownCommand || OneWayPath(cmd)
    ensures HomieToPiDome(HomiePrefix + dev + "/" + cmd) ==
      if cmd == UnknownCommand then Failure(IndexError) else Success(HubPrefix + MapDevice(dev) + "/")
  {
    HomieTopicSegments(dev, cmd);
    var parts := Split(HomiePrefix + dev + "/" + cmd, '/');
    if cmd == UnknownCommand {
      SplitNoSeparator(cmd, '/');
    } else {
      var c := Split(cmd, '/');
      assert parts[1] == dev && parts[2] + "/" + parts[3] == c[0] + "/" + c[1];
      assert HubPrefix + MapDevice(dev) + "/" + MapCommand(c[0] + "/" + c[1]) == HubPrefix + MapDevice(dev) + "/";
    }
  }

  /**
   * Homie to PiDome and back: the device identity comes back (a known node id
   * exactly, an unknown one as the sentinel), but the command does not, since
   * no command path is itself a key. With an unknown command the hub topic is
   * too short to translate back and the indexing raises.
   */
  lemma HomieRoundTrip(topic: string)
    requires HomieToPiDome(topic).Success?
    ensures var p := Split(topic, '/');
      var back := PiDomeToHomie(HomieToPiDome(topic).value);
      if p[2] + "/" + p[3] in Commands
      then back == Success(HomiePrefix + (if p[1] in Devices then p[1] else UnknownDevice) + "/")
      else back == Failure(IndexError)
  {
    var p := Split(topic, '/');
    var key := p[2] + "/" + p[3];
    if key in Commands {
      CommandSegments(key);
    }
    PiDomeOfHubTopic(MapDevice(p[1]), MapCommand(key));
    DeviceInvolution(p[1]);
  }

  /**
   * PiDome to Homie and back: the device identity comes back, the command
   * does not; with an unknown command the Homie topic is too short and the
   * indexing raises.
   */
  lemma PiDomeRoundTrip(topic: string)
    requires PiDomeToHomie(topic).Success?
    ensures var p := Split(topic, '/');
      var back := HomieToPiDome(PiDomeToHomie(topic).value);
      if p[4] + "/" + p[5] in Commands
      then back == Success(HubPrefix + (if p[3] in Devices then p[3] else UnknownDevice) + "/")
      else back == Failure(IndexError)
  {
    var p := Split(topic, '/');
    var key := p[4] + "/" + p[5];
    if key in Commands {
      CommandSegments(key);
    }
    HomieOfHomieTopic(MapDevice(p[3]), MapCommand(key));
    DeviceInvolution(p[3]);
  }

  /**
   * The two namespace prefixes are disjoint, so at most one translator runs;
   * a topic in neither namespace yields exactly the "Unhandled" text.
   */
  lemma TranslateTopicDispatch(topic: string)
    ensures !(HomiePrefix <= topic && HubPrefix <= topic)
    ensures HomiePrefix <= topic ==> TranslateTopic(topic) == HomieToPiDome(topic)
    ensures HubPrefix <= topic ==> TranslateTopic(topic) == PiDomeToHomie(topic)
    ensures !(HomiePrefix <= topic) && !(HubPrefix <= topic) ==>
      TranslateTopic(topic) == Success(UnhandledPrefix + topic)
  {
    if HomiePrefix <= topic {
      assert topic[0] == 'h';
    }
  }
}
