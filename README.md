# Homie / PiDome MQTT topic translator: a Dafny model

The bridge sits between two home-automation MQTT buses. Homie devices publish on
`homie/<node>/<property>/<attribute>` and take commands on
`homie/<node>/<property>/<attribute>/set`. The PiDome hub uses
`/hooks/devices/<device>/<command>`. When a message arrives, the bridge rewrites
its topic into the other bus's scheme and republishes it with the same payload.
Two static tables drive the rewrite. One maps device identities across the buses.
The other maps command keys to command paths.

The model covers the translation logic of `mqttTranslator.py`:

- `Mappings`: the two tables as constant maps. `MapDevice` is the device lookup;
  it falls back to `"0"`. `MapCommand` is the command lookup; it falls back to `""`.
- `Segments`: `Split`, a recursive function with the behaviour of
  `re.split('/', topic)` for a one-character pattern. Its inverse is `Join`.
- `Translator`: the two directional translators and the dispatch `TranslateTopic`.
- `Bridge`: the publish decision of the message handler, as a pure function from
  the inbound message to the publication it requests.
- `Wrappers`: `Result` and `Option`.

Some topics have too few segments for the fixed positions the translators read.
There the Python code raises `IndexError`. The model returns
`Failure(IndexError)` in that case. The failure propagates through `TranslateTopic`
and `OnMessage` in the same way the exception would.

Notable behaviours of the code, each of which a fail-closed bridge would handle differently:

- A topic in neither namespace is republished on `"Unhandled: " + topic`. The
  handler suppresses only the empty topic, and no translation result is empty.
- An unknown command gives a topic ending in a bare `/`, and that topic is
  republished. It is not treated as untranslatable.
- A topic with too few segments raises. It does not fail closed.
- The handler passes only topic and payload to `publish`. The original QoS is not
  forwarded.
- The header comment gives `/hooks/devices/99/dht/temp` as the translation of
  `homie/5ccf7fd3945b/temperature/degrees`. The table maps that node to `17`, so
  the model (`TemperatureGetterScenario`) gives `/hooks/devices/17/dht/temp`.
- Translating a topic to the other bus and back brings back a known device id
  (an unknown one comes back as `0`) and always loses the command, because no
  command path in the table is itself a key. With an unknown command, the way
  back raises IndexError: the empty command leaves the topic one segment short
  (`HomieRoundTrip`, `PiDomeRoundTrip`).

## Model

| member | source | states |
|---|---|---|
| Segments.Split | mqttTranslator.py:64 | the topic splits into one more part than it has `/` characters, and no part contains `/` |
| Segments.JoinSplit | mqttTranslator.py:71 | joining the split parts with `/` gives back the original topic |
| Segments.SplitJoin | mqttTranslator.py:71 | splitting `/`-free parts after joining them gives back the same parts |
| Segments.SplitConcat | mqttTranslator.py:64 | the segments of `t + "/" + x` are the segments of `t` followed by the segments of `x` |
| Mappings.Devices | mqttTranslator.py:29-32 | the two device entries, each pair listed in both directions |
| Mappings.Commands | mqttTranslator.py:23-27 | the three command entries, keyed by `<segment>/<segment>` |
| Mappings.MapDevice | mqttTranslator.py:45-51 | a known id maps to its table counterpart; the result is `"0"` exactly when the id is unknown; never fails; the result is one non-empty segment |
| Mappings.MapCommand | mqttTranslator.py:53-61 | a known key maps to its command; the result is `""` exactly when the key is unknown; never fails |
| Mappings.DeviceInvolution | mqttTranslator.py:29-32 | looking up a known id twice gives it back, and its counterpart is also known; an unknown id stays at `"0"` |
| Mappings.CommandsOneWay | mqttTranslator.py:23-27 | no command path is itself a key, so looking up a key's command gives `""` |
| Translator.CommandSegments | mqttTranslator.py:23-27 | every command path has at least two segments, and its first two segments do not form a known key |
| Translator.HomieToPiDome | mqttTranslator.py:70-75 | raises IndexError exactly when the topic has fewer than three `/`; otherwise the result is on the hub bus |
| Translator.PiDomeToHomie | mqttTranslator.py:63-68 | raises IndexError exactly when the topic has fewer than five `/`; otherwise the result is on the Homie bus |
| Translator.HomieGetterTranslation | mqttTranslator.py:70-75 | `homie/<node>/<p>/<a>` becomes `/hooks/devices/` + mapped node + `/` + mapped command of `<p>/<a>` |
| Translator.HubCommandTranslation | mqttTranslator.py:63-68 | `/hooks/devices/<d>/<a>/<b>` becomes `homie/` + mapped device + `/` + mapped command of `<a>/<b>` |
| Translator.HomieToPiDomeAddresses | mqttTranslator.py:73-75 | the output's segments are `""`, `hooks`, `devices`, the mapped device of segment 1, then the segments of the mapped command of segments 2 and 3; with an unknown command the output ends in a bare `/` |
| Translator.PiDomeToHomieAddresses | mqttTranslator.py:66-68 | the output's segments are `homie`, the mapped device of segment 3, then the segments of the mapped command of segments 4 and 5; with an unknown command the output ends in a bare `/` |
| Translator.HomieIgnoresExtraSegments | mqttTranslator.py:71-74 | appending `/` and any text to a Homie topic that already has four segments (a `/set` suffix, say) does not change the translation |
| Translator.PiDomeIgnoresExtraSegments | mqttTranslator.py:64-67 | appending `/` and any text to a hub topic that already has six segments does not change the translation |
| Translator.NodeOnlyTopic | mqttTranslator.py:71-74 | `homie/<node>` has too few segments, so the dispatch raises IndexError |
| Translator.PiDomeOfHubTopic | mqttTranslator.py:63-68 | a hub topic with a one-way command path translates back to the mapped node with an empty command; with the empty command it raises IndexError |
| Translator.HomieOfHomieTopic | mqttTranslator.py:70-75 | a Homie topic with a one-way command path translates to the mapped device with an empty command; with the empty command it raises IndexError |
| Translator.HomieRoundTrip | mqttTranslator.py:63-75 | Homie to hub and back restores a known node id (an unknown one comes back as `"0"`) with an empty command; an unknown command makes the way back raise IndexError |
| Translator.PiDomeRoundTrip | mqttTranslator.py:63-75 | hub to Homie and back restores a known device (an unknown one comes back as `"0"`) with an empty command; an unknown command makes the way back raise IndexError |
| Translator.TranslateTopic | mqttTranslator.py:77-91 | fails exactly when a translator's positional access fails; every result is non-empty and starts with `/hooks/devices/`, `homie/` or `Unhandled: ` |
| Translator.TranslateTopicDispatch | mqttTranslator.py:85-91 | the two prefixes cannot both match; a Homie topic goes to the Homie translator and a hub topic to the hub translator; any other topic gives exactly `"Unhandled: " + topic` |
| Bridge.Message | mqttTranslator.py:110-112 | the inbound message: topic, opaque payload and QoS |
| Bridge.Publication | mqttTranslator.py:120 | the topic and payload passed to `publish` |
| Bridge.OnMessage | mqttTranslator.py:110-120 | fails exactly when the translation raises; otherwise the message is always republished, on the translated topic, with the payload unchanged |
| Bridge.TemperatureGetterScenario | mqttTranslator.py:70-75 | `homie/5ccf7fd3945b/temperature/degrees` is republished on `/hooks/devices/17/dht/temp` with the same payload (the device table at line 30 gives `17`; the header comment at line 10 says `99`) |
| Bridge.LedSetterScenario | mqttTranslator.py:12-14 | `/hooks/devices/17/LED/on` is republished on `homie/5ccf7fd3945b/switch/on/set` with the same payload |
| Bridge.UnknownDeviceScenario | mqttTranslator.py:45-51 | an unknown node id is republished with device `0`: `/hooks/devices/0/dht/temp` |
| Bridge.UnknownCommandScenario | mqttTranslator.py:53-61 | an unknown command key is still republished, on `/hooks/devices/17/` |
| Bridge.OtherNamespaceScenario | mqttTranslator.py:85 | `some/other/topic` is republished on `Unhandled: some/other/topic` |
| Bridge.ShortTopicScenario | mqttTranslator.py:73-74 | `homie/5ccf7fd3945b` makes the handler raise IndexError instead of publishing |

## Left out

- The MQTT client, the broker connection and `loop_forever` (mqttTranslator.py:144-163): network I/O and an event loop. `OnMessage` returns the publication that the handler would request; sending it is not modelled.
- What the transport does with an exception raised inside the message callback: not modelled. The model stops at `Failure(IndexError)`.
- `subscribeToTopics` (mqttTranslator.py:135-138): the broker matches the wildcard filters against topics, not the script. The model therefore translates any topic, including ones the subscriptions would never deliver.
- The `on_connect`, `on_publish`, `on_subscribe` and `on_log` callbacks, and the print at the start of `on_message`: logging only.
- `cls`, `dumpTopicParts` and every `verbose`-gated print: console side effects with no effect on results.
- The `mqttc` parameter of the translators: the translators only pass it along, so it is dropped.
- The defaults that `publish` uses for QoS and retain belong to the client library. `Publication` records only the topic and payload that the script passes.
- String encoding: topics are sequences of characters, and the payload is an opaque byte sequence. The script is Python 2, and line 85 applies `str()` to the topic; the model treats that call as the identity. This assumes the topic arrives as a byte string or as ASCII. A non-ASCII `unicode` topic would make `str()` raise UnicodeEncodeError, and the model does not capture that.
