/**
 * The message handler of the bridge: every inbound message is translated and,
 * unless the translated topic is empty, republished with its payload
 * unchanged. The transport client, its connection and its event loop are
 * outside the model; the handler becomes a pure function from the inbound
 * message to the publication it asks for.
 */
module Bridge {
  import opened Wrappers
  import opened Segments
  import opened Mappings
  import opened Translator

  newtype byte = x: int | 0 <= x < 256

  /** An inbound message: topic, opaque payload and delivery level. */
  datatype Message = Message(topic: string, payload: seq<byte>, qos: nat)

  /** An outbound publish request: the topic and the payload handed to the client. */
  datatype Publication = Publication(topic: string, payload: seq<byte>)

  /**
   * The publish decision for one inbound message. An IndexError raised while
   * translating propagates out of the handler. Otherwise the handler
   * publishes exactly when the translated topic is non-empty, and since a
   * translation is never empty, every message that translates is republished,
   * on the translated topic and with the original payload.
   */
  function OnMessage(msg: Message): (r: Result<Option<Publication>, Fault>)
    ensures r.Failure? <==> TranslateTopic(msg.topic).Failure?
    ensures r.Success? ==>
      r.value == Some(Publication(TranslateTopic(msg.topic).value, msg.payload))
  {
    var translated :- TranslateTopic(msg.topic);
    if translated == "" then Success(None)
    else Success(Some(Publication(translated, msg.payload)))
  }

  // The scenarios below write topics as their prefix and segments joined by
  // `/`, which is the same string as the literal topic.

  /** `homie/5ccf7fd3945b/temperature/degrees` goes to `/hooks/devices/17/dht/temp`, payload untouched. */
  lemma TemperatureGetterScenario(msg: Message)
    requires msg.topic == HomiePrefix + "5ccf7fd3945b" + "/" + "temperature" + "/" + "degrees"
    ensures OnMessage(msg) == Success(Some(Publication(HubPrefix + "17" + "/" + "dht/temp", msg.payload)))
  {
    HomieGetterTranslation("5ccf7fd3945b", "temperature", "degrees");
    assert "temperature" + "/" + "degrees" == "temperature/degrees";
    TranslateTopicDispatch(msg.topic);
  }

  /** `/hooks/devices/17/LED/on` goes to `homie/5ccf7fd3945b/switch/on/set`, payload untouched. */
  lemma LedSetterScenario(msg: Message)
    requires msg.topic == HubPrefix + "17" + "/" + "LED" + "/" + "on"
    ensures OnMessage(msg) == Success(Some(Publication(HomiePrefix + "5ccf7fd3945b" + "/" + "switch/on/set", msg.payload)))
  {
    HubCommandTranslation("17", "LED", "on");
    assert "LED" + "/" + "on" == "LED/on";
    TranslateTopicDispatch(msg.topic);
  }

  /** An unknown node id becomes the unknown-device sentinel `0` on the hub. */
  lemma UnknownDeviceScenario(msg: Message)
    requires msg.topic == HomiePrefix + "unknownDevice" + "/" + "temperature" + "/" + "degrees"
    ensures OnMessage(msg) == Success(Some(Publication(HubPrefix + "0" + "/" + "dht/temp", msg.payload)))
  {
    HomieGetterTranslation("unknownDevice", "temperature", "degrees");
    assert "temperature" + "/" + "degrees" == "temperature/degrees";
    TranslateTopicDispatch(msg.topic);
  }

  /** An unknown command still yields a topic, ending in a bare `/`, and it is published. */
  lemma UnknownCommandScenario(msg: Message)
    requires msg.topic == HomiePrefix + "5ccf7fd3945b" + "/" + "unknown" + "/" + "property"
    ensures OnMessage(msg) == Success(Some(Publication(HubPrefix + "17" + "/", msg.payload)))
  {
    HomieGetterTranslation("5ccf7fd3945b", "unknown", "property");
    assert MapCommand("unknown" + "/" + "property") == UnknownCommand;
    assert HubPrefix + "17" + "/" + UnknownCommand == HubPrefix + "17" + "/";
    TranslateTopicDispatch(msg.topic);
  }

  /** A topic in neither namespace is published under the "Unhandled" text. */
  lemma OtherNamespaceScenario(msg: Message)
    requires msg.topic == "some/other/topic"
    ensures OnMessage(msg) == Success(Some(Publication(UnhandledPrefix + "some/other/topic", msg.payload)))
  {
    assert !(HomiePrefix <= msg.topic) by { assert msg.topic[0] != HomiePrefix[0]; }
    assert !(HubPrefix <= msg.topic) by { assert msg.topic[0] != HubPrefix[0]; }
    TranslateTopicDispatch(msg.topic);
  }

  /** A Homie topic with only two segments raises instead of being published. */
  lemma ShortTopicScenario(msg: Message)
    requires msg.topic == HomiePrefix + "5ccf7fd3945b"
    ensures OnMessage(msg) == Failure(IndexError)
  {
    NodeOnlyTopic("5ccf7fd3945b");
  }
}
