/** The PUBLISH/EVENT payload: two length bytes, the topic, the message. */
module Payload {
  import opened Bytes
  import opened Wrappers

  datatype Message = Message(topic: seq<byte>, text: seq<byte>)

  /** What Rust's `publish` sends: the topic length goes through `as u16`. */
  function PublishPayload(topic: seq<byte>, text: seq<byte>): seq<byte> {
    BigEndian(2, |topic| % TWO_POW_16) + topic + text
  }

  /** `publish` grows a vector in three steps. */
  method BuildPublishPayload(topic: seq<byte>, text: seq<byte>) returns (payload: seq<byte>)
    ensures payload == PublishPayload(topic, text)
  {
    payload := [];
    payload := payload + BigEndian(2, |topic| % TWO_POW_16);
    payload := payload + topic;
    payload := payload + text;
  }

  /** `writeUInt16BE` and `struct.pack(">H")` refuse what does not fit instead of truncating. */
  function CheckedPublishPayload(topic: seq<byte>, text: seq<byte>): Result<seq<byte>, ()> {
    if |topic| < TWO_POW_16 then Ok(BigEndian(2, |topic|) + topic + text) else Err(())
  }

  /** `parse_message`, the same in the three clients; text decoding is the identity on bytes. */
  function ParseMessage(payload: seq<byte>): Option<Message> {
    if |payload| < 2 then None
    else
      var topicLength := Value(payload[..2]);
      if |payload| < 2 + topicLength then None
      else Some(Message(payload[2..2 + topicLength], payload[2 + topicLength..]))
  }

  /** A payload built from any topic parses; the split falls at the topic length modulo 65536. */
  lemma PublishedSplit(topic: seq<byte>, text: seq<byte>)
    ensures var n := |topic| % TWO_POW_16;
            ParseMessage(PublishPayload(topic, text))
            == Some(Message((topic + text)[..n], (topic + text)[n..]))
  {
    var n := |topic| % TWO_POW_16;
    var payload := PublishPayload(topic, text);
    Widths();
    ValueOfBigEndian(2, n);
    assert payload[..2] == BigEndian(2, n);
    assert payload[2..] == topic + text;
    assert payload[2..2 + n] == payload[2..][..n];
    assert payload[2 + n..] == payload[2..][n..];
  }

  /** The payload byte for byte: two length bytes, then the topic, then the message. */
  lemma PayloadOnTheWire(topic: seq<byte>, text: seq<byte>)
    ensures var payload := PublishPayload(topic, text);
            && |payload| == 2 + |topic| + |text|
            && payload[0] == |topic| / 0x100 % 0x100 && payload[1] == |topic| % 0x100
            && payload[2..2 + |topic|] == topic && payload[2 + |topic|..] == text
  {
    var n := |topic| % TWO_POW_16;
    assert BigEndian(2, n) == BigEndian(1, n / 256) + [n % 256];
    assert BigEndian(1, n / 256) == [n / 256];
    assert n / 256 == |topic| / 256 % 256 && n % 256 == |topic| % 256;
  }

  /** The round trip, exactly when it holds. */
  lemma PublishRoundTrip(topic: seq<byte>, text: seq<byte>)
    ensures ParseMessage(PublishPayload(topic, text)) == Some(Message(topic, text))
            <==> |topic| < TWO_POW_16
  {
    hide PublishPayload, ParseMessage;
    PublishedSplit(topic, text);
    var n := |topic| % TWO_POW_16;
    if |topic| < TWO_POW_16 {
      assert n == |topic|;
      assert (topic + text)[..n] == topic && (topic + text)[n..] == text;
    } else {
      assert |(topic + text)[..n]| < |topic|;
    }
  }

  /** Nothing parses that `publish` could not have sent, and no byte is lost in parsing. */
  lemma ParsedIsPublished(payload: seq<byte>)
    ensures ParseMessage(payload).Some?
            <==> exists topic, text :: |topic| < TWO_POW_16 && payload == PublishPayload(topic, text)
    ensures ParseMessage(payload).Some? ==>
              var m := ParseMessage(payload).value;
              |m.topic| < TWO_POW_16 && PublishPayload(m.topic, m.text) == payload
  {
    if ParseMessage(payload).Some? {
      var m := ParseMessage(payload).value;
      Widths();
      BigEndianOfValue(payload[..2]);
      assert payload == payload[..2] + m.topic + m.text;
      assert PublishPayload(m.topic, m.text) == payload;
    }
    forall topic, text | |topic| < TWO_POW_16 && payload == PublishPayload(topic, text)
      ensures ParseMessage(payload).Some?
    {
      PublishRoundTrip(topic, text);
    }
  }

  /** The checked builders succeed exactly on the topics that round-trip, with Rust's bytes. */
  lemma CheckedPublishAgrees(topic: seq<byte>, text: seq<byte>)
    ensures CheckedPublishPayload(topic, text)
            == if ParseMessage(PublishPayload(topic, text)) == Some(Message(topic, text))
               then Ok(PublishPayload(topic, text)) else Err(())
  {
    PublishRoundTrip(topic, text);
  }
}
