/** The MQTT topic convention `sensors/<device id>/...` and the device id it carries. */
module MqttTopics {
  import opened Options

  const Separator: char := '/'
  const SensorsSegment: string := "sensors"

  /** `s.split(sep)`: the pieces between separators, in order; at least one. */
  function Split(s: string, sep: char): (parts: seq<string>)
    ensures |parts| >= 1
    ensures forall p :: p in parts ==> sep !in p
    decreases |s|
  {
    if |s| == 0 then [""]
    else
      var rest := Split(s[1..], sep);
      if s[0] == sep then [""] + rest
      else [[s[0]] + rest[0]] + rest[1..]
  }

  /** `sep.join(parts)`. */
  function Join(parts: seq<string>, sep: char): string
    decreases |parts|
  {
    if |parts| <= 1 then (if parts == [] then "" else parts[0])
    else parts[0] + [sep] + Join(parts[1..], sep)
  }

  /** Joining the pieces back with the separator gives the original string. */
  lemma {:induction false} SplitJoinRoundTrip(s: string, sep: char)
    ensures Join(Split(s, sep), sep) == s
    decreases |s|
  {
    if |s| > 0 {
      var rest := Split(s[1..], sep);
      SplitJoinRoundTrip(s[1..], sep);
      if s[0] == sep {
        assert Split(s, sep) == [""] + rest;
        assert ([""] + rest)[1..] == rest;
        assert s == [s[0]] + s[1..];
      } else {
        var parts := Split(s, sep);
        assert parts == [[s[0]] + rest[0]] + rest[1..];
        if |rest| == 1 {
          assert s == [s[0]] + s[1..];
        } else {
          assert parts[1..] == rest[1..];
          assert Join(rest, sep) == rest[0] + [sep] + Join(rest[1..], sep);
          assert s == [s[0]] + s[1..];
        }
      }
    }
  }

  /** A string without the separator splits into itself alone. */
  lemma {:induction false} SplitWithoutSeparator(s: string, sep: char)
    requires sep !in s
    ensures Split(s, sep) == [s]
    decreases |s|
  {
    if |s| > 0 {
      SplitWithoutSeparator(s[1..], sep);
      assert [s[0]] + s[1..] == s;
    }
  }

  /** Splitting at the first separator: the first piece, then the pieces of the remainder. */
  lemma {:induction false} SplitAtFirstSeparator(a: string, b: string, sep: char)
    requires sep !in a
    ensures Split(a + [sep] + b, sep) == [a] + Split(b, sep)
    decreases |a|
  {
    var s := a + [sep] + b;
    if |a| == 0 {
      assert s[1..] == b;
    } else {
      assert s[1..] == a[1..] + [sep] + b;
      SplitAtFirstSeparator(a[1..], b, sep);
      assert [a[0]] + a[1..] == a;
    }
  }

  /**
   * `_extract_device_id`: the second segment of a topic whose first segment
   * is exactly `sensors`; None for any other topic.
   */
  function ExtractDeviceId(topic: string): (id: Option<string>)
    ensures id.Some? ==> Separator !in id.value
    ensures id.Some? ==> Split(topic, Separator)[0] == SensorsSegment
  {
    var parts := Split(topic, Separator);
    if |parts| >= 2 && parts[0] == SensorsSegment then Some(parts[1]) else None
  }

  /** `sensors/<id>` and `sensors/<id>/<anything>` both give `<id>`; later segments are ignored. */
  lemma SensorsTopicGivesDevice(deviceId: string, tail: string)
    requires Separator !in deviceId
    ensures ExtractDeviceId(SensorsSegment + [Separator] + deviceId) == Some(deviceId)
    ensures ExtractDeviceId(SensorsSegment + [Separator] + deviceId + [Separator] + tail) == Some(deviceId)
  {
    SplitAtFirstSeparator(SensorsSegment, deviceId, Separator);
    SplitWithoutSeparator(deviceId, Separator);
    SplitAtFirstSeparator(SensorsSegment, deviceId + [Separator] + tail, Separator);
    SplitAtFirstSeparator(deviceId, tail, Separator);
    assert SensorsSegment + [Separator] + deviceId + [Separator] + tail
        == SensorsSegment + [Separator] + (deviceId + [Separator] + tail);
  }

  /** A topic without any separator has one segment and yields None. */
  lemma TopicWithoutSeparator(topic: string)
    requires Separator !in topic
    ensures ExtractDeviceId(topic) == None
  {
    SplitWithoutSeparator(topic, Separator);
  }

  /** A first segment other than `sensors` yields None. */
  lemma OtherFirstSegment(first: string, rest: string)
    requires Separator !in first && first != SensorsSegment
    ensures ExtractDeviceId(first + [Separator] + rest) == None
  {
    SplitAtFirstSeparator(first, rest, Separator);
  }

  /** Every topic that yields an id has the form `sensors/<id>` or `sensors/<id>/<rest>`. */
  lemma ExtractedTopicShape(topic: string)
    requires ExtractDeviceId(topic).Some?
    ensures var id := ExtractDeviceId(topic).value;
      || topic == SensorsSegment + [Separator] + id
      || exists rest :: topic == SensorsSegment + [Separator] + id + [Separator] + rest
  {
    var parts := Split(topic, Separator);
    var id := parts[1];
    SplitJoinRoundTrip(topic, Separator);
    assert topic == parts[0] + [Separator] + Join(parts[1..], Separator);
    if |parts| == 2 {
      assert Join(parts[1..], Separator) == id;
    } else {
      var rest := Join(parts[2..], Separator);
      assert parts[1..][1..] == parts[2..];
      assert Join(parts[1..], Separator) == id + [Separator] + rest;
      assert topic == SensorsSegment + [Separator] + id + [Separator] + rest;
    }
  }

  /** An empty second segment gives the empty id rather than None; the caller then skips it. */
  lemma EmptySecondSegment()
    ensures ExtractDeviceId("sensors//data") == Some("")
  {
    SensorsTopicGivesDevice("", "data");
    assert SensorsSegment + [Separator] + "" + [Separator] + "data" == "sensors//data";
  }
}
