/** The keys under which plugin events and remote-core events of one measurement meet. */
module RequestIds {
  import opened RequestKeys
  import opened FieldText

  /** A remote-core event carries the request id itself. */
  function KeyOfRemoteEvent(requestId: bv64): Key {
    KeyOf(requestId)
  }

  /** A plugin event carries names, printed by the trace parser, and a frame cut to 32 bits. */
  function KeyOfPluginEvent(pluginId: string, streamId: string, frame: bv64): Key {
    Key(Hash(Escape(pluginId) + Escape(streamId)), (frame & 0xFFFF_FFFF) as bv32)
  }

  /** The request id that the MLA plugin issues: its hash above the frame id, which it does not cut. */
  function IssuedRequestId(nodeName: string, streamId: string, frame: bv64): bv64 {
    ((Hash(nodeName + streamId) as bv64) << 32) | frame
  }

  lemma KeyOfUncutFrame(hash: bv32, frame: bv64)
    ensures KeyOf(((hash as bv64) << 32) | frame) == Key(hash | KeyOf(frame).high, KeyOf(frame).low)
  {
    var h, f := hash as bv64, frame;
    assert (((h << 32) | f) >> 32) & 0xFFFF_FFFF == (h | ((f >> 32) & 0xFFFF_FFFF));
    assert ((h << 32) | f) & 0xFFFF_FFFF == f & 0xFFFF_FFFF;
  }

  /** Both kinds of event are merged into one record exactly when overlong frame bits leave the hash as it is. */
  lemma EventsMeet(nodeName: string, streamId: string, frame: bv64)
    ensures KeyOfRemoteEvent(IssuedRequestId(nodeName, streamId, frame)) == KeyOfPluginEvent(nodeName, streamId, frame)
      <==> Hash(nodeName + streamId) | KeyOf(frame).high == Hash(Escape(nodeName) + Escape(streamId))
  {
    KeyOfUncutFrame(Hash(nodeName + streamId), frame);
  }

  /** For names without special characters: exactly when the overlong frame bits are all set in the hash anyway. */
  lemma EventsMeetForPlainNamesExactly(nodeName: string, streamId: string, frame: bv64)
    requires forall c :: c in nodeName + streamId ==> Plain(c)
    ensures KeyOfRemoteEvent(IssuedRequestId(nodeName, streamId, frame)) == KeyOfPluginEvent(nodeName, streamId, frame)
      <==> KeyOf(frame).high & !Hash(nodeName + streamId) == 0
  {
    EscapeOfPlain(nodeName);
    EscapeOfPlain(streamId);
    EventsMeet(nodeName, streamId, frame);
    Subset(Hash(nodeName + streamId), KeyOf(frame).high);
  }

  lemma Subset(hash: bv32, high: bv32)
    ensures hash | high == hash <==> high & !hash == 0
  {
  }

  /** The plugin's frame id before it was ever set: -1, as 64 bits. */
  const UNSET_FRAME: bv64 := 0xFFFF_FFFF_FFFF_FFFF

  /** Without frame metadata the two kinds of event miss each other, unless the hash has all its bits set. */
  lemma EventsWithoutFrameMiss(nodeName: string, streamId: string)
    requires forall c :: c in nodeName + streamId ==> Plain(c)
    ensures KeyOfRemoteEvent(IssuedRequestId(nodeName, streamId, UNSET_FRAME))
         == KeyOfPluginEvent(nodeName, streamId, UNSET_FRAME)
      <==> Hash(nodeName + streamId) == 0xFFFF_FFFF
  {
    EventsMeetForPlainNamesExactly(nodeName, streamId, UNSET_FRAME);
    assert KeyOf(UNSET_FRAME).high == 0xFFFF_FFFF;
  }

  /** As with this node name. */
  lemma UnsetFrameExample()
    ensures KeyOfRemoteEvent(IssuedRequestId("mla", "", UNSET_FRAME)) != KeyOfPluginEvent("mla", "", UNSET_FRAME)
  {
    assert "mla" + "" == "mla";
    EventsWithoutFrameMiss("mla", "");
    HashOfMla();
  }

  lemma HashOfMla()
    ensures Hash("mla") == 4069933479
  {
    assert "mla"[1..] == "la" && "la"[1..] == "a" && "a"[1..] == "";
    FirstStep();
    SecondStep();
    ThirdStep();
    hide Fnv1aStep;
  }

  lemma FirstStep()
    ensures Fnv1aStep(2166136261, 'm') == 3893112696
  {
    assert 'm' as int % 256 == 109;
  }

  lemma SecondStep()
    ensures Fnv1aStep(3893112696, 'l') == 1596857468
  {
    assert 'l' as int % 256 == 108;
  }

  lemma ThirdStep()
    ensures Fnv1aStep(1596857468, 'a') == 4069933479
  {
    assert 'a' as int % 256 == 97;
  }

  /** Which is so for frame ids below 2^32 and names without special characters. */
  lemma EventsMeetForPlainNames(nodeName: string, streamId: string, frame: bv64)
    requires frame < 0x1_0000_0000
    requires forall c :: c in nodeName + streamId ==> Plain(c)
    ensures KeyOfRemoteEvent(IssuedRequestId(nodeName, streamId, frame)) == KeyOfPluginEvent(nodeName, streamId, frame)
  {
    EscapeOfPlain(nodeName);
    EscapeOfPlain(streamId);
    EventsMeet(nodeName, streamId, frame);
    assert KeyOf(frame).high == 0;
  }
}
