/** The GBA core's debugging switches: turning a video layer or an audio
    channel on or off by its id, and the channel lists those ids come
    from. Layer ids are the positions of `_GBAVideoLayers` (BG0..BG3,
    OBJ, WIN0, WIN1, OBJWIN as 0..7, which the renderer's `disableBG[id]`
    indexing relies on for the backgrounds). */
module Switches {
  import opened Wrappers

  /** One `struct mCoreChannelInfo`; a NULL `visibleType` is None. */
  datatype ChannelInfo = ChannelInfo(id: nat, internalName: string, visibleName: string, visibleType: Option<string>)

  /** `_GBACoreListVideoLayers`: eight layers, each listed under its own
      position as id. */
  function VideoLayers(): (layers: seq<ChannelInfo>)
    ensures |layers| == 8
    ensures forall i :: 0 <= i < |layers| ==> layers[i].id == i
    ensures forall i :: 0 <= i < |layers| ==> layers[i].visibleType.None?
  {
    [
    ChannelInfo(0, "bg0", "Background 0", None),
    ChannelInfo(1, "bg1", "Background 1", None),
    ChannelInfo(2, "bg2", "Background 2", None),
    ChannelInfo(3, "bg3", "Background 3", None),
    ChannelInfo(4, "obj", "Objects", None),
    ChannelInfo(5, "win0", "Window 0", None),
    ChannelInfo(6, "win1", "Window 1", None),
    ChannelInfo(7, "objwin", "Object Window", None)
    ]
  }

  /** `_GBACoreListAudioChannels`: four PSG channels and the two FIFO
      channels, each listed under its own position as id. */
  function AudioChannels(): (channels: seq<ChannelInfo>)
    ensures |channels| == 6
    ensures forall i :: 0 <= i < |channels| ==> channels[i].id == i
    ensures forall i :: 0 <= i < |channels| ==> (channels[i].visibleType.Some? <==> i < 4)
  {
    [
    ChannelInfo(0, "ch1", "PSG Channel 1", Some("Square/Sweep")),
    ChannelInfo(1, "ch2", "PSG Channel 2", Some("Square")),
    ChannelInfo(2, "ch3", "PSG Channel 3", Some("PCM")),
    ChannelInfo(3, "ch4", "PSG Channel 4", Some("Noise")),
    ChannelInfo(4, "chA", "FIFO Channel A", None),
    ChannelInfo(5, "chB", "FIFO Channel B", None)
    ]
  }

  /** The renderer's layer switches. */
  datatype LayerSwitches = LayerSwitches(disableBG: seq<bool>, disableOBJ: bool, disableWIN: seq<bool>, disableOBJWIN: bool) {
    predicate Valid() {
      |disableBG| == 4 && |disableWIN| == 2
    }

    /** Whether layer `id` is switched off. */
    function Disabled(id: nat): bool
      requires Valid() && id < 8
    {
      if id < 4 then disableBG[id]
      else if id == 4 then disableOBJ
      else if id < 7 then disableWIN[id - 5]
      else disableOBJWIN
    }
  }

  /** The audio mixer's channel switches. */
  datatype ChannelSwitches = ChannelSwitches(forceDisableCh: seq<bool>, forceDisableChA: bool, forceDisableChB: bool) {
    predicate Valid() {
      |forceDisableCh| == 4
    }

    function Disabled(id: nat): bool
      requires Valid() && id < 6
    {
      if id < 4 then forceDisableCh[id]
      else if id == 4 then forceDisableChA
      else forceDisableChB
    }
  }

  /** `_GBACoreEnableVideoLayer`: the layer's switch becomes `!enable`,
      every other switch keeps its value, and an unknown id changes
      nothing. */
  function EnableVideoLayer(s: LayerSwitches, id: nat, enable: bool): (r: LayerSwitches)
    requires s.Valid()
    ensures r.Valid()
    ensures id < 8 ==> r.Disabled(id) == !enable
    ensures forall k :: 0 <= k < 8 && k != id ==> r.Disabled(k) == s.Disabled(k)
    ensures id >= 8 ==> r == s
  {
    if id < 4 then s.(disableBG := s.disableBG[id := !enable])
    else if id == 4 then s.(disableOBJ := !enable)
    else if id == 5 then s.(disableWIN := s.disableWIN[0 := !enable])
    else if id == 6 then s.(disableWIN := s.disableWIN[1 := !enable])
    else if id == 7 then s.(disableOBJWIN := !enable)
    else s
  }

  /** `_GBACoreEnableAudioChannel`: the same for the six audio channels. */
  function EnableAudioChannel(s: ChannelSwitches, id: nat, enable: bool): (r: ChannelSwitches)
    requires s.Valid()
    ensures r.Valid()
    ensures id < 6 ==> r.Disabled(id) == !enable
    ensures forall k :: 0 <= k < 6 && k != id ==> r.Disabled(k) == s.Disabled(k)
    ensures id >= 6 ==> r == s
  {
    if id < 4 then s.(forceDisableCh := s.forceDisableCh[id := !enable])
    else if id == 4 then s.(forceDisableChA := !enable)
    else if id == 5 then s.(forceDisableChB := !enable)
    else s
  }

  /** Every listed layer and channel has a switch, and switching it off and
      back on restores the switches it started with when it was on. */
  lemma ListedIdsHaveSwitches(layers: LayerSwitches, channels: ChannelSwitches, i: nat, j: nat)
    requires layers.Valid() && channels.Valid()
    requires i < |VideoLayers()| && j < |AudioChannels()|
    ensures var id := VideoLayers()[i].id;
            id < 8 && (!layers.Disabled(id) ==> EnableVideoLayer(EnableVideoLayer(layers, id, false), id, true) == layers)
    ensures var id := AudioChannels()[j].id;
            id < 6 && (!channels.Disabled(id) ==> EnableAudioChannel(EnableAudioChannel(channels, id, false), id, true) == channels)
  {
    var id := VideoLayers()[i].id;
    if !layers.Disabled(id) {
      var back := EnableVideoLayer(EnableVideoLayer(layers, id, false), id, true);
      assert back.disableBG == layers.disableBG;
      assert back.disableWIN == layers.disableWIN;
    }
    var cid := AudioChannels()[j].id;
    if !channels.Disabled(cid) {
      var back := EnableAudioChannel(EnableAudioChannel(channels, cid, false), cid, true);
      assert back.forceDisableCh == channels.forceDisableCh;
    }
  }
}
