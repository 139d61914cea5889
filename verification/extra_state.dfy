/** The framing of the GBA core's extra save-state items: the video
    renderer and the serial-I/O driver each save an opaque payload, which
    the core prefixes with the component's 32-bit type tag; loading hands
    the payload back only to a component with the same tag. */
module ExtraState {
  import opened Wrappers

  // ---------------------------------------------------------------------
  // STORE_32 / LOAD_32: a 32-bit word as four little-endian bytes

  function Store32(x: bv32): (b: seq<bv8>)
    ensures |b| == 4
  {
    [(x & 0xFF) as bv8, ((x >> 8) & 0xFF) as bv8, ((x >> 16) & 0xFF) as bv8, ((x >> 24) & 0xFF) as bv8]
  }

  function Load32(b: seq<bv8>): bv32
    requires |b| >= 4
  {
    Join(b[0], b[1], b[2], b[3])
  }

  function Join(b0: bv8, b1: bv8, b2: bv8, b3: bv8): bv32 {
    (b0 as bv32) | ((b1 as bv32) << 8) | ((b2 as bv32) << 16) | ((b3 as bv32) << 24)
  }

  lemma JoinSplit(x: bv32)
    ensures Join((x & 0xFF) as bv8, ((x >> 8) & 0xFF) as bv8, ((x >> 16) & 0xFF) as bv8, ((x >> 24) & 0xFF) as bv8) == x
  {
  }

  lemma SplitJoin(b0: bv8, b1: bv8, b2: bv8, b3: bv8)
    ensures var x := Join(b0, b1, b2, b3);
            (x & 0xFF) as bv8 == b0 && ((x >> 8) & 0xFF) as bv8 == b1 &&
            ((x >> 16) & 0xFF) as bv8 == b2 && ((x >> 24) & 0xFF) as bv8 == b3
  {
  }

  /** Reading back a stored word gives the word, whatever follows it. */
  lemma LoadStore(x: bv32, rest: seq<bv8>)
    ensures Load32(Store32(x) + rest) == x
  {
    var b := Store32(x) + rest;
    assert b[0] == Store32(x)[0] && b[1] == Store32(x)[1] && b[2] == Store32(x)[2] && b[3] == Store32(x)[3];
    JoinSplit(x);
  }

  /** Storing a loaded word gives back the four bytes. */
  lemma StoreLoad(b: seq<bv8>)
    requires |b| == 4
    ensures Store32(Load32(b)) == b
  {
    SplitJoin(b[0], b[1], b[2], b[3]);
  }

  /** Distinct words store as distinct byte strings. */
  lemma StoreInjective(x: bv32, y: bv32, rest: seq<bv8>, rest': seq<bv8>)
    requires Store32(x) + rest == Store32(y) + rest'
    ensures x == y
  {
    LoadStore(x, rest);
    LoadStore(y, rest');
  }

  // ---------------------------------------------------------------------
  // Items

  datatype Subsystem = VideoRenderer | SioDriver

  /** One `struct mStateExtdataItem`; None is a NULL `data` pointer, whose
      size is taken to be 0. */
  datatype Item = Item(data: Option<seq<bv8>>) {
    function Size(): nat {
      if data.Some? then |data.value| else 0
    }
  }

  /** The extra-data slots of a save state. */
  type Extdata = map<Subsystem, Item>

  /** A component with state of its own: its type tag (`rendererId` /
      `driverId`), the buffer its `saveState` hands back (None for NULL),
      and its `loadState`, which reports success. */
  datatype Component = Component(id: bv32, saved: Option<seq<bv8>>, load: seq<bv8> -> bool) {
    /** `saveState` produced something to store: a non-NULL, non-empty buffer. */
    predicate Saves() {
      saved.Some? && |saved.value| > 0
    }
  }

  /** The item the save path stores: the tag, then the payload. */
  function Frame(id: bv32, payload: seq<bv8>): (b: seq<bv8>)
    ensures |b| == |payload| + 4
    ensures b[4..] == payload
    ensures Load32(b) == id
  {
    LoadStore(id, payload);
    Store32(id) + payload
  }

  /** The result of looking at one item: the running `ok` flag, and the
      payload handed to the component's `loadState`, if any. */
  datatype LoadStep = LoadStep(ok: bool, delivered: Option<seq<bv8>>)

  /** One item of `_GBACoreLoadExtraState`. An item longer than the tag
      whose tag matches goes to `loadState`, which is called even when
      `ok` is already false; a longer item with another tag is skipped;
      a shorter item with data fails the load. */
  function LoadItem(item: Option<Item>, c: Component, ok: bool): (r: LoadStep)
    ensures r.delivered.Some? <==>
              item.Some? && item.value.Size() > 4 && Load32(item.value.data.value) == c.id
    ensures r.delivered.Some? ==> r.delivered.value == item.value.data.value[4..] &&
                                  r.ok == (c.load(r.delivered.value) && ok)
    ensures r.delivered.None? ==>
              r.ok == (ok && !(item.Some? && item.value.data.Some? && item.value.Size() <= 4))
  {
    match item
    case None => LoadStep(ok, None)
    case Some(it) =>
      if it.Size() > 4 then
        var data := it.data.value;
        if Load32(data) == c.id then
          var payload := data[4..];
          LoadStep(c.load(payload) && ok, Some(payload))
        else
          LoadStep(ok, None)
      else if it.data.Some? then
        LoadStep(false, None)
      else
        LoadStep(ok, None)
  }

  function Lookup(ext: Extdata, sub: Subsystem): Option<Item> {
    if sub in ext then Some(ext[sub]) else None
  }

  /** A slot whose item has data but is no longer than the tag. */
  predicate ShortItem(ext: Extdata, sub: Subsystem) {
    sub in ext && ext[sub].data.Some? && ext[sub].Size() <= 4
  }

  /** What a component is handed from its slot: the bytes after the tag
      when the slot holds an item longer than the tag and carrying the
      component's tag, and nothing otherwise (nor when there is no
      usable component). */
  predicate Delivers(ext: Extdata, sub: Subsystem, c: Option<Component>, delivered: Option<seq<bv8>>) {
    if c.Some? && sub in ext && ext[sub].Size() > 4 && Load32(ext[sub].data.value) == c.value.id
    then delivered == Some(ext[sub].data.value[4..])
    else delivered.None?
  }

  /** What a slot holds after a save: the framed payload when the
      component saved something, and otherwise what it held before. */
  predicate SlotAfterSave(before: Extdata, after: Extdata, sub: Subsystem, c: Option<Component>) {
    if c.Some? && c.value.Saves()
    then sub in after && after[sub] == Item(Some(Frame(c.value.id, c.value.saved.value)))
    else (sub in after <==> sub in before) && (sub in before ==> after[sub] == before[sub])
  }

  /** The result of `_GBACoreLoadExtraState` and what each component's
      `loadState` was given. */
  datatype LoadResult = LoadResult(ok: bool, video: Option<seq<bv8>>, sio: Option<seq<bv8>>)

  /** `_GBACoreLoadExtraState`. `sio` None is a missing driver, or one
      without `driverId` or `loadState`; then its slot is not read. */
  function LoadExtraState(ext: Extdata, renderer: Component, sio: Option<Component>): (r: LoadResult)
    ensures Delivers(ext, VideoRenderer, Some(renderer), r.video)
    ensures Delivers(ext, SioDriver, sio, r.sio)
    ensures ShortItem(ext, VideoRenderer) ==> !r.ok
    ensures sio.Some? && ShortItem(ext, SioDriver) ==> !r.ok
    ensures r.ok == (!ShortItem(ext, VideoRenderer) && (sio.Some? ==> !ShortItem(ext, SioDriver)) &&
                     (r.video.Some? ==> renderer.load(r.video.value)) &&
                     (r.sio.Some? ==> sio.value.load(r.sio.value)))
  {
    var v := LoadItem(Lookup(ext, VideoRenderer), renderer, true);
    match sio
    case None => LoadResult(v.ok, v.delivered, None)
    case Some(driver) =>
      var s := LoadItem(Lookup(ext, SioDriver), driver, v.ok);
      LoadResult(s.ok, v.delivered, s.delivered)
  }

  /** Storing one component's state: only a non-empty buffer is stored,
      replacing what the slot held. */
  function SaveItem(ext: Extdata, sub: Subsystem, c: Component): (r: Extdata)
    ensures c.Saves() ==> sub in r && r[sub] == Item(Some(Frame(c.id, c.saved.value)))
    ensures !c.Saves() ==> r == ext
    ensures forall s :: s in ext && s != sub ==> s in r && r[s] == ext[s]
  {
    if c.Saves() then ext[sub := Item(Some(Frame(c.id, c.saved.value)))] else ext
  }

  /** `_GBACoreSaveExtraState`, which always reports success. `sio` None
      is a missing driver, or one without `driverId` or `saveState`. */
  function SaveExtraState(ext: Extdata, renderer: Component, sio: Option<Component>): (r: Extdata)
    ensures SlotAfterSave(ext, r, VideoRenderer, Some(renderer))
    ensures SlotAfterSave(ext, r, SioDriver, sio)
  {
    var afterVideo := SaveItem(ext, VideoRenderer, renderer);
    match sio
    case None => afterVideo
    case Some(driver) => SaveItem(afterVideo, SioDriver, driver)
  }

  // ---------------------------------------------------------------------
  // Round trip

  /** Saved items are longer than the tag: the save path never writes an
      item the load path would reject as short. */
  lemma SavedItemsAreLong(ext: Extdata, renderer: Component, sio: Option<Component>, sub: Subsystem)
    requires forall s :: s in ext ==> ext[s].Size() > 4
    ensures var r := SaveExtraState(ext, renderer, sio);
            sub in r ==> r[sub].Size() > 4
  {
  }

  /** Loading an item under the component that saved it hands back exactly
      the saved payload, and `ok` becomes what `loadState` reports. */
  lemma FrameRoundTrip(c: Component, ok: bool)
    requires c.Saves()
    ensures LoadItem(Some(Item(Some(Frame(c.id, c.saved.value)))), c, ok) ==
              LoadStep(c.load(c.saved.value) && ok, c.saved)
  {
  }

  /** Under another type tag the item is skipped and `ok` is unchanged. */
  lemma OtherTagSkipped(id: bv32, payload: seq<bv8>, c: Component, ok: bool)
    requires |payload| > 0 && id != c.id
    ensures LoadItem(Some(Item(Some(Frame(id, payload)))), c, ok) == LoadStep(ok, None)
  {
  }

  /** An item with data but no longer than the tag fails the load, and so
      does the whole call, whatever the serial driver reports. */
  lemma ShortItemFails(ext: Extdata, renderer: Component, sio: Option<Component>)
    requires VideoRenderer in ext && ext[VideoRenderer].data.Some? && ext[VideoRenderer].Size() <= 4
    ensures !LoadExtraState(ext, renderer, sio).ok
    ensures LoadExtraState(ext, renderer, sio).video.None?
  {
  }

  /** Saving and then loading with the same components gives each one
      exactly the payload it saved, and the call succeeds exactly when
      every `loadState` that ran succeeded. */
  lemma SaveThenLoad(ext: Extdata, renderer: Component, sio: Option<Component>)
    requires renderer.Saves()
    requires sio.Some? ==> sio.value.Saves()
    ensures var r := LoadExtraState(SaveExtraState(ext, renderer, sio), renderer, sio);
            r.video == renderer.saved &&
            r.sio == (if sio.Some? then sio.value.saved else None) &&
            r.ok == (renderer.load(renderer.saved.value) &&
                     (sio.Some? ==> sio.value.load(sio.value.saved.value)))
  {
    var saved := SaveExtraState(ext, renderer, sio);
    FrameRoundTrip(renderer, true);
    if sio.Some? {
      FrameRoundTrip(sio.value, renderer.load(renderer.saved.value));
    }
  }
}
