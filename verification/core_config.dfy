/** How the GBA core applies its configuration: the mute/volume/frameskip
    options, the idle-loop optimisation setting, the opposing-directions
    switch, and the keys it copies into its own configuration. */
module CoreConfig {
  import opened Wrappers
  import CString
  import VideoSize

  /** One stored configuration value: its text, and what the config
      store's integer and boolean readers make of it (their parsing is
      not part of this model). */
  datatype ConfigValue = ConfigValue(text: string, asInt: Option<int>, asBool: Option<bool>)

  /** A configuration is a partial map from keys to values. */
  type Config = map<string, ConfigValue>

  /** `mCoreConfigGetValue`: the stored text, or NULL. */
  function GetValue(config: Config, key: string): (r: Option<string>)
    ensures r.Some? <==> key in config
    ensures r.Some? ==> r.value == config[key].text
  {
    if key in config then Some(config[key].text) else None
  }

  /** `mCoreConfigGetIntValue`: success plus the value. */
  function GetIntValue(config: Config, key: string): (r: Option<int>)
    ensures r.Some? ==> key in config && config[key].asInt == r
    ensures key in config && config[key].asInt.Some? ==> r == config[key].asInt
  {
    if key in config then config[key].asInt else None
  }

  /** `mCoreConfigGetBoolValue`: success plus the value. */
  function GetBoolValue(config: Config, key: string): (r: Option<bool>)
    ensures r.Some? ==> key in config && config[key].asBool == r
    ensures key in config && config[key].asBool.Some? ==> r == config[key].asBool
  {
    if key in config then config[key].asBool else None
  }

  /** `mCoreConfigCopyValue`: copy the key if the source has it. */
  function CopyValue(dest: Config, src: Config, key: string): (r: Config)
    ensures key in src ==> key in r && r[key] == src[key]
    ensures key !in src ==> r == dest
    ensures forall k :: k in dest && k != key ==> k in r && r[k] == dest[k]
    ensures forall k :: k in r ==> k in dest || k == key
  {
    if key in src then dest[key := src[key]] else dest
  }

  /** The `struct mCoreOptions` fields the core reads. */
  datatype Opts = Opts(mute: bool, volume: int, frameskip: int)

  datatype IdleOptimization = IdleIgnore | IdleRemove | IdleDetect

  /** The `struct GBA` fields configuration writes. `idleLoopKnown` is
      `idleLoop != GBA_IDLE_LOOP_NONE`. */
  datatype Gba = Gba(
    masterVolume: int, frameskip: int,
    idleOptimization: IdleOptimization, idleLoopKnown: bool,
    allowOpposingDirections: bool)

  /** The core: its options, its own configuration, the emulated GBA and
      the GL renderer whose scale the reported video size follows. */
  datatype Core = Core(opts: Opts, config: Config, gba: Gba, gl: VideoSize.GlRenderer)

  /** Hardware-accelerated video is switched on in `config`. */
  predicate HwaccelEnabled(config: Config) {
    GetBoolValue(config, "hwaccelVideo") == Some(true)
  }

  /** The audio invariant: muted means silent, otherwise the master volume
      is the configured volume. */
  predicate AudioConsistent(core: Core) {
    core.gba.masterVolume == if core.opts.mute then 0 else core.opts.volume
  }

  /** The master volume the options call for. */
  function MasterVolume(opts: Opts): int {
    if opts.mute then 0 else opts.volume
  }

  /** The `idleOptimization` setting, compared ignoring case. An unknown
      word keeps the current setting; `detect` becomes `remove` when an
      idle loop is already known. */
  function ParseIdleOptimization(text: string, current: IdleOptimization, idleLoopKnown: bool): (r: IdleOptimization)
    ensures CString.EqualIgnoringCase(text, "ignore") ==> r == IdleIgnore
    ensures CString.EqualIgnoringCase(text, "remove") ==> r == IdleRemove
    ensures CString.EqualIgnoringCase(text, "detect") ==> r == if idleLoopKnown then IdleRemove else IdleDetect
    ensures (!CString.EqualIgnoringCase(text, "ignore") && !CString.EqualIgnoringCase(text, "remove") &&
             !CString.EqualIgnoringCase(text, "detect")) ==> r == current
  {
    IdleWordsExclusive(text);
    if CString.EqualIgnoringCase(text, "ignore") then IdleIgnore
    else if CString.EqualIgnoringCase(text, "remove") then IdleRemove
    else if CString.EqualIgnoringCase(text, "detect") then
      if idleLoopKnown then IdleRemove else IdleDetect
    else current
  }

  /** No text matches two of the three words: they differ in their first
      letter in every case. */
  lemma IdleWordsExclusive(text: string)
    ensures !(CString.EqualIgnoringCase(text, "ignore") && CString.EqualIgnoringCase(text, "remove"))
    ensures !(CString.EqualIgnoringCase(text, "ignore") && CString.EqualIgnoringCase(text, "detect"))
    ensures !(CString.EqualIgnoringCase(text, "remove") && CString.EqualIgnoringCase(text, "detect"))
  {
    if |text| > 0 {
      assert CString.ToLower('i') == 'i' && CString.ToLower('r') == 'r' && CString.ToLower('d') == 'd';
      assert "ignore"[0] == 'i' && "remove"[0] == 'r' && "detect"[0] == 'd';
    }
  }

  /** The keys `_GBACoreLoadConfig` copies into the core's own configuration
      (with threaded video built in). */
  const CopiedKeys: seq<string> := [
    "allowOpposingDirections", "gba.bios", "gba.forceGbp", "vbaBugCompat",
    "threadedVideo", "hwaccelVideo", "videoScale"
  ]

  function CopyAll(dest: Config, src: Config, keys: seq<string>): (r: Config)
    ensures forall k :: k in keys && k in src ==> k in r && r[k] == src[k]
    ensures forall k :: k in dest && (k !in keys || k !in src) ==> k in r && r[k] == dest[k]
    ensures forall k :: k in r ==> k in dest || (k in keys && k in src)
    decreases |keys|
  {
    if |keys| == 0 then dest
    else CopyAll(CopyValue(dest, src, keys[0]), src, keys[1..])
  }

  /** `_GBACoreLoadConfig`. */
  function LoadConfig(core: Core, config: Config): (r: Core)
    ensures AudioConsistent(r)
    ensures r.gba.frameskip == core.opts.frameskip
    ensures r.opts == core.opts && r.gl == core.gl
    ensures r.gba.idleLoopKnown == core.gba.idleLoopKnown
    ensures "idleOptimization" !in config ==> r.gba.idleOptimization == core.gba.idleOptimization
    ensures "idleOptimization" in config ==>
              r.gba.idleOptimization ==
                ParseIdleOptimization(config["idleOptimization"].text, core.gba.idleOptimization, core.gba.idleLoopKnown)
    ensures r.gba.allowOpposingDirections ==
              GetBoolValue(config, "allowOpposingDirections").GetOr(core.gba.allowOpposingDirections)
    ensures forall k :: k in CopiedKeys && k in config ==> k in r.config && r.config[k] == config[k]
    ensures forall k :: k in core.config && (k !in CopiedKeys || k !in config) ==>
              k in r.config && r.config[k] == core.config[k]
    ensures forall k :: k in r.config ==> k in core.config || (k in CopiedKeys && k in config)
  {
    var gba := core.gba;
    var idle := match GetValue(config, "idleOptimization")
      case Some(text) => ParseIdleOptimization(text, gba.idleOptimization, gba.idleLoopKnown)
      case None => gba.idleOptimization;
    var allow := match GetBoolValue(config, "allowOpposingDirections")
      case Some(b) => b
      case None => gba.allowOpposingDirections;
    var gba' := gba.(masterVolume := MasterVolume(core.opts), frameskip := core.opts.frameskip,
                     idleOptimization := idle, allowOpposingDirections := allow);
    core.(gba := gba', config := CopyAll(core.config, config, CopiedKeys))
  }

  /** The option names `_GBACoreReloadConfigOption` acts on here. */
  const ReloadedOptions: seq<string> := [
    "mute", "volume", "frameskip", "allowOpposingDirections", "videoScale", "hwaccelVideo"
  ]

  /** The core's own configuration after a reload copied `key` from the
      given configuration; the NULL configuration is the core's own, which
      is not copied onto itself. */
  function Adopt(core: Core, config: Option<Config>, key: string): Config {
    if config.Some? then CopyValue(core.config, config.value, key) else core.config
  }

  /** `_GBACoreReloadConfigOption` for the options that touch audio, video
      timing, input and the GL renderer's scale. `option` None is the NULL
      option (re-apply the options), and `config` None is the NULL
      configuration (use the core's own). */
  function ReloadConfigOption(core: Core, option: Option<string>, config: Option<Config>): (r: Core)
    ensures r.gba.idleOptimization == core.gba.idleOptimization && r.gba.idleLoopKnown == core.gba.idleLoopKnown
    ensures r.gl.attached == core.gl.attached
    ensures option.None? ==>
              AudioConsistent(r) && r.gba.frameskip == r.opts.frameskip &&
              r.gba.allowOpposingDirections == core.gba.allowOpposingDirections &&
              r.opts == core.opts && r.config == core.config && r.gl == core.gl
    ensures option.Some? && option.value !in ReloadedOptions ==> r == core
    ensures option == Some("mute") ==>
              r.config == core.config && r.gl == core.gl &&
              r.opts == core.opts.(mute := GetBoolValue(config.GetOr(core.config), "mute").GetOr(core.opts.mute)) &&
              r.gba == if GetBoolValue(config.GetOr(core.config), "mute").Some?
                       then core.gba.(masterVolume := MasterVolume(r.opts))
                       else core.gba
    ensures option == Some("volume") ==>
              r.config == core.config && r.gl == core.gl &&
              r.opts == core.opts.(volume := GetIntValue(config.GetOr(core.config), "volume").GetOr(core.opts.volume)) &&
              r.gba == if GetIntValue(config.GetOr(core.config), "volume").Some? && !core.opts.mute
                       then core.gba.(masterVolume := r.opts.volume)
                       else core.gba
    ensures option == Some("frameskip") ==>
              r.config == core.config && r.gl == core.gl &&
              r.opts == core.opts.(frameskip := GetIntValue(config.GetOr(core.config), "frameskip").GetOr(core.opts.frameskip)) &&
              r.gba == if GetIntValue(config.GetOr(core.config), "frameskip").Some?
                       then core.gba.(frameskip := r.opts.frameskip)
                       else core.gba
    ensures option == Some("allowOpposingDirections") ==>
              r.gba == core.gba.(allowOpposingDirections :=
                GetBoolValue(config.GetOr(core.config), "allowOpposingDirections").GetOr(core.gba.allowOpposingDirections)) &&
              r.config == Adopt(core, config, "allowOpposingDirections") &&
              r.opts == core.opts && r.gl == core.gl
    ensures option == Some("videoScale") ==>
              r.config == Adopt(core, config, "videoScale") && r.opts == core.opts && r.gba == core.gba &&
              r.gl.scale == if core.gl.attached && HwaccelEnabled(r.config)
                            then GetIntValue(config.GetOr(core.config), "videoScale").GetOr(core.gl.scale)
                            else core.gl.scale
    ensures option == Some("hwaccelVideo") ==>
              r.config == core.config && r.opts == core.opts && r.gba == core.gba &&
              r.gl.scale == if core.gl.attached && HwaccelEnabled(core.config)
                            then GetIntValue(core.config, "videoScale").GetOr(core.gl.scale)
                            else 1
    ensures option == Some("hwaccelVideo") ==>
              VideoSize.VideoScale(r.gl) ==
                if core.gl.attached && HwaccelEnabled(core.config)
                then VideoSize.ToUnsigned(GetIntValue(core.config, "videoScale").GetOr(core.gl.scale))
                else 1
  {
    var source := config.GetOr(core.config);
    var gba := core.gba;
    match option
    case None =>
      core.(gba := gba.(masterVolume := MasterVolume(core.opts), frameskip := core.opts.frameskip))
    case Some(name) =>
      if name == "mute" then
        match GetBoolValue(source, "mute")
        case Some(mute) =>
          var opts := core.opts.(mute := mute);
          core.(opts := opts, gba := gba.(masterVolume := MasterVolume(opts)))
        case None => core
      else if name == "volume" then
        match GetIntValue(source, "volume")
        case Some(volume) =>
          var opts := core.opts.(volume := volume);
          if opts.mute then core.(opts := opts)
          else core.(opts := opts, gba := gba.(masterVolume := volume))
        case None => core
      else if name == "frameskip" then
        match GetIntValue(source, "frameskip")
        case Some(skip) =>
          core.(opts := core.opts.(frameskip := skip), gba := gba.(frameskip := skip))
        case None => core
      else if name == "allowOpposingDirections" then
        var allow := GetBoolValue(source, "allowOpposingDirections").GetOr(gba.allowOpposingDirections);
        core.(config := Adopt(core, config, "allowOpposingDirections"), gba := gba.(allowOpposingDirections := allow))
      else if name == "videoScale" then
        var own := Adopt(core, config, "videoScale");
        if core.gl.attached && HwaccelEnabled(own) then
          core.(config := own, gl := core.gl.(scale := GetIntValue(source, "videoScale").GetOr(core.gl.scale)))
        else
          core.(config := own)
      else if name == "hwaccelVideo" then
        if core.gl.attached && HwaccelEnabled(core.config) then
          core.(gl := core.gl.(scale := GetIntValue(core.config, "videoScale").GetOr(core.gl.scale)))
        else
          core.(gl := core.gl.(scale := 1))
      else
        core
  }

  // ---------------------------------------------------------------------
  // Properties

  /** Reloading any option keeps the audio invariant. */
  lemma ReloadKeepsAudioConsistent(core: Core, option: Option<string>, config: Option<Config>)
    requires AudioConsistent(core)
    ensures AudioConsistent(ReloadConfigOption(core, option, config))
  {
  }

  /** A volume change while muted is remembered but leaves the master
      volume at 0; unmuting afterwards brings it in. */
  lemma VolumeWhileMuted(core: Core, config: Config, volume: int)
    requires AudioConsistent(core) && core.opts.mute
    requires "volume" in config && config["volume"].asInt == Some(volume)
    requires "mute" in config && config["mute"].asBool == Some(false)
    ensures var muted := ReloadConfigOption(core, Some("volume"), Some(config));
            muted.gba.masterVolume == 0 && muted.opts.volume == volume &&
            ReloadConfigOption(muted, Some("mute"), Some(config)).gba.masterVolume == volume
  {
  }

  /** A frameskip reload that finds a value sets both the option and the
      video frameskip to it; one that finds none changes nothing. */
  lemma FrameskipPropagates(core: Core, config: Config)
    ensures var r := ReloadConfigOption(core, Some("frameskip"), Some(config));
            match GetIntValue(config, "frameskip")
            case Some(v) => r.opts.frameskip == v && r.gba.frameskip == v
            case None => r == core
  {
  }

  /** The idle-loop setting is read ignoring case. */
  lemma IdleOptimizationIgnoresCase(current: IdleOptimization, known: bool)
    ensures ParseIdleOptimization("IGNORE", current, known) == IdleIgnore
    ensures ParseIdleOptimization("Remove", current, known) == IdleRemove
    ensures ParseIdleOptimization("DeTeCt", current, false) == IdleDetect
    ensures ParseIdleOptimization("detect", current, true) == IdleRemove
    ensures ParseIdleOptimization("detected", current, known) == current
  {
    assert CString.EqualIgnoringCase("IGNORE", "ignore");
    assert CString.EqualIgnoringCase("Remove", "remove");
    assert !CString.EqualIgnoringCase("Remove", "ignore") by {
      assert CString.ToLower("Remove"[0]) != CString.ToLower("ignore"[0]);
    }
    assert CString.EqualIgnoringCase("DeTeCt", "detect");
    assert !CString.EqualIgnoringCase("DeTeCt", "ignore") by {
      assert CString.ToLower("DeTeCt"[0]) != CString.ToLower("ignore"[0]);
    }
    assert !CString.EqualIgnoringCase("DeTeCt", "remove") by {
      assert CString.ToLower("DeTeCt"[0]) != CString.ToLower("remove"[0]);
    }
    assert !CString.EqualIgnoringCase("detect", "ignore") by {
      assert CString.ToLower("detect"[0]) != CString.ToLower("ignore"[0]);
    }
    assert !CString.EqualIgnoringCase("detect", "remove") by {
      assert CString.ToLower("detect"[0]) != CString.ToLower("remove"[0]);
    }
  }

  /** Loading a configuration and then reloading with no option name gives
      the same audio and video state. */
  lemma ReloadAllAfterLoad(core: Core, config: Config)
    ensures var loaded := LoadConfig(core, config);
            ReloadConfigOption(loaded, None, None) == loaded
  {
  }

  /** Switching hardware acceleration off, or reloading it with no GL
      texture attached, brings the reported video size back to the
      native 240x160. */
  lemma HwaccelOffRestoresNativeSize(core: Core, config: Option<Config>)
    requires !(core.gl.attached && HwaccelEnabled(core.config))
    ensures VideoSize.CurrentVideoSize(ReloadConfigOption(core, Some("hwaccelVideo"), config).gl) ==
              (VideoSize.HorizontalPixels, VideoSize.VerticalPixels)
  {
    var r := ReloadConfigOption(core, Some("hwaccelVideo"), config);
    assert r.gl.scale == 1;
  }

  /** With a GL texture attached and hardware acceleration on, a new
      `videoScale` read from the given configuration becomes the factor of
      the reported video size. */
  lemma VideoScaleReachesVideoSize(core: Core, config: Config, v: int)
    requires core.gl.attached && HwaccelEnabled(core.config)
    requires "videoScale" in config && config["videoScale"].asInt == Some(v)
    requires 0 < v && VideoSize.HorizontalPixels * v < VideoSize.UintModulus
    ensures var r := ReloadConfigOption(core, Some("videoScale"), Some(config));
            VideoSize.VideoScale(r.gl) == v &&
            VideoSize.CurrentVideoSize(r.gl) == (VideoSize.HorizontalPixels * v, VideoSize.VerticalPixels * v)
  {
    var own := Adopt(core, Some(config), "videoScale");
    assert HwaccelEnabled(own) by {
      assert "hwaccelVideo" in own && own["hwaccelVideo"] == core.config["hwaccelVideo"];
    }
  }
}
