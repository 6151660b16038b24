/** The sequence rules of the stimulus adapters: aligning the encoder arrays
    of a visual-coding pickle with its timing array, the options passed to
    the HDF5 writer, the memoised `core_data` and `running_speed`
    properties, and where `get_times` takes its timestamps from.

    An adapter is an immutable record; every property access returns its
    value, or the exception it raises, together with the adapter as it
    stands afterwards, so the two caches (`_data`, `_running_speed`) are
    explicit and a cache filled before an exception stays filled. The
    calls into pandas, visual_behavior, pynwb and the sync-file reader are
    the fields of an `Env`, opaque to the model. */
module Stimulus {
  import opened Wrappers

  /** The exceptions the adapters raise. */
  datatype StimulusError =
    | NotImplemented      // `core_data` of the base adapter
    | MissingRunningColumn // KeyError: `core_data['running']` without a running entry
    | MissingTimeColumn   // KeyError: `core_data['time']` without a time entry

  /** `s[:n]`: the first `n` elements, or all of `s` when it is shorter. */
  function Take<T>(s: seq<T>, n: nat): (r: seq<T>)
    ensures |r| == if n < |s| then n else |s|
    ensures r == s[..|r|]
  {
    if n < |s| then s[..n] else s
  }

  // ---------------------------------------------------------------------------
  // Visual-coding running speed
  // ---------------------------------------------------------------------------

  /** The first encoder record of `exp_data['items']['foraging']`. */
  datatype Encoder = Encoder(dx: seq<real>, vsig: seq<real>, vin: seq<real>)

  /** The parts of a visual-coding pickle the running speed reads. */
  datatype ExperimentData = ExperimentData(encoder: Encoder, intervalsms: seq<real>)

  /** The four-column running table. */
  datatype RunningTable = RunningTable(
    time: seq<real>, frame: seq<int>, speed: seq<real>, dx: seq<real>)

  /** The truncation in `visual_coding_running_speed`: only when the timing
      array is shorter than `dx` are `dx`, `vsig` and `vin` all cut to its
      length; otherwise all three pass through as they are. */
  function AlignEncoder(enc: Encoder, time: seq<real>): (r: Encoder)
    ensures |r.dx| <= |time|
    ensures r.dx <= enc.dx && r.vsig <= enc.vsig && r.vin <= enc.vin
    ensures |time| < |enc.dx| ==>
      && |r.dx| == |time|
      && |r.vsig| == (if |time| < |enc.vsig| then |time| else |enc.vsig|)
      && |r.vin| == (if |time| < |enc.vin| then |time| else |enc.vin|)
    ensures |time| >= |enc.dx| ==> r == enc
  {
    if |time| < |enc.dx| then
      Encoder(Take(enc.dx, |time|), Take(enc.vsig, |time|), Take(enc.vin, |time|))
    else enc
  }

  /** Aligning twice changes nothing more. */
  lemma AlignEncoderIdempotent(enc: Encoder, time: seq<real>)
    ensures AlignEncoder(AlignEncoder(enc, time), time) == AlignEncoder(enc, time)
  {
  }

  /** `range(n)`. */
  function Range(n: nat): (r: seq<int>)
    ensures |r| == n
    ensures forall i :: 0 <= i < n ==> r[i] == i
  {
    seq(n, i => i)
  }

  /** `compute_running_speed(dx, time, vsig, vin)`. */
  type SpeedFn = (seq<real>, seq<real>, seq<real>, seq<real>) -> seq<real>

  /** `visual_coding_running_speed`: the speed is computed from the aligned
      encoder arrays and the untouched timing array, and the frame column
      numbers the timing entries from zero. */
  function VisualCodingRunningSpeed(exp: ExperimentData, computeSpeed: SpeedFn): (r: RunningTable)
    ensures r.time == exp.intervalsms
    ensures |r.frame| == |exp.intervalsms|
    ensures forall i :: 0 <= i < |r.frame| ==> r.frame[i] == i
    ensures |r.dx| <= |r.time| && r.dx <= exp.encoder.dx
    ensures r.dx == AlignEncoder(exp.encoder, exp.intervalsms).dx
    ensures
      var aligned := AlignEncoder(exp.encoder, exp.intervalsms);
      r.speed == computeSpeed(aligned.dx, exp.intervalsms, aligned.vsig, aligned.vin)
  {
    var time := exp.intervalsms;
    var aligned := AlignEncoder(exp.encoder, time);
    var speed := computeSpeed(aligned.dx, time, aligned.vsig, aligned.vin);
    RunningTable(time, Range(|time|), speed, aligned.dx)
  }

  // ---------------------------------------------------------------------------
  // Adapters
  // ---------------------------------------------------------------------------

  datatype AdapterKind = Base | VisualBehavior | VisualCoding

  /** The class attribute `_source`: empty for the base class, and a
      distinct name for each of the two variants. */
  function SourceName(kind: AdapterKind): (r: string)
    ensures |r| == 0 <==> kind == Base
  {
    match kind
    case Base => ""
    case VisualBehavior => "Allen Brain Observatory: Visual Behavior"
    case VisualCoding => "Allen Brain Observatory: Visual Coding"
  }

  /** Different adapter classes never share a `_source`. */
  lemma SourceNamesDistinct(k1: AdapterKind, k2: AdapterKind)
    requires k1 != k2
    ensures SourceName(k1) != SourceName(k2)
  {
    assert "Allen Brain Observatory: Visual Behavior"[32] != "Allen Brain Observatory: Visual Coding"[32];
  }

  /** A value in the HDF5 writer's option map. */
  datatype OptionValue = Flag(flag: bool) | Level(level: int)

  /** The `compression_opts` chosen in the base constructor. */
  function CompressionOptions(compress: bool): (r: map<string, OptionValue>)
    ensures compress ==> r.Keys == {"compression", "compression_opts"}
    ensures compress ==> r["compression"] == Flag(true) && r["compression_opts"] == Level(9)
    ensures !compress ==> |r| == 0
  {
    if compress then map["compression" := Flag(true), "compression_opts" := Level(9)]
    else map[]
  }

  /** The entries of `core_data` the adapters read: the running table, and
      for the visual-behavior pickle a `time` entry. Either may be missing
      from what `data_to_change_detection_core` returns. */
  datatype CoreData = CoreData(running: Option<RunningTable>, time: Option<seq<real>>)

  /** The `TimeSeries` the `running_speed` property builds. */
  datatype TimeSeries = TimeSeries(
    name: string,
    source: string,
    data: seq<real>,
    ioOptions: map<string, OptionValue>,
    timestamps: seq<real>,
    unit: string)

  datatype Adapter = Adapter(
    kind: AdapterKind,
    pklFile: string,
    syncFile: Option<string>,
    stimKey: string,
    compressionOpts: map<string, OptionValue>,
    data: Option<CoreData>,
    runningSpeed: Option<TimeSeries>)

  /** The foreign calls the adapters make. */
  datatype Env = Env(
    // `data_to_change_detection_core(pd.read_pickle(pkl_file))`
    loadBehavior: string -> CoreData,
    // `pd.read_pickle(pkl_file)` of a visual-coding pickle
    loadCoding: string -> ExperimentData,
    computeSpeed: SpeedFn,
    // `get_timestamps_from_sync(sync_file, stim_key)`
    syncTimes: (Option<string>, string) -> seq<real>)

  /** `BaseStimulusAdapter.__init__`, with its defaults `stim_key='stim_vsync'`
      and `compress=True`; the visual-coding adapter inherits it. */
  function NewAdapter(kind: AdapterKind, pklFile: string, syncFile: Option<string>,
                      stimKey: string := "stim_vsync", compress: bool := true): (r: Adapter)
    ensures r.kind == kind && r.pklFile == pklFile && r.syncFile == syncFile
    ensures r.stimKey == stimKey
    ensures r.compressionOpts == CompressionOptions(compress)
    ensures r.data.None? && r.runningSpeed.None?
  {
    Adapter(kind, pklFile, syncFile, stimKey, CompressionOptions(compress), None, None)
  }

  /** `VisualBehaviorStimulusAdapter.__init__`: the `stim_key` and `compress`
      arguments are accepted and then dropped. */
  function NewVisualBehaviorAdapter(pklFile: string, syncFile: Option<string> := None,
                                    stimKey: string := "stim_vsync", compress: bool := true)
    : (r: Adapter)
    ensures r.kind == VisualBehavior && r.pklFile == pklFile && r.syncFile == syncFile
    ensures r.stimKey == "stim_vsync"
    ensures r.compressionOpts == CompressionOptions(true)
    ensures r.data.None? && r.runningSpeed.None?
  {
    NewAdapter(VisualBehavior, pklFile, syncFile, "stim_vsync", true)
  }

  /** Whatever `stim_key` and `compress` a caller passes, the visual-behavior
      adapter comes out the same. */
  lemma VisualBehaviorIgnoresOptions(pklFile: string, syncFile: Option<string>,
                                     k1: string, c1: bool, k2: string, c2: bool)
    ensures NewVisualBehaviorAdapter(pklFile, syncFile, k1, c1)
         == NewVisualBehaviorAdapter(pklFile, syncFile, k2, c2)
  {
  }

  /** The constructors called with their defaults: a visual-coding adapter
      built from a pickle and a sync file compresses and reads `stim_vsync`,
      and a visual-behavior adapter built from a pickle alone has no sync
      file, so `get_times` reads the `time` entry of `core_data`. */
  lemma DefaultArguments(pklFile: string, syncFile: string, env: Env)
    ensures NewAdapter(VisualCoding, pklFile, Some(syncFile)).compressionOpts == CompressionOptions(true)
    ensures NewAdapter(VisualCoding, pklFile, Some(syncFile)).stimKey == "stim_vsync"
    ensures NewVisualBehaviorAdapter(pklFile).syncFile.None?
    ensures
      var a := NewVisualBehaviorAdapter(pklFile);
      Times(a, env).result.Success? <==> env.loadBehavior(pklFile).time.Some?
  {
  }

  /** The outcome of a property access and the adapter afterwards. */
  datatype Access<T> = Access(result: Result<T, StimulusError>, after: Adapter)

  /** The `core_data` property. The base adapter raises; the others load the
      pickle only while `_data` is None and afterwards return what they
      stored. */
  function CoreDataOf(a: Adapter, env: Env): (r: Access<CoreData>)
    ensures r.result.Failure? <==> a.kind == Base
    ensures r.result.Failure? ==> r == Access(Failure(NotImplemented), a)
    ensures r.result.Success? ==> r.after == a.(data := Some(r.result.value))
    ensures r.result.Success? && a.data.Some? ==> r == Access(Success(a.data.value), a)
    ensures r.result.Success? && a.data.None? && a.kind == VisualBehavior ==>
      r.result.value == env.loadBehavior(a.pklFile)
    ensures r.result.Success? && a.data.None? && a.kind == VisualCoding ==>
      r.result.value == CoreData(Some(VisualCodingRunningSpeed(env.loadCoding(a.pklFile), env.computeSpeed)), None)
  {
    if a.kind == Base then Access(Failure(NotImplemented), a)
    else if a.data.Some? then Access(Success(a.data.value), a)
    else
      var d :=
        if a.kind == VisualBehavior then env.loadBehavior(a.pklFile)
        else CoreData(Some(VisualCodingRunningSpeed(env.loadCoding(a.pklFile), env.computeSpeed)), None);
      Access(Success(d), a.(data := Some(d)))
  }

  /** A second `core_data` access returns the stored value and changes nothing. */
  lemma CoreDataMemoised(a: Adapter, env: Env)
    requires CoreDataOf(a, env).result.Success?
    ensures
      var c := CoreDataOf(a, env);
      CoreDataOf(c.after, env) == Access(Success(c.result.value), c.after)
  {
  }

  /** `get_times`. The visual-behavior adapter without a sync file reads the
      `time` entry of `core_data` (loading it if need be, and keeping it
      loaded even when the entry is missing); every other case asks the
      sync file under the adapter's `stim_key`. */
  function Times(a: Adapter, env: Env): (r: Access<seq<real>>)
    ensures a.kind != VisualBehavior || a.syncFile.Some? ==>
      r == Access(Success(env.syncTimes(a.syncFile, a.stimKey)), a)
    ensures a.kind == VisualBehavior && a.syncFile.None? ==>
      var c := CoreDataOf(a, env);
      && r.after == c.after
      && (r.result.Failure? <==> c.result.value.time.None?)
      && (r.result.Failure? ==> r.result.error == MissingTimeColumn)
      && (r.result.Success? ==> r.result.value == c.result.value.time.value)
    ensures r.after == a.(data := r.after.data)
    ensures r.after.data.Some? || r.after == a
  {
    if a.kind == VisualBehavior && a.syncFile.None? then
      var c := CoreDataOf(a, env);
      match c.result.value.time
      case None => Access(Failure(MissingTimeColumn), c.after)
      case Some(t) => Access(Success(t), c.after)
    else Access(Success(env.syncTimes(a.syncFile, a.stimKey)), a)
  }

  /** The `running_speed` property. While `_running_speed` is None it builds
      the series from the speed column of `core_data` and the timestamps of
      `get_times`, cutting the timestamps to the speed's length when they are
      longer, and stores it; afterwards it returns the stored series. It
      fails only where `core_data`, its `running` entry or `get_times`
      raises. */
  function RunningSpeed(a: Adapter, env: Env): (r: Access<TimeSeries>)
    ensures a.runningSpeed.Some? ==> r == Access(Success(a.runningSpeed.value), a)
    ensures r.result.Success? ==> r.after.runningSpeed == Some(r.result.value)
    ensures a.runningSpeed.None? && a.kind == Base ==> r == Access(Failure(NotImplemented), a)
    ensures a.runningSpeed.None? && a.kind != Base ==>
      var c := CoreDataOf(a, env);
      c.result.value.running.None? ==> r == Access(Failure(MissingRunningColumn), c.after)
    ensures a.runningSpeed.None? && a.kind != Base ==>
      var c := CoreDataOf(a, env);
      var t := Times(c.after, env);
      c.result.value.running.Some? ==>
        && (r.result.Success? <==> t.result.Success?)
        && (r.result.Failure? ==> r.result.error == t.result.error && r.after == t.after)
    ensures r.result.Success? && a.runningSpeed.None? ==>
      var c := CoreDataOf(a, env);
      var speed := c.result.value.running.value.speed;
      var t := Times(c.after, env);
      var series := r.result.value;
      && series.data == speed
      && series.timestamps == Take(t.result.value, |speed|)
      && series.name == "running_speed" && series.unit == "cm/s"
      && series.source == SourceName(a.kind)
      && series.ioOptions == a.compressionOpts
      && r.after == t.after.(runningSpeed := Some(series))
  {
    if a.runningSpeed.Some? then Access(Success(a.runningSpeed.value), a)
    else
      var c := CoreDataOf(a, env);
      match c.result
      case Failure(e) => Access(Failure(e), c.after)
      case Success(core) =>
        match core.running
        case None => Access(Failure(MissingRunningColumn), c.after)
        case Some(running) =>
          var speed := running.speed;
          var t := Times(c.after, env);
          match t.result
          case Failure(e) => Access(Failure(e), t.after)
          case Success(times) =>
            var stamps := if |times| > |speed| then times[..|speed|] else times;
            var series := TimeSeries("running_speed", SourceName(a.kind), speed,
                                     a.compressionOpts, stamps, "cm/s");
            Access(Success(series), t.after.(runningSpeed := Some(series)))
  }

  /** A freshly built running-speed series never has more timestamps than
      speed samples, and the timestamps it has are the first ones `get_times`
      gave. */
  lemma RunningSpeedTimestampsFit(a: Adapter, env: Env)
    requires a.runningSpeed.None?
    requires RunningSpeed(a, env).result.Success?
    ensures
      var series := RunningSpeed(a, env).result.value;
      var times := Times(CoreDataOf(a, env).after, env).result.value;
      && |series.timestamps| <= |series.data|
      && series.timestamps <= times
      && (|times| <= |series.data| ==> series.timestamps == times)
  {
  }

  /** A second `running_speed` access returns the stored series and changes
      nothing, and the stored `core_data` survives it. */
  lemma RunningSpeedMemoised(a: Adapter, env: Env)
    requires RunningSpeed(a, env).result.Success?
    ensures
      var r := RunningSpeed(a, env);
      && RunningSpeed(r.after, env) == Access(Success(r.result.value), r.after)
      && (a.data.Some? ==> r.after.data == a.data)
  {
  }

  /** A failed `running_speed` access of an adapter that has a `core_data`
      raised one of the two key errors, the missing `running` entry taking
      precedence, and still leaves the loaded `core_data` in place, so a
      retry does not read the pickle again. */
  lemma FailedRunningSpeedKeepsCoreData(a: Adapter, env: Env)
    requires a.kind != Base && a.runningSpeed.None?
    requires RunningSpeed(a, env).result.Failure?
    ensures RunningSpeed(a, env).result.error ==
      if CoreDataOf(a, env).result.value.running.None? then MissingRunningColumn
      else MissingTimeColumn
    ensures CoreDataOf(a, env).result.value.running.Some? ==>
      a.kind == VisualBehavior && a.syncFile.None?
    ensures RunningSpeed(a, env).after.data == CoreDataOf(a, env).after.data
    ensures RunningSpeed(a, env).after.data.Some?
  {
  }

  /** In the model, where the foreign calls and the DataFrame never raise,
      a fresh visual-coding adapter always gets a running speed, written
      with the compression options chosen at construction. */
  lemma FreshRunningSpeedOptions(pklFile: string, syncFile: Option<string>,
                                 stimKey: string, compress: bool, env: Env)
    ensures
      var r := RunningSpeed(NewAdapter(VisualCoding, pklFile, syncFile, stimKey, compress), env);
      r.result.Success? && r.result.value.ioOptions == CompressionOptions(compress)
  {
  }

  /** A visual-behavior adapter's series is always written with compression
      level 9, whatever `compress` its caller passed. */
  lemma VisualBehaviorRunningSpeedCompressed(pklFile: string, syncFile: Option<string>,
                                             stimKey: string, compress: bool, env: Env)
    requires RunningSpeed(NewVisualBehaviorAdapter(pklFile, syncFile, stimKey, compress), env).result.Success?
    ensures
      RunningSpeed(NewVisualBehaviorAdapter(pklFile, syncFile, stimKey, compress), env).result.value.ioOptions
        == CompressionOptions(true)
  {
  }
}
