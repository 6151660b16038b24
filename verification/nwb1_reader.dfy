/** The naming and metadata rules of the NWB v1 readers: pipeline-version
    lookup in `general/generated_by`, the MIES sweep keys and their sweep
    numbers, clamp-mode classification from a series' ancestry, the records
    `get_acquisition` and `get_stimulus` return, and the factory that picks a
    reader variant from the first acquisition key.

    The HDF5 file is replaced by the contents the reader looks at: the
    `acquisition/timeseries` and `stimulus/presentation` groups as ordered
    lists of named series, and the optional `generated_by` token list. */
module Nwb1Reader {
  import opened Wrappers
  import opened Strings

  /** The exceptions the reader raises. */
  datatype ReaderError =
    | IndexOutOfRange          // IndexError: `[0]`, `[1]` or `[-1]` of a too-short list
    | KeyNotFound(key: string) // KeyError: no series of that name in the group
    | InvalidInteger(token: string) // ValueError from `int()`
    | UnknownClampMode
    | UnknownSweepNamingConvention
    | UnboundVersion           // UnboundLocalError at the return of the version lookup
    | NotImplemented           // a base-class stub that the variant does not override

  /** One time series group as the reader sees it. `stimulusDescription` is
      the raw `stimulus_description` array, read for acquisitions only. */
  datatype Series = Series(
    data: seq<real>,
    rate: real,
    unit: string,
    conversion: real,
    source: string,
    ancestry: seq<string>,
    stimulusDescription: seq<string>)

  /** The parts of an NWB v1 file the reader reads. */
  datatype NwbFile = NwbFile(
    timeseries: seq<(string, Series)>,
    presentation: seq<(string, Series)>,
    generatedBy: Option<seq<string>>)

  /** The series named `key` in a group, if there is one. */
  function Lookup(group: seq<(string, Series)>, key: string): (r: Option<Series>)
    ensures r.Some? <==> exists i :: 0 <= i < |group| && group[i].0 == key
    ensures r.Some? ==> exists i :: 0 <= i < |group| && group[i] == (key, r.value)
    decreases |group|
  {
    if |group| == 0 then None
    else if group[0].0 == key then Some(group[0].1)
    else
      var r := Lookup(group[1..], key);
      assert forall i :: 1 <= i < |group| ==> group[1..][i - 1] == group[i];
      r
  }

  // ---------------------------------------------------------------------------
  // Sweep names
  // ---------------------------------------------------------------------------

  /** No two series of a group share a name, as in an HDF5 group. */
  predicate UniqueNames(group: seq<(string, Series)>) {
    forall i, j :: 0 <= i < j < |group| ==> group[i].0 != group[j].0
  }

  /** In a group with unique names, the name of each entry finds that entry. */
  lemma {:induction false} LookupEntry(group: seq<(string, Series)>, i: int)
    requires UniqueNames(group)
    requires 0 <= i < |group|
    ensures Lookup(group, group[i].0) == Some(group[i].1)
    decreases |group|
  {
    if i > 0 {
      assert group[0].0 != group[i].0;
      assert UniqueNames(group[1..]) by {
        forall a, b | 0 <= a < b < |group| - 1
          ensures group[1..][a].0 != group[1..][b].0
        {
          assert group[1..][a] == group[a + 1] && group[1..][b] == group[b + 1];
        }
      }
      LookupEntry(group[1..], i - 1);
      assert group[1..][i - 1] == group[i];
    }
  }

  /** `get_sweep_names`: the keys of `acquisition/timeseries` in storage order. */
  function SweepNames(f: NwbFile): (r: seq<string>)
    ensures |r| == |f.timeseries|
    ensures forall i :: 0 <= i < |r| ==> r[i] == f.timeseries[i].0
    ensures forall i :: 0 <= i < |r| ==> Lookup(f.timeseries, r[i]).Some?
    ensures UniqueNames(f.timeseries) ==>
      forall i :: 0 <= i < |r| ==> Lookup(f.timeseries, r[i]) == Some(f.timeseries[i].1)
  {
    var r := seq(|f.timeseries|, i requires 0 <= i < |f.timeseries| => f.timeseries[i].0);
    assert UniqueNames(f.timeseries) ==>
      forall i :: 0 <= i < |r| ==> Lookup(f.timeseries, r[i]) == Some(f.timeseries[i].1)
    by {
      if UniqueNames(f.timeseries) {
        forall i | 0 <= i < |r|
          ensures Lookup(f.timeseries, r[i]) == Some(f.timeseries[i].1)
        {
          LookupEntry(f.timeseries, i);
        }
      }
    }
    r
  }

  // ---------------------------------------------------------------------------
  // Pipeline version
  // ---------------------------------------------------------------------------

  const VersionKey: string := "version"

  /** `i` is the index of the first `"version"` token, whatever its parity. */
  ghost predicate FirstVersionAt(info: seq<string>, i: int) {
    0 <= i < |info| && info[i] == VersionKey &&
    forall k :: 0 <= k < i ==> info[k] != VersionKey
  }

  /** What the scan over `generated_by` ends with. */
  datatype VersionLookup =
    | NoVersionKey                          // the loop ends, `version` stays unbound
    | VersionKeyIsLast                      // `info[i+1]` raises IndexError
    | VersionFound(index: nat, value: string)

  /** The `for i in range(len(info))` loop, from index `i` on. */
  function ScanForVersion(info: seq<string>, i: nat): (r: VersionLookup)
    requires i <= |info|
    requires forall k :: 0 <= k < i ==> info[k] != VersionKey
    ensures r.NoVersionKey? <==> VersionKey !in info
    ensures r.VersionKeyIsLast? <==> FirstVersionAt(info, |info| - 1)
    ensures r.VersionFound? ==>
      FirstVersionAt(info, r.index) && r.index + 1 < |info| && r.value == info[r.index + 1]
    decreases |info| - i
  {
    if i == |info| then NoVersionKey
    else if info[i] == VersionKey then
      if i + 1 < |info| then VersionFound(i, info[i + 1])
      else VersionKeyIsLast
    else ScanForVersion(info, i + 1)
  }

  /** `get_pipeline_version`. Every failure inside the `try` becomes (0, 0);
      a version value without a `.` leaves `major` and `minor` unbound, and
      the `return` after the `try` raises. */
  function PipelineVersion(generatedBy: Option<seq<string>>): (r: Result<(int, int), ReaderError>)
    ensures generatedBy.None? ==> r == Success((0, 0))
    ensures r.Failure? ==> r.error == UnboundVersion
    ensures r.Failure? <==>
      generatedBy.Some? &&
      exists i :: FirstVersionAt(generatedBy.value, i) && i + 1 < |generatedBy.value| &&
                  '.' !in generatedBy.value[i + 1]
  {
    match generatedBy
    case None => Success((0, 0))
    case Some(info) =>
      match ScanForVersion(info, 0)
      case NoVersionKey => Success((0, 0))
      case VersionKeyIsLast => Success((0, 0))
      case VersionFound(_, value) => VersionOfValue(value)
  }

  /** The part of `get_pipeline_version` after the scan: split the value on
      `.` and read the first two components as integers. */
  function VersionOfValue(value: string): (r: Result<(int, int), ReaderError>)
    ensures r.Failure? <==> '.' !in value
    ensures r.Failure? ==> r.error == UnboundVersion
  {
    var toks := Split(value, '.');
    if |toks| < 2 then Failure(UnboundVersion)
    else
      match (ParseInt(toks[0]), ParseInt(toks[1]))
      case (Some(major), Some(minor)) => Success((major, minor))
      case _ => Success((0, 0))
  }

  /** The value after the first `"version"` token, at any index and not
      only an odd one, is the one parsed. */
  lemma {:induction false} VersionReadsTokenAfterKey(info: seq<string>, i: nat)
    requires FirstVersionAt(info, i) && i + 1 < |info|
    ensures PipelineVersion(Some(info)) == VersionOfValue(info[i + 1])
  {
    var scan := ScanForVersion(info, 0);
    assert scan.VersionFound? && scan.index == i;
  }

  /** A value `X.Y...` yields `(int(X), int(Y))`; further components are
      ignored, and a component that is not an integer gives (0, 0). */
  lemma {:induction false} VersionOfJoinedValue(toks: seq<string>)
    requires |toks| >= 2 && forall k :: 0 <= k < |toks| ==> '.' !in toks[k]
    ensures VersionOfValue(Join(toks, '.')) ==
      if IsIntToken(toks[0]) && IsIntToken(toks[1])
      then Success((ParseInt(toks[0]).value, ParseInt(toks[1]).value))
      else Success((0, 0))
  {
    SplitJoin(toks, '.');
  }

  /** The two lemmas above together: the lookup of a dotted value. */
  lemma {:induction false} VersionOfDottedValue(info: seq<string>, i: nat, toks: seq<string>)
    requires FirstVersionAt(info, i) && i + 1 < |info|
    requires |toks| >= 2 && forall k :: 0 <= k < |toks| ==> '.' !in toks[k]
    requires info[i + 1] == Join(toks, '.')
    ensures PipelineVersion(Some(info)) ==
      if IsIntToken(toks[0]) && IsIntToken(toks[1])
      then Success((ParseInt(toks[0]).value, ParseInt(toks[1]).value))
      else Success((0, 0))
  {
    VersionReadsTokenAfterKey(info, i);
    VersionOfJoinedValue(toks);
  }

  /** With no `"version"` token, or with `"version"` as the last token, the
      lookup falls back to (0, 0). */
  lemma {:induction false} VersionFallback(info: seq<string>)
    requires VersionKey !in info || FirstVersionAt(info, |info| - 1)
    ensures PipelineVersion(Some(info)) == Success((0, 0))
  {
  }

  // ---------------------------------------------------------------------------
  // Clamp mode
  // ---------------------------------------------------------------------------

  datatype ClampMode = CurrentClamp | VoltageClamp

  /** The string the record stores under `clamp_mode`; each of the two
      strings names exactly one mode. */
  function ClampModeName(m: ClampMode): (r: string)
    ensures r == "current_clamp" <==> m == CurrentClamp
    ensures r == "voltage_clamp" <==> m == VoltageClamp
  {
    match m
    case CurrentClamp => "current_clamp"
    case VoltageClamp => "voltage_clamp"
  }

  /** The clamp mode named by the last ancestry entry. `"CurrentClamp"` is
      tested first, so it wins when both names occur. */
  function ClampModeOf(ancestry: seq<string>): (r: Result<ClampMode, ReaderError>)
    ensures |ancestry| == 0 ==> r == Failure(IndexOutOfRange)
    ensures r == Success(CurrentClamp) <==>
      |ancestry| > 0 && Mentions(ancestry[|ancestry| - 1], "CurrentClamp")
    ensures r == Success(VoltageClamp) <==>
      |ancestry| > 0 && !Mentions(ancestry[|ancestry| - 1], "CurrentClamp") &&
      Mentions(ancestry[|ancestry| - 1], "VoltageClamp")
    ensures r == Failure(UnknownClampMode) <==>
      |ancestry| > 0 && !Mentions(ancestry[|ancestry| - 1], "CurrentClamp") &&
      !Mentions(ancestry[|ancestry| - 1], "VoltageClamp")
  {
    if |ancestry| == 0 then Failure(IndexOutOfRange)
    else
      var last := ancestry[|ancestry| - 1];
      ContainsIff(last, "CurrentClamp");
      ContainsIff(last, "VoltageClamp");
      if Contains(last, "CurrentClamp") then Success(CurrentClamp)
      else if Contains(last, "VoltageClamp") then Success(VoltageClamp)
      else Failure(UnknownClampMode)
  }

  // ---------------------------------------------------------------------------
  // Sweep keys and sweep numbers
  // ---------------------------------------------------------------------------

  /** `"data_%05d_" % n + channel`, the MIES key of sweep `n` on a channel,
      built as the `_`-join of its three pieces. */
  function MiesKey(n: int, channel: string): (k: string)
    ensures k == "data_" + Format05(n) + "_" + channel
  {
    JoinThree("data", Format05(n), channel, '_');
    assert "data_" == "data" + ['_'] && "_" == ['_'];
    Join(["data", Format05(n), channel], '_')
  }

  /** `"data_%05d_AD0" % n`, the acquisition key of sweep `n`. */
  function AcquisitionKey(n: int): (k: string)
    ensures k == "data_" + Format05(n) + "_AD0"
  {
    assert "_" + "AD0" == "_AD0";
    MiesKey(n, "AD0")
  }

  /** `"data_%05d_DA0" % n`, the stimulus key of sweep `n`. */
  function StimulusKey(n: int): (k: string)
    ensures k == "data_" + Format05(n) + "_DA0"
  {
    assert "_" + "DA0" == "_DA0";
    MiesKey(n, "DA0")
  }

  /** A MIES key splits on `_` into `data`, the padded number and the
      channel. */
  lemma {:induction false} MiesKeyPieces(n: int, channel: string)
    requires '_' !in channel
    ensures Split(MiesKey(n, channel), '_') == ["data", Format05(n), channel]
  {
    Format05HasNoUnderscore(n);
    assert '_' !in "data";
    SplitThree("data", Format05(n), channel, '_');
  }

  /** A `%05d` rendering never contains `_`, since each of its characters
      is a digit or `-`. */
  lemma Format05HasNoUnderscore(n: int)
    ensures '_' !in Format05(n)
  {
  }

  lemma {:induction false} JoinThree(a: string, b: string, c: string, sep: char)
    ensures Join([a, b, c], sep) == a + [sep] + b + [sep] + c
  {
    assert [a, b, c][1..] == [b, c];
    assert [b, c][1..] == [c];
    assert Join([b, c], sep) == b + [sep] + c;
    assert Join([a, b, c], sep) == a + [sep] + (b + [sep] + c);
  }

  /** `get_sweep_number`: the integer value of the second `_`-separated
      token of the name. */
  function SweepNumber(name: string): (r: Result<int, ReaderError>)
    ensures '_' !in name ==> r == Failure(IndexOutOfRange)
    ensures '_' in name ==>
      (r.Success? <==> IsIntToken(Split(name, '_')[1]))
    ensures r.Success? ==> r.value == ParseInt(Split(name, '_')[1]).value
    ensures '_' in name && !IsIntToken(Split(name, '_')[1]) ==>
      r == Failure(InvalidInteger(Split(name, '_')[1]))
  {
    var toks := Split(name, '_');
    if |toks| < 2 then Failure(IndexOutOfRange)
    else
      match ParseInt(toks[1])
      case None => Failure(InvalidInteger(toks[1]))
      case Some(v) => Success(v)
  }

  /** Formatting a sweep key and parsing it back gives the sweep number, for
      acquisition and stimulus keys alike. */
  lemma {:induction false} SweepNumberRoundTrip(n: int)
    ensures SweepNumber(AcquisitionKey(n)) == Success(n)
    ensures SweepNumber(StimulusKey(n)) == Success(n)
  {
    MiesKeyPieces(n, "AD0");
    MiesKeyPieces(n, "DA0");
  }

  /** Distinct sweep numbers never share a key. */
  lemma {:induction false} AcquisitionKeyInjective(m: int, n: int)
    requires m != n
    ensures AcquisitionKey(m) != AcquisitionKey(n)
  {
    SweepNumberRoundTrip(m);
    SweepNumberRoundTrip(n);
  }

  // ---------------------------------------------------------------------------
  // Sweep records
  // ---------------------------------------------------------------------------

  /** A value stored in a returned record. */
  datatype Field = Samples(samples: seq<real>) | Number(number: real) | Text(text: string)

  type SweepRecord = map<string, Field>

  const StimulusFields: set<string> :=
    {"data", "rate", "unit", "conversion", "clamp_mode", "source"}

  const AcquisitionFields: set<string> := StimulusFields + {"stimulus_description"}

  /** `r` carries the samples and attributes of series `s` and the name of
      clamp mode `mode` under the keys the reader uses. */
  ghost predicate CarriesSeries(r: SweepRecord, s: Series, mode: ClampMode) {
    && StimulusFields <= r.Keys
    && r["data"] == Samples(s.data)
    && r["rate"] == Number(s.rate)
    && r["unit"] == Text(s.unit)
    && r["conversion"] == Number(s.conversion)
    && r["clamp_mode"] == Text(ClampModeName(mode))
    && r["source"] == Text(s.source)
  }

  /** The record fields a series and its clamp mode give, leaving out the
      stimulus description. */
  function CommonRecord(s: Series, mode: ClampMode): (r: SweepRecord)
    ensures r.Keys == StimulusFields
    ensures CarriesSeries(r, s, mode)
  {
    map[
      "data" := Samples(s.data),
      "rate" := Number(s.rate),
      "unit" := Text(s.unit),
      "conversion" := Number(s.conversion),
      "clamp_mode" := Text(ClampModeName(mode)),
      "source" := Text(s.source)]
  }

  /** The record `get_acquisition` builds from the series it found. */
  function AcquisitionRecord(s: Series): (r: Result<SweepRecord, ReaderError>)
    ensures r.Failure? <==> |s.stimulusDescription| == 0 || ClampModeOf(s.ancestry).Failure?
    ensures |s.stimulusDescription| == 0 ==> r == Failure(IndexOutOfRange)
    ensures |s.stimulusDescription| > 0 && ClampModeOf(s.ancestry).Failure? ==>
      r == Failure(ClampModeOf(s.ancestry).error)
    ensures r.Success? ==>
      && r.value.Keys == AcquisitionFields
      && CarriesSeries(r.value, s, ClampModeOf(s.ancestry).value)
      && r.value["stimulus_description"] == Text(s.stimulusDescription[0])
  {
    if |s.stimulusDescription| == 0 then Failure(IndexOutOfRange)
    else
      var mode :- ClampModeOf(s.ancestry);
      var common := CommonRecord(s, mode);
      var r := common["stimulus_description" := Text(s.stimulusDescription[0])];
      assert CarriesSeries(r, s, mode);
      Success(r)
  }

  /** The record `get_stimulus` builds from the series it found. */
  function StimulusRecord(s: Series): (r: Result<SweepRecord, ReaderError>)
    ensures r.Failure? <==> ClampModeOf(s.ancestry).Failure?
    ensures r.Failure? ==> r == Failure(ClampModeOf(s.ancestry).error)
    ensures r.Success? ==>
      && r.value.Keys == StimulusFields
      && CarriesSeries(r.value, s, ClampModeOf(s.ancestry).value)
  {
    var mode :- ClampModeOf(s.ancestry);
    Success(CommonRecord(s, mode))
  }

  /** A stimulus series that carries the same samples and attributes as an
      acquisition series gives the acquisition record without its
      `stimulus_description`. */
  lemma {:induction false} StimulusMatchesAcquisition(a: Series, s: Series)
    requires a.(stimulusDescription := []) == s.(stimulusDescription := [])
    requires AcquisitionRecord(a).Success?
    ensures StimulusRecord(s).Success?
    ensures StimulusRecord(s).value == AcquisitionRecord(a).value - {"stimulus_description"}
  {
    var a' := a.(stimulusDescription := []);
    var s' := s.(stimulusDescription := []);
    assert a'.ancestry == s'.ancestry && a'.data == s'.data && a'.rate == s'.rate;
    assert a'.unit == s'.unit && a'.conversion == s'.conversion && a'.source == s'.source;
    var mode := ClampModeOf(a.ancestry).value;
    var common := CommonRecord(a, mode);
    assert CommonRecord(s, mode) == common;
    var full := common["stimulus_description" := Text(a.stimulusDescription[0])];
    assert AcquisitionRecord(a) == Success(full);
    assert full - {"stimulus_description"} == common;
  }

  /** `get_acquisition(n)` on a MIES file: the series under the acquisition
      key of sweep `n`, or a key error. */
  function AcquisitionOf(f: NwbFile, n: int): (r: Result<SweepRecord, ReaderError>)
    ensures Lookup(f.timeseries, AcquisitionKey(n)).None? ==>
      r == Failure(KeyNotFound(AcquisitionKey(n)))
    ensures Lookup(f.timeseries, AcquisitionKey(n)).Some? ==>
      r == AcquisitionRecord(Lookup(f.timeseries, AcquisitionKey(n)).value)
  {
    var key := AcquisitionKey(n);
    match Lookup(f.timeseries, key)
    case None => Failure(KeyNotFound(key))
    case Some(s) => AcquisitionRecord(s)
  }

  /** `get_stimulus(n)` on a MIES file: the series under the stimulus key of
      sweep `n`, or a key error. */
  function StimulusOf(f: NwbFile, n: int): (r: Result<SweepRecord, ReaderError>)
    ensures Lookup(f.presentation, StimulusKey(n)).None? ==>
      r == Failure(KeyNotFound(StimulusKey(n)))
    ensures Lookup(f.presentation, StimulusKey(n)).Some? ==>
      r == StimulusRecord(Lookup(f.presentation, StimulusKey(n)).value)
  {
    var key := StimulusKey(n);
    match Lookup(f.presentation, key)
    case None => Failure(KeyNotFound(key))
    case Some(s) => StimulusRecord(s)
  }

  // ---------------------------------------------------------------------------
  // Reader variants and the factory
  // ---------------------------------------------------------------------------

  /** The reader `create_nwb_reader` returns. */
  datatype Reader = MiesReader(file: NwbFile) | PipelineReader(file: NwbFile)

  /** `create_nwb_reader`: the prefix of the first acquisition key before
      its first `_` picks the variant. */
  function CreateReader(f: NwbFile): (r: Result<Reader, ReaderError>)
    ensures |f.timeseries| == 0 ==> r == Failure(IndexOutOfRange)
    ensures r == Success(MiesReader(f)) <==>
      |f.timeseries| > 0 && FirstPiece(f.timeseries[0].0, '_') == "data"
    ensures r == Success(PipelineReader(f)) <==>
      |f.timeseries| > 0 && FirstPiece(f.timeseries[0].0, '_') == "Sweep"
    ensures r == Failure(UnknownSweepNamingConvention) <==>
      |f.timeseries| > 0 && FirstPiece(f.timeseries[0].0, '_') !in {"data", "Sweep"}
  {
    var names := SweepNames(f);
    if |names| == 0 then Failure(IndexOutOfRange)
    else
      var convention := FirstPiece(names[0], '_');
      if convention == "data" then Success(MiesReader(f))
      else if convention == "Sweep" then Success(PipelineReader(f))
      else Failure(UnknownSweepNamingConvention)
  }

  /** The naming convention of a MIES key is `data`. */
  lemma {:induction false} MiesKeyConvention(n: int, channel: string)
    requires '_' !in channel
    ensures FirstPiece(MiesKey(n, channel), '_') == "data"
  {
    MiesKeyPieces(n, channel);
  }

  /** A file whose first acquisition key is a MIES key gets the MIES reader. */
  lemma {:induction false} CreateReaderForMiesKey(f: NwbFile, n: int)
    requires |f.timeseries| > 0
    requires f.timeseries[0].0 in {AcquisitionKey(n), StimulusKey(n)}
    ensures CreateReader(f) == Success(MiesReader(f))
  {
    MiesKeyConvention(n, "AD0");
    MiesKeyConvention(n, "DA0");
  }

  /** A file whose first acquisition key is `Sweep`, or starts with
      `Sweep_`, gets the pipeline reader. */
  lemma {:induction false} CreateReaderForPipelineKey(f: NwbFile, rest: string)
    requires |f.timeseries| > 0
    requires f.timeseries[0].0 in {"Sweep", "Sweep_" + rest}
    ensures CreateReader(f) == Success(PipelineReader(f))
  {
    var key := f.timeseries[0].0;
    assert '_' !in "Sweep";
    if key == "Sweep_" + rest {
      assert key[..5] == "Sweep" && key[5] == '_';
    }
  }

  /** `get_sweep_number` through a reader: the MIES variant overrides it,
      the pipeline variant keeps the base stub. */
  function ReaderSweepNumber(reader: Reader, name: string): (r: Result<int, ReaderError>)
    ensures reader.PipelineReader? ==> r == Failure(NotImplemented)
    ensures reader.MiesReader? ==> r == SweepNumber(name)
  {
    match reader
    case MiesReader(_) => SweepNumber(name)
    case PipelineReader(_) => Failure(NotImplemented)
  }

  /** End to end: a MIES file whose first acquisition key belongs to sweep
      `n` gets a reader that reads `n` back from the first sweep name. */
  lemma {:induction false} ReaderReadsFirstSweepNumber(f: NwbFile, n: int)
    requires |f.timeseries| > 0 && f.timeseries[0].0 == AcquisitionKey(n)
    ensures CreateReader(f).Success?
    ensures ReaderSweepNumber(CreateReader(f).value, SweepNames(f)[0]) == Success(n)
  {
    CreateReaderForMiesKey(f, n);
    SweepNumberRoundTrip(n);
  }

  // ---------------------------------------------------------------------------
  // Worked examples
  // ---------------------------------------------------------------------------

  /** A `generated_by` list with the version pair in the middle. */
  lemma VersionExample()
    ensures PipelineVersion(Some(["foo", "bar", "version", "2.5", "baz", "qux"])) == Success((2, 5))
    ensures PipelineVersion(Some(["version"])) == Success((0, 0))
    ensures PipelineVersion(Some(["version", "7"])) == Failure(UnboundVersion)
  {
    var info := ["foo", "bar", "version", "2.5", "baz", "qux"];
    assert "2.5" == Join(["2", "5"], '.');
    VersionOfDottedValue(info, 2, ["2", "5"]);
    VersionFallback(["version"]);
    assert FirstVersionAt(["version", "7"], 0);
  }

  /** The sweep number of a well-formed acquisition key. */
  lemma {:induction false} SweepNumberExample()
    ensures SweepNumber("data_00042_AD0") == Success(42)
  {
    assert Format05(42) == "00042" by {
      assert NatToDigits(4) == "4";
      assert DigitChar(2) == '2';
      assert NatToDigits(42) == "42";
      assert Zeros(3) == "000";
      assert ZeroPad("42", 5) == "00042";
    }
    assert AcquisitionKey(42) == "data_" + "00042" + "_" + "AD0";
    assert "data_" + "00042" + "_" + "AD0" == "data_00042_AD0";
    SweepNumberRoundTrip(42);
  }

  /** A name with no `_` has no second token. */
  lemma MalformedSweepNameExample()
    ensures SweepNumber("malformed") == Failure(IndexOutOfRange)
  {
    assert '_' !in "malformed";
  }
}
