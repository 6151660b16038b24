# NWB v1 reader and stimulus adapters, modelled in Dafny

This project models the two pieces of pure logic inside the experimental
NWB tooling of the AllenSDK:

- the NWB v1 reader (`allensdk/experimental/nwb/nwb1_reader.py`): the
  pipeline-version lookup in `general/generated_by`, the MIES sweep keys
  `data_%05d_AD0` / `data_%05d_DA0` and the sweep number parsed back out of a
  key, clamp-mode classification from the last `ancestry` entry, the records
  `get_acquisition` and `get_stimulus` return, and `create_nwb_reader`, which
  picks the MIES or the pipeline reader from the first acquisition key;
- the stimulus adapters (`allensdk/experimental/nwb/stimulus.py`): the
  truncation of the encoder arrays to the timing array in
  `visual_coding_running_speed`, the compression options chosen by the base
  constructor, the visual-behavior constructor that drops its `stim_key` and
  `compress` arguments, the memoised `core_data` and `running_speed`
  properties (with the timestamp truncation), and the source `get_times` uses.

Files:

- `wrappers.dfy` — `Option` and `Result`. Each exception the Python code
  raises becomes a `Failure` with its own error constructor.
- `strings.dfy` — Python's `str.split` with a one-character separator and its
  inverse `Join`, the substring test `in`, `int()` on a decimal token, and the
  `%05d` format.
- `nwb1_reader.dfy` — the HDF5 file is replaced by the contents the reader
  looks at. These are the `acquisition/timeseries` and `stimulus/presentation`
  groups as ordered lists of named series, and the optional `generated_by`
  token list. The returned records are `map<string, Field>`, so their key
  sets can be stated.
- `stimulus.dfy` — an adapter is an immutable record. Each property access
  returns its value, or the exception it raises, together with the adapter
  afterwards, so the `_data` and `_running_speed` caches are explicit and a
  cache filled before an exception stays filled. The foreign calls are function-valued
  fields of an `Env` parameter: `read_pickle` followed by
  `data_to_change_detection_core`, `read_pickle` of a visual-coding pickle,
  `compute_running_speed` and `get_timestamps_from_sync`.

Three behaviours of the Python code that the model keeps as written:

- The version lookup does not turn every failure into (0, 0). A version
  value with fewer than two `.`-separated components leaves `major` and
  `minor` unbound. The `return` after the `try` then raises, which is
  modelled as `Failure(UnboundVersion)`.
- The version pair is whatever `int()` gives, so a negative component such
  as in `"-1.3"` is kept.
- A sweep name with no `_`, and an empty acquisition group in the factory,
  both fail with an index error (`IndexOutOfRange`), not with a dedicated
  parse or empty-file error.

## Model

| member | source | states |
|---|---|---|
| Nwb1Reader.SweepNames | allensdk/experimental/nwb/nwb1_reader.py:18-23 | the sweep names are the acquisition keys in storage order, one per series, and each name resolves to a series. When the names are unique, as in an HDF5 group, each name resolves to its own series |
| Nwb1Reader.LookupEntry | allensdk/experimental/nwb/nwb1_reader.py:77 | in a group with unique names, looking up the name of any entry gives that entry's series |
| Nwb1Reader.Lookup | allensdk/experimental/nwb/nwb1_reader.py:77 | a key resolves exactly when some series of the group carries that name, and then to a series stored under it |
| Nwb1Reader.ScanForVersion | allensdk/experimental/nwb/nwb1_reader.py:42-46 | the scan ends in one of three ways. It finds no `"version"` token exactly when none exists. It hits `info[i+1]` out of range exactly when the first `"version"` is the last token. Otherwise it returns the token right after the first `"version"`, at whatever index that is |
| Nwb1Reader.PipelineVersion | allensdk/experimental/nwb/nwb1_reader.py:35-54 | no `generated_by` gives (0, 0). The lookup raises exactly when the value after the first `"version"` contains no `.`, and then the error is the unbound-local error |
| Nwb1Reader.VersionOfValue | allensdk/experimental/nwb/nwb1_reader.py:47-54 | the lookup of a found value fails exactly when the value has no `.`: `split` then gives one piece, `major` and `minor` stay unbound, and the `return` raises the unbound-local error |
| Nwb1Reader.VersionReadsTokenAfterKey | allensdk/experimental/nwb/nwb1_reader.py:42-46 | the value parsed is the token right after the first `"version"` token, at any index, even or odd |
| Nwb1Reader.VersionOfJoinedValue | allensdk/experimental/nwb/nwb1_reader.py:47-53 | a value `X.Y...` gives `(int(X), int(Y))` and ignores further components. It gives (0, 0) when X or Y is not an integer |
| Nwb1Reader.VersionOfDottedValue | allensdk/experimental/nwb/nwb1_reader.py:35-54 | the whole lookup for a `generated_by` list whose first `"version"` is followed by a dotted value |
| Nwb1Reader.VersionFallback | allensdk/experimental/nwb/nwb1_reader.py:35-53 | with no `"version"` token, or with `"version"` as the last token, the result is (0, 0) |
| Nwb1Reader.VersionExample | allensdk/experimental/nwb/nwb1_reader.py:35-54 | `["foo","bar","version","2.5","baz","qux"]` gives (2, 5). `["version"]` gives (0, 0). `["version","7"]` raises |
| Nwb1Reader.ClampModeOf | allensdk/experimental/nwb/nwb1_reader.py:88-93 | the last ancestry entry decides the mode. If it contains `CurrentClamp` the mode is current clamp, which wins even when `VoltageClamp` also occurs. Otherwise, if it contains `VoltageClamp`, the mode is voltage clamp. Otherwise the call fails with the unknown-clamp-mode error. An empty ancestry raises an index error. Containment is an occurrence at some index |
| Nwb1Reader.ClampModeName | allensdk/experimental/nwb/nwb1_reader.py:88-91 | the record stores `current_clamp` exactly for current clamp and `voltage_clamp` exactly for voltage clamp |
| Strings.Contains | allensdk/experimental/nwb/nwb1_reader.py:88 | Python's `p in s`: the empty string is in every string, and a string found in `s` is no longer than `s` |
| Strings.ContainsIff | allensdk/experimental/nwb/nwb1_reader.py:88 | the executable substring test agrees with "occurs at some index" in both directions |
| Strings.Format05 | allensdk/experimental/nwb/nwb1_reader.py:77 | `"%05d" % n` is at least five characters, all digits or `-`, and `int()` reads it back as `n`, for every integer `n` |
| Strings.Format05Padding | allensdk/experimental/nwb/nwb1_reader.py:108 | for `n >= 0` the format is the decimal digits of `n` behind zeros. It has exactly five characters below 100000, and beyond that it is never cut |
| Strings.Format05NegativePadding | allensdk/experimental/nwb/nwb1_reader.py:77 | for `n < 0` the format is `-` followed by zeros and the decimal digits of `-n`. It has exactly five characters above -10000, and beyond that it is never cut |
| Strings.ParseInt | allensdk/experimental/nwb/nwb1_reader.py:138 | `int()` succeeds exactly on an optional `-` followed by decimal digits. Unsigned digits read as their decimal value, and a `-` token as the negated value of its digits |
| Strings.SplitJoin | allensdk/experimental/nwb/nwb1_reader.py:47 | splitting a `.`-join of separator-free pieces gives back the pieces |
| Strings.Split | allensdk/experimental/nwb/nwb1_reader.py:138 | `s.split(sep)` with a one-character separator gives at least one piece, no piece contains the separator, and one piece exactly when the separator is absent |
| Strings.JoinSplit | allensdk/experimental/nwb/nwb1_reader.py:157 | joining the pieces of a split gives back the string |
| Strings.FirstPiece | allensdk/experimental/nwb/nwb1_reader.py:157 | `s.split('_')[0]` is the longest separator-free prefix of `s`. It is the whole key exactly when the key has no `_` |
| Nwb1Reader.MiesKey | allensdk/experimental/nwb/nwb1_reader.py:77 | a MIES key is `data_`, the `%05d` rendering of the sweep number, `_` and the channel name |
| Nwb1Reader.AcquisitionKey | allensdk/experimental/nwb/nwb1_reader.py:77 | the acquisition key of sweep `n` is `data_`, the `%05d` rendering of `n`, and `_AD0` |
| Nwb1Reader.StimulusKey | allensdk/experimental/nwb/nwb1_reader.py:108 | the stimulus key of sweep `n` is `data_`, the `%05d` rendering of `n`, and `_DA0` |
| Nwb1Reader.MiesKeyPieces | allensdk/experimental/nwb/nwb1_reader.py:77 | a MIES key splits on `_` into `data`, the padded sweep number and the channel |
| Nwb1Reader.SweepNumber | allensdk/experimental/nwb/nwb1_reader.py:136-140 | a name without `_` raises an index error. Otherwise the result succeeds exactly when the second `_`-token is an integer, and it is that integer's value; a non-integer second token raises the `int()` value error carrying that token |
| Nwb1Reader.SweepNumberRoundTrip | allensdk/experimental/nwb/nwb1_reader.py:138 | parsing the acquisition or the stimulus key of sweep `n` gives back `n`, for every integer `n` |
| Nwb1Reader.AcquisitionKeyInjective | allensdk/experimental/nwb/nwb1_reader.py:77 | different sweep numbers never share an acquisition key |
| Nwb1Reader.SweepNumberExample | allensdk/experimental/nwb/nwb1_reader.py:136-140 | `get_sweep_number("data_00042_AD0")` is 42 |
| Nwb1Reader.MalformedSweepNameExample | allensdk/experimental/nwb/nwb1_reader.py:136-140 | `get_sweep_number("malformed")` fails |
| Nwb1Reader.CommonRecord | allensdk/experimental/nwb/nwb1_reader.py:125-132 | the stimulus-shaped record has exactly the keys data, rate, unit, conversion, clamp_mode and source, and carries the series' values and the clamp-mode name |
| Nwb1Reader.AcquisitionRecord | allensdk/experimental/nwb/nwb1_reader.py:78-103 | reading an AD0 series fails exactly when the raw stimulus description is empty (an index error) or the clamp mode fails (with the clamp-mode error, when the description is present). A record has exactly the seven acquisition keys and carries the series' data, rate, unit, conversion, source and clamp mode, with `stimulus_description` equal to the first raw description element |
| Nwb1Reader.AcquisitionOf | allensdk/experimental/nwb/nwb1_reader.py:74-77 | a missing `data_%05d_AD0` key under the acquisition timeseries raises a key error. Otherwise the result is the record read from the series stored under that key |
| Nwb1Reader.StimulusRecord | allensdk/experimental/nwb/nwb1_reader.py:109-132 | reading a DA0 series fails exactly when the clamp mode fails, with the same error. A record has exactly the six stimulus keys and carries the series' data, rate, unit, conversion, source and clamp mode |
| Nwb1Reader.StimulusOf | allensdk/experimental/nwb/nwb1_reader.py:105-108 | a missing `data_%05d_DA0` key under the stimulus presentation raises a key error. Otherwise the result is the record read from the series stored under that key |
| Nwb1Reader.StimulusMatchesAcquisition | allensdk/experimental/nwb/nwb1_reader.py:78-132 | when a DA0 series matches a readable AD0 series apart from the description, its stimulus record is the acquisition record without `stimulus_description` |
| Nwb1Reader.CreateReader | allensdk/experimental/nwb/nwb1_reader.py:143-164 | an empty key list raises an index error. A first-key prefix of `data` gives the MIES reader, `Sweep` gives the pipeline reader, and any other prefix raises the unknown-naming-convention error. Each outcome happens only for its prefix |
| Nwb1Reader.MiesKeyConvention | allensdk/experimental/nwb/nwb1_reader.py:157 | the naming convention of every MIES key is `data` |
| Nwb1Reader.CreateReaderForMiesKey | allensdk/experimental/nwb/nwb1_reader.py:155-160 | a file whose first key is a MIES acquisition or stimulus key gets the MIES reader |
| Nwb1Reader.CreateReaderForPipelineKey | allensdk/experimental/nwb/nwb1_reader.py:155-162 | a file whose first key is `Sweep` or starts with `Sweep_` gets the pipeline reader |
| Nwb1Reader.ReaderSweepNumber | allensdk/experimental/nwb/nwb1_reader.py:14-15 | on the pipeline reader `get_sweep_number` is the unimplemented base stub. On the MIES reader it is the override |
| Nwb1Reader.ReaderReadsFirstSweepNumber | allensdk/experimental/nwb/nwb1_reader.py:136-160 | for a file whose first acquisition key belongs to sweep `n`, the factory succeeds and the reader it returns reads `n` back from the first sweep name |
| Stimulus.Range | allensdk/experimental/nwb/stimulus.py:31 | `range(n)` has `n` entries, and entry `i` is `i` |
| Stimulus.Take | allensdk/experimental/nwb/stimulus.py:23-25 | `s[:n]` has length `min(n, len(s))` and is a prefix of `s` |
| Stimulus.AlignEncoder | allensdk/experimental/nwb/stimulus.py:21-25 | afterwards `dx` is never longer than the timing array, and each array is a prefix of its original. When `dx` is longer, `dx` is cut to the timing length and `vsig`/`vin` to at most that length. Otherwise all three are unchanged |
| Stimulus.AlignEncoderIdempotent | allensdk/experimental/nwb/stimulus.py:21-25 | aligning an already aligned encoder changes nothing |
| Stimulus.VisualCodingRunningSpeed | allensdk/experimental/nwb/stimulus.py:15-35 | the time column is the timing array and the frame column is `0..len(time)-1`. The `dx` column is the aligned `dx`, a prefix of the raw one no longer than time. The speed is computed from the aligned arrays |
| Stimulus.SourceName | allensdk/experimental/nwb/stimulus.py:39 | the `_source` class attribute is empty exactly for the base class |
| Stimulus.SourceNamesDistinct | allensdk/experimental/nwb/stimulus.py:91-148 | the visual-behavior and visual-coding sources differ from each other and from the base class |
| Stimulus.CompressionOptions | allensdk/experimental/nwb/stimulus.py:48-52 | `compress=True` gives exactly the keys `compression` (true) and `compression_opts` (9). `compress=False` gives an empty map |
| Stimulus.NewAdapter | allensdk/experimental/nwb/stimulus.py:41-52 | the constructor stores its arguments and the chosen compression options, and starts with both caches empty. `stim_key` defaults to `stim_vsync` and `compress` to true |
| Stimulus.NewVisualBehaviorAdapter | allensdk/experimental/nwb/stimulus.py:93-96 | the visual-behavior adapter always has `stim_key` `stim_vsync` and the options of `compress=True`, with empty caches. `sync_file` defaults to none |
| Stimulus.DefaultArguments | allensdk/experimental/nwb/stimulus.py:41-110 | with the defaults, a visual-coding adapter compresses and reads `stim_vsync`. A visual-behavior adapter built from a pickle alone has no sync file, so `get_times` succeeds exactly when the loaded `core_data` has a `time` entry |
| Stimulus.VisualBehaviorIgnoresOptions | allensdk/experimental/nwb/stimulus.py:93-96 | two visual-behavior adapters built with any `stim_key`/`compress` values are identical |
| Stimulus.CoreDataOf | allensdk/experimental/nwb/stimulus.py:98-104 | `core_data` fails exactly on the base adapter, and then changes nothing. It loads only while the cache is empty and then stores what it loaded. With a filled cache it returns the stored value and changes nothing. No other field changes |
| Stimulus.CoreDataMemoised | allensdk/experimental/nwb/stimulus.py:150-155 | a second `core_data` access returns the same value and leaves the adapter unchanged |
| Stimulus.Times | allensdk/experimental/nwb/stimulus.py:106-110 | a visual-behavior adapter without a sync file reads `core_data['time']`, filling the cache if need be, and fails with a key error when there is no time entry; the filled cache survives that failure. Every other case reads the sync file under the adapter's `stim_key`. Only the `core_data` cache can change |
| Stimulus.RunningSpeed | allensdk/experimental/nwb/stimulus.py:68-87 | with a filled cache it returns the cached series unchanged. Otherwise a missing `running` entry of `core_data` raises a key error before `get_times` is called, and with the entry present it succeeds exactly when `get_times` does; a failure carries the error and the adapter as it was left, with `core_data` loaded. A new series has the speed column as data, never cut, `get_times` cut to the speed length as timestamps, the adapter's source and compression options, and is then stored |
| Stimulus.RunningSpeedTimestampsFit | allensdk/experimental/nwb/stimulus.py:76-79 | a fresh series has no more timestamps than samples, its timestamps are a prefix of `get_times`, and timestamps no longer than the speed are kept whole |
| Stimulus.RunningSpeedMemoised | allensdk/experimental/nwb/stimulus.py:71-87 | a second `running_speed` access returns the same series and leaves the adapter unchanged. A stored `core_data` survives the first access |
| Stimulus.FailedRunningSpeedKeepsCoreData | allensdk/experimental/nwb/stimulus.py:71-110 | when `running_speed` of a non-base adapter fails, the error is the missing-`running` key error if that entry is absent, and otherwise the missing-`time` key error of a visual-behavior adapter without a sync file. The `core_data` it loaded stays stored |
| Stimulus.FreshRunningSpeedOptions | allensdk/experimental/nwb/stimulus.py:41-87 | in the model, where the foreign calls and the DataFrame never raise, `running_speed` of a fresh visual-coding adapter succeeds, and its series is written with `CompressionOptions(compress)` from the constructor |
| Stimulus.VisualBehaviorRunningSpeedCompressed | allensdk/experimental/nwb/stimulus.py:93-96 | a visual-behavior adapter's series is written with the `compress=True` options whatever `compress` its caller passed |

## Left out

- HDF5 access through h5py, and the pattern of reopening the file on every call: the file is the abstract `NwbFile` record.
- Sample arrays are opaque sequences of reals. The float coercion `1.0 * rate` is not modelled: the stored rate is passed through.
- Python's `int()` leniency is not modelled: surrounding whitespace, a leading `+`, `_` digit separators and non-ASCII digits. h5py values that arrive as bytes rather than str are not modelled either. Integer tokens are an optional `-` followed by ASCII digits, and `str()` of a description element is the element itself.
- `NwbReader.get_sweep_data` is an abstract stub that no variant overrides, so it always raises `NotImplementedError`. It is not a member of the model.
- Calling the base `get_sweep_number` stub with a name is a `TypeError` in Python rather than `NotImplementedError`. `ReaderSweepNumber` reports both as `NotImplemented`.
- `get_acquisition`/`get_stimulus` exist only on the MIES reader. `AcquisitionOf` and `StimulusOf` take the file directly, so calling them on a pipeline reader (an `AttributeError`) is not modelled.
- The `session_start_time` properties (a raise in the base class, a `core_data['metadata']['startdatetime']` lookup in the visual-behavior adapter) are not modelled. They are plain lookups in foreign data.
- `get_epoch_table` builds a hard-coded placeholder table through pandas and pynwb, and the code after its `return` is dead. The `EPOCHS` constant is not modelled either.
- pandas, visual_behavior, pynwb, scipy and the sync-file reader are foreign calls. `read_pickle`, `data_to_change_detection_core`, `compute_running_speed` and `get_timestamps_from_sync` are opaque functions in `Env`. `TimeSeries(..., data=H5DataIO(...))` is a record of the arguments it is given. The DataFrame's own check that all columns have equal length is not modelled. The source therefore raises where the model succeeds: `visual_coding_running_speed` fails whenever the timing array is longer than `dx`, because `dx` is never lengthened, and whenever `compute_running_speed` returns a column of another length.
- The `speed` column of the running table is taken to be present: `running_df.speed` is an attribute access on foreign data. A missing `running` entry of `core_data` is modelled as its key error.
- Logging calls.
