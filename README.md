# Speaker diarization bookkeeping of the AMI recipe

This project models the deterministic bookkeeping of the AMI speaker
diarization recipe (`recipes/AMI/Diarization/sd.py`). The recipe does its
heavy work in external libraries: embedding extraction, k-nearest-neighbour
graphs, eigen-decomposition and k-means. Around those calls it does:

- **Affinity.** It turns the k-nearest-neighbour connectivity matrix of a
  recording into a symmetric affinity matrix, `0.5 * (G + G.T)`
  (`Spec_Cluster.perform_sc`).
- **Embedding components.** It decides how many eigenvectors to request
  and which of them, in which order, form the spectral embedding
  (`spectral_embedding_sb`, `spectral_clustering_sb`).
- **Labels to entries.** It turns the cluster labels of a recording's
  subsegments into `[recording, start, end, speaker]` entries, then sorts
  them by start time (`do_spec_clustering`). Each id `<rec>_<start>_<end>`
  is split at its last two underscores. The speaker id is built from
  `rec_id` *before* `rec_id` is overwritten by the parsed recording, so
  entry i uses the recording of entry i-1, and the first entry uses the
  function's argument. The loop is stated for any reader of ids (a
  function from an id to its recording, start and end, or the exception
  raised), and `do_spec_clustering` runs it with the reader that does
  `rsplit("_", 2)` and `float()`.
- **Dataset bookkeeping.** It reads the reference RTTM file, keeps its
  `SPKR-INFO` lines, and lists the recording ids of the dataset CSV
  (`diarize_dataset`).
- **Tuning.** It picks the number of speakers with the lowest diarization
  error rate on the dev set (`dev_tuner`).

Modules, one per file:

- `Wrappers`: `Option` and `Result`.
- `PyStrings`: the Python string operations used, namely `rsplit("_", 2)`,
  `split("_")[0]`, `rstrip()`, `startswith`, `line[:-1]`, `str(int)` and
  string `<`.
- `Affinity`: the symmetrisation.
- `Spectral`: the eigenvector bookkeeping. The numerics come in as the
  functions of a `Numerics` value.
- `SpecClustering`: the `Spec_Cluster` class, `do_spec_clustering`, the
  label conversion loop and the stable sort.
- `Dataset`: the RTTM lines, the `SPKR-INFO` filter and the recording ids.
- `Tuner`: `dev_tuner`.

Python's exceptions are modelled as `Failure` results:

- `IndexError` when `subseg_ids[i]` or `splitted[1]`/`splitted[2]` does
  not exist.
- `ValueError` when `float()` rejects a field.
- `IndexError` for a CSV row without fields.
- `ValueError` from `min([])` when `max_num_spkrs < 1`.

A conversion failure records the loop iteration that raised it.

Notes on what the code does:

- `spectral_clustering_sb` calls `spectral_embedding_sb` with
  `drop_first=False` (sd.py:206-208). So no eigenvector is dropped, and the
  solver is asked for exactly `n_components` vectors, `n_clusters` by
  default (`Spectral.ClusteringMapsReversed`,
  `Spectral.DefaultClusteringMaps`).
- The conversion loop never checks that the subsegment ids belong to
  `rec_id`. It names the speaker of entry i after the recording of entry
  i-1 (`SpecClustering.SpeakerIdsFollowPreviousRecording`).
- The recipe itself raises no configuration error (too few segments, too
  many clusters). Such errors come from scikit-learn's `kneighbors_graph`
  and `k_means`, or from SciPy's sparse `eigsh` at line 176, which rejects
  a number of eigenvectors that is not positive or not below the matrix
  size. None of these is modelled: the `Numerics` functions are total.
- `line[:-1]` removes the last character of every line, not just a
  newline. A final line without a newline loses a real character, and the
  model states it that way (`Dataset.ReadRttm`).

## Model

| member | source | states |
|---|---|---|
| PyStrings.LastIndex | recipes/AMI/Diarization/sd.py:240 | the search for the separator finds an occurrence with none after it, and finds nothing exactly when the string has none |
| PyStrings.LastIndexUnique | recipes/AMI/Diarization/sd.py:240 | a string holding the separator has a last occurrence of it, and only one |
| PyStrings.LastIndexOfSplit | recipes/AMI/Diarization/sd.py:240 | in `a + sep + b` with `b` free of the separator, the last separator is the one after `a` |
| PyStrings.JoinAppend | recipes/AMI/Diarization/sd.py:240 | joining one more part adds the separator and that part at the end |
| PyStrings.RSplit | recipes/AMI/Diarization/sd.py:240 | `rsplit(sep, maxsplit)` returns at least one and at most `maxsplit + 1` parts |
| PyStrings.RSplitParts | recipes/AMI/Diarization/sd.py:240 | joining the parts of `rsplit(sep, maxsplit)` with `sep` gives the string back; every part but the first is free of `sep`, and the first is too when fewer than `maxsplit` splits were made |
| PyStrings.RSplitUnique | recipes/AMI/Diarization/sd.py:240 | any `maxsplit + 1` parts that join to the string, with all but the first free of `sep`, are exactly what `rsplit` returns, so the recording part may itself contain underscores |
| PyStrings.FirstField | recipes/AMI/Diarization/sd.py:310 | `split("_")[0]` is the longest prefix without `_`: it is followed by `_` or is the whole string |
| PyStrings.RStrip | recipes/AMI/Diarization/sd.py:310 | `rstrip()` removes exactly the trailing run of Python white space and keeps the rest as a prefix |
| PyStrings.StartsWithSplit | recipes/AMI/Diarization/sd.py:306 | `line.startswith(tag)` holds exactly when the line is the tag followed by the rest |
| PyStrings.DropLast | recipes/AMI/Diarization/sd.py:302 | `line[:-1]` plus the removed character is the line; an empty line stays empty |
| PyStrings.IntToString | recipes/AMI/Diarization/sd.py:236 | `str(label)` is non-empty, has no `_`, and starts with `-` exactly for negative labels |
| PyStrings.DecimalRoundTrip | recipes/AMI/Diarization/sd.py:236 | reading back the decimal digits of a natural number gives the number |
| PyStrings.NatToDecimalDigits | recipes/AMI/Diarization/sd.py:236 | `str(n)` of a natural number is made of decimal digits only, and starts with `0` exactly when `n` is zero, so it has no leading zeros |
| PyStrings.NegativeDigits | recipes/AMI/Diarization/sd.py:236 | `str(label)` of a negative label is `-` followed by the digits of its magnitude |
| PyStrings.IntToStringInjective | recipes/AMI/Diarization/sd.py:236 | two labels print the same exactly when they are equal |
| PyStrings.LexLessIrreflexive | recipes/AMI/Diarization/sd.py:312 | no string sorts before itself |
| PyStrings.LexLessTransitive | recipes/AMI/Diarization/sd.py:312 | the string order used by `sort()` is transitive |
| PyStrings.LexLessTrichotomy | recipes/AMI/Diarization/sd.py:312 | two different strings are ordered one way and not the other |
| Affinity.Transpose | recipes/AMI/Diarization/sd.py:279 | `G.T` is square of the same size, with entry (i, j) equal to G's entry (j, i) |
| Affinity.Symmetrize | recipes/AMI/Diarization/sd.py:279 | `0.5 * (G + G.T)` is square and symmetric, each entry is the mean of the two directed weights, and the diagonal is G's own |
| Affinity.BinaryAffinity | recipes/AMI/Diarization/sd.py:279 | on a 0/1 graph an affinity is 1 iff the edge exists both ways, 0.5 iff exactly one way, 0 iff neither, and always lies in [0, 1] |
| Affinity.AffinityBounded | recipes/AMI/Diarization/sd.py:279 | weights in [0, 1] give affinities in [0, 1] |
| Affinity.SymmetrizeFixesSymmetric | recipes/AMI/Diarization/sd.py:279 | a matrix that is already symmetric is unchanged |
| Affinity.SymmetrizeIdempotent | recipes/AMI/Diarization/sd.py:279 | symmetrising twice is symmetrising once |
| Spectral.Reverse | recipes/AMI/Diarization/sd.py:180 | element i of the result is element n-1-i of the input |
| Spectral.SliceDownFrom | recipes/AMI/Diarization/sd.py:180 | `rows[start::-1]` clamps a start past the end to the last row and lists the rows from there down to the first |
| Spectral.SolverRequest | recipes/AMI/Diarization/sd.py:154-155 | the solver is asked for one vector more than `n_components` with `drop_first`, so exactly `n_components` remain after the drop, and for `n_components` otherwise |
| Spectral.Slice | recipes/AMI/Diarization/sd.py:186-189 | `s[lo:hi]` with Python's clamping: its length is `min(hi, len(s)) - lo` when `lo < hi` and `lo < len(s)`, and 0 otherwise, and element i is `s[lo + i]` |
| Spectral.PostProcess | recipes/AMI/Diarization/sd.py:182-185 | each eigenvector is divided by the degree vector when the Laplacian is normalised, and then sign-flipped |
| Spectral.MapPostProcess | recipes/AMI/Diarization/sd.py:182-185 | the post-processing applies to every eigenvector, one by one, keeping their number and order |
| Spectral.SpectralEmbeddingSb | recipes/AMI/Diarization/sd.py:147-189 | the embedding never has more than `n_components` columns, whatever the solver returns |
| Spectral.EmbeddingColumns | recipes/AMI/Diarization/sd.py:154-155 | one extra eigenvector is requested with `drop_first`; when the solver returns all it was asked for, the embedding has exactly `n_components` columns, column i being the solver's vector k-1-i (k-2-i with `drop_first`) post-processed, so the whole output is reversed and with `drop_first` the first reversed vector is discarded (lines 176-189) |
| Spectral.ComponentCount | recipes/AMI/Diarization/sd.py:204 | `n_components` is `n_clusters` when not given, and the given value otherwise |
| Spectral.ClusteringMaps | recipes/AMI/Diarization/sd.py:206-208 | the embedding handed to k-means never has more columns than `n_components` |
| Spectral.ClusteringMapsReversed | recipes/AMI/Diarization/sd.py:206-208 | whatever `n_components` is, when the solver returns the vectors requested, k-means receives all of them, in reverse solver order, degree-normalised and sign-flipped: none is dropped |
| Spectral.SpectralClusteringSb | recipes/AMI/Diarization/sd.py:192-214 | the labels are those k-means assigns with `n_clusters` clusters to all the requested eigenvectors of the normalised Laplacian, reversed and post-processed, whenever the solver returns them all (see also `Spectral.DefaultClusteringMaps`) |
| Spectral.DefaultClusteringMaps | recipes/AMI/Diarization/sd.py:203-212 | with `n_components=None`, `n_clusters` eigenvectors are requested, none is dropped, and k-means receives `n_clusters` columns in reverse solver order, degree-normalised and sign-flipped |
| SpecClustering.ParseSubsegment | recipes/AMI/Diarization/sd.py:240-243 | reads one subsegment id, raising `IndexError` or `ValueError` in the order of lines 240-243; what a successful read yields is fixed in both directions by `SpecClustering.ParsedSubsegmentFields` and `SpecClustering.SubsegmentIdRoundTrip` |
| SpecClustering.ParseWithoutSeparator | recipes/AMI/Diarization/sd.py:240-241 | an id without `_` raises `IndexError` at `splitted[1]` |
| SpecClustering.ParseOneSeparator | recipes/AMI/Diarization/sd.py:240-243 | an id `rec_a` with one `_` raises `ValueError` when `float(a)` rejects `a`, and otherwise `IndexError` at `splitted[2]` |
| SpecClustering.ParseRejectedTimes | recipes/AMI/Diarization/sd.py:240-243 | an id `rec_a_b` raises `ValueError` when `float()` rejects the start, or accepts the start and rejects the end |
| SpecClustering.ParsedSubsegmentFields | recipes/AMI/Diarization/sd.py:240-243 | a parsed id is `rec + "_" + a + "_" + b` where `a` and `b` are free of `_` and `float()` accepted them as start and end |
| SpecClustering.SubsegmentIdRoundTrip | recipes/AMI/Diarization/sd.py:240-243 | an id built as `rec_start_end` parses back to that recording, start and end, however many `_` the recording contains |
| SpecClustering.StepErrorCases | recipes/AMI/Diarization/sd.py:238-243 | iteration i is clean exactly when `subseg_ids[i]` exists and is read; a missing id raises `IndexError`, a failed read raises the reader's exception |
| SpecClustering.IterateStep | recipes/AMI/Diarization/sd.py:235-246 | one iteration (`Iterate`) succeeds exactly when it is clean; it then keeps `lol` and appends one entry holding the recording, start and end read from `subseg_ids[i]` and the speaker old `rec_id` plus `"_" + str(label)`, and that recording becomes `rec_id`; otherwise it raises its exception at its own index |
| SpecClustering.EntriesUpToAt | recipes/AMI/Diarization/sd.py:233-246 | the entry at position j of the first `n` iterations' entries is the entry iteration j produces |
| SpecClustering.FirstError | recipes/AMI/Diarization/sd.py:235-243 | reports the first iteration that raises, with its exception, or none when every iteration succeeds |
| SpecClustering.FirstErrorIs | recipes/AMI/Diarization/sd.py:235-243 | an iteration that raises after clean ones is the first failure |
| SpecClustering.FirstErrorExtend | recipes/AMI/Diarization/sd.py:235-243 | the first failure of `n + 1` iterations is the first among `n`, or else iteration `n`'s exception |
| SpecClustering.ConvertLabels | recipes/AMI/Diarization/sd.py:231-249 | the conversion succeeds exactly when every iteration succeeds; otherwise it reports the first iteration that raises (`IndexError` for a missing id or field, `ValueError` for a rejected float), with every earlier iteration clean |
| SpecClustering.LoopStateMeaning | recipes/AMI/Diarization/sd.py:233-246 | the loop's state after `n` iterations (`LoopState`) is the first exception among them, or exactly their entries with `rec_id` set by the last one |
| SpecClustering.LoopStepFromClean | recipes/AMI/Diarization/sd.py:233-246 | after `m` clean iterations, iteration `m` raises its own exception or appends its entry and sets `rec_id` to its recording |
| SpecClustering.LoopStateFailureStays | recipes/AMI/Diarization/sd.py:233-246 | an exception ends the loop: later iterations do not change the outcome |
| SpecClustering.LoopStateAdvance | recipes/AMI/Diarization/sd.py:233-246 | from the state after `i` iterations, a missing id or a failed parse at iteration `i` is the loop's outcome, and a successful parse appends the entry named after the current `rec_id` and moves `rec_id` on |
| SpecClustering.LoopComputesConversion | recipes/AMI/Diarization/sd.py:231-249 | running the loop to the end and sorting its list gives the specified conversion, exception included |
| SpecClustering.CollectEntries | recipes/AMI/Diarization/sd.py:233-246 | the loop that appends to `lol` while reassigning `rec_id` ends in the state the iterations define, or with the exception of the first one that raises |
| SpecClustering.ConvertLabelsFailsAt | recipes/AMI/Diarization/sd.py:235-243 | an exception at iteration i after i clean iterations is the outcome of the conversion |
| SpecClustering.LabelsToEntries | recipes/AMI/Diarization/sd.py:231-249 | the loop followed by the sort returns exactly the specified conversion, including the exception and its iteration |
| SpecClustering.SpeakerIdsFollowPreviousRecording | recipes/AMI/Diarization/sd.py:235-241 | entry 0's speaker is `rec_id + "_" + str(label)`, and every later entry's speaker is the previous entry's recording plus `"_" + str(label)` |
| SpecClustering.IterateChains | recipes/AMI/Diarization/sd.py:235-246 | one iteration keeps the chain of speaker ids: each new speaker is named after the recording held in `rec_id` |
| SpecClustering.AppendChains | recipes/AMI/Diarization/sd.py:235-246 | appending an entry named after the current `rec_id` keeps the chain, and its recording becomes the new `rec_id` |
| SpecClustering.LoopStateChained | recipes/AMI/Diarization/sd.py:235-246 | after `n` clean iterations the list holds `n` entries whose speakers follow the chain of recordings from the argument `rec_id` |
| SpecClustering.UnsortedIsEntryAt | recipes/AMI/Diarization/sd.py:235-246 | when every iteration is clean, entry i of the loop's list is the entry iteration i produces |
| SpecClustering.UnsortedAt | recipes/AMI/Diarization/sd.py:235-246 | when every iteration is clean, entry i holds the recording, start and end read from `subseg_ids[i]`, and its speaker is the recording before it plus `"_" + str(label)` |
| SpecClustering.SpeakerIdsOfOneRecording | recipes/AMI/Diarization/sd.py:235-241 | when every id read belongs to `rec_id`, each entry's speaker is `rec_id + "_" + str(label)` for its own label, and two entries share a speaker exactly when they share a label |
| SpecClustering.ConvertedEntriesSorted | recipes/AMI/Diarization/sd.py:235-249 | on success the list has one entry per label and is a permutation of the loop's entries, sorted by start, with entries of equal start in loop order |
| SpecClustering.InsertByStart | recipes/AMI/Diarization/sd.py:249 | insertion adds exactly the one entry, and the new head is the entry or the old head |
| SpecClustering.InsertKeepsSorted | recipes/AMI/Diarization/sd.py:249 | inserting into a list sorted by start keeps it sorted |
| SpecClustering.SortByStart | recipes/AMI/Diarization/sd.py:249 | `lol.sort(key=start)` yields a permutation of the list, ordered by start |
| SpecClustering.InsertWithStart | recipes/AMI/Diarization/sd.py:249 | inserting an entry adds it, and nothing else, in front of the entries with its start time |
| SpecClustering.SortIsStable | recipes/AMI/Diarization/sd.py:249 | the sort is stable: for every start time, the entries with that start keep their relative order |
| SpecClustering.SpecCluster.constructor | recipes/AMI/Diarization/sd.py:220-225 | a new clustering object has its number of clusters and no affinity or labels yet |
| SpecClustering.SpecCluster.PerformSc | recipes/AMI/Diarization/sd.py:264-287 | `perform_sc` stores `0.5 * (G + G.T)` as the affinity matrix and the spectral clustering of it into `n_clusters` as the labels |
| SpecClustering.DoSpecClustering | recipes/AMI/Diarization/sd.py:217-249 | clusters the symmetrised connectivity into `k` speakers and returns the sorted conversion of those labels |
| Dataset.ReadRttm | recipes/AMI/Diarization/sd.py:299-303 | one entry per line, each the line without its last character |
| Dataset.SpkrInfo | recipes/AMI/Diarization/sd.py:305-307 | the filter returns only lines of the file that start with `SPKR-INFO`, and no more of them than the file has |
| Dataset.PositionsPick | recipes/AMI/Diarization/sd.py:305-307 | the filtered lines are the file's lines at the listed positions |
| Dataset.PositionsIncrease | recipes/AMI/Diarization/sd.py:305-307 | the listed positions are strictly increasing, so file order is kept |
| Dataset.PositionsMembers | recipes/AMI/Diarization/sd.py:305-307 | a position is listed exactly when its line starts with `SPKR-INFO` |
| Dataset.SpkrInfoSelects | recipes/AMI/Diarization/sd.py:305-307 | the filter keeps exactly the lines starting with `SPKR-INFO`, each once and in file order |
| Dataset.AscendingNoDuplicates | recipes/AMI/Diarization/sd.py:311-312 | a strictly ascending list has no repeated value |
| Dataset.InsertUnique | recipes/AMI/Diarization/sd.py:311 | adding a value to the set adds that value and nothing else |
| Dataset.InsertUniqueAscending | recipes/AMI/Diarization/sd.py:311-312 | adding a value keeps the list strictly ascending |
| Dataset.SortedSet | recipes/AMI/Diarization/sd.py:311-312 | `sorted(set(xs))` is strictly ascending and holds exactly the values of `xs` |
| Dataset.AscendingFirst | recipes/AMI/Diarization/sd.py:312 | the first value of a strictly ascending list is below every other value |
| Dataset.TailMember | recipes/AMI/Diarization/sd.py:312 | the tail of a strictly ascending list holds exactly the values above its first |
| Dataset.AscendingUnique | recipes/AMI/Diarization/sd.py:311-312 | only one strictly ascending list has a given set of values, so the order in which the set yields them does not matter |
| Dataset.RecordingIdOf | recipes/AMI/Diarization/sd.py:310 | `row[0].rstrip().split("_")[0]` has no `_`, is a prefix of the stripped field `row[0].rstrip()`, and is followed there by `_` unless it is all of it, so it is that field's first `_`-field |
| Dataset.RecordingIdList | recipes/AMI/Diarization/sd.py:310 | `A` has one recording id per CSV row, header included, each the first `_`-field of the stripped first column |
| Dataset.TailMembers | recipes/AMI/Diarization/sd.py:310-311 | `A[1:]` holds exactly the recording ids of the rows after the header |
| Dataset.RecordingIds | recipes/AMI/Diarization/sd.py:310-312 | `IndexError` exactly when some row is empty; otherwise strictly ascending, each id once, holding exactly the ids of the non-header rows |
| Tuner.Min | recipes/AMI/Diarization/sd.py:437 | `min()` is an element of the list and no larger than any element |
| Tuner.IndexOf | recipes/AMI/Diarization/sd.py:437 | `index(v)` is the first position holding `v` |
| Tuner.DevTuner | recipes/AMI/Diarization/sd.py:407-439 | fails exactly when there is no candidate; otherwise the result is a candidate in [1, max_num_spkrs] whose error rate is no larger than any other's and strictly smaller than every smaller candidate's, so it is 1 + the index of the first minimum |

## Left out

- Embedding extraction, model loading and pretrained-model download (lines 64-141, 318-369): neural-network inference, devices and file I/O.
- `kneighbors_graph` (lines 274-278): the connectivity matrix is an input of `SpecCluster.PerformSc` and `DoSpecClustering`, given as a dense square matrix.
- `csgraph_laplacian`, `diar.set_diag`, `eigsh` and the division by the degree vector (lines 163-183): floating-point linear algebra in external libraries. They are the functions `eigsh` and `divideByDegree` of `Spectral.Numerics`. `eigsh` takes the affinity, `norm_laplacian` (which selects the Laplacian it decomposes) and the number of vectors, and returns the rows of `diffusion_map.T`; nothing is known about their values.
- `diar.deterministic_vector_sign_flip` (line 185): the diarization helper module is not part of this model. It is the function `signFlip`, assumed to act on each eigenvector separately.
- `diar.graph_is_connected` and its warning (lines 157-161): the warning has no effect on the result.
- `k_means` (lines 210-212): the function `kMeans` of `Spectral.Numerics`. `random_state`, `n_init`, `eigen_solver`, `eigen_tol` and `assign_labels` do not affect the bookkeeping and are not parameters.
- Randomness of `k_means`: `Spec_Cluster` is built with `random_state=params["seed"]` (line 223), but `perform_sc` does not pass it on (lines 282-286), so `k_means` draws from numpy's global generator, seeded once at line 38. `kMeans` is a pure function, so the model does not capture that two calls on the same maps can return different labels. Nothing proved depends on this.
- Default arguments: `k=4` of `do_spec_clustering` (line 217), `n_components=8, norm_laplacian=True, drop_first=True` of `spectral_embedding_sb` (line 148) and `n_clusters=8` of `spectral_clustering_sb` (line 194) are not modelled. Every modelled call passes these values explicitly; `ClusteringMaps` fixes `norm_laplacian` to true.
- Spectral.SpectralEmbeddingSb: returns the embedding as its list of columns, so the final `.T` is not modelled. Its general contract bounds only the number of columns. The exact columns are stated by `Spectral.EmbeddingColumns` for a solver that returns all the vectors requested.
- `float()` (lines 242-243, 249): an abstract parse from a string to an optional real. IEEE values, NaN and infinities are not modelled. The sort key `float(x[1])` is taken to be the start itself.
- SpecClustering.SortByStart: `list.sort` is an in-place Timsort. It is modelled as a function, a stable insertion sort whose result is proved sorted, a permutation and stable. Timsort's steps are not modelled.
- `diar.merge_ssegs_same_speaker`, `diar.distribute_overlap`, `diar.write_rttm` and the final log message (lines 251-260): the diarization helper module is not part of this model, so `DoSpecClustering` stops at the sorted entries.
- `diarize_dataset` after line 312, `diar.get_oracle_num_spkrs`, RTTM concatenation, directory creation, DER scoring, logging, `np.random.seed` and the `__main__` driver: I/O and orchestration around the modelled steps. In `Tuner.DevTuner` the error rate of each candidate is the input function `der`.
- Dataset.ReadRttm: file reading is modelled as the list of lines the file yields.
- PyStrings.IsSpace: lists the characters Python 3's `str.isspace` accepts: the ASCII and Latin-1 controls and spaces, the Unicode space separators, and U+2028 and U+2029. It is a fixed table rather than Python's Unicode database, so a future Unicode version that adds white space is not followed.
- Python's `set` iteration order is not modelled. `Dataset.AscendingUnique` shows that the sorted result does not depend on it.
