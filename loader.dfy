/**
 * The dataset loader of the I/O manager (`load_data`). A directory is given
 * as its listing, in the order the file system yields it; each entry has a
 * name and, read as an HDF5 file, a map from dataset name to that dataset's
 * per-event values. The loader keeps the entries whose name ends in ".h5",
 * appends each file's chunk for every requested field the file holds, and
 * counts the files and the events (the length of each file's "cvnmap").
 */
module DatasetLoader {
  import opened Outcomes
  import opened Text

  type Key = string

  /** A directory entry: its name and the datasets it holds, each a sequence of per-event values. */
  datatype Entry<T> = Entry(name: string, datasets: map<Key, seq<T>>)

  /** What the loader returns: the chunks per field, the event total and the file total. */
  datatype Loaded<T> = Loaded(datasets: map<Key, seq<seq<T>>>, totalEvents: nat, totalFiles: nat)

  /** A data file without the primary field; the original fails on it with a KeyError. */
  datatype LoadError = MissingPrimaryField(fileName: string)

  const DataFileSuffix: string := ".h5"

  /** The field whose length is the file's event count. */
  const PrimaryField: Key := "cvnmap"

  const CoreFields: seq<Key> :=
    ["cvnmap", "vtx.x", "vtx.y", "vtx.z", "firstcellx", "firstcelly", "firstplane"]

  /** The elastic-arms vertex, requested with `load_elasticarms`. */
  const ElasticArmsFields: seq<Key> := ["vtxEA.x", "vtxEA.y", "vtxEA.z"]

  /** The keys of the field dictionary, in insertion order. */
  function FieldNames(loadElasticArms: bool): seq<Key>
  {
    CoreFields + (if loadElasticArms then ElasticArmsFields else [])
  }

  /** A data file: its name is some stem followed by ".h5". */
  predicate IsDataFile(name: string): (r: bool)
    ensures r <==> exists stem :: name == stem + DataFileSuffix
  {
    EndsWithIff(name, DataFileSuffix);
    EndsWith(name, DataFileSuffix)
  }

  /** A data file that cannot be read because it lacks the primary field. */
  predicate MissingPrimary<T>(e: Entry<T>)
  {
    IsDataFile(e.name) && PrimaryField !in e.datasets
  }

  predicate NoneMissingPrimary<T>(listing: seq<Entry<T>>)
  {
    forall j | 0 <= j < |listing| :: !MissingPrimary(listing[j])
  }

  /**
   * The position of the first data file that lacks the primary field, or the
   * length of the listing when there is none: the original aborts there.
   */
  function FirstUnreadable<T>(listing: seq<Entry<T>>): (r: nat)
    ensures r <= |listing|
  {
    if listing == [] then 0
    else if MissingPrimary(listing[0]) then 0
    else 1 + FirstUnreadable(listing[1..])
  }

  /** Every data file before the stopping point has the primary field, and the one at it does not. */
  lemma {:induction false} FirstUnreadableIsFirst<T>(listing: seq<Entry<T>>)
    ensures forall j | 0 <= j < FirstUnreadable(listing) :: !MissingPrimary(listing[j])
    ensures FirstUnreadable(listing) < |listing| ==> MissingPrimary(listing[FirstUnreadable(listing)])
    decreases |listing|
  {
    if listing != [] && !MissingPrimary(listing[0]) {
      var rest := listing[1..];
      FirstUnreadableIsFirst(rest);
      forall j | 0 <= j < FirstUnreadable(listing) ensures !MissingPrimary(listing[j]) {
        if j > 0 {
          assert listing[j] == rest[j - 1];
        }
      }
    }
  }

  /** The data files among the first `n` entries, in listing order. */
  function Processed<T>(listing: seq<Entry<T>>, n: nat): (r: seq<Entry<T>>)
    requires n <= |listing|
    ensures |r| <= n
  {
    if n == 0 then []
    else Processed(listing, n - 1) + (if IsDataFile(listing[n - 1].name) then [listing[n - 1]] else [])
  }

  /** The entries the loader processes. */
  function DataFiles<T>(listing: seq<Entry<T>>): seq<Entry<T>>
  {
    Processed(listing, |listing|)
  }

  /** The chunk a file contributes to `key`: its dataset when it holds `key`, nothing otherwise. */
  function ChunkOf<T>(file: Entry<T>, key: Key): seq<seq<T>>
  {
    if key in file.datasets then [file.datasets[key]] else []
  }

  /** The chunks collected for `key`: one per file holding `key`, in order. */
  function Chunks<T>(files: seq<Entry<T>>, key: Key): (r: seq<seq<T>>)
    ensures |r| <= |files|
  {
    if files == [] then []
    else Chunks(files[..|files| - 1], key) + ChunkOf(files[|files| - 1], key)
  }

  /** The number of events in a sequence of chunks. */
  function TotalLength<T>(chunks: seq<seq<T>>): (r: nat)
    ensures forall i | 0 <= i < |chunks| :: |chunks[i]| <= r
    ensures r == 0 <==> forall i | 0 <= i < |chunks| :: chunks[i] == []
  {
    if chunks == [] then 0
    else
      var init := chunks[..|chunks| - 1];
      assert forall i | 0 <= i < |init| :: init[i] == chunks[i];
      TotalLength(init) + |chunks[|chunks| - 1]|
  }

  /** The field dictionary for `keys` after `files`: each key with its chunks. */
  function ChunksByField<T>(files: seq<Entry<T>>, keys: seq<Key>): map<Key, seq<seq<T>>>
  {
    map k | k in keys :: Chunks(files, k)
  }

  /**
   * What loading `listing` yields when no data file lacks the primary field:
   * the requested fields with their chunks, the events of the primary field
   * and the number of data files.
   */
  function Expected<T>(listing: seq<Entry<T>>, loadElasticArms: bool): (r: Loaded<T>)
    ensures r.datasets.Keys == set k | k in FieldNames(loadElasticArms)
    ensures r.totalFiles <= |listing|
    ensures forall k | k in r.datasets :: |r.datasets[k]| <= r.totalFiles
  {
    var files := DataFiles(listing);
    Loaded(ChunksByField(files, FieldNames(loadElasticArms)), TotalLength(Chunks(files, PrimaryField)), |files|)
  }

  /** The dictionary after one file: each field the file holds gains that file's chunk at the end. */
  function AppendChunks<T>(datasets: map<Key, seq<seq<T>>>, file: Entry<T>): (r: map<Key, seq<seq<T>>>)
    ensures r.Keys == datasets.Keys
    ensures forall k | k in datasets :: datasets[k] <= r[k] && |r[k]| <= |datasets[k]| + 1
  {
    map k | k in datasets :: datasets[k] + ChunkOf(file, k)
  }

  /**
   * One file never removes a key or a chunk: a field it holds grows by exactly
   * its chunk, any other field is unchanged.
   */
  lemma AppendChunksGrows<T>(datasets: map<Key, seq<seq<T>>>, file: Entry<T>)
    ensures AppendChunks(datasets, file).Keys == datasets.Keys
    ensures forall k | k in datasets && k in file.datasets ::
      AppendChunks(datasets, file)[k] == datasets[k] + [file.datasets[k]]
    ensures forall k | k in datasets && k !in file.datasets :: AppendChunks(datasets, file)[k] == datasets[k]
  {
  }

  /**
   * The dictionary `load_data` starts from: the seven core fields, and the
   * three elastic-arms fields only when they are requested, none with a chunk.
   */
  method NewFieldSet<T>(loadElasticArms: bool) returns (datasets: map<Key, seq<seq<T>>>)
    ensures datasets.Keys == set k | k in FieldNames(loadElasticArms)
    ensures forall k | k in datasets :: datasets[k] == []
  {
    datasets := map[
      "cvnmap" := [], "vtx.x" := [], "vtx.y" := [], "vtx.z" := [],
      "firstcellx" := [], "firstcelly" := [], "firstplane" := []];
    if loadElasticArms {
      datasets := datasets["vtxEA.x" := []]["vtxEA.y" := []]["vtxEA.z" := []];
    }
  }

  /** The inner loop of `load_data`: append the file's chunk for each key of the dictionary, in key order. */
  method AppendFile<T>(datasets: map<Key, seq<seq<T>>>, keys: seq<Key>, file: Entry<T>)
    returns (updated: map<Key, seq<seq<T>>>)
    requires datasets.Keys == set k | k in keys
    requires forall a, b | 0 <= a < b < |keys| :: keys[a] != keys[b]
    ensures updated == AppendChunks(datasets, file)
  {
    updated := datasets;
    for j := 0 to |keys|
      invariant updated.Keys == datasets.Keys
      invariant forall a | 0 <= a < j :: updated[keys[a]] == datasets[keys[a]] + ChunkOf(file, keys[a])
      invariant forall a | j <= a < |keys| :: updated[keys[a]] == datasets[keys[a]]
    {
      var key := keys[j];
      if key in file.datasets {
        updated := updated[key := updated[key] + [file.datasets[key]]];
      }
    }
    forall k | k in datasets ensures updated[k] == AppendChunks(datasets, file)[k] {
      var a :| 0 <= a < |keys| && keys[a] == k;
    }
  }

  /** The field dictionary has no repeated key, so each file adds at most one chunk per field. */
  lemma FieldNamesDistinct(loadElasticArms: bool)
    ensures forall a, b | 0 <= a < b < |FieldNames(loadElasticArms)| ::
      FieldNames(loadElasticArms)[a] != FieldNames(loadElasticArms)[b]
  {
  }

  /** One more file appends that file's chunk to every field and its events to the total. */
  lemma FileStep<T>(files: seq<Entry<T>>, file: Entry<T>, keys: seq<Key>)
    requires PrimaryField in file.datasets
    ensures ChunksByField(files + [file], keys) == AppendChunks(ChunksByField(files, keys), file)
    ensures TotalLength(Chunks(files + [file], PrimaryField))
         == TotalLength(Chunks(files, PrimaryField)) + |file.datasets[PrimaryField]|
  {
    assert (files + [file])[..|files|] == files;
    var c := Chunks(files, PrimaryField);
    assert (c + [file.datasets[PrimaryField]])[..|c|] == c;
  }

  /** An entry that the loader gets past does not stop it. */
  lemma ReadablePast<T>(listing: seq<Entry<T>>, i: nat)
    requires i <= FirstUnreadable(listing) && i < |listing|
    requires !MissingPrimary(listing[i])
    ensures i + 1 <= FirstUnreadable(listing)
  {
    FirstUnreadableIsFirst(listing);
  }

  /** A data file without the primary field, reached by the loader, is where it stops. */
  lemma StopsAt<T>(listing: seq<Entry<T>>, i: nat)
    requires i <= FirstUnreadable(listing) && i < |listing|
    requires MissingPrimary(listing[i])
    ensures FirstUnreadable(listing) == i
  {
    FirstUnreadableIsFirst(listing);
  }

  /**
   * `load_data`: start from the field dictionary for the requested fields and
   * read the listing into it.
   */
  method LoadData<T>(listing: seq<Entry<T>>, loadElasticArms: bool) returns (r: Result<Loaded<T>, LoadError>)
    ensures r.Ok? <==> NoneMissingPrimary(listing)
    ensures r.Ok? ==> r.value == Expected(listing, loadElasticArms)
    ensures r.Err? ==> FirstUnreadable(listing) < |listing|
    ensures r.Err? ==> r.error == MissingPrimaryField(listing[FirstUnreadable(listing)].name)
  {
    var datasets := NewFieldSet(loadElasticArms);
    FieldNamesDistinct(loadElasticArms);
    r := ReadListing(listing, FieldNames(loadElasticArms), datasets);
    ReadableIff(listing);
  }

  /**
   * The loop of `load_data`: skip entries whose name does not end in ".h5";
   * for each data file append its chunk to every field of the dictionary it
   * holds, add its event count and count the file. A data file without the
   * primary field aborts the whole load.
   */
  method ReadListing<T>(listing: seq<Entry<T>>, fields: seq<Key>, datasets: map<Key, seq<seq<T>>>)
    returns (r: Result<Loaded<T>, LoadError>)
    requires datasets.Keys == set k | k in fields
    requires forall k | k in datasets :: datasets[k] == []
    requires forall a, b | 0 <= a < b < |fields| :: fields[a] != fields[b]
    ensures r.Ok? <==> FirstUnreadable(listing) == |listing|
    ensures r.Ok? ==> r.value == Loaded(ChunksByField(DataFiles(listing), fields),
                                        TotalLength(Chunks(DataFiles(listing), PrimaryField)),
                                        |DataFiles(listing)|)
    ensures r.Err? ==> r.error == MissingPrimaryField(listing[FirstUnreadable(listing)].name)
  {
    var current := datasets;
    var totalEvents := 0;
    var totalFiles := 0;
    ghost var files: seq<Entry<T>> := [];
    assert current == ChunksByField(files, fields);
    for i := 0 to |listing|
      invariant i <= FirstUnreadable(listing)
      invariant files == Processed(listing, i)
      invariant current == ChunksByField(files, fields)
      invariant totalEvents == TotalLength(Chunks(files, PrimaryField))
      invariant totalFiles == |files|
    {
      var entry := listing[i];
      if !IsDataFile(entry.name) {
        ReadablePast(listing, i);
        continue;
      }
      if PrimaryField !in entry.datasets {
        StopsAt(listing, i);
        return Err(MissingPrimaryField(entry.name));
      }
      var eventsInFile := |entry.datasets[PrimaryField]|;
      ReadablePast(listing, i);
      FileStep(files, entry, fields);
      current := AppendFile(current, fields, entry);
      totalEvents := totalEvents + eventsInFile;
      totalFiles := totalFiles + 1;
      files := files + [entry];
    }
    return Ok(Loaded(current, totalEvents, totalFiles));
  }

  /** The load succeeds exactly when no data file lacks the primary field. */
  lemma ReadableIff<T>(listing: seq<Entry<T>>)
    ensures FirstUnreadable(listing) == |listing| <==> NoneMissingPrimary(listing)
  {
    FirstUnreadableIsFirst(listing);
  }

  // Which entries are processed.

  /** The first `n` entries contribute exactly their data files. */
  lemma {:induction false} ProcessedMembership<T>(listing: seq<Entry<T>>, n: nat, e: Entry<T>)
    requires n <= |listing|
    ensures e in Processed(listing, n) <==> exists j | 0 <= j < n :: listing[j] == e && IsDataFile(e.name)
  {
    if n > 0 {
      ProcessedMembership(listing, n - 1, e);
      if listing[n - 1] == e && IsDataFile(e.name) {
        assert e in Processed(listing, n);
      }
    }
  }

  /** An entry is processed exactly when it is in the listing and its name ends in ".h5". */
  lemma DataFilesMembership<T>(listing: seq<Entry<T>>, e: Entry<T>)
    ensures e in DataFiles(listing) <==> e in listing && IsDataFile(e.name)
  {
    ProcessedMembership(listing, |listing|, e);
  }

  /** The positions among the first `n` entries whose name ends in ".h5". */
  function DataPositions<T>(listing: seq<Entry<T>>, n: nat): set<nat>
    requires n <= |listing|
  {
    set j: nat | j < n && IsDataFile(listing[j].name)
  }

  lemma {:induction false} ProcessedCount<T>(listing: seq<Entry<T>>, n: nat)
    requires n <= |listing|
    ensures |Processed(listing, n)| == |DataPositions(listing, n)|
  {
    if n > 0 {
      ProcessedCount(listing, n - 1);
      var before, after := DataPositions(listing, n - 1), DataPositions(listing, n);
      if IsDataFile(listing[n - 1].name) {
        assert n - 1 !in before;
        assert after == before + {n - 1};
      } else {
        assert after == before;
      }
    } else {
      assert DataPositions(listing, n) == {};
    }
  }

  /** `total_files` is the number of entries whose name ends in ".h5". */
  lemma FilesAreDataEntries<T>(listing: seq<Entry<T>>, loadElasticArms: bool)
    ensures Expected(listing, loadElasticArms).totalFiles == |DataPositions(listing, |listing|)|
  {
    ProcessedCount(listing, |listing|);
  }

  /** Processing depends only on the entries processed so far. */
  lemma {:induction false} ProcessedPrefix<T>(x: seq<Entry<T>>, y: seq<Entry<T>>, n: nat)
    requires n <= |x| && n <= |y| && x[..n] == y[..n]
    ensures Processed(x, n) == Processed(y, n)
  {
    if n > 0 {
      assert x[n - 1] == x[..n][n - 1] == y[..n][n - 1] == y[n - 1];
      assert x[..n - 1] == x[..n][..n - 1] == y[..n][..n - 1] == y[..n - 1];
      ProcessedPrefix(x, y, n - 1);
    }
  }

  lemma {:induction false} ProcessedConcat<T>(a: seq<Entry<T>>, b: seq<Entry<T>>, k: nat)
    requires k <= |b|
    ensures Processed(a + b, |a| + k) == DataFiles(a) + Processed(b, k)
  {
    if k == 0 {
      assert (a + b)[..|a|] == a[..|a|];
      ProcessedPrefix(a + b, a, |a|);
    } else {
      ProcessedConcat(a, b, k - 1);
      assert (a + b)[|a| + k - 1] == b[k - 1];
    }
  }

  /** The data files of two listings one after the other are those of the first, then those of the second. */
  lemma DataFilesConcat<T>(a: seq<Entry<T>>, b: seq<Entry<T>>)
    ensures DataFiles(a + b) == DataFiles(a) + DataFiles(b)
  {
    ProcessedConcat(a, b, |b|);
  }

  // What the processed files contribute.

  lemma {:induction false} ChunksConcat<T>(f: seq<Entry<T>>, g: seq<Entry<T>>, key: Key)
    ensures Chunks(f + g, key) == Chunks(f, key) + Chunks(g, key)
    decreases |g|
  {
    if g == [] {
      assert f + g == f;
    } else {
      var init := g[..|g| - 1];
      assert (f + g)[..|f + g| - 1] == f + init;
      ChunksConcat(f, init, key);
    }
  }

  lemma {:induction false} TotalLengthConcat<T>(c: seq<seq<T>>, d: seq<seq<T>>)
    ensures TotalLength(c + d) == TotalLength(c) + TotalLength(d)
    decreases |d|
  {
    if d == [] {
      assert c + d == c;
    } else {
      var init := d[..|d| - 1];
      assert (c + d)[..|c + d| - 1] == c + init;
      TotalLengthConcat(c, init);
    }
  }

  /** A field gets one chunk from every file, when every file holds it. */
  lemma {:induction false} ChunksOfCompleteFiles<T>(files: seq<Entry<T>>, key: Key)
    requires forall j | 0 <= j < |files| :: key in files[j].datasets
    ensures |Chunks(files, key)| == |files|
    decreases |files|
  {
    if files != [] {
      ChunksOfCompleteFiles(files[..|files| - 1], key);
    }
  }

  /**
   * Loading is append-only: loading one listing after another extends every
   * field's chunks of the first by those of the second, and adds the totals.
   */
  lemma AppendOnly<T>(a: seq<Entry<T>>, b: seq<Entry<T>>, loadElasticArms: bool)
    ensures Expected(a + b, loadElasticArms).datasets.Keys == Expected(a, loadElasticArms).datasets.Keys
    ensures forall k | k in Expected(a, loadElasticArms).datasets ::
      Expected(a + b, loadElasticArms).datasets[k]
        == Expected(a, loadElasticArms).datasets[k] + Expected(b, loadElasticArms).datasets[k]
    ensures Expected(a + b, loadElasticArms).totalEvents
         == Expected(a, loadElasticArms).totalEvents + Expected(b, loadElasticArms).totalEvents
    ensures Expected(a + b, loadElasticArms).totalFiles
         == Expected(a, loadElasticArms).totalFiles + Expected(b, loadElasticArms).totalFiles
  {
    DataFilesConcat(a, b);
    var fa, fb := DataFiles(a), DataFiles(b);
    forall k | k in FieldNames(loadElasticArms)
      ensures Chunks(fa + fb, k) == Chunks(fa, k) + Chunks(fb, k)
    {
      ChunksConcat(fa, fb, k);
    }
    ChunksConcat(fa, fb, PrimaryField);
    TotalLengthConcat(Chunks(fa, PrimaryField), Chunks(fb, PrimaryField));
  }

  /** An entry whose name does not end in ".h5" changes neither the dictionary nor the counters, nor whether the load succeeds. */
  lemma NonDataEntryIgnored<T>(a: seq<Entry<T>>, e: Entry<T>, b: seq<Entry<T>>, loadElasticArms: bool)
    requires !IsDataFile(e.name)
    ensures Expected(a + [e] + b, loadElasticArms) == Expected(a + b, loadElasticArms)
    ensures NoneMissingPrimary(a + [e] + b) <==> NoneMissingPrimary(a + b)
  {
    DataFilesConcat(a, [e]);
    DataFilesConcat(a + [e], b);
    DataFilesConcat(a, b);
    assert DataFiles([e]) == [];
    assert DataFiles(a + [e] + b) == DataFiles(a + b);
    if NoneMissingPrimary(a + b) {
      forall j | 0 <= j < |a + [e] + b| ensures !MissingPrimary((a + [e] + b)[j]) {
        if j > |a| {
          assert (a + [e] + b)[j] == (a + b)[j - 1];
        } else if j < |a| {
          assert (a + [e] + b)[j] == (a + b)[j];
        }
      }
    }
    if NoneMissingPrimary(a + [e] + b) {
      forall j | 0 <= j < |a + b| ensures !MissingPrimary((a + b)[j]) {
        if j >= |a| {
          assert (a + b)[j] == (a + [e] + b)[j + 1];
        } else {
          assert (a + b)[j] == (a + [e] + b)[j];
        }
      }
    }
  }

  /** A listing without data files loads every requested field with no chunk, and no event or file. */
  lemma NoDataFilesLoadsNothing<T>(listing: seq<Entry<T>>, loadElasticArms: bool)
    requires forall j | 0 <= j < |listing| :: !IsDataFile(listing[j].name)
    ensures NoneMissingPrimary(listing)
    ensures Expected(listing, loadElasticArms) == Loaded(map k | k in FieldNames(loadElasticArms) :: [], 0, 0)
  {
    if DataFiles(listing) != [] {
      DataFilesMembership(listing, DataFiles(listing)[0]);
    }
  }

  /** The dictionary holds exactly the requested fields: the core ones always, the elastic-arms ones exactly when requested. */
  lemma KeysExact<T>(listing: seq<Entry<T>>, loadElasticArms: bool)
    ensures Expected(listing, loadElasticArms).datasets.Keys == set k | k in FieldNames(loadElasticArms)
    ensures forall k | k in CoreFields :: k in Expected(listing, loadElasticArms).datasets
    ensures forall k | k in ElasticArmsFields :: k in Expected(listing, loadElasticArms).datasets <==> loadElasticArms
  {
    assert forall k | k in ElasticArmsFields :: k !in CoreFields;
  }

  /**
   * Every data file is read in full: when none lacks the primary field, that
   * field holds one chunk per file, and `total_events` is the number of
   * events in those chunks.
   */
  lemma OneEventChunkPerFile<T>(listing: seq<Entry<T>>, loadElasticArms: bool)
    requires NoneMissingPrimary(listing)
    ensures |Expected(listing, loadElasticArms).datasets[PrimaryField]| == Expected(listing, loadElasticArms).totalFiles
    ensures Expected(listing, loadElasticArms).totalEvents
         == TotalLength(Expected(listing, loadElasticArms).datasets[PrimaryField])
  {
    var files := DataFiles(listing);
    forall j | 0 <= j < |files| ensures PrimaryField in files[j].datasets {
      DataFilesMembership(listing, files[j]);
      var i :| 0 <= i < |listing| && listing[i] == files[j];
    }
    ChunksOfCompleteFiles(files, PrimaryField);
  }
}
