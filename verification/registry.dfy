/**
 * The model catalogue: the two known GGUF models, the refresh that marks
 * each one downloaded or not from the files present in the documents
 * directory, and the device RAM reading in whole GiB.
 */
module Registry {

  /** The values `LlamaModel.status` takes: "downloaded" or "notDownloaded". */
  datatype ModelStatus = Downloaded | NotDownloaded

  /** A catalogue entry. Its `UUID` identity is not modelled. */
  datatype LlamaModel = LlamaModel(name: string, filename: string, url: string, status: ModelStatus)

  /** The built-in catalogue, in display order, both entries not downloaded. */
  const DefaultModels: seq<LlamaModel> :=
    [
    LlamaModel(
      "Model FP16",
      "danube-ko-1.8B-base-F16.gguf",
      "https://huggingface.co/Hongik-Project-2024/danube-ko-1.8B-base-F16.gguf/resolve/main/danube-ko-1.8B-base-F16.gguf?download=true",
      NotDownloaded),
    LlamaModel(
      "Model Q8 (Lite Version)",
      "danube-ko-1.8B-base-Q8_0.gguf",
      "https://huggingface.co/Hongik-Project-2024/danube-ko-1.8B-base-Q8_0.gguf/resolve/main/danube-ko-1.8B-base-Q8_0.gguf?download=true",
      NotDownloaded)
    ]

  /** The status a file-existence check in the documents directory gives. */
  function StatusFor(filename: string, present: set<string>): ModelStatus {
    if filename in present then Downloaded else NotDownloaded
  }

  /** `loadModelsFromDisk`: the catalogue, entry by entry, with each status
      recomputed from `present`, the set of file names found on disk. */
  function LoadModelsFromDisk(catalogue: seq<LlamaModel>, present: set<string>): (r: seq<LlamaModel>)
    ensures |r| == |catalogue|
    ensures forall i :: 0 <= i < |r| ==>
      && r[i].name == catalogue[i].name
      && r[i].filename == catalogue[i].filename
      && r[i].url == catalogue[i].url
      && (r[i].status == Downloaded <==> catalogue[i].filename in present)
    decreases |catalogue|
  {
    if |catalogue| == 0 then []
    else
      var m := catalogue[0];
      [m.(status := StatusFor(m.filename, present))] + LoadModelsFromDisk(catalogue[1..], present)
  }

  /** Refreshing an already refreshed list against the same files changes nothing. */
  lemma RefreshIdempotent(catalogue: seq<LlamaModel>, present: set<string>)
    ensures LoadModelsFromDisk(LoadModelsFromDisk(catalogue, present), present)
         == LoadModelsFromDisk(catalogue, present)
  {
  }

  /** The refresh reads only names, file names and URLs: the statuses the
      catalogue held before make no difference. */
  lemma RefreshIgnoresOldStatus(a: seq<LlamaModel>, b: seq<LlamaModel>, present: set<string>)
    requires |a| == |b|
    requires forall i :: 0 <= i < |a| ==> a[i].(status := NotDownloaded) == b[i].(status := NotDownloaded)
    ensures LoadModelsFromDisk(a, present) == LoadModelsFromDisk(b, present)
  {
  }

  /** More files on disk never turn a downloaded entry back to not downloaded. */
  lemma RefreshMonotone(catalogue: seq<LlamaModel>, present: set<string>, more: set<string>)
    requires present <= more
    ensures forall i :: 0 <= i < |catalogue| && LoadModelsFromDisk(catalogue, present)[i].status == Downloaded
              ==> LoadModelsFromDisk(catalogue, more)[i].status == Downloaded
  {
  }

  /** Bytes in one GiB. */
  const GiB: nat := 1024 * 1024 * 1024

  /** Values of Swift's `UInt64`. */
  type UInt64 = x: int | 0 <= x < 0x1_0000_0000_0000_0000

  /** `getDeviceRAMSize`: physical memory in whole GiB, rounded down. */
  function RamGiB(physicalMemory: UInt64): (r: UInt64)
    ensures r * GiB <= physicalMemory < (r + 1) * GiB
    ensures r < 0x4_0000_0000
  {
    physicalMemory / GiB
  }
}
