/**
 * The request object that `processPDF` hands to the external PDF engine,
 * and the form state it is built from.
 */
module Dispatch {
  import opened Wrappers

  /** An object URL: created fresh by the browser, released by revoking it. */
  type Url = string

  /** The three tabs; the active one is also the operation submitted. */
  datatype Operation = Compress | Merge | Split {
    /** The tab's name as the application spells it, which is the request's `operation` string. */
    function Name(): string {
      match this
      case Compress => "compress"
      case Merge => "merge"
      case Split => "split"
    }
  }

  /** The page range exactly as typed into the two page fields. */
  datatype SplitRange = SplitRange(startPage: string, endPage: string)

  const EmptyRange := SplitRange("", "")

  datatype AdvancedSettings = AdvancedSettings(compatibilityLevel: string, downsample: bool, resolution: int)

  const DefaultAdvanced := AdvancedSettings("1.4", true, 300)

  /** Everything the settings panel lets the user choose. */
  datatype Options = Options(
    pdfSetting: string,
    customCommand: string,
    useCustomCommand: bool,
    splitRange: SplitRange,
    advancedSettings: AdvancedSettings,
    useAdvancedSettings: bool,
    showTerminalOutput: bool,
    showProgressBar: bool)

  const InitialOptions := Options("/ebook", "", false, EmptyRange, DefaultAdvanced, false, false, false)

  /** A staged file: the name shown for it and the object URL created for it. */
  datatype Staged = Staged(filename: string, url: Url)

  /** The operation-specific part of a request. */
  datatype Input =
    | MergeInputs(files: seq<Url>)
    | SplitInput(psDataURL: Url, splitRange: SplitRange)
    | CompressInput(psDataURL: Url)

  datatype Request = Request(
    operation: Operation,
    pdfSetting: Option<string>,
    customCommand: Option<string>,
    advancedSettings: Option<AdvancedSettings>,
    showTerminalOutput: bool,
    showProgressBar: bool,
    input: Input)

  function FileUrls(files: seq<Staged>): set<Url> {
    set f | f in files :: f.url
  }

  /** `files.map(file => file.url)`: the roster's URLs in roster order. */
  function Urls(files: seq<Staged>): (r: seq<Url>)
    ensures |r| == |files|
    ensures forall i :: 0 <= i < |files| ==> r[i] == files[i].url
  {
    if files == [] then [] else [files[0].url] + Urls(files[1..])
  }

  /** Every URL a request refers to. */
  function InputUrls(input: Input): seq<Url> {
    match input
    case MergeInputs(urls) => urls
    case SplitInput(url, _) => [url]
    case CompressInput(url) => [url]
  }

  /**
   * The request built for operation `op`. A merge carries every staged URL
   * in roster order; a split or a compression carries the first file's URL
   * only, and a split also the typed range. The preset and the custom
   * command exclude each other, and the custom-command switch decides which
   * one is sent.
   */
  function BuildRequest(op: Operation, o: Options, files: seq<Staged>): (r: Request)
    requires op != Merge ==> files != []
    ensures r.operation == op && r.input.MergeInputs? == (op == Merge) && r.input.SplitInput? == (op == Split)
    ensures r.pdfSetting.None? <==> o.useCustomCommand
    ensures r.customCommand.Some? <==> o.useCustomCommand
    ensures r.pdfSetting.Some? ==> r.pdfSetting.value == o.pdfSetting
    ensures r.customCommand.Some? ==> r.customCommand.value == o.customCommand
    ensures r.advancedSettings.Some? <==> o.useAdvancedSettings
    ensures r.advancedSettings.Some? ==> r.advancedSettings.value == o.advancedSettings
    ensures r.showTerminalOutput == o.showTerminalOutput && r.showProgressBar == o.showProgressBar
    ensures op == Merge ==> |InputUrls(r.input)| == |files| && forall i :: 0 <= i < |files| ==> InputUrls(r.input)[i] == files[i].url
    ensures op != Merge ==> InputUrls(r.input) == [files[0].url]
    ensures op == Split ==> r.input.splitRange == o.splitRange
    ensures forall u :: u in InputUrls(r.input) ==> u in FileUrls(files)
  {
    var input :=
      match op
      case Merge => MergeInputs(Urls(files))
      case Split => SplitInput(files[0].url, o.splitRange)
      case Compress => CompressInput(files[0].url);
    Request(
      op,
      if o.useCustomCommand then None else Some(o.pdfSetting),
      if o.useCustomCommand then Some(o.customCommand) else None,
      if o.useAdvancedSettings then Some(o.advancedSettings) else None,
      o.showTerminalOutput,
      o.showProgressBar,
      input)
  }
}
