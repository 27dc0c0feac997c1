# PDF tools front end: a Dafny model

The application is a browser page with three tabs: compress, merge and split.
The user stages PDF files on the active tab and chooses settings. On submit,
the page checks the form, builds a request for a Ghostscript engine running
in the browser, and follows the engine's printed lines on an optional terminal
pane and progress bar. A successful run becomes a download link. Every staged
file and every produced document is reached through a browser object URL,
which the page creates and later revokes.

This project models the page's logic:

- `text.dfy` (module `Text`): the JavaScript string operations the page
  relies on:
  - `indexOf` and the first-occurrence `replace` of a string pattern;
  - `trim`, over the ECMAScript white-space and line-terminator set;
  - `includes`;
  - `parseInt`: leading white space, a sign, a `0x` prefix, and the longest
    digit run, or no number at all;
  - the decimal rendering of a number.
- `dispatch.dfy` (module `Dispatch`): the form's settings, the staged
  files, and the request `processPDF` builds for each operation.
- `naming.dfy` (module `Naming`):
  - `getOutputFilename`, the download name for each operation;
  - the `primaryFilename` fallback of `onSubmit`.
- `progress.dfy` (module `Progress`): `parseProgressFromOutput`, the two
  regular expressions that read page counts from the engine's lines, and
  their effect on the counters.
- `validation.dfy` (module `Validation`): the checks `onSubmit` makes, in
  order, each with its exact alert text.
- `app.dfy` (module `Ui`): the component as a class. It has these parts:
  - the active tab;
  - the UI state (`init`, `selected`, `loading`, `toBeDownloaded`, `error`);
  - the roster of staged files and the download links;
  - the options, the error message, the terminal text and the counters;
  - `live`, the set of object URLs created and not yet revoked.

  Its handlers are `changeHandler`, `removeFile`, `clearAllFiles`,
  `resetForm`, `processAgain`, a tab click, `onSubmit`, the engine's line
  callback, and the end of `processPDF`. They keep one invariant (`Valid`):
  - exactly the URLs held by the roster and the links are live, each held
    once;
  - at most one link exists, and only the result screen shows one;
  - the initial screen has an empty roster.

  No handler leaks a URL or revokes one that is still shown.

`BaseName` follows `originalName.replace('.pdf', '')`. It removes the FIRST
".pdf" anywhere in the name, not necessarily the one at the end, and is
case-sensitive: "a.pdf.b.pdf" gives "a.b.pdf", and "REPORT.PDF" is kept whole
(`Naming.BaseNameRemovesFirst`, `Naming.BaseNameKeepsOtherNames`).

## Model

| member | source | states |
|---|---|---|
| Text.IndexOf | src/App.jsx:156 | finds a pattern exactly when the string contains it, at an occurrence with no earlier one |
| Text.RemoveFirst | src/App.jsx:156 | the `replace` with a string pattern; characterised by `Text.IndexOf` and `Text.RemoveFirstAt` (first occurrence removed, the rest kept) and `Text.RemoveFirstAbsent` (no occurrence, no change) |
| Text.RemoveFirstAbsent | src/App.jsx:156 | without an occurrence the text is unchanged |
| Text.RemoveFirstAt | src/App.jsx:156 | removing the first occurrence of a pattern leaves exactly the text before and after it |
| Text.Trim | src/App.jsx:242 | trimming yields "" exactly when the text is all white space; otherwise it neither starts nor ends with white space |
| Text.TrimKeepsToken | src/App.jsx:248-249 | a token without white space occurs in the trimmed text iff it occurs in the original |
| Text.DigitRun | src/App.jsx:67 | the run of digits `\d+` takes: all digits, and stops only at a non-digit or the end |
| Text.NatToString | src/App.jsx:161 | the decimal rendering of a timestamp: non-empty, digits only, no leading zero, and its value is the number |
| Text.ParseInt | src/App.jsx:69 | `parseInt` with the radix omitted; characterised by `Text.ParseIntOfDigits`, `Text.ParseIntReadsNumber` and `Text.ParseIntRoundTrip` |
| Text.ParseIntOfDigits | src/App.jsx:234-236 | `parseInt` of text starting with a decimal digit (and no `0x` prefix) is the value of its leading digit run |
| Text.ParseIntReadsNumber | src/App.jsx:234-235 | `parseInt` of a decimal numeral followed by a non-digit (not x/X) reads exactly that number |
| Text.ParseIntRoundTrip | src/App.jsx:69 | `parseInt` inverts the decimal rendering of every natural number |
| Dispatch.Urls | src/App.jsx:101 | the merge input lists every staged URL in roster order |
| Dispatch.BuildRequest | src/App.jsx:91-108 | the request: preset XOR custom command by the switch, advanced settings only when enabled, the display flags, all URLs for merge, the first URL (and the range) for split and compress, no URL outside the roster |
| Naming.OutputFilename | src/App.jsx:155-167 | every download name ends in ".pdf" |
| Naming.BaseName | src/App.jsx:156 | `originalName.replace('.pdf', '')`; characterised by `Naming.BaseNameRemovesFirst`, `Naming.BaseNameStripsExtension` and `Naming.BaseNameKeepsOtherNames` |
| Naming.BaseNameRemovesFirst | src/App.jsx:156 | only the first ".pdf" is removed, with everything before and after it kept |
| Naming.BaseNameStripsExtension | src/App.jsx:156 | a name whose only ".pdf" ends it loses exactly that extension |
| Naming.BaseNameKeepsOtherNames | src/App.jsx:156 | a name without ".pdf" (e.g. upper-case ".PDF") is kept whole |
| Naming.OutputFilenameByOperation | src/App.jsx:157-166 | compress appends "-compressed", split "-split-start-end", an unknown operation "-processed"; merge ignores the name and uses the time |
| Naming.NoDotNoExtension | src/App.jsx:156 | a name without '.' contains no ".pdf" |
| Naming.ReportBaseName | src/App.jsx:156 | "report.pdf" has the base name "report" |
| Naming.ReportCompressed | src/App.jsx:158-159 | "report.pdf" compresses to "report-compressed.pdf" |
| Naming.ReportSplit | src/App.jsx:162-163 | "report.pdf" split over 2 to 9 is named "report-split-2-9.pdf" |
| Naming.PrimaryFilename | src/App.jsx:255 | the first file's name, or "output.pdf" when the roster is empty or that name is empty |
| Progress.TotalPages | src/App.jsx:67-69 | the end page the unanchored pattern captures; characterised by `Progress.LeftmostMatchWins`, `Progress.PhraseMatches` and `Progress.TotalNeedsPhrase` |
| Progress.PageNumber | src/App.jsx:74-76 | the page the anchored pattern captures; characterised by `Progress.PageNumberReads` and the two anchoring lemmas |
| Progress.Step | src/App.jsx:65-83 | one call of the reducer; characterised by `Progress.TotalSetsTotal`, `Progress.PageLineSetsCurrent` and `Progress.OtherLinesIgnored`; every line either matches the total pattern, matches the page pattern (never both, by `Progress.PageLineHasNoTotal`), or matches neither |
| Progress.Feed | src/App.jsx:113-121 | the reducer over the engine's lines in order; characterised by `Progress.FeedAppend` |
| Progress.FeedAppend | src/App.jsx:113-121 | one more line continues from the counters the earlier lines left, by one `Step` |
| Progress.FirstTotalFrom | src/App.jsx:67 | the leftmost position where the "Processing pages" pattern matches, or none anywhere |
| Progress.TotalNeedsPhrase | src/App.jsx:67-71 | a line without "Processing pages " never sets the total |
| Progress.PageLineHasNoTotal | src/App.jsx:67-74 | a line matching `^Page (\d+)$` never matches the total pattern |
| Progress.PageNumberReads | src/App.jsx:74-76 | "Page n" reads page n |
| Progress.PageLineSetsCurrent | src/App.jsx:73-82 | a "Page n" line sets current and currentPage to n and changes nothing else |
| Progress.PagePatternAnchoredAtStart | src/App.jsx:74 | text before "Page n" defeats the page pattern |
| Progress.PagePatternAnchoredAtEnd | src/App.jsx:74 | a non-digit after "Page n" defeats the page pattern |
| Progress.CapturedReads | src/App.jsx:67-69 | the capture group reads the whole decimal number |
| Progress.PhraseMatches | src/App.jsx:67 | "Processing pages x through m" at a position matches there with capture m |
| Progress.LeftmostMatchWins | src/App.jsx:67-69 | the leftmost match decides the total |
| Progress.NoMatchInside | src/App.jsx:67 | no match starts inside a prefix without a 'P' |
| Progress.PhraseLineIsNoPageLine | src/App.jsx:74 | every line holding "Processing pages " anywhere is no "Page n" line |
| Progress.TotalSetsTotal | src/App.jsx:65-83 | every line the total pattern matches sets total to the capture and changes nothing else |
| Progress.TotalLineSetsTotal | src/App.jsx:65-71 | a line "…Processing pages x through m…" in which no match starts earlier sets total to m and changes nothing else |
| Progress.PlainPrefixTotalLine | src/App.jsx:65-71 | in particular when no 'P' precedes the phrase |
| Progress.OtherLinesIgnored | src/App.jsx:65-83 | every line matching neither pattern (including one that holds "Processing pages " without a full match) leaves the counters unchanged |
| Progress.PhraselessLineIgnored | src/App.jsx:65-83 | in particular a line without "Processing pages " that is no "Page n" line |
| Progress.FeedExample | src/App.jsx:113-121 | the lines "Processing pages 1 through 42" then "Page 7" give counters (7, 42, 7) |
| Validation.Validate | src/App.jsx:220-253 | `onSubmit`'s checks in order; characterised by `Validation.AcceptedIff` and the refusal lemmas below |
| Validation.AcceptedIff | src/App.jsx:218-258 | a submission is dispatched iff the roster is non-empty, a merge has at least 2 files, a split's range reads as 1 <= start <= end, and a custom command contains "-sDEVICE=" and "-sOutputFile=" |
| Validation.CommandCompleteIff | src/App.jsx:247-253 | the command check on the trimmed text is a containment test on the raw text |
| Validation.CompleteCommandNotBlank | src/App.jsx:242-249 | a command passing the token check is never blank |
| Validation.InOrderIsPresent | src/App.jsx:228-239 | a range that reads as numbers has both fields filled |
| Validation.EmptyRosterDoesNothing | src/App.jsx:220 | an empty roster stops the submission silently |
| Validation.MergeOfOneRefused | src/App.jsx:223-226 | a merge of one file is refused before any other check |
| Validation.DescendingRangeRefused | src/App.jsx:228-239 | a decimal range whose end is below its start is refused as invalid (not as missing) |
| Validation.StartPageZeroRefused | src/App.jsx:228-239 | a start page "0" passes the presence check and fails the range check |
| Validation.DecimalRangeAccepted | src/App.jsx:233-239 | every range 1 <= a <= b typed in decimal passes |
| Validation.CommandWithoutOutputFileRefused | src/App.jsx:220-252 | for every tab and roster that passes the earlier checks (one file included), a command naming a device but no output file is refused with the parameters message |
| Ui.Appended | src/App.jsx:180 | appending a disjoint selection keeps URLs distinct and adds exactly its URLs |
| Ui.RemovedEntry | src/App.jsx:193-195 | dropping one entry keeps URLs distinct and loses exactly that entry's URL |
| Ui.App.constructor | src/App.jsx:32-55 | the initial state: compress tab, init, empty lists, default options, nothing live |
| Ui.App.RevokeFiles | src/App.jsx:183-185 | revokes exactly the roster's URLs |
| Ui.App.RevokeLinks | src/App.jsx:265-267 | revokes exactly the links' URLs |
| Ui.App.SelectFiles | src/App.jsx:169-189 | merge appends the selection; other tabs revoke all staged URLs and keep the single pick; state becomes selected; invariant kept |
| Ui.App.RemoveFile | src/App.jsx:191-203 | entry i leaves the roster, the others keep their order, only its URL is revoked; removing the last one returns to init |
| Ui.App.ClearAllFiles | src/App.jsx:205-212 | every staged URL is revoked, the roster emptied, state init |
| Ui.App.ResetForm | src/App.jsx:260-284 | every URL revoked, both lists emptied, range, advanced settings, message, terminal and counters reset; other options kept |
| Ui.App.ProcessAgain | src/App.jsx:286-296 | roster kept, link URLs revoked and dropped, state selected, message, terminal and counters cleared |
| Ui.App.SwitchTab | src/App.jsx:630-664 | another tab resets the form; the active tab changes nothing |
| Ui.App.SetOptions | src/App.jsx:384-575 | a settings control replaces the options; invariant kept |
| Ui.App.Submit | src/App.jsx:218-258 | the verdict is `Validate`'s; only an accepted submission enters loading with cleared terminal and counters and emits the request built from the current state |
| Ui.App.OnOutputLine | src/App.jsx:113-122 | a line is echoed to the terminal and/or fed to the progress reducer as the run asked; invariant kept |
| Ui.App.Finish | src/App.jsx:125-152 | an engine error or exception shows the error screen with its message (or the fallback); a produced file becomes the single download link named by `getOutputFilename`; terminal and counters cleared |

## Left out

- `loadPDFData`: the XMLHttpRequest, the Blob and the byte size are left out. Its revoke of the engine's own URL is left out too. A run's result is an `Outcome` parameter carrying the new URL.
- `_GSPS2PDF` (the engine worker) is external: its printed lines and its result are parameters.
- Asynchrony and React's batched state updates are left out. Each handler is one atomic step on the current state.
- Rendering is left out: the terminal auto-scroll, `alert` (modelled as the `Rejected` verdict and its message), `addMoreFiles` (a click on the hidden input), the percentage shown on the progress bar (floating point), and the i18n module.
- `Date.now()` is the parameter `now` of `Naming.OutputFilename`.
- The `file` handle kept with each staged file is not modelled; only its name and URL are.
- Text.ParseInt: JavaScript numbers are doubles. Precision loss and `Infinity` for very long digit runs are not modelled; the model uses unbounded integers.
- Ui.App.SelectFiles: outside the merge tab it requires at most one picked file, because the input is `multiple` only on the merge tab. The URLs created for extra picks, which the code would leak, are not modelled.
- Ui.App.Finish: a produced file requires the link list to be empty. A tab switch during a run can let two runs overlap, and the later one overwrites a link without revoking it. That leak is not modelled.
- Ui.App.Finish: an engine error requires a non-empty message. An empty `error` string is falsy, and the code then treats the result as a success; that path is not modelled.
- Ui.App.SetOptions: the settings controls' individual fields are one replacement of `Options`. The advanced settings' nested colour-image object is flattened.
