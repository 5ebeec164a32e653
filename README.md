# Vercel deployment runner and project classifier, in Dafny

This project models the core of a VS Code extension that deploys a workspace
to Vercel. It has two parts.

- **Deployment runner** (`src/deploy.ts`). It first runs `vercel --version`
  to see whether the CLI is installed; if not, it shows an install prompt and,
  once the prompt is answered or dismissed, returns a failure.
  Otherwise it runs `vercel --prod --yes` and registers four handlers:
  - stdout `data`: appends the chunk to the `stdout` buffer and to the output
    channel, and remembers the first URL found in a chunk;
  - stderr `data`: appends the chunk to the `stderr` buffer and to the output
    channel;
  - `close`: on code 0, resolves with success and the URL (the match in the
    whole stdout buffer, else the remembered chunk URL, else
    `https://vercel.com`); on any other code, writes an exit line and resolves
    with a failure message that embeds the code;
  - `error`: writes an error line and resolves with a launch failure message.
- **Project classifier** (`src/detectProject.ts`). It returns `next.js` when
  `next.config.js` exists, else `vite` when `vite.config.ts` or
  `vite.config.js` exists, else `static`.

How the model is built:

- Each child process is an explicit sequence of `Event`s (stdout chunk,
  stderr chunk, `close` with a code or `null`, `error` with a message).
- `Deploy.Next` is one handler as a transition of the runner's state;
  `Deploy.Replay` is the state after a prefix of events.
- The class `Deploy.DeploymentRun` holds the handlers' closure variables as
  fields. Its methods update them in place, and each method is proved to
  produce `Next` of the old state.
- `Deploy.RunDeployment` feeds the events to the class in a loop.
  `Deploy.DeployToVercel` composes it with the CLI check.
- The regular expression `/https:\/\/[^\s]+/` is `UrlMatch.ExtractUrl`. It is
  proved equal to an independent leftmost-maximal definition, using
  ECMAScript's full `\s` set.
- `${code}` is `NumberText.IntToDecimal`. It is proved to lose nothing: it
  round-trips through a parser.

A proved consequence of the code is that the chunk-level fallback never
decides the success URL. A chunk URL is only remembered when the chunk
holds a match. That chunk is part of the stdout buffer, so the buffer holds a
match too (`Deploy.FallbackNeverUsed`). The success URL is therefore always
the whole-buffer match or the default. The remembered URL is still modelled
and its properties proved, because the code computes it.

## Model

| member | source | states |
|---|---|---|
| UrlMatch.IsWhitespace | src/deploy.ts:52 | `\s` is exactly the listed table of ECMAScript WhiteSpace and LineTerminator code points |
| UrlMatch.WhitespaceExamples | src/deploy.ts:52 | VT, FF and IDEOGRAPHIC SPACE are whitespace; NEL, MONGOLIAN VOWEL SEPARATOR and ZERO WIDTH SPACE are not |
| UrlMatch.RunEnd | src/deploy.ts:52 | the end of the run lies between its start and the end of the text, and a non-whitespace first character makes the run non-empty |
| UrlMatch.FindMatch | src/deploy.ts:52 | a position found starts `https://` followed by a non-whitespace character |
| UrlMatch.ExtractUrl | src/deploy.ts:52 | a match is longer than the `https://` scheme |
| UrlMatch.RunEndMeaning | src/deploy.ts:52 | `[^\s]+` runs to the first whitespace character or the end of the text |
| UrlMatch.FindMatchMeaning | src/deploy.ts:52 | the scan returns the first position that starts `https://` followed by a non-whitespace character, or none if no position does |
| UrlMatch.FirstMatchIsLeftmostMaximal | src/deploy.ts:52 | the first start, extended to the first whitespace, is the leftmost maximal match |
| UrlMatch.ExtractUrlMeaning | src/deploy.ts:52 | a result is the leftmost maximal match; there is no result exactly when no position starts `https://` followed by a non-whitespace character |
| UrlMatch.ExtractUrlShape | src/deploy.ts:52 | a match starts with `https://`, is longer than 8, has no whitespace, and occurs in the input |
| UrlMatch.MaximalRunUnique | src/deploy.ts:52 | a maximal non-whitespace run has only one end |
| UrlMatch.LeftmostStartUnique | src/deploy.ts:52 | there is only one leftmost match position |
| UrlMatch.MatchIsRun | src/deploy.ts:52 | after the scheme, a leftmost maximal match is a non-whitespace run of the text that ends at whitespace or the end |
| UrlMatch.SameStartSameMatch | src/deploy.ts:52 | two leftmost maximal matches at the same position are the same text |
| UrlMatch.LeftmostMaximalIsExtracted | src/deploy.ts:67 | any leftmost maximal match is exactly what the matcher returns |
| UrlMatch.ExtractUrlIdempotent | src/deploy.ts:67 | matching a match again returns the same URL |
| UrlMatch.MatchAtEmbedded | src/deploy.ts:52-67 | a match start in a chunk stays a match start once text surrounds the chunk |
| UrlMatch.ChunkMatchImpliesBufferMatch | src/deploy.ts:52-67 | if a chunk has a match, so does every buffer that contains the chunk |
| UrlMatch.BufferMatchSurvivesAppend | src/deploy.ts:47 | a buffer with a match keeps one when a chunk is appended |
| UrlMatch.ChunkMatchSurvivesPrefix | src/deploy.ts:47-52 | a chunk with a match gives a match to the buffer it is appended to |
| UrlMatch.UrlAfterLeadingText | src/deploy.ts:51-52 | a URL after text with no `h` and before whitespace is the match |
| UrlMatch.ProductionLineExample | src/deploy.ts:51-52 | `Production: https://foo.example/x` followed by a line break yields `https://foo.example/x` |
| UrlMatch.NoTokenExample | src/deploy.ts:52 | the output `Deployed.` followed by a line break has no match |
| NumberText.NatToDecimal | src/deploy.ts:80 | the rendering of a natural is non-empty decimal digits without a leading zero |
| NumberText.DecimalRoundTrip | src/deploy.ts:80 | reading the digits back gives the number |
| NumberText.IntToDecimal | src/deploy.ts:80 | `${n}` is non-empty and starts with `-` exactly when `n` is negative |
| NumberText.IntToDecimalRoundTrip | src/deploy.ts:80 | parsing `${n}` gives back `n` |
| NumberText.IntToDecimalInjective | src/deploy.ts:80 | different codes render differently |
| Deploy.CodeText | src/deploy.ts:76-80 | `${code}` is non-empty, and it starts with a digit or `-` exactly when the code is a number, so `null` is never confused with a number |
| Deploy.ExitFailureMessage | src/deploy.ts:80 | the message is the fixed prefix `Deployment failed with exit code `, then the code's text, then the fixed suffix `. Check the output above for details.` |
| Deploy.LaunchFailureMessage | src/deploy.ts:90 | the message is the fixed prefix followed by the error text |
| Deploy.ErrorResult | src/deploy.ts:88-91 | an `error` resolves with a failure with no URL, whose message ends with the error text |
| Deploy.ExitLine | src/deploy.ts:75-77 | the exit line is the fixed prefix `Process exited with code ` after a line feed, then the code's text, then a final line feed |
| Deploy.ErrorLine | src/deploy.ts:87 | the error line is the fixed prefix `Process error: ` after a line feed, then the error text, then a final line feed |
| Deploy.LogEntry | src/deploy.ts:48-87 | a data event writes its chunk; `close` with code 0 writes nothing, and it is the only settling event that writes nothing; the others write a line framed by line feeds |
| Deploy.Resolve | src/deploy.ts:70-90 | after `resolve` the promise is settled; an existing value is kept, and otherwise the new one is taken |
| Deploy.Next | src/deploy.ts:45-92 | a settled result is kept; the result is settled after the step exactly when it was before or the event settles; the output channel grows by at least what the buffers grow by |
| Deploy.Replay | src/deploy.ts:35-93 | after any events, the output channel holds at least as much text as the two buffers together |
| Deploy.ErrorText | src/deploy.ts:86 | the error text is the message, or `Unknown error` when the message is missing or empty, so it is never empty |
| Deploy.SuccessUrl | src/deploy.ts:67-72 | the URL is the buffer match if there is one; otherwise the remembered URL if truthy; otherwise `https://vercel.com`; it is never empty |
| Deploy.CloseResult | src/deploy.ts:64-82 | success exactly when the code is 0; success carries a non-empty URL and no error; failure carries no URL and the message with the code |
| Deploy.NextStdout | src/deploy.ts:45-47 | only a stdout chunk changes the stdout buffer, and it appends itself |
| Deploy.NextStderr | src/deploy.ts:58-60 | only a stderr chunk changes the stderr buffer, and it appends itself |
| Deploy.NextRemembered | src/deploy.ts:52-55 | `deploymentUrl` changes only to a chunk's match, and only when none is remembered |
| Deploy.NextLog | src/deploy.ts:45-92 | every handler appends its own entry to the output channel: the chunk, the exit line, the error line, or nothing for code 0 |
| Deploy.NextKeepsConsistent | src/deploy.ts:45-62 | every handler keeps the invariant that a remembered URL is non-empty and the stdout buffer has a match |
| Deploy.ReplayConsistent | src/deploy.ts:35-93 | the invariant holds after any sequence of events |
| Deploy.ReplayBuffers | src/deploy.ts:41-92 | the buffers are the concatenations of their chunks; the output channel is the concatenation of the handlers' entries, in arrival order |
| Deploy.LogEntriesAppend | src/deploy.ts:48-87 | output-channel text is append-only: later events only add text after what is there |
| Deploy.LogEntriesDataOnly | src/deploy.ts:45-61 | with only data events, the handlers' entries are the chunks |
| Deploy.LogHoldsChunk | src/deploy.ts:45-61 | every chunk appears in the output channel between the text of the events before it and after it |
| Deploy.LogOfDataOnly | src/deploy.ts:45-61 | before any `close` or `error`, the output channel holds exactly the chunks, in order |
| Deploy.RememberedIsFirstChunkMatch | src/deploy.ts:52-55 | `deploymentUrl` is the match of the first stdout chunk that has one; it is unset exactly when no chunk has one |
| Deploy.RememberedStable | src/deploy.ts:53-54 | once set, `deploymentUrl` is never overwritten |
| Deploy.RememberedImpliesBufferMatch | src/deploy.ts:52-68 | if a chunk URL was remembered, the whole stdout buffer has a match |
| Deploy.FallbackNeverUsed | src/deploy.ts:67-72 | the success URL is always the buffer match or the default, never the remembered chunk URL on its own |
| Deploy.ConsistentSuccessUrl | src/deploy.ts:67-72 | in any state that keeps the invariant, the success URL is the buffer match or the default |
| Deploy.ResultSettledOnce | src/deploy.ts:70-90 | once resolved, the result never changes, whatever events follow |
| Deploy.ResultIsFirstSettlement | src/deploy.ts:64-92 | the result is pending exactly when no `close` or `error` arrived; otherwise it is what the first of them resolved with |
| Deploy.SuccessfulResult | src/deploy.ts:64-73 | a success comes from a first `close` with code 0; it has no error and an `https://` URL: the match in the stdout received before it, or the default |
| Deploy.SuccessfulSettlement | src/deploy.ts:64-73 | a handler that resolves with success is `close` with code 0, with no error and the buffer match or the default as URL |
| Deploy.SuccessUrlShape | src/deploy.ts:67-72 | the buffer match and the default URL both start with `https://` and are longer than it |
| Deploy.FailedResult | src/deploy.ts:74-91 | a failure comes from a first `close` with another code, whose message embeds the code, or from an `error`, whose message embeds the error text |
| Deploy.ExitSevenExample | src/deploy.ts:80 | exit code 7 gives `Deployment failed with exit code 7. Check the output above for details.` |
| Deploy.ExitFailureMessageInjective | src/deploy.ts:80 | different exit codes, `null` included, give different failure messages |
| Deploy.CliInstalled | src/deploy.ts:96-109 | "installed" needs a `close` with code 0 among the events; "not installed" needs an `error` or another `close` among them |
| Deploy.CliInstalledIsFirstSettlement | src/deploy.ts:96-109 | the check is pending exactly when no `close` or `error` arrived; otherwise its first one decides: installed exactly when it is `close` with code 0 |
| Deploy.DeploymentRun.constructor | src/deploy.ts:41-43 | empty buffers, no remembered URL, nothing written, nothing resolved |
| Deploy.DeploymentRun.OnStdout | src/deploy.ts:45-56 | the new state is `Next` of the old for this stdout chunk, and the invariant is kept |
| Deploy.DeploymentRun.OnStderr | src/deploy.ts:58-62 | the new state is `Next` of the old for this stderr chunk |
| Deploy.DeploymentRun.OnClose | src/deploy.ts:64-83 | the new state is `Next` of the old for this `close`; a result already resolved is kept; a success it resolves carries the buffer match or the default URL, because the invariant holds |
| Deploy.DeploymentRun.OnError | src/deploy.ts:85-92 | the new state is `Next` of the old for this `error`; a result already resolved is kept |
| Deploy.DeploymentRun.Handle | src/deploy.ts:45-92 | dispatching an event to its handler yields `Next` of the old state |
| Deploy.RunDeployment | src/deploy.ts:35-93 | after the deployment's events, the result and the output-channel text are those of `Replay` |
| Deploy.DeployToVercel | src/deploy.ts:14-32 | a pending check leaves everything pending; a failed check returns `Vercel CLI not installed` with no deployment output; a passed check returns the deployment's result and output |
| DetectProject.Name | src/detectProject.ts:4 | every project type is `next.js`, `vite` or `static` |
| DetectProject.NameInjective | src/detectProject.ts:4 | the three names are distinct |
| DetectProject.DetectProjectType | src/detectProject.ts:6-22 | `next.js` exactly when `next.config.js` is present; `vite` exactly when it is absent and a Vite config is present; `static` exactly when none of the three is present |
| DetectProject.FirstPresent | src/detectProject.ts:7-21 | a non-default type comes from a check whose file is present; absent files give `static` |
| DetectProject.DetectIsFirstPresent | src/detectProject.ts:6-22 | the classifier is the ordered check table read first-present-wins |
| DetectProject.NextConfigWins | src/detectProject.ts:8-11 | with `next.config.js` present, the result is `next.js` whatever else exists |
| DetectProject.ViteConfigsInterchangeable | src/detectProject.ts:14-18 | without `next.config.js`, either Vite config gives `vite` |
| DetectProject.StaticIffNoMarker | src/detectProject.ts:8-21 | `static` exactly when the workspace holds none of the marker names |
| DetectProject.DependsOnlyOnMarkers | src/detectProject.ts:8-21 | workspaces that agree on the marker names are classified alike |
| DetectProject.OtherFilesIrrelevant | src/detectProject.ts:8-21 | adding or removing a non-marker file changes nothing |
| DetectProject.EmptyWorkspaceIsStatic | src/detectProject.ts:21 | an empty workspace is `static` |

## Left out

- Spawning processes, the `shell: process.platform === 'win32'` flag and the working directory (src/deploy.ts:36-39, src/deploy.ts:98-100). These are operating-system calls. Each process is instead the `Event` sequence it produces, given as a parameter.
- The install prompt: `showErrorMessage`, and `openExternal` to the CLI docs (src/deploy.ts:17-26). This is user interface; only the returned failure result is modelled. In the source the `return` at src/deploy.ts:28-31 waits until the prompt is answered or dismissed, and an unanswered prompt leaves `deployToVercel` pending. `DeployToVercel` returns as if the prompt had already settled.
- Promises and the Node event loop. Events are handled one at a time, in the order given. A promise that never resolves is modelled as `None`.
- `data.toString()`. Chunks are already-decoded strings; byte decoding and multi-byte characters split across chunks are not modelled.
- The output channel. It is modelled only as the text this run writes, not as a shared VS Code object.
- The number type of `close` codes. A code is an unbounded integer or `null`, rendered as decimal digits; floating-point codes are not modelled.
- `\s`. It uses the Unicode `Zs` space separators as of current Unicode versions; older Unicode tables in a JavaScript engine are not modelled.
- `path.join` and `fs.existsSync` (src/detectProject.ts:8-16). The workspace is the set of names that `fs.existsSync` reports as present directly under its root, and existence is membership in that set. The model does not capture how the file system resolves names: on a case-insensitive file system a file named `Next.Config.js` makes `next.config.js` exist, and a directory with a marker's name counts as present. The set must hold the names as `existsSync` sees them.
- src/extension.ts is not part of this model. It holds the command registration, progress notifications and clipboard handling that call these functions.
