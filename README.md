# texcoco core, modelled in Dafny

texcoco is a workbench for Aztec/Noir smart contracts. Two parts of it are
modelled here:

- **templerunner**, a small HTTP service. Its `POST /compile` builds a scratch
  workspace and writes the contract and a fixed `Nargo.toml` into it. It runs
  the compile stage and then the codegen stage, collects every file in
  `src/artifacts` and `target`, and answers with a JSON envelope. It removes
  the workspace in a `finally` block. `GET /status` answers `OK`.
- **frontdoor**, the web front end:
  - the canonical-host middleware and its path matcher;
  - the compile card: the colour grouping of the compiler's standard error,
    the "Compilation Failed" alert, and the deploy handler that picks the
    first `.json` artifact;
  - the wallet settings page: delete, clear all, generate;
  - the interaction panel, which renders a generated UI configuration
    (personas, screens, components), tracks the chosen wallet and persona,
    and guards contract calls;
  - the chat API route: role mapping, the system prompt, the text-delta
    stream;
  - the chat card: the submit handler that streams the reply into the last
    message, and the seed-prompt effect.

Files, one module each:

| file | module |
|---|---|
| `wrappers.dfy` | `Wrappers`: `Option` and `Result` |
| `text.dfy` | `Text`: the JavaScript string operations the code uses (`startsWith`, `endsWith`, `includes`, `split`, `trim` with ECMAScript white space, `join`, first-occurrence `replace`) |
| `templerunner.dfy` | `TempleRunner`: `templerunner/server.ts` |
| `compilecard.dfy` | `CompileCard`: `frontdoor/app/workbench/compile-card.tsx` |
| `middleware.dfy` | `Middleware`: `frontdoor/middleware.ts` |
| `settings.dfy` | `WalletSettings`: `frontdoor/app/settings/page.tsx` |
| `interact.dfy` | `Interact`: `frontdoor/app/workbench/interact.tsx` |
| `chatroute.dfy` | `ChatRoute`: `frontdoor/app/api/chat/route.ts` |
| `chatcard.dfy` | `ChatCard`: `frontdoor/app/components/AIChatCard.tsx` |

How the pieces are modelled:

- **The filesystem** is a value `Fs`: a map from paths to file contents and a
  set of directories. Paths are sequences of segments.
  - `ensureDir`, `writeFile`, `pathExists`, `readdir`, `readFile` and `rm`
    are functions on `Fs` that return the error Node would throw.
  - `CompileServer`, a class, owns the current `Fs`. Its methods are proved
    against the pure handler `Handle`.
  - The two output-directory loops are module-level methods (`ReadRoot`,
    `ReadEach`) with loop invariants, proved against `RootArtifacts`.
  - The order in which a listing returns its entries is left open (`ListDir`).
- **A stage** (`compile_then_postprocess.sh compile`, then `codegen`) is given
  as an outcome, `StageRun`: its exit code, stdout, stderr, and the files and
  directories it leaves in the workspace.
- **A React component** whose state changes step by step is a class:
  - its `useState`/atom values are fields;
  - each handler is a method that says what the new state is;
  - a ghost trace records every value a loading flag took.
  - The result of an awaited SDK call is a parameter: `Option<Wallet>` for
    `generateAccount`, `DeployOutcome` for deploying, `Reply` for the chat
    request.

What `server.ts` does, as modelled:

- A failing stage is answered with status 500.
- Artifacts are collected only after both stages succeed.
- The envelope carries the compile stage's stdout and stderr only.
- The error message is Node's `Command failed: <command>` followed by the
  stage's stderr.
- No stage has a timeout.

## Model

| member | source | states |
|---|---|---|
| Text.IndexOf | frontdoor/app/workbench/interact.tsx:363-363 | the position found is an occurrence with none before it; none iff the pattern occurs nowhere |
| Text.ContainsIff | frontdoor/app/workbench/compile-card.tsx:98-98 | `includes` holds iff the pattern starts at some position |
| Text.ContainsInPrefix | frontdoor/app/api/chat/route.ts:33-39 | a pattern in a string is still in it after text is appended |
| Text.ContainsInSuffix | frontdoor/app/api/chat/route.ts:33-39 | a pattern in a string is still in it after text is prepended |
| Text.NotContainsWithout | frontdoor/middleware.ts:10-10 | a string lacking a character of the pattern does not include the pattern |
| Text.ContainsInJoin | frontdoor/app/workbench/compile-card.tsx:98-111 | a pattern inside one line is inside the whole text |
| Text.Split | frontdoor/app/workbench/compile-card.tsx:111-111 | `split` yields at least one piece |
| Text.JoinSplit | frontdoor/app/workbench/compile-card.tsx:111-111 | joining the pieces with the separator gives back the text |
| Text.SplitPieces | frontdoor/app/workbench/compile-card.tsx:111-111 | no piece holds the separator, and there is one piece more than separators |
| Text.TrimStartIsSuffix | frontdoor/app/components/AIChatCard.tsx:41-43 | trimming the start drops exactly a white-space prefix, and the rest does not start with white space |
| Text.TrimEndIsPrefix | frontdoor/app/components/AIChatCard.tsx:41-43 | trimming the end drops exactly a white-space suffix, and the rest does not end with white space |
| Text.TrimIsInfix | frontdoor/app/components/AIChatCard.tsx:43-43 | `trim` keeps a contiguous piece, cut only at white space, that neither starts nor ends with white space |
| Text.TrimStartAllWhitespace | frontdoor/app/workbench/compile-card.tsx:116-116 | a string made only of white space trims to nothing |
| Text.TrimEmptyIff | frontdoor/app/workbench/compile-card.tsx:116-116 | `trim() === ''` iff the string is made only of white space |
| Text.ReplaceFirstSpec | frontdoor/app/workbench/interact.tsx:363-363 | `replace` with a string pattern changes nothing when the pattern is absent, and otherwise replaces only its first occurrence, keeping the text around it |
| TempleRunner.ListDir | templerunner/server.ts:67-67 | the listing holds every entry of the directory exactly once, in some order |
| TempleRunner.EnsureDir | templerunner/server.ts:45-45 | `ensureDir` as a function on `Fs`: it adds every ancestor, fails with `ENOTDIR` when a path above the target is a file and with `EEXIST` when the target is one; `EnsureDirFailsIff`, `SetUpFailsIff` and `SetUpStaysInWorkspace` state what it does |
| TempleRunner.EnsureDirFailsIff | templerunner/server.ts:45-45 | `ensureDir` fails iff the target or a path above it is a file; on success exactly the target and its ancestors become directories, none of them a file |
| TempleRunner.WriteFile | templerunner/server.ts:46-47 | `writeFile` on `Fs`: `EISDIR` on a directory, `ENOTDIR` under a file, `ENOENT` without a parent directory, and otherwise sets the file; `WriteFileFailsIff` and `SetUpWritesSourceAndManifest` state the result |
| TempleRunner.WriteFileFailsIff | templerunner/server.ts:46-47 | `writeFile` fails iff the target is a directory, a path above it is a file, or its parent directory is missing |
| TempleRunner.ReadFile | templerunner/server.ts:69-80 | `readFile` on `Fs`: `EISDIR` on a directory, otherwise the file's text; `ReadEach` is proved against it |
| TempleRunner.Remove | templerunner/server.ts:102-102 | `rm` with `recursive` on `Fs`: it fails when nothing is there and otherwise drops everything at or below the path; `TeardownFresh` states the result |
| TempleRunner.ReadEach | templerunner/server.ts:68-71 | the read loop succeeds iff no listed name is a directory; on success every name is a file and the result is the accumulator plus `prefix + name` ↦ content for exactly the listed names; on failure it is the `EISDIR` read error |
| TempleRunner.ReadRoot | templerunner/server.ts:65-72 | reading one output root agrees with `RootArtifacts`: unchanged when the root is missing, otherwise the accumulator plus the root's prefixed files, or the first read error |
| TempleRunner.CollectArtifacts | templerunner/server.ts:61-82 | the collected record equals `Artifacts`: `src/artifacts` first, then `target` |
| TempleRunner.CompileServer.constructor | templerunner/server.ts:10-11 | the server starts on the given filesystem and temporary directory, with no stage run |
| TempleRunner.CompileServer.Status | templerunner/server.ts:29-31 | `GET /status` answers 200 with `OK` |
| TempleRunner.CompileServer.CreateWorkspace | templerunner/server.ts:45-47 | creates `<ws>/src`, then writes `src/main.nr` and `Nargo.toml`; the new filesystem and the first error are those of `SetUp` |
| TempleRunner.CompileServer.RunPipeline | templerunner/server.ts:43-90 | the try block's outcome, final filesystem and stages run are those of `Try`: set-up, compile, codegen only after compile succeeds, then collection |
| TempleRunner.CompileServer.PostCompile | templerunner/server.ts:33-107 | for any JSON value of `code`, or none, the response, the final filesystem and the stages run are those of `Handle`, including the `finally` removal |
| TempleRunner.SetUp | templerunner/server.ts:45-47 | the three set-up calls, stopping at the first that throws; `SetUpFailsIff`, `SetUpWritesSourceAndManifest` and `SetUpStaysInWorkspace` state its properties |
| TempleRunner.RootArtifacts | templerunner/server.ts:65-82 | one output root read into the record; `RootArtifactsExact` states its keys and values |
| TempleRunner.Artifacts | templerunner/server.ts:61-82 | both output roots, `src/artifacts` first; `ArtifactsFromBothRoots` states the result |
| TempleRunner.Try | templerunner/server.ts:43-90 | the try block; `StagesRunInOrder`, `CompileFailureReported` and `TryStaysInWorkspace` state its properties |
| TempleRunner.Teardown | templerunner/server.ts:99-106 | the `finally` removal, whose failure is only logged; `TeardownFresh` and `TeardownStaysInWorkspace` state its properties |
| TempleRunner.Handle | templerunner/server.ts:33-107 | the whole handler; `RejectsExactlyMissingCode`, `StatusMatchesBody`, `NonStringCodeFails`, `OutsideWorkspaceUntouched`, `NoWorkspaceLeft` and `CleanupDoesNotAffectResponse` state its properties |
| TempleRunner.RejectsExactlyMissingCode | templerunner/server.ts:34-37 | status 400 iff `code` is falsy, and then the body is `No code provided`, the filesystem is untouched and no stage runs |
| TempleRunner.StatusMatchesBody | templerunner/server.ts:85-98 | status is 200, 400 or 500; 200 iff the body is a success and 500 iff it is a failure; 200 implies both stages exited 0 and the body carries compile's stdout and stderr |
| TempleRunner.StagesRunInOrder | templerunner/server.ts:50-59 | the stages run are none, compile, or compile then codegen; codegen runs only after compile exits 0; some stage runs iff the code is present and set-up succeeded |
| TempleRunner.CompileFailureReported | templerunner/server.ts:91-98 | a failing compile stops the pipeline: only compile ran, the answer is the exact 500 failure, and its message contains compile's stderr |
| TempleRunner.NonStringCodeFails | templerunner/server.ts:34-47 | a truthy `code` that is not a string (a non-zero number, `true`, an array, an object) passes the 400 check, runs no stage and is answered 500: with the `ENOTDIR` error when `src` cannot be created, and otherwise with Node's `The "data" argument must be of type string ...` error |
| TempleRunner.SetUpFailsIff | templerunner/server.ts:45-47 | set-up fails iff an ancestor of `<ws>/src` is a file, or `main.nr` or `Nargo.toml` is a directory |
| TempleRunner.SetUpWritesSourceAndManifest | templerunner/server.ts:45-47 | on a fresh workspace set-up succeeds and leaves exactly the source in `src/main.nr`, the manifest in `Nargo.toml`, and the created directories |
| TempleRunner.RootArtifactsExact | templerunner/server.ts:64-82 | a missing root gives nothing; every key starts with the root's prefix; for an existing root, `prefix + f` is a key iff `f` is a file there, with that file's content |
| TempleRunner.ArtifactsFromBothRoots | templerunner/server.ts:61-82 | the two roots' keys are disjoint, the record's keys are their union, and each value comes from its own root |
| TempleRunner.SetUpStaysInWorkspace | templerunner/server.ts:45-47 | set-up changes nothing outside the workspace except the ancestors `ensureDir` creates |
| TempleRunner.ApplyStageStaysInWorkspace | templerunner/server.ts:50-59 | a stage changes nothing outside the workspace and removes no directory |
| TempleRunner.TeardownStaysInWorkspace | templerunner/server.ts:101-102 | the removal changes nothing outside the workspace |
| TempleRunner.AfterSetUpStaysInWorkspace | templerunner/server.ts:50-106 | the stages followed by the removal change nothing outside the workspace |
| TempleRunner.TryStaysInWorkspace | templerunner/server.ts:43-82 | the whole try block changes nothing outside the workspace except the created ancestors |
| TempleRunner.OutsideWorkspaceUntouched | templerunner/server.ts:33-107 | the handler changes nothing outside `<tmp>/texcoco-/<uuid>` except the created ancestors |
| TempleRunner.TeardownFresh | templerunner/server.ts:101-102 | a removal that finds the workspace, or a workspace that was never created, leaves nothing at or below it |
| TempleRunner.NoWorkspaceLeft | templerunner/server.ts:99-106 | unless `rm` itself fails, a request on a fresh workspace leaves nothing at or below it, whatever the stages did |
| TempleRunner.SharedParentSurvives | templerunner/server.ts:40-102 | the shared parent `<tmp>/texcoco-` created for the workspace is never removed |
| TempleRunner.CleanupDoesNotAffectResponse | templerunner/server.ts:99-106 | whether the removal fails does not change the response or the stages run |
| CompileCard.GroupStderr | frontdoor/app/workbench/compile-card.tsx:111-126 | the reduce loop yields `Group` of the lines; the grouping is well formed and flattens back to exactly the lines, in order |
| CompileCard.Step | frontdoor/app/workbench/compile-card.tsx:112-125 | one step of the `reduce`; `StepShape`, `StepWellGrouped` and `StepFlatten` state its properties |
| CompileCard.Group | frontdoor/app/workbench/compile-card.tsx:111-126 | the `reduce` over the lines; `GroupWellGrouped` and `GroupUnique` state its properties |
| CompileCard.FlattenSnoc | frontdoor/app/workbench/compile-card.tsx:111-126 | appending a block appends its lines to the flattened lines |
| CompileCard.FlattenLength | frontdoor/app/workbench/compile-card.tsx:111-126 | with no empty block there are no more blocks than lines |
| CompileCard.DropLastWellGrouped | frontdoor/app/workbench/compile-card.tsx:111-126 | dropping the last block of a well-formed grouping keeps it well formed |
| CompileCard.ShortenLastWellGrouped | frontdoor/app/workbench/compile-card.tsx:119-121 | dropping the last line of a longer last block keeps the grouping well formed |
| CompileCard.StepShape | frontdoor/app/workbench/compile-card.tsx:112-125 | one step either opens a block of the line's colour or appends the line to the last block |
| CompileCard.PushWellGrouped | frontdoor/app/workbench/compile-card.tsx:112-124 | opening a block keeps the grouping well formed when the line opens one or the previous block is a success block |
| CompileCard.ExtendWellGrouped | frontdoor/app/workbench/compile-card.tsx:119-121 | appending a non-opening line to a warning or error block keeps the grouping well formed |
| CompileCard.StepWellGrouped | frontdoor/app/workbench/compile-card.tsx:112-125 | every step keeps the grouping well formed |
| CompileCard.StepFlatten | frontdoor/app/workbench/compile-card.tsx:112-125 | every step adds exactly its line at the end of the flattened lines |
| CompileCard.GroupWellGrouped | frontdoor/app/workbench/compile-card.tsx:111-126 | the grouping is well formed, flattens to the input lines, and has no more blocks than lines |
| CompileCard.GroupUnique | frontdoor/app/workbench/compile-card.tsx:111-126 | any well-formed grouping of the lines is the one the reduce builds |
| CompileCard.FailureAlertIff | frontdoor/app/workbench/compile-card.tsx:96-98 | the failure alert shows iff stderr is present and contains `Aborting due` |
| CompileCard.ShowsFailureAlert | frontdoor/app/workbench/compile-card.tsx:96-98 | the alert's condition; `FailureAlertIff` and `AbortingLineShowsAlert` state its properties |
| CompileCard.AbortingLineShowsAlert | frontdoor/app/workbench/compile-card.tsx:98-116 | a stderr line starting with `Aborting due`, which opens an error block, always brings up the alert |
| CompileCard.FirstJsonKey | frontdoor/app/workbench/compile-card.tsx:161-161 | the chosen key ends in `.json` and no earlier key does; none iff no key ends in `.json` |
| CompileCard.DeployReportFromKeys | frontdoor/app/workbench/compile-card.tsx:159-178 | in terms of the artifact keys: success iff some key ends in `.json` and the deploy succeeds, with its address; no such key gives `No JSON artifact found`; otherwise a thrown `Error`'s message, or `Failed to deploy contract` for a thrown non-Error |
| CompileCard.Alert | frontdoor/app/workbench/compile-card.tsx:202-225 | no alert iff neither a deployed contract nor a result exists; the success form iff the recorded result is a success |
| CompileCard.DeployCard.constructor | frontdoor/app/workbench/compile-card.tsx:149-151 | the deploy tab starts idle with no result and the shared deployed contract |
| CompileCard.DeployCard.HandleDeploy | frontdoor/app/workbench/compile-card.tsx:153-182 | without artifacts nothing changes; otherwise `deploying` goes true then false, the result is `DeployReport` of the first JSON key, and the deployed contract changes only on success |
| CompileCard.DeployAlertAfterHandle | frontdoor/app/workbench/compile-card.tsx:153-225 | after a successful deploy the alert is the success one with the new address; after a failure it shows the failure's message |
| Middleware.Resolve | frontdoor/middleware.ts:21-21 | `new URL(input, origin)` leaves the host iff the input starts with two slashes (a backslash counts); otherwise the path starts with `/` and equals an input that already starts with `/` |
| Middleware.Decide | frontdoor/middleware.ts:4-30 | a request is redirected iff its host is not local and either the host is not `www.texcoco.xyz` or the protocol is not `https`; a redirect is always 301, to the resolved path and query |
| Middleware.ForeignHostRedirects | frontdoor/middleware.ts:10-26 | a present host that is neither local nor `www.texcoco.xyz` is redirected with 301 to its own path and query, whatever the protocol |
| Middleware.BareDomainRedirects | frontdoor/middleware.ts:10-26 | `texcoco.xyz` over HTTPS is redirected with 301 to its own path and query |
| Middleware.NothingInEmpty | frontdoor/middleware.ts:10-10 | the empty host includes no non-empty pattern |
| Middleware.NothingLocalInEmpty | frontdoor/middleware.ts:6-10 | the empty host that a missing header gives is not local |
| Middleware.MissingHeadersRedirect | frontdoor/middleware.ts:6-26 | a request with neither header is redirected with 301 to its own path and query |
| Middleware.NotLocalWithout | frontdoor/middleware.ts:10-10 | a host with no `l`, `1` or `:` is not local |
| Middleware.CanonicalHostNotLocal | frontdoor/middleware.ts:10-10 | the canonical host is not local |
| Middleware.CanonicalPassesThrough | frontdoor/middleware.ts:15-29 | the canonical host over HTTPS always passes, whatever the path |
| Middleware.CanonicalOverHttpRedirects | frontdoor/middleware.ts:15-19 | the canonical host over any protocol but `https` is redirected |
| Middleware.MissingHostRedirects | frontdoor/middleware.ts:6-19 | a request without a host header is redirected whatever its protocol |
| Middleware.ResolveKeepsPathAndQuery | frontdoor/middleware.ts:21-21 | a `/`-path whose second character is no slash, followed by a query, resolves to itself on the canonical origin |
| Middleware.RedirectKeepsPathAndQuery | frontdoor/middleware.ts:21-26 | such a redirect targets `https://www.texcoco.xyz` + path + query |
| Middleware.OneRedirectSuffices | frontdoor/middleware.ts:15-29 | for an ordinary path and query, a redirected request lands on the canonical origin with its own path and query, and that request passes, so there is never a second redirect |
| Middleware.DoubleSlashLeavesCanonicalHost | frontdoor/middleware.ts:21-21 | a redirected path starting with `//` resolves as scheme-relative, so the target does not name the canonical host |
| Middleware.MatcherSelects | frontdoor/middleware.ts:42-42 | the matcher pattern as a predicate; `MatcherIff` states it against the excluded names |
| Middleware.FaviconAheadIff | frontdoor/middleware.ts:42-42 | the `favicon.ico` lookahead holds iff the rest starts with `favicon`, any one character that is no line terminator, then `ico` |
| Middleware.MatcherIff | frontdoor/middleware.ts:42-42 | a path is matched iff it starts with `/`, has no line terminator after it, and what follows starts neither with one of `api`, `_next/static`, `_next/image` nor with the `favicon.ico` pattern |
| Middleware.PrefixSkipped | frontdoor/middleware.ts:42-42 | paths starting with `/api`, `/_next/static` or `/_next/image` are not matched, including `/apis...` |
| Middleware.FaviconSkipped | frontdoor/middleware.ts:42-42 | `/favicon` + any non-line-terminator + `ico` is not matched, so `/favicon-ico` is skipped too |
| Middleware.PathsSelectedByFirstChar | frontdoor/middleware.ts:42-42 | a single-line path starting with `/`, whose next character, if any, is none of `a`, `_`, `f`, is matched |
| Middleware.PagesSelected | frontdoor/middleware.ts:42-42 | `/`, `/workbench` and `/settings` are matched |
| WalletSettings.DropIndexSpec | frontdoor/app/settings/page.tsx:16-16 | filtering by index removes exactly that position when it exists, keeping the order, and nothing otherwise |
| WalletSettings.DropIndex | frontdoor/app/settings/page.tsx:16-16 | `filter` by position; `DropIndexSpec` states the result |
| WalletSettings.SelectionAfterDelete | frontdoor/app/settings/page.tsx:18-20 | the selection after a delete; `DeleteKeepsSelectionListed` and `DeleteReselectsIff` state its properties |
| WalletSettings.DeleteKeepsSelectionListed | frontdoor/app/settings/page.tsx:15-21 | deleting keeps a listed selection listed (or empty) |
| WalletSettings.DeleteReselectsIff | frontdoor/app/settings/page.tsx:18-20 | the selection moves to the first remaining wallet, or none, exactly when the deleted wallet was selected; otherwise it is unchanged |
| WalletSettings.SettingsPage.constructor | frontdoor/app/settings/page.tsx:11-13 | the page starts from the stored list and selection, not generating |
| WalletSettings.SettingsPage.DeleteWallet | frontdoor/app/settings/page.tsx:15-21 | the new list is the filtered list and the new selection is `SelectionAfterDelete` |
| WalletSettings.SettingsPage.ClearAllWallets | frontdoor/app/settings/page.tsx:23-26 | the list is empty and nothing is selected |
| WalletSettings.SettingsPage.GenerateWallet | frontdoor/app/settings/page.tsx:28-39 | with nothing in between, a generated wallet is appended and selected; a failure changes neither; `isGenerating` goes true then false |
| WalletSettings.SettingsPage.BeginGenerate | frontdoor/app/settings/page.tsx:28-32 | `isGenerating` goes true, and the list the handler will extend is the list as it is when it starts |
| WalletSettings.SettingsPage.CompleteGenerate | frontdoor/app/settings/page.tsx:32-39 | a generated wallet is selected and the list becomes the list read at the start plus that wallet, whatever it is now; a failure changes neither; `isGenerating` goes false |
| WalletSettings.DeleteDuringGenerate | frontdoor/app/settings/page.tsx:15-39 | a wallet deleted while generating is running is listed again afterwards: the list is the one from before the delete plus the new wallet |
| WalletSettings.ClearDuringGenerate | frontdoor/app/settings/page.tsx:23-39 | clearing all wallets while generating is running is undone: the list is the one from before the clear plus the new wallet |
| WalletSettings.DeletedWalletReturns | frontdoor/app/settings/page.tsx:16-33 | with distinct wallets, the deleted wallet is gone from the filtered list but is in the list generating stores, and so is every wallet the filter kept |
| WalletSettings.GenerateKeepsSelectionListed | frontdoor/app/settings/page.tsx:33-34 | the appended, selected wallet is listed |
| Interact.RenderLinks | frontdoor/app/workbench/interact.tsx:360-370 | one link per item, in order, labelled by the item, to its filled-in template |
| Interact.LinkHref | frontdoor/app/workbench/interact.tsx:363-363 | the link's `href`; `LinkHrefFillsFirstSlot` states it |
| Interact.RenderComponent | frontdoor/app/workbench/interact.tsx:165-284 | one component on one screen kind; `RenderComponentIff` states when it renders and what a button does |
| Interact.RenderAll | frontdoor/app/workbench/interact.tsx:165-214 | a screen's component list; `RenderAllExact` and `RenderAllAppend` state its result |
| Interact.RenderScreen | frontdoor/app/workbench/interact.tsx:142-378 | one screen; `RenderScreensExact` states which screens give a card, under their own title |
| Interact.RenderComponentIff | frontdoor/app/workbench/interact.tsx:165-284 | a component renders iff its screen kind admits its type and it is not a deploy or constructor button; a rendered button is disabled iff no wallet is selected; a form button's label ends in ` 237` and invokes; a panel button only logs |
| Interact.RenderAllAppend | frontdoor/app/workbench/interact.tsx:165-214 | rendering a component list is rendering its parts in order |
| Interact.RenderAllExact | frontdoor/app/workbench/interact.tsx:165-214 | every element comes from an admitted, non-hidden component of the list; every such component shows; there are no more elements than components |
| Interact.HiddenButtonsNeverRendered | frontdoor/app/workbench/interact.tsx:169-173 | deploy buttons and constructor buttons render nothing on any screen kind |
| Interact.LinkHrefFillsFirstSlot | frontdoor/app/workbench/interact.tsx:363-363 | only the first `{{contractAddress}}` becomes `0x123...`; a template without one is kept |
| Interact.FindPersona | frontdoor/app/workbench/interact.tsx:128-128 | the first persona with the id; none iff no persona has it |
| Interact.FindWallet | frontdoor/app/workbench/interact.tsx:87-89 | the first wallet with the address; none iff no wallet has it |
| Interact.FormClickGuards | frontdoor/app/workbench/interact.tsx:251-275 | a rendered form button reaches the contract iff a contract is deployed and a wallet selected, with its own function and `[0]`; with no contract the message is `No contract deployed` |
| Interact.PanelClickOnlyLogs | frontdoor/app/workbench/interact.tsx:179-183 | a panel button never reaches the contract |
| Interact.InteractPanel.constructor | frontdoor/app/workbench/interact.tsx:18-22 | the first persona, or none for an empty list, and the given wallet are selected; no PXE yet; not creating |
| Interact.InteractPanel.SelectPersona | frontdoor/app/workbench/interact.tsx:127-130 | the persona becomes the first with the id, and stays when none has it; nothing else changes |
| Interact.InteractPanel.SelectWallet | frontdoor/app/workbench/interact.tsx:86-91 | the wallet becomes the first with the address, and stays when none has it; nothing else changes |
| Interact.InteractPanel.DefaultWalletEffect | frontdoor/app/workbench/interact.tsx:33-37 | with no wallet and a non-empty list the first listed wallet is selected; otherwise nothing changes |
| Interact.InteractPanel.PxeCreated | frontdoor/app/workbench/interact.tsx:25-31 | the PXE client is ready; nothing else changes |
| Interact.InteractPanel.CreateWallet | frontdoor/app/workbench/interact.tsx:59-70 | without a PXE nothing changes; otherwise a generated wallet becomes the selection (a failure keeps it) and the flag goes true then false |
| Interact.RenderScreens | frontdoor/app/workbench/interact.tsx:142-379 | no more cards than screens; `RenderScreensExact` and `RenderScreensAppend` state which cards appear and in what order |
| Interact.RenderScreensExact | frontdoor/app/workbench/interact.tsx:142-379 | every card is the card of a panel, form, dashboard, `screen` or link-list screen of the persona, and every such screen's card is shown; connect-wallet, toggle and unknown screens give none |
| Interact.RenderScreensAppend | frontdoor/app/workbench/interact.tsx:142-379 | the cards keep the order of the screens |
| Interact.InteractPanel.Screens | frontdoor/app/workbench/interact.tsx:126-142 | nothing renders iff no persona is selected, where `selectedPersona.id` throws; otherwise no more cards than the persona's screens |
| Interact.SelectPersonaByOwnId | frontdoor/app/workbench/interact.tsx:126-129 | choosing a listed persona's id selects a persona with that id |
| Interact.EmptyOptionKeepsWallet | frontdoor/app/workbench/interact.tsx:87-93 | the `No wallet selected` option finds no wallet when every wallet has an address |
| Interact.SelectorValueRoundTrip | frontdoor/app/workbench/interact.tsx:85-90 | choosing the selector's value for a listed wallet selects a wallet with the same address |
| ChatRoute.ToProvider | frontdoor/app/api/chat/route.ts:27-30 | conversion keeps the count, the order and every content, and maps each role |
| ChatRoute.RoleMapping | frontdoor/app/api/chat/route.ts:28-28 | `assistant` becomes `assistant` and only it; `user` and `system` become `user` |
| ChatRoute.ToProviderAppend | frontdoor/app/api/chat/route.ts:27-30 | converting a conversation converts its parts in order |
| ChatRoute.PromptParts | frontdoor/app/api/chat/route.ts:33-39 | the prompt starts with the preamble; the code introduction follows iff the code is truthy, and the code then appears as a fenced noir block; the request line follows the separator iff the seed prompt is truthy, and the prompt ends there otherwise |
| ChatRoute.SystemContent | frontdoor/app/api/chat/route.ts:33-39 | the system prompt, the template of `PromptParts` with the route's own preamble |
| ChatRoute.CodeSectionIff | frontdoor/app/api/chat/route.ts:38-38 | the code section starts with `Current contract code:` iff the code is truthy |
| ChatRoute.FencedInCodeSection | frontdoor/app/api/chat/route.ts:38-38 | a truthy code appears verbatim inside the ```` ```noir ```` fence |
| ChatRoute.SeedSectionIff | frontdoor/app/api/chat/route.ts:39-39 | the seed section starts with `User's original request: ` iff the seed is truthy |
| ChatRoute.TextsOfExact | frontdoor/app/api/chat/route.ts:54-55 | every forwarded text comes from a `content_block_delta` event with text and every such event's text is forwarded; nothing is forwarded iff no event qualifies |
| ChatRoute.TextsOfAppend | frontdoor/app/api/chat/route.ts:53-57 | filtering keeps the order of the events |
| ChatRoute.StreamedTextAppend | frontdoor/app/api/chat/route.ts:53-57 | the streamed text of two runs of events is the first's text followed by the second's |
| ChatRoute.StreamController.constructor | frontdoor/app/api/chat/route.ts:51-52 | a new stream is open and empty |
| ChatRoute.StreamController.Enqueue | frontdoor/app/api/chat/route.ts:55-55 | enqueueing appends one text to an open stream |
| ChatRoute.StreamController.Close | frontdoor/app/api/chat/route.ts:58-58 | closing closes the stream and counts one close |
| ChatRoute.Start | frontdoor/app/api/chat/route.ts:52-59 | the stream receives exactly the text deltas, in order, and is closed once, after the last event |
| ChatCard.ReplyMessages | frontdoor/app/components/AIChatCard.tsx:61-86 | a non-OK response or a missing reader adds just the apology; a stream that ends adds just one assistant message with its whole text; a stream that breaks adds that message and then the apology |
| ChatCard.ChatCardState.constructor | frontdoor/app/components/AIChatCard.tsx:19-21 | no messages, empty input, not loading |
| ChatCard.ChatCardState.Type | frontdoor/app/components/AIChatCard.tsx:147-147 | typing sets the input and nothing else |
| ChatCard.ChatCardState.SeedPromptEffect | frontdoor/app/components/AIChatCard.tsx:33-37 | a truthy seed prompt becomes the single user message of an empty conversation; otherwise nothing changes |
| ChatCard.ChatCardState.Submit | frontdoor/app/components/AIChatCard.tsx:39-90 | a blank input or a running request changes nothing; otherwise the input is cleared, the request carries the old messages plus the trimmed user message, the conversation becomes that plus `ReplyMessages`, each chunk shows the text so far, and loading ends false |
| ChatCard.Partials | frontdoor/app/components/AIChatCard.tsx:69-80 | one shown content per chunk: after chunk `k` the last message holds the first `k + 1` chunks joined |
| ChatCard.PartialsGrow | frontdoor/app/components/AIChatCard.tsx:73-78 | each shown content extends the previous one by the newest chunk |

## Left out

- The real filesystem, process execution, `uuidv4` and Express routing.
  - The filesystem is a value.
  - A stage's effect is the `StageRun` given.
  - The uuid is a parameter, and its freshness is the precondition `Fresh`, not a theorem.
- In server.ts:
  - `code` is any JSON value (`Json`): the model holds the 400 check for falsy values and the `writeFile` error for values that are not strings.
  - `exec`'s `maxBuffer` limit is not modelled; a stage is only as good as the outcome given.
  - The `'Unknown error'` branch of the catch block is not modelled: every modelled failure is an `Error`.
  - The `console` logging is not modelled.
- TempleRunner.ListDir: the order of the entries is left open, as `readdir` promises none. Paths are segment sequences, so `path.join` normalisation (`..`, repeated slashes) is not modelled.
- Middleware.Resolve: URL parsing is modelled only as far as the leading slashes decide it. Dot segments, percent-encoding, and what host a scheme-relative input names are not modelled.
- Middleware.MatcherSelects: the matcher is the plain anchored pattern written in middleware.ts. Next.js compiles `config.matcher` through path-to-regexp, which also accepts an optional `/_next/data/<build>` prefix, a `.json` suffix and trailing slashes; that translation is not modelled.
- Middleware.Decide takes the `host` and `x-forwarded-proto` headers as given; Next.js header handling is not modelled.
- TempleRunner.ApplyStageStaysInWorkspace, TempleRunner.OutsideWorkspaceUntouched: a stage is taken to create entries only inside the workspace and to delete nothing. `StageRun` can only express such a stage, so these properties rest on that assumption about the external commands.
- TempleRunner.Json: a JSON number is an integer. Fractions and exponent forms are not modelled, and neither is the text Node's `ERR_INVALID_ARG_TYPE` message prints for them; the message is modelled only for the cases `Received` lists.
- The enabled and visible states of the compile button, the deploy button and the "Clear All Wallets" button are markup and are not modelled. The generate button's disabled state is not modelled either: `BeginGenerate` can be called while generating runs, and the delete and clear buttons stay enabled, as in the code.
- React rendering and all markup are not modelled. The render functions model which elements appear, their text, their `disabled` state and their click handlers.
- Interact: the results of the calls the panel makes are not modelled.
  - `callContractFunction`'s success and failure toasts are not modelled.
  - The `readContractFunction` effect (interact.tsx:39-55) only logs, and is not modelled.
  - `createPXEClient` is reduced to the `PxeCreated` transition.
- Interact.InteractPanel.CreateWallet: the new wallet is selected but not added to the shared list, as in the code.
- Wallets are identified by a `handle` that stands for object identity (`===`). Addresses are plain strings.
- WalletSettings.SelectionAfterDelete: the reselect branch assumes the selected wallet and the listed wallet are the same object. In atoms.ts the selected wallet and each list entry come from separate `createWalletFromData` calls, so in the running app `selectedWallet === wallets[index]` is false and the branch is not taken. The model's `handle` gives the two a shared identity.
- Persona permissions, status flows and data sources in the configuration are not read by the code, and are not modelled.
- The atoms in atoms.ts, and their persistence and key regeneration, are not part of this model.
- In compile-card.tsx:
  - The duration and time display (floating point, `toLocaleTimeString`) is not modelled.
  - `handleCompile` is a fetch wrapper, and is not modelled.
  - `JSON.parse`, `getPXEClient` and `deployContract` are folded into the `DeployOutcome` given.
- ChatRoute:
  - The model provider's SDK is not modelled; the request's options are constants of the call.
  - An error thrown while iterating the provider stream is not modelled; the card models a broken stream from its side.
  - `SystemContent` is the template with the fixed preamble. Its properties are proved for any preamble (`PromptParts`), which avoids reasoning about the long literal.
- ChatCard:
  - `TextDecoder` is not modelled; chunks are already decoded strings.
  - Scrolling and the markdown and code rendering are not modelled.
  - React's batching of state updates is not modelled; each update takes effect in program order.
