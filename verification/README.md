# Script Buttons, modelled in Dafny

Script Buttons is a VS Code extension. It reads the scripts of a workspace's
`package.json` (the *manifest*) and of an optional `script-buttons.json`
(the *sidecar*), and puts one status-bar button per script. A button runs
its script in a terminal of its own. A refresh button reads both files again.
An install button runs the package manager's install command. When no script
is found, an error button says so.

This project models the logic of `src/extension.ts` and proves what one
refresh pass (`init`) creates, in which order, with which strings. It also
proves what the command handlers do to the terminal dictionary.

- `wrappers.dfy`: `Wrappers`, the `Option` type. A file that cannot be read
  or parsed is `None`.
- `scripts.dfy`: `Scripts`, script maps as JSON objects. A map is an ordered
  sequence of (name, command) pairs with distinct names. `for...in` follows
  that order. `{...a, ...b}` (`Overlay`) assigns `b`'s entries onto `a` one
  by one: an existing key keeps its place and a new key goes last. `Merge`
  is the `scripts` variable of `init`.
- `commands.dfy`: `Commands`, the strings derived for a script:
  - the command id, `script-buttons.` + `${isNpm && 'npm-'}` + the name with
    its first space removed;
  - the shell text, rewritten for the known package managers;
  - the install command and its label;
  - the package-manager default.
- `plan.dfy`: `Plan`, everything one `init` pass hands to the editor, in
  order, as a value (`PassPlan`). Its lemmas cover the order, the colours,
  the strings and when the error button appears.
- `terminals.dfy`: `Terminals`, the terminal dictionary as a value.
  - `Invoke` is one run of a command handler.
  - `Valid` is the invariant it keeps: every terminal ever created is either
    the open terminal of exactly one id or was disposed exactly once.
- `extension.dfy`: `Extension`, the state `activate` keeps, as the class
  `ScriptButtons`:
  - the tracked disposables (also pushed onto `context.subscriptions`);
  - a log of `dispose()` calls;
  - the terminal dictionary.

  Its methods follow the functions of `src/extension.ts` statement by
  statement: the `cleanup` loop, the `for...in` loop and `init`'s
  sequencing. Each method is proved against the specification functions
  above. Every call into the editor is recorded as the disposable it
  returns, appended to the tracked list.

Where the code differs from the extension's stated design, the model follows
the code:

- A sidecar script's id carries the literal text `false`
  (`script-buttons.false<name>`). The reason is that `${isNpm && 'npm-'}`
  renders the boolean `false` when `isNpm` is false.
- `name.replace(' ', '')` removes only the first space. So `unit test` and
  `unittest` get the same id (`Commands.IdIgnoresFirstSpace`), and a name
  with two spaces keeps one (`Commands.IdKeepsLaterSpaces`).
- A name defined in both files gets two buttons in the same pass
  (`Plan.SharedNameShownTwice`). The merged map only decides whether the
  error button appears.
- A manifest script named `install` gets the install command's id
  (`Commands.InstallScriptSharesInstallId`), so it is registered under the
  same id twice.

## Model

| member | source | states |
|---|---|---|
| Scripts.PutLookup | src/extension.ts:141 | after assigning `k := v` on an object, `k` reads `v` and every other key reads as before |
| Scripts.PutNames | src/extension.ts:141 | assigning an existing key keeps the key order; a new key is appended last |
| Scripts.PutUnique | src/extension.ts:141 | assigning a key never creates a duplicate key |
| Scripts.OverlayKeys | src/extension.ts:141 | the keys of `{...a, ...b}` are the union of the keys of `a` and `b` |
| Scripts.OverlayLookup | src/extension.ts:151 | on a key both operands hold, the right operand's value wins; elsewhere the operand that holds it gives the value |
| Scripts.OverlayNames | src/extension.ts:151 | the keys of a spread are `a`'s keys in their order, then `b`'s new keys in `b`'s order |
| Scripts.OverlayUnique | src/extension.ts:151 | a spread of a key-unique object stays key-unique |
| Scripts.OverlayDisjoint | src/extension.ts:141 | spreading onto an object with no shared keys appends unchanged, so spreading the manifest onto `{}` gives the manifest's map |
| Scripts.MergeKeys | src/extension.ts:125-151 | the merged `scripts` key set is the union of the manifest's and the sidecar's key sets; a source that failed to load contributes nothing |
| Scripts.MergeLookup | src/extension.ts:141-151 | on a name both files define, the sidecar's command wins; otherwise the manifest's is kept |
| Scripts.MergeNames | src/extension.ts:141-151 | the merged map has unique keys: the manifest's names in order, then the sidecar's new names in order |
| Scripts.MergeEmpty | src/extension.ts:156 | the merged map is empty exactly when neither source contributed a script |
| Commands.FirstSpace | src/extension.ts:91 | the index of the first space of a name (or its length): a space is there and none comes before |
| Commands.RemoveFirstSpaceSpec | src/extension.ts:91 | `replace(' ', '')` removes exactly the character at the first space, and leaves a name without a space unchanged |
| Commands.CommandIdSpec | src/extension.ts:91 | the id is `script-buttons.` + (`npm-` for a manifest script, `false` for a sidecar script) + the name with its first space removed |
| Commands.IdsOfSourcesDiffer | src/extension.ts:91 | a manifest script's id never equals a sidecar script's id, whatever the names |
| Commands.IdDeterminesName | src/extension.ts:91 | within one source, two names without spaces get the same id if and only if they are equal |
| Commands.IdIgnoresFirstSpace | src/extension.ts:91 | `a b` and `ab` (with no other spaces) get the same id, `script-buttons.<tag>ab` |
| Commands.IdKeepsLaterSpaces | src/extension.ts:91 | a name with two spaces still has a space in its id |
| Commands.InstallScriptSharesInstallId | src/extension.ts:133 | a manifest script named `install` gets `script-buttons.npm-install`, the install command's id |
| Commands.ShellText | src/extension.ts:73-81 | a manifest script runs as `pm run name` for npm, pnpm and bun and as `yarn name` for yarn; for any other manager, and for every sidecar script, the script's own command is used |
| Commands.ShellTextNamesScript | src/extension.ts:75-81 | with a known manager, two manifest scripts get the same shell text if and only if they have the same name |
| Commands.InstallCommand | src/extension.ts:132 | the install command is always `pm install`; the yarn branch gives the same text |
| Commands.UpperAscii | src/extension.ts:136 | a lower-case ASCII letter becomes its upper-case form; any other character is kept |
| Commands.InstallLabel | src/extension.ts:136-137 | the install label is `pm` with its first character upper-cased, then ` Install`; it is 8 characters longer than `pm` |
| Commands.InstallLabels | src/extension.ts:136-137 | the labels for npm and yarn are `Npm Install` and `Yarn Install` |
| Commands.EffectivePm | src/extension.ts:123 | the manager is never empty: the setting when it is set and non-empty, otherwise `npm` |
| Plan.ScriptsElementsSnoc | src/extension.ts:71-87 | one more loop iteration appends that script's command and then its button |
| Plan.ScriptsElementsAt | src/extension.ts:71-87 | the loop makes two elements per script: at 2i the i-th script's command (its id, its name, its shell text), at 2i+1 its button (label = name, tooltip = shell text, colour white for the manifest and none for the sidecar) |
| Plan.ScriptsElementsLength | src/extension.ts:71-87 | the loop makes exactly two elements per script |
| Plan.NoErrorButtonFromScripts | src/extension.ts:71-87 | the loop never makes the error button |
| Plan.PlanErrorButton | src/extension.ts:156-158 | the pass makes the error button if and only if neither source contributed a script, even when the manifest loaded and its install button was made; if made, it is last |
| Plan.PlanLength | src/extension.ts:116-158 | a pass makes 2 refresh elements, 2 install elements if the manifest loaded, 2 per script and 1 error button when there is no script |
| Plan.PlanStart | src/extension.ts:117-137 | a pass starts with the refresh command and button; if the manifest loaded, the install command and button come next |
| Plan.PlanManifestScript | src/extension.ts:140 | the i-th manifest script's command and button sit at positions 4+2i and 5+2i |
| Plan.PlanSidecarScript | src/extension.ts:150 | the j-th sidecar script's command and button come after every manifest element, at base+2j and base+2j+1 |
| Plan.SharedNameShownTwice | src/extension.ts:140-151 | a name in both files gets two buttons in one pass, the manifest's white one first, then the sidecar's with no colour |
| Terminals.EmptyValid | src/extension.ts:10 | the empty terminal dictionary satisfies the invariant |
| Terminals.InvokeEffect | src/extension.ts:94-109 | a run disposes the id's old terminal if there was one; the id then holds a new terminal, named after the script and opened in the workspace folder, which receives the shell text; every other id keeps its terminal |
| Terminals.InvokeOpenDistinct | src/extension.ts:94-106 | after a run, open terminals are still ones that were created, and no two ids share one |
| Terminals.InvokeDisposedDistinct | src/extension.ts:96-99 | after a run, no terminal has been disposed twice |
| Terminals.InvokeDisposedClosed | src/extension.ts:96-106 | after a run, no disposed terminal is still in the dictionary |
| Terminals.InvokeValid | src/extension.ts:94-109 | a run keeps every terminal accounted for: it is either open under one id or was disposed once |
| Terminals.RepeatedInvoke | src/extension.ts:94-109 | n runs of one command leave one terminal for its id and the others untouched; they dispose n-1 terminals (n if the id already had one) and send n texts |
| Extension.ScriptButtons.constructor | src/extension.ts:9-11 | `activate` starts with no disposables and an empty terminal dictionary |
| Extension.ScriptButtons.AddDisposable | src/extension.ts:13-16 | the disposable is appended to both `context.subscriptions` and `disposables`, and nothing else changes |
| Extension.ScriptButtons.Cleanup | src/extension.ts:18-20 | every tracked disposable is disposed, in order, and the list is left as it was |
| Extension.ScriptButtons.CreateStatusBarItem | src/extension.ts:22-33 | the item carries the given text, tooltip, command and colour and is appended to the tracked list |
| Extension.ScriptButtons.CreateVscCommand | src/extension.ts:90-114 | returns `CommandId(name, isNpm)` and tracks a command bound to that id, the name and the shell text |
| Extension.ScriptButtons.RunCommand | src/extension.ts:93-110 | the handler changes the terminal dictionary exactly as `Terminals.Invoke` says and keeps the invariant |
| Extension.ScriptButtons.CreateScriptButtonsAndCommands | src/extension.ts:70-88 | the loop appends `ScriptsElements`: for each script in key order, its command and then its button |
| Extension.ScriptButtons.CreateErrorMessage | src/extension.ts:57-59 | appends the error button, which has no command |
| Extension.ScriptButtons.CreateRefreshButton | src/extension.ts:61-67 | appends the refresh button, bound to `script-buttons.refreshScripts` |
| Extension.ScriptButtons.RegisterCommands | src/extension.ts:161-170 | appends the refresh command registration |
| Extension.ScriptButtons.CreateInstallButtonAndCommand | src/extension.ts:132-137 | appends the install command (id `script-buttons.npm-install`, text `pm install`) and then its white button labelled `InstallLabel(pm)` |
| Extension.ScriptButtons.Init | src/extension.ts:116-159 | disposes everything tracked before, the items of earlier passes included; appends exactly `PassPlan` for the setting and the two files; leaves the terminals unchanged |
| Extension.Activate | src/extension.ts:8-12 | the first pass runs on an empty state, so the tracked list is exactly one pass's plan |

## Left out

- Reading and parsing `package.json` and `script-buttons.json` (`getJsonFile`, `getPackageJson`, `getConfigJson`) is not modelled. A file that cannot be read or parsed is the `None` input of `Init`. A manifest without a `scripts` field behaves as an empty script map: the `for...in` loop and the spread do nothing, but the install button is still made.
- Workspace lookup (`getWorkspaceFolderPath`) and the configuration read are not modelled. They are the `cwd` and `setting` parameters.
- Editor primitives are recorded, not simulated:
  - status-bar items are not simulated, and their alignment and priority arguments are left out;
  - `show()` and `terminal.show(true)` are left out;
  - `registerCommand` is recorded as a binding;
  - `createTerminal` is recorded as a new serial number;
  - `sendText` is recorded as an entry in a log.
- What the editor does when an id is registered twice is left out. This happens for a manifest script named `install`, and for two names that differ only in their first space.
- The terminal dictionary only changes through the handlers. A terminal the user closes stays in it.
- `async`/`await` scheduling is left out, and so is a refresh that starts while an earlier `init` is still waiting on a file. Each `Init` runs to completion.
- `console.log` diagnostics are left out.
- `deactivate` is empty.
- Disposal of `context.subscriptions` by the editor is left out.
- JavaScript's ordering of integer-like object keys is left out. Names keep insertion order.
- Commands.UpperAscii: `toUpperCase` is modelled on ASCII letters only. Other characters with an upper-case form (and the ones that expand to two characters) are kept as they are.
- Commands.InstallLabel: inherits the ASCII-only upper-casing of `UpperAscii`.
