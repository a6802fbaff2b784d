/**
 * The state `activate` keeps for the lifetime of the extension — the list of
 * tracked disposables and the terminal dictionary — and the operations of
 * src/extension.ts that change it. Each call into the editor (creating a
 * status-bar item, registering a command) is recorded as the disposable it
 * returns, appended to the tracked list.
 */
module Extension {
  import opened Wrappers
  import opened Scripts
  import opened Commands
  import opened Plan
  import opened Terminals

  class ScriptButtons {
    /** The workspace folder path, if a folder is open. */
    const cwd: Option<string>
    /** The `disposables` array: everything tracked, in the order it was created. */
    var disposables: seq<Disposable>
    /** `context.subscriptions`, which `addDisposable` also appends to. */
    var subscriptions: seq<Disposable>
    /** Each `dispose()` call made on a tracked disposable, in order. */
    var disposeLog: seq<Disposable>
    /** The `terminals` dictionary, keyed by command id. */
    var terminals: map<string, Terminal>
    /** How many terminals have been created. */
    var created: nat
    /** Each terminal disposed by a command handler, in order. */
    var disposedTerminals: seq<Terminal>
    /** Each text sent to a terminal, in order. */
    var sent: seq<(Terminal, string)>

    /** The terminal fields as one value. */
    function TerminalState(): TerminalTable
      reads this
    {
      TerminalTable(terminals, created, disposedTerminals, sent)
    }

    ghost predicate Valid()
      reads this
    {
      && subscriptions == disposables
      && Terminals.Valid(TerminalState())
    }

    constructor (cwd: Option<string>)
      ensures Valid()
      ensures this.cwd == cwd
      ensures disposables == [] && disposeLog == [] && TerminalState() == Empty
    {
      this.cwd := cwd;
      disposables, subscriptions, disposeLog := [], [], [];
      terminals, created, disposedTerminals, sent := map[], 0, [], [];
    }

    /** `addDisposable`: appends to both lists and to nothing else. */
    method AddDisposable(d: Disposable)
      modifies this
      ensures disposables == old(disposables) + [d]
      ensures subscriptions == old(subscriptions) + [d]
      ensures disposeLog == old(disposeLog) && TerminalState() == old(TerminalState())
    {
      subscriptions := subscriptions + [d];
      disposables := disposables + [d];
    }

    /**
     * `cleanup`: disposes every tracked disposable, in order, and leaves the
     * list as it was, so items of earlier passes are disposed again.
     */
    method Cleanup()
      modifies this
      ensures disposeLog == old(disposeLog) + disposables
      ensures disposables == old(disposables) && subscriptions == old(subscriptions)
      ensures TerminalState() == old(TerminalState())
    {
      var i := 0;
      while i < |disposables|
        invariant 0 <= i <= |disposables|
        invariant disposeLog == old(disposeLog) + disposables[..i]
        invariant disposables == old(disposables) && subscriptions == old(subscriptions)
        invariant TerminalState() == old(TerminalState())
      {
        disposeLog := disposeLog + [disposables[i]];
        i := i + 1;
      }
    }

    /** `createStatusBarItem`: makes and shows an item and tracks it. */
    method CreateStatusBarItem(text: string, tooltip: Option<string>, command: Option<string>, color: Option<string>)
      returns (item: StatusBarItem)
      modifies this
      ensures item == StatusBarItem(text, tooltip, command, color)
      ensures disposables == old(disposables) + [Item(item)]
      ensures subscriptions == old(subscriptions) + [Item(item)]
      ensures disposeLog == old(disposeLog) && TerminalState() == old(TerminalState())
    {
      item := StatusBarItem(text, tooltip, command, color);
      AddDisposable(Item(item));
    }

    /** `createVscCommand`: derives the id, registers the handler for it and tracks the registration. */
    method CreateVscCommand(command: string, name: string, isNpm: bool) returns (id: string)
      modifies this
      ensures id == CommandId(name, isNpm)
      ensures disposables == old(disposables) + [Command(Binding(id, name, command))]
      ensures subscriptions == old(subscriptions) + [Command(Binding(id, name, command))]
      ensures disposeLog == old(disposeLog) && TerminalState() == old(TerminalState())
    {
      id := Namespace + IdTag(isNpm) + RemoveFirstSpace(name);
      AddDisposable(Command(Binding(id, name, command)));
    }

    /**
     * The handler registered for a binding: disposes and forgets the id's
     * terminal if it has one, then opens a new one for it and sends it the
     * binding's shell text.
     */
    method RunCommand(b: Binding)
      requires Valid()
      modifies this
      ensures Valid()
      ensures TerminalState() == Invoke(old(TerminalState()), b, cwd)
      ensures disposables == old(disposables) && disposeLog == old(disposeLog)
    {
      ghost var before := TerminalState();
      if b.id in terminals {
        var terminal := terminals[b.id];
        ReplaceAfterRemove(terminals, b.id, Terminal(created, b.name, cwd));
        terminals := terminals - {b.id};
        disposedTerminals := disposedTerminals + [terminal];
      }
      var terminal := Terminal(created, b.name, cwd);
      created := created + 1;
      terminals := terminals[b.id := terminal];
      sent := sent + [(terminal, b.shell)];
      assert TerminalState() == Invoke(before, b, cwd);
      InvokeValid(before, b, cwd);
    }

    /**
     * `createScriptButtonsAndCommands`: for each script in key order, a
     * command and then a button, with the shell text rewritten for manifest scripts.
     */
    method CreateScriptButtonsAndCommands(scripts: ScriptMap, isNpm: bool, pm: string)
      modifies this
      ensures disposables == old(disposables) + ScriptsElements(scripts, isNpm, pm)
      ensures subscriptions == old(subscriptions) + ScriptsElements(scripts, isNpm, pm)
      ensures disposeLog == old(disposeLog) && TerminalState() == old(TerminalState())
    {
      var i := 0;
      while i < |scripts|
        invariant 0 <= i <= |scripts|
        invariant disposables == old(disposables) + ScriptsElements(scripts[..i], isNpm, pm)
        invariant subscriptions == old(subscriptions) + ScriptsElements(scripts[..i], isNpm, pm)
        invariant disposeLog == old(disposeLog) && TerminalState() == old(TerminalState())
      {
        var s := scripts[i];
        var command := s.command;
        if isNpm {
          if pm == "npm" || pm == "pnpm" || pm == "bun" {
            command := pm + " run " + s.name;
          } else if pm == "yarn" {
            command := "yarn " + s.name;
          }
        }
        assert command == ShellText(pm, isNpm, s);
        ghost var done := disposables;
        var id := CreateVscCommand(command, s.name, isNpm);
        var color := if isNpm then Some("white") else None;
        var _ := CreateStatusBarItem(s.name, Some(command), Some(id), color);
        assert disposables == done + ScriptElements(s, isNpm, pm);
        ScriptsElementsSnoc(scripts, isNpm, pm, i);
        AppendAssoc(old(disposables), ScriptsElements(scripts[..i], isNpm, pm), ScriptElements(s, isNpm, pm));
        AppendAssoc(old(subscriptions), ScriptsElements(scripts[..i], isNpm, pm), ScriptElements(s, isNpm, pm));
        i := i + 1;
      }
      assert scripts[..|scripts|] == scripts;
    }

    /** `createErrorMessage`: the button with no command that says no script was found. */
    method CreateErrorMessage()
      modifies this
      ensures disposables == old(disposables) + [Item(ErrorButton)]
      ensures subscriptions == old(subscriptions) + [Item(ErrorButton)]
      ensures disposeLog == old(disposeLog) && TerminalState() == old(TerminalState())
    {
      var _ := CreateStatusBarItem("$(circle-slash) Script Buttons", Some("No scripts found!"), None, None);
    }

    /** `createRefreshButton`. */
    method CreateRefreshButton()
      modifies this
      ensures disposables == old(disposables) + [Item(RefreshButton)]
      ensures subscriptions == old(subscriptions) + [Item(RefreshButton)]
      ensures disposeLog == old(disposeLog) && TerminalState() == old(TerminalState())
    {
      var _ := CreateStatusBarItem("$(refresh)", Some("Script Buttons: Refetches the scripts from your package.json file"), Some(RefreshId), None);
    }

    /** `registerCommands`: registers the refresh command, whose handler runs `Init` again. */
    method RegisterCommands()
      modifies this
      ensures disposables == old(disposables) + [RefreshCommand]
      ensures subscriptions == old(subscriptions) + [RefreshCommand]
      ensures disposeLog == old(disposeLog) && TerminalState() == old(TerminalState())
    {
      AddDisposable(RefreshCommand);
    }

    /** The install command and its button, the first things `init` makes once the manifest loaded. */
    method CreateInstallButtonAndCommand(pm: string)
      modifies this
      ensures disposables == old(disposables) + InstallElements(pm)
      ensures subscriptions == old(subscriptions) + InstallElements(pm)
      ensures disposeLog == old(disposeLog) && TerminalState() == old(TerminalState())
    {
      var installCmd := if pm == "yarn" then "yarn install" else pm + " install";
      assert installCmd == InstallCommand(pm);
      var name := "install";
      var id := CreateVscCommand(installCmd, name, true);
      InstallScriptSharesInstallId(name);
      ghost var registered := disposables;
      var text := (if pm == [] then [] else [UpperAscii(pm[0])] + pm[1..]) + " Install";
      assert text == InstallLabel(pm);
      var _ := CreateStatusBarItem(text, Some(installCmd), Some(id), Some("white"));
      assert disposables == registered + [InstallElements(pm)[1]];
    }

    /**
     * `init`: disposes everything tracked so far, then registers and creates
     * exactly the elements of one pass, in order; the terminals survive.
     * `setting` is the package-manager setting, `manifest` and `sidecar` the
     * script maps of the two files, `None` when a file could not be read or parsed.
     */
    method Init(setting: Option<string>, manifest: Option<ScriptMap>, sidecar: Option<ScriptMap>)
      requires Valid()
      modifies this
      ensures Valid()
      ensures disposeLog == old(disposeLog) + old(disposables)
      ensures disposables == old(disposables) + PassPlan(setting, manifest, sidecar)
      ensures TerminalState() == old(TerminalState())
    {
      Cleanup();
      RegisterCommands();
      CreateRefreshButton();
      var pm := EffectivePm(setting);
      ghost var head := old(disposables) + [RefreshCommand, Item(RefreshButton)];
      assert disposables == head;
      var scripts: ScriptMap := [];
      if manifest.Some? {
        CreateInstallButtonAndCommand(pm);
        CreateScriptButtonsAndCommands(manifest.value, true, pm);
        scripts := Overlay(scripts, manifest.value);
      }
      assert disposables == head + ManifestPart(pm, manifest);
      ghost var middle := disposables;
      if sidecar.Some? {
        CreateScriptButtonsAndCommands(sidecar.value, false, pm);
        scripts := Overlay(scripts, sidecar.value);
      }
      assert disposables == middle + SidecarPart(pm, sidecar);
      ghost var last := disposables;
      assert scripts == Merge(manifest, sidecar);
      if |scripts| == 0 {
        CreateErrorMessage();
        assert disposables == last + ErrorPart(manifest, sidecar);
      } else {
        assert disposables == last + ErrorPart(manifest, sidecar);
      }
      ghost var parts := [RefreshCommand, Item(RefreshButton)] + ManifestPart(pm, manifest) + SidecarPart(pm, sidecar) + ErrorPart(manifest, sidecar);
      assert parts == PassPlan(setting, manifest, sidecar);
      Concat4(old(disposables), [RefreshCommand, Item(RefreshButton)], ManifestPart(pm, manifest), SidecarPart(pm, sidecar), ErrorPart(manifest, sidecar));
    }
  }

  lemma Concat4<T>(o: seq<T>, a: seq<T>, b: seq<T>, c: seq<T>, d: seq<T>)
    ensures o + (a + b + c + d) == o + a + b + c + d
  {
  }

  /** `activate`: the state starts empty and a first pass runs. */
  method Activate(cwd: Option<string>, setting: Option<string>, manifest: Option<ScriptMap>, sidecar: Option<ScriptMap>)
    returns (e: ScriptButtons)
    ensures fresh(e) && e.Valid()
    ensures e.disposables == PassPlan(setting, manifest, sidecar)
    ensures e.disposeLog == [] && e.TerminalState() == Empty
  {
    e := new ScriptButtons(cwd);
    e.Init(setting, manifest, sidecar);
  }
}
