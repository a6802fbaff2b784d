/**
 * What one refresh pass (`init`) hands to the editor, in order: each status-bar
 * item it creates and each command it registers, as the disposables it tracks.
 */
module Plan {
  import opened Wrappers
  import opened Scripts
  import opened Commands

  /** A status-bar item: text, tooltip, click command and colour; every one is shown. */
  datatype StatusBarItem = StatusBarItem(text: string, tooltip: Option<string>, command: Option<string>, color: Option<string>)

  /** What `addDisposable` receives: a status-bar item, a script command, or the refresh command. */
  datatype Disposable = Item(item: StatusBarItem) | Command(binding: Binding) | RefreshCommand

  const RefreshId: string := "script-buttons.refreshScripts"

  const RefreshButton: StatusBarItem :=
    StatusBarItem("$(refresh)", Some("Script Buttons: Refetches the scripts from your package.json file"), Some(RefreshId), None)

  const ErrorButton: StatusBarItem :=
    StatusBarItem("$(circle-slash) Script Buttons", Some("No scripts found!"), None, None)

  /** The colour of a script button: white for manifest scripts, none for sidecar scripts. */
  function ScriptColor(isNpm: bool): Option<string> {
    if isNpm then Some("white") else None
  }

  /** The command binding made for one script. */
  function ScriptBinding(s: Script, isNpm: bool, pm: string): Binding {
    Binding(CommandId(s.name, isNpm), s.name, ShellText(pm, isNpm, s))
  }

  /** The button made for one script: labelled with its name, its shell text as tooltip. */
  function ScriptButton(s: Script, isNpm: bool, pm: string): StatusBarItem {
    StatusBarItem(s.name, Some(ShellText(pm, isNpm, s)), Some(CommandId(s.name, isNpm)), ScriptColor(isNpm))
  }

  /** One iteration of the `for...in` loop: the command is registered, then the button created. */
  function ScriptElements(s: Script, isNpm: bool, pm: string): seq<Disposable> {
    [Command(ScriptBinding(s, isNpm, pm)), Item(ScriptButton(s, isNpm, pm))]
  }

  /** All iterations of the `for...in` loop over `scripts`, in key order. */
  function ScriptsElements(scripts: ScriptMap, isNpm: bool, pm: string): seq<Disposable>
    decreases |scripts|
  {
    if scripts == [] then []
    else ScriptsElements(scripts[..|scripts| - 1], isNpm, pm) + ScriptElements(scripts[|scripts| - 1], isNpm, pm)
  }

  /**
   * The install command and its button, made when the manifest loaded.
   */
  function InstallElements(pm: string): seq<Disposable> {
    [ Command(Binding(InstallId, "install", InstallCommand(pm))),
      Item(StatusBarItem(InstallLabel(pm), Some(InstallCommand(pm)), Some(InstallId), Some("white"))) ]
  }

  /** What the manifest contributes: nothing unless it loaded. */
  function ManifestPart(pm: string, manifest: Option<ScriptMap>): seq<Disposable> {
    if manifest.Some? then InstallElements(pm) + ScriptsElements(manifest.value, true, pm) else []
  }

  /** What the sidecar file contributes: nothing unless it loaded. */
  function SidecarPart(pm: string, sidecar: Option<ScriptMap>): seq<Disposable> {
    if sidecar.Some? then ScriptsElements(sidecar.value, false, pm) else []
  }

  /** Everything one `init` pass registers and creates, in order. */
  function PassPlan(setting: Option<string>, manifest: Option<ScriptMap>, sidecar: Option<ScriptMap>): seq<Disposable> {
    var pm := EffectivePm(setting);
    [RefreshCommand, Item(RefreshButton)]
    + ManifestPart(pm, manifest)
    + SidecarPart(pm, sidecar)
    + ErrorPart(manifest, sidecar)
  }

  /** The error button, made when the merged script map is empty. */
  function ErrorPart(manifest: Option<ScriptMap>, sidecar: Option<ScriptMap>): seq<Disposable> {
    if Merge(manifest, sidecar) == [] then [Item(ErrorButton)] else []
  }

  lemma ScriptsElementsSnoc(scripts: ScriptMap, isNpm: bool, pm: string, i: nat)
    requires i < |scripts|
    ensures ScriptsElements(scripts[..i + 1], isNpm, pm)
         == ScriptsElements(scripts[..i], isNpm, pm) + ScriptElements(scripts[i], isNpm, pm)
  {
    assert scripts[..i + 1][..i] == scripts[..i];
  }

  /**
   * The loop makes two disposables per script: the i-th script's command
   * registration, then its button.
   */
  lemma {:induction false} ScriptsElementsAt(scripts: ScriptMap, isNpm: bool, pm: string, i: nat)
    requires i < |scripts|
    ensures |ScriptsElements(scripts, isNpm, pm)| == 2 * |scripts|
    ensures ScriptsElements(scripts, isNpm, pm)[2 * i] == Command(ScriptBinding(scripts[i], isNpm, pm))
    ensures ScriptsElements(scripts, isNpm, pm)[2 * i + 1] == Item(ScriptButton(scripts[i], isNpm, pm))
    decreases |scripts|
  {
    var init := scripts[..|scripts| - 1];
    if i < |init| {
      ScriptsElementsAt(init, isNpm, pm, i);
    } else if init != [] {
      ScriptsElementsAt(init, isNpm, pm, 0);
    }
  }

  /** A pass makes two disposables per script, plus refresh, install and error elements. */
  lemma ScriptsElementsLength(scripts: ScriptMap, isNpm: bool, pm: string)
    ensures |ScriptsElements(scripts, isNpm, pm)| == 2 * |scripts|
  {
    if scripts != [] {
      ScriptsElementsAt(scripts, isNpm, pm, 0);
    }
  }

  /** Every element the loop makes is bound to a command: none of them is the error button. */
  lemma {:induction false} NoErrorButtonFromScripts(scripts: ScriptMap, isNpm: bool, pm: string)
    ensures Item(ErrorButton) !in ScriptsElements(scripts, isNpm, pm)
    decreases |scripts|
  {
    if scripts != [] {
      NoErrorButtonFromScripts(scripts[..|scripts| - 1], isNpm, pm);
    }
  }

  /**
   * The error button is shown exactly when neither source contributed a
   * script, even when the manifest loaded and its install button was made.
   */
  lemma PlanErrorButton(setting: Option<string>, manifest: Option<ScriptMap>, sidecar: Option<ScriptMap>)
    ensures Item(ErrorButton) in PassPlan(setting, manifest, sidecar)
        <==> Source(manifest) == [] && Source(sidecar) == []
    ensures Source(manifest) == [] && Source(sidecar) == [] ==>
      PassPlan(setting, manifest, sidecar)[|PassPlan(setting, manifest, sidecar)| - 1] == Item(ErrorButton)
  {
    var pm := EffectivePm(setting);
    MergeEmpty(manifest, sidecar);
    if manifest.Some? { NoErrorButtonFromScripts(manifest.value, true, pm); }
    if sidecar.Some? { NoErrorButtonFromScripts(sidecar.value, false, pm); }
  }

  /** How many disposables one pass adds to the tracked list. */
  lemma PlanLength(setting: Option<string>, manifest: Option<ScriptMap>, sidecar: Option<ScriptMap>)
    ensures |PassPlan(setting, manifest, sidecar)|
         == 2 + (if manifest.Some? then 2 else 0) + 2 * |Source(manifest)| + 2 * |Source(sidecar)|
            + (if Source(manifest) == [] && Source(sidecar) == [] then 1 else 0)
  {
    var pm := EffectivePm(setting);
    MergeEmpty(manifest, sidecar);
    ScriptsElementsLength(Source(manifest), true, pm);
    ScriptsElementsLength(Source(sidecar), false, pm);
  }

  /** A pass opens with the refresh command and button, then the install elements if the manifest loaded. */
  lemma PlanStart(setting: Option<string>, manifest: Option<ScriptMap>, sidecar: Option<ScriptMap>)
    ensures |PassPlan(setting, manifest, sidecar)| >= 2
    ensures PassPlan(setting, manifest, sidecar)[..2] == [RefreshCommand, Item(RefreshButton)]
    ensures manifest.Some? ==> |PassPlan(setting, manifest, sidecar)| >= 4
    ensures manifest.Some? ==> PassPlan(setting, manifest, sidecar)[2..4] == InstallElements(EffectivePm(setting))
  {
  }

  /** The i-th manifest script's command and button sit at 4 + 2i, right after the install button. */
  lemma PlanManifestScript(setting: Option<string>, m: ScriptMap, sidecar: Option<ScriptMap>, i: nat)
    requires i < |m|
    ensures |PassPlan(setting, Some(m), sidecar)| > 5 + 2 * i
    ensures PassPlan(setting, Some(m), sidecar)[4 + 2 * i] == Command(ScriptBinding(m[i], true, EffectivePm(setting)))
    ensures PassPlan(setting, Some(m), sidecar)[5 + 2 * i] == Item(ScriptButton(m[i], true, EffectivePm(setting)))
  {
    var pm := EffectivePm(setting);
    var head: seq<Disposable> := [RefreshCommand, Item(RefreshButton)];
    var mp := ManifestPart(pm, Some(m));
    var rest := SidecarPart(pm, sidecar) + ErrorPart(Some(m), sidecar);
    assert PassPlan(setting, Some(m), sidecar) == head + mp + rest by {
      PlanParts(setting, Some(m), sidecar);
    }
    assert |mp| == 2 + 2 * |m| && mp[2 + 2 * i] == Command(ScriptBinding(m[i], true, pm))
      && mp[3 + 2 * i] == Item(ScriptButton(m[i], true, pm)) by {
      ScriptsElementsAt(m, true, pm, i);
    }
  }

  lemma PlanParts(setting: Option<string>, manifest: Option<ScriptMap>, sidecar: Option<ScriptMap>)
    ensures PassPlan(setting, manifest, sidecar)
         == [RefreshCommand, Item(RefreshButton)] + ManifestPart(EffectivePm(setting), manifest)
            + (SidecarPart(EffectivePm(setting), sidecar) + ErrorPart(manifest, sidecar))
  {
  }

  /** The j-th sidecar script's command and button come after every manifest element. */
  lemma PlanSidecarScript(setting: Option<string>, manifest: Option<ScriptMap>, s: ScriptMap, j: nat)
    requires j < |s|
    ensures var base := |ManifestPart(EffectivePm(setting), manifest)| + 2;
      && base == (if manifest.Some? then 4 + 2 * |manifest.value| else 2)
      && |PassPlan(setting, manifest, Some(s))| > base + 2 * j + 1
      && PassPlan(setting, manifest, Some(s))[base + 2 * j] == Command(ScriptBinding(s[j], false, EffectivePm(setting)))
      && PassPlan(setting, manifest, Some(s))[base + 2 * j + 1] == Item(ScriptButton(s[j], false, EffectivePm(setting)))
  {
    var pm := EffectivePm(setting);
    var head: seq<Disposable> := [RefreshCommand, Item(RefreshButton)];
    var mp := ManifestPart(pm, manifest);
    var sp := SidecarPart(pm, Some(s));
    assert PassPlan(setting, manifest, Some(s)) == head + mp + (sp + ErrorPart(manifest, Some(s))) by {
      PlanParts(setting, manifest, Some(s));
    }
    assert |mp| == (if manifest.Some? then 2 + 2 * |manifest.value| else 0) by {
      ScriptsElementsLength(Source(manifest), true, pm);
    }
    assert |sp| == 2 * |s| && sp[2 * j] == Command(ScriptBinding(s[j], false, pm))
      && sp[2 * j + 1] == Item(ScriptButton(s[j], false, pm)) by {
      ScriptsElementsAt(s, false, pm, j);
    }
  }

  /**
   * A name defined in both sources gets two buttons in one pass: the merge
   * only decides whether the error button appears.
   */
  lemma SharedNameShownTwice(setting: Option<string>, m: ScriptMap, s: ScriptMap, i: nat, j: nat)
    requires i < |m| && j < |s| && m[i].name == s[j].name
    ensures var plan := PassPlan(setting, Some(m), Some(s));
      exists p, q :: 0 <= p < q < |plan| && plan[p].Item? && plan[q].Item?
        && plan[p].item.text == plan[q].item.text == m[i].name
        && plan[p].item.color == Some("white") && plan[q].item.color == None
  {
    var plan := PassPlan(setting, Some(m), Some(s));
    var pm := EffectivePm(setting);
    var p, q := 5 + 2 * i, 4 + 2 * |m| + 2 * j + 1;
    var b1, b2 := ScriptButton(m[i], true, pm), ScriptButton(s[j], false, pm);
    assert |plan| > q && plan[p] == Item(b1) && plan[q] == Item(b2) by {
      PlanManifestScript(setting, m, Some(s), i);
      PlanSidecarScript(setting, Some(m), s, j);
    }
    assert b1.text == b2.text == m[i].name && b1.color == Some("white") && b2.color == None;
  }
}
