/**
 * The strings the extension derives for one script: the command id it
 * registers, the shell text it sends to a terminal, the install command and
 * its button label, and the package manager chosen from the settings.
 */
module Commands {
  import opened Wrappers
  import opened Scripts

  /** A registered command: its id, the script name its terminal is named after, and the text sent. */
  datatype Binding = Binding(id: string, name: string, shell: string)

  const Namespace: string := "script-buttons."

  /** The id of the install command: `createVscCommand(installCmd, 'install', true)`. */
  const InstallId: string := "script-buttons.npm-install"

  /**
   * The segment after the namespace: `${isNpm && 'npm-'}` renders `npm-` for a
   * manifest script and the boolean itself, `false`, for a sidecar script.
   */
  function IdTag(isNpm: bool): (r: string)
    ensures |r| == (if isNpm then 4 else 5)
  {
    if isNpm then "npm-" else "false"
  }

  /** `name.replace(' ', '')`: a string pattern replaces its first occurrence only. */
  function RemoveFirstSpace(name: string): string {
    if name == [] then []
    else if name[0] == ' ' then name[1..]
    else [name[0]] + RemoveFirstSpace(name[1..])
  }

  /** The position of the first space of a name, or its length when it has none. */
  function FirstSpace(name: string): (k: nat)
    ensures k <= |name|
    ensures k < |name| ==> name[k] == ' '
    ensures forall j :: 0 <= j < k ==> name[j] != ' '
  {
    if name == [] then 0
    else if name[0] == ' ' then 0
    else 1 + FirstSpace(name[1..])
  }

  /** Only the first space is removed; a name without a space is left as it is. */
  lemma {:induction false} RemoveFirstSpaceSpec(name: string)
    ensures var k := FirstSpace(name);
      RemoveFirstSpace(name) == if k < |name| then name[..k] + name[k + 1..] else name
  {
    if name != [] && name[0] != ' ' {
      RemoveFirstSpaceSpec(name[1..]);
      var k := FirstSpace(name[1..]);
      if k < |name[1..]| {
        assert name[..k + 1] == [name[0]] + name[1..][..k];
        assert name[k + 2..] == name[1..][k + 1..];
      } else {
        assert name == [name[0]] + name[1..];
      }
    }
  }

  /** The command id bound to a script: src/extension.ts builds it by interpolation. */
  function CommandId(name: string, isNpm: bool): string {
    Namespace + IdTag(isNpm) + RemoveFirstSpace(name)
  }

  /**
   * The id of a script: the namespace, `npm-` for a manifest script or
   * `false` for a sidecar script, then the name without its first space.
   */
  lemma CommandIdSpec(name: string, isNpm: bool)
    ensures var k := FirstSpace(name);
      CommandId(name, isNpm)
        == "script-buttons." + (if isNpm then "npm-" else "false")
           + (if k < |name| then name[..k] + name[k + 1..] else name)
  {
    RemoveFirstSpaceSpec(name);
  }

  /** A manifest script and a sidecar script never share a command id. */
  lemma IdsOfSourcesDiffer(manifestName: string, sidecarName: string)
    ensures CommandId(manifestName, true) != CommandId(sidecarName, false)
  {
    assert CommandId(manifestName, true)[15] == 'n';
    assert CommandId(sidecarName, false)[15] == 'f';
  }

  /** For names without spaces the id determines the name, within one source. */
  lemma IdDeterminesName(n1: string, n2: string, isNpm: bool)
    requires ' ' !in n1 && ' ' !in n2
    ensures CommandId(n1, isNpm) == CommandId(n2, isNpm) <==> n1 == n2
  {
    RemoveFirstSpaceSpec(n1);
    RemoveFirstSpaceSpec(n2);
    assert FirstSpace(n1) == |n1| && FirstSpace(n2) == |n2|;
    var p := Namespace + IdTag(isNpm);
    if CommandId(n1, isNpm) == CommandId(n2, isNpm) {
      assert n1 == CommandId(n1, isNpm)[|p|..];
      assert n2 == CommandId(n2, isNpm)[|p|..];
    }
  }

  /** Removing the first space from `a b`, where `a` has no space, joins `a` and `b`. */
  lemma {:induction false} RemoveSpaceJoins(a: string, b: string)
    requires forall j :: 0 <= j < |a| ==> a[j] != ' '
    ensures RemoveFirstSpace(a + " " + b) == a + b
  {
    if a != [] {
      RemoveSpaceJoins(a[1..], b);
      assert (a + " " + b)[1..] == a[1..] + " " + b;
    }
  }

  lemma {:induction false} RemoveNoSpace(a: string)
    requires forall j :: 0 <= j < |a| ==> a[j] != ' '
    ensures RemoveFirstSpace(a) == a
  {
    if a != [] {
      RemoveNoSpace(a[1..]);
    }
  }

  /**
   * The first space of a name does not reach its id, so `unit test` and
   * `unittest` share `script-buttons.npm-unittest` and the later
   * registration replaces the earlier.
   */
  lemma IdIgnoresFirstSpace(a: string, b: string, isNpm: bool)
    requires forall j :: 0 <= j < |a| ==> a[j] != ' '
    requires forall j :: 0 <= j < |b| ==> b[j] != ' '
    ensures CommandId(a + " " + b, isNpm) == CommandId(a + b, isNpm) == Namespace + IdTag(isNpm) + a + b
  {
    RemoveSpaceJoins(a, b);
    RemoveNoSpace(a + b);
  }

  /** A name with a second space keeps that space in its id. */
  lemma IdKeepsLaterSpaces(name: string, isNpm: bool, i: nat, j: nat)
    requires i < j < |name| && name[i] == ' ' && name[j] == ' '
    ensures ' ' in CommandId(name, isNpm)
  {
    var r := RemoveFirstSpace(name);
    assert |r| == |name| - 1 && r[j - 1] == ' ' by {
      RemoveFirstSpaceSpec(name);
      var k := FirstSpace(name);
      assert k <= i;
      assert r == name[..k] + name[k + 1..];
    }
    var p := Namespace + IdTag(isNpm);
    assert CommandId(name, isNpm) == p + r;
    assert (p + r)[|p| + j - 1] == ' ';
  }

  /**
   * A manifest script named `install` is bound to the install command's id:
   * the two registrations collide (`name` is passed as a parameter so that the
   * literal is unfolded once).
   */
  lemma InstallScriptSharesInstallId(name: string)
    requires name == "install"
    ensures CommandId(name, true) == InstallId
  {
    RemoveNoSpace(name);
  }

  /** The managers whose scripts are started with `<pm> run <name>`. */
  predicate RunsWithRun(pm: string) {
    pm == "npm" || pm == "pnpm" || pm == "bun"
  }

  /** A manager src/extension.ts knows how to rewrite scripts for. */
  predicate KnownManager(pm: string) {
    RunsWithRun(pm) || pm == "yarn"
  }

  /** The text sent to the terminal (and shown as tooltip) for a script. */
  function ShellText(pm: string, isNpm: bool, s: Script): (r: string)
    ensures isNpm && KnownManager(pm) ==> r == pm + (if pm == "yarn" then " " else " run ") + s.name
    ensures !(isNpm && KnownManager(pm)) ==> r == s.command
  {
    if isNpm && RunsWithRun(pm) then pm + " run " + s.name
    else if isNpm && pm == "yarn" then "yarn " + s.name
    else s.command
  }

  /** With a known manager a manifest script's text ignores its own command and names it. */
  lemma ShellTextNamesScript(pm: string, s1: Script, s2: Script)
    requires KnownManager(pm)
    ensures ShellText(pm, true, s1) == ShellText(pm, true, s2) <==> s1.name == s2.name
  {
    var p := pm + (if pm == "yarn" then " " else " run ");
    if ShellText(pm, true, s1) == ShellText(pm, true, s2) {
      assert s1.name == ShellText(pm, true, s1)[|p|..];
      assert s2.name == ShellText(pm, true, s2)[|p|..];
    }
  }

  /** The shell text of the install command; the yarn branch gives the same text. */
  function InstallCommand(pm: string): (r: string)
    ensures r == pm + " install"
  {
    if pm == "yarn" then "yarn install" else pm + " install"
  }

  /** `toUpperCase` on one character, for the ASCII letters. */
  function UpperAscii(c: char): (r: char)
    ensures 'a' <= c <= 'z' ==> 'A' <= r <= 'Z' && r as int == c as int - 32
    ensures !('a' <= c <= 'z') ==> r == c
  {
    if 'a' <= c <= 'z' then (c as int - 32) as char else c
  }

  /** `pm.charAt(0).toUpperCase() + pm.slice(1)` followed by ` Install`. */
  function InstallLabel(pm: string): (r: string)
    ensures |r| == |pm| + 8
    ensures pm != [] ==> r[0] == UpperAscii(pm[0])
    ensures forall i :: 1 <= i < |pm| ==> r[i] == pm[i]
    ensures r[|pm|..] == " Install"
  {
    (if pm == [] then [] else [UpperAscii(pm[0])] + pm[1..]) + " Install"
  }

  lemma InstallLabels()
    ensures InstallLabel("npm") == "Npm Install"
    ensures InstallLabel("yarn") == "Yarn Install"
  {
  }

  /** `config.get('packageManager') || 'npm'`: an unset or empty setting falls back to npm. */
  function EffectivePm(setting: Option<string>): (r: string)
    ensures r != []
    ensures setting.Some? && setting.value != [] ==> r == setting.value
    ensures setting.None? || setting.value == [] ==> r == "npm"
  {
    if setting.Some? && setting.value != [] then setting.value else "npm"
  }
}
