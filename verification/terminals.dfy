/**
 * The terminal table kept by the command handlers: at most one terminal per
 * command id; invoking a command disposes the id's old terminal, opens a new
 * one named after the script in the workspace folder and sends it the
 * script's shell text.
 */
module Terminals {
  import opened Wrappers
  import opened Commands

  /** A terminal handle; `serial` tells apart the terminals the editor created, in creation order. */
  datatype Terminal = Terminal(serial: nat, name: string, cwd: Option<string>)

  /**
   * `open` is the `terminals` dictionary; `created` counts the terminals made
   * so far, `disposed` lists those disposed and `sent` each text sent, in order.
   */
  datatype TerminalTable = TerminalTable(open: map<string, Terminal>, created: nat, disposed: seq<Terminal>, sent: seq<(Terminal, string)>)

  const Empty: TerminalTable := TerminalTable(map[], 0, [], [])

  /** The handler registered for binding `b`, run once. */
  function Invoke(t: TerminalTable, b: Binding, cwd: Option<string>): TerminalTable {
    var previous := if b.id in t.open then [t.open[b.id]] else [];
    var next := Terminal(t.created, b.name, cwd);
    TerminalTable(t.open[b.id := next], t.created + 1, t.disposed + previous, t.sent + [(next, b.shell)])
  }

  /** Forgetting a key and then binding it again is the same as rebinding it. */
  lemma ReplaceAfterRemove<K, V>(m: map<K, V>, k: K, v: V)
    ensures (m - {k})[k := v] == m[k := v]
  {
  }

  /** Each open terminal was created, and no two command ids share one. */
  ghost predicate OpenDistinct(t: TerminalTable) {
    && (forall k :: k in t.open ==> t.open[k].serial < t.created)
    && (forall k1, k2 :: k1 in t.open && k2 in t.open && k1 != k2 ==> t.open[k1].serial != t.open[k2].serial)
  }

  /** Each disposed terminal was created and was disposed once. */
  ghost predicate DisposedDistinct(t: TerminalTable) {
    && (forall i :: 0 <= i < |t.disposed| ==> t.disposed[i].serial < t.created)
    && (forall i, j :: 0 <= i < j < |t.disposed| ==> t.disposed[i].serial != t.disposed[j].serial)
  }

  /** No disposed terminal is still open. */
  ghost predicate DisposedClosed(t: TerminalTable) {
    forall i, k :: 0 <= i < |t.disposed| && k in t.open ==> t.disposed[i].serial != t.open[k].serial
  }

  /**
   * Every terminal ever created is accounted for exactly once: either it is
   * the open terminal of one command id, or it has been disposed once.
   */
  ghost predicate Valid(t: TerminalTable) {
    && OpenDistinct(t)
    && DisposedDistinct(t)
    && DisposedClosed(t)
    && |t.open| + |t.disposed| == t.created
  }

  lemma EmptyValid()
    ensures Valid(Empty)
  {
  }

  /**
   * One invocation: the id's previous terminal, if any, is disposed; the id
   * now holds a new terminal named after the script, which receives the
   * shell text; every other id keeps its terminal.
   */
  lemma InvokeEffect(t: TerminalTable, b: Binding, cwd: Option<string>)
    requires Valid(t)
    ensures var t' := Invoke(t, b, cwd);
      && t'.open.Keys == t.open.Keys + {b.id}
      && t'.open[b.id].name == b.name && t'.open[b.id].cwd == cwd
      && (forall k :: k in t.open ==> t'.open[b.id].serial != t.open[k].serial)
      && (forall k :: k != b.id && k in t.open ==> t'.open[k] == t.open[k])
      && t'.disposed == t.disposed + (if b.id in t.open then [t.open[b.id]] else [])
      && t'.sent == t.sent + [(t'.open[b.id], b.shell)]
  {
  }

  lemma InvokeOpenDistinct(t: TerminalTable, b: Binding, cwd: Option<string>)
    requires OpenDistinct(t)
    ensures OpenDistinct(Invoke(t, b, cwd))
  {
    var t' := Invoke(t, b, cwd);
    forall k | k in t'.open ensures t'.open[k].serial < t'.created {
      if k != b.id { assert t'.open[k] == t.open[k]; }
    }
    forall k1, k2 | k1 in t'.open && k2 in t'.open && k1 != k2
      ensures t'.open[k1].serial != t'.open[k2].serial
    {
      if k1 != b.id && k2 != b.id {
        assert t'.open[k1] == t.open[k1] && t'.open[k2] == t.open[k2];
      } else if k1 == b.id {
        assert t'.open[k2] == t.open[k2];
      } else {
        assert t'.open[k1] == t.open[k1];
      }
    }
  }

  lemma InvokeDisposedDistinct(t: TerminalTable, b: Binding, cwd: Option<string>)
    requires OpenDistinct(t) && DisposedDistinct(t) && DisposedClosed(t)
    ensures DisposedDistinct(Invoke(t, b, cwd))
  {
    var t' := Invoke(t, b, cwd);
    forall i, j | 0 <= i < j < |t'.disposed|
      ensures t'.disposed[i].serial != t'.disposed[j].serial
    {
      if j == |t.disposed| {
        assert t'.disposed[j] == t.open[b.id];
        assert t'.disposed[i] == t.disposed[i];
      } else {
        assert t'.disposed[i] == t.disposed[i] && t'.disposed[j] == t.disposed[j];
      }
    }
    forall i | 0 <= i < |t'.disposed| ensures t'.disposed[i].serial < t'.created {
      if i < |t.disposed| { assert t'.disposed[i] == t.disposed[i]; }
    }
  }

  lemma InvokeDisposedClosed(t: TerminalTable, b: Binding, cwd: Option<string>)
    requires OpenDistinct(t) && DisposedDistinct(t) && DisposedClosed(t)
    ensures DisposedClosed(Invoke(t, b, cwd))
  {
    var t' := Invoke(t, b, cwd);
    forall i, k | 0 <= i < |t'.disposed| && k in t'.open
      ensures t'.disposed[i].serial != t'.open[k].serial
    {
      if k != b.id {
        assert t'.open[k] == t.open[k];
        if i == |t.disposed| {
          assert t'.disposed[i] == t.open[b.id];
        } else {
          assert t'.disposed[i] == t.disposed[i];
        }
      } else if i < |t.disposed| {
        assert t'.disposed[i] == t.disposed[i];
      } else {
        assert t'.disposed[i] == t.open[b.id];
      }
    }
  }

  /** Invoking a command keeps every terminal accounted for. */
  lemma InvokeValid(t: TerminalTable, b: Binding, cwd: Option<string>)
    requires Valid(t)
    ensures Valid(Invoke(t, b, cwd))
  {
    var t' := Invoke(t, b, cwd);
    InvokeOpenDistinct(t, b, cwd);
    InvokeDisposedDistinct(t, b, cwd);
    InvokeDisposedClosed(t, b, cwd);
    if b.id in t.open {
      assert t'.open.Keys == t.open.Keys;
      assert |t'.open| == |t'.open.Keys| == |t.open.Keys| == |t.open|;
    } else {
      assert t'.open.Keys == t.open.Keys + {b.id};
      assert |t'.open| == |t'.open.Keys| == |t.open.Keys| + 1;
    }
  }

  /** The same command invoked `n` times in a row. */
  function InvokeTimes(t: TerminalTable, b: Binding, cwd: Option<string>, n: nat): TerminalTable
    decreases n
  {
    if n == 0 then t else InvokeTimes(Invoke(t, b, cwd), b, cwd, n - 1)
  }

  /**
   * Invoking the same command n >= 1 times leaves one open terminal for it,
   * disposes n - 1 terminals (n if it already had one), sends n texts and
   * leaves every other id's terminal alone.
   */
  lemma {:induction false} RepeatedInvoke(t: TerminalTable, b: Binding, cwd: Option<string>, n: nat)
    requires Valid(t) && n >= 1
    ensures var t' := InvokeTimes(t, b, cwd, n);
      && Valid(t')
      && t'.open.Keys == t.open.Keys + {b.id}
      && (forall k :: k in t.open && k != b.id ==> t'.open[k] == t.open[k])
      && |t'.disposed| == |t.disposed| + (if b.id in t.open then n else n - 1)
      && |t'.sent| == |t.sent| + n
      && t'.created == t.created + n
    decreases n
  {
    InvokeValid(t, b, cwd);
    InvokeEffect(t, b, cwd);
    var t1 := Invoke(t, b, cwd);
    if n == 1 {
      assert InvokeTimes(t, b, cwd, n) == t1;
    } else {
      assert InvokeTimes(t, b, cwd, n) == InvokeTimes(t1, b, cwd, n - 1);
      RepeatedInvoke(t1, b, cwd, n - 1);
    }
  }
}
