/** The indentation-aware debug log (`DebugLog`), its scope guard
    (`DebugLogScopedPush`) and the command-line exception handler of
    NmPackage/debug.py. The same logger is copied into NmPackage/__init__.py and
    conan_vs_integration/__init__.py; the copies differ only in whether `enabled`
    starts out true, which is what the three constructors of `DebugLog` capture.

    Python keeps the logger's state in class attributes, shared by the whole
    process; here that state lives in one `DebugLog` object that the callers
    share. Standard output is the sequence of lines `print` has written. */
module DebugLogs {
  import opened Wrappers
  import opened Strings

  /** What `print` puts before a message once per indentation level. */
  const IndentUnit := "|  "

  /** `"|  " * lvl`: no indentation at all for a level of zero or below. */
  function Indentation(lvl: int): (r: string)
    ensures |r| == if lvl <= 0 then 0 else 3 * lvl
    decreases lvl
  {
    if lvl <= 0 then "" else IndentUnit + Indentation(lvl - 1)
  }

  /** Level `lvl`'s indentation is `lvl` copies of the unit, one after another. */
  lemma {:induction false} IndentationUnits(lvl: nat)
    ensures forall k :: 0 <= k < lvl ==> Indentation(lvl)[3 * k..3 * k + 3] == IndentUnit
    decreases lvl
  {
    if lvl > 0 {
      IndentationUnits(lvl - 1);
      var r := Indentation(lvl);
      assert r == IndentUnit + Indentation(lvl - 1);
      forall k | 0 <= k < lvl
        ensures r[3 * k..3 * k + 3] == IndentUnit
      {
        if k > 0 {
          assert r[3 * k..3 * k + 3] == Indentation(lvl - 1)[3 * (k - 1)..3 * (k - 1) + 3];
        }
      }
    }
  }

  /** The line `print(msg)` writes at level `lvl`. */
  function Line(lvl: int, msg: string): (r: string)
    ensures StartsWith(r, Indentation(lvl)) && EndsWith(r, msg)
    ensures |r| == |Indentation(lvl)| + |msg|
  {
    var r := Indentation(lvl) + msg;
    assert r[..|Indentation(lvl)|] == Indentation(lvl);
    assert r[|r| - |msg|..] == msg;
    r
  }

  /** The lines one `print(msg)` adds to standard output: none unless enabled. */
  function Emitted(enabled: bool, lvl: int, msg: string): seq<string> {
    if enabled then [Line(lvl, msg)] else []
  }

  /** `pop`'s new level: one less, but never below zero. */
  function Popped(lvl: int): (r: int)
    ensures r >= 0
    ensures lvl >= 1 ==> r == lvl - 1
    ensures lvl < 1 ==> r == 0
  {
    var newLvl := lvl - 1;
    if newLvl < 0 then 0 else newLvl
  }

  /** One call on the logger. */
  datatype Op = PushOp | PopOp | PrintOp(msg: string)

  function Step(lvl: int, op: Op): int {
    match op
    case PushOp => lvl + 1
    case PopOp => Popped(lvl)
    case PrintOp(_) => lvl
  }

  /** The level after the calls `ops`, starting from `lvl`. */
  function LevelAfter(lvl: int, ops: seq<Op>): int
    decreases |ops|
  {
    if ops == [] then lvl else LevelAfter(Step(lvl, ops[0]), ops[1..])
  }

  /** The lines the calls `ops` write, starting from `lvl`. */
  function Trace(enabled: bool, lvl: int, ops: seq<Op>): seq<string>
    decreases |ops|
  {
    if ops == [] then []
    else
      (if ops[0].PrintOp? then Emitted(enabled, lvl, ops[0].msg) else [])
      + Trace(enabled, Step(lvl, ops[0]), ops[1..])
  }

  /** Pushes minus pops: the level change when no `pop` is clamped. */
  function Net(ops: seq<Op>): int
    decreases |ops|
  {
    if ops == [] then 0
    else (match ops[0] case PushOp => 1 case PopOp => -1 case PrintOp(_) => 0) + Net(ops[1..])
  }

  lemma NetPrefix(ops: seq<Op>, k: nat)
    requires 0 < k <= |ops|
    ensures Net(ops[..k]) == Net([ops[0]]) + Net(ops[1..][..k - 1])
  {
    assert ops[..k][1..] == ops[1..][..k - 1];
    assert [ops[0]][1..] == [];
  }

  /** From a level of zero or more the level stays zero or more, whatever the calls. */
  lemma {:induction false} LevelNeverNegative(lvl: int, ops: seq<Op>)
    requires lvl >= 0
    ensures LevelAfter(lvl, ops) >= 0
    decreases |ops|
  {
    if ops != [] {
      LevelNeverNegative(Step(lvl, ops[0]), ops[1..]);
    }
  }

  /** When no prefix of the calls would take the level below zero, no `pop` is
      clamped and the level moves by exactly pushes minus pops. */
  lemma {:induction false} LevelAfterUnclamped(lvl: int, ops: seq<Op>)
    requires forall k :: 0 <= k <= |ops| ==> lvl + Net(ops[..k]) >= 0
    ensures LevelAfter(lvl, ops) == lvl + Net(ops)
    decreases |ops|
  {
    if ops != [] {
      assert ops[..|ops|] == ops;
      assert lvl + Net(ops[..1]) >= 0;
      NetPrefix(ops, 1);
      assert ops[1..][..0] == [];
      var next := Step(lvl, ops[0]);
      assert next == lvl + Net([ops[0]]);
      forall k | 0 <= k <= |ops[1..]|
        ensures next + Net(ops[1..][..k]) >= 0
      {
        assert lvl + Net(ops[..k + 1]) >= 0;
        NetPrefix(ops, k + 1);
      }
      NetPrefix(ops, |ops|);
      assert ops[1..][..|ops| - 1] == ops[1..];
      LevelAfterUnclamped(next, ops[1..]);
    }
  }

  /** A disabled logger writes nothing. */
  lemma {:induction false} DisabledIsSilent(lvl: int, ops: seq<Op>)
    ensures Trace(false, lvl, ops) == []
    decreases |ops|
  {
    if ops != [] {
      DisabledIsSilent(Step(lvl, ops[0]), ops[1..]);
    }
  }

  /** `print` never changes the level. */
  lemma {:induction false} PrintsKeepLevel(lvl: int, ops: seq<Op>)
    requires forall i :: 0 <= i < |ops| ==> ops[i].PrintOp?
    ensures LevelAfter(lvl, ops) == lvl
    decreases |ops|
  {
    if ops != [] {
      PrintsKeepLevel(lvl, ops[1..]);
    }
  }

  /** Calls that never pop more than they have pushed, and end even, leave a scope
      at the level it was entered with: `__exit__`'s `assert` holds. */
  lemma BalancedScopeRestores(lvl: int, body: seq<Op>)
    requires lvl >= 0
    requires forall k :: 0 <= k <= |body| ==> Net(body[..k]) >= 0
    requires Net(body) == 0
    ensures Popped(LevelAfter(lvl + 1, body)) == lvl
  {
    LevelAfterUnclamped(lvl + 1, body);
  }

  /** The logger. `indentLvl` and `enabled` are the class attributes of the same
      names; `output` is what `print` has written to standard output. */
  class DebugLog {
    var indentLvl: int
    var enabled: bool
    var output: seq<string>

    /** The level is never negative. */
    predicate Valid()
      reads this
    {
      indentLvl >= 0
    }

    /** The logger of NmPackage/debug.py: enabled until the command line says otherwise. */
    constructor ForDebugModule()
      ensures Valid() && indentLvl == 0 && enabled && output == []
    {
      indentLvl := 0;
      enabled := true;
      output := [];
    }

    /** The copy in NmPackage/__init__.py: silent until enabled. */
    constructor ForPackageModule()
      ensures Valid() && indentLvl == 0 && !enabled && output == []
    {
      indentLvl := 0;
      enabled := false;
      output := [];
    }

    /** The copy in conan_vs_integration/__init__.py: silent until enabled. */
    constructor ForConanModule()
      ensures Valid() && indentLvl == 0 && !enabled && output == []
    {
      indentLvl := 0;
      enabled := false;
      output := [];
    }

    /** `DebugLog.enabled = on`, as the command-line front ends do. */
    method SetEnabled(on: bool)
      modifies this
      ensures enabled == on && indentLvl == old(indentLvl) && output == old(output)
    {
      enabled := on;
    }

    /** `DebugLog.print(msg)` */
    method Print(msg: string)
      modifies this
      ensures indentLvl == old(indentLvl) && enabled == old(enabled)
      ensures output == old(output) + Emitted(enabled, indentLvl, msg)
    {
      if enabled {
        output := output + [Indentation(indentLvl) + msg];
      }
    }

    /** `DebugLog.push()`: one level deeper; returns the new level. */
    method Push() returns (lvl: int)
      modifies this
      ensures indentLvl == old(indentLvl) + 1 && lvl == indentLvl
      ensures enabled == old(enabled) && output == old(output)
      ensures old(Valid()) ==> Valid()
    {
      indentLvl := indentLvl + 1;
      lvl := indentLvl;
    }

    /** `DebugLog.pop()`: one level up, clamped at zero; returns the new level. */
    method Pop() returns (lvl: int)
      modifies this
      ensures indentLvl == Popped(old(indentLvl)) && lvl == indentLvl
      ensures enabled == old(enabled) && output == old(output)
      ensures Valid()
    {
      var newIndentLvl := indentLvl - 1;
      if newIndentLvl < 0 {
        newIndentLvl := 0;
      }
      indentLvl := newIndentLvl;
      lvl := indentLvl;
    }

    /** One call on the logger. */
    method Apply(op: Op)
      modifies this
      ensures indentLvl == Step(old(indentLvl), op) && enabled == old(enabled)
      ensures output == old(output) + (if op.PrintOp? then Emitted(enabled, old(indentLvl), op.msg) else [])
    {
      match op {
        case PushOp =>
          var _ := Push();
        case PopOp =>
          var _ := Pop();
        case PrintOp(msg) =>
          Print(msg);
      }
    }

    /** The calls `ops`, one after another. */
    method Run(ops: seq<Op>)
      modifies this
      ensures indentLvl == LevelAfter(old(indentLvl), ops)
      ensures enabled == old(enabled)
      ensures output == old(output) + Trace(enabled, old(indentLvl), ops)
    {
      var i := 0;
      while i < |ops|
        invariant 0 <= i <= |ops| && enabled == old(enabled)
        invariant LevelAfter(old(indentLvl), ops) == LevelAfter(indentLvl, ops[i..])
        invariant old(output) + Trace(enabled, old(indentLvl), ops) == output + Trace(enabled, indentLvl, ops[i..])
      {
        assert ops[i..][1..] == ops[i + 1..];
        Apply(ops[i]);
        i := i + 1;
      }
    }
  }

  /** `DebugLogScopedPush(msg)`: a `with` guard that prints `msg` (when given) at
      the current level and pushes on entry, pops on exit, and asserts that the
      level is back where it was. */
  class ScopedPush {
    const log: DebugLog
    const msg: Option<string>
    var originalIndentLvl: int

    constructor (log: DebugLog, msg: Option<string>)
      ensures this.log == log && this.msg == msg
    {
      this.log := log;
      this.msg := msg;
    }

    /** `__enter__` */
    method Enter()
      modifies this, log
      ensures originalIndentLvl == old(log.indentLvl)
      ensures log.indentLvl == old(log.indentLvl) + 1 && log.enabled == old(log.enabled)
      ensures log.output == old(log.output) + (if msg.Some? then Emitted(log.enabled, old(log.indentLvl), msg.value) else [])
    {
      if msg.Some? {
        log.Print(msg.value);
      }
      originalIndentLvl := log.indentLvl;
      var _ := log.Push();
    }

    /** `__exit__`: `ok` is false where the closing `assert` fails. */
    method Exit() returns (ok: bool)
      modifies log
      ensures log.indentLvl == Popped(old(log.indentLvl))
      ensures log.enabled == old(log.enabled) && log.output == old(log.output)
      ensures ok <==> log.indentLvl == originalIndentLvl
    {
      var _ := log.Pop();
      ok := log.indentLvl == originalIndentLvl;
    }
  }

  /** `with DebugLogScopedPush(msg): <body>` */
  method WithScope(log: DebugLog, msg: Option<string>, body: seq<Op>) returns (ok: bool)
    modifies log
    ensures log.indentLvl == Popped(LevelAfter(old(log.indentLvl) + 1, body))
    ensures ok <==> log.indentLvl == old(log.indentLvl)
    ensures log.enabled == old(log.enabled)
    ensures log.output == old(log.output)
      + (if msg.Some? then Emitted(log.enabled, old(log.indentLvl), msg.value) else [])
      + Trace(log.enabled, old(log.indentLvl) + 1, body)
  {
    var scope := new ScopedPush(log, msg);
    scope.Enter();
    log.Run(body);
    ok := scope.Exit();
  }

  /** The first line `exception_handler` writes to standard error. */
  function ErrorLine(typeName: string, message: string): (r: string)
    ensures StartsWith(r, "Error: ") && EndsWith(r, "\n")
    ensures |r| == 11 + |typeName| + |message|
    ensures r[7..|r| - 1] == typeName + " : " + message
  {
    var r := "Error: " + typeName + " : " + message + "\n";
    assert r[..7] == "Error: ";
    r
  }

  /** What `exception_handler` writes to standard error: the error line, then the
      traceback only when the logger is enabled. */
  function ExceptionReport(log: DebugLog, typeName: string, message: string, traceback: string): (r: string)
    reads log
    ensures StartsWith(r, ErrorLine(typeName, message))
    ensures log.enabled ==> r == ErrorLine(typeName, message) + traceback
    ensures !log.enabled ==> r == ErrorLine(typeName, message)
  {
    var r := ErrorLine(typeName, message) + (if log.enabled then traceback else "");
    assert r[..|ErrorLine(typeName, message)|] == ErrorLine(typeName, message);
    r
  }
}
