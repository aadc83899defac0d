/** Flat conditionals mean nested conditionals (src/script.cpp). */
module Conditionals {
  import opened Common
  import opened ScriptCode
  import opened ScriptMachine

  // ----- the evaluation loop, with its flat stack of conditions -----

  datatype Flat = Flat(m: Machine, vfExec: seq<bool>)

  predicate AllTrue(vfExec: seq<bool>) {
    forall k :: 0 <= k < |vfExec| ==> vfExec[k]
  }

  function FlatEffect(c: Crypto, i: Instr, m: Machine, vfExec: seq<bool>): Outcome<Flat> {
    if i.opcode == OP_IF || i.opcode == OP_NOTIF then
      var t :- Test(i.opcode, AllTrue(vfExec), m);
      Ok(Flat(t.0, vfExec + [t.1]))
    else if i.opcode == OP_ELSE then
      if vfExec == [] then Rejected else Ok(Flat(m, vfExec[|vfExec| - 1 := !vfExec[|vfExec| - 1]]))
    else if i.opcode == OP_ENDIF then
      if vfExec == [] then Rejected else Ok(Flat(m, vfExec[..|vfExec| - 1]))
    else
      var n :- Plain(c, i, m, AllTrue(vfExec));
      Ok(Flat(n, vfExec))
  }

  /** Any other instruction; OP_VERIF and OP_VERNOTIF lie between OP_IF and OP_ENDIF and so are
      refused even when nothing is executed. */
  function Plain(c: Crypto, i: Instr, m: Machine, fExec: bool): Outcome<Machine> {
    if fExec then Execute(c, i, m)
    else if i.opcode == OP_VERIF || i.opcode == OP_VERNOTIF then Rejected
    else Ok(m)
  }

  /** One round of the loop of EvalScript. */
  function FlatStep(c: Crypto, i: Instr, m: Machine, vfExec: seq<bool>): Outcome<Flat> {
    var counted :- Count(i, m);
    var f :- FlatEffect(c, i, counted, vfExec);
    var limited :- Limit(f.m);
    Ok(f)
  }

  /** The loop over the instructions that remain; at the end no condition may be open. */
  function Run(c: Crypto, code: seq<Instr>, m: Machine, vfExec: seq<bool>): Outcome<Machine>
    decreases |code|
  {
    if code == [] then
      if vfExec == [] then Ok(m) else Rejected
    else
      var f :- FlatStep(c, code[0], m, vfExec);
      Run(c, code[1..], f.m, f.vfExec)
  }

  // ----- nested conditionals -----

  datatype Tree = End | Do(i: Instr, rest: Tree) | If(open: Instr, body: Branches, rest: Tree)

  /** The branches of one conditional: further ones start at each ELSE. */
  datatype Branches = Last(t: Tree, close: Instr) | More(t: Tree, els: Instr, rest: Branches)

  function Flatten(t: Tree): seq<Instr> {
    match t
    case End => []
    case Do(i, rest) => [i] + Flatten(rest)
    case If(open, body, rest) => [open] + FlattenBranches(body) + Flatten(rest)
  }

  function FlattenBranches(b: Branches): seq<Instr> {
    match b
    case Last(t, close) => Flatten(t) + [close]
    case More(t, els, rest) => Flatten(t) + [els] + FlattenBranches(rest)
  }

  function Marker(i: Instr, m: Machine): Outcome<Machine> {
    var n :- Count(i, m);
    Limit(n)
  }

  /** The recursive interpreter: a conditional runs every other of its branches, starting with
      the first when the test holds; where nothing is executed, instructions are only counted. */
  function RunTree(c: Crypto, t: Tree, m: Machine, exec: bool): Outcome<Machine> {
    match t
    case End => Ok(m)
    case Do(i, rest) =>
      var counted :- Count(i, m);
      var n :- Plain(c, i, counted, exec);
      var limited :- Limit(n);
      RunTree(c, rest, limited, exec)
    case If(open, body, rest) =>
      var counted :- Count(open, m);
      var test :- Test(open.opcode, exec, counted);
      var limited :- Limit(test.0);
      var n :- RunBranches(c, body, limited, exec, test.1);
      RunTree(c, rest, n, exec)
  }

  function RunBranches(c: Crypto, b: Branches, m: Machine, exec: bool, chosen: bool): Outcome<Machine> {
    match b
    case Last(t, close) =>
      var n :- RunTree(c, t, m, exec && chosen);
      Marker(close, n)
    case More(t, els, rest) =>
      var n :- RunTree(c, t, m, exec && chosen);
      var counted :- Marker(els, n);
      RunBranches(c, rest, counted, exec, !chosen)
  }

  // ----- parsing -----

  datatype Parsed<T> = Unclosed | Parsed(t: T, rest: seq<Instr>)

  predicate Closes(i: Instr) {
    i.opcode == OP_ELSE || i.opcode == OP_ENDIF
  }

  /** Reads instructions up to an ELSE or ENDIF that belongs to an enclosing conditional. */
  function ParseTree(code: seq<Instr>): (r: Parsed<Tree>)
    ensures r.Parsed? ==> |r.rest| <= |code| && (r.rest != [] ==> Closes(r.rest[0]))
    decreases |code|, 0
  {
    if code == [] || Closes(code[0]) then Parsed(End, code)
    else if code[0].opcode == OP_IF || code[0].opcode == OP_NOTIF then
      match ParseBranches(code[1..])
      case Unclosed => Unclosed
      case Parsed(body, more) =>
        match ParseTree(more)
        case Unclosed => Unclosed
        case Parsed(t, rest) => Parsed(If(code[0], body, t), rest)
    else
      match ParseTree(code[1..])
      case Unclosed => Unclosed
      case Parsed(t, rest) =>
        Parsed(Do(code[0], t), rest)
  }

  function ParseBranches(code: seq<Instr>): (r: Parsed<Branches>)
    ensures r.Parsed? ==> |r.rest| < |code|
    decreases |code|, 1
  {
    match ParseTree(code)
    case Unclosed => Unclosed
    case Parsed(t, more) =>
      if more == [] then Unclosed
      else if more[0].opcode == OP_ENDIF then Parsed(Last(t, more[0]), more[1..])
      else
        match ParseBranches(more[1..])
        case Unclosed => Unclosed
        case Parsed(b, rest) => Parsed(More(t, more[0], b), rest)
  }

  lemma Regroup(a: seq<Instr>, b: seq<Instr>, c: seq<Instr>, d: seq<Instr>)
    ensures a + (b + (c + d)) == (a + b + c) + d
    ensures a + (b + c) == (a + b) + c
  {
  }

  /** Parsing only groups the instructions. */
  lemma {:induction false} ParseKeepsCode(code: seq<Instr>)
    ensures ParseTree(code).Parsed? ==> code == Flatten(ParseTree(code).t) + ParseTree(code).rest
    decreases |code|, 0
  {
    hide FlattenBranches, ParseBranches;
    if code != [] && !Closes(code[0]) {
      assert code == [code[0]] + code[1..];
      if code[0].opcode == OP_IF || code[0].opcode == OP_NOTIF {
        ParseBranchesKeepsCode(code[1..]);
        var body := ParseBranches(code[1..]);
        if body.Parsed? {
          ParseKeepsCode(body.rest);
          var after := ParseTree(body.rest);
          if after.Parsed? {
            Regroup([code[0]], FlattenBranches(body.t), Flatten(after.t), after.rest);
          }
        }
      } else {
        ParseKeepsCode(code[1..]);
        var after := ParseTree(code[1..]);
        if after.Parsed? {
          Regroup([code[0]], Flatten(after.t), after.rest, []);
        }
      }
    }
  }

  lemma {:induction false} ParseBranchesKeepsCode(code: seq<Instr>)
    ensures ParseBranches(code).Parsed? ==> code == FlattenBranches(ParseBranches(code).t) + ParseBranches(code).rest
    decreases |code|, 1
  {
    hide Flatten, ParseTree;
    ParseKeepsCode(code);
    var first := ParseTree(code);
    if first.Parsed? && first.rest != [] {
      assert first.rest == [first.rest[0]] + first.rest[1..];
      Regroup(Flatten(first.t), [first.rest[0]], first.rest[1..], []);
      if first.rest[0].opcode == OP_ELSE {
        ParseBranchesKeepsCode(first.rest[1..]);
        var others := ParseBranches(first.rest[1..]);
        if others.Parsed? {
          Regroup(Flatten(first.t), [first.rest[0]], FlattenBranches(others.t), others.rest);
        }
      }
    }
  }

  // ----- the two interpreters agree -----

  /** Parse the whole script, then run the tree; what is left over is an unbalanced ELSE or
      ENDIF. */
  function NestedRun(c: Crypto, code: seq<Instr>, m: Machine): Outcome<Machine> {
    match ParseTree(code)
    case Unclosed => Rejected
    case Parsed(t, rest) => if rest == [] then RunTree(c, t, m, true) else Rejected
  }

  lemma AllTrueLonger(vfExec: seq<bool>, v: bool)
    ensures AllTrue(vfExec + [v]) == (AllTrue(vfExec) && v)
  {
    if AllTrue(vfExec + [v]) {
      assert (vfExec + [v])[|vfExec|];
      assert forall k :: 0 <= k < |vfExec| ==> (vfExec + [v])[k] == vfExec[k];
    }
  }

  /** Continuing the flat run once the nested run of the first part is done. */
  function Then(c: Crypto, r: Outcome<Machine>, rest: seq<Instr>, vfExec: seq<bool>): Outcome<Machine> {
    var m :- r;
    Run(c, rest, m, vfExec)
  }

  lemma {:induction false} TreeIsFlat(c: Crypto, code: seq<Instr>, m: Machine, vfExec: seq<bool>)
    ensures match ParseTree(code)
            case Unclosed => Run(c, code, m, vfExec).Rejected?
            case Parsed(t, rest) => Run(c, code, m, vfExec) == Then(c, RunTree(c, t, m, AllTrue(vfExec)), rest, vfExec)
    decreases |code|, 0
  {
    hide Execute, Count, Test, AllTrue;
    if code == [] || Closes(code[0]) {
    } else {
      var step := FlatStep(c, code[0], m, vfExec);
      if code[0].opcode == OP_IF || code[0].opcode == OP_NOTIF {
        if step.Ok? {
          var v := step.value.vfExec[|vfExec|];
          assert step.value.vfExec == vfExec + [v];
          BranchesAreFlat(c, code[1..], step.value.m, vfExec, v);
        }
        var body := ParseBranches(code[1..]);
        if body.Parsed? && step.Ok? {
          var n := RunBranches(c, body.t, step.value.m, AllTrue(vfExec), step.value.vfExec[|vfExec|]);
          assert Run(c, code, m, vfExec) == Then(c, n, body.rest, vfExec);
          TreeIsFlat(c, body.rest, if n.Ok? then n.value else m, vfExec);
          var after := ParseTree(body.rest);
          if after.Parsed? {
            assert ParseTree(code) == Parsed(If(code[0], body.t, after.t), after.rest);
            assert RunTree(c, If(code[0], body.t, after.t), m, AllTrue(vfExec))
                     == if n.Ok? then RunTree(c, after.t, n.value, AllTrue(vfExec)) else Rejected;
          }
        }
      } else if step.Ok? {
        TreeIsFlat(c, code[1..], step.value.m, vfExec);
      }
    }
  }

  lemma {:induction false} BranchesAreFlat(c: Crypto, code: seq<Instr>, m: Machine, vfExec: seq<bool>, v: bool)
    ensures match ParseBranches(code)
            case Unclosed => Run(c, code, m, vfExec + [v]).Rejected?
            case Parsed(b, rest) =>
              Run(c, code, m, vfExec + [v]) == Then(c, RunBranches(c, b, m, AllTrue(vfExec), v), rest, vfExec)
    decreases |code|, 1
  {
    hide Execute, Count, Test, AllTrue;
    TreeIsFlat(c, code, m, vfExec + [v]);
    AllTrueLonger(vfExec, v);
    var first := ParseTree(code);
    if first.Parsed? && first.rest != [] {
      var more := first.rest;
      var n := RunTree(c, first.t, m, AllTrue(vfExec) && v);
      if n.Ok? {
        assert (vfExec + [v])[|vfExec| := !v] == vfExec + [!v] && (vfExec + [v])[..|vfExec|] == vfExec;
        var step := FlatStep(c, more[0], n.value, vfExec + [v]);
        if more[0].opcode == OP_ELSE {
          if step.Ok? {
            BranchesAreFlat(c, more[1..], step.value.m, vfExec, !v);
            assert Marker(more[0], n.value) == Ok(step.value.m);
          }
          var others := ParseBranches(more[1..]);
          if others.Parsed? {
            assert ParseBranches(code) == Parsed(More(first.t, more[0], others.t), others.rest);
          }
        }
      }
    }
  }

  /** The loop accepts exactly the balanced scripts that the recursive interpreter accepts, with
      the same result; an unbalanced script always fails. */
  lemma FlatIsNested(c: Crypto, code: seq<Instr>, m: Machine)
    ensures Run(c, code, m, []) == NestedRun(c, code, m)
  {
    hide Execute, Count, Limit, Test, RunTree, ParseTree;
    TreeIsFlat(c, code, m, []);
  }

  /** Skipped code leaves both stacks, the signed code and the signature checks alone. */
  lemma {:induction false} SkippedLeavesStacks(c: Crypto, t: Tree, m: Machine)
    requires RunTree(c, t, m, false).Ok?
    ensures RunTree(c, t, m, false).value.(nOpCount := m.nOpCount) == m
    decreases t, 0
  {
    hide Execute;
    match t {
      case End =>
      case Do(i, rest) =>
        SkippedLeavesStacks(c, rest, Count(i, m).value);
      case If(open, body, rest) =>
        var n := Count(open, m).value;
        SkippedBranches(c, body, n, false);
        SkippedLeavesStacks(c, rest, RunBranches(c, body, n, false, false).value);
    }
  }

  lemma {:induction false} SkippedBranches(c: Crypto, b: Branches, m: Machine, chosen: bool)
    requires RunBranches(c, b, m, false, chosen).Ok?
    ensures RunBranches(c, b, m, false, chosen).value.(nOpCount := m.nOpCount) == m
    decreases b, 1
  {
    hide Execute;
    SkippedLeavesStacks(c, b.t, m);
    if b.More? {
      var n := Marker(b.els, RunTree(c, b.t, m, false).value).value;
      SkippedBranches(c, b.rest, n, !chosen);
    }
  }
}
