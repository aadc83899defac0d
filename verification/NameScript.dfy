/** Recognising name operations in output scripts (src/namecoin.cpp). */
module NameScript {
  import opened Common
  import opened ScriptCode

  const OP_NAME_NEW := 1
  const OP_NAME_FIRSTUPDATE := 2
  const OP_NAME_UPDATE := 3

  predicate DropLike(opcode: int) {
    opcode == OP_DROP || opcode == OP_2DROP || opcode == OP_NOP
  }

  /** The only (operation, argument count) pairs a name script may have. */
  predicate ValidArity(op: int, n: int) {
    || (op == OP_NAME_NEW && n == 1)
    || (op == OP_NAME_FIRSTUPDATE && n == 3)
    || (op == OP_NAME_UPDATE && n == 2)
  }

  /** What one DecodeNameScript call does to its by-reference parameters: the operation it
      stores (it does so even when it then fails), the arguments it appends, whether it got
      to the DROP that ends the arguments, and where it leaves the iterator. */
  datatype NameParse = NameParse(op: Option<nat>, args: seq<Bytes>, complete: bool, pc: nat)

  datatype ArgsRead = ArgsRead(args: seq<Bytes>, complete: bool, pc: nat)

  /** The push instructions up to the first DROP, 2DROP or NOP. */
  function ReadArgs(s: Script, pc: nat): (r: ArgsRead)
    requires pc <= |s|
    ensures pc <= r.pc <= |s| && (r.complete ==> pc < r.pc)
    decreases |s| - pc
  {
    match GetOp(s, pc)
    case NoOp(p) => ArgsRead([], false, p)
    case Op(opcode, data, p) =>
      if DropLike(opcode) then ArgsRead([], true, p)
      else if opcode > OP_PUSHDATA4 then ArgsRead([], false, p)
      else var rest := ReadArgs(s, p); ArgsRead([data] + rest.args, rest.complete, rest.pc)
  }

  /** Where the iterator ends up after the run of drops that starts before `pc`. */
  function SkipDrops(s: Script, pc: nat): (r: nat)
    requires 0 < pc <= |s|
    ensures pc - 1 <= r <= |s|
    decreases |s| - pc
  {
    match GetOp(s, pc)
    case NoOp(p) => p - 1
    case Op(opcode, _, p) => if DropLike(opcode) then SkipDrops(s, p) else p - 1
  }

  function ParseNameScript(s: Script): NameParse {
    match GetOp(s, 0)
    case NoOp(p) => NameParse(None, [], false, p)
    case Op(opcode, _, p) =>
      if opcode < OP_1 || opcode > OP_16 then NameParse(None, [], false, p)
      else
        var r := ReadArgs(s, p);
        NameParse(Some(opcode - OP_1 + 1), r.args, r.complete, if r.complete then SkipDrops(s, r.pc) else r.pc)
  }

  /** The return value of a DecodeNameScript call that starts with an empty argument vector. */
  predicate IsNameScript(s: Script) {
    var p := ParseNameScript(s);
    p.complete && ValidArity(p.op.GetOr(0), |p.args|)
  }

  /** DecodeNameScript with its by-reference parameters as in- and out-parameters. */
  method DecodeNameScript(s: Script, op0: nat, vvch0: seq<Bytes>)
    returns (ok: bool, op: nat, vvch: seq<Bytes>, pc: nat)
    ensures var p := ParseNameScript(s);
            && op == p.op.GetOr(op0)
            && vvch == vvch0 + p.args
            && pc == p.pc
            && ok == (p.complete && ValidArity(op, |vvch|))
  {
    ok, op, vvch, pc := false, op0, vvch0, 0;
    var r := GetOp(s, 0);
    pc := r.pc;
    if r.NoOp? || r.opcode < OP_1 || r.opcode > OP_16 {
      return;
    }
    op := r.opcode - OP_1 + 1;
    ghost var whole := ReadArgs(s, pc);
    while true
      invariant pc <= |s|
      invariant r.Op?
      invariant vvch + ReadArgs(s, pc).args == vvch0 + whole.args
      invariant ReadArgs(s, pc).complete == whole.complete && ReadArgs(s, pc).pc == whole.pc
      decreases |s| - pc
    {
      r := GetOp(s, pc);
      pc := r.pc;
      if r.NoOp? {
        return;
      }
      if DropLike(r.opcode) {
        break;
      }
      if r.opcode > OP_PUSHDATA4 {
        return;
      }
      vvch := vvch + [r.data];
    }
    while r.Op? && DropLike(r.opcode)
      invariant 0 < pc <= |s|
      invariant if r.Op? && DropLike(r.opcode) then SkipDrops(s, pc) == SkipDrops(s, whole.pc)
                else pc - 1 == SkipDrops(s, whole.pc)
      decreases |s| - pc, r.Op?
    {
      r := GetOp(s, pc);
      pc := r.pc;
    }
    pc := pc - 1;
    ok := ValidArity(op, |vvch|);
  }

  /** State of the loop that looks for the one name script among a transaction's outputs, or
      among the outputs it spends.  `op` and `args` are the caller's variables that every
      DecodeNameScript call writes to. */
  datatype Scan = Scan(found: bool, multiple: bool, index: nat, op: nat, args: seq<Bytes>)

  /** One iteration.  Under the strict rule every script is parsed into a fresh argument
      vector; under the old rule the vector is shared, so arguments concatenate. */
  function ScanStep(strict: bool, a: Scan, s: Script, i: nat): Scan {
    if a.multiple then a
    else
      var p := ParseNameScript(s);
      var op := p.op.GetOr(a.op);
      var args := if strict then p.args else a.args + p.args;
      if p.complete && ValidArity(op, |args|) then
        if a.found then a.(multiple := true) else Scan(true, false, i, op, args)
      else a.(op := op, args := if strict then a.args else args)
  }

  /** The scan after the first `n` scripts. */
  function ScanScripts(strict: bool, scripts: seq<Script>, n: nat): (a: Scan)
    requires n <= |scripts|
    ensures a.found ==> a.index < n && a.args != []
    ensures a.multiple ==> a.found
  {
    if n == 0 then Scan(false, false, 0, 0, [])
    else ScanStep(strict, ScanScripts(strict, scripts, n - 1), scripts[n - 1], n - 1)
  }

  /** The same loop with the variables of the source. */
  method ScanNameScripts(strict: bool, scripts: seq<Script>) returns (a: Scan)
    ensures a == ScanScripts(strict, scripts, |scripts|)
  {
    var found, multiple, index, op, vvch := false, false, 0, 0, [];
    var i := 0;
    while i < |scripts| && !multiple
      invariant i <= |scripts|
      invariant Scan(found, multiple, index, op, vvch) == ScanScripts(strict, scripts, i)
    {
      var ok, op', vvchRead, _ := DecodeNameScript(scripts[i], op, if strict then [] else vvch);
      if ok && found {
        multiple := true;
      } else {
        op := op';
        if ok {
          found, index := true, i;
        }
        if ok || !strict {
          vvch := vvchRead;
        }
      }
      i := i + 1;
    }
    a := Scan(found, multiple, index, op, vvch);
    MultipleStays(strict, scripts, i, |scripts|);
  }

  lemma {:induction false} MultipleStays(strict: bool, scripts: seq<Script>, i: nat, n: nat)
    requires i <= n <= |scripts|
    requires i == n || ScanScripts(strict, scripts, i).multiple
    ensures ScanScripts(strict, scripts, n) == ScanScripts(strict, scripts, i)
    decreases n
  {
    if i < n {
      MultipleStays(strict, scripts, i, n - 1);
    }
  }

  /** The scan of the first `n` scripts does not look at the others. */
  lemma {:induction false} ScanOfPrefix(strict: bool, scripts: seq<Script>, longer: seq<Script>, n: nat)
    requires n <= |scripts| && scripts <= longer
    ensures ScanScripts(strict, longer, n) == ScanScripts(strict, scripts, n)
  {
    if n > 0 {
      ScanOfPrefix(strict, scripts, longer, n - 1);
    }
  }

  /** Under the strict rule the scan is exact about which scripts decode.  (The operation it
      reports is another matter, see `OperationIsLastWritten`.) */
  lemma {:induction false} StrictScanExact(scripts: seq<Script>, n: nat)
    requires n <= |scripts|
    ensures var a := ScanScripts(true, scripts, n);
            && (!a.found ==> forall i :: 0 <= i < n ==> !IsNameScript(scripts[i]))
            && (a.found && !a.multiple ==>
                  && (forall i :: 0 <= i < n ==> (IsNameScript(scripts[i]) <==> i == a.index))
                  && a.args == ParseNameScript(scripts[a.index]).args)
            && (a.multiple ==> exists i, j :: 0 <= i < j < n && IsNameScript(scripts[i]) && IsNameScript(scripts[j]))
  {
    if n > 0 {
      StrictScanExact(scripts, n - 1);
      var a := ScanScripts(true, scripts, n - 1);
      if !a.multiple {
        StrictStepDecodes(a, scripts[n - 1], n - 1);
      }
    }
  }

  lemma StrictStepDecodes(a: Scan, s: Script, i: nat)
    requires !a.multiple
    ensures var b := ScanStep(true, a, s, i);
            if IsNameScript(s) then
              (if a.found then b == a.(multiple := true)
               else b == Scan(true, false, i, ParseNameScript(s).op.value, ParseNameScript(s).args))
            else b == a.(op := b.op)
  {
    CompleteHasOperation(s);
  }

  lemma CompleteHasOperation(s: Script)
    ensures ParseNameScript(s).complete ==> ParseNameScript(s).op.Some?
  {
  }

  // ----- what a name script is, instruction by instruction -----

  /** From the first of the positions on the script pushes `args`; at the last one stands no further
      push. */
  predicate Pushed(s: Script, pcs: seq<nat>, args: seq<Bytes>) {
    && |pcs| == |args| + 1
    && (forall i :: 0 <= i < |args| ==>
          && pcs[i] <= |s| && GetOp(s, pcs[i]).Op? && GetOp(s, pcs[i]).pc == pcs[i + 1]
          && GetOp(s, pcs[i]).opcode <= 78 && GetOp(s, pcs[i]).data == args[i])
    && pcs[|args|] <= |s| && (GetOp(s, pcs[|args|]).Op? ==> GetOp(s, pcs[|args|]).opcode > 78)
  }

  /** The script is a number from 1 to 16, as an instruction of one byte, and then these pushes. */
  predicate Spells(s: Script, number: nat, args: seq<Bytes>, pcs: seq<nat>) {
    && GetOp(s, 0).Op? && 1 <= number <= 16 && GetOp(s, 0).opcode == 80 + number
    && Pushed(s, pcs, args) && pcs[0] == GetOp(s, 0).pc
  }

  /** At the position stands NOP, 2DROP or DROP. */
  predicate Ends(s: Script, pc: nat) {
    pc <= |s| && GetOp(s, pc).Op? && GetOp(s, pc).opcode in {97, 109, 117}
  }

  lemma {:induction false} PushedArgs(s: Script, pcs: seq<nat>, args: seq<Bytes>)
    requires Pushed(s, pcs, args)
    ensures pcs[0] <= |s| && ReadArgs(s, pcs[0]).args == args
    ensures ReadArgs(s, pcs[0]).complete <==> Ends(s, pcs[|args|])
    decreases |args|
  {
    hide GetOp;
    if args != [] {
      assert Pushed(s, pcs[1..], args[1..]);
      PushedArgs(s, pcs[1..], args[1..]);
    }
  }

  lemma {:induction false} ArgsPushed(s: Script, pc: nat) returns (pcs: seq<nat>)
    requires pc <= |s|
    ensures Pushed(s, pcs, ReadArgs(s, pc).args) && pcs[0] == pc
    decreases |s| - pc
  {
    hide GetOp;
    var r := GetOp(s, pc);
    if r.Op? && r.opcode <= 78 {
      OpAdvances(s, pc);
      var rest := ArgsPushed(s, r.pc);
      pcs := [pc] + rest;
    } else {
      pcs := [pc];
    }
  }

  lemma OpAdvances(s: Script, pc: nat)
    requires pc <= |s|
    ensures GetOp(s, pc).pc <= |s| && (GetOp(s, pc).Op? ==> pc < GetOp(s, pc).pc)
  {
  }

  /** A number and pushes: the operation and the arguments of the parse, complete exactly when one of
      the three instructions follows. */
  lemma ParseExact(s: Script, number: nat, args: seq<Bytes>, pcs: seq<nat>)
    requires Spells(s, number, args, pcs)
    ensures var p := ParseNameScript(s);
            p.op == Some(number) && p.args == args && (p.complete <==> Ends(s, pcs[|args|]))
  {
    hide GetOp;
    PushedArgs(s, pcs, args);
  }

  /** Any other script has no operation. */
  lemma NoOperation(s: Script)
    requires GetOp(s, 0).Op? ==> GetOp(s, 0).opcode <= 80 || GetOp(s, 0).opcode > 96
    ensures ParseNameScript(s).op == None && ParseNameScript(s).args == [] && !ParseNameScript(s).complete
  {
    hide GetOp;
  }

  /** A name script is the number 1 and one push, 2 and three, or 3 and two, and then NOP, 2DROP or
      DROP, whatever follows. */
  lemma NameScriptExact(s: Script)
    ensures IsNameScript(s) <==>
              exists number, args, pcs ::
                && Spells(s, number, args, pcs) && Ends(s, pcs[|args|])
                && (number, |args|) in {(1, 1), (2, 3), (3, 2)}
  {
    hide GetOp, ReadArgs;
    if number, args, pcs :| Spells(s, number, args, pcs) && Ends(s, pcs[|args|])
                            && (number, |args|) in {(1, 1), (2, 3), (3, 2)} {
      ParseExact(s, number, args, pcs);
    }
    if IsNameScript(s) {
      var p := ParseNameScript(s);
      var pcs := ArgsPushed(s, GetOp(s, 0).pc);
      assert Spells(s, p.op.value, p.args, pcs);
      ParseExact(s, p.op.value, p.args, pcs);
    }
  }
}
