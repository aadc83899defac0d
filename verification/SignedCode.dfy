/** Erasing a signature from the code it signs (src/script.h). */
module SignedCode {
  import opened Common
  import opened ScriptCode
  import opened ScriptMachine

  predicate PushAt(s: Script, b: Bytes, pc: nat) {
    pc + |b| <= |s| && s[pc..pc + |b|] == b
  }

  /** CScript::FindAndDelete. */
  method FindAndDeleteInPlace(script: Script, b: Bytes) returns (s: Script)
    ensures s == FindAndDelete(script, b)
  {
    hide GetOp;
    s := script;
    if b == [] {
      return;
    }
    var pc: nat := 0;
    var more := true;
    while more
      invariant pc <= |s|
      invariant if more then DeleteFrom(s, pc, b) == DeleteFrom(script, 0, b) else s == DeleteFrom(script, 0, b)
      decreases |s| - pc, |s|, more
    {
      if PushAt(s, b, pc) {
        s := s[..pc] + s[pc + |b|..];
      } else {
        match GetOp(s, pc) {
          case NoOp(_) => more := false;
          case Op(_, _, next) => pc := next;
        }
      }
    }
  }

  /** From `pc` on, no instruction boundary of `s` has `b` behind it. */
  ghost predicate CleanFrom(s: Script, b: Bytes, pc: nat)
    requires pc <= |s|
    decreases |s| - pc
  {
    !PushAt(s, b, pc) && (GetOp(s, pc).Op? ==> CleanFrom(s, b, GetOp(s, pc).pc))
  }

  /** Reading an instruction depends on its own bytes only. */
  lemma GetOpLocal(s: Script, t: Script, pc: nat)
    requires pc <= |s| && GetOp(s, pc).Op?
    requires GetOp(s, pc).pc <= |t| && t[..GetOp(s, pc).pc] == s[..GetOp(s, pc).pc]
    ensures GetOp(t, pc) == GetOp(s, pc)
  {
    var next := GetOp(s, pc).pc;
    assert forall k :: 0 <= k < next ==> s[k] == s[..next][k] == t[k];
    var w := SizeBytes(s[pc]);
    if s[pc] <= OP_PUSHDATA4 {
      assert s[pc + 1..pc + 1 + w] == t[pc + 1..pc + 1 + w];
      assert s[pc + 1 + w..next] == t[pc + 1 + w..next];
    }
  }

  /** A push found at an instruction boundary is that instruction. */
  lemma PushIsInstruction(s: Script, data: Bytes, pc: nat)
    requires |data| < 0x1_0000_0000 && PushAt(s, PushData(data), pc)
    ensures GetOp(s, pc).Op? && GetOp(s, pc).pc == pc + |PushData(data)|
  {
    hide PushData, GetOp;
    var b := PushData(data);
    var pre, post := s[..pc], s[pc + |b|..];
    assert s == pre + b + post;
    GetOpReadsPush(pre, data, post);
  }

  lemma {:induction false} DeleteKeepsFront(s: Script, pc: nat, b: Bytes)
    requires pc <= |s| && b != []
    ensures pc <= |DeleteFrom(s, pc, b)| && DeleteFrom(s, pc, b)[..pc] == s[..pc]
    decreases |s| - pc, |s|
  {
    hide GetOp;
    if PushAt(s, b, pc) {
      var t := s[..pc] + s[pc + |b|..];
      DeleteKeepsFront(t, pc, b);
      assert t[..pc] == s[..pc];
    } else {
      match GetOp(s, pc) {
        case NoOp(_) =>
        case Op(_, _, next) =>
          DeleteKeepsFront(s, next, b);
          var r := DeleteFrom(s, next, b);
          assert r[..pc] == r[..next][..pc] == s[..next][..pc] == s[..pc];
      }
    }
  }

  /** After erasing a push, no instruction of what remains is that push. */
  lemma {:induction false} DeleteLeavesNone(s: Script, pc: nat, data: Bytes)
    requires pc <= |s| && |data| < 0x1_0000_0000 && PushData(data) != []
    ensures pc <= |DeleteFrom(s, pc, PushData(data))|
            && CleanFrom(DeleteFrom(s, pc, PushData(data)), PushData(data), pc)
    decreases |s| - pc, |s|
  {
    hide GetOp, PushData;
    var b := PushData(data);
    DeleteKeepsFront(s, pc, b);
    if PushAt(s, b, pc) {
      DeleteLeavesNone(s[..pc] + s[pc + |b|..], pc, data);
    } else {
      match GetOp(s, pc) {
        case NoOp(_) =>
        case Op(_, _, next) =>
          DeleteLeavesNone(s, next, data);
          DeleteKeepsFront(s, next, b);
          var r := DeleteFrom(s, next, b);
          GetOpLocal(s, r, pc);
          assert s[pc..next] == s[..next][pc..] == r[..next][pc..] == r[pc..next];
          if PushAt(r, b, pc) {
            PushIsInstruction(r, data, pc);
          }
      }
    }
  }

  lemma {:induction false} CleanStays(s: Script, b: Bytes, pc: nat)
    requires pc <= |s| && b != [] && CleanFrom(s, b, pc)
    ensures DeleteFrom(s, pc, b) == s
    decreases |s| - pc
  {
    hide GetOp;
    if GetOp(s, pc).Op? {
      CleanStays(s, b, GetOp(s, pc).pc);
    }
  }

  /** The code that is checked contains no push of the signature, and erasing it again changes
      nothing. */
  lemma SignatureErased(code: Script, sig: Bytes)
    requires |sig| < 0x1_0000_0000
    ensures var b := PushData(sig);
            CleanFrom(FindAndDelete(code, b), b, 0)
            && FindAndDelete(FindAndDelete(code, b), b) == FindAndDelete(code, b)
  {
    hide CleanFrom;
    DeleteLeavesNone(code, 0, sig);
    CleanStays(FindAndDelete(code, PushData(sig)), PushData(sig), 0);
  }
}
