/** rellic's AST utilities: the logical-expression builders, the in-place
    child replacement every transforming pass relies on, and the
    replacing of non-alphanumeric characters in names by `_`. */
module Util {
  import opened Ast
  import opened Semantics

  // ---------------------------------------------------------------------
  // Logical-expression builders. A null operand is `None`; a missing
  // operand of `&&` or `||` is dropped, so it behaves as that operator's
  // neutral element.
  // ---------------------------------------------------------------------

  /** A binary logical node of type bool; with one operand missing, the other one */
  function CreateBoolBinOp(opc: BinaryOpcode, lhs: StmtPtr, rhs: StmtPtr): (r: Stmt)
    requires lhs.Some? || rhs.Some?
    ensures lhs.None? ==> rhs == Some(r)
    ensures lhs.Some? && rhs.None? ==> lhs == Some(r)
    ensures lhs.Some? && rhs.Some? ==> r.BinaryOperator? && r.bop == opc && r.ty == BoolTy
    ensures lhs.Some? && rhs.Some? ==> r.lhs == lhs.value && r.rhs == rhs.value
  {
    if lhs.None? then
      rhs.value
    else if rhs.None? then
      lhs.value
    else
      BinaryOperator(opc, lhs.value, rhs.value, BoolTy)
  }

  function CreateAndExpr(lhs: StmtPtr, rhs: StmtPtr): (r: Stmt)
    requires lhs.Some? || rhs.Some?
    ensures lhs.Some? && rhs.Some? ==> r.BinaryOperator? && r.bop == LAnd && r.ty == BoolTy
    ensures lhs.Some? && rhs.Some? ==> r.lhs == lhs.value && r.rhs == rhs.value
    ensures lhs.None? ==> rhs == Some(r)
    ensures rhs.None? ==> lhs == Some(r)
    ensures forall env :: Holds(env, r) == (OperandHolds(env, lhs, true) && OperandHolds(env, rhs, true))
  {
    CreateBoolBinOp(LAnd, lhs, rhs)
  }

  function CreateOrExpr(lhs: StmtPtr, rhs: StmtPtr): (r: Stmt)
    requires lhs.Some? || rhs.Some?
    ensures lhs.Some? && rhs.Some? ==> r.BinaryOperator? && r.bop == LOr && r.ty == BoolTy
    ensures lhs.Some? && rhs.Some? ==> r.lhs == lhs.value && r.rhs == rhs.value
    ensures lhs.None? ==> rhs == Some(r)
    ensures rhs.None? ==> lhs == Some(r)
    ensures forall env :: Holds(env, r) == (OperandHolds(env, lhs, false) || OperandHolds(env, rhs, false))
  {
    CreateBoolBinOp(LOr, lhs, rhs)
  }

  function CreateParenExpr(expr: Stmt): (r: Stmt)
    ensures r.ParenExpr? && r.sub == expr
    ensures forall env :: Value(env, r) == Value(env, expr)
  {
    ParenExpr(expr)
  }

  /** `!(op)` of type bool */
  function CreateNotExpr(op: StmtPtr): (r: Stmt)
    requires op.Some?
    ensures r.UnaryOperator? && r.uop == LNot && r.ty == BoolTy && r.sub == ParenExpr(op.value)
    ensures forall env :: Holds(env, r) == !Holds(env, op.value)
  {
    UnaryOperator(LNot, CreateParenExpr(op.value), BoolTy)
  }

  /** The unsigned int literal 1 */
  function CreateTrueExpr(): (r: Stmt)
    ensures r.IntegerLiteral? && r.value == 1 && r.ty == UnsignedIntTy
    ensures forall env :: Holds(env, r)
  {
    IntegerLiteral(1, UnsignedIntTy)
  }

  /** `(void *)0u`, a null-to-pointer cast of an unsigned int zero */
  function CreateNullPointerExpr(): (r: Stmt)
    ensures r.CStyleCastExpr? && r.ty == VoidPtrTy && r.cast == NullToPointer
    ensures r.sub.IntegerLiteral? && r.sub.value == 0 && r.sub.ty == UnsignedIntTy
    ensures forall env :: !Holds(env, r)
  {
    CStyleCastExpr(VoidPtrTy, NullToPointer, IntegerLiteral(0, UnsignedIntTy))
  }

  // ---------------------------------------------------------------------
  // ReplaceChildren
  // ---------------------------------------------------------------------

  /** What a child slot holds after replacement */
  function Lookup(replMap: StmtMap, s: StmtPtr): StmtPtr {
    if s in replMap then replMap[s] else s
  }

  /** The child slots after replacement, built left to right */
  function Replaced(slots: seq<StmtPtr>, replMap: StmtMap): seq<StmtPtr> {
    if slots == [] then []
    else Replaced(slots[..|slots| - 1], replMap) + [Lookup(replMap, slots[|slots| - 1])]
  }

  /** Some slot, scanned left to right, is a key of the map */
  predicate AnyKey(slots: seq<StmtPtr>, replMap: StmtMap) {
    slots != [] && (AnyKey(slots[..|slots| - 1], replMap) || slots[|slots| - 1] in replMap)
  }

  lemma {:induction false} ReplacedSlots(slots: seq<StmtPtr>, replMap: StmtMap)
    ensures |Replaced(slots, replMap)| == |slots|
    ensures forall i :: 0 <= i < |slots| ==> Replaced(slots, replMap)[i] == Lookup(replMap, slots[i])
  {
    if slots != [] {
      ReplacedSlots(slots[..|slots| - 1], replMap);
    }
  }

  lemma {:induction false} AnyKeyExists(slots: seq<StmtPtr>, replMap: StmtMap)
    ensures AnyKey(slots, replMap) <==> exists i :: 0 <= i < |slots| && slots[i] in replMap
  {
    if slots != [] {
      var init := slots[..|slots| - 1];
      AnyKeyExists(init, replMap);
      if AnyKey(init, replMap) {
        var i :| 0 <= i < |init| && init[i] in replMap;
        assert slots[i] in replMap;
      }
    }
  }

  /** With no slot a key, replacement changes nothing and reports nothing */
  lemma NoKeyNoChange(slots: seq<StmtPtr>, replMap: StmtMap)
    requires forall i :: 0 <= i < |slots| ==> slots[i] !in replMap
    ensures !AnyKey(slots, replMap)
    ensures Replaced(slots, replMap) == slots
  {
    AnyKeyExists(slots, replMap);
    ReplacedSlots(slots, replMap);
  }

  /** A hit is reported even when the replacement equals the original */
  lemma SelfReplacementReported(slots: seq<StmtPtr>, x: StmtPtr)
    requires x in slots
    ensures AnyKey(slots, map[x := x])
    ensures Replaced(slots, map[x := x]) == slots
  {
    var i :| 0 <= i < |slots| && slots[i] == x;
    AnyKeyExists(slots, map[x := x]);
    ReplacedSlots(slots, map[x := x]);
  }

  /** Overwrites, in place, every child slot that is a key of `replMap` with
      its replacement, and reports whether any slot was a key. `children`
      is the node's array of child slots; the map is a value and is not
      changed. */
  method ReplaceChildren(children: array<StmtPtr>, replMap: StmtMap) returns (change: bool)
    modifies children
    ensures children[..] == Replaced(old(children[..]), replMap)
    ensures forall i :: 0 <= i < children.Length ==> children[i] == Lookup(replMap, old(children[i]))
    ensures change == AnyKey(old(children[..]), replMap)
    ensures change <==> exists i :: 0 <= i < children.Length && old(children[i]) in replMap
  {
    ghost var original := children[..];
    change := false;
    var i := 0;
    while i < children.Length
      invariant 0 <= i <= children.Length
      invariant children[..i] == Replaced(original[..i], replMap)
      invariant children[i..] == original[i..]
      invariant change == AnyKey(original[..i], replMap)
    {
      var c := children[i];
      assert c == original[i];
      if c in replMap {
        children[i] := replMap[c];
        change := true;
      }
      assert original[..i + 1][..i] == original[..i];
      assert children[..i + 1] == children[..i] + [children[i]];
      i := i + 1;
    }
    assert original[..children.Length] == original;
    assert children[..children.Length] == children[..];
    ReplacedSlots(original, replMap);
    AnyKeyExists(original, replMap);
  }

  // ---------------------------------------------------------------------
  // CreateIdentifier
  // ---------------------------------------------------------------------

  /** `std::isalnum` in the "C" locale */
  predicate IsAlnum(c: char) {
    ('0' <= c <= '9') || ('A' <= c <= 'Z') || ('a' <= c <= 'z')
  }

  function SanitizeChar(c: char): char {
    if IsAlnum(c) then c else '_'
  }

  /** The sanitised spelling, accumulated left to right */
  function Sanitized(name: string): string {
    if name == [] then []
    else Sanitized(name[..|name| - 1]) + [SanitizeChar(name[|name| - 1])]
  }

  lemma {:induction false} SanitizedChars(name: string)
    ensures |Sanitized(name)| == |name|
    ensures forall i :: 0 <= i < |name| ==> Sanitized(name)[i] == SanitizeChar(name[i])
  {
    if name != [] {
      SanitizedChars(name[..|name| - 1]);
    }
  }

  /** Every character of a sanitised name may appear in a C identifier */
  lemma SanitizedUsesIdentifierChars(name: string)
    ensures forall c :: c in Sanitized(name) ==> IsAlnum(c) || c == '_'
  {
    SanitizedChars(name);
  }

  lemma SanitizedIdempotent(name: string)
    ensures Sanitized(Sanitized(name)) == Sanitized(name)
  {
    SanitizedChars(name);
    SanitizedChars(Sanitized(name));
  }

  /** The spelling of the identifier clang interns for `name`: each
      character kept when alphanumeric and replaced by `_` otherwise. */
  method CreateIdentifier(name: string) returns (id: string)
    ensures |id| == |name|
    ensures forall i :: 0 <= i < |name| ==> id[i] == (if IsAlnum(name[i]) then name[i] else '_')
    ensures id == Sanitized(name)
  {
    var str := "";
    for i := 0 to |name|
      invariant str == Sanitized(name[..i])
    {
      assert name[..i + 1][..i] == name[..i];
      str := str + [if IsAlnum(name[i]) then name[i] else '_'];
    }
    assert name[..|name|] == name;
    SanitizedChars(name);
    id := str;
  }
}
